/** The proof-request helper: from a schema record it builds the dictionary
    of requested attributes, each restricted to that schema's name and
    version. */
module RequestedAttributes {
  import opened Wrappers
  import opened Json
  import ApiHandler

  /** One restriction `{schema_name, schema_version}`. */
  function Restriction(schemaName: Json, schemaVersion: Json): Json
  {
    JObject(map["schema_name" := schemaName, "schema_version" := schemaVersion])
  }

  /** The entry for one attribute: its name and a single restriction. */
  function RequestedAttribute(attribute: string, schemaName: Json, schemaVersion: Json): Json
  {
    JObject(map[
      "name" := JString(attribute),
      "restrictions" := JArray([Restriction(schemaName, schemaVersion)])
    ])
  }

  /** The loop over the attribute list: each attribute, in list order,
      assigns its own entry, so a repeated attribute overwrites an equal
      entry. The keys are exactly the listed attributes and every entry is
      the canonical entry for its key. */
  function Generate(attributes: seq<string>, schemaName: Json, schemaVersion: Json): (r: map<string, Json>)
    ensures r.Keys == set a | a in attributes
    ensures forall k | k in r :: r[k] == RequestedAttribute(k, schemaName, schemaVersion)
    decreases |attributes|
  {
    if |attributes| == 0 then map[]
    else
      var last := attributes[|attributes| - 1];
      Generate(attributes[..|attributes| - 1], schemaName, schemaVersion)
        [last := RequestedAttribute(last, schemaName, schemaVersion)]
  }

  /** The attribute list of a schema value when it is a list of strings. */
  function AttributeNames(items: seq<Json>): (r: Option<seq<string>>)
    ensures r.Some? <==> forall i | 0 <= i < |items| :: items[i].JString?
    ensures r.Some? ==> |r.value| == |items|
    ensures r.Some? ==> forall i | 0 <= i < |items| :: items[i] == JString(r.value[i])
  {
    if |items| == 0 then Some([])
    else match (items[0], AttributeNames(items[1..]))
      case (JString(a), Some(rest)) => Some([a] + rest)
      case _ => None
  }

  /** `generate_requested_attributes(schema)`. A schema without an
      `attributes` key raises a KeyError. The name and version are looked up
      only inside the loop, so an empty attribute list yields an empty
      dictionary even when they are missing. */
  function GenerateRequestedAttributes(schema: Json): (r: Result<Json, PyError>)
    ensures Lookup(schema, "attributes").Failure? ==> r == Failure(Lookup(schema, "attributes").error)
    ensures Lookup(schema, "attributes") == Success(JArray([])) ==> r == Success(JObject(map[]))
    ensures r.Success? ==> Lookup(schema, "attributes").Success?
    ensures r.Success? ==>
      var list := Lookup(schema, "attributes").value;
      && list.JArray?
      && (forall i | 0 <= i < |list.items| :: list.items[i].JString?)
      && r.value.JObject?
      && r.value.fields.Keys == set i | 0 <= i < |list.items| :: list.items[i].str
    ensures
      && schema.JObject?
      && "attributes" in schema.fields && schema.fields["attributes"].JArray?
      && (forall i | 0 <= i < |schema.fields["attributes"].items| :: schema.fields["attributes"].items[i].JString?)
      && "schema_name" in schema.fields && "schema_version" in schema.fields
      ==> r.Success?
    ensures
      && schema.JObject?
      && "attributes" in schema.fields && schema.fields["attributes"].JArray?
      && |schema.fields["attributes"].items| > 0
      && (forall i | 0 <= i < |schema.fields["attributes"].items| :: schema.fields["attributes"].items[i].JString?)
      && ("schema_name" !in schema.fields || "schema_version" !in schema.fields)
      ==> r == Failure(KeyError)
  {
    var list :- Lookup(schema, "attributes");
    if !list.JArray? then Failure(TypeError)
    else match AttributeNames(list.items)
      case None => Failure(TypeError)
      case Some(names) =>
        if |names| == 0 then Success(JObject(map[]))
        else
          var schemaName :- Lookup(schema, "schema_name");
          var schemaVersion :- Lookup(schema, "schema_version");
          Success(JObject(Generate(names, schemaName, schemaVersion)))
  }

  /** Read back through dictionary lookups, every entry is named after its
      key and carries exactly one restriction, whose schema name and version
      are the inputs. */
  lemma GeneratedEntries(attributes: seq<string>, schemaName: Json, schemaVersion: Json, k: string)
    requires k in Generate(attributes, schemaName, schemaVersion)
    ensures var entry := Generate(attributes, schemaName, schemaVersion)[k];
      && Lookup(entry, "name") == Success(JString(k))
      && Lookup(entry, "restrictions").Success?
      && Lookup(entry, "restrictions").value.JArray?
      && |Lookup(entry, "restrictions").value.items| == 1
      && Lookup(Lookup(entry, "restrictions").value.items[0], "schema_name") == Success(schemaName)
      && Lookup(Lookup(entry, "restrictions").value.items[0], "schema_version") == Success(schemaVersion)
  {
  }

  /** Any two entries differ only in their `name`: the restrictions are shared. */
  lemma SameRestrictions(attributes: seq<string>, schemaName: Json, schemaVersion: Json, k1: string, k2: string)
    requires k1 in Generate(attributes, schemaName, schemaVersion)
    requires k2 in Generate(attributes, schemaName, schemaVersion)
    ensures var r := Generate(attributes, schemaName, schemaVersion);
      Lookup(r[k1], "restrictions") == Lookup(r[k2], "restrictions")
      && r[k1].fields.Keys == r[k2].fields.Keys
  {
  }

  /** The result depends only on the set of attributes, not on their order
      or repetition. */
  lemma OnlySetMatters(a: seq<string>, b: seq<string>, schemaName: Json, schemaVersion: Json)
    requires (set x | x in a) == (set x | x in b)
    ensures Generate(a, schemaName, schemaVersion) == Generate(b, schemaName, schemaVersion)
  {
  }

  /** A list holds at most as many distinct strings as it has elements. */
  lemma {:induction false} DistinctAtMostLength(s: seq<string>)
    ensures |set x | x in s| <= |s|
    decreases |s|
  {
    if |s| > 0 {
      var init := s[..|s| - 1];
      DistinctAtMostLength(init);
      assert (set x | x in s) == (set x | x in init) + {s[|s| - 1]};
    }
  }

  /** Duplicates collapse: the dictionary is never larger than the list. */
  lemma SizeAtMostLength(attributes: seq<string>, schemaName: Json, schemaVersion: Json)
    ensures |Generate(attributes, schemaName, schemaVersion)| <= |attributes|
  {
    var r := Generate(attributes, schemaName, schemaVersion);
    DistinctAtMostLength(attributes);
    assert |r| == |r.Keys|;
  }

  /** The attribute names as JSON strings. */
  function AsJson(names: seq<string>): (items: seq<Json>)
    ensures |items| == |names|
    ensures forall i | 0 <= i < |names| :: items[i] == JString(names[i])
  {
    if |names| == 0 then [] else [JString(names[0])] + AsJson(names[1..])
  }

  lemma {:induction false} AttributeNamesAsJson(names: seq<string>)
    ensures AttributeNames(AsJson(names)) == Some(names)
    decreases |names|
  {
    if |names| > 0 {
      var items := AsJson(names);
      assert items[1..] == AsJson(names[1..]);
      AttributeNamesAsJson(names[1..]);
      assert names == [names[0]] + names[1..];
    }
  }

  /** On a schema holding a list of strings and both the name and
      the version, the generator yields the entries of `Generate` for them. */
  lemma GenerateOnWellFormed(schema: Json, names: seq<string>, schemaName: Json, schemaVersion: Json)
    requires Lookup(schema, "attributes") == Success(JArray(AsJson(names)))
    requires Lookup(schema, "schema_name") == Success(schemaName)
    requires Lookup(schema, "schema_version") == Success(schemaVersion)
    ensures GenerateRequestedAttributes(schema) == Success(JObject(Generate(names, schemaName, schemaVersion)))
  {
    AttributeNamesAsJson(names);
  }

  /** The schema body the client posts to create a schema has exactly the
      shape the generator reads: feeding it back yields one entry per
      attribute, restricted to that schema's name and version. */
  lemma SchemaBodyFeedsGenerator(h: ApiHandler.Handler, schemaName: string, schemaVersion: string, names: seq<string>)
    ensures var body := ApiHandler.CreateSchema(h, schemaName, schemaVersion, AsJson(names)).body.value;
      GenerateRequestedAttributes(body) == Success(JObject(Generate(names, JString(schemaName), JString(schemaVersion))))
  {
    var body := ApiHandler.CreateSchema(h, schemaName, schemaVersion, AsJson(names)).body.value;
    GenerateOnWellFormed(body, names, JString(schemaName), JString(schemaVersion));
  }
}
