/** The request-building half of the client for the identity agent's REST
    interface (library/api_handler.py). Every operation is split into the
    request it would send, a `Request` value, and where the code inspects
    the reply, a function of the decoded response. Sending is not modelled. */
module ApiHandler {
  import opened Wrappers
  import opened Builtins
  import opened Json

  /** The endpoint table. */
  const Endpoints: map<string, string> := map[
    "create_invitation" := "/connections/create-invitation",
    "receive_invitation" := "/connections/receive-invitation",
    "base_connections" := "/connections/",
    "accept_invitation" := "/accept-invitation",
    "accept_request" := "/accept-request",
    "issue_credential" := "/issue-credential/send",
    "create_registry" := "/revocation/create-registry",
    "get_credentials" := "/credentials",
    "send_proposal" := "/present-proof/send-request",
    "base_proof" := "/present-proof/records",
    "verify_presentation" := "/verify-presentation",
    "send_presentation" := "/send-presentation"
  ]

  /** Connection states the client understands, with their numeric codes. */
  const States: map<string, int> := map["request" := 0, "active" := 1, "invitation" := 2]

  /** The number of revocable credentials requested for a new definition. */
  const RevocationRegistrySize := 1000

  /** The marker in an invitation URL that precedes the encoded invitation. */
  const InvitationMarker := "c_i="

  const Scheme := "http://"

  /** The handler's only state: the agent's base URL. */
  datatype Handler = Handler(apiUrl: string)

  datatype Verb = GET | POST

  /** An HTTP request as the client hands it to the transport: query
      parameters and an optional JSON body. */
  datatype Request = Request(verb: Verb, url: string, params: map<string, string>, body: Option<Json>)

  // ------------------------------------------------------------ base URL

  /** Splits a base URL back into host and port: the text after the scheme
      up to the last ':' is the host, the rest must be a decimal number. */
  function ReadBaseUrl(url: string): Option<(string, int)>
  {
    if |url| < |Scheme| || url[..|Scheme|] != Scheme then None
    else
      var rest := url[|Scheme|..];
      match LastIndexOf(rest, ':')
      case None => None
      case Some(k) =>
        match ReadDecimal(rest[k + 1..])
        case None => None
        case Some(port) => Some((rest[..k], port))
  }

  /** `f"http://{api_url}:{port}"`: host and port can always be read back,
      whatever characters the host contains. */
  function BaseUrl(host: string, port: int): (url: string)
    ensures |url| >= |Scheme| && url[..|Scheme|] == Scheme
    ensures ReadBaseUrl(url) == Some((host, port))
  {
    var digits := IntToDecimal(port);
    var url := Scheme + host + ":" + digits;
    var rest := host + ":" + digits;
    assert url[|Scheme|..] == rest;
    LastIndexOfSplit(host, ':', digits);
    assert rest[..|host|] == host;
    assert rest[|host| + 1..] == digits;
    DecimalRoundTrip(port);
    url
  }

  /** Only one URL reads back as a given host and port: the one `BaseUrl`
      writes, with the port in `str` spelling. */
  lemma BaseUrlUnique(url: string, host: string, port: int)
    requires ReadBaseUrl(url) == Some((host, port))
    ensures url == BaseUrl(host, port)
  {
    var rest := url[|Scheme|..];
    var k := LastIndexOf(rest, ':').value;
    var digits := rest[k + 1..];
    ReadDecimalCanonical(digits, port);
    assert rest == rest[..k] + [':'] + digits;
    assert url == Scheme + rest;
  }

  /** `ApiHandler(api_url, port)` */
  function NewHandler(host: string, port: int): (h: Handler)
    ensures ReadBaseUrl(h.apiUrl) == Some((host, port))
  {
    Handler(BaseUrl(host, port))
  }

  /** `set_url`: the new base URL replaces the old one entirely, so the
      handler afterwards is the one a fresh construction would give. */
  function SetUrl(h: Handler, host: string, port: int): (h': Handler)
    ensures ReadBaseUrl(h'.apiUrl) == Some((host, port))
    ensures h' == NewHandler(host, port)
  {
    Handler(BaseUrl(host, port))
  }

  // ------------------------------------------------------------ format_bool

  /** `format_bool(x)`: a bool becomes its lower-case spelling, anything
      else passes through untouched. */
  function FormatBool(x: Json): (r: Json)
    ensures x.JBool? ==> r == JString(if x.b then "true" else "false")
    ensures !x.JBool? ==> r == x
  {
    if x.JBool? then
      var s := BoolRepr(x.b);
      assert Lower(s) == if x.b then "true" else "false";
      JString(Lower(s))
    else x
  }

  /** Formatting twice is formatting once. */
  lemma FormatBoolIdempotent(x: Json)
    ensures FormatBool(FormatBool(x)) == FormatBool(x)
  {
  }

  /** `f"{format_bool(b)}"` for a bool, as placed in query parameters. */
  function BoolParam(b: bool): (s: string)
    ensures s == "true" <==> b
    ensures s == "false" <==> !b
  {
    FormatBool(JBool(b)).str
  }

  // ------------------------------------------------------- paths and ids

  /** The text between a known prefix and suffix, if `s` has that shape. */
  function Between(s: string, prefix: string, suffix: string): Option<string>
  {
    if |prefix| + |suffix| <= |s| && s[..|prefix|] == prefix && s[|s| - |suffix|..] == suffix
    then Some(s[|prefix|..|s| - |suffix|])
    else None
  }

  lemma BetweenConcat(prefix: string, x: string, suffix: string)
    ensures Between(prefix + x + suffix, prefix, suffix) == Some(x)
  {
    var s := prefix + x + suffix;
    assert s[..|prefix|] == prefix;
    assert s[|s| - |suffix|..] == suffix;
    assert s[|prefix|..|s| - |suffix|] == x;
  }

  /** A URL built from a fixed prefix, a caller-supplied id and a fixed
      suffix; the id can be read back from it, so distinct ids give
      distinct URLs. */
  function IdUrl(prefix: string, id: string, suffix: string): (url: string)
    ensures Between(url, prefix, suffix) == Some(id)
    ensures |url| == |prefix| + |id| + |suffix|
  {
    BetweenConcat(prefix, id, suffix);
    prefix + id + suffix
  }

  // ------------------------------------------------------------ connections

  /** `create_invitation`: the query parameters of the request. */
  function CreateInvitation(h: Handler, alias: string, multiUse: bool, autoAccept: bool): (r: Request)
    ensures r.verb == POST && r.body == None
    ensures r.url == h.apiUrl + "/connections/create-invitation"
    ensures r.params.Keys == {"alias", "auto_accept", "multi_use"}
    ensures r.params["alias"] == alias
    ensures r.params["auto_accept"] == (if autoAccept then "true" else "false")
    ensures r.params["multi_use"] == (if multiUse then "true" else "false")
  {
    Request(POST, h.apiUrl + Endpoints["create_invitation"],
      map["alias" := alias, "auto_accept" := BoolParam(autoAccept), "multi_use" := BoolParam(multiUse)],
      None)
  }

  /** `invitation_url.split("c_i=")[1]`: the text after the first marker up
      to the next marker or the end; an IndexError when there is no marker. */
  function InvitationPayload(url: string): (r: Result<string, PyError>)
    ensures r.Success? <==> Contains(url, InvitationMarker)
    ensures r.Failure? ==> r.error == IndexError
    ensures r.Success? ==> forall i: nat | FirstAt(url, InvitationMarker, i) ::
      var start := i + |InvitationMarker|;
      var end := start + |r.value|;
      && end <= |url|
      && url[start..end] == r.value
      && (forall j | start <= j < end :: !OccursAt(url, InvitationMarker, j))
      && (end == |url| || OccursAt(url, InvitationMarker, end))
  {
    var parts := Split(url, InvitationMarker);
    SplitCount(url, InvitationMarker, parts);
    if |parts| > 1 then
      SecondPieceAfterFirst(url, InvitationMarker, parts);
      Success(parts[1])
    else
      Failure(IndexError)
  }

  /** The reply to `create_invitation`: the connection id and the encoded
      invitation cut out of the invitation URL. */
  function CreateInvitationResult(response: Json): (r: Result<(Json, string), PyError>)
    ensures r.Success? ==> Lookup(response, "connection_id") == Success(r.value.0)
    ensures r.Success? ==>
      && Lookup(response, "invitation_url").Success?
      && Lookup(response, "invitation_url").value.JString?
      && InvitationPayload(Lookup(response, "invitation_url").value.str) == Success(r.value.1)
    ensures Lookup(response, "connection_id").Failure? ==> r == Failure(Lookup(response, "connection_id").error)
    ensures Lookup(response, "connection_id").Success? && Lookup(response, "invitation_url").Failure? ==>
      r == Failure(Lookup(response, "invitation_url").error)
    ensures Lookup(response, "connection_id").Success? && Lookup(response, "invitation_url").Success? ==>
      var url := Lookup(response, "invitation_url").value;
      && (!url.JString? ==> r == Failure(AttributeError))
      && (url.JString? && !Contains(url.str, InvitationMarker) ==> r == Failure(IndexError))
      && (url.JString? && Contains(url.str, InvitationMarker) ==>
            r == Success((Lookup(response, "connection_id").value, InvitationPayload(url.str).value)))
  {
    var connectionId :- Lookup(response, "connection_id");
    var url :- Lookup(response, "invitation_url");
    if !url.JString? then Failure(AttributeError)
    else
      var payload :- InvitationPayload(url.str);
      Success((connectionId, payload))
  }

  /** `receive_invitation`: the already decoded invitation is the body. */
  function ReceiveInvitation(h: Handler, invitation: Json, alias: string, autoAccept: bool): (r: Request)
    ensures r.verb == POST && r.body == Some(invitation)
    ensures r.url == h.apiUrl + "/connections/receive-invitation"
    ensures r.params.Keys == {"alias", "auto_accept"}
    ensures r.params["alias"] == alias
    ensures r.params["auto_accept"] == (if autoAccept then "true" else "false")
  {
    Request(POST, h.apiUrl + Endpoints["receive_invitation"],
      map["alias" := alias, "auto_accept" := BoolParam(autoAccept)], Some(invitation))
  }

  /** The reply to `receive_invitation`: its `connection_id`. */
  function ReceiveInvitationResult(response: Json): (r: Result<Json, PyError>)
    ensures r.Success? <==> response.JObject? && "connection_id" in response.fields
    ensures r.Success? ==> r.value == response.fields["connection_id"]
    ensures r.Failure? ==> r.error == (if response.JObject? then KeyError else TypeError)
  {
    Lookup(response, "connection_id")
  }

  /** `accept_invitation`: a body-less POST on the connection's own path. */
  function AcceptInvitation(h: Handler, connectionId: string): (r: Request)
    ensures r.verb == POST && r.body == None && r.params == map[]
    ensures Between(r.url, h.apiUrl + "/connections/", "/accept-invitation") == Some(connectionId)
  {
    Request(POST, IdUrl(h.apiUrl + Endpoints["base_connections"], connectionId, Endpoints["accept_invitation"]), map[], None)
  }

  /** `accept_request`: a body-less POST on the connection's own path. */
  function AcceptRequest(h: Handler, connectionId: string): (r: Request)
    ensures r.verb == POST && r.body == None && r.params == map[]
    ensures Between(r.url, h.apiUrl + "/connections/", "/accept-request") == Some(connectionId)
  {
    Request(POST, IdUrl(h.apiUrl + Endpoints["base_connections"], connectionId, Endpoints["accept_request"]), map[], None)
  }

  /** `states[state]`: the three known states map to 0, 1 and 2; any other
      string (or number, bool or null) is a KeyError, a list or dictionary
      is unhashable and raises a TypeError. */
  function StateCode(state: Json): (r: Result<int, PyError>)
    ensures r == Success(0) <==> state == JString("request")
    ensures r == Success(1) <==> state == JString("active")
    ensures r == Success(2) <==> state == JString("invitation")
    ensures r.Success? ==> 0 <= r.value <= 2
    ensures r.Failure? ==> (r.error == TypeError <==> state.JArray? || state.JObject?)
    ensures r.Failure? ==> r.error in {KeyError, TypeError}
  {
    match state
    case JString(s) => if s in States then Success(States[s]) else Failure(KeyError)
    case JArray(_) => Failure(TypeError)
    case JObject(_) => Failure(TypeError)
    case _ => Failure(KeyError)
  }

  /** `get_connection_state`: the GET it sends. */
  function ConnectionStateRequest(h: Handler, connectionId: string): (r: Request)
    ensures r.verb == GET && r.body == None && r.params == map[]
    ensures Between(r.url, h.apiUrl + "/connections/", "") == Some(connectionId)
  {
    Request(GET, IdUrl(h.apiUrl + "/connections/", connectionId, ""), map[], None)
  }

  /** `get_connection_state`: the code of the reply's `state` field. */
  function ConnectionState(response: Json): (r: Result<int, PyError>)
    ensures Lookup(response, "state").Success? ==> r == StateCode(Lookup(response, "state").value)
    ensures Lookup(response, "state").Failure? ==> r == Failure(Lookup(response, "state").error)
    ensures r.Success? ==> 0 <= r.value <= 2
  {
    var state :- Lookup(response, "state");
    StateCode(state)
  }

  /** `get_agent_name`: the GET on the agent's status page. */
  function AgentNameRequest(h: Handler): (r: Request)
    ensures r.verb == GET && r.body == None && r.params == map[]
    ensures r.url == h.apiUrl + "/status"
  {
    Request(GET, h.apiUrl + "/status", map[], None)
  }

  /** `get_agent_name`: the `label` of the status reply, failing exactly when
      the reply is not a dictionary holding one. */
  function AgentName(response: Json): (r: Result<Json, PyError>)
    ensures r.Success? <==> response.JObject? && "label" in response.fields
    ensures r.Success? ==> r.value == response.fields["label"]
    ensures r.Failure? ==> r.error == (if response.JObject? then KeyError else TypeError)
  {
    Lookup(response, "label")
  }

  /** `get_connections(alias, state)`: each filter is sent only when it is
      given and non-empty (Python truthiness). */
  function GetConnections(h: Handler, alias: Option<string>, state: Option<string>): (r: Request)
    ensures r.verb == GET && r.body == None
    ensures r.url == h.apiUrl + "/connections"
    ensures "alias" in r.params <==> alias.Some? && alias.value != ""
    ensures "state" in r.params <==> state.Some? && state.value != ""
    ensures "alias" in r.params ==> r.params["alias"] == alias.value
    ensures "state" in r.params ==> r.params["state"] == state.value
    ensures r.params.Keys <= {"alias", "state"}
  {
    var withAlias := if alias.Some? && alias.value != "" then map["alias" := alias.value] else map[];
    var params := if state.Some? && state.value != "" then withAlias["state" := state.value] else withAlias;
    Request(GET, h.apiUrl + "/connections", params, None)
  }

  // ------------------------------------------------ schemas and definitions

  /** `create_schema`: the schema body. */
  function CreateSchema(h: Handler, schemaName: string, schemaVersion: string, attributes: seq<Json>): (r: Request)
    ensures r.verb == POST && r.params == map[]
    ensures r.url == h.apiUrl + "/schemas"
    ensures r.body.Some? && Keys(r.body.value) == {"attributes", "schema_name", "schema_version"}
    ensures Lookup(r.body.value, "attributes") == Success(JArray(attributes))
    ensures Lookup(r.body.value, "schema_name") == Success(JString(schemaName))
    ensures Lookup(r.body.value, "schema_version") == Success(JString(schemaVersion))
  {
    var schema := JObject(map[
      "attributes" := JArray(attributes),
      "schema_name" := JString(schemaName),
      "schema_version" := JString(schemaVersion)
    ]);
    Request(POST, h.apiUrl + "/schemas", map[], Some(schema))
  }

  /** The reply to `create_schema`: its `schema` record. */
  function CreateSchemaResult(response: Json): (r: Result<Json, PyError>)
    ensures r.Success? <==> response.JObject? && "schema" in response.fields
    ensures r.Success? ==> r.value == response.fields["schema"]
    ensures r.Failure? ==> r.error == (if response.JObject? then KeyError else TypeError)
  {
    Lookup(response, "schema")
  }

  /** `create_credential_definition`: the definition body. Revocation
      support adds the registry size and the flag; without it the body holds
      only the schema id and the tag. */
  function CredentialDefinition(schemaId: string, tag: string, supportRevocation: bool): (j: Json)
    ensures j.JObject?
    ensures Keys(j) == {"schema_id", "tag"} + (if supportRevocation then {"revocation_registry_size", "support_revocation"} else {})
    ensures Lookup(j, "schema_id") == Success(JString(schemaId))
    ensures Lookup(j, "tag") == Success(JString(tag))
    ensures supportRevocation ==> Lookup(j, "revocation_registry_size") == Success(JInt(RevocationRegistrySize))
    ensures supportRevocation ==> Lookup(j, "support_revocation") == Success(JString("true"))
  {
    var base := map["schema_id" := JString(schemaId), "tag" := JString(tag)];
    if supportRevocation then
      JObject(base["revocation_registry_size" := JInt(RevocationRegistrySize)]["support_revocation" := JString("true")])
    else
      JObject(base)
  }

  /** Reads a credential-definition body back: the schema id, the tag and
      whether revocation was asked for. */
  function ReadCredentialDefinition(j: Json): Option<(string, string, bool)>
  {
    if j.JObject? && "schema_id" in j.fields && "tag" in j.fields
      && j.fields["schema_id"].JString? && j.fields["tag"].JString?
    then Some((j.fields["schema_id"].str, j.fields["tag"].str, "support_revocation" in j.fields))
    else None
  }

  lemma CredentialDefinitionRoundTrip(schemaId: string, tag: string, supportRevocation: bool)
    ensures ReadCredentialDefinition(CredentialDefinition(schemaId, tag, supportRevocation))
      == Some((schemaId, tag, supportRevocation))
  {
  }

  /** `create_credential_definition`: one POST of the definition body (the
      retry on a non-200 status is not modelled). */
  function CreateCredentialDefinition(h: Handler, schemaId: string, tag: string, supportRevocation: bool): (r: Request)
    ensures r.verb == POST && r.params == map[]
    ensures r.url == h.apiUrl + "/credential-definitions"
    ensures r.body.Some? && ReadCredentialDefinition(r.body.value) == Some((schemaId, tag, supportRevocation))
    ensures r.body == Some(CredentialDefinition(schemaId, tag, supportRevocation))
  {
    CredentialDefinitionRoundTrip(schemaId, tag, supportRevocation);
    Request(POST, h.apiUrl + "/credential-definitions", map[], Some(CredentialDefinition(schemaId, tag, supportRevocation)))
  }

  /** The reply to `create_credential_definition`: its `credential_definition_id`. */
  function CreateCredentialDefinitionResult(response: Json): (r: Result<Json, PyError>)
    ensures r.Success? <==> response.JObject? && "credential_definition_id" in response.fields
    ensures r.Success? ==> r.value == response.fields["credential_definition_id"]
    ensures r.Failure? ==> r.error == (if response.JObject? then KeyError else TypeError)
  {
    Lookup(response, "credential_definition_id")
  }

  // ------------------------------------------------------------ credentials

  /** `cred_def_id.split(":")[0]`: the issuer's DID is the text before the
      first ':', or the whole id when it has none. */
  function DidOf(credDefId: string): (did: string)
    ensures ':' !in did
    ensures |did| <= |credDefId| && credDefId[..|did|] == did
    ensures |did| == |credDefId| || credDefId[|did|] == ':'
  {
    SplitCharHead(credDefId, ':');
    Split(credDefId, ":")[0]
  }

  /** The keys of an issue-credential body. */
  const CredentialKeys: set<string> := {
    "auto_remove", "comment", "connection_id", "cred_def_id", "credential_proposal",
    "issuer_did", "schema_id", "schema_issuer_did", "schema_name", "schema_version", "trace"
  }

  /** The issue-credential body for a schema record already read. */
  function CredentialOffer(connectionId: string, credDefId: string, attributes: Json,
                           schemaId: Json, schemaName: Json, schemaVersion: Json, comment: string): (j: Json)
    ensures j.JObject? && Keys(j) == CredentialKeys
  {
    var did := DidOf(credDefId);
    JObject(map[
      "auto_remove" := JString("false"),
      "comment" := JString(comment),
      "connection_id" := JString(connectionId),
      "cred_def_id" := JString(credDefId),
      "credential_proposal" := JObject(map[
        "@type" := JString("issue-credential/1.0/credential-preview"),
        "attributes" := attributes
      ]),
      "issuer_did" := JString(did),
      "schema_id" := schemaId,
      "schema_issuer_did" := JString(did),
      "schema_name" := schemaName,
      "schema_version" := schemaVersion,
      "trace" := JString("false")
    ])
  }

  /** The issuer DID is filled in twice, both times from the definition id. */
  lemma CredentialOfferIssuer(connectionId: string, credDefId: string, attributes: Json,
                              schemaId: Json, schemaName: Json, schemaVersion: Json, comment: string)
    ensures var j := CredentialOffer(connectionId, credDefId, attributes, schemaId, schemaName, schemaVersion, comment);
      && Lookup(j, "issuer_did") == Success(JString(DidOf(credDefId)))
      && Lookup(j, "schema_issuer_did") == Lookup(j, "issuer_did")
  {
  }

  /** The schema's id, name and version are copied unchanged. */
  lemma CredentialOfferSchema(connectionId: string, credDefId: string, attributes: Json,
                              schemaId: Json, schemaName: Json, schemaVersion: Json, comment: string)
    ensures var j := CredentialOffer(connectionId, credDefId, attributes, schemaId, schemaName, schemaVersion, comment);
      && Lookup(j, "schema_id") == Success(schemaId)
      && Lookup(j, "schema_name") == Success(schemaName)
      && Lookup(j, "schema_version") == Success(schemaVersion)
  {
  }

  /** The connection, the definition id and the comment are copied unchanged. */
  lemma CredentialOfferParties(connectionId: string, credDefId: string, attributes: Json,
                               schemaId: Json, schemaName: Json, schemaVersion: Json, comment: string)
    ensures var j := CredentialOffer(connectionId, credDefId, attributes, schemaId, schemaName, schemaVersion, comment);
      && Lookup(j, "connection_id") == Success(JString(connectionId))
      && Lookup(j, "cred_def_id") == Success(JString(credDefId))
      && Lookup(j, "comment") == Success(JString(comment))
  {
  }

  /** The two flags are the string "false", and the preview carries the
      attributes. */
  lemma CredentialOfferPreview(connectionId: string, credDefId: string, attributes: Json,
                               schemaId: Json, schemaName: Json, schemaVersion: Json, comment: string)
    ensures var j := CredentialOffer(connectionId, credDefId, attributes, schemaId, schemaName, schemaVersion, comment);
      && Lookup(j, "auto_remove") == Success(JString("false"))
      && Lookup(j, "trace") == Success(JString("false"))
      && Lookup(j, "credential_proposal").Success?
      && var preview := Lookup(j, "credential_proposal").value;
      && Keys(preview) == {"@type", "attributes"}
      && Lookup(preview, "@type") == Success(JString("issue-credential/1.0/credential-preview"))
      && Lookup(preview, "attributes") == Success(attributes)
  {
  }

  /** `issue_credential`: the schema's `id`, `name` and `version` are copied;
      a schema record missing one of them raises a KeyError (a TypeError when
      it is not a dictionary). */
  function IssueCredential(h: Handler, connectionId: string, credDefId: string, attributes: Json,
                           schema: Json, comment: string): (r: Result<Request, PyError>)
    ensures r.Success? <==> schema.JObject? && "id" in schema.fields && "name" in schema.fields && "version" in schema.fields
    ensures r.Failure? ==> r.error == (if schema.JObject? then KeyError else TypeError)
    ensures r.Success? ==> r.value.verb == POST && r.value.params == map[]
    ensures r.Success? ==> r.value.url == h.apiUrl + "/issue-credential/send"
    ensures r.Success? ==> r.value.body == Some(CredentialOffer(connectionId, credDefId, attributes,
      schema.fields["id"], schema.fields["name"], schema.fields["version"], comment))
  {
    var schemaId :- Lookup(schema, "id");
    var schemaName :- Lookup(schema, "name");
    var schemaVersion :- Lookup(schema, "version");
    var body := CredentialOffer(connectionId, credDefId, attributes, schemaId, schemaName, schemaVersion, comment);
    Success(Request(POST, h.apiUrl + Endpoints["issue_credential"], map[], Some(body)))
  }

  // ------------------------------------------------------------------ proofs

  /** The proof-request body; only the requested attributes and predicates
      vary. */
  function ProofRequest(connectionId: string, requestedAttributes: Json, requestedPredicates: Json): (j: Json)
    ensures Keys(j) == {"comment", "connection_id", "proof_request", "trace"}
    ensures Lookup(j, "connection_id") == Success(JString(connectionId))
    ensures Lookup(j, "trace") == Success(JString("false"))
    ensures Lookup(j, "comment") == Success(JString("Ik wil proof"))
    ensures Lookup(j, "proof_request").Success? &&
      var p := Lookup(j, "proof_request").value;
      && Keys(p) == {"name", "requested_attributes", "requested_predicates", "version"}
      && Lookup(p, "name") == Success(JString("Het AIVD wil je locatie weten"))
      && Lookup(p, "requested_attributes") == Success(requestedAttributes)
      && Lookup(p, "requested_predicates") == Success(requestedPredicates)
      && Lookup(p, "version") == Success(JString("1.0"))
  {
    JObject(map[
      "comment" := JString("Ik wil proof"),
      "connection_id" := JString(connectionId),
      "proof_request" := JObject(map[
        "name" := JString("Het AIVD wil je locatie weten"),
        "requested_attributes" := requestedAttributes,
        "requested_predicates" := requestedPredicates,
        "version" := JString("1.0")
      ]),
      "trace" := JString("false")
    ])
  }

  /** `send_proof_request` */
  function SendProofRequest(h: Handler, connectionId: string, requestedAttributes: Json, requestedPredicates: Json): (r: Request)
    ensures r.verb == POST && r.params == map[]
    ensures r.url == h.apiUrl + "/present-proof/send-request"
    ensures r.body == Some(ProofRequest(connectionId, requestedAttributes, requestedPredicates))
  {
    Request(POST, h.apiUrl + Endpoints["send_proposal"], map[],
      Some(ProofRequest(connectionId, requestedAttributes, requestedPredicates)))
  }

  /** The reply to `send_proof_request`: its exchange id. */
  function ProofRequestResult(response: Json): (r: Result<Json, PyError>)
    ensures r.Success? <==> response.JObject? && "presentation_exchange_id" in response.fields
    ensures r.Success? ==> r.value == response.fields["presentation_exchange_id"]
    ensures r.Failure? ==> r.error == (if response.JObject? then KeyError else TypeError)
  {
    Lookup(response, "presentation_exchange_id")
  }

  /** `get_pres_exchange_id`: the GET on the proof records. */
  function ProofRecordsRequest(h: Handler): (r: Request)
    ensures r.verb == GET && r.body == None && r.params == map[]
    ensures r.url == h.apiUrl + "/present-proof/records"
  {
    Request(GET, h.apiUrl + Endpoints["base_proof"], map[], None)
  }

  /** `get_pres_exchange_id`: the exchange id of the first record listed. */
  function FirstExchangeId(response: Json): (r: Result<Json, PyError>)
    ensures r.Success? <==>
      && Lookup(response, "results").Success?
      && Index(Lookup(response, "results").value, 0).Success?
      && Lookup(Index(Lookup(response, "results").value, 0).value, "presentation_exchange_id").Success?
    ensures r.Success? && Lookup(response, "results").value.JArray? ==>
      var first := Lookup(response, "results").value.items[0];
      first.JObject? && r.value == first.fields["presentation_exchange_id"]
    ensures Lookup(response, "results").Failure? ==> r == Failure(Lookup(response, "results").error)
    ensures Lookup(response, "results") == Success(JArray([])) ==> r == Failure(IndexError)
    ensures Lookup(response, "results").Success? && Index(Lookup(response, "results").value, 0).Failure? ==>
      r == Failure(Index(Lookup(response, "results").value, 0).error)
    ensures Lookup(response, "results").Success? && Index(Lookup(response, "results").value, 0).Success? ==>
      r == Lookup(Index(Lookup(response, "results").value, 0).value, "presentation_exchange_id")
  {
    var results :- Lookup(response, "results");
    var first :- Index(results, 0);
    Lookup(first, "presentation_exchange_id")
  }

  /** The presentation body: the three maps pass through unchanged. */
  function Presentation(requestedAttributes: Json, requestedPredicates: Json, selfAttested: Json): (j: Json)
    ensures Keys(j) == {"requested_attributes", "requested_predicates", "self_attested_attributes", "trace"}
    ensures Lookup(j, "requested_attributes") == Success(requestedAttributes)
    ensures Lookup(j, "requested_predicates") == Success(requestedPredicates)
    ensures Lookup(j, "self_attested_attributes") == Success(selfAttested)
    ensures Lookup(j, "trace") == Success(JString("false"))
  {
    JObject(map[
      "requested_attributes" := requestedAttributes,
      "requested_predicates" := requestedPredicates,
      "self_attested_attributes" := selfAttested,
      "trace" := JString("false")
    ])
  }

  /** `send_presentation` */
  function SendPresentation(h: Handler, presExId: string, requestedAttributes: Json,
                            requestedPredicates: Json, selfAttested: Json): (r: Request)
    ensures r.verb == POST && r.params == map[]
    ensures Between(r.url, h.apiUrl + "/present-proof/records/", "/send-presentation") == Some(presExId)
    ensures r.body == Some(Presentation(requestedAttributes, requestedPredicates, selfAttested))
  {
    Request(POST, IdUrl(h.apiUrl + Endpoints["base_proof"] + "/", presExId, Endpoints["send_presentation"]), map[],
      Some(Presentation(requestedAttributes, requestedPredicates, selfAttested)))
  }

  /** `verify_presentation`: a body-less POST on the exchange's path. */
  function VerifyPresentation(h: Handler, presExId: string): (r: Request)
    ensures r.verb == POST && r.body == None && r.params == map[]
    ensures Between(r.url, h.apiUrl + "/present-proof/records/", "/verify-presentation") == Some(presExId)
  {
    Request(POST, IdUrl(h.apiUrl + Endpoints["base_proof"] + "/", presExId, Endpoints["verify_presentation"]), map[], None)
  }
}
