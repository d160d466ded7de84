/** The contact alias the desk stores for a patient is "first last bsn":
    both dialogs cut it on single spaces into a display name (the first two
    fields, re-joined by one space) and a BSN (the third field). */
module AliasFields {
  import opened Wrappers
  import opened Builtins

  const Space := " "

  /** `" ".join(alias.split(" ")[:2])`: the alias up to its second space,
      or all of it when it has fewer than two spaces. */
  function DisplayName(alias: string): (name: string)
    ensures |name| <= |alias| && alias[..|name|] == name
    ensures |name| == |alias| || alias[|name|] == ' '
    ensures multiset(name)[' '] == if multiset(alias)[' '] >= 1 then 1 else 0
  {
    var fields := Split(alias, Space);
    DisplayNameShape(alias);
    Join(Take(fields, 2), Space)
  }

  /** `alias.split(" ")[2]`: the field after the second space, up to the
      third space or the end; an IndexError when there are fewer than two
      spaces. */
  function Bsn(alias: string): (r: Result<string, PyError>)
    ensures r.Success? <==> multiset(alias)[' '] >= 2
    ensures r.Failure? ==> r.error == IndexError
    ensures r.Success? ==> ' ' !in r.value
    ensures r.Success? ==>
      var start := |DisplayName(alias)| + 1;
      var end := start + |r.value|;
      && end <= |alias|
      && alias[start..end] == r.value
      && (end == |alias| || alias[end] == ' ')
  {
    var fields := Split(alias, Space);
    SplitCharCount(alias, ' ');
    if |fields| >= 3 then
      BsnAfterName(alias, fields);
      At(fields, 2)
    else
      At(fields, 2)
  }

  /** The name and BSN columns of one row, in the order the code computes
      them: the name never fails, the BSN lookup may. */
  function NameAndBsn(alias: string): (r: Result<(string, string), PyError>)
    ensures r.Success? <==> multiset(alias)[' '] >= 2
    ensures r.Failure? ==> r.error == IndexError
    ensures r.Success? ==> r.value.0 == DisplayName(alias) && Bsn(alias) == Success(r.value.1)
  {
    var name := DisplayName(alias);
    var bsn :- Bsn(alias);
    Success((name, bsn))
  }

  // ----------------------------------------------------------------- proofs

  predicate SpaceFree(fields: seq<string>) {
    forall k | 0 <= k < |fields| :: ' ' !in fields[k]
  }

  /** What the split of an alias on spaces guarantees: its fields join back
      to the alias, hold no space, and there is one more field than spaces. */
  lemma FieldsOf(alias: string)
    ensures var fields := Split(alias, Space);
      && Join(fields, Space) == alias
      && SpaceFree(fields)
      && |fields| == multiset(alias)[' '] + 1
  {
    var fields := Split(alias, Space);
    JoinSplit(alias, Space);
    SplitCharCount(alias, ' ');
    SplitPiecesFree(alias, Space);
    forall k | 0 <= k < |fields|
      ensures ' ' !in fields[k]
    {
      ContainsChar(fields[k], ' ');
    }
  }

  lemma JoinTwo(a: string, b: string)
    ensures Join([a, b], Space) == a + Space + b
  {
    assert [a, b][1..] == [b];
  }

  /** Joined fields are the first two fields, a space, and the rest joined. */
  lemma JoinAfterTwo(fields: seq<string>)
    requires |fields| > 2
    ensures Join(fields, Space) == fields[0] + Space + fields[1] + Space + Join(fields[2..], Space)
  {
    assert fields == [fields[0], fields[1]] + fields[2..];
    JoinAppend([fields[0], fields[1]], fields[2..], Space);
    JoinTwo(fields[0], fields[1]);
  }

  lemma NameOfFields(fields: seq<string>, alias: string)
    requires Join(fields, Space) == alias && SpaceFree(fields)
    requires |fields| == multiset(alias)[' '] + 1
    ensures var name := Join(Take(fields, 2), Space);
      && |name| <= |alias| && alias[..|name|] == name
      && (|name| == |alias| || alias[|name|] == ' ')
      && multiset(name)[' '] == if multiset(alias)[' '] >= 1 then 1 else 0
  {
    if |fields| >= 2 {
      var name := fields[0] + Space + fields[1];
      assert Take(fields, 2) == [fields[0], fields[1]];
      JoinTwo(fields[0], fields[1]);
      SpacesOfTwo(fields[0], fields[1]);
      if |fields| > 2 {
        JoinAfterTwo(fields);
        PrefixBeforeSpace(name, Join(fields[2..], Space), alias);
      }
    } else {
      assert Take(fields, 2) == fields;
    }
  }

  /** Two space-free fields joined hold exactly one space. */
  lemma SpacesOfTwo(a: string, b: string)
    requires ' ' !in a && ' ' !in b
    ensures multiset(a + Space + b)[' '] == 1
  {
    assert multiset(a + Space + b) == multiset(a) + multiset(Space) + multiset(b);
  }

  lemma PrefixBeforeSpace(name: string, rest: string, alias: string)
    requires alias == name + Space + rest
    ensures |name| < |alias| && alias[..|name|] == name && alias[|name|] == ' '
  {
  }

  lemma DisplayNameShape(alias: string)
    ensures var name := Join(Take(Split(alias, Space), 2), Space);
      && |name| <= |alias| && alias[..|name|] == name
      && (|name| == |alias| || alias[|name|] == ' ')
      && multiset(name)[' '] == if multiset(alias)[' '] >= 1 then 1 else 0
  {
    FieldsOf(alias);
    NameOfFields(Split(alias, Space), alias);
  }

  lemma BsnOfFields(fields: seq<string>, alias: string)
    requires Join(fields, Space) == alias && SpaceFree(fields)
    requires |fields| >= 3
    ensures var start := |fields[0]| + 1 + |fields[1]| + 1;
      var end := start + |fields[2]|;
      && end <= |alias|
      && alias[start..end] == fields[2]
      && (end == |alias| || alias[end] == ' ')
  {
    var bsn := fields[2];
    var prefix := fields[0] + Space + fields[1] + Space;
    JoinAfterTwo(fields);
    var rest := Join(fields[2..], Space);
    assert alias == prefix + rest;
    if |fields| == 3 {
      assert fields[2..] == [bsn];
      assert rest == bsn;
    } else {
      var tail := fields[3..];
      assert fields[2..] == [bsn] + tail;
      JoinAppend([bsn], tail, Space);
      assert rest == bsn + (Space + Join(tail, Space));
    }
    assert alias[|prefix|..] == rest;
  }

  lemma NameLength(alias: string, fields: seq<string>)
    requires fields == Split(alias, Space) && |fields| >= 2
    ensures |DisplayName(alias)| == |fields[0]| + 1 + |fields[1]|
  {
    assert Take(fields, 2) == [fields[0], fields[1]];
    JoinTwo(fields[0], fields[1]);
  }

  /** Where the BSN field sits, measured from the display name. */
  lemma BsnAfterName(alias: string, fields: seq<string>)
    requires fields == Split(alias, Space) && |fields| >= 3
    ensures var start := |DisplayName(alias)| + 1;
      var end := start + |fields[2]|;
      && ' ' !in fields[2]
      && end <= |alias|
      && alias[start..end] == fields[2]
      && (end == |alias| || alias[end] == ' ')
  {
    BsnOfSplit(alias, fields);
    NameLength(alias, fields);
  }

  lemma BsnOfSplit(alias: string, fields: seq<string>)
    requires fields == Split(alias, Space) && |fields| >= 3
    ensures var start := |fields[0]| + 1 + |fields[1]| + 1;
      var end := start + |fields[2]|;
      && ' ' !in fields[2]
      && end <= |alias|
      && alias[start..end] == fields[2]
      && (end == |alias| || alias[end] == ' ')
  {
    FieldsOf(alias);
    BsnOfFields(fields, alias);
  }
}
