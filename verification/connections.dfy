/** The pending-connections dialog: one row per pending connection with the
    alias's name and BSN. Widgets, dates and the remove button are not
    modelled. */
module Connections {
  import opened Wrappers
  import opened AliasFields
  import opened Builtins

  /** A pending connection as fetched from the agent. */
  datatype PendingConnection = PendingConnection(connectionId: string, alias: string)

  datatype ConnectionRow = ConnectionRow(name: string, bsn: string)

  /** `__fillTable`: row i comes from the i-th pending connection; the first
      alias without a BSN field aborts the fill with an IndexError. */
  method FillTable(pending: seq<PendingConnection>) returns (r: Result<seq<ConnectionRow>, PyError>)
    ensures r.Success? <==> forall i | 0 <= i < |pending| :: multiset(pending[i].alias)[' '] >= 2
    ensures r.Failure? ==> r.error == IndexError
    ensures r.Success? ==> |r.value| == |pending|
    ensures r.Success? ==> forall i | 0 <= i < |pending| ::
      NameAndBsn(pending[i].alias) == Success((r.value[i].name, r.value[i].bsn))
  {
    var rows: seq<ConnectionRow> := [];
    var i := 0;
    while i < |pending|
      invariant 0 <= i <= |pending|
      invariant |rows| == i
      invariant forall k | 0 <= k < i :: NameAndBsn(pending[k].alias) == Success((rows[k].name, rows[k].bsn))
    {
      var cells := NameAndBsn(pending[i].alias);
      if cells.Failure? {
        return Failure(cells.error);
      }
      rows := rows + [ConnectionRow(cells.value.0, cells.value.1)];
      i := i + 1;
    }
    return Success(rows);
  }

  /** Two spaces in a row leave an empty field, and that field counts: the
      name keeps a trailing space and the BSN column shows the surname. */
  lemma ConsecutiveSpaces(first: string, last: string, bsn: string)
    requires ' ' !in first && ' ' !in last && ' ' !in bsn
    ensures NameAndBsn(first + "  " + last + " " + bsn) == Success((first + " ", last))
  {
    var alias := first + "  " + last + " " + bsn;
    GappedSplit(first, last, bsn);
    var fields := Split(alias, Space);
    assert Take(fields, 2) == [first, ""];
    JoinTwo(first, "");
    assert first + Space + "" == first + " ";
  }

  lemma GappedSplit(first: string, last: string, bsn: string)
    requires ' ' !in first && ' ' !in last && ' ' !in bsn
    ensures Split(first + "  " + last + " " + bsn, Space) == [first, "", last, bsn]
  {
    var tail := last + [' '] + bsn;
    var gap := [' '] + tail;
    assert Split(tail, [' ']) == [last, bsn] by {
      SplitNoChar(bsn, ' ');
      SplitAtChar(last, ' ', bsn);
    }
    assert Split(gap, [' ']) == ["", last, bsn] by {
      EmptyFirstField(tail);
    }
    SplitAtChar(first, ' ', gap);
    GappedSpelling(first, last, bsn);
  }

  /** A leading space splits off an empty field. */
  lemma EmptyFirstField(s: string)
    ensures Split([' '] + s, [' ']) == [""] + Split(s, [' '])
  {
    SplitAtChar([], ' ', s);
    assert [] + [' '] + s == [' '] + s;
  }

  /** The alias spelled as the pieces the split lemmas take apart. */
  lemma GappedSpelling(first: string, last: string, bsn: string)
    ensures first + "  " + last + " " + bsn == first + [' '] + ([' '] + (last + [' '] + bsn))
    ensures Space == [' ']
  {
  }
}
