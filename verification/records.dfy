/** The proof-records dialog: which rows it shows and what each row holds.
    Widgets, icons, dates and click handlers are not modelled. */
module Records {
  import opened Wrappers
  import opened AliasFields

  const PresentationReceived := "presentation_received"
  const RequestSent := "request_sent"
  const PendingNote := "Verzoek verstuurd"

  /** A presentation-exchange record as fetched from the agent. */
  datatype ProofRecord = ProofRecord(connectionId: string, state: string, recordType: string)

  /** The last column: a verify button, or a plain note. */
  datatype Action = VerifyButton | Note(text: string)

  datatype RecordRow = RecordRow(name: string, bsn: string, recordType: string, action: Action)

  /** Only a received presentation can be verified. */
  function ActionFor(state: string): (a: Action)
    ensures a == VerifyButton <==> state == PresentationReceived
    ensures a.Note? ==> a.text == PendingNote
  {
    if state == PresentationReceived then VerifyButton else Note(PendingNote)
  }

  /** The record can be shown without the alias split failing: either its
      alias is unknown (the row is skipped) or the alias has a BSN field. */
  predicate Fillable(record: ProofRecord, aliases: map<string, string>)
  {
    record.connectionId in aliases ==> multiset(aliases[record.connectionId])[' '] >= 2
  }

  /** What the row for `record` must be: nothing is written to it when the
      alias lookup gives nothing, otherwise the alias's name and BSN, the record type, and the
      action its state calls for. */
  predicate RowMatches(record: ProofRecord, aliases: map<string, string>, row: Option<RecordRow>)
  {
    if record.connectionId !in aliases then row == None
    else
      && row.Some?
      && NameAndBsn(aliases[record.connectionId]) == Success((row.value.name, row.value.bsn))
      && row.value.recordType == record.recordType
      && (row.value.action == VerifyButton <==> record.state == PresentationReceived)
      && (row.value.action.Note? ==> row.value.action.text == PendingNote)
  }

  /** The cells written for one record whose alias is known. */
  function RowFor(record: ProofRecord, alias: string): (r: Result<RecordRow, PyError>)
    ensures r.Success? <==> multiset(alias)[' '] >= 2
    ensures r.Failure? ==> r.error == IndexError
    ensures r.Success? ==> NameAndBsn(alias) == Success((r.value.name, r.value.bsn))
    ensures r.Success? ==> r.value.recordType == record.recordType && r.value.action == ActionFor(record.state)
  {
    var action := ActionFor(record.state);
    var nameAndBsn :- NameAndBsn(alias);
    Success(RecordRow(nameAndBsn.0, nameAndBsn.1, record.recordType, action))
  }

  /** `__fillTable`. `proofRecords(state)` stands for the agent's answer to
      `get_proof_records(state=...)`. The received presentations come first,
      then the requests still waiting, each group in the order fetched.
      There is one row per fetched record, skipped ones included; the first
      known alias without a BSN field aborts the fill with an IndexError. */
  method FillTable(proofRecords: string -> seq<ProofRecord>, aliases: map<string, string>)
    returns (r: Result<seq<Option<RecordRow>>, PyError>)
    ensures
      var received, sent := proofRecords(PresentationReceived), proofRecords(RequestSent);
      r.Success? <==>
        (forall i | 0 <= i < |received| :: Fillable(received[i], aliases)) &&
        (forall j | 0 <= j < |sent| :: Fillable(sent[j], aliases))
    ensures r.Failure? ==> r.error == IndexError
    ensures r.Success? ==>
      var received, sent := proofRecords(PresentationReceived), proofRecords(RequestSent);
      && |r.value| == |received| + |sent|
      && (forall i | 0 <= i < |received| :: RowMatches(received[i], aliases, r.value[i]))
      && (forall j | 0 <= j < |sent| :: RowMatches(sent[j], aliases, r.value[|received| + j]))
  {
    var received := proofRecords(PresentationReceived);
    var sent := proofRecords(RequestSent);
    var all := received + sent;
    var rows: seq<Option<RecordRow>> := [];
    var i := 0;
    while i < |all|
      invariant 0 <= i <= |all|
      invariant |rows| == i
      invariant forall k | 0 <= k < i :: Fillable(all[k], aliases) && RowMatches(all[k], aliases, rows[k])
    {
      var record := all[i];
      if record.connectionId !in aliases {
        rows := rows + [None];
      } else {
        var row := RowFor(record, aliases[record.connectionId]);
        if row.Failure? {
          assert !Fillable(all[i], aliases);
          if i < |received| {
            assert all[i] == received[i];
          } else {
            assert all[i] == sent[i - |received|];
          }
          return Failure(row.error);
        }
        rows := rows + [Some(row.value)];
      }
      i := i + 1;
    }
    assert forall k | 0 <= k < |received| :: all[k] == received[k];
    assert forall k | 0 <= k < |sent| :: all[|received| + k] == sent[k];
    return Success(rows);
  }
}
