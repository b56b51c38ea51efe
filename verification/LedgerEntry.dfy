/**
Ledger entries (src/ledger_entry.py): the four statuses, the table of legal moves between
them, and the conversion of an entry to a record and back.
*/
module LedgerEntries {
  import opened Wrappers
  import opened KeyOrder

  datatype Status = Pending | Running | Completed | Failed

  /** A status as callers pass it: one of the four, or text the ledger does not know. */
  datatype StatusText = Known(status: Status) | Unsupported(text: string)

  /** A JSON object; its encoding as text is not modelled. */
  type Dict = map<string, string>

  datatype LedgerError =
    | EntryNotFound(id: string)
    | UnsupportedStatus(text: string)
    | DuplicateId(id: string)
    | IllegalMove(current: Status)
    | MissingField

  datatype LedgerEntry = LedgerEntry(
    id: string,
    action: string,
    status: Status,
    checkpoint: Dict,
    createdAt: int,
    updatedAt: int,
    accioRef: Option<string>,
    metadata: Dict,
    lastError: Option<string>)

  const ALL_STATUSES: seq<Status> := [Pending, Running, Completed, Failed]

  /** The statuses an entry may move to from `status`. */
  function ValidTransitions(status: Status): set<Status> {
    match status
    case Pending => {Running, Failed}
    case Running => {Completed, Failed, Pending}
    case Completed => {}
    case Failed => {Pending}
  }

  predicate LegalMove(from: Status, to: Status) {
    to in ValidTransitions(from)
  }

  /** The state machine: these six moves and no others; so completed is final, and is entered from running alone. */
  lemma TheMoves(from: Status, to: Status)
    ensures LegalMove(from, to) <==> (from, to) in {
      (Pending, Running), (Pending, Failed),
      (Running, Completed), (Running, Failed), (Running, Pending),
      (Failed, Pending)}
    ensures !LegalMove(Completed, to) && (LegalMove(from, Completed) <==> from == Running)
  {
  }

  /** `history` is a walk along legal moves. */
  ghost predicate LegalPath(history: seq<Status>) {
    forall i :: 0 <= i < |history| - 1 ==> LegalMove(history[i], history[i + 1])
  }

  function KeyOf(entry: LedgerEntry): Key {
    Key(entry.createdAt, entry.id)
  }

  /** A record as read from JSON or from a table row; None stands for a missing or null field. */
  datatype Record = Record(
    id: Option<string>,
    action: Option<string>,
    status: Option<StatusText>,
    checkpoint: Option<Dict>,
    createdAt: Option<int>,
    updatedAt: Option<int>,
    accioRef: Option<string>,
    accioTaskRef: Option<string>,
    metadata: Option<Dict>,
    lastError: Option<string>)

  function OrElse<T>(o: Option<T>, default: T): T {
    if o.Some? then o.value else default
  }

  /** Python's `a or b` on optional text: the empty string counts as absent. */
  function TruthyOr(a: Option<string>, b: Option<string>): Option<string> {
    if a.Some? && a.value != "" then a else b
  }

  function FromRecord(record: Record, now: int): Result<LedgerEntry, LedgerError> {
    if record.id.None? || record.action.None? then Err(MissingField)
    else
      match OrElse(record.status, Known(Pending))
      case Unsupported(text) => Err(UnsupportedStatus(text))
      case Known(status) =>
        Ok(LedgerEntry(
          record.id.value,
          record.action.value,
          status,
          OrElse(record.checkpoint, map[]),
          OrElse(record.createdAt, now),
          OrElse(record.updatedAt, now),
          TruthyOr(record.accioRef, record.accioTaskRef),
          OrElse(record.metadata, map[]),
          record.lastError))
  }

  /** What a record must have, and what stands in for the fields it lacks. */
  lemma RecordDefaults(record: Record, now: int)
    ensures record.id.None? || record.action.None? <==> FromRecord(record, now) == Err(MissingField)
    ensures record.id.Some? && record.action.Some? && record.status.None? && record.checkpoint.None?
      && record.createdAt.None? && record.updatedAt.None? && record.metadata.None?
      ==> FromRecord(record, now) == Ok(LedgerEntry(record.id.value, record.action.value, Pending, map[], now, now,
            if record.accioRef.Some? && record.accioRef.value != "" then record.accioRef else record.accioTaskRef,
            map[], record.lastError))
    ensures forall text :: record.id.Some? && record.action.Some? ==>
      (FromRecord(record, now) == Err(UnsupportedStatus(text)) <==> record.status == Some(Unsupported(text)))
  {
  }

  function ToRecord(entry: LedgerEntry): Record {
    Record(Some(entry.id), Some(entry.action), Some(Known(entry.status)), Some(entry.checkpoint),
      Some(entry.createdAt), Some(entry.updatedAt), entry.accioRef, None, Some(entry.metadata), entry.lastError)
  }

  /** What reading an entry back from its record gives: an empty task reference is lost. */
  function Reloaded(entry: LedgerEntry): LedgerEntry {
    entry.(accioRef := TruthyOr(entry.accioRef, None))
  }

  /** The round trip returns the entry exactly when its task reference is not the empty string. */
  lemma RecordRoundTrip(entry: LedgerEntry, now: int)
    ensures FromRecord(ToRecord(entry), now) == Ok(Reloaded(entry))
    ensures FromRecord(ToRecord(entry), now) == Ok(entry) <==> entry.accioRef != Some("")
    ensures Reloaded(Reloaded(entry)) == Reloaded(entry)
    ensures KeyOf(Reloaded(entry)) == KeyOf(entry)
  {
    if entry.accioRef == Some("") {
      assert Reloaded(entry).accioRef != entry.accioRef;
    }
  }

  /** The statuses from which `to` can be reached, in table order: the list `transition` computes. */
  function AllowedOldStatuses(to: Status): seq<Status> {
    SelectOld(ALL_STATUSES, to)
  }

  function SelectOld(statuses: seq<Status>, to: Status): (selected: seq<Status>)
    ensures forall s :: s in selected <==> s in statuses && LegalMove(s, to)
  {
    if statuses == [] then []
    else
      var rest := SelectOld(statuses[1..], to);
      if LegalMove(statuses[0], to) then [statuses[0]] + rest else rest
  }

  /** The inverted table is the converse of the moves, and never empty, so the guard is never dropped. */
  lemma InvertedTable(to: Status)
    ensures forall from: Status :: from in AllowedOldStatuses(to) <==> LegalMove(from, to)
    ensures AllowedOldStatuses(to) != []
    ensures to !in AllowedOldStatuses(to)
  {
    assert ALL_STATUSES[0] == Pending && ALL_STATUSES[1] == Running
      && ALL_STATUSES[2] == Completed && ALL_STATUSES[3] == Failed;
    forall from: Status
      ensures from in ALL_STATUSES
    {
      match from
      case Pending => assert ALL_STATUSES[0] == from;
      case Running => assert ALL_STATUSES[1] == from;
      case Completed => assert ALL_STATUSES[2] == from;
      case Failed => assert ALL_STATUSES[3] == from;
    }
    var witness' := match to
      case Pending => Running
      case Running => Pending
      case Completed => Running
      case Failed => Pending;
    assert witness' in AllowedOldStatuses(to);
  }
}
