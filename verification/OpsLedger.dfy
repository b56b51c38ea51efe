/**
The audit ledger (src/ops_ledger.py): a state machine over the shared table. Any number of
nodes write it; what one node's method does between two of its own statements is the other
nodes' business, so the whole-run theorems are about sequences of atomic statements.
*/
module OpsLedgers {
  import opened Wrappers
  import opened LedgerEntries
  import opened LedgerStorage

  /** The writing statements a node can issue. */
  datatype Call =
    | Create(entry: LedgerEntry)  // INSERT of create_entry
    | Import(entry: LedgerEntry)  // INSERT of the JSONL migration, in any status
    | Move(id: string, to: Status, checkpoint: Option<Dict>, error: Option<string>, now: int)
    | SetProgress(id: string, progress: Dict, now: int)
    | Remove(id: string)

  predicate LegalCall(call: Call) {
    call.Create? ==> call.entry.status == Pending
  }

  /** The update dictionary that `transition` builds. */
  function MoveUpdates(to: Status, checkpoint: Option<Dict>, error: Option<string>, now: int): seq<Assign> {
    [SetStatus(to), SetUpdatedAt(now)]
    + (if checkpoint.Some? then [SetCheckpoint(checkpoint.value)] else [])
    + (if error.Some? then [SetLastError(error)] else if to != Failed then [SetLastError(None)] else [])
  }

  function ProgressUpdates(checkpoint: Dict, now: int): seq<Assign> {
    [SetCheckpoint(checkpoint), SetUpdatedAt(now)]
  }

  /** The table after one statement, and whether the statement took effect. */
  function Apply(table: Table, call: Call): (Table, bool) {
    match call
    case Create(e) => if e.id in table then (table, false) else (table[e.id := e], true)
    case Import(e) => if e.id in table then (table, false) else (table[e.id := e], true)
    case Move(id, to, checkpoint, error, now) =>
      Updated(table, id, MoveUpdates(to, checkpoint, error, now), AllowedOldStatuses(to))
    case SetProgress(id, checkpoint, now) =>
      Updated(table, id, ProgressUpdates(checkpoint, now), [Pending, Running])
    case Remove(id) => (table - {id}, id in table)
  }

  /** A successful move writes the new status and keeps everything else but its own columns. */
  lemma MoveEffect(row: LedgerEntry, to: Status, checkpoint: Option<Dict>, error: Option<string>, now: int)
    ensures var updates := MoveUpdates(to, checkpoint, error, now);
      && Mutable(updates) == updates
      && AssignAll(row, updates) == row.(
          status := to,
          updatedAt := now,
          checkpoint := OrElse(checkpoint, row.checkpoint),
          lastError := if error.Some? then error else if to == Failed then row.lastError else None)
  {
    hide AssignAll, Mutable;
    var base := [SetStatus(to), SetUpdatedAt(now)];
    AssignPair(row, SetStatus(to), SetUpdatedAt(now));
    var withCheckpoint := base + if checkpoint.Some? then [SetCheckpoint(checkpoint.value)] else [];
    assert AssignAll(row, withCheckpoint)
        == row.(status := to, updatedAt := now, checkpoint := OrElse(checkpoint, row.checkpoint))
      && Mutable(withCheckpoint) == withCheckpoint
    by {
      if checkpoint.Some? {
        AssignSnoc(row, base, SetCheckpoint(checkpoint.value));
      } else {
        assert withCheckpoint == base;
      }
    }
    var last := if error.Some? then [SetLastError(error)] else if to != Failed then [SetLastError(None)] else [];
    assert MoveUpdates(to, checkpoint, error, now) == withCheckpoint + last;
    if last != [] {
      AssignSnoc(row, withCheckpoint, last[0]);
    } else {
      assert withCheckpoint + last == withCheckpoint;
    }
  }

  lemma ProgressEffect(row: LedgerEntry, checkpoint: Dict, now: int)
    ensures var updates := ProgressUpdates(checkpoint, now);
      && Mutable(updates) == updates
      && AssignAll(row, updates) == row.(checkpoint := checkpoint, updatedAt := now)
  {
    AssignPair(row, SetCheckpoint(checkpoint), SetUpdatedAt(now));
  }

  lemma AssignPair(row: LedgerEntry, a: Assign, b: Assign)
    requires !Immutable(a) && !Immutable(b)
    ensures AssignAll(row, [a, b]) == AssignRow(AssignRow(row, a), b)
    ensures Mutable([a, b]) == [a, b]
  {
    assert [] + [a] == [a] && [a] + [b] == [a, b];
    AssignSnoc(row, [], a);
    AssignSnoc(row, [a], b);
  }

  /** Both folds over the assignments grow by one step at the end. */
  lemma AssignSnoc(row: LedgerEntry, fields: seq<Assign>, a: Assign)
    ensures AssignAll(row, fields + [a]) == AssignRow(AssignAll(row, fields), a)
    ensures !Immutable(a) ==> Mutable(fields + [a]) == Mutable(fields) + [a]
  {
    assert (fields + [a])[..|fields|] == fields;
  }

  /** The row a successful move leaves. */
  function MovedRow(row: LedgerEntry, to: Status, checkpoint: Option<Dict>, error: Option<string>,
      now: int): LedgerEntry {
    row.(
      status := to,
      updatedAt := now,
      checkpoint := OrElse(checkpoint, row.checkpoint),
      lastError := if error.Some? then error else if to == Failed then row.lastError else None)
  }

  /** A move is a compare-and-set on the status: it takes effect exactly along a legal move. */
  lemma MoveResult(table: Table, id: string, to: Status, checkpoint: Option<Dict>, error: Option<string>, now: int)
    ensures Apply(table, Move(id, to, checkpoint, error, now)) ==
      if id in table && LegalMove(table[id].status, to)
      then (table[id := MovedRow(table[id], to, checkpoint, error, now)], true)
      else (table, false)
  {
    hide AssignAll, Mutable, MoveUpdates, AllowedOldStatuses;
    InvertedTable(to);
    var row := if id in table then table[id] else LedgerEntry("", "", Pending, map[], 0, 0, None, map[], None);
    MoveEffect(row, to, checkpoint, error, now);
    MoveUpdatesNonempty(to, checkpoint, error, now);
  }

  lemma MoveUpdatesNonempty(to: Status, checkpoint: Option<Dict>, error: Option<string>, now: int)
    ensures MoveUpdates(to, checkpoint, error, now) != []
  {
    assert MoveUpdates(to, checkpoint, error, now)[0] == SetStatus(to);
  }

  lemma ProgressResult(table: Table, id: string, progress: Dict, now: int)
    ensures Apply(table, SetProgress(id, progress, now)) ==
      if id in table && table[id].status in {Pending, Running}
      then (table[id := table[id].(checkpoint := progress, updatedAt := now)], true)
      else (table, false)
  {
    var row := if id in table then table[id] else LedgerEntry("", "", Pending, map[], 0, 0, None, map[], None);
    ProgressEffect(row, progress, now);
    assert ProgressUpdates(progress, now)[0] == SetCheckpoint(progress);
  }

  /** What one statement can do to one row: nothing else is possible. */
  ghost predicate RowStep(before: Table, after: Table, id: string) {
    if id in before && id in after then
      && KeyOf(after[id]) == KeyOf(before[id])
      && after[id].action == before[id].action
      && (after[id].status == before[id].status || LegalMove(before[id].status, after[id].status))
      && (before[id].status == Completed ==> after[id] == before[id])
    else true
  }

  /** Every statement respects every row, and only Remove of its own id can make a row vanish. */
  lemma StatementIsSafe(table: Table, call: Call, id: string)
    requires WellKeyed(table)
    ensures WellKeyed(Apply(table, call).0)
    ensures RowStep(table, Apply(table, call).0, id)
    ensures id in table && id !in Apply(table, call).0 ==> call == Remove(id)
    ensures id !in table && id in Apply(table, call).0 ==>
      (call.Create? || call.Import?) && call.entry.id == id && Apply(table, call).0[id] == call.entry
  {
    hide Updated, MoveUpdates, ProgressUpdates, AllowedOldStatuses;
    match call
    case Move(i, to, checkpoint, error, now) => MoveResult(table, i, to, checkpoint, error, now);
    case SetProgress(i, progress, now) => ProgressResult(table, i, progress, now);
    case _ =>
  }

  /** A move succeeds exactly when the row is there in a status that may move, and then it has moved. */
  lemma MoveIsGuarded(table: Table, id: string, to: Status, checkpoint: Option<Dict>, error: Option<string>, now: int)
    requires WellKeyed(table)
    ensures var (table', ok) := Apply(table, Move(id, to, checkpoint, error, now));
      && (ok <==> id in table && LegalMove(table[id].status, to))
      && (ok ==> table'.Keys == table.Keys && table'[id].status == to)
      && (!ok ==> table' == table)
      && forall other :: other in table && other != id ==> table'[other] == table[other]
  {
    hide Apply;
    MoveResult(table, id, to, checkpoint, error, now);
  }

  // Whole runs.

  function RunCalls(table: Table, calls: seq<Call>): Table {
    if calls == [] then table
    else Apply(RunCalls(table, calls[..|calls| - 1]), calls[|calls| - 1]).0
  }

  lemma {:induction false} RunConcat(table: Table, a: seq<Call>, b: seq<Call>)
    ensures RunCalls(table, a + b) == RunCalls(RunCalls(table, a), b)
  {
    if b == [] {
      assert a + b == a;
    } else {
      assert (a + b)[..|a + b| - 1] == a + b[..|b| - 1];
      RunConcat(table, a, b[..|b| - 1]);
    }
  }

  lemma {:induction false} RunWellKeyed(table: Table, calls: seq<Call>)
    requires WellKeyed(table)
    ensures WellKeyed(RunCalls(table, calls))
  {
    if calls != [] {
      RunWellKeyed(table, calls[..|calls| - 1]);
      StatementIsSafe(RunCalls(table, calls[..|calls| - 1]), calls[|calls| - 1], "");
    }
  }

  /** The statuses the row `id` has had since it was last inserted, oldest first. */
  function History(table: Table, calls: seq<Call>, id: string): seq<Status> {
    if calls == [] then if id in table then [table[id].status] else []
    else
      var n := |calls| - 1;
      var before := RunCalls(table, calls[..n]);
      var after := Apply(before, calls[n]).0;
      if id !in after then []
      else if id !in before then [after[id].status]
      else if after[id].status == before[id].status then History(table, calls[..n], id)
      else History(table, calls[..n], id) + [after[id].status]
  }

  /** In every run each row's status history is a legal path that ends in its current status. */
  lemma {:induction false} HistoryIsLegalPath(table: Table, calls: seq<Call>, id: string)
    requires WellKeyed(table) && id in RunCalls(table, calls)
    ensures var history := History(table, calls, id);
      && LegalPath(history)
      && history != []
      && history[|history| - 1] == RunCalls(table, calls)[id].status
    ensures id !in table && (forall c :: c in calls ==> LegalCall(c) && !c.Import?)
      ==> History(table, calls, id)[0] == Pending
  {
    if calls != [] {
      hide History, RunCalls, LegalMove, LegalPath, LegalCall, WellKeyed;
      var n := |calls| - 1;
      HistoryStep(table, calls, id);
      assert calls[n] in calls && forall c :: c in calls[..n] ==> c in calls;
      if id in RunCalls(table, calls[..n]) {
        HistoryIsLegalPath(table, calls[..n], id);
        PathSnoc(History(table, calls[..n], id), RunCalls(table, calls)[id].status);
      } else {
        PathSnoc([], RunCalls(table, calls)[id].status);
        BornPending(table, calls, id);
      }
    }
  }

  lemma PathSnoc(history: seq<Status>, status: Status)
    ensures history == [] ==> LegalPath([status])
    ensures history != [] && LegalPath(history) && LegalMove(history[|history| - 1], status)
      ==> LegalPath(history + [status])
  {
  }

  /** What the last statement of a run adds to a row's history. */
  lemma HistoryStep(table: Table, calls: seq<Call>, id: string)
    requires WellKeyed(table) && calls != [] && id in RunCalls(table, calls)
    ensures var front := calls[..|calls| - 1];
      var before, now := RunCalls(table, front), RunCalls(table, calls)[id].status;
      if id !in before then History(table, calls, id) == [now]
      else if before[id].status == now then History(table, calls, id) == History(table, front, id)
      else History(table, calls, id) == History(table, front, id) + [now] && LegalMove(before[id].status, now)
  {
    hide Apply, LegalMove, WellKeyed;
    var n := |calls| - 1;
    RunWellKeyed(table, calls[..n]);
    StatementIsSafe(RunCalls(table, calls[..n]), calls[n], id);
  }

  lemma BornPending(table: Table, calls: seq<Call>, id: string)
    requires WellKeyed(table) && calls != [] && id in RunCalls(table, calls)
    requires id !in RunCalls(table, calls[..|calls| - 1])
    ensures LegalCall(calls[|calls| - 1]) && !calls[|calls| - 1].Import?
      ==> RunCalls(table, calls)[id].status == Pending
  {
    hide Apply, LegalMove, WellKeyed;
    var n := |calls| - 1;
    RunWellKeyed(table, calls[..n]);
    StatementIsSafe(RunCalls(table, calls[..n]), calls[n], id);
  }

  /** Neither the key nor the action of a row changes while the row stays, and a completed row is frozen. */
  lemma {:induction false} RowIsStable(table: Table, calls: seq<Call>, id: string)
    requires WellKeyed(table) && id in table
    requires forall c :: c in calls ==> c != Remove(id)
    ensures id in RunCalls(table, calls)
    ensures KeyOf(RunCalls(table, calls)[id]) == KeyOf(table[id])
      && RunCalls(table, calls)[id].action == table[id].action
    ensures table[id].status == Completed ==> RunCalls(table, calls)[id] == table[id]
  {
    if calls != [] {
      var n := |calls| - 1;
      assert calls[n] in calls && forall c :: c in calls[..n] ==> c in calls;
      RowIsStable(table, calls[..n], id);
      RunWellKeyed(table, calls[..n]);
      StatementIsSafe(RunCalls(table, calls[..n]), calls[n], id);
    }
  }

  // One winner.

  /** Statement `call` is a successful `mark_running` of `id`. */
  predicate Wins(table: Table, call: Call, id: string) {
    call.Move? && call.id == id && call.to == Running && Apply(table, call).1
  }

  /** Statement `call` is a successful move of `id` from running to something else. */
  predicate Exits(table: Table, call: Call, id: string) {
    && call.Move? && call.id == id && call.to != Running && Apply(table, call).1
    && id in table && table[id].status == Running
  }

  function Count(b: bool): int {
    if b then 1 else 0
  }

  /** Wins less exits since the start of the run. */
  function Holders(table: Table, calls: seq<Call>, id: string): int
  {
    if calls == [] then 0
    else
      var n := |calls| - 1;
      var before := RunCalls(table, calls[..n]);
      Holders(table, calls[..n], id) + Count(Wins(before, calls[n], id)) - Count(Exits(before, calls[n], id))
  }

  /** One statement changes the number of holders exactly as it changes the row's status. */
  lemma HoldersStep(table: Table, call: Call, id: string)
    requires WellKeyed(table) && id in table && call != Remove(id)
    ensures id in Apply(table, call).0
    ensures Count(table[id].status == Running) + Count(Wins(table, call, id)) - Count(Exits(table, call, id))
      == Count(Apply(table, call).0[id].status == Running)
  {
    hide Updated, MoveUpdates, ProgressUpdates, AllowedOldStatuses;
    match call
    case Move(i, to, checkpoint, error, now) => MoveResult(table, i, to, checkpoint, error, now);
    case SetProgress(i, progress, now) => ProgressResult(table, i, progress, now);
    case _ =>
  }

  /**
   However many callers race to mark a row running, wins exceed exits by at most one, and by
   exactly one when the row is running: a second winner needs an exit in between.
   */
  lemma {:induction false} OneWinner(table: Table, calls: seq<Call>, id: string)
    requires WellKeyed(table) && id in table && table[id].status != Running
    requires forall c :: c in calls ==> c != Remove(id)
    ensures id in RunCalls(table, calls)
    ensures Holders(table, calls, id) == Count(RunCalls(table, calls)[id].status == Running)
  {
    if calls != [] {
      var n := |calls| - 1;
      assert calls[n] in calls && forall c :: c in calls[..n] ==> c in calls;
      OneWinner(table, calls[..n], id);
      RunWellKeyed(table, calls[..n]);
      var before := RunCalls(table, calls[..n]);
      HoldersStep(before, calls[n], id);
    }
  }

  /** No statement of the run moves `id` out of running. */
  ghost predicate NoExit(table: Table, calls: seq<Call>, id: string) {
    calls == [] ||
    var n := |calls| - 1;
    NoExit(table, calls[..n], id) && !Exits(RunCalls(table, calls[..n]), calls[n], id)
  }

  /** Without an exit in between, only the first of two `mark_running` statements can succeed. */
  lemma SecondRacerLoses(table: Table, first: Call, between: seq<Call>, second: Call, id: string)
    requires WellKeyed(table) && Wins(table, first, id)
    requires forall c :: c in between ==> c != Remove(id)
    requires NoExit(Apply(table, first).0, between, id)
    requires second.Move? && second.id == id && second.to == Running
    ensures !Apply(RunCalls(Apply(table, first).0, between), second).1
  {
    MoveIsGuarded(table, id, Running, first.checkpoint, first.error, first.now);
    var won := Apply(table, first).0;
    StatementIsSafe(table, first, id);
    StaysRunning(won, between, id);
    RunWellKeyed(won, between);
    MoveIsGuarded(RunCalls(won, between), id, Running, second.checkpoint, second.error, second.now);
  }

  lemma {:induction false} StaysRunning(table: Table, calls: seq<Call>, id: string)
    requires WellKeyed(table) && id in table && table[id].status == Running
    requires forall c :: c in calls ==> c != Remove(id)
    requires NoExit(table, calls, id)
    ensures id in RunCalls(table, calls) && RunCalls(table, calls)[id].status == Running
  {
    if calls != [] {
      var n := |calls| - 1;
      assert calls[n] in calls && forall c :: c in calls[..n] ==> c in calls;
      StaysRunning(table, calls[..n], id);
      RunWellKeyed(table, calls[..n]);
      var before := RunCalls(table, calls[..n]);
      HoldersStep(before, calls[n], id);
    }
  }

  // The ledger object.

  /** `get_entry` on a table. */
  function Lookup(table: Table, id: string): Result<LedgerEntry, LedgerError> {
    if id in table then Ok(Reloaded(table[id])) else Err(EntryNotFound(id))
  }

  /**
   What `transition` leaves behind and returns when the statements `others` of other nodes
   run between its update and its read.
   */
  function Transitioned(table: Table, id: string, status: StatusText, checkpoint: Option<Dict>, error: Option<string>,
                        now: int, others: seq<Call>): (Table, Result<LedgerEntry, LedgerError>) {
    match status
    case Unsupported(text) => (table, Err(UnsupportedStatus(text)))
    case Known(to) =>
      var (moved, ok) := Apply(table, Move(id, to, checkpoint, error, now));
      var seen := RunCalls(moved, others);
      (seen, if !ok && id in seen then Err(IllegalMove(seen[id].status)) else Lookup(seen, id))
  }

  /**
   An uncontended transition succeeds exactly along a legal move and returns the row it wrote;
   on any error the table is as before.
   */
  lemma TransitionAlone(table: Table, id: string, status: StatusText, checkpoint: Option<Dict>,
      error: Option<string>, now: int)
    requires WellKeyed(table)
    ensures var (after, r) := Transitioned(table, id, status, checkpoint, error, now, []);
      && (r.Ok? <==> status.Known? && id in table && LegalMove(table[id].status, status.status))
      && (r.Ok? ==>
          (&& id in after && r.value == Reloaded(after[id]) && r.value.status == status.status
           && r.value.lastError == (if error.Some? then error
                                    else if status.status == Failed then table[id].lastError else None)
           && r.value.checkpoint == OrElse(checkpoint, table[id].checkpoint)
           && after == table[id := table[id].(status := status.status, updatedAt := now,
                checkpoint := r.value.checkpoint, lastError := r.value.lastError)]))
      && (r.Err? ==> after == table)
      && (status.Known? && id !in table ==> r == Err(EntryNotFound(id)))
      && (status.Known? && id in table && r.Err? ==> r.error == IllegalMove(table[id].status))
  {
    hide Apply;
    if status.Known? {
      MoveResult(table, id, status.status, checkpoint, error, now);
    }
  }

  /**
   Among others: whether the move is made is decided by the row as it was; what is answered, by the
   table as the others have left it.
   */
  lemma TransitionAmongOthers(table: Table, id: string, to: Status, checkpoint: Option<Dict>, error: Option<string>,
                              now: int, others: seq<Call>)
    requires WellKeyed(table)
    ensures var legal := id in table && LegalMove(table[id].status, to);
      var (after, r) := Transitioned(table, id, Known(to), checkpoint, error, now, others);
      && after == RunCalls(Transitioned(table, id, Known(to), checkpoint, error, now, []).0, others)
      && (!legal ==> after == RunCalls(table, others))
      && (id !in after <==> r == Err(EntryNotFound(id)))
      && (id in after && legal ==> r == Ok(Reloaded(after[id])))
      && (id in after && !legal ==> r == Err(IllegalMove(after[id].status)))
  {
    hide Apply;
    MoveResult(table, id, to, checkpoint, error, now);
  }

  /** Inserts succeed exactly on new ids and store their row; a removal removes its row and no other. */
  lemma InsertsAndRemovals(table: Table, entry: LedgerEntry, id: string)
    ensures Apply(table, Create(entry)) == Apply(table, Import(entry))
    ensures Apply(table, Create(entry)) ==
      if entry.id in table then (table, false) else (table[entry.id := entry], true)
    ensures Apply(table, Remove(id)).1 <==> id in table
    ensures Apply(table, Remove(id)).0 == map other | other in table && other != id :: table[other]
  {
  }

  class OpsLedger {
    const storage: SQLiteLedgerStorage

    constructor (storage: SQLiteLedgerStorage)
      ensures this.storage == storage
    {
      this.storage := storage;
    }

    /** Other nodes' statements reach the shared table. */
    method Interleave(others: seq<Call>)
      requires storage.Valid()
      modifies storage
      ensures storage.Valid() && storage.table == RunCalls(old(storage.table), others)
    {
      RunWellKeyed(storage.table, others);
      storage.table := RunCalls(storage.table, others);
    }

    method GetEntry(id: string) returns (r: Result<LedgerEntry, LedgerError>)
      requires storage.Valid()
      ensures r == Lookup(storage.table, id)
    {
      var entry := storage.Get(id);
      r := if entry.None? then Err(EntryNotFound(id)) else Ok(entry.value);
    }

    /**
     The duplicate check and the insert are two statements; a row that another node inserts
     in between is caught by the primary key.
     */
    method CreateEntry(action: string, entryId: Option<string>, freshId: string, accioRef: Option<string>,
                       checkpoint: Dict, metadata: Dict, now: int, others: seq<Call>, later: seq<Call>)
      returns (r: Result<LedgerEntry, LedgerError>)
      requires storage.Valid()
      modifies storage
      ensures storage.Valid()
      ensures var id := OrElse(TruthyOr(entryId, None), freshId);
        var entry := LedgerEntry(id, action, Pending, checkpoint, now, now, accioRef, metadata, None);
        var between := RunCalls(old(storage.table), others);
        if id in old(storage.table) then r == Err(DuplicateId(id)) && storage.table == old(storage.table)
        else if id in between then r == Err(DuplicateId(id)) && storage.table == between
        else storage.table == RunCalls(Apply(between, Create(entry)).0, later) && r == Lookup(storage.table, id)
    {
      var id := OrElse(TruthyOr(entryId, None), freshId);
      var existing := storage.Get(id);
      if existing.Some? {
        return Err(DuplicateId(id));
      }
      Interleave(others);
      var entry := LedgerEntry(id, action, Pending, checkpoint, now, now, accioRef, metadata, None);
      var inserted := storage.Append(entry);
      if !inserted {
        return Err(DuplicateId(id));
      }
      Interleave(later);
      r := GetEntry(id);
    }

    method Transition(id: string, status: StatusText, checkpoint: Option<Dict>, error: Option<string>, now: int,
                      others: seq<Call>)
      returns (r: Result<LedgerEntry, LedgerError>)
      requires storage.Valid()
      modifies storage
      ensures storage.Valid()
      ensures (storage.table, r) == Transitioned(old(storage.table), id, status, checkpoint, error, now, others)
    {
      if status.Unsupported? {
        return Err(UnsupportedStatus(status.text));
      }
      hide Updated, AllowedOldStatuses, RunCalls;
      var to := status.status;
      var allowed := AllowedOldStatuses(to);
      var updates := [SetStatus(to), SetUpdatedAt(now)];
      if checkpoint.Some? {
        updates := updates + [SetCheckpoint(checkpoint.value)];
      }
      if error.Some? {
        updates := updates + [SetLastError(error)];
      } else if to != Failed {
        updates := updates + [SetLastError(None)];
      }
      assert updates == MoveUpdates(to, checkpoint, error, now);
      hide MoveUpdates, Reloaded;
      var success := storage.Update(id, updates, allowed);
      Interleave(others);
      if !success {
        var entry := storage.Get(id);
        if entry.None? {
          return Err(EntryNotFound(id));
        }
        return Err(IllegalMove(entry.value.status));
      }
      r := GetEntry(id);
    }

    method MarkRunning(id: string, checkpoint: Option<Dict>, now: int, others: seq<Call>)
      returns (r: Result<LedgerEntry, LedgerError>)
      requires storage.Valid()
      modifies storage
      ensures storage.Valid()
      ensures (storage.table, r) == Transitioned(old(storage.table), id, Known(Running), checkpoint, None, now, others)
    {
      r := Transition(id, Known(Running), checkpoint, None, now, others);
    }

    method MarkCompleted(id: string, checkpoint: Option<Dict>, now: int, others: seq<Call>)
      returns (r: Result<LedgerEntry, LedgerError>)
      requires storage.Valid()
      modifies storage
      ensures storage.Valid()
      ensures (storage.table, r)
        == Transitioned(old(storage.table), id, Known(Completed), checkpoint, None, now, others)
    {
      r := Transition(id, Known(Completed), checkpoint, None, now, others);
    }

    method MarkFailed(id: string, error: string, checkpoint: Option<Dict>, now: int, others: seq<Call>)
      returns (r: Result<LedgerEntry, LedgerError>)
      requires storage.Valid()
      modifies storage
      ensures storage.Valid()
      ensures (storage.table, r)
        == Transitioned(old(storage.table), id, Known(Failed), checkpoint, Some(error), now, others)
    {
      r := Transition(id, Known(Failed), checkpoint, Some(error), now, others);
    }

    /** A checkpoint is written only while the row is pending or running. */
    method UpdateCheckpoint(id: string, checkpoint: Dict, now: int, others: seq<Call>)
      returns (r: Result<LedgerEntry, LedgerError>)
      requires storage.Valid()
      modifies storage
      ensures storage.Valid()
      ensures var open := id in old(storage.table) && old(storage.table)[id].status in {Pending, Running};
        var written := if open
          then old(storage.table)[id := old(storage.table)[id].(checkpoint := checkpoint, updatedAt := now)]
          else old(storage.table);
        && storage.table == RunCalls(written, others)
        && r == if !open && id in storage.table then Err(IllegalMove(storage.table[id].status))
                else Lookup(storage.table, id)
    {
      var updates := [SetCheckpoint(checkpoint), SetUpdatedAt(now)];
      ProgressResult(storage.table, id, checkpoint, now);
      var success := storage.Update(id, updates, [Pending, Running]);
      Interleave(others);
      if !success {
        var entry := storage.Get(id);
        if entry.None? {
          return Err(EntryNotFound(id));
        }
        return Err(IllegalMove(entry.value.status));
      }
      r := GetEntry(id);
    }

    method DeleteEntry(id: string, others: seq<Call>) returns (r: Result<(), LedgerError>)
      requires storage.Valid()
      modifies storage
      ensures storage.Valid()
      ensures if id in old(storage.table)
        then r.Ok? && storage.table == Apply(RunCalls(old(storage.table), others), Remove(id)).0
        else r == Err(EntryNotFound(id)) && storage.table == old(storage.table)
    {
      var entry := GetEntry(id);
      if entry.Err? {
        return Err(entry.error);
      }
      Interleave(others);
      storage.Delete(id);
      r := Ok(());
    }
  }
}
