/**
The audit log shipper (src/cluster/shipper.py): it tails the ledger table with a cursor on
(created_at, id), pushes batches to a Redis stream and saves the cursor in a checkpoint file.
*/
module AuditShippers {
  import opened Wrappers
  import opened KeyOrder
  import opened LedgerEntries
  import opened LedgerStorage
  import opened OpsLedgers

  /** The checkpoint file: absent, not JSON with integers, or a document with optional fields. */
  datatype CheckpointFile = Missing | Corrupt | Document(lastTs: Option<int>, lastId: Option<string>)

  const START: Key := Key(0, "")

  /** `_load_checkpoint`. */
  function Loaded(file: CheckpointFile): Key {
    match file
    case Missing => START
    case Corrupt => START
    case Document(ts, id) => Key(OrElse(ts, 0), OrElse(id, ""))
  }

  /** One stream message: the row as it was when it was shipped. */
  datatype Message = Message(id: string, ts: int, data: Record)

  function MessageOf(entry: LedgerEntry): Message {
    Message(entry.id, entry.createdAt, ToRecord(entry))
  }

  /** A message carries the key of its row, and the row reads back from it. */
  lemma MessageTells(entry: LedgerEntry, now: int)
    ensures var m := MessageOf(entry);
      && m.id == entry.id && m.ts == entry.createdAt
      && FromRecord(m.data, now) == Ok(Reloaded(entry))
  {
    RecordRoundTrip(entry, now);
  }

  function Messages(entries: seq<LedgerEntry>): (messages: seq<Message>)
    ensures |messages| == |entries|
    ensures forall i :: 0 <= i < |entries| ==> messages[i] == MessageOf(entries[i])
  {
    seq(|entries|, i requires 0 <= i < |entries| => MessageOf(entries[i]))
  }

  function StreamKeys(stream: seq<Message>): (keys: seq<Key>)
    ensures |keys| == |stream|
    ensures forall i :: 0 <= i < |stream| ==> keys[i] == Key(stream[i].ts, stream[i].id)
  {
    seq(|stream|, i requires 0 <= i < |stream| => Key(stream[i].ts, stream[i].id))
  }

  datatype State = State(table: Table, last: Key, file: CheckpointFile, stream: seq<Message>)

  /** How one batch goes wrong, if at all. */
  datatype Fault =
    | NoFault
    | PushFails(landed: bool)  // the pipeline raises, before or after the batch reached the stream
    | SaveFails                // the checkpoint file cannot be written

  /** `_ship_batch`: the new state, and the shipped count or None when it raises. */
  function Shipped(s: State, batchSize: int, fault: Fault): (State, Option<nat>)
    requires WellKeyed(s.table)
  {
    AfterRead(s, Incremental(s.table, s.last, batchSize), fault)
  }

  /** The rest of the turn, once the entries were read. */
  function AfterRead(s: State, entries: seq<LedgerEntry>, fault: Fault): (State, Option<nat>) {
    if entries == [] then (s, Some(0))
    else
      var pushed := s.stream + Messages(entries);
      var last := KeyOf(entries[|entries| - 1]);
      match fault
      case PushFails(landed) => (if landed then s.(stream := pushed) else s, None)
      case SaveFails => (s.(stream := pushed, last := last), None)
      case NoFault =>
        (s.(stream := pushed, last := last, file := Document(Some(last.ts), Some(last.id))), Some(|entries|))
  }

  datatype Event =
    | Ledger(call: Call)                 // any node writes the ledger
    | Ship(batchSize: int, fault: Fault) // one turn of the shipper
    | Restart                            // the process starts again from the file
    | Damage(lost: bool)                 // the file is lost or becomes unreadable

  function Next(s: State, e: Event): State
    requires WellKeyed(s.table)
  {
    match e
    case Ledger(call) => s.(table := Apply(s.table, call).0)
    case Ship(batchSize, fault) => Shipped(s, batchSize, fault).0
    case Restart => s.(last := Loaded(s.file))
    case Damage(lost) => s.(file := if lost then Missing else Corrupt)
  }

  predicate Inserts(s: State, e: Event) {
    e.Ledger? && (e.call.Create? || e.call.Import?) && e.call.entry.id !in s.table
  }

  predicate Reached(s: State, k: Key) {
    k in StreamKeys(s.stream)
  }

  /** The hypothesis on writers: a row that is inserted lies above the in-memory cursor, or was shipped before. */
  predicate Lands(s: State, e: Event) {
    Inserts(s, e) ==> KeyLt(s.last, KeyOf(e.call.entry)) || Reached(s, KeyOf(e.call.entry))
  }

  /** No gap: every row at or below the cursor has reached the stream. */
  ghost predicate Covered(s: State) {
    forall id :: id in s.table && KeyLe(KeyOf(s.table[id]), s.last) ==> Reached(s, KeyOf(s.table[id]))
  }

  /** What every run keeps. */
  ghost predicate Safe(s: State) {
    && WellKeyed(s.table)
    && Covered(s)
    && KeyLe(START, Loaded(s.file))
    && KeyLe(Loaded(s.file), s.last)
  }

  lemma NextWellKeyed(s: State, e: Event)
    requires WellKeyed(s.table)
    ensures WellKeyed(Next(s, e).table)
  {
    hide Apply, Incremental, Loaded;
    match e
    case Ledger(call) => StatementIsSafe(s.table, call, "");
    case Ship(batchSize, fault) => ShippingKeepsTable(s, batchSize, fault);
    case _ =>
  }

  lemma ShippingKeepsTable(s: State, batchSize: int, fault: Fault)
    requires WellKeyed(s.table)
    ensures Shipped(s, batchSize, fault).0.table == s.table
  {
    hide Incremental, Messages, WellKeyed;
  }

  /** The keys a batch pushes are the batch keys, in order. */
  lemma PushedKeys(s: State, batchSize: int)
    requires WellKeyed(s.table)
    ensures var entries := Incremental(s.table, s.last, batchSize);
      StreamKeys(s.stream + Messages(entries)) == StreamKeys(s.stream) + BatchKeys(s.table, s.last, batchSize)
  {
    hide Incremental, BatchKeys;
    BatchIsFetched(s.table, s.last, batchSize);
    StreamKeysOfPush(s.stream, Incremental(s.table, s.last, batchSize));
  }

  lemma StreamKeysOfPush(stream: seq<Message>, entries: seq<LedgerEntry>)
    ensures StreamKeys(stream + Messages(entries)) == StreamKeys(stream) + KeysOf(entries)
  {
    var pushed := stream + Messages(entries);
    forall i | 0 <= i < |pushed|
      ensures StreamKeys(pushed)[i] == (StreamKeys(stream) + KeysOf(entries))[i]
    {
      if i >= |stream| {
        assert pushed[i] == MessageOf(entries[i - |stream|]);
      }
    }
  }

  /** A batch that lands covers everything up to its last key, whatever happens afterwards. */
  lemma ShipKeepsSafe(s: State, batchSize: int, fault: Fault)
    requires Safe(s)
    ensures Safe(Shipped(s, batchSize, fault).0)
    ensures KeyLe(s.last, Shipped(s, batchSize, fault).0.last)
    ensures StreamKeys(s.stream) <= StreamKeys(Shipped(s, batchSize, fault).0.stream)
  {
    var s' := Shipped(s, batchSize, fault).0;
    var keys := BatchKeys(s.table, s.last, batchSize);
    PushedKeys(s, batchSize);
    var entries := Incremental(s.table, s.last, batchSize);
    if entries != [] {
      assert KeysOf(entries)[|entries| - 1] == keys[|keys| - 1];
      forall id | id in s.table && KeyLe(KeyOf(s.table[id]), s'.last)
        ensures Reached(s', KeyOf(s.table[id]))
      {
        var k := KeyOf(s.table[id]);
        if s'.last == s.last {
          assert Reached(s, k);
        } else {
          ReachedByBatch(s, batchSize, k);
        }
      }
      KeyTransitive(Loaded(s.file), s.last, keys[|keys| - 1]);
      KeyTransitive(START, Loaded(s.file), s.last);
      KeyTransitive(START, s.last, keys[|keys| - 1]);
    }
  }

  lemma ReachedByBatch(s: State, batchSize: int, k: Key)
    requires Safe(s) && InTable(s.table, k)
    requires var keys := BatchKeys(s.table, s.last, batchSize); keys != [] && KeyLe(k, keys[|keys| - 1])
    ensures k in StreamKeys(s.stream) + BatchKeys(s.table, s.last, batchSize)
  {
    var keys := BatchKeys(s.table, s.last, batchSize);
    KeyTotal(k, s.last);
    if KeyLe(k, s.last) {
      assert Reached(s, KeyOf(s.table[k.id]));
    } else if k !in keys {
      BatchSkipsNothing(s.table, s.last, batchSize, k);
      assert keys[|keys| - 1] in keys;
      KeyAsymmetric(keys[|keys| - 1], k);
    }
  }

  /** One event keeps the guarantee, provided an insert lands above the cursor or repeats a shipped key. */
  lemma NextKeepsSafe(s: State, e: Event)
    requires Safe(s) && Lands(s, e)
    ensures Safe(Next(s, e))
    ensures StreamKeys(s.stream) <= StreamKeys(Next(s, e).stream)
  {
    NextWellKeyed(s, e);
    match e
    case Ledger(call) =>
      var s' := Next(s, e);
      forall id | id in s'.table && KeyLe(KeyOf(s'.table[id]), s'.last)
        ensures Reached(s', KeyOf(s'.table[id]))
      {
        StatementIsSafe(s.table, call, id);
        if id !in s.table && KeyLt(s.last, KeyOf(s'.table[id])) {
          KeyAsymmetric(s.last, KeyOf(s'.table[id]));
        }
      }
    case Ship(batchSize, fault) => ShipKeepsSafe(s, batchSize, fault);
    case Restart =>
      var s' := Next(s, e);
      forall id | id in s'.table && KeyLe(KeyOf(s'.table[id]), s'.last)
        ensures Reached(s', KeyOf(s'.table[id]))
      {
        KeyTransitive(KeyOf(s'.table[id]), Loaded(s.file), s.last);
      }
    case Damage(lost) => KeyTransitive(START, Loaded(s.file), s.last);
  }

  // Whole runs.

  function RunEvents(s: State, events: seq<Event>): (end: State)
    requires WellKeyed(s.table)
    ensures WellKeyed(end.table)
  {
    if events == [] then s
    else
      var before := RunEvents(s, events[..|events| - 1]);
      NextWellKeyed(before, events[|events| - 1]);
      Next(before, events[|events| - 1])
  }

  ghost predicate AllLand(s: State, events: seq<Event>)
    requires WellKeyed(s.table)
  {
    events == [] ||
    var n := |events| - 1;
    AllLand(s, events[..n]) && Lands(RunEvents(s, events[..n]), events[n])
  }

  /**
   Safety of every run: whatever mixture of writes, failed pushes, failed checkpoint writes,
   restarts and file damage happens, no row at or below the cursor is missing from the stream,
   the saved cursor never exceeds the one in memory, and nothing shipped is taken back.
   */
  lemma {:induction false} RunIsSafe(s: State, events: seq<Event>)
    requires Safe(s) && AllLand(s, events)
    ensures Safe(RunEvents(s, events))
    ensures StreamKeys(s.stream) <= StreamKeys(RunEvents(s, events).stream)
  {
    if events != [] {
      var n := |events| - 1;
      RunIsSafe(s, events[..n]);
      NextKeepsSafe(RunEvents(s, events[..n]), events[n]);
    }
  }

  function FirstStart(table: Table, file: CheckpointFile): State {
    State(table, Loaded(file), file, [])
  }

  /** A first start without a readable file is safe exactly when every row lies above (0, ""). */
  lemma FirstStartIsSafe(table: Table, file: CheckpointFile)
    requires WellKeyed(table) && (file.Missing? || file.Corrupt?)
    ensures Safe(FirstStart(table, file)) <==>
      forall id :: id in table ==> table[id].createdAt > 0 || (table[id].createdAt == 0 && id != "")
  {
    var s := FirstStart(table, file);
    forall id | id in table
      ensures KeyLe(KeyOf(table[id]), s.last) <==> !(table[id].createdAt > 0 || (table[id].createdAt == 0 && id != ""))
    {
    }
    assert StreamKeys(s.stream) == [];
    assert Covered(s) <==> forall id :: id in table ==> !KeyLe(KeyOf(table[id]), s.last);
  }

  /** The hypothesis on inserts is exact: an insert keeps the guarantee if and only if it lands above
      or was shipped before. */
  lemma InsertKeepsSafeExactly(s: State, e: Event)
    requires Safe(s) && Inserts(s, e)
    ensures Safe(Next(s, e)) <==> KeyLt(s.last, KeyOf(e.call.entry)) || Reached(s, KeyOf(e.call.entry))
  {
    var k := KeyOf(e.call.entry);
    if Lands(s, e) {
      NextKeepsSafe(s, e);
    } else {
      KeyTotal(k, s.last);
      assert Next(s, e).table[k.id] == e.call.entry;
    }
  }

  ghost predicate SafeAfter(s: State, events: seq<Event>)
    requires WellKeyed(s.table)
  {
    Safe(RunEvents(s, events))
  }

  ghost predicate AlwaysSafe(s: State, events: seq<Event>)
    requires WellKeyed(s.table)
  {
    forall i :: 0 <= i <= |events| ==> SafeAfter(s, events[..i])
  }

  /** The hypothesis is exact over whole runs: the guarantee holds at every moment if and only if all inserts land. */
  lemma {:induction false} RunIsSafeExactly(s: State, events: seq<Event>)
    requires Safe(s)
    ensures AlwaysSafe(s, events) <==> AllLand(s, events)
  {
    assert WellKeyed(s.table) && SafeAfter(s, []);
    hide Safe, WellKeyed, Lands, Next, SafeAfter;
    if events == [] {
      assert forall i :: 0 <= i <= |events| ==> events[..i] == [];
    } else {
      var n := |events| - 1;
      RunIsSafeExactly(s, events[..n]);
      AlwaysSafeSnoc(s, events);
      if AlwaysSafe(s, events[..n]) {
        LastEventKeepsSafeExactly(s, events);
      }
    }
  }

  lemma LastEventKeepsSafeExactly(s: State, events: seq<Event>)
    requires WellKeyed(s.table) && events != [] && SafeAfter(s, events[..|events| - 1])
    ensures var n := |events| - 1;
      SafeAfter(s, events) <==> Lands(RunEvents(s, events[..n]), events[n])
  {
    hide Safe, Lands, Next, WellKeyed;
    var n := |events| - 1;
    EventKeepsSafeExactly(RunEvents(s, events[..n]), events[n]);
  }

  lemma EventKeepsSafeExactly(s: State, e: Event)
    requires Safe(s)
    ensures Safe(Next(s, e)) <==> Lands(s, e)
  {
    if Inserts(s, e) {
      InsertKeepsSafeExactly(s, e);
    } else {
      NextKeepsSafe(s, e);
    }
  }

  lemma AlwaysSafeSnoc(s: State, events: seq<Event>)
    requires WellKeyed(s.table) && events != []
    ensures AlwaysSafe(s, events) <==> AlwaysSafe(s, events[..|events| - 1]) && SafeAfter(s, events)
    ensures AlwaysSafe(s, events[..|events| - 1]) ==> SafeAfter(s, events[..|events| - 1])
  {
    hide SafeAfter, WellKeyed;
    var n := |events| - 1;
    assert forall i :: 0 <= i <= n ==> events[..n][..i] == events[..i];
    assert events[..n + 1] == events && events[..n][..n] == events[..n];
  }

  /** A row inserted at or below the cursor is not shipped by any run without a restart. */
  lemma {:induction false} MissedUntilRestart(s: State, events: seq<Event>, k: Key)
    requires WellKeyed(s.table) && KeyLe(k, s.last)
    requires forall e :: e in events ==> !e.Restart?
    ensures KeyLe(k, RunEvents(s, events).last)
    ensures Reached(RunEvents(s, events), k) <==> Reached(s, k)
  {
    if events != [] {
      var n := |events| - 1;
      assert events[n] in events && forall e :: e in events[..n] ==> e in events;
      MissedUntilRestart(s, events[..n], k);
      var before := RunEvents(s, events[..n]);
      if events[n].Ship? {
        ShipAdvances(before, events[n].batchSize, events[n].fault, k);
      }
    }
  }

  lemma ShipAdvances(s: State, batchSize: int, fault: Fault, k: Key)
    requires WellKeyed(s.table) && KeyLe(k, s.last)
    ensures KeyLe(k, Shipped(s, batchSize, fault).0.last)
    ensures Reached(Shipped(s, batchSize, fault).0, k) <==> Reached(s, k)
  {
    var keys := BatchKeys(s.table, s.last, batchSize);
    var entries := Incremental(s.table, s.last, batchSize);
    PushedKeys(s, batchSize);
    if entries != [] {
      assert KeysOf(entries)[|entries| - 1] == keys[|keys| - 1];
      KeyTransitive(k, s.last, keys[|keys| - 1]);
      if k in keys {
        KeyAsymmetric(s.last, k);
      }
    }
  }

  /** Events that can make a row appear in the stream a second time: a restart behind a shipped row, a lost answer. */
  ghost predicate MayRepeat(s: State, e: Event)
    requires WellKeyed(s.table)
  {
    || (e.Restart? && exists k :: k in StreamKeys(s.stream) && !KeyLe(k, Loaded(s.file)))
    || (e.Ship? && e.fault == PushFails(true) && Incremental(s.table, s.last, e.batchSize) != [])
  }

  /** The stream is strictly ascending and ends at or below the cursor. */
  ghost predicate NoRepeats(s: State) {
    Ascending(StreamKeys(s.stream)) && forall k :: k in StreamKeys(s.stream) ==> KeyLe(k, s.last)
  }

  ghost predicate NoneMayRepeat(s: State, events: seq<Event>)
    requires WellKeyed(s.table)
  {
    events == [] ||
    var n := |events| - 1;
    NoneMayRepeat(s, events[..n]) && !MayRepeat(RunEvents(s, events[..n]), events[n])
  }

  /** Without lost answers, and without restarts behind a shipped row, no row is ever shipped twice. */
  lemma {:induction false} ShippedAtMostOnce(s: State, events: seq<Event>)
    requires WellKeyed(s.table) && NoRepeats(s) && NoneMayRepeat(s, events)
    ensures NoRepeats(RunEvents(s, events))
  {
    hide Next, NoRepeats, MayRepeat, WellKeyed;
    if events != [] {
      var n := |events| - 1;
      ShippedAtMostOnce(s, events[..n]);
      NextRepeatsExactly(RunEvents(s, events[..n]), events[n]);
    }
  }

  /** The condition is exact: any other event keeps the stream ascending up to the cursor, and these break that. */
  lemma NextRepeatsExactly(s: State, e: Event)
    requires WellKeyed(s.table) && NoRepeats(s)
    ensures NoRepeats(Next(s, e)) <==> !MayRepeat(s, e)
  {
    hide Incremental, BatchKeys, StreamKeys, KeyLt, WellKeyed;
    match e
    case Ship(batchSize, fault) =>
      if fault == PushFails(true) {
        LostAnswerBreaksOrder(s, batchSize);
      } else {
        ShipKeepsNoRepeats(s, batchSize, fault);
      }
    case _ =>
  }

  lemma LostAnswerBreaksOrder(s: State, batchSize: int)
    requires WellKeyed(s.table) && NoRepeats(s)
    ensures NoRepeats(Shipped(s, batchSize, PushFails(true)).0) <==> Incremental(s.table, s.last, batchSize) == []
  {
    hide Incremental, BatchKeys, StreamKeys, KeyLt, WellKeyed, Messages;
    var keys := BatchKeys(s.table, s.last, batchSize);
    PushedKeys(s, batchSize);
    BatchIsFetched(s.table, s.last, batchSize);
    if keys != [] {
      var pushed := StreamKeys(s.stream) + keys;
      assert keys[0] in keys && pushed[|StreamKeys(s.stream)|] == keys[0];
      KeyAsymmetric(s.last, keys[0]);
    }
  }

  // The saved cursor.

  predicate IsUpToDate(s: State) {
    Loaded(s.file) == s.last
  }

  /** Events after which the saved cursor is not the one in memory, if it was before. */
  predicate LosesCursor(s: State, e: Event)
    requires WellKeyed(s.table)
  {
    || (e.Damage? && s.last != START)
    || (e.Ship? && e.fault.SaveFails? && Incremental(s.table, s.last, e.batchSize) != [])
  }

  /** What one turn does: what reaches the stream, where the cursor goes, and what is saved. */
  lemma TurnOutcome(s: State, batchSize: int, fault: Fault)
    requires WellKeyed(s.table)
    ensures var entries := Incremental(s.table, s.last, batchSize);
      var (end, answer) := Shipped(s, batchSize, fault);
      && (entries == [] ==> end == s && answer == Some(0))
      && (entries != [] ==>
          && end.stream == s.stream + (if fault == PushFails(false) then [] else Messages(entries))
          && end.last == (if fault.PushFails? then s.last else KeyOf(entries[|entries| - 1]))
          && (fault.NoFault? ==> Loaded(end.file) == end.last && answer == Some(|entries|))
          && (!fault.NoFault? ==> end.file == s.file && answer == None))
  {
    hide Incremental;
  }

  /** The saved cursor stays the one in memory exactly if neither a save fails nor the file is damaged. */
  lemma StaysUpToDateExactly(s: State, e: Event)
    requires WellKeyed(s.table) && IsUpToDate(s)
    ensures IsUpToDate(Next(s, e)) <==> !LosesCursor(s, e)
  {
    hide Incremental, BatchKeys, WellKeyed;
    if e.Ship? {
      TurnOutcome(s, e.batchSize, e.fault);
      BatchIsFetched(s.table, s.last, e.batchSize);
      var keys := BatchKeys(s.table, s.last, e.batchSize);
      if keys != [] {
        assert keys[|keys| - 1] in keys;
        KeyAsymmetric(s.last, keys[|keys| - 1]);
      }
    }
  }

  ghost predicate NoneLosesCursor(s: State, events: seq<Event>)
    requires WellKeyed(s.table)
  {
    events == [] ||
    var n := |events| - 1;
    NoneLosesCursor(s, events[..n]) && !LosesCursor(RunEvents(s, events[..n]), events[n])
  }

  /**
   In a run without failed saves and damage the saved cursor is always the one in memory, so a
   restart at its end changes nothing at all.
   */
  lemma {:induction false} RestartResumes(s: State, events: seq<Event>)
    requires WellKeyed(s.table) && IsUpToDate(s) && NoneLosesCursor(s, events)
    ensures var end := RunEvents(s, events);
      IsUpToDate(end) && Next(end, Restart) == end
  {
    hide LosesCursor, WellKeyed;
    if events != [] {
      var n := |events| - 1;
      RestartResumes(s, events[..n]);
      StaysUpToDateExactly(RunEvents(s, events[..n]), events[n]);
    }
  }

  /** So if no answer is lost either, no row is ever shipped twice, however often the process restarts. */
  lemma {:induction false} RestartsRepeatNothing(s: State, events: seq<Event>)
    requires WellKeyed(s.table) && IsUpToDate(s) && NoRepeats(s) && NoneLosesCursor(s, events)
    requires forall e :: e in events ==> !(e.Ship? && e.fault == PushFails(true))
    ensures NoRepeats(RunEvents(s, events))
  {
    if events != [] {
      var n := |events| - 1;
      assert events[n] in events && forall e :: e in events[..n] ==> e in events;
      RestartsRepeatNothing(s, events[..n]);
      RestartResumes(s, events[..n]);
      var before := RunEvents(s, events[..n]);
      hide RunEvents, Next, WellKeyed;
      assert !MayRepeat(before, events[n]);
      NextRepeatsExactly(before, events[n]);
    }
  }

  lemma ShipKeepsNoRepeats(s: State, batchSize: int, fault: Fault)
    requires WellKeyed(s.table) && NoRepeats(s) && fault != PushFails(true)
    ensures NoRepeats(Shipped(s, batchSize, fault).0)
  {
    hide Incremental, BatchKeys, KeyLt, Messages, StreamKeys;
    var s' := Shipped(s, batchSize, fault).0;
    var keys := BatchKeys(s.table, s.last, batchSize);
    var entries := Incremental(s.table, s.last, batchSize);
    PushedKeys(s, batchSize);
    BatchIsFetched(s.table, s.last, batchSize);
    if entries != [] && !fault.PushFails? {
      assert KeysOf(entries)[|entries| - 1] == keys[|keys| - 1] == s'.last;
      KeysGoOn(StreamKeys(s.stream), keys, s.last);
    }
  }

  /** A batch above the cursor continues the stream's ascending keys, and ends at the new cursor. */
  lemma KeysGoOn(shipped: seq<Key>, keys: seq<Key>, last: Key)
    requires keys != [] && Ascending(shipped) && Ascending(keys)
    requires (forall k :: k in shipped ==> KeyLe(k, last)) && (forall k :: k in keys ==> KeyLt(last, k))
    ensures Ascending(shipped + keys)
    ensures forall k :: k in shipped + keys ==> KeyLe(k, keys[|keys| - 1])
  {
    hide KeyLt;
    AscendingConcat(shipped, keys, last);
    var top := keys[|keys| - 1];
    forall k | k in shipped + keys
      ensures KeyLe(k, top)
    {
      if k in shipped {
        KeyTransitive(k, last, top);
      }
    }
  }

  // Draining a backlog.

  /** Everything above the cursor, in the order it will be shipped. */
  function Backlog(table: Table, after: Key): seq<LedgerEntry>
    requires WellKeyed(table)
  {
    Incremental(table, after, -1)
  }

  /** A batch is the front of the backlog. */
  lemma BatchIsFrontOfBacklog(table: Table, after: Key, batchSize: int)
    requires WellKeyed(table)
    ensures Incremental(table, after, batchSize) == Limited(Backlog(table, after), batchSize)
  {
    hide KeysAbove, SortKeys, KeyOf;
    var above := SortKeys(KeysAbove(table, after));
    var keys := BatchKeys(table, after, batchSize);
    assert BatchKeys(table, after, -1) == above;
    assert keys == above[0..|keys|];
    FetchSlice(table, above, 0, |keys|);
  }

  /** Moving the cursor behind a batch leaves the rest of the backlog. */
  lemma BacklogAfterBatch(table: Table, after: Key, batchSize: int)
    requires WellKeyed(table) && Incremental(table, after, batchSize) != []
    ensures var batch := Incremental(table, after, batchSize);
      Backlog(table, KeyOf(batch[|batch| - 1])) == Backlog(table, after)[|batch|..]
  {
    hide KeysAbove, SortKeys, KeyLt, Fetch, InTable, WellKeyed;
    BatchIsFetched(table, after, batchSize);
    var above := SortKeys(KeysAbove(table, after));
    var keys := BatchKeys(table, after, batchSize);
    var batch := Incremental(table, after, batchSize);
    assert |batch| == |keys| && KeysOf(batch)[|batch| - 1] == keys[|keys| - 1];
    CursorAfterBatch(table, after, batchSize);
    assert BatchKeys(table, after, -1) == above;
    assert BatchKeys(table, keys[|keys| - 1], -1) == above[|keys|..|above|];
    FetchSlice(table, above, |keys|, |above|);
  }

  lemma FetchSlice(table: Table, keys: seq<Key>, i: nat, j: nat)
    requires i <= j <= |keys|
    requires forall n :: 0 <= n < |keys| ==> InTable(table, keys[n])
    ensures Fetch(table, keys[i..j]) == Fetch(table, keys)[i..j]
  {
  }

  function Ships(k: nat, batchSize: int): seq<Event> {
    if k == 0 then [] else Ships(k - 1, batchSize) + [Ship(batchSize, NoFault)]
  }

  /** The number of backlog rows that `k` batches of `batchSize` carry. */
  function Carried(backlog: nat, k: nat, batchSize: int): nat {
    if batchSize < 0 then if k == 0 then 0 else backlog
    else if k * batchSize < backlog then k * batchSize
    else backlog
  }

  /** `end` is `s` after exactly the first `m` backlog rows were shipped, in order and each once. */
  ghost predicate ShippedFirst(s: State, end: State, m: nat)
    requires WellKeyed(s.table)
  {
    var backlog := Backlog(s.table, s.last);
    && m <= |backlog|
    && end.table == s.table
    && end.stream == s.stream + Messages(backlog[..m])
    && Backlog(end.table, end.last) == backlog[m..]
  }

  /**
   `k` clean batches ship exactly the first k * batchSize backlog rows (LIMIT: a negative size is
   unlimited), in key order and each once, and leave exactly the rest.
   */
  lemma {:induction false} CleanBatches(s: State, k: nat, batchSize: int)
    requires WellKeyed(s.table)
    ensures ShippedFirst(s, RunEvents(s, Ships(k, batchSize)), Carried(|Backlog(s.table, s.last)|, k, batchSize))
  {
    hide Backlog, ShippedFirst, Shipped, RunEvents, Ships, Carried, WellKeyed;
    var backlog := Backlog(s.table, s.last);
    if k == 0 {
      NoShips(s, batchSize);
    } else {
      CleanBatches(s, k - 1, batchSize);
      OneMoreShip(s, k, batchSize);
      CarriedStep(|backlog|, k, batchSize);
      CleanBatchContinues(s, RunEvents(s, Ships(k - 1, batchSize)), Carried(|backlog|, k - 1, batchSize),
        Carried(|backlog|, k, batchSize), batchSize);
    }
  }

  lemma NoShips(s: State, batchSize: int)
    requires WellKeyed(s.table)
    ensures RunEvents(s, Ships(0, batchSize)) == s && Carried(|Backlog(s.table, s.last)|, 0, batchSize) == 0
    ensures ShippedFirst(s, s, 0)
  {
    hide Incremental;
    var backlog := Backlog(s.table, s.last);
    assert s.stream + Messages(backlog[..0]) == s.stream;
  }

  lemma OneMoreShip(s: State, k: nat, batchSize: int)
    requires WellKeyed(s.table) && k > 0
    ensures RunEvents(s, Ships(k, batchSize)) == Shipped(RunEvents(s, Ships(k - 1, batchSize)), batchSize, NoFault).0
  {
    hide Shipped, WellKeyed;
    var events := Ships(k, batchSize);
    assert events[..|events| - 1] == Ships(k - 1, batchSize);
  }

  lemma CleanBatchContinues(s: State, mid: State, m0: nat, m: nat, batchSize: int)
    requires WellKeyed(s.table) && ShippedFirst(s, mid, m0)
    requires var n := |Backlog(s.table, s.last)|;
      m == m0 + (if 0 <= batchSize < n - m0 then batchSize else n - m0)
    ensures ShippedFirst(s, Shipped(mid, batchSize, NoFault).0, m)
  {
    CleanBatch(mid, batchSize);
    Splice(s.stream, Backlog(s.table, s.last), m0, m, batchSize);
  }

  lemma Splice(stream: seq<Message>, backlog: seq<LedgerEntry>, m0: nat, m: nat, batchSize: int)
    requires m0 <= |backlog|
    requires m == m0 + (if 0 <= batchSize < |backlog| - m0 then batchSize else |backlog| - m0)
    ensures m <= |backlog|
    ensures stream + Messages(backlog[..m0]) + Messages(Limited(backlog[m0..], batchSize))
      == stream + Messages(backlog[..m])
    ensures backlog[m0..][|Limited(backlog[m0..], batchSize)|..] == backlog[m..]
  {
    NextSlice(backlog, m0, m, batchSize);
    MessagesConcat(backlog[..m0], backlog[m0..m]);
    assert (stream + Messages(backlog[..m0])) + Messages(backlog[m0..m])
        == stream + (Messages(backlog[..m0]) + Messages(backlog[m0..m]));
  }

  lemma NextSlice<T>(backlog: seq<T>, m0: nat, m: nat, batchSize: int)
    requires m0 <= |backlog|
    requires m == m0 + (if 0 <= batchSize < |backlog| - m0 then batchSize else |backlog| - m0)
    ensures Limited(backlog[m0..], batchSize) == backlog[m0..m]
    ensures backlog[m0..][m - m0..] == backlog[m..]
    ensures backlog[..m0] + backlog[m0..m] == backlog[..m]
  {
    var rest := backlog[m0..];
    assert 0 <= batchSize < |rest| ==> rest[..batchSize] == backlog[m0..m];
  }

  lemma MessagesConcat(a: seq<LedgerEntry>, b: seq<LedgerEntry>)
    ensures Messages(a + b) == Messages(a) + Messages(b)
  {
  }

  /** One clean batch lowers the backlog by exactly min(batchSize, backlog) rows and ships those. */
  lemma CleanBatch(s: State, batchSize: int)
    requires WellKeyed(s.table)
    ensures var end := Shipped(s, batchSize, NoFault).0;
      var backlog := Backlog(s.table, s.last);
      var batch := Limited(backlog, batchSize);
      && Shipped(s, batchSize, NoFault).1 == Some(|batch|)
      && end.table == s.table
      && end.stream == s.stream + Messages(batch)
      && Backlog(end.table, end.last) == backlog[|batch|..]
  {
    hide Incremental, Backlog;
    BatchIsFrontOfBacklog(s.table, s.last, batchSize);
    if Incremental(s.table, s.last, batchSize) == [] {
      assert s.stream + Messages([]) == s.stream;
    } else {
      BacklogAfterBatch(s.table, s.last, batchSize);
    }
  }

  lemma CarriedStep(backlog: nat, k: nat, batchSize: int)
    requires k > 0
    ensures var m0 := Carried(backlog, k - 1, batchSize);
      Carried(backlog, k, batchSize) == m0 + (if 0 <= batchSize < backlog - m0 then batchSize else backlog - m0)
  {
    assert k * batchSize == (k - 1) * batchSize + batchSize;
  }

  /** With a nonzero batch size, ceil(n / batchSize) clean batches drain n rows and fewer do not; with
      zero none ever do. */
  lemma DrainedExactly(s: State, k: nat, batchSize: int)
    requires WellKeyed(s.table)
    ensures var n := |Backlog(s.table, s.last)|;
      Backlog(RunEvents(s, Ships(k, batchSize)).table, RunEvents(s, Ships(k, batchSize)).last) == [] <==>
        n == 0 || (batchSize < 0 && k > 0) || (batchSize > 0 && k * batchSize >= n)
  {
    CleanBatches(s, k, batchSize);
  }

  /** From a first start, the drained stream is the whole ledger in strict key order, each row exactly once. */
  lemma FreshDrainIsWholeLedger(table: Table, k: nat, batchSize: int)
    requires WellKeyed(table) && Safe(FirstStart(table, Missing))
    requires batchSize > 0 && k * batchSize >= |table|
    ensures var end := RunEvents(FirstStart(table, Missing), Ships(k, batchSize));
      && StreamKeys(end.stream) == SortKeys(AllKeys(table))
      && end.stream == Messages(Backlog(table, START))
  {
    var s := FirstStart(table, Missing);
    var backlog := Backlog(table, START);
    EverythingAboveStart(table);
    KeyCount(table);
    BatchIsFetched(table, START, -1);
    assert KeysOf(backlog) == SortKeys(AllKeys(table));
    CleanBatches(s, k, batchSize);
    var end := RunEvents(s, Ships(k, batchSize));
    assert ShippedFirst(s, end, |backlog|);
    WholeStream(backlog);
  }

  lemma WholeStream(backlog: seq<LedgerEntry>)
    ensures [] + Messages(backlog[..|backlog|]) == Messages(backlog)
    ensures StreamKeys(Messages(backlog)) == KeysOf(backlog)
  {
    assert backlog[..|backlog|] == backlog;
  }

  lemma EverythingAboveStart(table: Table)
    requires WellKeyed(table) && Safe(FirstStart(table, Missing))
    ensures KeysAbove(table, START) == AllKeys(table)
  {
    var s := FirstStart(table, Missing);
    forall k | k in AllKeys(table)
      ensures KeyLt(START, k)
    {
      assert table[k.id].id == k.id && !Reached(s, KeyOf(table[k.id]));
      KeyTotal(k, START);
    }
  }

  lemma {:induction false} KeyCount(table: Table)
    requires WellKeyed(table)
    ensures |AllKeys(table)| == |table|
    decreases |table|
  {
    if table != map[] {
      var id :| id in table;
      var rest := table - {id};
      KeyCount(rest);
      assert AllKeys(table) == AllKeys(rest) + {KeyOf(table[id])};
      assert table == rest[id := table[id]];
    }
  }

  /**
   At-least-once: after any run with all its failures, enough clean batches leave every row
   that is still in the table in the stream.
   */
  lemma EveryRowIsShippedEventually(s: State, events: seq<Event>, k: nat, batchSize: int)
    requires Safe(s) && AllLand(s, events)
    requires batchSize > 0 && k * batchSize >= |RunEvents(s, events).table|
    ensures var mid := RunEvents(s, events);
      var end := RunEvents(mid, Ships(k, batchSize));
      && end.table == mid.table
      && forall id :: id in end.table ==> Reached(end, KeyOf(end.table[id]))
  {
    RunIsSafe(s, events);
    var mid := RunEvents(s, events);
    var end := RunEvents(mid, Ships(k, batchSize));
    ShipsKeepTable(mid, k, batchSize);
    hide *;
    forall id | id in end.table
      ensures Reached(end, KeyOf(end.table[id]))
    {
      ShippedInTheEndExactly(mid, k, batchSize, id);
      SafeRowIsNotLost(mid, id);
    }
  }

  lemma ShipsKeepTable(s: State, k: nat, batchSize: int)
    requires WellKeyed(s.table)
    ensures RunEvents(s, Ships(k, batchSize)).table == s.table
  {
    hide RunEvents, Ships, Backlog, WellKeyed;
    CleanBatches(s, k, batchSize);
  }

  lemma SafeRowIsNotLost(s: State, id: string)
    requires Safe(s) && id in s.table
    ensures Reached(s, KeyOf(s.table[id])) || KeyLt(s.last, KeyOf(s.table[id]))
  {
    KeyTotal(KeyOf(s.table[id]), s.last);
  }

  /** From any state, enough clean batches ship exactly the rows that lie above the cursor. */
  lemma ShippedInTheEndExactly(s: State, k: nat, batchSize: int, id: string)
    requires WellKeyed(s.table) && id in s.table
    requires batchSize > 0 && k * batchSize >= |s.table|
    ensures Reached(RunEvents(s, Ships(k, batchSize)), KeyOf(s.table[id])) <==>
      Reached(s, KeyOf(s.table[id])) || KeyLt(s.last, KeyOf(s.table[id]))
  {
    var key := KeyOf(s.table[id]);
    KeyTotal(key, s.last);
    if KeyLt(s.last, key) {
      RowAboveIsShipped(s, k, batchSize, id);
    } else {
      ShipsDoNotRestart(k, batchSize);
      MissedUntilRestart(s, Ships(k, batchSize), key);
    }
  }

  lemma RowAboveIsShipped(s: State, k: nat, batchSize: int, id: string)
    requires WellKeyed(s.table) && id in s.table && KeyLt(s.last, KeyOf(s.table[id]))
    requires batchSize > 0 && k * batchSize >= |s.table|
    ensures Reached(RunEvents(s, Ships(k, batchSize)), KeyOf(s.table[id]))
  {
    var key, backlog := KeyOf(s.table[id]), Backlog(s.table, s.last);
    BacklogFits(s.table, s.last);
    assert Carried(|backlog|, k, batchSize) == |backlog|;
    CleanBatches(s, k, batchSize);
    hide RunEvents, Ships, Carried;
    assert backlog[..|backlog|] == backlog;
    StreamKeysOfPush(s.stream, backlog);
    RowIsInBacklog(s, id);
  }

  lemma RowIsInBacklog(s: State, id: string)
    requires WellKeyed(s.table) && id in s.table && KeyLt(s.last, KeyOf(s.table[id]))
    ensures KeyOf(s.table[id]) in KeysOf(Backlog(s.table, s.last))
  {
    BatchIsFetched(s.table, s.last, -1);
    assert KeyOf(s.table[id]) in KeysAbove(s.table, s.last);
  }

  lemma {:induction false} ShipsDoNotRestart(k: nat, batchSize: int)
    ensures forall e :: e in Ships(k, batchSize) ==> !e.Restart?
  {
    if k > 0 {
      ShipsDoNotRestart(k - 1, batchSize);
    }
  }

  lemma BacklogFits(table: Table, after: Key)
    requires WellKeyed(table)
    ensures |Backlog(table, after)| <= |table|
  {
    KeyCount(table);
    SubsetSize(KeysAbove(table, after), AllKeys(table));
  }

  lemma {:induction false} SubsetSize(a: set<Key>, b: set<Key>)
    requires a <= b
    ensures |a| <= |b|
    decreases a
  {
    if a != {} {
      var x :| x in a;
      SubsetSize(a - {x}, b - {x});
    }
  }

  // The shipper object.

  function LedgerEvents(calls: seq<Call>): seq<Event> {
    seq(|calls|, i requires 0 <= i < |calls| => Ledger(calls[i]))
  }

  /** Writes of other nodes change the table and nothing the shipper holds. */
  lemma {:induction false} WritesOnlyTouchTable(s: State, calls: seq<Call>)
    requires WellKeyed(s.table)
    ensures RunEvents(s, LedgerEvents(calls)) == s.(table := RunCalls(s.table, calls))
  {
    if calls != [] {
      var n := |calls| - 1;
      assert LedgerEvents(calls)[..n] == LedgerEvents(calls[..n]);
      WritesOnlyTouchTable(s, calls[..n]);
    }
  }

  lemma RunOneShip(s: State, batchSize: int, fault: Fault)
    requires WellKeyed(s.table)
    ensures RunEvents(s, [Ship(batchSize, fault)]) == Shipped(s, batchSize, fault).0
  {
    hide Shipped;
    assert [Ship(batchSize, fault)][..0] == [];
  }

  lemma RunShipThenWrites(s: State, batchSize: int, fault: Fault, calls: seq<Call>)
    requires WellKeyed(s.table)
    ensures RunEvents(s, [Ship(batchSize, fault)] + LedgerEvents(calls))
      == Shipped(s, batchSize, fault).0.(table := RunCalls(s.table, calls))
  {
    hide Shipped, RunEvents, LedgerEvents, RunCalls;
    RunOneShip(s, batchSize, fault);
    ShippingKeepsTable(s, batchSize, fault);
    RunAppends(s, [Ship(batchSize, fault)], LedgerEvents(calls));
    WritesOnlyTouchTable(Shipped(s, batchSize, fault).0, calls);
  }

  lemma {:induction false} RunAppends(s: State, a: seq<Event>, b: seq<Event>)
    requires WellKeyed(s.table)
    ensures RunEvents(s, a + b) == RunEvents(RunEvents(s, a), b)
  {
    if b == [] {
      assert a + b == a;
    } else {
      assert (a + b)[..|a + b| - 1] == a + b[..|b| - 1];
      RunAppends(s, a, b[..|b| - 1]);
    }
  }

  class AuditShipper {
    const ledger: OpsLedger
    const batchSize: int
    var lastTs: int
    var lastId: string
    var file: CheckpointFile   // the checkpoint file on disk
    var stream: seq<Message>   // the Redis stream of this node

    ghost predicate Valid()
      reads this, ledger.storage
    {
      ledger.storage.Valid()
    }

    ghost function View(): State
      reads this, ledger.storage
    {
      State(ledger.storage.table, Key(lastTs, lastId), file, stream)
    }

    constructor (ledger: OpsLedger, batchSize: int, file: CheckpointFile, stream: seq<Message>)
      requires ledger.storage.Valid()
      ensures Valid() && this.ledger == ledger && this.batchSize == batchSize
      ensures View() == State(ledger.storage.table, Loaded(file), file, stream)
    {
      this.ledger := ledger;
      this.batchSize := batchSize;
      this.file := file;
      this.stream := stream;
      lastTs, lastId := Loaded(file).ts, Loaded(file).id;
    }

    /** The write goes to a temporary file that replaces the old one whole, or fails and leaves it. */
    method SaveCheckpoint(ts: int, id: string, fails: bool) returns (saved: bool)
      modifies this`file
      ensures saved == !fails
      ensures file == if saved then Document(Some(ts), Some(id)) else old(file)
    {
      if !fails {
        file := Document(Some(ts), Some(id));
      }
      saved := !fails;
    }

    /** One XADD per entry, in order. */
    method BuildPipeline(entries: seq<LedgerEntry>) returns (pipe: seq<Message>)
      ensures pipe == Messages(entries)
    {
      pipe := [];
      for i := 0 to |entries|
        invariant pipe == Messages(entries[..i])
      {
        var entry := entries[i];
        MessagesConcat(entries[..i], [entry]);
        assert entries[..i] + [entry] == entries[..i + 1];
        pipe := pipe + [Message(entry.id, entry.createdAt, ToRecord(entry))];
      }
      assert entries[..|entries|] == entries;
    }

    /** The pipeline, the cursor and the checkpoint. */
    method Push(entries: seq<LedgerEntry>, fault: Fault) returns (shipped: Option<nat>)
      modifies this
      ensures (View(), shipped) == AfterRead(old(View()), entries, fault)
      ensures entries != [] && fault.NoFault? ==>
        file == Document(Some(lastTs), Some(lastId)) && Key(lastTs, lastId) == KeyOf(entries[|entries| - 1])
    {
      hide Messages, ToRecord;
      if entries == [] {
        return Some(0);
      }
      var pipe := BuildPipeline(entries);
      if fault.PushFails? {
        if fault.landed {
          stream := stream + pipe;
        }
        return None;
      }
      stream := stream + pipe;
      var last := entries[|entries| - 1];
      lastTs, lastId := last.createdAt, last.id;
      var saved := SaveCheckpoint(lastTs, lastId, fault == SaveFails);
      shipped := if saved then Some(|entries|) else None;
    }

    /**
     One turn of the shipper. Other nodes may write the table after the rows were read; the
     turn then counts as having happened before those writes.
     */
    method ShipBatch(fault: Fault, others: seq<Call>) returns (shipped: Option<nat>)
      requires Valid()
      modifies this, ledger.storage
      ensures Valid()
      ensures View() == RunEvents(old(View()), [Ship(batchSize, fault)] + LedgerEvents(others))
      ensures shipped == Shipped(old(View()), batchSize, fault).1
      ensures shipped.Some? && shipped.value > 0 ==> Loaded(file) == Key(lastTs, lastId)
    {
      hide RunEvents, Incremental, IsBatch, RunCalls, WellKeyed;
      RunShipThenWrites(View(), batchSize, fault, others);
      var entries := ledger.storage.GetIncremental(Key(lastTs, lastId), batchSize);
      ledger.Interleave(others);
      shipped := Push(entries, fault);
    }
  }
}
