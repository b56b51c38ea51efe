/**
The ledger table (src/sqlite_ledger_storage.py). Each SQL statement is one atomic step; the
functions say what it does to the table, the class issues it as the driver does.
*/
module LedgerStorage {
  import opened Collections
  import opened Wrappers
  import opened KeyOrder
  import opened LedgerEntries

  type Table = map<string, LedgerEntry>

  /** Rows are found under their own primary key. */
  ghost predicate WellKeyed(table: Table) {
    forall id :: id in table ==> table[id].id == id
  }

  /** One `column = value` pair of an update dictionary. */
  datatype Assign =
    | SetId(id: string)
    | SetStatus(status: Status)
    | SetCheckpoint(checkpoint: Dict)
    | SetCreatedAt(createdAt: int)
    | SetUpdatedAt(updatedAt: int)
    | SetLastError(lastError: Option<string>)

  predicate Immutable(a: Assign) {
    a.SetId? || a.SetCreatedAt?
  }

  function AssignRow(row: LedgerEntry, a: Assign): LedgerEntry {
    match a
    case SetId(id) => row.(id := id)
    case SetStatus(status) => row.(status := status)
    case SetCheckpoint(checkpoint) => row.(checkpoint := checkpoint)
    case SetCreatedAt(t) => row.(createdAt := t)
    case SetUpdatedAt(t) => row.(updatedAt := t)
    case SetLastError(e) => row.(lastError := e)
  }

  /** SQL `SET f1, f2, ...` on one row. */
  function AssignAll(row: LedgerEntry, fields: seq<Assign>): LedgerEntry {
    if fields == [] then row
    else AssignRow(AssignAll(row, fields[..|fields| - 1]), fields[|fields| - 1])
  }

  /** `UPDATE ledger SET fields WHERE id = ? [AND status IN expected]`, with the affected row count. */
  function UpdateStatement(table: Table, id: string, fields: seq<Assign>, expected: seq<Status>): (Table, nat) {
    if id in table && (expected == [] || table[id].status in expected)
    then (table[id := AssignAll(table[id], fields)], 1)
    else (table, 0)
  }

  /** The assignments of `updates` that an update may make, in order. */
  function Mutable(updates: seq<Assign>): seq<Assign> {
    if updates == [] then []
    else
      var front := Mutable(updates[..|updates| - 1]);
      var a := updates[|updates| - 1];
      if Immutable(a) then front else front + [a]
  }

  /** `ILedgerStorage.update`: an update that names no mutable column reports success unseen. */
  function Updated(table: Table, id: string, updates: seq<Assign>, expected: seq<Status>): (Table, bool) {
    if Mutable(updates) == [] then (table, true)
    else
      var (table', rows) := UpdateStatement(table, id, Mutable(updates), expected);
      (table', rows > 0)
  }

  /** Whatever the update dictionary says, id and creation time stay. */
  lemma {:induction false} UpdateKeepsKey(row: LedgerEntry, updates: seq<Assign>)
    ensures KeyOf(AssignAll(row, Mutable(updates))) == KeyOf(row)
  {
    if updates != [] {
      var n := |updates| - 1;
      UpdateKeepsKey(row, updates[..n]);
      var front := Mutable(updates[..n]);
      assert (front + [updates[n]])[..|front|] == front;
    }
  }

  /** A guarded update that succeeds has seen an expected status and touched only that row. */
  lemma UpdateIsCompareAndSet(table: Table, id: string, updates: seq<Assign>, expected: seq<Status>)
    requires WellKeyed(table) && expected != [] && Mutable(updates) != []
    ensures var (table', ok) := Updated(table, id, updates, expected);
      && WellKeyed(table')
      && (ok <==> id in table && table[id].status in expected)
      && (!ok ==> table' == table)
      && table'.Keys == table.Keys
      && (forall other :: other in table && other != id ==> table'[other] == table[other])
      && (forall k :: k in table ==> KeyOf(table'[k]) == KeyOf(table[k]))
  {
    if id in table {
      UpdateKeepsKey(table[id], updates);
    }
  }

  /** Without a column to set an update succeeds unseen; without a guard it succeeds if the row is there. */
  lemma UnguardedUpdate(table: Table, id: string, updates: seq<Assign>, expected: seq<Status>)
    ensures Mutable(updates) == [] ==> Updated(table, id, updates, expected) == (table, true)
    ensures Mutable(updates) != [] ==> (Updated(table, id, updates, []).1 <==> id in table)
    ensures Mutable(updates) == [] <==> forall a :: a in updates ==> Immutable(a)
    ensures forall a: Assign :: Immutable(a) <==> a.SetId? || a.SetCreatedAt?
  {
    MutableMembers(updates);
    assert Mutable(updates) != [] ==> Mutable(updates)[0] in Mutable(updates);
  }

  lemma {:induction false} MutableMembers(updates: seq<Assign>)
    ensures forall a :: a in Mutable(updates) <==> a in updates && !Immutable(a)
  {
    if updates != [] {
      MutableMembers(updates[..|updates| - 1]);
    }
  }

  // Ordered queries.

  predicate InTable(table: Table, k: Key) {
    k.id in table && KeyOf(table[k.id]) == k
  }

  function AllKeys(table: Table): (keys: set<Key>)
    requires WellKeyed(table)
    ensures forall k :: k in keys <==> InTable(table, k)
  {
    set id | id in table :: KeyOf(table[id])
  }

  function KeysAbove(table: Table, after: Key): (keys: set<Key>)
    requires WellKeyed(table)
  {
    set k | k in AllKeys(table) && KeyLt(after, k)
  }

  function KeysWith(table: Table, status: Option<Status>): set<Key>
    requires WellKeyed(table)
  {
    set k | k in AllKeys(table) && (status.None? || table[k.id].status == status.value)
  }

  /** The entries that a cursor over the rows at `keys` yields. */
  function Fetch(table: Table, keys: seq<Key>): (entries: seq<LedgerEntry>)
    requires forall i :: 0 <= i < |keys| ==> InTable(table, keys[i])
    ensures |entries| == |keys|
    ensures forall i :: 0 <= i < |keys| ==> InTable(table, keys[i]) && entries[i] == Reloaded(table[keys[i].id])
  {
    seq(|keys|, i requires 0 <= i < |keys| && InTable(table, keys[i]) => Reloaded(table[keys[i].id]))
  }

  /** SQL LIMIT: a negative limit is no limit. */
  function Limited<T>(s: seq<T>, limit: int): seq<T> {
    if 0 <= limit < |s| then s[..limit] else s
  }

  function KeysOf(entries: seq<LedgerEntry>): (keys: seq<Key>)
    ensures |keys| == |entries| && forall i :: 0 <= i < |entries| ==> keys[i] == KeyOf(entries[i])
  {
    seq(|entries|, i requires 0 <= i < |entries| => KeyOf(entries[i]))
  }

  /** The keys `get_incremental` returns. */
  function BatchKeys(table: Table, after: Key, limit: int): (keys: seq<Key>)
    requires WellKeyed(table)
    ensures Ascending(keys)
    ensures keys <= SortKeys(KeysAbove(table, after))
    ensures forall i :: 0 <= i < |keys| ==> InTable(table, keys[i]) && KeyLt(after, keys[i])
  {
    Limited(SortKeys(KeysAbove(table, after)), limit)
  }

  /** `get_incremental`: the first `limit` rows above the cursor, in key order. */
  function Incremental(table: Table, after: Key, limit: int): (entries: seq<LedgerEntry>)
    requires WellKeyed(table)
    ensures |entries| == |BatchKeys(table, after, limit)|
  {
    Fetch(table, BatchKeys(table, after, limit))
  }

  /** The entries of a batch are the stored rows at the batch keys, as read back. */
  lemma BatchIsFetched(table: Table, after: Key, limit: int)
    requires WellKeyed(table)
    ensures var entries := Incremental(table, after, limit);
      && KeysOf(entries) == BatchKeys(table, after, limit)
      && forall i :: 0 <= i < |entries| ==> entries[i].id in table && entries[i] == Reloaded(table[entries[i].id])
  {
    hide SortKeys, KeysAbove, Limited;
  }

  /** The keys `list_all` returns. */
  function ListedKeys(table: Table, status: Option<Status>, limit: int): (keys: seq<Key>)
    requires WellKeyed(table)
    ensures forall i :: 0 <= i < |keys| ==> InTable(table, keys[i])
  {
    var sorted := SortKeys(KeysWith(table, status));
    Limited(Reversed(sorted), limit)
  }

  /** `list_all`: newest first. */
  function Listed(table: Table, status: Option<Status>, limit: int): seq<LedgerEntry>
    requires WellKeyed(table)
  {
    Fetch(table, ListedKeys(table, status, limit))
  }

  /** Every batch is an initial piece of what lies above the cursor: nothing smaller is left behind. */
  lemma BatchSkipsNothing(table: Table, after: Key, limit: int, k: Key)
    requires WellKeyed(table)
    requires InTable(table, k) && KeyLt(after, k) && k !in BatchKeys(table, after, limit)
    ensures forall b :: b in BatchKeys(table, after, limit) ==> KeyLt(b, k)
  {
    var above := SortKeys(KeysAbove(table, after));
    var keys := BatchKeys(table, after, limit);
    assert k in above;
    var j :| 0 <= j < |above| && above[j] == k;
    assert j >= |keys| || k in keys;
  }

  /** Moving the cursor past a batch leaves exactly the rest of what was above it. */
  lemma CursorAfterBatch(table: Table, after: Key, limit: int)
    requires WellKeyed(table) && BatchKeys(table, after, limit) != []
    ensures var keys := BatchKeys(table, after, limit);
      && KeyLt(after, keys[|keys| - 1])
      && SortKeys(KeysAbove(table, keys[|keys| - 1])) == SortKeys(KeysAbove(table, after))[|keys|..]
  {
    var keys := BatchKeys(table, after, limit);
    var above := SortKeys(KeysAbove(table, after));
    var last := keys[|keys| - 1];
    var rest := above[|keys|..];
    assert above == keys + rest;
    AscendingSplit(keys, rest, last);
    forall k
      ensures k in rest <==> k in KeysAbove(table, last)
    {
      assert k in above <==> k in KeysAbove(table, after);
      if KeyLt(last, k) {
        KeyTransitive(after, last, k);
      }
    }
    AscendingIsUnique(rest, SortKeys(KeysAbove(table, last)));
  }

  /** In an ascending sequence cut after `last`, what is above `last` is the second piece. */
  lemma AscendingSplit(front: seq<Key>, back: seq<Key>, last: Key)
    requires Ascending(front + back) && front != [] && front[|front| - 1] == last
    ensures Ascending(back)
    ensures forall k :: k in front + back ==> (KeyLt(last, k) <==> k in back)
  {
    var s := front + back;
    forall i, j | 0 <= i < j < |back|
      ensures KeyLt(back[i], back[j])
    {
      assert KeyLt(s[|front| + i], s[|front| + j]);
    }
    forall k | k in s
      ensures KeyLt(last, k) <==> k in back
    {
      var i :| 0 <= i < |s| && s[i] == k;
      if i < |front| - 1 {
        KeyAsymmetric(s[i], s[|front| - 1]);
      }
      KeyIrreflexive(last);
      if k in back {
        var j :| 0 <= j < |back| && back[j] == k;
        assert KeyLt(s[|front| - 1], s[|front| + j]);
      }
    }
  }

  /** An unlimited, unfiltered `list_all` is the exact reverse of reading everything incrementally. */
  lemma ListingIsReverse(table: Table, bottom: Key, limit: int, batch: int)
    requires WellKeyed(table) && limit < 0 && batch < 0
    requires forall id :: id in table ==> KeyLt(bottom, KeyOf(table[id]))
    ensures Listed(table, None, limit) == Reversed(Incremental(table, bottom, batch))
  {
    assert KeysWith(table, None) == KeysAbove(table, bottom) == AllKeys(table);
  }

  lemma ListingIsFetched(table: Table, status: Option<Status>, limit: int)
    requires WellKeyed(table)
    ensures KeysOf(Listed(table, status, limit)) == ListedKeys(table, status, limit)
  {
    hide SortKeys, KeysWith, Limited, ListedKeys;
  }

  /** A listing shows the newest rows of the asked status, newest first, up to the limit. */
  lemma ListingShowsNewest(table: Table, status: Option<Status>, limit: int, hidden: Key)
    requires WellKeyed(table)
    ensures Ascending(Reversed(ListedKeys(table, status, limit)))
    ensures hidden in KeysWith(table, status) && hidden !in ListedKeys(table, status, limit)
      ==> (&& |ListedKeys(table, status, limit)| == limit
           && forall shown :: shown in ListedKeys(table, status, limit) ==> KeyLt(hidden, shown))
  {
    hide SortKeys, KeysWith, Reversed, KeyLt, InTable;
    var sorted := SortKeys(KeysWith(table, status));
    NewestOf(sorted, limit);
    if hidden in sorted && hidden !in Limited(Reversed(sorted), limit) {
      HiddenIsOlder(sorted, limit, hidden);
    }
  }

  lemma NewestOf(sorted: seq<Key>, limit: int)
    requires Ascending(sorted)
    ensures Ascending(Reversed(Limited(Reversed(sorted), limit)))
  {
    hide KeyLt;
    assert Limited(Reversed(sorted), limit) <= Reversed(sorted);
  }

  lemma HiddenIsOlder(sorted: seq<Key>, limit: int, hidden: Key)
    requires Ascending(sorted) && hidden in sorted && hidden !in Limited(Reversed(sorted), limit)
    ensures |Limited(Reversed(sorted), limit)| == limit
    ensures forall shown :: shown in Limited(Reversed(sorted), limit) ==> KeyLt(hidden, shown)
  {
    hide KeyLt;
    var j :| 0 <= j < |sorted| && sorted[j] == hidden;
    assert Reversed(sorted)[|sorted| - 1 - j] == hidden;
    var newest := Limited(Reversed(sorted), limit);
    assert forall i :: 0 <= i < |newest| ==> newest[i] == sorted[|sorted| - 1 - i];
  }

  /** Entries that are rows of the table as they read back. */
  ghost predicate AreRows(table: Table, entries: seq<LedgerEntry>) {
    forall i :: 0 <= i < |entries| ==> entries[i].id in table && entries[i] == Reloaded(table[entries[i].id])
  }

  /** The next rows above a cursor: in strict key order, no more than the limit, and none left out
      below one that is in. */
  ghost predicate IsBatch(table: Table, after: Key, limit: int, entries: seq<LedgerEntry>) {
    && AreRows(table, entries)
    && Ascending(KeysOf(entries))
    && (limit >= 0 ==> |entries| <= limit)
    && (forall k :: k in KeysOf(entries) ==> KeyLt(after, k))
    && (forall k ::
      InTable(table, k) && KeyLt(after, k) && k !in KeysOf(entries) ==> IsBehind(KeysOf(entries), limit, k))
  }

  /** The limit is used up by smaller keys. */
  predicate IsBehind(keys: seq<Key>, limit: int, k: Key) {
    |keys| == limit && forall b :: b in keys ==> KeyLt(b, k)
  }

  /** The newest rows of a status: strictly newest first, no more than the limit, and none hidden that
      is newer than one shown. */
  ghost predicate IsListing(table: Table, status: Option<Status>, limit: int, entries: seq<LedgerEntry>) {
    && AreRows(table, entries)
    && Ascending(Reversed(KeysOf(entries)))
    && (limit >= 0 ==> |entries| <= limit)
    && (forall i :: 0 <= i < |entries| ==> status.None? || entries[i].status == status.value)
    && (forall k :: InTable(table, k) && (status.None? || table[k.id].status == status.value) && k !in KeysOf(entries)
          ==> IsOlder(KeysOf(entries), limit, k))
  }

  /** The limit is used up by greater keys. */
  predicate IsOlder(keys: seq<Key>, limit: int, k: Key) {
    |keys| == limit && forall shown :: shown in keys ==> KeyLt(k, shown)
  }

  lemma IncrementalIsBatch(table: Table, after: Key, limit: int)
    requires WellKeyed(table)
    ensures IsBatch(table, after, limit, Incremental(table, after, limit))
  {
    hide KeyLt, Incremental, BatchKeys, Limited, SortKeys, InTable, Reloaded;
    BatchIsFetched(table, after, limit);
    var keys := BatchKeys(table, after, limit);
    BatchLength(table, after, limit);
    forall k | InTable(table, k) && KeyLt(after, k) && k !in keys
      ensures IsBehind(keys, limit, k)
    {
      BatchSkipsNothing(table, after, limit, k);
      BatchIsFull(table, after, limit, k);
    }
  }

  lemma BatchLength(table: Table, after: Key, limit: int)
    requires WellKeyed(table)
    ensures limit >= 0 ==> |BatchKeys(table, after, limit)| <= limit
  {
  }

  lemma BatchIsFull(table: Table, after: Key, limit: int, k: Key)
    requires WellKeyed(table)
    requires InTable(table, k) && KeyLt(after, k) && k !in BatchKeys(table, after, limit)
    ensures |BatchKeys(table, after, limit)| == limit
  {
    hide SortKeys, KeyLt, InTable;
    assert k in KeysAbove(table, after);
  }

  lemma ListedIsListing(table: Table, status: Option<Status>, limit: int)
    requires WellKeyed(table)
    ensures IsListing(table, status, limit, Listed(table, status, limit))
  {
    var keys, entries := ListedKeys(table, status, limit), Listed(table, status, limit);
    ListedRows(table, status, limit);
    ListingIsFetched(table, status, limit);
    hide KeyLt, Listed, ListedKeys, SortKeys, KeysWith, InTable, Reloaded, Reversed;
    forall k | InTable(table, k) && (status.None? || table[k.id].status == status.value) && k !in keys
      ensures IsOlder(keys, limit, k)
    {
      StatusKeys(table, status, k);
      ListingShowsNewest(table, status, limit, k);
    }
    ListingShowsNewest(table, status, limit, Key(0, ""));
  }

  lemma StatusKeys(table: Table, status: Option<Status>, k: Key)
    requires WellKeyed(table)
    ensures k in KeysWith(table, status) <==> InTable(table, k) && (status.None? || table[k.id].status == status.value)
  {
  }

  lemma ListedRows(table: Table, status: Option<Status>, limit: int)
    requires WellKeyed(table)
    ensures var entries := Listed(table, status, limit);
      && AreRows(table, entries)
      && (limit >= 0 ==> |entries| <= limit)
      && (forall i :: 0 <= i < |entries| ==> status.None? || entries[i].status == status.value)
  {
    hide KeyLt, ListedKeys, SortKeys, KeysWith;
    var keys, entries := ListedKeys(table, status, limit), Listed(table, status, limit);
    ListedAmong(table, status, limit);
    forall i | 0 <= i < |entries|
      ensures entries[i].id in table && entries[i] == Reloaded(table[entries[i].id])
      ensures status.None? || entries[i].status == status.value
    {
      StatusKeys(table, status, keys[i]);
    }
  }

  lemma ListedAmong(table: Table, status: Option<Status>, limit: int)
    requires WellKeyed(table)
    ensures var keys := ListedKeys(table, status, limit);
      (limit >= 0 ==> |keys| <= limit) && forall i :: 0 <= i < |keys| ==> keys[i] in KeysWith(table, status)
  {
    hide KeyLt, KeysWith, InTable;
    var sorted, keys := SortKeys(KeysWith(table, status)), ListedKeys(table, status, limit);
    assert forall i :: 0 <= i < |keys| ==> keys[i] == sorted[|sorted| - 1 - i];
  }

  /** The SQLite driver: one table, changed in place by the statements it issues. */
  class SQLiteLedgerStorage {
    var table: Table

    ghost predicate Valid()
      reads this
    {
      WellKeyed(table)
    }

    constructor ()
      ensures Valid() && table == map[]
    {
      table := map[];
    }

    /** INSERT; a primary key that exists makes the statement fail with no effect. */
    method Append(entry: LedgerEntry) returns (ok: bool)
      requires Valid()
      modifies this
      ensures Valid()
      ensures ok <==> entry.id !in old(table)
      ensures table == if ok then old(table)[entry.id := entry] else old(table)
    {
      ok := entry.id !in table;
      if ok {
        table := table[entry.id := entry];
      }
    }

    method Update(id: string, updates: seq<Assign>, expected: seq<Status>) returns (ok: bool)
      requires Valid()
      modifies this
      ensures Valid()
      ensures (table, ok) == Updated(old(table), id, updates, expected)
    {
      var fields: seq<Assign> := [];
      for i := 0 to |updates|
        invariant fields == Mutable(updates[..i])
        invariant table == old(table)
      {
        assert updates[..i + 1][..i] == updates[..i];
        if Immutable(updates[i]) {
          continue;
        }
        fields := fields + [updates[i]];
      }
      assert updates[..|updates|] == updates;
      if fields == [] {
        return true;
      }
      var (table', rows) := UpdateStatement(table, id, fields, expected);
      if id in table {
        UpdateKeepsKey(table[id], updates);
      }
      table := table';
      ok := rows > 0;
    }

    method Get(id: string) returns (entry: Option<LedgerEntry>)
      requires Valid()
      ensures entry == if id in table then Some(Reloaded(table[id])) else None
    {
      if id !in table {
        return None;
      }
      var loaded := FromRecord(ToRecord(table[id]), 0);
      RecordRoundTrip(table[id], 0);
      entry := Some(loaded.value);
    }

    method ListAll(status: Option<Status>, limit: int) returns (entries: seq<LedgerEntry>)
      requires Valid()
      ensures IsListing(table, status, limit, entries)
      ensures entries == Listed(table, status, limit)
    {
      entries := Listed(table, status, limit);
      ListedIsListing(table, status, limit);
    }

    method Delete(id: string)
      requires Valid()
      modifies this
      ensures Valid() && table == old(table) - {id}
    {
      table := table - {id};
    }

    method GetIncremental(after: Key, limit: int) returns (entries: seq<LedgerEntry>)
      requires Valid()
      ensures IsBatch(table, after, limit, entries)
      ensures entries == Incremental(table, after, limit)
    {
      entries := Incremental(table, after, limit);
      IncrementalIsBatch(table, after, limit);
    }
  }
}
