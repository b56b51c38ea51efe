/**
The Redis backend of the resource lock (src/config_shield.py): one key with a time to live,
acquired by SET NX PX, renewed by GET then SET XX PX, released by GET then DEL. Every command
is one atomic step; between the two commands of a renewal or release other nodes may act.
*/
module RedisLeases {
  import opened Collections
  import opened Wrappers
  import opened LockRecords

  /** The value of the key and the server time at which it expires. */
  datatype Stored = Stored(record: LockRecord, expiresAt: int)

  /** What a node is in the middle of: its state lock lets it have one unfinished call at a time. */
  datatype Pending = Idle | WillRefresh(seen: Stored, ttlMs: int) | WillDelete(seen: Stored)

  /**
   `held` is what the callers believe: a node whose acquire or heartbeat returned may act as the
   owner until the recorded server time, or until it asks for release.
   */
  datatype Cluster = Cluster(now: int, key: Option<Stored>, pending: map<Node, Pending>, held: map<Node, int>)

  function PendingOf(c: Cluster, n: Node): Pending {
    if n in c.pending then c.pending[n] else Idle
  }

  predicate Believes(c: Cluster, n: Node) {
    n in c.held && c.now < c.held[n]
  }

  /** What GET returns. */
  function Live(c: Cluster): Option<Stored> {
    if c.key.Some? && c.now < c.key.value.expiresAt then c.key else None
  }

  predicate OwnedBy(c: Cluster, n: Node) {
    Live(c).Some? && Live(c).value.record.nodeId == n
  }

  datatype Step =
    | Tick(ms: nat)
    | TrySet(node: Node, ttlMs: int, localNow: int)  // acquire: SET NX PX
    | ReadToRefresh(node: Node, ttlMs: int)          // heartbeat: GET
    | Refresh(node: Node, localNow: int)             // heartbeat: SET XX PX
    | ReadToDelete(node: Node)                       // release: GET
    | Delete(node: Node)                             // release: DEL
    | ForceDelete(node: Node)                        // release with force: DEL
    | Abandon(node: Node)                            // the second command never happens

  /** One step; a step that is not enabled changes nothing. */
  function Next(c: Cluster, step: Step): Cluster {
    match step
    case Tick(ms) => c.(now := c.now + ms)
    case TrySet(n, ttlMs, localNow) =>
      if PendingOf(c, n) != Idle || ttlMs <= 0 || Live(c).Some? then c
      else c.(key := Some(Stored(NewRecord(n, ttlMs, localNow), c.now + ttlMs)), held := c.held[n := c.now + ttlMs])
    case ReadToRefresh(n, ttlMs) =>
      if PendingOf(c, n) != Idle || !OwnedBy(c, n) then c
      else c.(pending := c.pending[n := WillRefresh(Live(c).value, ttlMs)])
    case Refresh(n, localNow) =>
      (match PendingOf(c, n)
       case WillRefresh(seen, ttlMs) =>
         var done := c.(pending := c.pending[n := Idle]);
         if ttlMs <= 0 then done
         else
           var believed := done.(held := c.held[n := c.now + ttlMs]);
           if Live(c).None? then believed
           else believed.(key := Some(Stored(Renewed(seen.record, n, ttlMs, localNow), c.now + ttlMs)))
       case _ => c)
    case ReadToDelete(n) =>
      if PendingOf(c, n) != Idle then c
      else
        var asked := c.(held := c.held - {n});
        if OwnedBy(c, n) then asked.(pending := c.pending[n := WillDelete(Live(c).value)]) else asked
    case Delete(n) =>
      if PendingOf(c, n).WillDelete? then c.(key := None, pending := c.pending[n := Idle]) else c
    case ForceDelete(n) =>
      if PendingOf(c, n) != Idle then c else c.(key := None, held := c.held - {n})
    case Abandon(n) => c.(pending := c.pending[n := Idle])
  }

  /** The timing hypothesis: the second command fires before the lease that its GET saw runs out; no forced release. */
  predicate Timely(c: Cluster, step: Step) {
    match step
    case Refresh(n, _) => PendingOf(c, n).WillRefresh? ==> c.now < PendingOf(c, n).seen.expiresAt
    case Delete(n) => PendingOf(c, n).WillDelete? ==> c.now < PendingOf(c, n).seen.expiresAt
    case ForceDelete(_) => false
    case _ => true
  }

  /** While the lease that was seen lasts, the key still holds it; and so it does if the key is the node's at all. */
  predicate StillSeen(c: Cluster, n: Node, seen: Stored) {
    && seen.record.nodeId == n
    && (c.now < seen.expiresAt ==> c.key == Some(seen))
    && (c.key.Some? && c.key.value.record.nodeId == n ==> c.key == Some(seen))
  }

  /** What a pending call of `n` knows. */
  predicate PendingIsCurrent(c: Cluster, n: Node) {
    match PendingOf(c, n)
    case Idle => true
    case WillRefresh(seen, _) => StillSeen(c, n, seen)
    case WillDelete(seen) => StillSeen(c, n, seen) && n !in c.held
  }

  predicate BeliefIsTrue(c: Cluster, n: Node) {
    Believes(c, n) ==> c.key.Some? && c.key.value.record.nodeId == n && c.key.value.expiresAt == c.held[n]
  }

  ghost predicate Inv(c: Cluster) {
    forall n: Node :: PendingIsCurrent(c, n) && BeliefIsTrue(c, n)
  }

  lemma NextKeepsInv(c: Cluster, step: Step)
    requires Inv(c) && Timely(c, step)
    ensures Inv(Next(c, step))
  {
    var c' := Next(c, step);
    forall n: Node
      ensures PendingIsCurrent(c', n) && BeliefIsTrue(c', n)
    {
      assert PendingIsCurrent(c, n) && BeliefIsTrue(c, n);
      if !step.Tick? {
        assert PendingIsCurrent(c, step.node) && BeliefIsTrue(c, step.node);
      }
    }
  }

  /** Under the hypothesis a step takes the key from its unexpired owner only by the owner's own release or by time. */
  lemma OwnerIsRespected(c: Cluster, step: Step, owner: Node)
    requires Inv(c) && Timely(c, step) && OwnedBy(c, owner)
    ensures OwnedBy(Next(c, step), owner) || step == Delete(owner)
      || (step.Tick? && c.key.value.expiresAt <= Next(c, step).now)
    ensures Next(c, step).key == c.key || (!step.Tick? && step.node == owner)
  {
    if !step.Tick? {
      assert PendingIsCurrent(c, step.node);
    }
  }

  /** A renewal that finds the key gone stores nothing, and still lets its caller believe. */
  lemma RefreshOfGoneKeyMisleads(c: Cluster, n: Node, localNow: int)
    requires PendingOf(c, n).WillRefresh? && PendingOf(c, n).ttlMs > 0 && Live(c).None?
    ensures var end := Next(c, Refresh(n, localNow));
      end.key == c.key && Believes(end, n) && !OwnedBy(end, n)
  {
  }

  /** A release that gets to its DEL leaves no key, whoever's it was. */
  lemma ReleaseFreesKey(c: Cluster, n: Node)
    ensures PendingOf(c, n).WillDelete? ==> Next(c, Delete(n)).key.None?
    ensures PendingOf(c, n).Idle? ==> Next(c, ForceDelete(n)).key.None?
    ensures OwnedBy(c, n) && PendingOf(c, n).Idle? ==> Next(Next(c, ReadToDelete(n)), Delete(n)).key.None?
  {
  }

  /** A timely renewal finds its own record, so SET XX takes effect and the returned record is the stored one. */
  lemma TimelyRefreshSucceeds(c: Cluster, n: Node, localNow: int)
    requires Inv(c) && PendingOf(c, n).WillRefresh? && PendingOf(c, n).ttlMs > 0
    requires Timely(c, Refresh(n, localNow))
    ensures var p := PendingOf(c, n);
      Next(c, Refresh(n, localNow)).key == Some(Stored(Renewed(p.seen.record, n, p.ttlMs, localNow), c.now + p.ttlMs))
    ensures OwnedBy(c, n)
  {
    assert PendingIsCurrent(c, n);
  }

  // Whole runs.

  function Run(c: Cluster, steps: seq<Step>): Cluster {
    if steps == [] then c else Next(Run(c, steps[..|steps| - 1]), steps[|steps| - 1])
  }

  ghost predicate AllTimely(c: Cluster, steps: seq<Step>) {
    steps == [] ||
    var n := |steps| - 1;
    AllTimely(c, steps[..n]) && Timely(Run(c, steps[..n]), steps[n])
  }

  predicate Quiet(c: Cluster) {
    c.key.None? && c.pending == map[] && c.held == map[]
  }

  /** Ownership changed hands at this step without release or expiry. */
  ghost predicate Theft(c: Cluster, step: Step) {
    exists owner: Node ::
      && OwnedBy(c, owner) && !OwnedBy(Next(c, step), owner)
      && step != Delete(owner) && !(step.Tick? && c.key.value.expiresAt <= c.now + step.ms)
  }

  /**
   Exclusion in every timely run of any number of nodes: at no time do two nodes both believe
   they hold the lock, a believer is the recorded owner, and no step is a theft.
   */
  lemma {:induction false} ExclusionInEveryRun(c: Cluster, steps: seq<Step>)
    requires Quiet(c) && AllTimely(c, steps)
    ensures Inv(Run(c, steps))
    ensures forall n, m :: Believes(Run(c, steps), n) && Believes(Run(c, steps), m) ==> n == m
    ensures forall n :: Believes(Run(c, steps), n) ==> OwnedBy(Run(c, steps), n)
    ensures forall i :: 0 <= i < |steps| ==> !Theft(Run(c, steps[..i]), steps[i])
  {
    var end := Run(c, steps);
    if steps != [] {
      var k := |steps| - 1;
      ExclusionInEveryRun(c, steps[..k]);
      var before := Run(c, steps[..k]);
      NextKeepsInv(before, steps[k]);
      forall owner: Node | OwnedBy(before, owner)
        ensures OwnedBy(end, owner) || steps[k] == Delete(owner)
          || (steps[k].Tick? && before.key.value.expiresAt <= before.now + steps[k].ms)
      {
        OwnerIsRespected(before, steps[k], owner);
      }
      assert !Theft(before, steps[k]);
      forall i | 0 <= i < |steps|
        ensures !Theft(Run(c, steps[..i]), steps[i])
      {
        if i < k {
          assert steps[..k][..i] == steps[..i];
        }
      }
    }
    forall n | Believes(end, n)
      ensures OwnedBy(end, n)
    {
      assert BeliefIsTrue(end, n);
    }
  }

  /** Steps of other nodes with no time passing and nothing forced. */
  predicate AtOnce(n: Node, steps: seq<Step>) {
    forall s :: s in steps ==> !s.Tick? && !s.ForceDelete? && s.node != n
  }

  /** The second command of a renewal or release is due. */
  predicate IsDue(c: Cluster, n: Node, step: Step) {
    match PendingOf(c, n)
    case WillRefresh(_, ttlMs) => step.Refresh? && step.node == n && ttlMs > 0
    case WillDelete(_) => step == Delete(n)
    case Idle => false
  }

  lemma {:induction false} AtOnceKeeps(c: Cluster, steps: seq<Step>, n: Node)
    requires Inv(c) && AtOnce(n, steps) && AllTimely(c, steps)
    ensures var end := Run(c, steps);
      Inv(end) && end.now == c.now && PendingOf(end, n) == PendingOf(c, n)
  {
    hide Inv, Timely;
    if steps != [] {
      var k := |steps| - 1;
      assert steps[k] in steps && forall s :: s in steps[..k] ==> s in steps;
      AtOnceKeeps(c, steps[..k], n);
      NextKeepsInv(Run(c, steps[..k]), steps[k]);
    }
  }

  /** A second command in time takes nothing from anybody, whatever the others do before it. */
  lemma InTimeIsSafe(c: Cluster, n: Node, step: Step, steps: seq<Step>)
    requires Inv(c) && IsDue(c, n, step) && c.now < PendingOf(c, n).seen.expiresAt
    requires AtOnce(n, steps) && AllTimely(c, steps)
    ensures !Theft(Run(c, steps), step)
  {
    AtOnceKeeps(c, steps, n);
    var end := Run(c, steps);
    forall owner: Node | OwnedBy(end, owner)
      ensures OwnedBy(Next(end, step), owner) || step == Delete(owner)
    {
      OwnerIsRespected(end, step, owner);
    }
  }

  /** A late second command hits the key of whoever has it now. */
  lemma LateHitsAnother(c: Cluster, n: Node, step: Step)
    requires IsDue(c, n, step) && Live(c).Some? && !OwnedBy(c, n)
    ensures Theft(c, step)
  {
    var owner := Live(c).value.record.nodeId;
    assert OwnedBy(c, owner) && !OwnedBy(Next(c, step), owner);
  }

  /** What another node can do at once if the lease that was seen has run out. */
  lemma LateIsUnsafe(c: Cluster, n: Node, step: Step) returns (steps: seq<Step>)
    requires Inv(c) && IsDue(c, n, step) && PendingOf(c, n).seen.expiresAt <= c.now
    ensures AtOnce(n, steps) && AllTimely(c, steps) && Theft(Run(c, steps), step)
  {
    assert PendingIsCurrent(c, n);
    if Live(c).Some? {
      steps := [];
      LateHitsAnother(c, n, step);
    } else {
      var other := AnotherText(c.pending.Keys + {n});
      steps := [TrySet(other, 1, 0)];
      assert steps[..0] == [];
      assert Run(c, steps) == Next(c, steps[0]);
      LateHitsAnother(Run(c, steps), n, step);
    }
  }

  /**
   The exact condition: at a given moment a pending renewal or release can hit another node's
   unexpired record, whatever the others do at once, if and only if the lease that its GET saw
   has run out by then.
   */
  lemma TheftExactly(c: Cluster, n: Node, step: Step)
    requires Inv(c) && IsDue(c, n, step)
    ensures (exists steps :: AtOnce(n, steps) && AllTimely(c, steps) && Theft(Run(c, steps), step))
      <==> PendingOf(c, n).seen.expiresAt <= c.now
  {
    hide Inv, Theft, Run, AtOnce, AllTimely;
    if PendingOf(c, n).seen.expiresAt <= c.now {
      var steps := LateIsUnsafe(c, n, step);
    } else {
      forall steps | AtOnce(n, steps) && AllTimely(c, steps)
        ensures !Theft(Run(c, steps), step)
      {
        InTimeIsSafe(c, n, step, steps);
      }
    }
  }

  /** From every state with a late renewal and a free key, two nodes come to believe. */
  lemma LateRefreshBreaksExclusion(c: Cluster, n: Node, other: Node, ttlMs: int, t1: int, t2: int)
    requires PendingOf(c, n).WillRefresh? && PendingOf(c, n).ttlMs > 0
    requires !Timely(c, Refresh(n, t2)) && Live(c).None?
    requires other != n && PendingOf(c, other).Idle? && ttlMs > 0
    ensures var mid := Next(c, TrySet(other, ttlMs, t1));
      var end := Next(mid, Refresh(n, t2));
      && Theft(mid, Refresh(n, t2))
      && Believes(end, n) && Believes(end, other)
  {
    var mid := Next(c, TrySet(other, ttlMs, t1));
    assert OwnedBy(mid, other);
  }

  /** From every state with a late release and a free key, its DEL frees the key of the next owner,
      and two others believe. */
  lemma LateDeleteBreaksExclusion(c: Cluster, n: Node, other: Node, third: Node, ttlMs: int, t1: int, t2: int)
    requires PendingOf(c, n).WillDelete? && !Timely(c, Delete(n)) && Live(c).None?
    requires other != n && third != n && third != other && ttlMs > 0
    requires PendingOf(c, other).Idle? && PendingOf(c, third).Idle?
    ensures var mid := Next(c, TrySet(other, ttlMs, t1));
      var end := Next(Next(mid, Delete(n)), TrySet(third, ttlMs, t2));
      && Theft(mid, Delete(n))
      && Believes(end, other) && Believes(end, third)
  {
    var mid := Next(c, TrySet(other, ttlMs, t1));
    assert OwnedBy(mid, other);
  }

  /** Such states are reached: a renewal that sleeps through its own lease is enough, from every quiet start. */
  lemma LateRefreshHappens(c: Cluster, n: Node, other: Node, ttlMs: int, t: int)
    requires Quiet(c) && other != n && ttlMs > 0
    ensures var steps := [TrySet(n, ttlMs, t), ReadToRefresh(n, ttlMs), Tick(ttlMs)];
      var late := Run(c, steps);
      && AllTimely(c, steps)
      && PendingOf(late, n).WillRefresh? && PendingOf(late, n).ttlMs > 0 && !Timely(late, Refresh(n, t))
      && Live(late).None? && PendingOf(late, other).Idle?
  {
    var steps := [TrySet(n, ttlMs, t), ReadToRefresh(n, ttlMs), Tick(ttlMs)];
    ThreeSteps(c, steps[0], steps[1], steps[2]);
  }

  /** The same for a release that sleeps between its GET and its DEL. */
  lemma LateDeleteHappens(c: Cluster, n: Node, other: Node, ttlMs: int, t: int)
    requires Quiet(c) && other != n && ttlMs > 0
    ensures var steps := [TrySet(n, ttlMs, t), ReadToDelete(n), Tick(ttlMs)];
      var late := Run(c, steps);
      && AllTimely(c, steps)
      && PendingOf(late, n).WillDelete? && !Timely(late, Delete(n))
      && Live(late).None? && PendingOf(late, other).Idle?
  {
    var steps := [TrySet(n, ttlMs, t), ReadToDelete(n), Tick(ttlMs)];
    ThreeSteps(c, steps[0], steps[1], steps[2]);
  }

  /** A Redis lock is never lost for good: whatever became of its owner, any node can come to hold it. */
  lemma KeyIsFreedByTime(c: Cluster, m: Node, t: int) returns (steps: seq<Step>)
    ensures AllTimely(c, steps) && Believes(Run(c, steps), m) && OwnedBy(Run(c, steps), m)
    ensures forall step :: step in steps ==> step.Tick? || step == Abandon(m) || step == TrySet(m, 1, t)
  {
    var left := if Live(c).Some? then c.key.value.expiresAt - c.now else 0;
    steps := [Abandon(m), Tick(left), TrySet(m, 1, t)];
    ThreeSteps(c, steps[0], steps[1], steps[2]);
  }

  lemma ThreeSteps(c: Cluster, first: Step, second: Step, third: Step)
    ensures var steps := [first, second, third];
      && Run(c, steps) == Next(Next(Next(c, first), second), third)
      && (Timely(c, first) && Timely(Next(c, first), second) && Timely(Next(Next(c, first), second), third)
        ==> AllTimely(c, steps))
  {
    hide Next, Timely;
    var steps := [first, second, third];
    assert steps[..2] == [first, second] && [first, second][..1] == [first] && [first][..0] == [];
    assert Run(c, [first]) == Next(Run(c, []), first);
    assert Run(c, [first, second]) == Next(Run(c, [first]), second);
    assert AllTimely(c, [first]) <==> Timely(c, first);
    assert AllTimely(c, [first, second]) <==> AllTimely(c, [first]) && Timely(Run(c, [first]), second);
  }

  // The objects: the server executes single commands; the shield strings them together.

  datatype Reply = Done | NotDone | ErrorReply

  datatype LockError = LockedBy(owner: Node) | LockNotFound | RedisFailure | TooManyRetries

  predicate NotBy(n: Node, steps: seq<Step>) {
    forall s :: s in steps ==> s.Tick? || s.node != n
  }

  lemma {:induction false} OthersLeavePending(c: Cluster, steps: seq<Step>, n: Node)
    requires NotBy(n, steps)
    ensures PendingOf(Run(c, steps), n) == PendingOf(c, n)
  {
    if steps != [] {
      var k := |steps| - 1;
      assert steps[k] in steps && forall s :: s in steps[..k] ==> s in steps;
      OthersLeavePending(c, steps[..k], n);
    }
  }

  lemma {:induction false} RunConcat(c: Cluster, a: seq<Step>, b: seq<Step>)
    ensures Run(c, a + b) == Run(Run(c, a), b)
  {
    if b == [] {
      assert a + b == a;
    } else {
      assert (a + b)[..|a + b| - 1] == a + b[..|b| - 1];
      RunConcat(c, a, b[..|b| - 1]);
    }
  }

  lemma RunOne(c: Cluster, step: Step)
    ensures Run(c, [step]) == Next(c, step)
  {
    assert [step][..0] == [];
  }

  lemma RunAround(c: Cluster, first: Step, others: seq<Step>, last: Step)
    ensures Run(c, [first] + others + [last]) == Next(Run(Next(c, first), others), last)
  {
    RunConcat(c, [first] + others, [last]);
    RunConcat(c, [first], others);
    RunOne(c, first);
    RunOne(Run(c, [first] + others), last);
  }

  lemma RunBehind(c: Cluster, first: Step, others: seq<Step>)
    ensures Run(c, [first] + others) == Run(Next(c, first), others)
  {
    RunConcat(c, [first], others);
    RunOne(c, first);
  }

  lemma RunNothing(c: Cluster)
    ensures Run(c, []) == c
  {
  }

  lemma FreeKeyIsSet(c: Cluster, n: Node, ttlMs: int, localNow: int)
    requires PendingOf(c, n) == Idle && ttlMs > 0
    ensures Next(c, TrySet(n, ttlMs, localNow)) ==
      if Live(c).Some? then c
      else c.(key := Some(Stored(NewRecord(n, ttlMs, localNow), c.now + ttlMs)), held := c.held[n := c.now + ttlMs])
  {
  }

  /** What others do in the first `k` waits of a call: after a SET, after a GET, and again for each further try. */
  function Waited(between: (nat, nat) -> seq<Step>, depth: nat, k: nat): seq<Step>
    requires k <= 2 * depth + 1
  {
    if k == 0 then []
    else if k == 1 then between(depth, 0)
    else between(depth, 0) + between(depth, 1) + Waited(between, depth - 1, k - 2)
  }

  lemma RunWaited(c: Cluster, between: (nat, nat) -> seq<Step>, depth: nat)
    ensures Run(c, Waited(between, depth, 0)) == c
    ensures Run(c, Waited(between, depth, 1)) == Run(c, between(depth, 0))
  {
  }

  lemma RunWaitedMore(c: Cluster, between: (nat, nat) -> seq<Step>, depth: nat, more: nat)
    requires depth > 0 && more <= 2 * (depth - 1) + 1
    ensures Run(c, Waited(between, depth, 2 + more))
      == Run(Run(Run(c, between(depth, 0)), between(depth, 1)), Waited(between, depth - 1, more))
  {
    RunConcat(c, between(depth, 0) + between(depth, 1), Waited(between, depth - 1, more));
    RunConcat(c, between(depth, 0), between(depth, 1));
  }

  class RedisServer {
    var now: int
    var key: Option<Stored>
    var pending: map<Node, Pending>
    var held: map<Node, int>

    function View(): Cluster
      reads this
    {
      Cluster(now, key, pending, held)
    }

    method Interleave(steps: seq<Step>)
      modifies this
      ensures View() == Run(old(View()), steps)
    {
      var end := Run(View(), steps);
      now, key, pending, held := end.now, end.key, end.pending, end.held;
    }

    method SetNx(record: LockRecord, px: int) returns (reply: Reply)
      modifies this`key
      ensures reply == if px <= 0 then ErrorReply else if Live(old(View())).Some? then NotDone else Done
      ensures key == if reply == Done then Some(Stored(record, now + px)) else old(key)
    {
      if px <= 0 {
        return ErrorReply;
      }
      if Live(View()).Some? {
        return NotDone;
      }
      key := Some(Stored(record, now + px));
      reply := Done;
    }

    method SetXx(record: LockRecord, px: int) returns (reply: Reply)
      modifies this`key
      ensures reply == if px <= 0 then ErrorReply else if Live(old(View())).None? then NotDone else Done
      ensures key == if reply == Done then Some(Stored(record, now + px)) else old(key)
    {
      if px <= 0 {
        return ErrorReply;
      }
      if Live(View()).None? {
        return NotDone;
      }
      key := Some(Stored(record, now + px));
      reply := Done;
    }

    method Get() returns (raw: Option<Stored>)
      ensures raw == Live(View())
    {
      raw := Live(View());
    }

    method Del()
      modifies this`key
      ensures key == None
    {
      key := None;
    }
  }

  class ConfigShield {
    const nodeId: Node
    const defaultTtlMs: int
    const redis: RedisServer

    constructor (nodeId: Node, defaultTtlMs: int, redis: RedisServer)
      ensures this.nodeId == nodeId && this.defaultTtlMs == defaultTtlMs && this.redis == redis
    {
      this.nodeId, this.defaultTtlMs, this.redis := nodeId, defaultTtlMs, redis;
    }

    /** Python's `ttl_ms or self.ttl_ms`. */
    function EffectiveTtl(ttlMs: Option<int>): int {
      if ttlMs.None? || ttlMs.value == 0 then defaultTtlMs else ttlMs.value
    }

    /**
     Tries until the key is set or seen held. A key that vanishes between SET and GET makes the
     method call itself again, at most `depth` deep. Others act after each SET and after each GET;
     `waits` counts how often they did. On success the SET came last and found the key free.
     */
    method AcquireOnce(ttlMs: int, clock: nat -> int, between: (nat, nat) -> seq<Step>, depth: nat)
      returns (r: Result<LockRecord, LockError>, ghost waits: nat, ghost localNow: int)
      requires PendingOf(redis.View(), nodeId) == Idle
      requires forall d, i :: NotBy(nodeId, between(d, i))
      modifies redis
      ensures waits <= 2 * depth + 1 && localNow == clock(depth - waits / 2)
      ensures ttlMs <= 0 <==> r == Err(RedisFailure)
      ensures ttlMs > 0 && Live(old(redis.View())).None? ==> r.Ok? && waits == 0
      ensures ttlMs > 0 && Live(old(redis.View())).Some? ==>
        var seen := Live(Run(old(redis.View()), between(depth, 0)));
        seen.Some? ==> waits == 1 && r == Err(LockedBy(seen.value.record.nodeId))
      ensures r == Err(TooManyRetries) ==> waits == 2 * depth + 1
      ensures var seen := Run(old(redis.View()), Waited(between, depth, waits));
        if r.Ok?
        then Live(seen).None? && redis.View() == Next(seen, TrySet(nodeId, ttlMs, localNow))
        else redis.View() == seen
      ensures r.Ok? ==> r.value == LockRecord(nodeId, localNow, ttlMs, localNow)
      ensures r.Ok? ==> redis.key == Some(Stored(r.value, redis.now + ttlMs)) && OwnedBy(redis.View(), nodeId)
      ensures r.Err? && r.error.LockedBy? ==> OwnedBy(redis.View(), r.error.owner)
      decreases depth
    {
      hide Run, Next, NotBy, Waited;
      ghost var start := redis.View();
      RunWaited(start, between, depth);
      localNow, waits := clock(depth), 0;
      RunNothing(start);
      var record := NewRecord(nodeId, ttlMs, clock(depth));
      var reply := redis.SetNx(record, ttlMs);
      if reply == ErrorReply {
        return Err(RedisFailure), waits, localNow;
      }
      FreeKeyIsSet(start, nodeId, ttlMs, localNow);
      if reply == Done {
        redis.held := redis.held[nodeId := redis.now + ttlMs];
        return Ok(record), waits, localNow;
      }
      OthersLeavePending(start, between(depth, 0), nodeId);
      redis.Interleave(between(depth, 0));
      waits := 1;
      var raw := redis.Get();
      if raw.Some? {
        return Err(LockedBy(raw.value.record.nodeId)), waits, localNow;
      }
      if depth == 0 {
        return Err(TooManyRetries), waits, localNow;
      }
      OthersLeavePending(redis.View(), between(depth, 1), nodeId);
      redis.Interleave(between(depth, 1));
      ghost var more: nat;
      ghost var rest := redis.View();
      r, more, localNow := AcquireOnce(ttlMs, clock, between, depth - 1);
      waits := 2 + more;
      RunWaitedMore(start, between, depth, more);
    }

    /** GET, then SET XX PX: the record returned is the one meant to be stored, whether or not the key
        was still there. */
    method Heartbeat(ttlMs: Option<int>, localNow: int, others: seq<Step>) returns (r: Result<LockRecord, LockError>)
      requires PendingOf(redis.View(), nodeId) == Idle
      requires NotBy(nodeId, others)
      modifies redis
      ensures var c := old(redis.View());
        if Live(c).None? then r == Err(LockNotFound) && redis.View() == c
        else if !OwnedBy(c, nodeId) then r == Err(LockedBy(Live(c).value.record.nodeId)) && redis.View() == c
        else
          var ttl := if ttlMs.None? || ttlMs.value == 0 then defaultTtlMs else ttlMs.value;
          && redis.View() == Run(c, [ReadToRefresh(nodeId, ttl)] + others + [Refresh(nodeId, localNow)])
          && r == (if ttl <= 0 then Err(RedisFailure)
                   else Ok(LockRecord(nodeId, Live(c).value.record.acquiredAt, ttl, localNow)))
          && var found := Run(c, [ReadToRefresh(nodeId, ttl)] + others);
             redis.key == if ttl <= 0 || Live(found).None? then found.key else Some(Stored(r.value, found.now + ttl))
    {
      var ttl := EffectiveTtl(ttlMs);
      ghost var c := redis.View();
      var raw := redis.Get();
      if raw.None? {
        return Err(LockNotFound);
      }
      if raw.value.record.nodeId != nodeId {
        return Err(LockedBy(raw.value.record.nodeId));
      }
      RunAround(c, ReadToRefresh(nodeId, ttl), others, Refresh(nodeId, localNow));
      RunBehind(c, ReadToRefresh(nodeId, ttl), others);
      redis.pending := redis.pending[nodeId := WillRefresh(raw.value, ttl)];
      OthersLeavePending(redis.View(), others, nodeId);
      redis.Interleave(others);
      var record := Renewed(raw.value.record, nodeId, ttl, localNow);
      var reply := redis.SetXx(record, ttl);
      redis.pending := redis.pending[nodeId := Idle];
      if reply == ErrorReply {
        return Err(RedisFailure);
      }
      redis.held := redis.held[nodeId := redis.now + ttl];
      r := Ok(record);
    }

    /** GET, then DEL if the record is this node's; with force, DEL at once. */
    method Release(force: bool, others: seq<Step>) returns (r: Result<(), LockError>)
      requires PendingOf(redis.View(), nodeId) == Idle
      requires NotBy(nodeId, others)
      modifies redis
      ensures var c := old(redis.View());
        if force then r.Ok? && redis.View() == Next(c, ForceDelete(nodeId))
        else if !OwnedBy(c, nodeId) then
          && redis.View() == Next(c, ReadToDelete(nodeId))
          && r == (if Live(c).None? then Ok(()) else Err(LockedBy(Live(c).value.record.nodeId)))
        else
          && r.Ok?
          && redis.View() == Run(c, [ReadToDelete(nodeId)] + others + [Delete(nodeId)])
      ensures force || OwnedBy(old(redis.View()), nodeId) ==> redis.key.None?
      ensures !force && !OwnedBy(old(redis.View()), nodeId) ==> redis.key == old(redis.key)
      ensures others == [] || !OwnedBy(old(redis.View()), nodeId) ==> redis.held == old(redis.held) - {nodeId}
    {
      ghost var c := redis.View();
      redis.held := redis.held - {nodeId};
      if force {
        redis.Del();
        return Ok(());
      }
      var raw := redis.Get();
      if raw.None? {
        return Ok(());
      }
      if raw.value.record.nodeId != nodeId {
        return Err(LockedBy(raw.value.record.nodeId));
      }
      RunAround(c, ReadToDelete(nodeId), others, Delete(nodeId));
      redis.pending := redis.pending[nodeId := WillDelete(raw.value)];
      OthersLeavePending(redis.View(), others, nodeId);
      redis.Interleave(others);
      redis.Del();
      redis.pending := redis.pending[nodeId := Idle];
      r := Ok(());
    }
  }
}
