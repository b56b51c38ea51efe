/**
The file backend of the resource lock (src/config_shield.py): a lock file made with O_EXCL,
renewed by replacing it, reclaimed when stale by renaming it away, released by unlinking it.
Every create, read, rename, replace and unlink is one atomic step of a system of any number of
nodes under a common clock.
*/
module FileLeases {
  import opened Collections
  import opened Wrappers
  import opened LockRecords

  /** A file as the directory entry points to it; a replaced file is a new one. */
  type FileId = nat

  /** A file that was created but not yet (or never) written holds no readable record. */
  datatype Content = Unwritten(creator: Node) | Written(record: LockRecord)

  /** Where a node is inside acquire, heartbeat or release. `at` is the clock it read when it began. */
  datatype Phase =
    | Ready
    | Writing(id: FileId, record: LockRecord)             // created the lock file
    | Contending(at: int, ttlMs: int)                     // found a lock file
    | Judged(at: int, ttlMs: int, seen: FileId)           // read a stale record: will rename
    | Moved(at: int, ttlMs: int)                          // renamed it: will create again
    | Rewriting(at: int, id: FileId, record: LockRecord)  // created again
    | WriteBroke(at: int, id: FileId)                     // the write raised: will unlink
    | Clearing(at: int, won: bool)                        // will unlink the .stale file
    | Verifying                                           // will read the lock file back
    | WillReplace(seen: FileId, record: LockRecord, ttlMs: int)
    | WillUnlink(seen: FileId, record: LockRecord)

  /** `.stale` files are named by the reclaiming node and the clock it read. */
  type StaleName = (Node, int)

  datatype State = State(
    now: int,
    path: Option<FileId>,
    files: seq<Content>,
    stale: map<StaleName, FileId>,
    phase: map<Node, Phase>,
    held: map<Node, int>)  // until when a caller whose acquire or heartbeat returned may act as owner

  function PhaseOf(s: State, n: Node): Phase {
    if n in s.phase then s.phase[n] else Ready
  }

  predicate Believes(s: State, n: Node) {
    n in s.held && s.now <= s.held[n]
  }

  predicate ValidFile(s: State, id: FileId) {
    id < |s.files|
  }

  function Current(s: State): Option<Content> {
    if s.path.Some? && ValidFile(s, s.path.value) then Some(s.files[s.path.value]) else None
  }

  /** Who the lock file belongs to: its creator until it is written, its owner while the record is fresh. */
  function Holder(s: State): Option<Node> {
    match Current(s)
    case None => None
    case Some(Unwritten(creator)) => Some(creator)
    case Some(Written(record)) => if IsStale(record, s.now) then None else Some(record.nodeId)
  }

  datatype Step =
    | Tick(ms: nat)
    | TryCreate(node: Node, ttlMs: int, at: int)
    | FinishWrite(node: Node)
    | Look(node: Node)
    | Rename(node: Node)
    | CreateAgain(node: Node)
    | FinishRewrite(node: Node, ok: bool)
    | UnlinkBroken(node: Node)
    | ClearStale(node: Node)
    | Verify(node: Node)
    | ReadToReplace(node: Node, ttlMs: int)
    | Replace(node: Node, at: int)
    | ReadToUnlink(node: Node, force: bool)
    | Unlink(node: Node)
    | BreakOff(node: Node)  // an unexpected error or a crash ends the call

  function At(s: State, n: Node, phase: Phase): State {
    s.(phase := s.phase[n := phase])
  }

  /** One step; a step that does not fit the node's phase changes nothing. */
  function Next(s: State, step: Step): State {
    if step.Tick? then s.(now := s.now + step.ms)
    else
      var n := step.node;
      match (PhaseOf(s, n), step)
      case (Ready, TryCreate(_, ttlMs, at)) =>
        if at > s.now then s
        else if s.path.Some? then At(s, n, Contending(at, ttlMs))
        else
          At(s, n, Writing(|s.files|, NewRecord(n, ttlMs, at)))
            .(path := Some(|s.files|), files := s.files + [Unwritten(n)])
      case (Writing(id, record), FinishWrite(_)) =>
        if !ValidFile(s, id) then s
        else At(s, n, Ready).(files := s.files[id := Written(record)], held := s.held[n := Deadline(record)])
      case (Contending(at, ttlMs), Look(_)) =>
        (match Current(s)
         case Some(Written(record)) =>
           if IsStale(record, at) then At(s, n, Judged(at, ttlMs, s.path.value)) else At(s, n, Ready)
         case _ => At(s, n, Ready))
      case (Judged(at, ttlMs, _), Rename(_)) =>
        if s.path.None? then At(s, n, Ready)
        else At(s, n, Moved(at, ttlMs)).(path := None, stale := s.stale[(n, at) := s.path.value])
      case (Moved(at, ttlMs), CreateAgain(_)) =>
        if s.path.Some? then At(s, n, Clearing(at, false))
        else
          At(s, n, Rewriting(at, |s.files|, NewRecord(n, ttlMs, at)))
            .(path := Some(|s.files|), files := s.files + [Unwritten(n)])
      case (Rewriting(at, id, record), FinishRewrite(_, ok)) =>
        if !ValidFile(s, id) then s
        else if ok then At(s, n, Clearing(at, true)).(files := s.files[id := Written(record)])
        else At(s, n, WriteBroke(at, id))
      case (WriteBroke(at, _), UnlinkBroken(_)) => At(s, n, Clearing(at, false)).(path := None)
      case (Clearing(at, won), ClearStale(_)) =>
        At(s, n, if won then Verifying else Ready).(stale := s.stale - {(n, at)})
      case (Verifying, Verify(_)) =>
        (match Current(s)
         case Some(Written(record)) =>
           if record.nodeId == n then At(s, n, Ready).(held := s.held[n := Deadline(record)]) else At(s, n, Ready)
         case _ => At(s, n, Ready))
      case (Ready, ReadToReplace(_, ttlMs)) =>
        (match Current(s)
         case Some(Written(record)) =>
           if record.nodeId == n || IsStale(record, s.now)
           then At(s, n, WillReplace(s.path.value, record, ttlMs)) else s
         case _ => s)
      case (WillReplace(_, record, ttlMs), Replace(_, at)) =>
        if at > s.now then s
        else
          var renewed := Renewed(record, n, ttlMs, at);
          At(s, n, Ready).(path := Some(|s.files|), files := s.files + [Written(renewed)],
                           held := s.held[n := Deadline(renewed)])
      case (Ready, ReadToUnlink(_, force)) =>
        var asked := s.(held := s.held - {n});
        (match Current(s)
         case Some(Written(record)) =>
           if force || record.nodeId == n || IsStale(record, s.now)
           then At(asked, n, WillUnlink(s.path.value, record)) else asked
         case _ => asked)
      case (WillUnlink(_, _), Unlink(_)) => At(s, n, Ready).(path := None)
      case (_, BreakOff(_)) => At(s, n, Ready)
      case _ => s
  }

  /** Nobody has put another file where this one was seen. */
  predicate Undisturbed(s: State, seen: FileId) {
    s.path in {None, Some(seen)}
  }

  /**
   The hypothesis: a renewal or release acts before the record it read is stale, or else before
   anybody puts another file in place; a reclaim renames the file it judged, or finds none; and no
   release is forced.
   */
  predicate Exact(s: State, step: Step) {
    match step
    case Rename(n) => PhaseOf(s, n).Judged? ==> Undisturbed(s, PhaseOf(s, n).seen)
    case Replace(n, _) =>
      PhaseOf(s, n).WillReplace? ==> !IsStale(PhaseOf(s, n).record, s.now) || Undisturbed(s, PhaseOf(s, n).seen)
    case Unlink(n) =>
      PhaseOf(s, n).WillUnlink? ==> !IsStale(PhaseOf(s, n).record, s.now) || Undisturbed(s, PhaseOf(s, n).seen)
    case ReadToUnlink(_, force) => !force
    case _ => true
  }

  predicate HasRecord(s: State, id: FileId, record: LockRecord) {
    ValidFile(s, id) && s.files[id] == Written(record)
  }

  predicate HasStaleRecord(s: State, id: FileId) {
    ValidFile(s, id) && s.files[id].Written? && IsStale(s.files[id].record, s.now)
  }

  predicate IsUnwrittenLock(s: State, id: FileId, n: Node) {
    s.path == Some(id) && ValidFile(s, id) && s.files[id] == Unwritten(n)
  }

  function Author(content: Content): Node {
    match content
    case Unwritten(creator) => creator
    case Written(record) => record.nodeId
  }

  /** If the file in place is the node's own, it is the one it saw. */
  predicate OwnFileIsSeen(s: State, n: Node, seen: FileId) {
    Current(s).Some? && Author(Current(s).value) == n ==> s.path == Some(seen)
  }

  /** The record that was read is still in its file; while it is fresh, it is the node's own and in place. */
  predicate StillRead(s: State, n: Node, seen: FileId, record: LockRecord) {
    && HasRecord(s, seen, record)
    && (!IsStale(record, s.now) ==> record.nodeId == n && s.path == Some(seen))
    && OwnFileIsSeen(s, n, seen)
  }

  /** What a node in mid-call can rely on. */
  predicate PhaseIsCurrent(s: State, n: Node) {
    match PhaseOf(s, n)
    case Writing(id, record) => IsUnwrittenLock(s, id, n) && record.nodeId == n
    case Rewriting(_, id, record) => IsUnwrittenLock(s, id, n) && record.nodeId == n
    case WriteBroke(_, id) => IsUnwrittenLock(s, id, n)
    case Contending(at, _) => at <= s.now
    case Judged(_, _, seen) => HasStaleRecord(s, seen) && OwnFileIsSeen(s, n, seen)
    case WillReplace(seen, record, _) => StillRead(s, n, seen, record)
    case WillUnlink(seen, record) => StillRead(s, n, seen, record) && n !in s.held
    case _ => true
  }

  /** A believer's own fresh record is in the lock file. */
  predicate BeliefIsTrue(s: State, n: Node) {
    Believes(s, n) ==>
      match Current(s)
      case Some(Written(record)) => record.nodeId == n && Deadline(record) == s.held[n]
      case _ => false
  }

  ghost predicate Inv(s: State) {
    && (s.path.Some? ==> ValidFile(s, s.path.value))
    && forall n: Node :: PhaseIsCurrent(s, n) && BeliefIsTrue(s, n)
  }

  lemma OwnPhase(s: State, step: Step)
    requires !step.Tick? && Inv(s) && Exact(s, step)
    ensures PhaseIsCurrent(Next(s, step), step.node)
  {
    assert PhaseIsCurrent(s, step.node);
  }

  lemma OwnBelief(s: State, step: Step)
    requires !step.Tick? && Inv(s) && Exact(s, step)
    ensures BeliefIsTrue(Next(s, step), step.node)
  {
    assert PhaseIsCurrent(s, step.node) && BeliefIsTrue(s, step.node);
  }

  /** A step leaves the content of every file alone but the one its own node is writing. */
  lemma FilesAreKept(s: State, step: Step, id: FileId)
    requires !step.Tick? && Inv(s) && ValidFile(s, id) && s.files[id] != Unwritten(step.node)
    ensures ValidFile(Next(s, step), id) && Next(s, step).files[id] == s.files[id]
  {
    assert PhaseIsCurrent(s, step.node);
  }

  /** Under the hypothesis nobody else takes an unwritten lock file away. */
  lemma UnwrittenStays(s: State, step: Step, id: FileId, n: Node)
    requires !step.Tick? && Inv(s) && Exact(s, step) && n != step.node
    requires IsUnwrittenLock(s, id, n)
    ensures Next(s, step).path == Some(id)
  {
    assert PhaseIsCurrent(s, step.node);
  }

  lemma NodeStateKept(s: State, step: Step, n: Node)
    requires !step.Tick? && n != step.node
    ensures PhaseOf(Next(s, step), n) == PhaseOf(s, n) && Next(s, step).now == s.now
    ensures n in Next(s, step).held <==> n in s.held
    ensures n in s.held ==> Next(s, step).held[n] == s.held[n]
  {
  }

  /** Only a node itself puts files of its own in place. */
  lemma AuthorActs(s: State, step: Step, n: Node)
    requires !step.Tick? && Inv(s) && n != step.node
    requires Current(Next(s, step)).Some? && Author(Current(Next(s, step)).value) == n
    ensures Next(s, step).path == s.path && Current(s).Some? && Author(Current(s).value) == n
  {
    assert PhaseIsCurrent(s, step.node);
  }

  /** Under the hypothesis a fresh record stays in place until its owner acts. */
  lemma FreshStays(s: State, step: Step, n: Node, seen: FileId, record: LockRecord)
    requires !step.Tick? && Inv(s) && Exact(s, step) && n != step.node
    requires HasRecord(s, seen, record) && record.nodeId == n && !IsStale(record, s.now) && s.path == Some(seen)
    ensures Next(s, step).path == Some(seen)
  {
    assert PhaseIsCurrent(s, step.node);
  }

  lemma OthersStillSeen(s: State, step: Step, n: Node, seen: FileId)
    requires !step.Tick? && Inv(s) && n != step.node && OwnFileIsSeen(s, n, seen)
    ensures OwnFileIsSeen(Next(s, step), n, seen)
  {
    hide Next, Inv;
    if Current(Next(s, step)).Some? && Author(Current(Next(s, step)).value) == n {
      AuthorActs(s, step, n);
    }
  }

  lemma OthersStillRead(s: State, step: Step, n: Node, seen: FileId, record: LockRecord)
    requires !step.Tick? && Inv(s) && Exact(s, step) && n != step.node && StillRead(s, n, seen, record)
    ensures StillRead(Next(s, step), n, seen, record)
  {
    hide Next, Inv, Exact, OwnFileIsSeen;
    NodeStateKept(s, step, n);
    FilesAreKept(s, step, seen);
    OthersStillSeen(s, step, n, seen);
    if !IsStale(record, s.now) {
      FreshStays(s, step, n, seen, record);
    }
  }

  lemma OthersPhase(s: State, step: Step, n: Node)
    requires !step.Tick? && Inv(s) && Exact(s, step) && n != step.node
    ensures PhaseIsCurrent(Next(s, step), n)
  {
    hide Next, Exact, OwnFileIsSeen, StillRead;
    NodeStateKept(s, step, n);
    assert PhaseIsCurrent(s, n);
    match PhaseOf(s, n)
    case Writing(id, _) => FilesAreKept(s, step, id); UnwrittenStays(s, step, id, n);
    case Rewriting(_, id, _) => FilesAreKept(s, step, id); UnwrittenStays(s, step, id, n);
    case WriteBroke(_, id) => FilesAreKept(s, step, id); UnwrittenStays(s, step, id, n);
    case Judged(_, _, seen) => FilesAreKept(s, step, seen); OthersStillSeen(s, step, n, seen);
    case WillReplace(seen, record, _) => OthersStillRead(s, step, n, seen, record);
    case WillUnlink(seen, record) => OthersStillRead(s, step, n, seen, record);
    case _ =>
  }

  lemma OthersBelief(s: State, step: Step, n: Node)
    requires !step.Tick? && Inv(s) && Exact(s, step) && n != step.node
    ensures BeliefIsTrue(Next(s, step), n)
  {
    assert PhaseIsCurrent(s, step.node) && BeliefIsTrue(s, n);
  }

  lemma NextKeepsInv(s: State, step: Step)
    requires Inv(s) && Exact(s, step)
    ensures Inv(Next(s, step))
  {
    var s' := Next(s, step);
    forall n: Node
      ensures PhaseIsCurrent(s', n) && BeliefIsTrue(s', n)
    {
      if step.Tick? {
        assert PhaseIsCurrent(s, n) && BeliefIsTrue(s, n);
      } else if n == step.node {
        OwnPhase(s, step);
        OwnBelief(s, step);
      } else {
        OthersPhase(s, step, n);
        OthersBelief(s, step, n);
      }
    }
  }

  /** The lock file of a holder was removed, replaced or rewritten by somebody else. */
  predicate Theft(s: State, step: Step) {
    && Holder(s).Some? && !step.Tick? && Holder(s) != Some(step.node)
    && (Next(s, step).path != s.path || Current(Next(s, step)) != Current(s))
  }

  /** Under the hypothesis a held lock file changes only by its holder's hand, and is lost otherwise
      only by growing stale. */
  lemma HolderIsRespected(s: State, step: Step)
    requires Inv(s) && Exact(s, step)
    ensures !Theft(s, step)
    ensures Holder(s).Some? && !step.Tick? && Holder(s) != Some(step.node) ==> Holder(Next(s, step)) == Holder(s)
    ensures Holder(s).Some? && step.Tick? && Holder(Next(s, step)) != Holder(s) ==>
      (Current(s).value.Written? && IsStale(Current(s).value.record, Next(s, step).now))
  {
    if Holder(s).Some? && !step.Tick? && Holder(s) != Some(step.node) {
      assert PhaseIsCurrent(s, step.node);
      FilesAreKept(s, step, s.path.value);
    }
  }

  // Whole runs.

  function Run(s: State, steps: seq<Step>): State {
    if steps == [] then s else Next(Run(s, steps[..|steps| - 1]), steps[|steps| - 1])
  }

  ghost predicate AllExact(s: State, steps: seq<Step>) {
    steps == [] ||
    var n := |steps| - 1;
    AllExact(s, steps[..n]) && Exact(Run(s, steps[..n]), steps[n])
  }

  predicate Quiet(s: State) {
    s.path.None? && s.phase == map[] && s.held == map[] && s.stale == map[]
  }

  lemma {:induction false} InvInEveryRun(s: State, steps: seq<Step>)
    requires Inv(s) && AllExact(s, steps)
    ensures Inv(Run(s, steps))
  {
    if steps != [] {
      var k := |steps| - 1;
      InvInEveryRun(s, steps[..k]);
      NextKeepsInv(Run(s, steps[..k]), steps[k]);
    }
  }

  lemma {:induction false} PrefixIsExact(s: State, steps: seq<Step>, i: nat)
    requires AllExact(s, steps) && i < |steps|
    ensures AllExact(s, steps[..i]) && Exact(Run(s, steps[..i]), steps[i])
  {
    var k := |steps| - 1;
    if i < k {
      PrefixIsExact(s, steps[..k], i);
      assert steps[..k][..i] == steps[..i];
    }
  }

  /**
   Exclusion in every exact run of any number of nodes: at no time do two nodes both believe
   they hold the lock, a believer's own fresh record is in the lock file, and nobody's held
   lock file is ever taken.
   */
  lemma ExclusionInEveryRun(s: State, steps: seq<Step>)
    requires Quiet(s) && AllExact(s, steps)
    ensures forall n, m :: Believes(Run(s, steps), n) && Believes(Run(s, steps), m) ==> n == m
    ensures forall n :: Believes(Run(s, steps), n) ==> Holder(Run(s, steps)) == Some(n)
    ensures forall i :: 0 <= i < |steps| ==> !Theft(Run(s, steps[..i]), steps[i])
  {
    QuietIsInv(s);
    InvInEveryRun(s, steps);
    var end := Run(s, steps);
    forall n | Believes(end, n)
      ensures Holder(end) == Some(n)
    {
      assert BeliefIsTrue(end, n);
    }
    forall i | 0 <= i < |steps|
      ensures !Theft(Run(s, steps[..i]), steps[i])
    {
      PrefixIsExact(s, steps, i);
      InvInEveryRun(s, steps[..i]);
      HolderIsRespected(Run(s, steps[..i]), steps[i]);
    }
  }

  // When exactly a step can hit another's lock file.

  /** Steps of other nodes with no time passing. */
  predicate AtOnce(n: Node, steps: seq<Step>) {
    forall step :: step in steps ==> !step.Tick? && step.node != n
  }

  /** The node is about to rename, replace or unlink. */
  predicate IsDue(s: State, n: Node, step: Step) {
    match PhaseOf(s, n)
    case Judged(_, _, _) => step == Rename(n)
    case WillReplace(_, _, _) => step.Replace? && step.node == n && step.at <= s.now
    case WillUnlink(_, _) => step == Unlink(n)
    case _ => false
  }

  /** The record that the node has read is stale by now; what a reclaim has judged always is. */
  predicate LeaseIsOver(s: State, n: Node) {
    match PhaseOf(s, n)
    case WillReplace(_, record, _) => IsStale(record, s.now)
    case WillUnlink(_, record) => IsStale(record, s.now)
    case _ => true
  }

  lemma {:induction false} AtOnceKeeps(s: State, steps: seq<Step>, n: Node)
    requires Inv(s) && AtOnce(n, steps) && AllExact(s, steps)
    ensures var end := Run(s, steps);
      Inv(end) && end.now == s.now && PhaseOf(end, n) == PhaseOf(s, n)
  {
    hide Inv, Exact, Next;
    if steps != [] {
      var k := |steps| - 1;
      assert steps[k] in steps && forall step :: step in steps[..k] ==> step in steps;
      AtOnceKeeps(s, steps[..k], n);
      NextKeepsInv(Run(s, steps[..k]), steps[k]);
      NodeStateKept(Run(s, steps[..k]), steps[k], n);
    }
  }

  /** A renewal or release before its record is stale takes nothing from anybody, whatever the others do before it. */
  lemma InTimeIsSafe(s: State, n: Node, step: Step, steps: seq<Step>)
    requires Inv(s) && IsDue(s, n, step) && !LeaseIsOver(s, n)
    requires AtOnce(n, steps) && AllExact(s, steps)
    ensures !Theft(Run(s, steps), step)
  {
    hide Inv, Next, Theft, Run, AtOnce, AllExact;
    AtOnceKeeps(s, steps, n);
    HolderIsRespected(Run(s, steps), step);
  }

  lemma DueHitsAnother(s: State, n: Node, step: Step)
    requires IsDue(s, n, step) && Holder(s).Some? && Holder(s) != Some(n)
    ensures Theft(s, step)
  {
  }

  /** Somebody creates a lock file where there is none, or reclaims a stale one and creates it again. */
  lemma Intrude(s: State, m: Node) returns (steps: seq<Step>)
    requires PhaseOf(s, m).Ready? && (s.path.Some? ==> ValidFile(s, s.path.value)) && Holder(s).None?
    ensures AllExact(s, steps) && Holder(Run(s, steps)) == Some(m)
    ensures forall step :: step in steps ==> !step.Tick? && step.node == m
  {
    hide Run, AllExact, Next, Exact;
    RunNothing(s);
    AllExactSnoc(s, [], TryCreate(m, 0, s.now));
    assert [] + [TryCreate(m, 0, s.now)] == [TryCreate(m, 0, s.now)];
    steps := [TryCreate(m, 0, s.now)];
    IntruderMoves(s, m);
    if s.path.Some? {
      AllExactSnoc(s, steps, Look(m));
      steps := steps + [Look(m)];
      AllExactSnoc(s, steps, Rename(m));
      steps := steps + [Rename(m)];
      AllExactSnoc(s, steps, CreateAgain(m));
      steps := steps + [CreateAgain(m)];
    }
  }

  lemma IntruderMoves(s: State, m: Node)
    requires PhaseOf(s, m).Ready? && (s.path.Some? ==> ValidFile(s, s.path.value)) && Holder(s).None?
    ensures var s1 := Next(s, TryCreate(m, 0, s.now));
      var s2 := Next(s1, Look(m));
      var s3 := Next(s2, Rename(m));
      && Exact(s, TryCreate(m, 0, s.now)) && Exact(s1, Look(m))
      && (s.path.None? ==> Holder(s1) == Some(m))
      && (s.path.Some?
        ==> Exact(s2, Rename(m)) && Exact(s3, CreateAgain(m)) && Holder(Next(s3, CreateAgain(m))) == Some(m))
  {
    if s.path.Some? {
      IntruderJudges(s, m);
      hide Next;
      IntruderReclaims(Next(Next(s, TryCreate(m, 0, s.now)), Look(m)), m);
    }
  }

  lemma IntruderJudges(s: State, m: Node)
    requires PhaseOf(s, m).Ready? && s.path.Some? && ValidFile(s, s.path.value) && Holder(s).None?
    ensures var s2 := Next(Next(s, TryCreate(m, 0, s.now)), Look(m));
      PhaseOf(s2, m) == Judged(s.now, 0, s.path.value) && s2.path == s.path && s2.now == s.now
  {
  }

  lemma IntruderReclaims(s: State, m: Node)
    requires PhaseOf(s, m).Judged? && s.path == Some(PhaseOf(s, m).seen)
    ensures Exact(s, Rename(m)) && Exact(Next(s, Rename(m)), CreateAgain(m))
    ensures Holder(Next(Next(s, Rename(m)), CreateAgain(m))) == Some(m)
  {
  }

  lemma AllExactSnoc(s: State, steps: seq<Step>, step: Step)
    ensures Run(s, steps + [step]) == Next(Run(s, steps), step)
    ensures AllExact(s, steps + [step]) <==> AllExact(s, steps) && Exact(Run(s, steps), step)
  {
    hide Next, Exact;
    assert (steps + [step])[..|steps|] == steps;
  }

  lemma LateIsUnsafe(s: State, n: Node, step: Step) returns (steps: seq<Step>)
    requires Inv(s) && IsDue(s, n, step) && LeaseIsOver(s, n)
    ensures AtOnce(n, steps) && AllExact(s, steps) && Theft(Run(s, steps), step)
  {
    hide Next, Theft, Run, AllExact;
    OwnFileIsOver(s, n);
    if Holder(s).Some? {
      steps := [];
      RunNothing(s);
    } else {
      var m := AnotherText(s.phase.Keys + {n});
      steps := Intrude(s, m);
    }
    AtOnceKeeps(s, steps, n);
    DueHitsAnother(Run(s, steps), n, step);
  }

  lemma RunNothing(s: State)
    ensures Run(s, []) == s && AllExact(s, [])
  {
  }

  lemma OwnFileIsOver(s: State, n: Node)
    requires Inv(s) && LeaseIsOver(s, n)
    requires PhaseOf(s, n).Judged? || PhaseOf(s, n).WillReplace? || PhaseOf(s, n).WillUnlink?
    ensures Holder(s) != Some(n)
  {
    assert PhaseIsCurrent(s, n);
  }

  /**
   The exact condition: at a given moment a pending renewal or release can take away another
   node's lock file, whatever the others do at once, if and only if the record it read is stale by
   then; a pending reclaim always can.
   */
  lemma TheftExactly(s: State, n: Node, step: Step)
    requires Inv(s) && IsDue(s, n, step)
    ensures (exists steps :: AtOnce(n, steps) && AllExact(s, steps) && Theft(Run(s, steps), step))
      <==> LeaseIsOver(s, n)
  {
    hide Inv, Theft, Run, AtOnce, AllExact;
    if LeaseIsOver(s, n) {
      var steps := LateIsUnsafe(s, n, step);
    } else {
      forall steps | AtOnce(n, steps) && AllExact(s, steps)
        ensures !Theft(Run(s, steps), step)
      {
        InTimeIsSafe(s, n, step, steps);
      }
    }
  }

  lemma QuietIsInv(s: State)
    requires Quiet(s)
    ensures Inv(s)
  {
  }

  predicate IsReclaiming(s: State, name: StaleName) {
    match PhaseOf(s, name.0)
    case Moved(at, _) => at == name.1
    case Rewriting(at, _, _) => at == name.1
    case WriteBroke(at, _) => at == name.1
    case Clearing(at, _) => at == name.1
    case _ => false
  }

  /** Every `.stale` file belongs to a reclaim that is still going on. */
  ghost predicate StaleIsPending(s: State) {
    forall name :: name in s.stale ==> IsReclaiming(s, name)
  }

  lemma NextKeepsStalePending(s: State, step: Step)
    requires StaleIsPending(s) && !step.BreakOff?
    ensures StaleIsPending(Next(s, step))
  {
    hide Next, IsReclaiming, PhaseOf;
    var s' := Next(s, step);
    forall name | name in s'.stale
      ensures IsReclaiming(s', name)
    {
      if !step.Tick? && step.node == name.0 {
        OwnStaleIsPending(s, step, name);
      } else {
        OthersStaleStays(s, step, name);
      }
    }
  }

  lemma OthersStaleStays(s: State, step: Step, name: StaleName)
    requires step.Tick? || step.node != name.0
    ensures name in Next(s, step).stale ==> name in s.stale
    ensures IsReclaiming(s, name) ==> IsReclaiming(Next(s, step), name)
  {
    if !step.Tick? {
      NodeStateKept(s, step, name.0);
    }
  }

  lemma OwnStaleIsPending(s: State, step: Step, name: StaleName)
    requires !step.BreakOff? && !step.Tick? && step.node == name.0 && name in Next(s, step).stale
    requires name in s.stale ==> IsReclaiming(s, name)
    ensures IsReclaiming(Next(s, step), name)
  {
  }

  /** A rename moves the lock file, whole and whosever it is, to the caller's own `.stale` name. */
  lemma RenameMovesFile(s: State, n: Node)
    requires PhaseOf(s, n).Judged? && s.path.Some?
    ensures var end := Next(s, Rename(n));
      end.path.None? && end.stale == s.stale[(n, PhaseOf(s, n).at) := s.path.value] && end.files == s.files
  {
  }

  /** When every call has finished and none broke off, no `.stale` file is left, however the reclaims interleaved. */
  lemma {:induction false} NoStaleFileLeft(s: State, steps: seq<Step>)
    requires Quiet(s) && forall step :: step in steps ==> !step.BreakOff?
    ensures StaleIsPending(Run(s, steps))
    ensures (forall n: Node :: PhaseOf(Run(s, steps), n).Ready?) ==> Run(s, steps).stale == map[]
  {
    if steps != [] {
      var k := |steps| - 1;
      assert steps[k] in steps && forall step :: step in steps[..k] ==> step in steps;
      NoStaleFileLeft(s, steps[..k]);
      NextKeepsStalePending(Run(s, steps[..k]), steps[k]);
    }
    var end := Run(s, steps);
    if forall n: Node :: PhaseOf(end, n).Ready? {
      forall name
        ensures name !in end.stale
      {
        assert PhaseOf(end, name.0).Ready?;
      }
    }
  }

  predicate IsWriting(phase: Phase) {
    phase.Writing? || phase.Rewriting? || phase.WriteBroke?
  }

  /**
   A lock file whose creator broke off before writing it blocks the resource in every exact run:
   it never becomes stale, so nobody renames, replaces or unlinks it.
   */
  lemma {:induction false} UnwrittenFileBlocksForever(s: State, steps: seq<Step>, id: FileId, creator: Node)
    requires Inv(s) && AllExact(s, steps)
    requires IsUnwrittenLock(s, id, creator) && !IsWriting(PhaseOf(s, creator))
    ensures Inv(Run(s, steps))
    ensures IsUnwrittenLock(Run(s, steps), id, creator) && !IsWriting(PhaseOf(Run(s, steps), creator))
    ensures forall n :: !Believes(Run(s, steps), n)
  {
    if steps != [] {
      var k := |steps| - 1;
      UnwrittenFileBlocksForever(s, steps[..k], id, creator);
      var before := Run(s, steps[..k]);
      NextKeepsInv(before, steps[k]);
      UnwrittenStepBlocks(before, steps[k], id, creator);
    }
    var end := Run(s, steps);
    forall n
      ensures !Believes(end, n)
    {
      assert BeliefIsTrue(end, n);
    }
  }

  lemma UnwrittenStepBlocks(s: State, step: Step, id: FileId, creator: Node)
    requires Inv(s) && Exact(s, step)
    requires IsUnwrittenLock(s, id, creator) && !IsWriting(PhaseOf(s, creator))
    ensures IsUnwrittenLock(Next(s, step), id, creator) && !IsWriting(PhaseOf(Next(s, step), creator))
  {
    if !step.Tick? {
      assert PhaseIsCurrent(s, step.node);
      if step.node != creator {
        NodeStateKept(s, step, creator);
        FilesAreKept(s, step, id);
      }
    }
  }

  /** Nobody who looks at an unwritten lock file gets past it. */
  lemma UnwrittenFileIsHeld(s: State, n: Node, ttlMs: int, at: int)
    requires Current(s).Some? && Current(s).value.Unwritten? && at <= s.now
    ensures PhaseOf(s, n).Ready? ==> PhaseOf(Next(Next(s, TryCreate(n, ttlMs, at)), Look(n)), n).Ready?
    ensures Next(s, ReadToReplace(n, ttlMs)) == s
    ensures forall force :: PhaseOf(Next(s, ReadToUnlink(n, force)), n) == PhaseOf(s, n)
  {
  }

  /** The rename and the second create of a reclaim, with nobody in between. */
  function TakenOver(s: State, n: Node): State {
    Next(Next(s, Rename(n)), CreateAgain(n))
  }

  /** A whole reclaim from the rename to the read-back, with nobody in between. */
  function Reclaimed(s: State, n: Node): State {
    Next(Next(Next(TakenOver(s, n), FinishRewrite(n, true)), ClearStale(n)), Verify(n))
  }

  ghost predicate OnlyMoved(s: State, end: State, n: Node) {
    end.now == s.now && forall m :: m != n ==> PhaseOf(end, m) == PhaseOf(s, m)
  }

  lemma TakeOverAlone(s: State, n: Node)
    requires PhaseOf(s, n).Judged? && s.path.Some?
    ensures var end := TakenOver(s, n);
      && OnlyMoved(s, end, n) && end.held == s.held
      && PhaseOf(end, n)
        == Rewriting(PhaseOf(s, n).at, |s.files|, NewRecord(n, PhaseOf(s, n).ttlMs, PhaseOf(s, n).at))
      && end.path == Some(|s.files|) && |end.files| == |s.files| + 1
  {
  }

  lemma ConcludeAlone(s: State, n: Node)
    requires PhaseOf(s, n).Rewriting? && s.path == Some(PhaseOf(s, n).id) && ValidFile(s, PhaseOf(s, n).id)
    requires PhaseOf(s, n).record.nodeId == n
    ensures var written := Next(s, FinishRewrite(n, true));
      var end := Next(Next(written, ClearStale(n)), Verify(n));
      && OnlyMoved(s, end, n) && end.path == s.path
      && end.held == s.held[n := Deadline(PhaseOf(s, n).record)]
  {
    var written := Next(s, FinishRewrite(n, true));
    assert Current(written) == Some(Written(PhaseOf(s, n).record));
    var cleared := Next(written, ClearStale(n));
    assert PhaseOf(cleared, n) == Verifying && Current(cleared) == Current(written);
  }

  /** An undisturbed reclaim ends with its node believing, whatever file it renamed away. */
  lemma ReclaimAlone(s: State, n: Node)
    requires PhaseOf(s, n).Judged? && s.path.Some?
    requires s.now <= PhaseOf(s, n).at + PhaseOf(s, n).ttlMs
    ensures var end := Reclaimed(s, n);
      && OnlyMoved(s, end, n) && end.path.Some? && Believes(end, n)
      && forall m :: m != n ==> (Believes(end, m) <==> Believes(s, m))
  {
    hide Next;
    TakeOverAlone(s, n);
    ConcludeAlone(TakenOver(s, n), n);
  }

  /** Steps of an acquire by one node, and time passing. */
  predicate IsAcquire(n: Node, step: Step) {
    step.Tick? || (step.node == n
      && (step.TryCreate? || step.Look? || step.Rename? || step.CreateAgain? || step.FinishRewrite?
        || step.ClearStale? || step.Verify?))
  }

  /** A lock file that holds a record can be acquired once its time is up. */
  lemma WrittenFileIsReclaimed(s: State, m: Node) returns (steps: seq<Step>)
    requires PhaseOf(s, m).Ready? && Current(s).Some? && Current(s).value.Written?
    ensures AllExact(s, steps) && Believes(Run(s, steps), m)
    ensures forall step :: step in steps ==> IsAcquire(m, step)
  {
    hide AllExact, Run, Next, Exact, Reclaimed, TakenOver;
    var deadline := Deadline(Current(s).value.record);
    var late := if deadline < s.now then 0 else deadline - s.now + 1;
    var stale := Next(s, Tick(late));
    TimePasses(s, late);
    RunNothing(s);
    steps := HarmlessSnoc(s, [], s, Tick(late));
    steps := HarmlessSnoc(s, steps, stale, TryCreate(m, 0, stale.now));
    steps := HarmlessSnoc(s, steps, Next(stale, TryCreate(m, 0, stale.now)), Look(m));
    IntruderJudges(stale, m);
    var more := ReclaimSteps(Run(s, steps), m);
    AllExactConcat(s, steps, more);
    steps := steps + more;
  }

  lemma TimePasses(s: State, ms: nat)
    requires Current(s).Some? && Current(s).value.Written? && Deadline(Current(s).value.record) < s.now + ms
    ensures var end := Next(s, Tick(ms));
      Holder(end).None? && end.path == s.path && end.files == s.files && end.phase == s.phase
  {
  }

  /** Steps of which the hypothesis asks nothing. */
  predicate IsHarmless(step: Step) {
    step.Tick? || step.TryCreate? || step.FinishWrite? || step.Look? || step.CreateAgain? || step.FinishRewrite?
    || step.UnlinkBroken? || step.ClearStale? || step.Verify? || step.BreakOff?
  }

  lemma HarmlessIsExact(s: State, step: Step)
    requires IsHarmless(step)
    ensures Exact(s, step)
  {
  }

  /** The steps of `Reclaimed`, one by one. */
  lemma ReclaimSteps(s: State, m: Node) returns (steps: seq<Step>)
    requires PhaseOf(s, m).Judged? && s.path == Some(PhaseOf(s, m).seen)
    requires s.now <= PhaseOf(s, m).at + PhaseOf(s, m).ttlMs
    ensures AllExact(s, steps) && Run(s, steps) == Reclaimed(s, m) && Believes(Run(s, steps), m)
    ensures steps == [Rename(m), CreateAgain(m), FinishRewrite(m, true), ClearStale(m), Verify(m)]
  {
    ReclaimAlone(s, m);
    assert Exact(s, Rename(m));
    var s1 := Next(s, Rename(m));
    var s2 := Next(s1, CreateAgain(m));
    var s3 := Next(s2, FinishRewrite(m, true));
    assert Reclaimed(s, m) == Next(Next(s3, ClearStale(m)), Verify(m));
    hide *;
    RunNothing(s);
    AllExactSnoc(s, [], Rename(m));
    steps := [] + [Rename(m)];
    steps := HarmlessSnoc(s, steps, s1, CreateAgain(m));
    steps := HarmlessSnoc(s, steps, s2, FinishRewrite(m, true));
    steps := HarmlessSnoc(s, steps, s3, ClearStale(m));
    steps := HarmlessSnoc(s, steps, Next(s3, ClearStale(m)), Verify(m));
  }

  lemma HarmlessSnoc(s: State, before: seq<Step>, end: State, step: Step) returns (steps: seq<Step>)
    requires AllExact(s, before) && Run(s, before) == end && IsHarmless(step)
    ensures steps == before + [step] && AllExact(s, steps) && Run(s, steps) == Next(end, step)
  {
    hide AllExact, Run, Next, IsHarmless;
    AllExactSnoc(s, before, step);
    assert Exact(end, step) by { HarmlessIsExact(end, step); }
    steps := before + [step];
  }

  lemma {:induction false} AllExactConcat(s: State, a: seq<Step>, b: seq<Step>)
    requires AllExact(s, a) && AllExact(Run(s, a), b)
    ensures AllExact(s, a + b) && Run(s, a + b) == Run(Run(s, a), b)
  {
    hide Next, Exact;
    if b == [] {
      assert a + b == a;
    } else {
      var n := |b| - 1;
      AllExactConcat(s, a, b[..n]);
      AllExactSnoc(s, a + b[..n], b[n]);
      assert (a + b[..n]) + [b[n]] == a + b;
    }
  }

  /** The lock file was created but not written, and its creator is no longer about to write or unlink it. */
  predicate IsStuck(s: State) {
    Current(s).Some? && Current(s).value.Unwritten? && !IsWriting(PhaseOf(s, Current(s).value.creator))
  }

  /** An unfinished lock file that is not stuck is soon written or gone. */
  lemma FileIsSettled(s: State) returns (steps: seq<Step>)
    requires Inv(s) && !IsStuck(s)
    ensures AllExact(s, steps) && Run(s, steps).now == s.now
    ensures var end := Run(s, steps);
      end.path.None? || (Current(end).Some? && Current(end).value.Written?)
  {
    RunNothing(s);
    steps := [];
    if Current(s).Some? && Current(s).value.Unwritten? {
      var creator := Current(s).value.creator;
      assert PhaseIsCurrent(s, creator);
      hide AllExact, Run;
      var step := match PhaseOf(s, creator)
        case Writing(_, _) => FinishWrite(creator)
        case Rewriting(_, _, _) => FinishRewrite(creator, true)
        case _ => UnlinkBroken(creator);
      steps := HarmlessSnoc(s, [], s, step);
    }
  }

  /** A node that breaks off what it is doing can acquire a missing lock, or one whose time will be up. */
  lemma SettledFileIsAcquired(s: State, m: Node) returns (steps: seq<Step>)
    requires s.path.None? || (Current(s).Some? && Current(s).value.Written?)
    ensures AllExact(s, steps) && Believes(Run(s, steps), m)
  {
    RunNothing(s);
    hide AllExact, Run;
    steps := HarmlessSnoc(s, [], s, BreakOff(m));
    var ready := Next(s, BreakOff(m));
    if s.path.None? {
      steps := HarmlessSnoc(s, steps, ready, TryCreate(m, 0, s.now));
      steps := HarmlessSnoc(s, steps, Next(ready, TryCreate(m, 0, s.now)), FinishWrite(m));
    } else {
      var more := WrittenFileIsReclaimed(ready, m);
      AllExactConcat(s, steps, more);
      steps := steps + more;
    }
  }

  /**
   Exactly when a lock is lost for good: at any moment of any exact run, a node can still come to
   hold it in some exact run to come if and only if the lock file is not stuck.
   */
  lemma CanBeHeldExactly(s: State, m: Node)
    requires Inv(s)
    ensures (exists steps :: AllExact(s, steps) && Believes(Run(s, steps), m)) <==> !IsStuck(s)
  {
    hide AllExact, Run, Next, Believes;
    if IsStuck(s) {
      forall steps | AllExact(s, steps)
        ensures !Believes(Run(s, steps), m)
      {
        UnwrittenFileBlocksForever(s, steps, s.path.value, Current(s).value.creator);
      }
    } else {
      var first := FileIsSettled(s);
      var second := SettledFileIsAcquired(Run(s, first), m);
      AllExactConcat(s, first, second);
    }
  }

  /**
   Whether an abandoned lock can be taken over: once every call has ended or broken off, any node
   can come to hold it if and only if the lock file was written; and then the node's own acquire
   is enough, once the time of the record is up.
   */
  lemma AbandonedFileIsFreedExactly(s: State, id: FileId, m: Node)
    requires Inv(s) && s.path == Some(id) && forall n: Node :: PhaseOf(s, n).Ready?
    ensures (exists steps :: AllExact(s, steps) && Believes(Run(s, steps), m)) <==> s.files[id].Written?
    ensures s.files[id].Written? ==>
      exists steps ::
        AllExact(s, steps) && Believes(Run(s, steps), m) && forall step :: step in steps ==> IsAcquire(m, step)
  {
    hide AllExact, Run, Next, Believes;
    CanBeHeldExactly(s, m);
    if s.files[id].Written? {
      var steps := WrittenFileIsReclaimed(s, m);
    }
  }

  /** Such a file is left from every quiet start by a creator that breaks off before it writes. */
  lemma UnwrittenFileHappens(s: State, n: Node, ttlMs: int)
    requires Quiet(s)
    ensures var steps := [TryCreate(n, ttlMs, s.now), BreakOff(n)];
      var end := Run(s, steps);
      && AllExact(s, steps) && Inv(end)
      && IsUnwrittenLock(end, |s.files|, n) && IsStuck(end)
      && forall m: Node :: PhaseOf(end, m).Ready?
  {
    hide AllExact, Run, Next, Inv;
    RunNothing(s);
    var create := TryCreate(n, ttlMs, s.now);
    var steps := HarmlessSnoc(s, [], s, create);
    steps := HarmlessSnoc(s, steps, Next(s, create), BreakOff(n));
    assert steps == [create, BreakOff(n)];
    QuietIsInv(s);
    InvInEveryRun(s, steps);
    CreatorIsGone(s, n, ttlMs);
  }

  lemma CreatorIsGone(s: State, n: Node, ttlMs: int)
    requires Quiet(s)
    ensures var end := Next(Next(s, TryCreate(n, ttlMs, s.now)), BreakOff(n));
      IsUnwrittenLock(end, |s.files|, n) && forall m: Node :: PhaseOf(end, m).Ready?
  {
  }

  /**
   The hypothesis is needed: from every state in which two nodes have judged one record stale,
   each can reclaim in turn, the second renaming the first one's fresh file, and both believe.
   */
  lemma TwoReclaimersBothWin(s: State, a: Node, b: Node)
    requires a != b && PhaseOf(s, a).Judged? && PhaseOf(s, b).Judged?
    requires s.path == Some(PhaseOf(s, a).seen) == Some(PhaseOf(s, b).seen)
    requires s.now <= PhaseOf(s, a).at + PhaseOf(s, a).ttlMs && s.now <= PhaseOf(s, b).at + PhaseOf(s, b).ttlMs
    ensures var end := Reclaimed(Reclaimed(s, a), b);
      Believes(end, a) && Believes(end, b)
  {
    ReclaimAlone(s, a);
    ReclaimAlone(Reclaimed(s, a), b);
  }

  /** Such states are reached: an owner that falls asleep and two nodes that look at once are enough,
      from every quiet start. */
  lemma TwoReclaimersHappen(s: State, x: Node, a: Node, b: Node, ttlMs: nat) returns (steps: seq<Step>)
    requires Quiet(s) && x != a && x != b && a != b
    ensures AllExact(s, steps)
    ensures var both := Run(s, steps);
      && PhaseOf(both, a).Judged? && PhaseOf(both, b).Judged?
      && both.path == Some(PhaseOf(both, a).seen) == Some(PhaseOf(both, b).seen)
      && both.now <= PhaseOf(both, a).at + PhaseOf(both, a).ttlMs
      && both.now <= PhaseOf(both, b).at + PhaseOf(both, b).ttlMs
  {
    hide AllExact, Run;
    var late := s.now + ttlMs + 1;
    steps := [];
    RunNothing(s);
    AllExactSnoc(s, steps, TryCreate(x, ttlMs, s.now));
    steps := steps + [TryCreate(x, ttlMs, s.now)];
    AllExactSnoc(s, steps, FinishWrite(x));
    steps := steps + [FinishWrite(x)];
    AllExactSnoc(s, steps, Tick(ttlMs + 1));
    steps := steps + [Tick(ttlMs + 1)];
    assert Current(Run(s, steps)) == Some(Written(NewRecord(x, ttlMs, s.now)));
    AllExactSnoc(s, steps, TryCreate(a, ttlMs, late));
    steps := steps + [TryCreate(a, ttlMs, late)];
    AllExactSnoc(s, steps, TryCreate(b, ttlMs, late));
    steps := steps + [TryCreate(b, ttlMs, late)];
    AllExactSnoc(s, steps, Look(a));
    steps := steps + [Look(a)];
    AllExactSnoc(s, steps, Look(b));
    steps := steps + [Look(b)];
  }

  /**
   A late renewal breaks exclusion too: while it waits, another node reclaims the stale record it
   read, then it replaces the other's file, and both believe.
   */
  lemma LateReplaceBreaksExclusion(s: State, n: Node, m: Node)
    requires n != m && PhaseOf(s, n).WillReplace? && PhaseOf(s, n).ttlMs >= 0
    requires PhaseOf(s, m).Judged? && s.path.Some? && s.now <= PhaseOf(s, m).at + PhaseOf(s, m).ttlMs
    ensures var end := Next(Reclaimed(s, m), Replace(n, s.now));
      Believes(end, n) && Believes(end, m)
  {
    hide Reclaimed;
    ReclaimAlone(s, m);
  }

  /** So does a late release: it unlinks the other's file, a third node creates its own, and two believe. */
  lemma LateUnlinkBreaksExclusion(s: State, n: Node, m: Node, third: Node, ttlMs: nat)
    requires n != m && third != n && third != m
    requires PhaseOf(s, n).WillUnlink? && PhaseOf(s, third).Ready?
    requires PhaseOf(s, m).Judged? && s.path.Some? && s.now <= PhaseOf(s, m).at + PhaseOf(s, m).ttlMs
    ensures var freed := Next(Reclaimed(s, m), Unlink(n));
      var end := Next(Next(freed, TryCreate(third, ttlMs, s.now)), FinishWrite(third));
      Believes(end, m) && Believes(end, third)
  {
    hide Reclaimed;
    ReclaimAlone(s, m);
  }

  /** Both start states are reached from every quiet start: an owner falls asleep between read and write. */
  lemma LateReplaceHappens(s: State, n: Node, m: Node, ttlMs: nat) returns (steps: seq<Step>)
    requires Quiet(s) && n != m
    ensures AllExact(s, steps)
    ensures var late := Run(s, steps);
      && PhaseOf(late, n).WillReplace? && PhaseOf(late, n).ttlMs == ttlMs
      && PhaseOf(late, m).Judged? && late.path.Some?
      && late.now <= PhaseOf(late, m).at + PhaseOf(late, m).ttlMs
  {
    steps := SleepAndJudge(s, n, m, ttlMs, ReadToReplace(n, ttlMs));
  }

  lemma LateUnlinkHappens(s: State, n: Node, m: Node, ttlMs: nat) returns (steps: seq<Step>)
    requires Quiet(s) && n != m
    ensures AllExact(s, steps)
    ensures var late := Run(s, steps);
      && PhaseOf(late, n).WillUnlink?
      && PhaseOf(late, m).Judged? && late.path.Some?
      && late.now <= PhaseOf(late, m).at + PhaseOf(late, m).ttlMs
      && forall third :: third != n && third != m ==> PhaseOf(late, third).Ready?
  {
    steps := SleepAndJudge(s, n, m, ttlMs, ReadToUnlink(n, false));
  }

  /** One node takes the lock, reads it for renewal or release and falls asleep; another judges it stale. */
  lemma SleepAndJudge(s: State, n: Node, m: Node, ttlMs: nat, read: Step) returns (steps: seq<Step>)
    requires Quiet(s) && n != m && read in {ReadToReplace(n, ttlMs), ReadToUnlink(n, false)}
    ensures AllExact(s, steps)
    ensures var late := Run(s, steps);
      && (if read.ReadToReplace? then PhaseOf(late, n).WillReplace? && PhaseOf(late, n).ttlMs == ttlMs
          else PhaseOf(late, n).WillUnlink?)
      && PhaseOf(late, m).Judged? && late.path.Some?
      && late.now <= PhaseOf(late, m).at + PhaseOf(late, m).ttlMs
      && forall third :: third != n && third != m ==> PhaseOf(late, third).Ready?
  {
    hide AllExact, Run;
    var late := s.now + ttlMs + 1;
    steps := [];
    RunNothing(s);
    AllExactSnoc(s, steps, TryCreate(n, ttlMs, s.now));
    steps := steps + [TryCreate(n, ttlMs, s.now)];
    AllExactSnoc(s, steps, FinishWrite(n));
    steps := steps + [FinishWrite(n)];
    assert Current(Run(s, steps)) == Some(Written(NewRecord(n, ttlMs, s.now)));
    AllExactSnoc(s, steps, read);
    steps := steps + [read];
    AllExactSnoc(s, steps, Tick(ttlMs + 1));
    steps := steps + [Tick(ttlMs + 1)];
    assert Current(Run(s, steps)) == Some(Written(NewRecord(n, ttlMs, s.now)));
    AllExactSnoc(s, steps, TryCreate(m, ttlMs, late));
    steps := steps + [TryCreate(m, ttlMs, late)];
    AllExactSnoc(s, steps, Look(m));
    steps := steps + [Look(m)];
  }

  /**
   A heartbeat adopts another node's stale record: it becomes the holder, keeping the old
   acquisition time. Exclusion is not broken by it.
   */
  lemma HeartbeatAdoptsStaleRecord(s: State, n: Node, ttlMs: nat, old': LockRecord)
    requires PhaseOf(s, n).Ready? && Current(s) == Some(Written(old')) && IsStale(old', s.now)
    ensures var end := Next(Next(s, ReadToReplace(n, ttlMs)), Replace(n, s.now));
      && Holder(s) == None && Holder(end) == Some(n) && Believes(end, n)
      && Current(end) == Some(Written(LockRecord(n, old'.acquiredAt, ttlMs, s.now)))
      && (Inv(s) ==> Inv(end) && forall m :: Believes(end, m) ==> m == n)
  {
    var mid := Next(s, ReadToReplace(n, ttlMs));
    assert PhaseOf(mid, n) == WillReplace(s.path.value, old', ttlMs);
    if Inv(s) {
      NextKeepsInv(s, ReadToReplace(n, ttlMs));
      NextKeepsInv(mid, Replace(n, s.now));
      var end := Next(mid, Replace(n, s.now));
      forall m | Believes(end, m)
        ensures m == n
      {
        assert BeliefIsTrue(end, m);
      }
    }
  }

  // The objects: a directory executes single system calls; the shield strings them together.

  datatype LockError =
    | LockedBy(owner: Node)
    | LockNotFound
    | Undecodable      // the lock file holds no JSON
    | LostRace
    | WriteError
    | TooManyRetries

  predicate NotBy(n: Node, steps: seq<Step>) {
    forall step :: step in steps ==> step.Tick? || step.node != n
  }

  /** What other nodes' steps leave alone: this node's phase, belief and `.stale` files, and the files there are. */
  ghost predicate LeftAlone(before: State, after: State, n: Node) {
    && PhaseOf(after, n) == PhaseOf(before, n)
    && before.now <= after.now
    && (n in after.held <==> n in before.held)
    && (n in before.held ==> after.held[n] == before.held[n])
    && |before.files| <= |after.files|
    && (forall at: int :: (n, at) in after.stale <==> (n, at) in before.stale)
  }

  lemma {:induction false} OthersLeaveAlone(s: State, steps: seq<Step>, n: Node)
    requires NotBy(n, steps)
    ensures LeftAlone(s, Run(s, steps), n)
  {
    if steps != [] {
      var k := |steps| - 1;
      assert steps[k] in steps && forall step :: step in steps[..k] ==> step in steps;
      OthersLeaveAlone(s, steps[..k], n);
      OtherLeavesAlone(Run(s, steps[..k]), steps[k], n);
    }
  }

  lemma OtherLeavesAlone(s: State, step: Step, n: Node)
    requires step.Tick? || step.node != n
    ensures LeftAlone(s, Next(s, step), n)
  {
    if !step.Tick? {
      NodeStateKept(s, step, n);
    }
  }

  lemma {:induction false} RunConcat(s: State, a: seq<Step>, b: seq<Step>)
    ensures Run(s, a + b) == Run(Run(s, a), b)
  {
    if b == [] {
      assert a + b == a;
    } else {
      assert (a + b)[..|a + b| - 1] == a + b[..|b| - 1];
      RunConcat(s, a, b[..|b| - 1]);
    }
  }

  lemma RunSnoc(s: State, a: seq<Step>, step: Step)
    ensures Run(s, a + [step]) == Next(Run(s, a), step)
  {
    assert (a + [step])[..|a|] == a;
  }

  lemma RunOne(s: State, step: Step)
    ensures Run(s, [step]) == Next(s, step)
  {
    assert [step][..0] == [];
  }

  class LockDirectory {
    var now: int
    var path: Option<FileId>
    var files: seq<Content>
    var stale: map<StaleName, FileId>
    var phase: map<Node, Phase>
    var held: map<Node, int>

    function View(): State
      reads this
    {
      State(now, path, files, stale, phase, held)
    }

    method Interleave(steps: seq<Step>)
      modifies this
      ensures View() == Run(old(View()), steps)
    {
      var end := Run(View(), steps);
      now, path, files, stale, phase, held := end.now, end.path, end.files, end.stale, end.phase, end.held;
    }

    /** open with O_CREAT | O_EXCL: None when the file exists. */
    method OpenExclusive(creator: Node) returns (fd: Option<FileId>)
      modifies this`path, this`files
      ensures fd == if old(path).Some? then None else Some(|old(files)|)
      ensures path == if fd.Some? then fd else old(path)
      ensures files == if fd.Some? then old(files) + [Unwritten(creator)] else old(files)
    {
      if path.Some? {
        return None;
      }
      fd := Some(|files|);
      path := fd;
      files := files + [Unwritten(creator)];
    }

    /** The write goes to the open file, wherever its name has gone meanwhile. */
    method WriteTo(fd: FileId, record: LockRecord)
      requires fd < |files|
      modifies this`files
      ensures files == old(files)[fd := Written(record)]
    {
      files := files[fd := Written(record)];
    }

    method Read() returns (content: Option<Content>)
      ensures content == Current(View())
    {
      content := if path.Some? && path.value < |files| then Some(files[path.value]) else None;
    }

    method RenameAway(name: StaleName) returns (ok: bool)
      modifies this`path, this`stale
      ensures ok == old(path).Some?
      ensures path == None
      ensures stale == if ok then old(stale)[name := old(path).value] else old(stale)
    {
      ok := path.Some?;
      if ok {
        stale := stale[name := path.value];
        path := None;
      }
    }

    method UnlinkLock()
      modifies this`path
      ensures path == None
    {
      path := None;
    }

    method UnlinkStale(name: StaleName)
      modifies this`stale
      ensures stale == old(stale) - {name}
    {
      stale := stale - {name};
    }

    /** A temporary file is written and then replaces the lock file whole. */
    method ReplaceLock(record: LockRecord)
      modifies this`path, this`files
      ensures files == old(files) + [Written(record)] && path == Some(|old(files)|)
    {
      path := Some(|files|);
      files := files + [Written(record)];
    }

    method Enter(n: Node, p: Phase)
      modifies this`phase
      ensures phase == old(phase)[n := p]
    {
      phase := phase[n := p];
    }
  }

  /** What a finished acquire leaves: no loose ends, and a belief exactly as long as the record returned says. */
  ghost predicate Finished(before: State, after: State, n: Node, r: Result<LockRecord, LockError>) {
    && PhaseOf(after, n) == Ready
    && (forall at: int :: (n, at) !in after.stale)
    && match r
       case Ok(record) => record.nodeId == n && n in after.held && after.held[n] == Deadline(record)
       case Err(_) =>
         && (n in after.held <==> n in before.held)
         && (n in after.held ==> after.held[n] == before.held[n])
  }

  /** The course of a call: its own steps, and the waits in which others act. Wait `i` of try `d`; tries count down. */
  datatype Piece = Own(step: Step) | Wait(d: nat, i: nat)

  function StepsOf(between: (nat, nat) -> seq<Step>, p: Piece): seq<Step> {
    match p
    case Own(step) => [step]
    case Wait(d, i) => between(d, i)
  }

  /** All steps of a course, one after the other. */
  function Woven(between: (nat, nat) -> seq<Step>, course: seq<Piece>): seq<Step> {
    if course == [] then []
    else Woven(between, course[..|course| - 1]) + StepsOf(between, course[|course| - 1])
  }

  predicate Earlier(p: Piece, d: nat, i: nat) {
    p.Wait? ==> p.d > d || (p.d == d && p.i < i)
  }

  /**
   Own steps are the node's, and waits come in turn, each at most once and all before wait `i` of
   try `d`: in the whole course others do what `between` says and nothing else.
   */
  ghost predicate InTurn(n: Node, course: seq<Piece>, d: nat, i: nat) {
    && (forall k :: 0 <= k < |course| ==> Earlier(course[k], d, i))
    && (forall k :: 0 <= k < |course| && course[k].Own? ==> !course[k].step.Tick? && course[k].step.node == n)
    && (forall j, k :: 0 <= j < k < |course| && course[k].Wait? ==> Earlier(course[j], course[k].d, course[k].i))
  }

  /** A course of node `n` leads from `start` to `s`, and the next wait is wait `i` of try `d`. */
  ghost predicate CourseTo(n: Node, start: State, between: (nat, nat) -> seq<Step>, course: seq<Piece>,
      d: nat, i: nat, s: State) {
    && s == Run(start, Woven(between, course)) && InTurn(n, course, d, i)
    && forall d', i' :: NotBy(n, between(d', i'))
  }

  lemma WovenSnoc(between: (nat, nat) -> seq<Step>, course: seq<Piece>, p: Piece)
    ensures Woven(between, course + [p]) == Woven(between, course) + StepsOf(between, p)
  {
    assert (course + [p])[..|course|] == course;
  }

  lemma InTurnSnoc(n: Node, course: seq<Piece>, p: Piece, d: nat, i: nat, j: nat)
    requires InTurn(n, course, d, i) && i <= j && Earlier(p, d, j)
    requires if p.Own? then !p.step.Tick? && p.step.node == n else p == Wait(d, i)
    ensures InTurn(n, course + [p], d, j)
  {
    var more := course + [p];
    assert forall k :: 0 <= k < |course| ==> more[k] == course[k];
  }

  lemma CourseStep(n: Node, start: State, between: (nat, nat) -> seq<Step>, course: seq<Piece>, d: nat,
      i: nat, s: State, step: Step)
    requires CourseTo(n, start, between, course, d, i, s) && !step.Tick? && step.node == n
    ensures CourseTo(n, start, between, course + [Own(step)], d, i, Next(s, step))
  {
    hide Next, Run, NotBy, Woven, InTurn;
    WovenSnoc(between, course, Own(step));
    InTurnSnoc(n, course, Own(step), d, i, i);
    RunSnoc(start, Woven(between, course), step);
  }

  lemma CourseWait(n: Node, start: State, between: (nat, nat) -> seq<Step>, course: seq<Piece>,
      d: nat, i: nat, s: State)
    requires CourseTo(n, start, between, course, d, i, s)
    ensures CourseTo(n, start, between, course + [Wait(d, i)], d, i + 1, Run(s, between(d, i)))
    ensures NotBy(n, between(d, i))
  {
    hide Next, Run, NotBy, Woven, InTurn;
    WovenSnoc(between, course, Wait(d, i));
    InTurnSnoc(n, course, Wait(d, i), d, i, i + 1);
    RunConcat(start, Woven(between, course), between(d, i));
  }

  /** Waits may be left out, and so may the rest of a try. */
  lemma CourseSkip(n: Node, start: State, between: (nat, nat) -> seq<Step>, course: seq<Piece>,
      d: nat, i: nat, s: State, j: nat)
    requires CourseTo(n, start, between, course, d, i, s)
    ensures i <= j ==> CourseTo(n, start, between, course, d, j, s) && CourseTo(n, start, between, course, 0, j, s)
    ensures d > 0 ==> CourseTo(n, start, between, course, d - 1, 0, s)
  {
    hide Next, Run, NotBy, Woven;
  }

  /** The call does not break off: every state it has entered it leaves by the step that the program takes there. */
  predicate StaysWhole(n: Node, sofar: seq<Piece>, course: seq<Piece>) {
    Own(BreakOff(n)) in course ==> Own(BreakOff(n)) in sofar
  }

  lemma WholeChain(n: Node, a: seq<Piece>, b: seq<Piece>, c: seq<Piece>)
    requires StaysWhole(n, a, b) && StaysWhole(n, b, c)
    ensures StaysWhole(n, a, c)
  {
  }

  /** Every try from `depth` down to the last was made and found a lock file. */
  ghost predicate WaitedInAll(course: seq<Piece>, depth: nat) {
    forall d: nat :: d <= depth ==> Wait(d, 1) in course
  }

  /** In try `d` no other node does anything. */
  ghost predicate NobodyActs(between: (nat, nat) -> seq<Step>, d: nat) {
    forall i :: between(d, i) == []
  }

  predicate PathIsValid(s: State) {
    s.path.Some? ==> ValidFile(s, s.path.value)
  }

  predicate HasOwnRecord(s: State, n: Node) {
    Current(s).Some? && Current(s).value.Written? && Current(s).value.record.nodeId == n
  }

  /** The lock file now holds the node's new record, which is returned; or the write raised, and left what it leaves. */
  predicate WroteOrLeft(after: State, n: Node, at: int, ttlMs: int, writeFails: bool, r: Result<LockRecord, LockError>,
                        left: Option<Content>)
  {
    if writeFails then r == Err(WriteError) && Current(after) == left
    else r == Ok(LockRecord(n, at, ttlMs, at)) && Current(after) == Some(Written(r.value))
  }

  /**
   What an acquire does when nobody else acts: a missing lock file is created, a stale one is
   reclaimed, a fresh one refuses the call naming its owner, and an unwritten one raises.
   */
  predicate AloneOutcome(before: State, after: State, n: Node, ttlMs: int, writeFails: bool,
                         r: Result<LockRecord, LockError>)
  {
    match Current(before)
    case None => WroteOrLeft(after, n, before.now, ttlMs, writeFails, r, Some(Unwritten(n)))
    case Some(Unwritten(_)) => r == Err(Undecodable) && after.path == before.path && after.files == before.files
    case Some(Written(record)) =>
      if before.now - record.heartbeatAt > record.ttlMs
      then WroteOrLeft(after, n, before.now, ttlMs, writeFails, r, None)
      else r == Err(LockedBy(record.nodeId)) && after.path == before.path && after.files == before.files
  }

  class FileConfigShield {
    const nodeId: Node
    const dir: LockDirectory

    constructor (nodeId: Node, dir: LockDirectory)
      ensures this.nodeId == nodeId && this.dir == dir
    {
      this.nodeId, this.dir := nodeId, dir;
    }

    function Mine(): Phase
      reads dir
    {
      PhaseOf(dir.View(), nodeId)
    }

    /** No `.stale` file of this node is in the directory. */
    ghost predicate Tidy()
      reads dir
    {
      forall at: int :: (nodeId, at) !in dir.stale
    }

    /** Other nodes act, as `between` says. */
    method Pause(d: nat, i: nat, between: (nat, nat) -> seq<Step>, ghost start: State, ghost sofar: seq<Piece>)
      returns (ghost course: seq<Piece>)
      requires CourseTo(nodeId, start, between, sofar, d, i, dir.View())
      modifies dir
      ensures course == sofar + [Wait(d, i)] && CourseTo(nodeId, start, between, course, d, i + 1, dir.View())
      ensures LeftAlone(old(dir.View()), dir.View(), nodeId)
      ensures between(d, i) == [] ==> dir.View() == old(dir.View())
    {
      hide CourseTo, Run;
      RunNothing(dir.View());
      CourseWait(nodeId, start, between, sofar, d, i, dir.View());
      OthersLeaveAlone(dir.View(), between(d, i), nodeId);
      dir.Interleave(between(d, i));
      course := sofar + [Wait(d, i)];
    }

    /** Other nodes act; the steps taken since `start` grow by theirs. */
    method WaitFor(others: seq<Step>, ghost start: State, ghost sofar: seq<Step>) returns (ghost steps: seq<Step>)
      requires NotBy(nodeId, others) && dir.View() == Run(start, sofar)
      modifies dir
      ensures steps == sofar + others && dir.View() == Run(start, steps)
      ensures LeftAlone(old(dir.View()), dir.View(), nodeId)
    {
      OthersLeaveAlone(dir.View(), others, nodeId);
      RunConcat(start, sofar, others);
      dir.Interleave(others);
      steps := sofar + others;
    }

    // The system calls of this node, one step each.

    method Create(at: int, ttlMs: int) returns (fd: Option<FileId>)
      requires Mine() == Ready && at <= dir.now
      modifies dir
      ensures dir.View() == Next(old(dir.View()), TryCreate(nodeId, ttlMs, at))
      ensures dir.held == old(dir.held) && dir.stale == old(dir.stale)
      ensures Mine() == match fd
        case Some(id) => Writing(id, NewRecord(nodeId, ttlMs, at))
        case None => Contending(at, ttlMs)
      ensures fd.Some? ==> fd.value < |dir.files|
      ensures dir.now == old(dir.now) && fd == if old(dir.path).Some? then None else Some(|old(dir.files)|)
      ensures dir.path == if fd.Some? then fd else old(dir.path)
      ensures dir.files == if fd.Some? then old(dir.files) + [Unwritten(nodeId)] else old(dir.files)
    {
      fd := dir.OpenExclusive(nodeId);
      dir.Enter(nodeId, if fd.Some? then Writing(fd.value, NewRecord(nodeId, ttlMs, at)) else Contending(at, ttlMs));
    }

    method Write(fd: FileId, record: LockRecord)
      requires Mine() == Writing(fd, record) && fd < |dir.files|
      modifies dir
      ensures dir.View() == Next(old(dir.View()), FinishWrite(nodeId)) && Mine() == Ready
      ensures dir.held == old(dir.held)[nodeId := Deadline(record)] && dir.stale == old(dir.stale)
      ensures dir.now == old(dir.now) && dir.path == old(dir.path) && dir.files == old(dir.files)[fd := Written(record)]
    {
      dir.WriteTo(fd, record);
      dir.Enter(nodeId, Ready);
      dir.held := dir.held[nodeId := Deadline(record)];
    }

    /** The write raised: the call ends there and leaves the file as it was created. */
    method GiveUp()
      modifies dir
      ensures dir.View() == Next(old(dir.View()), BreakOff(nodeId)) && Mine() == Ready
      ensures dir.held == old(dir.held) && dir.stale == old(dir.stale)
      ensures dir.now == old(dir.now) && dir.path == old(dir.path) && dir.files == old(dir.files)
    {
      dir.Enter(nodeId, Ready);
    }

    /** Reads the lock file that was in the way; Ok(true) means its record is stale, Ok(false) that it is gone. */
    method Inspect(at: int, ttlMs: int) returns (verdict: Result<bool, LockError>)
      requires Mine() == Contending(at, ttlMs)
      modifies dir
      ensures dir.View() == Next(old(dir.View()), Look(nodeId))
      ensures dir.held == old(dir.held) && dir.stale == old(dir.stale)
      ensures dir.now == old(dir.now) && dir.path == old(dir.path) && dir.files == old(dir.files)
      ensures verdict == Ok(true) ==> dir.path.Some?
      ensures verdict == match Current(old(dir.View()))
        case None => Ok(false)
        case Some(Unwritten(_)) => Err(Undecodable)
        case Some(Written(record)) => if IsStale(record, at) then Ok(true) else Err(LockedBy(record.nodeId))
      ensures Mine() == if verdict == Ok(true) then Judged(at, ttlMs, old(dir.path).value) else Ready
    {
      var content := dir.Read();
      dir.Enter(nodeId, Ready);
      if content.None? {
        return Ok(false);
      }
      if content.value.Unwritten? {
        return Err(Undecodable);
      }
      if !IsStale(content.value.record, at) {
        return Err(LockedBy(content.value.record.nodeId));
      }
      dir.Enter(nodeId, Judged(at, ttlMs, dir.path.value));
      verdict := Ok(true);
    }

    method MoveAway(at: int, ttlMs: int) returns (moved: bool)
      requires Mine().Judged? && Mine().at == at && Mine().ttlMs == ttlMs
      modifies dir
      ensures dir.View() == Next(old(dir.View()), Rename(nodeId)) && dir.held == old(dir.held)
      ensures Mine() == if moved then Moved(at, ttlMs) else Ready
      ensures !moved ==> dir.stale == old(dir.stale)
      ensures forall name :: name in dir.stale ==> name in old(dir.stale) || name == (nodeId, at)
      ensures moved == old(dir.path).Some? && dir.path == None && dir.files == old(dir.files) && dir.now == old(dir.now)
    {
      moved := dir.RenameAway((nodeId, at));
      dir.Enter(nodeId, if moved then Moved(at, ttlMs) else Ready);
    }

    method CreateInPlace(at: int, ttlMs: int) returns (fd: Option<FileId>)
      requires Mine() == Moved(at, ttlMs)
      modifies dir
      ensures dir.View() == Next(old(dir.View()), CreateAgain(nodeId))
      ensures dir.held == old(dir.held) && dir.stale == old(dir.stale)
      ensures Mine() == match fd
        case Some(id) => Rewriting(at, id, NewRecord(nodeId, ttlMs, at))
        case None => Clearing(at, false)
      ensures fd.Some? ==> fd.value < |dir.files|
      ensures dir.now == old(dir.now) && fd == if old(dir.path).Some? then None else Some(|old(dir.files)|)
      ensures dir.path == if fd.Some? then fd else old(dir.path)
    {
      fd := dir.OpenExclusive(nodeId);
      dir.Enter(nodeId,
        if fd.Some? then Rewriting(at, fd.value, NewRecord(nodeId, ttlMs, at)) else Clearing(at, false));
    }

    method Rewrite(at: int, fd: FileId, record: LockRecord, fails: bool)
      requires Mine() == Rewriting(at, fd, record) && fd < |dir.files|
      modifies dir
      ensures dir.View() == Next(old(dir.View()), FinishRewrite(nodeId, !fails))
      ensures dir.held == old(dir.held) && dir.stale == old(dir.stale)
      ensures Mine() == if fails then WriteBroke(at, fd) else Clearing(at, true)
      ensures dir.now == old(dir.now) && dir.path == old(dir.path)
      ensures |dir.files| == |old(dir.files)| && (!fails ==> dir.files[fd] == Written(record))
    {
      if !fails {
        dir.WriteTo(fd, record);
      }
      dir.Enter(nodeId, if fails then WriteBroke(at, fd) else Clearing(at, true));
    }

    method DropBroken(at: int)
      requires Mine().WriteBroke? && Mine().at == at
      modifies dir
      ensures dir.View() == Next(old(dir.View()), UnlinkBroken(nodeId))
      ensures dir.held == old(dir.held) && dir.stale == old(dir.stale)
      ensures Mine() == Clearing(at, false)
      ensures dir.path == None && dir.now == old(dir.now) && dir.files == old(dir.files)
    {
      dir.UnlinkLock();
      dir.Enter(nodeId, Clearing(at, false));
    }

    method Clear(at: int, won: bool)
      requires Mine() == Clearing(at, won)
      requires OnlyStale(at)
      modifies dir
      ensures dir.View() == Next(old(dir.View()), ClearStale(nodeId)) && dir.held == old(dir.held)
      ensures Mine() == (if won then Verifying else Ready) && Tidy()
      ensures dir.now == old(dir.now) && dir.path == old(dir.path) && dir.files == old(dir.files)
    {
      dir.UnlinkStale((nodeId, at));
      dir.Enter(nodeId, if won then Verifying else Ready);
    }

    method ReadBack() returns (r: Result<LockRecord, LockError>)
      requires Mine() == Verifying
      modifies dir
      ensures dir.View() == Next(old(dir.View()), Verify(nodeId)) && Mine() == Ready
      ensures dir.held == (if r.Ok? then old(dir.held)[nodeId := Deadline(r.value)] else old(dir.held))
      ensures dir.stale == old(dir.stale) && dir.path == old(dir.path) && dir.files == old(dir.files)
      ensures dir.now == old(dir.now)
      ensures match Current(old(dir.View()))
        case Some(Written(record)) => r == if record.nodeId == nodeId then Ok(record) else Err(LostRace)
        case Some(Unwritten(_)) => r == Err(Undecodable)
        case None => r == Err(LostRace)
    {
      var content := dir.Read();
      dir.Enter(nodeId, Ready);
      if content.None? {
        return Err(LostRace);
      }
      if content.value.Unwritten? {
        return Err(Undecodable);
      }
      var record := content.value.record;
      if record.nodeId != nodeId {
        return Err(LostRace);
      }
      dir.held := dir.held[nodeId := Deadline(record)];
      r := Ok(record);
    }

    /** Every `.stale` file of this node is the one of the reclaim begun at `at`. */
    ghost predicate OnlyStale(at: int)
      reads dir
    {
      forall t: int :: (nodeId, t) in dir.stale ==> t == at
    }

    /** The end of a reclaim: the `.stale` file goes, and a winner reads its record back. */
    method Conclude(at: int, won: bool, failure: LockError, d: nat, i: nat, between: (nat, nat) -> seq<Step>,
                    ghost start: State, ghost sofar: seq<Piece>)
      returns (r: Result<LockRecord, LockError>, ghost course: seq<Piece>)
      requires Mine() == Clearing(at, won) && OnlyStale(at)
      requires CourseTo(nodeId, start, between, sofar, d, i, dir.View()) && i <= 7
      modifies dir
      ensures sofar <= course && CourseTo(nodeId, start, between, course, d, 8, dir.View())
      ensures StaysWhole(nodeId, sofar, course)
      ensures Finished(old(dir.View()), dir.View(), nodeId, r)
      ensures !won ==> r == Err(failure)
      ensures r.Ok? ==> Current(dir.View()) == Some(Written(r.value))
      ensures NobodyActs(between, d) ==>
        && dir.now == old(dir.now) && Current(dir.View()) == Current(old(dir.View()))
        && (won && HasOwnRecord(old(dir.View()), nodeId) ==> r.Ok?)
      ensures r.Err? ==> r.error in {failure, LostRace, Undecodable}
    {
      hide Next, Run, CourseTo;
      CourseStep(nodeId, start, between, sofar, d, i, dir.View(), ClearStale(nodeId));
      Clear(at, won);
      course := sofar + [Own(ClearStale(nodeId))];
      CourseSkip(nodeId, start, between, course, d, i, dir.View(), 8);
      if !won {
        return Err(failure), course;
      }
      CourseSkip(nodeId, start, between, course, d, i, dir.View(), 7);
      course := Pause(d, 7, between, start, course);
      CourseStep(nodeId, start, between, course, d, 8, dir.View(), Verify(nodeId));
      r := ReadBack();
      course := course + [Own(Verify(nodeId))];
    }

    /** Writes the record to the file that was created; if that fails the lock file is unlinked again. */
    method WriteOrDrop(at: int, fd: FileId, record: LockRecord, fails: bool, d: nat, between: (nat, nat) -> seq<Step>,
                       ghost start: State, ghost sofar: seq<Piece>)
      returns (ghost course: seq<Piece>)
      requires Mine() == Rewriting(at, fd, record) && fd < |dir.files|
      requires CourseTo(nodeId, start, between, sofar, d, 5, dir.View())
      modifies dir
      ensures CourseTo(nodeId, start, between, course, d, 7, dir.View())
      ensures course == sofar + if fails
        then [Own(FinishRewrite(nodeId, false)), Wait(d, 5), Own(UnlinkBroken(nodeId)), Wait(d, 6)]
        else [Own(FinishRewrite(nodeId, true)), Wait(d, 5)]
      ensures Mine() == Clearing(at, !fails)
      ensures nodeId in dir.held <==> nodeId in old(dir.held)
      ensures nodeId in dir.held ==> dir.held[nodeId] == old(dir.held[nodeId])
      ensures forall t: int :: (nodeId, t) in dir.stale <==> (nodeId, t) in old(dir.stale)
      ensures NobodyActs(between, d) ==>
        && dir.now == old(dir.now)
        && (fails ==> Current(dir.View()) == None)
        && (!fails && old(dir.path) == Some(fd) ==> Current(dir.View()) == Some(Written(record)))
    {
      hide Next, Run, CourseTo;
      CourseStep(nodeId, start, between, sofar, d, 5, dir.View(), FinishRewrite(nodeId, !fails));
      Rewrite(at, fd, record, fails);
      course := sofar + [Own(FinishRewrite(nodeId, !fails))];
      course := Pause(d, 5, between, start, course);
      if fails {
        CourseStep(nodeId, start, between, course, d, 6, dir.View(), UnlinkBroken(nodeId));
        DropBroken(at);
        course := course + [Own(UnlinkBroken(nodeId))];
        course := Pause(d, 6, between, start, course);
      } else {
        CourseSkip(nodeId, start, between, course, d, 6, dir.View(), 7);
      }
    }

    /** The rest of a reclaim, once the lock file was created again. */
    method FillAndConclude(at: int, ttlMs: int, fd: FileId, writeFails: bool, d: nat, between: (nat, nat) -> seq<Step>,
                           ghost start: State, ghost sofar: seq<Piece>)
      returns (r: Result<LockRecord, LockError>, ghost course: seq<Piece>)
      requires Mine() == Rewriting(at, fd, NewRecord(nodeId, ttlMs, at)) && fd < |dir.files| && OnlyStale(at)
      requires CourseTo(nodeId, start, between, sofar, d, 5, dir.View())
      modifies dir
      ensures sofar <= course && CourseTo(nodeId, start, between, course, d, 8, dir.View())
      ensures StaysWhole(nodeId, sofar, course)
      ensures Finished(old(dir.View()), dir.View(), nodeId, r)
      ensures r.Ok? ==> !writeFails && Current(dir.View()) == Some(Written(r.value))
      ensures NobodyActs(between, d) && old(dir.path) == Some(fd) ==>
        dir.now == old(dir.now) && WroteOrLeft(dir.View(), nodeId, at, ttlMs, writeFails, r, None)
      ensures r.Err? ==> r.error in {LostRace, WriteError, Undecodable}
    {
      hide Next, Run, CourseTo, Current, Deadline;
      course := WriteOrDrop(at, fd, NewRecord(nodeId, ttlMs, at), writeFails, d, between, start, sofar);
      r, course := Conclude(at, !writeFails, WriteError, d, 7, between, start, course);
    }

    /**
     The middle of a reclaim: the stale record is out of the way, another node may step in first.
     */
    method TakeOver(at: int, ttlMs: int, writeFails: bool, d: nat, between: (nat, nat) -> seq<Step>,
                    ghost start: State, ghost sofar: seq<Piece>)
      returns (r: Result<LockRecord, LockError>, ghost course: seq<Piece>)
      requires Mine() == Moved(at, ttlMs) && OnlyStale(at)
      requires CourseTo(nodeId, start, between, sofar, d, 3, dir.View())
      modifies dir
      ensures sofar <= course && CourseTo(nodeId, start, between, course, d, 8, dir.View())
      ensures StaysWhole(nodeId, sofar, course)
      ensures Finished(old(dir.View()), dir.View(), nodeId, r)
      ensures r.Ok? ==> !writeFails && Current(dir.View()) == Some(Written(r.value))
      ensures NobodyActs(between, d) && old(dir.path).None? ==>
        dir.now == old(dir.now) && WroteOrLeft(dir.View(), nodeId, at, ttlMs, writeFails, r, None)
      ensures r.Err? ==> r.error in {LostRace, WriteError, Undecodable}
    {
      hide Next, Run, CourseTo, Current, Deadline, NewRecord, WroteOrLeft;
      course := Pause(d, 3, between, start, sofar);
      CourseStep(nodeId, start, between, course, d, 4, dir.View(), CreateAgain(nodeId));
      var fd := CreateInPlace(at, ttlMs);
      course := course + [Own(CreateAgain(nodeId))];
      course := Pause(d, 4, between, start, course);
      ghost var before := course;
      assert sofar <= before && StaysWhole(nodeId, sofar, before);
      hide StaysWhole;
      if fd.None? {
        r, course := Conclude(at, false, LostRace, d, 5, between, start, course);
      } else {
        r, course := FillAndConclude(at, ttlMs, fd.value, writeFails, d, between, start, course);
      }
      WholeChain(nodeId, sofar, before, course);
    }

    /**
     A lock file was there: it is looked at and, if its record was stale when the call began,
     renamed away. Ok(false) means that it was gone by then.
     */
    method Contend(at: int, ttlMs: int, d: nat, between: (nat, nat) -> seq<Step>, ghost start: State,
        ghost sofar: seq<Piece>)
      returns (moved: Result<bool, LockError>, ghost course: seq<Piece>)
      requires Mine() == Contending(at, ttlMs) && Tidy()
      requires CourseTo(nodeId, start, between, sofar, d, 2, dir.View())
      modifies dir
      ensures sofar <= course && CourseTo(nodeId, start, between, course, d, 3, dir.View())
      ensures StaysWhole(nodeId, sofar, course)
      ensures nodeId in dir.held <==> nodeId in old(dir.held)
      ensures nodeId in dir.held ==> dir.held[nodeId] == old(dir.held[nodeId])
      ensures if moved == Ok(true) then Mine() == Moved(at, ttlMs) && OnlyStale(at) else Mine() == Ready && Tidy()
      ensures match Current(old(dir.View()))
        case None => moved == Ok(false)
        case Some(Unwritten(_)) => moved == Err(Undecodable)
        case Some(Written(record)) => if IsStale(record, at) then moved.Ok? else moved == Err(LockedBy(record.nodeId))
      ensures NobodyActs(between, d) ==>
        && dir.now == old(dir.now) && dir.files == old(dir.files)
        && dir.path == (if moved == Ok(true) then None else old(dir.path))
        && (moved == Ok(false) ==> Current(old(dir.View())).None?)
    {
      hide Next, Run, CourseTo, Current, IsStale;
      CourseStep(nodeId, start, between, sofar, d, 2, dir.View(), Look(nodeId));
      moved := Inspect(at, ttlMs);
      course := sofar + [Own(Look(nodeId))];
      CourseSkip(nodeId, start, between, course, d, 2, dir.View(), 3);
      if moved == Ok(true) {
        course := Pause(d, 2, between, start, course);
        CourseStep(nodeId, start, between, course, d, 3, dir.View(), Rename(nodeId));
        var renamed := MoveAway(at, ttlMs);
        course := course + [Own(Rename(nodeId))];
        moved := Ok(renamed);
      }
    }

    /**
     Creates and writes the lock file if there is none; Ok(None) means that there is one. If the
     write raises, the file stays behind unwritten.
     */
    method CreateFirst(at: int, ttlMs: int, writeFails: bool, d: nat, between: (nat, nat) -> seq<Step>,
                       ghost start: State, ghost sofar: seq<Piece>)
      returns (r: Result<Option<LockRecord>, LockError>, ghost course: seq<Piece>)
      requires Mine() == Ready && Tidy() && at <= dir.now
      requires CourseTo(nodeId, start, between, sofar, d, 0, dir.View())
      modifies dir
      ensures CourseTo(nodeId, start, between, course, d, 2, dir.View())
      ensures course == sofar + [Wait(d, 0), Own(TryCreate(nodeId, ttlMs, at)), Wait(d, 1)]
        + if r == Ok(None) then [] else [Own(if writeFails then BreakOff(nodeId) else FinishWrite(nodeId))]
      ensures r == Ok(None) || r == if writeFails then Err(WriteError) else Ok(Some(NewRecord(nodeId, ttlMs, at)))
      ensures Tidy() && Mine() == if r == Ok(None) then Contending(at, ttlMs) else Ready
      ensures r.Ok? && r.value.Some? ==> nodeId in dir.held && dir.held[nodeId] == Deadline(r.value.value)
      ensures !(r.Ok? && r.value.Some?) ==>
        && (nodeId in dir.held <==> nodeId in old(dir.held))
        && (nodeId in dir.held ==> dir.held[nodeId] == old(dir.held[nodeId]))
      ensures NobodyActs(between, d) ==>
        && dir.now == old(dir.now) && (r == Ok(None) <==> old(dir.path).Some?)
        && dir.path == (if r == Ok(None) then old(dir.path) else Some(|old(dir.files)|))
        && dir.files == old(dir.files) + (if r == Ok(None) then []
             else [if writeFails then Unwritten(nodeId) else Written(NewRecord(nodeId, ttlMs, at))])
    {
      hide Next, Run, CourseTo, Deadline;
      course := Pause(d, 0, between, start, sofar);
      CourseStep(nodeId, start, between, course, d, 1, dir.View(), TryCreate(nodeId, ttlMs, at));
      var fd := Create(at, ttlMs);
      course := course + [Own(TryCreate(nodeId, ttlMs, at))];
      course := Pause(d, 1, between, start, course);
      if fd.None? {
        return Ok(None), course;
      }
      if writeFails {
        CourseStep(nodeId, start, between, course, d, 2, dir.View(), BreakOff(nodeId));
        GiveUp();
        course := course + [Own(BreakOff(nodeId))];
        return Err(WriteError), course;
      }
      var record := NewRecord(nodeId, ttlMs, at);
      CourseStep(nodeId, start, between, course, d, 2, dir.View(), FinishWrite(nodeId));
      Write(fd.value, record);
      course := course + [Own(FinishWrite(nodeId))];
      r := Ok(Some(record));
    }

    /**
     `_acquire_once`, with other nodes acting between any two of its system calls. A lock file
     that is gone when it is looked at or renamed makes the method call itself again. `writeFails`
     says whether the write of a record, should it come to that, raises.
     */
    method AcquireOnce(ttlMs: int, writeFails: bool, between: (nat, nat) -> seq<Step>, depth: nat,
                       ghost start: State, ghost sofar: seq<Piece>)
      returns (r: Result<LockRecord, LockError>, ghost course: seq<Piece>)
      requires Mine() == Ready && Tidy()
      requires CourseTo(nodeId, start, between, sofar, depth, 0, dir.View())
      modifies dir
      ensures sofar <= course && CourseTo(nodeId, start, between, course, 0, 8, dir.View())
      ensures !writeFails ==> StaysWhole(nodeId, sofar, course)
      ensures Finished(old(dir.View()), dir.View(), nodeId, r)
      ensures r.Ok? ==> !writeFails
      ensures sofar + [Wait(depth, 0), Own(TryCreate(nodeId, ttlMs, old(dir.now))), Wait(depth, 1)] <= course
      ensures r == Err(TooManyRetries) ==> WaitedInAll(course, depth)
      ensures NobodyActs(between, depth) && PathIsValid(old(dir.View())) ==>
        AloneOutcome(old(dir.View()), dir.View(), nodeId, ttlMs, writeFails, r)
      decreases depth, 1
    {
      hide Next, Run, CourseTo, Deadline, WaitedInAll;
      var at := dir.now;
      var first;
      first, course := CreateFirst(at, ttlMs, writeFails, depth, between, start, sofar);
      if first == Ok(None) {
        assert course[|sofar| + 2] == Wait(depth, 1);
        r, course := Compete(at, ttlMs, writeFails, between, depth, start, course);
      } else {
        CourseSkip(nodeId, start, between, course, depth, 2, dir.View(), 8);
        r := if first.Ok? then Ok(first.value.value) else Err(first.error);
      }
    }

    /** The call goes on with the lock file that is in the way. */
    method Compete(at: int, ttlMs: int, writeFails: bool, between: (nat, nat) -> seq<Step>, depth: nat,
                   ghost start: State, ghost sofar: seq<Piece>)
      returns (r: Result<LockRecord, LockError>, ghost course: seq<Piece>)
      requires Mine() == Contending(at, ttlMs) && Tidy()
      requires CourseTo(nodeId, start, between, sofar, depth, 2, dir.View()) && Wait(depth, 1) in sofar
      modifies dir
      ensures sofar <= course && CourseTo(nodeId, start, between, course, 0, 8, dir.View())
      ensures !writeFails ==> StaysWhole(nodeId, sofar, course)
      ensures Finished(old(dir.View()), dir.View(), nodeId, r)
      ensures r.Ok? ==> !writeFails
      ensures r == Err(TooManyRetries) ==> WaitedInAll(course, depth)
      ensures NobodyActs(between, depth) && at == old(dir.now) && Current(old(dir.View())).Some? ==>
        AloneOutcome(old(dir.View()), dir.View(), nodeId, ttlMs, writeFails, r)
      decreases depth, 0
    {
      hide Next, Run, CourseTo, Current, Deadline, WroteOrLeft;
      var moved;
      moved, course := Contend(at, ttlMs, depth, between, start, sofar);
      CourseSkip(nodeId, start, between, course, depth, 3, dir.View(), 8);
      if moved.Err? {
        return Err(moved.error), course;
      }
      if moved.value {
        r, course := TakeOver(at, ttlMs, writeFails, depth, between, start, course);
        CourseSkip(nodeId, start, between, course, depth, 8, dir.View(), 8);
      } else if depth == 0 {
        r := Err(TooManyRetries);
      } else {
        CourseSkip(nodeId, start, between, course, depth, 3, dir.View(), 3);
        r, course := AcquireOnce(ttlMs, writeFails, between, depth - 1, start, course);
      }
    }

    /** The read of a heartbeat: a record of this node, or a stale one, may be replaced. */
    method LookToReplace(ttlMs: int) returns (verdict: Result<LockRecord, LockError>)
      requires Mine() == Ready
      modifies dir
      ensures dir.View() == Next(old(dir.View()), ReadToReplace(nodeId, ttlMs))
      ensures verdict == match Current(old(dir.View()))
        case None => Err(LockNotFound)
        case Some(Unwritten(_)) => Err(Undecodable)
        case Some(Written(record)) =>
          if record.nodeId != nodeId && !IsStale(record, old(dir.now)) then Err(LockedBy(record.nodeId)) else Ok(record)
      ensures verdict.Ok? ==> Mine() == WillReplace(old(dir.path).value, verdict.value, ttlMs)
      ensures verdict.Err? ==> dir.View() == old(dir.View())
    {
      var content := dir.Read();
      if content.None? {
        return Err(LockNotFound);
      }
      if content.value.Unwritten? {
        return Err(Undecodable);
      }
      var record := content.value.record;
      if record.nodeId != nodeId && !IsStale(record, dir.now) {
        return Err(LockedBy(record.nodeId));
      }
      dir.Enter(nodeId, WillReplace(dir.path.value, record, ttlMs));
      verdict := Ok(record);
    }

    method PutRenewed(record: LockRecord, ttlMs: int) returns (renewed: LockRecord)
      requires Mine().WillReplace? && Mine().record == record && Mine().ttlMs == ttlMs
      modifies dir
      ensures dir.View() == Next(old(dir.View()), Replace(nodeId, old(dir.now)))
      ensures renewed == Renewed(record, nodeId, ttlMs, dir.now) && dir.now == old(dir.now)
      ensures Current(dir.View()) == Some(Written(renewed))
    {
      renewed := Renewed(record, nodeId, ttlMs, dir.now);
      dir.ReplaceLock(renewed);
      dir.Enter(nodeId, Ready);
      dir.held := dir.held[nodeId := Deadline(renewed)];
    }

    /** `heartbeat`: read, then replace; the caller gets the record that was written. */
    method Heartbeat(ttlMs: int, others: seq<Step>) returns (r: Result<LockRecord, LockError>)
      requires Mine() == Ready && NotBy(nodeId, others)
      modifies dir
      ensures match Current(old(dir.View()))
        case None => r == Err(LockNotFound) && dir.View() == old(dir.View())
        case Some(Unwritten(_)) => r == Err(Undecodable) && dir.View() == old(dir.View())
        case Some(Written(record)) =>
          if record.nodeId != nodeId && !IsStale(record, old(dir.now))
          then r == Err(LockedBy(record.nodeId)) && dir.View() == old(dir.View())
          else
            && r == Ok(LockRecord(nodeId, record.acquiredAt, ttlMs, dir.now))
            && dir.View() == Run(old(dir.View()), [ReadToReplace(nodeId, ttlMs)] + others + [Replace(nodeId, dir.now)])
            && Current(dir.View()) == Some(Written(r.value))
    {
      hide Next;
      hide Run;
      ghost var start := dir.View();
      var verdict := LookToReplace(ttlMs);
      if verdict.Err? {
        return Err(verdict.error);
      }
      RunOne(start, ReadToReplace(nodeId, ttlMs));
      ghost var steps := WaitFor(others, start, [ReadToReplace(nodeId, ttlMs)]);
      var renewed := PutRenewed(verdict.value, ttlMs);
      RunSnoc(start, steps, Replace(nodeId, dir.now));
      r := Ok(renewed);
    }

    /** The read of a release: Ok(true) means the lock file may be unlinked, Ok(false) that there is none. */
    method LookToUnlink(force: bool) returns (verdict: Result<bool, LockError>)
      requires Mine() == Ready
      modifies dir
      ensures dir.View() == Next(old(dir.View()), ReadToUnlink(nodeId, force))
      ensures verdict == match Current(old(dir.View()))
        case None => Ok(false)
        case Some(Unwritten(_)) => Err(Undecodable)
        case Some(Written(record)) =>
          if !force && record.nodeId != nodeId && !IsStale(record, old(dir.now))
          then Err(LockedBy(record.nodeId))
          else Ok(true)
      ensures verdict == Ok(true) ==> Mine().WillUnlink?
      ensures dir.path == old(dir.path) && dir.files == old(dir.files)
    {
      dir.held := dir.held - {nodeId};
      var content := dir.Read();
      if content.None? {
        return Ok(false);
      }
      if content.value.Unwritten? {
        return Err(Undecodable);
      }
      var record := content.value.record;
      if !force && record.nodeId != nodeId && !IsStale(record, dir.now) {
        return Err(LockedBy(record.nodeId));
      }
      dir.Enter(nodeId, WillUnlink(dir.path.value, record));
      verdict := Ok(true);
    }

    method Remove()
      requires Mine().WillUnlink?
      modifies dir
      ensures dir.View() == Next(old(dir.View()), Unlink(nodeId)) && dir.path == None && Mine() == Ready
    {
      dir.UnlinkLock();
      dir.Enter(nodeId, Ready);
    }

    /** `release`: read, then unlink unless the record is another node's and fresh. */
    method Release(force: bool, others: seq<Step>) returns (r: Result<(), LockError>)
      requires Mine() == Ready && NotBy(nodeId, others)
      modifies dir
      ensures var content := Current(old(dir.View()));
        if content.Some? && content.value.Written?
          && (force || content.value.record.nodeId == nodeId || IsStale(content.value.record, old(dir.now)))
        then
          && r == Ok(()) && dir.path == None
          && dir.View() == Run(old(dir.View()), [ReadToUnlink(nodeId, force)] + others + [Unlink(nodeId)])
        else
          && dir.View() == Next(old(dir.View()), ReadToUnlink(nodeId, force))
          && dir.path == old(dir.path) && dir.files == old(dir.files)
          && r == match content
             case None => Ok(())
             case Some(Unwritten(_)) => Err(Undecodable)
             case Some(Written(record)) => Err(LockedBy(record.nodeId))
    {
      hide Next;
      hide Run;
      ghost var start := dir.View();
      var verdict := LookToUnlink(force);
      if verdict.Err? {
        return Err(verdict.error);
      }
      if !verdict.value {
        return Ok(());
      }
      RunOne(start, ReadToUnlink(nodeId, force));
      ghost var steps := WaitFor(others, start, [ReadToUnlink(nodeId, force)]);
      Remove();
      RunSnoc(start, steps, Unlink(nodeId));
      r := Ok(());
    }
  }
}
