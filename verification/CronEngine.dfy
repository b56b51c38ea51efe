/**
Admission of scheduled jobs (src/cron_engine.py, `_execute_job_wrapper`): the semaphore, the
shedding of low-priority jobs under pressure, and the ledger entries that tell what became of
every trigger. A step runs from one await to the next.
*/
module CronEngines {
  import opened Collections
  import opened LedgerEntries
  import opened LedgerStorage
  import opened OpsLedgers
  import opened Semaphores
  import opened Wrappers

  datatype Job = Job(id: string, name: string, payloadKind: string, enabled: bool, priority: int, deleteAfterRun: bool)

  /** Jobs below this priority are dropped when no slot is free. */
  const KEEP_PRIORITY := 30

  /** An error of the database: the call raises before its effect, or after it. */
  datatype Fault = Fine | Refused | AnswerLost

  /** What the ledger calls of one step meet, in order: the times of their clock, and errors. */
  datatype Env = Env(t0: int, t1: int, t2: int, f0: Fault, f1: Fault, f2: Fault)

  predicate AllFine(env: Env) {
    env.f0.Fine? && env.f1.Fine? && env.f2.Fine?
  }

  /** What became of a trigger of an enabled job; Aborted: a ledger call raised. */
  datatype Phase =
    | Queued(job: Job)
    | Executing(job: Job, entry: string)
    | Finished(entry: string, failed: bool)
    | Shed(entry: string)
    | Aborted

  /** A ledger call that the engine made for a trigger, and whether it succeeded. */
  datatype Logged = Logged(ticket: nat, call: Call, ok: bool)

  /** Besides the engine's own fields: the phase of each trigger, who ever queued, and all calls made. */
  datatype State = State(
    sem: Sem,
    jobs: map<string, Job>,
    table: Table,
    phase: map<nat, Phase>,
    queued: seq<nat>,
    log: seq<Logged>)

  datatype Step =
    | Trigger(ticket: nat, jobId: string, entry: string, env: Env)
    | Resume(ticket: nat, entry: string, env: Env)
    | Finish(ticket: nat, result: Option<Dict>, error: string, env: Env)  // None: the payload raised
    | AddJob(job: Job)
    | RemoveJob(jobId: string)
    | Other(call: Call)  // a statement of anybody else on the shared ledger

  function ExecRow(job: Job, entry: string, now: int): LedgerEntry {
    LedgerEntry(entry, "cron_job_exec", Pending, map[], now, now, None,
                map["job_id" := job.id, "job_name" := job.name, "payload_kind" := job.payloadKind], None)
  }

  function SkipRow(job: Job, entry: string, now: int): LedgerEntry {
    LedgerEntry(entry, "cron_job_skipped", Pending, map[], now, now, None,
                map["job_id" := job.id, "job_name" := job.name, "reason" := "Backpressure"], None)
  }

  const SKIPPED: Dict := map["status" := "skipped"]

  /** The statement of a call, and whether it returns. */
  function Issue(st: State, ticket: nat, call: Call, fault: Fault): (State, bool) {
    var (table, done) := if fault.Refused? then (st.table, false) else Apply(st.table, call);
    var ok := done && fault.Fine?;
    (st.(table := table, log := st.log + [Logged(ticket, call, ok)]), ok)
  }

  /** Creates an entry and moves it to running. */
  function Open(st: State, ticket: nat, row: LedgerEntry, env: Env): (State, bool) {
    var (created, ok) := Issue(st, ticket, Create(row), env.f0);
    if !ok then (created, false)
    else Issue(created, ticket, Move(row.id, Running, None, None, env.t1), env.f1)
  }

  /** From `async with` to the await of the payload. */
  function Begin(st: State, ticket: nat, job: Job, entry: string, env: Env): State {
    var (started, ok) := Open(st, ticket, ExecRow(job, entry, env.t0), env);
    if ok then started.(phase := started.phase[ticket := Executing(job, entry)])
    else started.(phase := started.phase[ticket := Aborted], sem := Release(started.sem))
  }

  function Drop(st: State, ticket: nat, job: Job, entry: string, env: Env): State {
    var (started, ok) := Open(st, ticket, SkipRow(job, entry, env.t0), env);
    if !ok then started.(phase := started.phase[ticket := Aborted])
    else
      var (closed, done) := Issue(started, ticket, Move(entry, Completed, Some(SKIPPED), None, env.t2), env.f2);
      closed.(phase := closed.phase[ticket := if done then Shed(entry) else Aborted])
  }

  /** `mark_failed`, then the rest of the body, then the slot is given back. */
  function Fail(st: State, ticket: nat, job: Job, entry: string, error: string, now: int, fault: Fault): State {
    var (failed, ok) := Issue(st, ticket, Move(entry, Failed, None, Some(error), now), fault);
    Close(failed, ticket, job, if ok then Finished(entry, true) else Aborted)
  }

  function Close(st: State, ticket: nat, job: Job, phase: Phase): State {
    st.(
      phase := st.phase[ticket := phase],
      jobs := if job.deleteAfterRun && phase != Aborted then st.jobs - {job.id} else st.jobs,
      sem := Release(st.sem))
  }

  /** From the end of the payload to the end of the wrapper. */
  function End(st: State, ticket: nat, job: Job, entry: string, result: Option<Dict>, error: string,
      env: Env): State {
    if result.None? then Fail(st, ticket, job, entry, error, env.t0, env.f0)
    else
      var (completed, ok) := Issue(st, ticket, Move(entry, Completed, result, None, env.t0), env.f0);
      if ok then Close(completed, ticket, job, Finished(entry, false))
      else Fail(completed, ticket, job, entry, error, env.t1, env.f1)
  }

  predicate Runnable(st: State, jobId: string) {
    jobId in st.jobs && st.jobs[jobId].enabled
  }

  function OnTrigger(st: State, ticket: nat, job: Job, entry: string, env: Env): State {
    if Locked(st.sem) && job.priority < KEEP_PRIORITY then Drop(st, ticket, job, entry, env)
    else if !Locked(st.sem) then Begin(st.(sem := Take(st.sem)), ticket, job, entry, env)
    else st.(sem := Join(st.sem, ticket), queued := st.queued + [ticket], phase := st.phase[ticket := Queued(job)])
  }

  /** One step; tickets name the triggers, so a trigger has a new one. */
  function Next(st: State, step: Step): State {
    match step
    case Trigger(ticket, jobId, entry, env) =>
      if Runnable(st, jobId) && ticket !in st.phase then OnTrigger(st, ticket, st.jobs[jobId], entry, env) else st
    case Resume(ticket, entry, env) =>
      if ticket in st.sem.granted && ticket in st.phase && st.phase[ticket].Queued?
      then Begin(st.(sem := Leave(st.sem, ticket)), ticket, st.phase[ticket].job, entry, env)
      else st
    case Finish(ticket, result, error, env) =>
      if ticket in st.phase && st.phase[ticket].Executing?
      then End(st, ticket, st.phase[ticket].job, st.phase[ticket].entry, result, error, env)
      else st
    case AddJob(job) => st.(jobs := st.jobs[job.id := job])
    case RemoveJob(jobId) => st.(jobs := st.jobs - {jobId})
    case Other(call) => st.(table := Apply(st.table, call).0)
  }

  function Initial(max: nat, jobs: map<string, Job>, table: Table): State {
    State(Sem(max, [], []), jobs, table, map[], [], [])
  }

  function RunSteps(st: State, steps: seq<Step>): State {
    if steps == [] then st else Next(RunSteps(st, steps[..|steps| - 1]), steps[|steps| - 1])
  }

  // What is taken for granted of the steps.

  predicate HasEntry(phase: Phase) {
    phase.Executing? || phase.Finished? || phase.Shed?
  }

  ghost predicate IsOurs(phase: map<nat, Phase>, entry: string) {
    exists t :: t in phase && HasEntry(phase[t]) && phase[t].entry == entry
  }

  /** New uuids name no row and no earlier entry of the engine. */
  ghost predicate NewId(st: State, entry: string) {
    entry !in st.table && !IsOurs(st.phase, entry)
  }

  function CallId(call: Call): string {
    match call
    case Create(e) => e.id
    case Import(e) => e.id
    case Move(id, _, _, _, _) => id
    case SetProgress(id, _, _) => id
    case Remove(id) => id
  }

  /** Others leave the entry of an executing job alone, and never insert under an id of the engine's. */
  ghost predicate Respects(st: State, call: Call) {
    && (forall t :: t in st.phase && st.phase[t].Executing? ==> CallId(call) != st.phase[t].entry)
    && (call.Create? || call.Import? ==> !IsOurs(st.phase, call.entry.id))
  }

  /**
   The hypothesis for the ledger: new ids are new, others respect the entries, and the database
   raises no error. Slots and queue need none.
   */
  ghost predicate Plausible(st: State, step: Step) {
    match step
    case Trigger(_, _, entry, env) => NewId(st, entry) && AllFine(env)
    case Resume(_, entry, env) => NewId(st, entry) && AllFine(env)
    case Finish(_, _, _, env) => AllFine(env)
    case Other(call) => Respects(st, call)
    case _ => true
  }

  ghost predicate PlausibleRun(st: State, steps: seq<Step>) {
    steps == [] ||
    var n := |steps| - 1;
    PlausibleRun(st, steps[..n]) && Plausible(RunSteps(st, steps[..n]), steps[n])
  }

  // What every step keeps.

  function ExecutingSet(phase: map<nat, Phase>): set<nat> {
    set t | t in phase && phase[t].Executing?
  }

  /** Every slot is free, promised to a woken waiter, or in use; and no sleeper is overlooked. */
  ghost predicate SlotsAddUp(sem: Sem, phase: map<nat, Phase>, max: nat) {
    Unused(sem) + |ExecutingSet(phase)| == max && Served(sem)
  }

  /** The queue holds exactly the queued triggers, none of low priority; sleepers are its latest arrivals, in order. */
  ghost predicate QueueIsFair(sem: Sem, phase: map<nat, Phase>, queued: seq<nat>) {
    && Distinct(sem.granted + sem.waiting)
    && (forall t :: t in sem.granted + sem.waiting <==> t in phase && phase[t].Queued?)
    && (forall t :: t in phase && phase[t].Queued? ==> phase[t].job.priority >= KEEP_PRIORITY)
    && Distinct(queued) && (forall t :: t in queued ==> t in phase)
    && |sem.waiting| <= |queued|
    && sem.waiting == queued[|queued| - |sem.waiting|..]
  }

  /** Rows of executing jobs are running; rows of shed and completed triggers, if still there, are completed. */
  ghost predicate RowsAgree(table: Table, phase: map<nat, Phase>) {
    && WellKeyed(table)
    && (forall t, u :: t in phase && u in phase && t != u && HasEntry(phase[t]) && HasEntry(phase[u])
          ==> phase[t].entry != phase[u].entry)
    && (forall t :: t in phase ==> RowAgrees(table, phase[t]))
  }

  predicate RowAgrees(table: Table, phase: Phase) {
    match phase
    case Executing(_, e) => e in table && table[e].status == Running && table[e].action == "cron_job_exec"
    case Finished(e, failed) => !failed && e in table ==> table[e].status == Completed
    case Shed(e) => e in table ==> table[e].status == Completed
    case _ => true
  }

  /** The calls made for one trigger. */
  function CallsOf(log: seq<Logged>, ticket: nat): seq<Logged> {
    if log == [] then []
    else
      var last := log[|log| - 1];
      CallsOf(log[..|log| - 1], ticket) + (if last.ticket == ticket then [last] else [])
  }

  predicate Opened(calls: seq<Logged>, entry: string, action: string) {
    && |calls| >= 2
    && calls[0].call.Create? && calls[0].call.entry.id == entry
    && calls[0].call.entry.action == action && calls[0].call.entry.status == Pending
    && calls[1].call.Move? && calls[1].call.id == entry && calls[1].call.to == Running
  }

  predicate MovesTo(logged: Logged, entry: string, to: Status) {
    logged.call.Move? && logged.call.id == entry && logged.call.to == to
  }

  /** The ledger calls that belong to a phase. */
  predicate Tells(calls: seq<Logged>, phase: Phase) {
    && (forall i :: 0 <= i < |calls| ==> calls[i].ok)
    && match phase
       case Queued(_) => calls == []
       case Executing(_, e) => |calls| == 2 && Opened(calls, e, "cron_job_exec")
       case Finished(e, failed) =>
         |calls| == 3 && Opened(calls, e, "cron_job_exec") && MovesTo(calls[2], e, if failed then Failed else Completed)
       case Shed(e) => |calls| == 3 && Opened(calls, e, "cron_job_skipped") && MovesTo(calls[2], e, Completed)
       case Aborted => false
  }

  /** Each trigger that was admitted or shed has one entry, created, started and ended by legal calls,
      and nothing else. */
  ghost predicate LogTells(log: seq<Logged>, phase: map<nat, Phase>) {
    forall t :: if t in phase then Tells(CallsOf(log, t), phase[t]) else CallsOf(log, t) == []
  }

  /** Admission: what holds in every run, whatever becomes of the ledger calls. */
  ghost predicate SlotInv(st: State, max: nat) {
    SlotsAddUp(st.sem, st.phase, max) && QueueIsFair(st.sem, st.phase, st.queued)
  }

  /** Admission and records: what holds in plausible runs. */
  ghost predicate Inv(st: State, max: nat) {
    && SlotInv(st, max)
    && RowsAgree(st.table, st.phase)
    && LogTells(st.log, st.phase)
  }

  /** Creating and starting an entry under a new id succeeds. */
  lemma OpenEffect(st: State, ticket: nat, row: LedgerEntry, env: Env)
    requires row.id !in st.table && row.status == Pending && env.f0.Fine? && env.f1.Fine?
    ensures var (started, ok) := Open(st, ticket, row, env);
      && ok
      && started == st.(
        table := st.table[row.id := MovedRow(row, Running, None, None, env.t1)],
        log := st.log + [Logged(ticket, Create(row), true),
          Logged(ticket, Move(row.id, Running, None, None, env.t1), true)])
  {
    hide Updated, MoveUpdates, AllowedOldStatuses;
    MoveResult(st.table[row.id := row], row.id, Running, None, None, env.t1);
    assert st.table[row.id := row][row.id := MovedRow(row, Running, None, None, env.t1)]
        == st.table[row.id := MovedRow(row, Running, None, None, env.t1)];
  }

  /** Dropping a job under a new id succeeds. */
  lemma DropEffect(st: State, ticket: nat, job: Job, entry: string, env: Env)
    requires entry !in st.table && AllFine(env)
    ensures var row := SkipRow(job, entry, env.t0);
      var final := MovedRow(MovedRow(row, Running, None, None, env.t1), Completed, Some(SKIPPED), None, env.t2);
      Drop(st, ticket, job, entry, env) == st.(
        table := st.table[entry := final],
        phase := st.phase[ticket := Shed(entry)],
        log := st.log + [Logged(ticket, Create(row), true),
          Logged(ticket, Move(entry, Running, None, None, env.t1), true),
                         Logged(ticket, Move(entry, Completed, Some(SKIPPED), None, env.t2), true)])
  {
    hide Apply, Open;
    var row := SkipRow(job, entry, env.t0);
    OpenEffect(st, ticket, row, env);
    var (started, _) := Open(st, ticket, row, env);
    MoveResult(started.table, entry, Completed, Some(SKIPPED), None, env.t2);
    var two := [Logged(ticket, Create(row), true), Logged(ticket, Move(entry, Running, None, None, env.t1), true)];
    var third := Logged(ticket, Move(entry, Completed, Some(SKIPPED), None, env.t2), true);
    assert (st.log + two) + [third] == st.log + (two + [third]);
  }

  /** The move that ends an executing job succeeds. */
  lemma EndEffect(st: State, ticket: nat, job: Job, entry: string, result: Option<Dict>, error: string, env: Env)
    requires entry in st.table && st.table[entry].status == Running && env.f0.Fine?
    ensures var failed := result.None?;
      var status := if failed then Failed else Completed;
      var failure := if failed then Some(error) else None;
      End(st, ticket, job, entry, result, error, env)
      == Close(st.(table := st.table[entry := MovedRow(st.table[entry], status, result, failure, env.t0)],
                   log := st.log + [Logged(ticket, Move(entry, status, result, failure, env.t0), true)]),
               ticket, job, Finished(entry, failed))
  {
    hide Apply, Close;
    MoveResult(st.table, entry, Completed, result, None, env.t0);
    MoveResult(st.table, entry, Failed, None, Some(error), env.t0);
  }

  // The slots.

  lemma ExecutingChange(phase: map<nat, Phase>, ticket: nat, now: Phase)
    ensures |ExecutingSet(phase[ticket := now])| + (if ticket in phase && phase[ticket].Executing? then 1 else 0)
         == |ExecutingSet(phase)| + (if now.Executing? then 1 else 0)
  {
    var rest := ExecutingSet(phase) - {ticket};
    assert ExecutingSet(phase[ticket := now]) == if now.Executing? then rest + {ticket} else rest;
    assert ExecutingSet(phase) == if ticket in ExecutingSet(phase) then rest + {ticket} else rest;
  }

  lemma SemaphoreCounts(s: Sem, ticket: nat)
    requires Served(s)
    ensures !Locked(s) ==> Unused(Take(s)) == Unused(s) - 1 && Served(Take(s))
    ensures Locked(s) ==> Unused(Join(s, ticket)) == Unused(s) && Served(Join(s, ticket))
    ensures ticket in s.granted ==> Unused(Leave(s, ticket)) == Unused(s) - 1 && Served(Leave(s, ticket))
    ensures Unused(Release(s)) == Unused(s) + 1 && Served(Release(s))
  {
    hide Without;
  }

  // The queue.

  /** Waking moves tickets from the sleepers to the woken; the line stays the same. */
  lemma WakingKeepsLine(s: Sem)
    ensures Release(s).granted + Release(s).waiting == s.granted + s.waiting
    ensures GrantAll(s).granted + GrantAll(s).waiting == s.granted + s.waiting
  {
  }

  lemma WakingShortensLine(s: Sem)
    ensures GrantAll(s).waiting == s.waiting[Least(s.value, |s.waiting|)..]
  {
  }

  lemma SuffixOfSuffix(queued: seq<nat>, waiting: seq<nat>, n: nat)
    requires |waiting| <= |queued| && waiting == queued[|queued| - |waiting|..] && n <= |waiting|
    ensures waiting[n..] == queued[|queued| - |waiting[n..]|..]
  {
  }

  lemma QueueAfterRelease(st: State, ticket: nat, now: Phase)
    requires QueueIsFair(st.sem, st.phase, st.queued) && !now.Queued?
      && (ticket in st.phase ==> !st.phase[ticket].Queued?)
    ensures QueueIsFair(Release(st.sem), st.phase[ticket := now], st.queued)
    ensures QueueIsFair(st.sem, st.phase[ticket := now], st.queued)
  {
    hide QueueIsFair, Release;
    WakingKeepsLine(st.sem);
    ReleaseShortensLine(st.sem);
    QueueRearranged(st, Release(st.sem), if st.sem.waiting == [] then 0 else 1, ticket, now);
    QueueRearranged(st, st.sem, 0, ticket, now);
  }

  lemma ReleaseShortensLine(s: Sem)
    ensures Release(s).waiting == s.waiting[if s.waiting == [] then 0 else 1..]
  {
  }

  /** The queue stays fair when its first sleepers are woken and a trigger outside it changes its phase. */
  lemma QueueRearranged(st: State, sem: Sem, woken: nat, ticket: nat, now: Phase)
    requires QueueIsFair(st.sem, st.phase, st.queued) && !now.Queued?
      && (ticket in st.phase ==> !st.phase[ticket].Queued?)
    requires woken <= |st.sem.waiting| && sem.waiting == st.sem.waiting[woken..]
    requires sem.granted + sem.waiting == st.sem.granted + st.sem.waiting
    ensures QueueIsFair(sem, st.phase[ticket := now], st.queued)
  {
    SuffixOfSuffix(st.queued, st.sem.waiting, woken);
  }

  lemma QueueAfterLeave(st: State, ticket: nat, now: Phase)
    requires QueueIsFair(st.sem, st.phase, st.queued) && ticket in st.sem.granted && !now.Queued?
    ensures QueueIsFair(Leave(st.sem, ticket), st.phase[ticket := now], st.queued)
  {
    hide Without, GrantAll;
    var left := st.sem.(granted := Without(st.sem.granted, ticket));
    WakingKeepsLine(left);
    var n := Least(left.value, |left.waiting|);
    SuffixOfSuffix(st.queued, st.sem.waiting, n);
    WakingShortensLine(left);
    LineWithout(st.sem.granted, st.sem.waiting, ticket);
  }

  lemma LineWithout(granted: seq<nat>, waiting: seq<nat>, ticket: nat)
    requires Distinct(granted + waiting) && ticket in granted
    ensures Distinct(Without(granted, ticket) + waiting)
    ensures forall t :: t in Without(granted, ticket) + waiting <==> t in granted + waiting && t != ticket
  {
    hide Without;
    var line := granted + waiting;
    var i :| 0 <= i < |granted| && granted[i] == ticket;
    assert forall j :: 0 <= j < |granted| ==> line[j] == granted[j];
    WithoutAt(granted, ticket, i);
    WithoutAt(line, ticket, i);
    assert line[..i] + line[i + 1..] == (granted[..i] + granted[i + 1..]) + waiting;
    WithoutOne(line, ticket);
  }

  lemma QueueAfterJoin(st: State, ticket: nat, job: Job)
    requires QueueIsFair(st.sem, st.phase, st.queued) && ticket !in st.phase && job.priority >= KEEP_PRIORITY
    ensures QueueIsFair(Join(st.sem, ticket), st.phase[ticket := Queued(job)], st.queued + [ticket])
  {
    assert st.sem.granted + (st.sem.waiting + [ticket]) == (st.sem.granted + st.sem.waiting) + [ticket];
    assert ticket !in st.sem.granted + st.sem.waiting;
  }

  // Slots and queue step by step, with no hypothesis.

  /** An entry is created and started exactly if its id is new and the database raises no error. */
  predicate Opens(table: Table, entry: string, env: Env) {
    entry !in table && env.f0.Fine? && env.f1.Fine?
  }

  lemma OpenOutcome(st: State, ticket: nat, row: LedgerEntry, env: Env)
    requires row.status == Pending
    ensures var (started, ok) := Open(st, ticket, row, env);
      && (ok <==> Opens(st.table, row.id, env))
      && started == st.(table := started.table, log := started.log)
      && (ok ==> row.id in started.table && started.table[row.id].status == Running)
  {
    if Opens(st.table, row.id, env) {
      OpenEffect(st, ticket, row, env);
    }
  }

  /** A wrapper that begins executes if its entry is opened; otherwise it ends, and its slot is given back. */
  lemma BeginOutcome(st: State, ticket: nat, job: Job, entry: string, env: Env)
    ensures var after := Begin(st, ticket, job, entry, env);
      && after.queued == st.queued && after.jobs == st.jobs
      && if Opens(st.table, entry, env)
         then
           && after.phase == st.phase[ticket := Executing(job, entry)] && after.sem == st.sem
           && after.table == st.table[entry := LedgerEntry(entry, "cron_job_exec", Running, map[], env.t0, env.t1, None,
                map["job_id" := job.id, "job_name" := job.name, "payload_kind" := job.payloadKind], None)]
         else after.phase == st.phase[ticket := Aborted] && after.sem == Release(st.sem)
  {
    hide Release, Open, Opens;
    OpenOutcome(st, ticket, ExecRow(job, entry, env.t0), env);
    if Opens(st.table, entry, env) {
      OpenedTable(st, ticket, ExecRow(job, entry, env.t0), env);
    }
  }

  lemma OpenedTable(st: State, ticket: nat, row: LedgerEntry, env: Env)
    requires row.status == Pending && row.lastError.None? && Opens(st.table, row.id, env)
    ensures Open(st, ticket, row, env).0.table == st.table[row.id := row.(status := Running, updatedAt := env.t1)]
  {
    hide Open;
    OpenEffect(st, ticket, row, env);
  }

  lemma DropOutcome(st: State, ticket: nat, job: Job, entry: string, env: Env)
    ensures var after := Drop(st, ticket, job, entry, env);
      && after.queued == st.queued && after.jobs == st.jobs && after.sem == st.sem
      && after.phase == st.phase[ticket := if Opens(st.table, entry, env) && env.f2.Fine? then Shed(entry) else Aborted]
      && (Opens(st.table, entry, env) && env.f2.Fine? ==>
          after.table == st.table[entry := LedgerEntry(entry, "cron_job_skipped", Completed,
            map["status" := "skipped"], env.t0, env.t2, None,
            map["job_id" := job.id, "job_name" := job.name, "reason" := "Backpressure"], None)])
  {
    hide Open, Opens, Apply;
    var row := SkipRow(job, entry, env.t0);
    OpenOutcome(st, ticket, row, env);
    if Opens(st.table, entry, env) {
      OpenedTable(st, ticket, row, env);
    }
    MoveResult(Open(st, ticket, row, env).0.table, entry, Completed, Some(SKIPPED), None, env.t2);
  }

  /** Whether an executing wrapper can end without its ledger calls raising. */
  predicate Closes(status: Status, result: Option<Dict>, env: Env) {
    if result.None? then status in {Pending, Running} && env.f0.Fine?
    else
      || (status == Running && env.f0.Fine?)
      || (status == Running && env.f0.Refused? && env.f1.Fine?)
      || (status == Pending && env.f1.Fine?)
  }

  /** How an executing wrapper ends. */
  function Outcome(table: Table, entry: string, result: Option<Dict>, env: Env): Phase {
    if entry !in table || !Closes(table[entry].status, result, env) then Aborted
    else Finished(entry, result.None? || !(table[entry].status == Running && env.f0.Fine?))
  }

  /** However a payload and the ledger calls behind it end, the slot is given back once. */
  lemma EndOutcome(st: State, ticket: nat, job: Job, entry: string, result: Option<Dict>, error: string, env: Env)
    ensures var after := End(st, ticket, job, entry, result, error, env);
      && after.queued == st.queued && after.sem == Release(st.sem)
      && after.phase == st.phase[ticket := Outcome(st.table, entry, result, env)]
      && after.jobs == (if job.deleteAfterRun && !Outcome(st.table, entry, result, env).Aborted? then st.jobs - {job.id}
                        else st.jobs)
  {
    hide Apply, Release;
    MoveResult(st.table, entry, Completed, result, None, env.t0);
    MoveResult(st.table, entry, Failed, None, Some(error), env.t0);
    MoveResult(st.table, entry, Failed, None, Some(error), env.t1);
    var completed := Apply(st.table, Move(entry, Completed, result, None, env.t0)).0;
    MoveResult(completed, entry, Failed, None, Some(error), env.t1);
  }

  /** What the row of an ended trigger says. */
  lemma EndedRowTells(st: State, ticket: nat, job: Job, entry: string, result: Option<Dict>, error: string, env: Env)
    ensures var after := End(st, ticket, job, entry, result, error, env);
      && (Outcome(st.table, entry, result, env) == Finished(entry, false) ==> result.Some? && after.table == st.table[
            entry := st.table[entry].(status := Completed, updatedAt := env.t0, checkpoint := result.value,
              lastError := None)])
      && (Outcome(st.table, entry, result, env) == Finished(entry, true) ==> after.table == st.table[
            entry := st.table[entry].(status := Failed, updatedAt := if result.Some? then env.t1 else env.t0,
              lastError := Some(error))])
  {
    hide Apply, Release;
    MoveResult(st.table, entry, Completed, result, None, env.t0);
    MoveResult(st.table, entry, Failed, None, Some(error), env.t0);
    MoveResult(st.table, entry, Failed, None, Some(error), env.t1);
  }

  /** The handler makes up for a completion that cannot be written: the entry is marked failed instead. */
  lemma RefusedCompletionIsMarkedFailed(st: State, ticket: nat, job: Job, entry: string, result: Dict, error: string,
                                        env: Env)
    requires entry in st.table && st.table[entry].status == Running && env.f0.Refused? && env.f1.Fine?
    ensures var after := End(st, ticket, job, entry, Some(result), error, env);
      && after.phase == st.phase[ticket := Finished(entry, true)]
      && after.table[entry].status == Failed && after.table[entry].lastError == Some(error)
  {
    hide End;
    EndOutcome(st, ticket, job, entry, Some(result), error, env);
    EndedRowTells(st, ticket, job, entry, Some(result), error, env);
  }

  lemma SlotsAfterBegin(st: State, max: nat, sem: Sem, ticket: nat, now: Phase)
    requires SlotInv(st, max) && now.Executing?
    requires if ticket in st.phase
      then st.phase[ticket].Queued? && ticket in st.sem.granted && sem == Leave(st.sem, ticket)
      else !Locked(st.sem) && sem == Take(st.sem)
    ensures SlotInv(st.(sem := sem, phase := st.phase[ticket := now]), max)
  {
    hide Leave, Take, Unused, Served, QueueIsFair, ExecutingSet, Locked;
    SemaphoreCounts(st.sem, ticket);
    ExecutingChange(st.phase, ticket, now);
    if ticket in st.phase {
      QueueAfterLeave(st, ticket, now);
    } else {
      QueueAfterTake(st, ticket, now);
    }
  }

  lemma BeginKeepsSlots(st: State, max: nat, sem: Sem, ticket: nat, job: Job, entry: string, env: Env)
    requires SlotInv(st, max)
    requires if ticket in st.phase
      then st.phase[ticket].Queued? && ticket in st.sem.granted && sem == Leave(st.sem, ticket)
      else !Locked(st.sem) && sem == Take(st.sem)
    ensures SlotInv(Begin(st.(sem := sem), ticket, job, entry, env), max)
  {
    hide Begin, Leave, Take, Release, SlotsAddUp, QueueIsFair, Locked, Opens;
    var now := Executing(job, entry);
    BeginOutcome(st.(sem := sem), ticket, job, entry, env);
    SlotsAfterBegin(st, max, sem, ticket, now);
    if !Opens(st.table, entry, env) {
      var begun := st.(sem := sem, phase := st.phase[ticket := now]);
      SlotsAfterEnd(begun, max, ticket, Aborted);
      QueueAfterRelease(begun, ticket, Aborted);
      assert st.phase[ticket := now][ticket := Aborted] == st.phase[ticket := Aborted];
    }
  }

  lemma DropKeepsSlots(st: State, max: nat, ticket: nat, job: Job, entry: string, env: Env)
    requires SlotInv(st, max) && ticket !in st.phase
    ensures SlotInv(Drop(st, ticket, job, entry, env), max)
  {
    hide Drop, Unused, Served, QueueIsFair, ExecutingSet, Opens;
    DropOutcome(st, ticket, job, entry, env);
    var now := if Opens(st.table, entry, env) && env.f2.Fine? then Shed(entry) else Aborted;
    ExecutingChange(st.phase, ticket, now);
    QueueAfterRelease(st, ticket, now);
  }

  lemma JoinKeepsSlots(st: State, max: nat, ticket: nat, job: Job)
    requires SlotInv(st, max) && ticket !in st.phase && Locked(st.sem) && job.priority >= KEEP_PRIORITY
    ensures SlotInv(st.(sem := Join(st.sem, ticket), queued := st.queued + [ticket],
                        phase := st.phase[ticket := Queued(job)]), max)
  {
    hide Join, SlotsAddUp, QueueIsFair, Locked;
    SlotsAfterJoin(st, max, ticket, job);
    QueueAfterJoin(st, ticket, job);
  }

  lemma EndKeepsSlots(st: State, max: nat, ticket: nat, result: Option<Dict>, error: string, env: Env)
    requires SlotInv(st, max) && ticket in st.phase && st.phase[ticket].Executing?
    ensures SlotInv(End(st, ticket, st.phase[ticket].job, st.phase[ticket].entry, result, error, env), max)
  {
    hide End, Release, SlotsAddUp, QueueIsFair, Closes;
    var job, entry := st.phase[ticket].job, st.phase[ticket].entry;
    EndOutcome(st, ticket, job, entry, result, error, env);
    var now := Outcome(st.table, entry, result, env);
    SlotsAfterEnd(st, max, ticket, now);
    QueueAfterRelease(st, ticket, now);
  }

  /** Every step whatever keeps the slots added up and the queue fair, also one whose ledger calls raise. */
  lemma NextKeepsSlots(st: State, max: nat, step: Step)
    requires SlotInv(st, max)
    ensures SlotInv(Next(st, step), max)
  {
    hide SlotsAddUp, QueueIsFair, Begin, Drop, End, Take, Leave, Join, Locked, Apply;
    match step
    case Trigger(ticket, jobId, entry, env) =>
      if Runnable(st, jobId) && ticket !in st.phase {
        var job := st.jobs[jobId];
        if Locked(st.sem) && job.priority < KEEP_PRIORITY {
          DropKeepsSlots(st, max, ticket, job, entry, env);
        } else if Locked(st.sem) {
          JoinKeepsSlots(st, max, ticket, job);
        } else {
          BeginKeepsSlots(st, max, Take(st.sem), ticket, job, entry, env);
        }
      }
    case Resume(ticket, entry, env) =>
      if ticket in st.sem.granted && ticket in st.phase && st.phase[ticket].Queued? {
        BeginKeepsSlots(st, max, Leave(st.sem, ticket), ticket, st.phase[ticket].job, entry, env);
      }
    case Finish(ticket, result, error, env) =>
      if ticket in st.phase && st.phase[ticket].Executing? {
        EndKeepsSlots(st, max, ticket, result, error, env);
      }
    case _ =>
  }

  // The log.

  lemma {:induction false} CallsOfConcat(log: seq<Logged>, more: seq<Logged>, ticket: nat)
    ensures CallsOf(log + more, ticket) == CallsOf(log, ticket) + CallsOf(more, ticket)
  {
    if more == [] {
      assert log + more == log;
    } else {
      var n := |more| - 1;
      assert (log + more)[..|log + more| - 1] == log + more[..n];
      CallsOfConcat(log, more[..n], ticket);
    }
  }

  lemma {:induction false} CallsOfOne(more: seq<Logged>, owner: nat, ticket: nat)
    requires forall i :: 0 <= i < |more| ==> more[i].ticket == owner
    ensures CallsOf(more, ticket) == if ticket == owner then more else []
  {
    if more != [] {
      CallsOfOne(more[..|more| - 1], owner, ticket);
    }
  }

  lemma LogAfter(st: State, ticket: nat, more: seq<Logged>, now: Phase)
    requires LogTells(st.log, st.phase) && forall i :: 0 <= i < |more| ==> more[i].ticket == ticket
    requires Tells(CallsOf(st.log, ticket) + more, now)
    ensures LogTells(st.log + more, st.phase[ticket := now])
  {
    hide Tells, CallsOf;
    forall t
      ensures CallsOf(st.log + more, t) == if t == ticket then CallsOf(st.log, t) + more else CallsOf(st.log, t)
    {
      CallsOfConcat(st.log, more, t);
      CallsOfOne(more, ticket, t);
    }
  }

  // The rows.

  lemma RowsAfter(st: State, ticket: nat, entry: string, row: LedgerEntry, now: Phase)
    requires RowsAgree(st.table, st.phase) && row.id == entry && HasEntry(now) && now.entry == entry
    requires NewId(st, entry) || (ticket in st.phase && HasEntry(st.phase[ticket]) && st.phase[ticket].entry == entry)
    requires RowAgrees(st.table[entry := row], now)
    ensures RowsAgree(st.table[entry := row], st.phase[ticket := now])
  {
    forall t | t in st.phase && t != ticket && HasEntry(st.phase[t])
      ensures st.phase[t].entry != entry
    {
    }
  }

  lemma RowsAfterOther(st: State, call: Call)
    requires RowsAgree(st.table, st.phase) && Respects(st, call)
    ensures RowsAgree(Apply(st.table, call).0, st.phase)
  {
    hide Apply;
    var table := Apply(st.table, call).0;
    forall id
      ensures id in table ==> table[id].id == id
      ensures CallId(call) != id ==> (id in table <==> id in st.table) && (id in table ==> table[id] == st.table[id])
      ensures id in table && id !in st.table ==> (call.Create? || call.Import?) && call.entry.id == id
      ensures id in table && id in st.table && st.table[id].status == Completed ==> table[id] == st.table[id]
    {
      StatementIsSafe(st.table, call, id);
      if CallId(call) != id {
        OtherRowsStay(st.table, call, id);
      }
    }
    forall t | t in st.phase
      ensures RowAgrees(table, st.phase[t])
    {
      assert HasEntry(st.phase[t]) ==> IsOurs(st.phase, st.phase[t].entry);
    }
  }

  lemma OtherRowsStay(table: Table, call: Call, id: string)
    requires WellKeyed(table) && CallId(call) != id
    ensures var after := Apply(table, call).0;
      (id in after <==> id in table) && (id in after ==> after[id] == table[id])
  {
    hide Updated;
    match call
    case Move(i, to, checkpoint, error, now) => MoveResult(table, i, to, checkpoint, error, now);
    case SetProgress(i, progress, now) => ProgressResult(table, i, progress, now);
    case _ =>
  }

  // Step by step.

  lemma BeginKeepsInv(st: State, max: nat, sem: Sem, ticket: nat, job: Job, entry: string, env: Env)
    requires Inv(st, max) && NewId(st, entry) && AllFine(env)
    requires if ticket in st.phase
      then st.phase[ticket].Queued? && ticket in st.sem.granted && sem == Leave(st.sem, ticket)
             else !Locked(st.sem) && sem == Take(st.sem)
    ensures Inv(Begin(st.(sem := sem), ticket, job, entry, env), max)
    ensures var after := Begin(st.(sem := sem), ticket, job, entry, env);
      after.phase == st.phase[ticket := Executing(job, entry)] && after.sem == sem && after.jobs == st.jobs
  {
    BeginOutcome(st.(sem := sem), ticket, job, entry, env);
    BeginKeepsSlots(st, max, sem, ticket, job, entry, env);
    hide Open, Leave, Take, SlotInv, RowsAgree, LogTells, Locked, MovedRow;
    OpenEffect(st.(sem := sem), ticket, ExecRow(job, entry, env.t0), env);
    RecordsAfterBegin(st, ticket, job, entry, env);
  }

  lemma RecordsAfterBegin(st: State, ticket: nat, job: Job, entry: string, env: Env)
    requires RowsAgree(st.table, st.phase) && LogTells(st.log, st.phase) && NewId(st, entry)
    requires ticket in st.phase ==> st.phase[ticket].Queued?
    ensures var row := ExecRow(job, entry, env.t0);
      var now := Executing(job, entry);
      && RowsAgree(st.table[entry := MovedRow(row, Running, None, None, env.t1)], st.phase[ticket := now])
      && LogTells(
           st.log + [Logged(ticket, Create(row), true),
             Logged(ticket, Move(entry, Running, None, None, env.t1), true)],
           st.phase[ticket := now])
  {
    hide RowsAgree, LogTells;
    var row := ExecRow(job, entry, env.t0);
    var now := Executing(job, entry);
    var more := [Logged(ticket, Create(row), true), Logged(ticket, Move(entry, Running, None, None, env.t1), true)];
    NothingToldYet(st, ticket);
    assert CallsOf(st.log, ticket) + more == more;
    assert Tells(more, now);
    LogAfter(st, ticket, more, now);
    RowsAfter(st, ticket, entry, MovedRow(row, Running, None, None, env.t1), now);
  }

  lemma NothingToldYet(st: State, ticket: nat)
    requires LogTells(st.log, st.phase) && (ticket in st.phase ==> st.phase[ticket].Queued?)
    ensures CallsOf(st.log, ticket) == []
  {
  }

  lemma QueueAfterTake(st: State, ticket: nat, now: Phase)
    requires QueueIsFair(st.sem, st.phase, st.queued) && !Locked(st.sem) && ticket !in st.phase && !now.Queued?
    ensures QueueIsFair(Take(st.sem), st.phase[ticket := now], st.queued)
  {
  }

  lemma DropKeepsInv(st: State, max: nat, ticket: nat, job: Job, entry: string, env: Env)
    requires Inv(st, max) && NewId(st, entry) && ticket !in st.phase && AllFine(env)
    ensures Inv(Drop(st, ticket, job, entry, env), max)
    ensures var after := Drop(st, ticket, job, entry, env);
      after.phase == st.phase[ticket := Shed(entry)] && after.sem == st.sem
  {
    DropKeepsSlots(st, max, ticket, job, entry, env);
    hide Drop, SlotInv, RowsAgree, LogTells, MovedRow;
    DropEffect(st, ticket, job, entry, env);
    RecordsAfterDrop(st, ticket, job, entry, env);
  }

  lemma RecordsAfterDrop(st: State, ticket: nat, job: Job, entry: string, env: Env)
    requires RowsAgree(st.table, st.phase) && LogTells(st.log, st.phase) && NewId(st, entry) && ticket !in st.phase
    ensures var row := SkipRow(job, entry, env.t0);
      var final := MovedRow(MovedRow(row, Running, None, None, env.t1), Completed, Some(SKIPPED), None, env.t2);
      && RowsAgree(st.table[entry := final], st.phase[ticket := Shed(entry)])
      && LogTells(
           st.log + [Logged(ticket, Create(row), true),
             Logged(ticket, Move(entry, Running, None, None, env.t1), true),
             Logged(ticket, Move(entry, Completed, Some(SKIPPED), None, env.t2), true)],
           st.phase[ticket := Shed(entry)])
  {
    hide RowsAgree, LogTells;
    var row := SkipRow(job, entry, env.t0);
    var final := MovedRow(MovedRow(row, Running, None, None, env.t1), Completed, Some(SKIPPED), None, env.t2);
    var more := [Logged(ticket, Create(row), true), Logged(ticket, Move(entry, Running, None, None, env.t1), true),
                 Logged(ticket, Move(entry, Completed, Some(SKIPPED), None, env.t2), true)];
    NothingToldYet(st, ticket);
    assert CallsOf(st.log, ticket) + more == more;
    assert Tells(more, Shed(entry));
    LogAfter(st, ticket, more, Shed(entry));
    RowsAfter(st, ticket, entry, final, Shed(entry));
  }

  lemma JoinKeepsInv(st: State, max: nat, ticket: nat, job: Job)
    requires Inv(st, max) && ticket !in st.phase && Locked(st.sem) && job.priority >= KEEP_PRIORITY
    ensures Inv(st.(sem := Join(st.sem, ticket), queued := st.queued + [ticket],
                    phase := st.phase[ticket := Queued(job)]), max)
  {
    NothingToldYet(st, ticket);
    assert Tells([] + [], Queued(job));
    JoinKeepsSlots(st, max, ticket, job);
    hide Join, SlotInv, RowsAgree, LogTells, Locked, Tells, CallsOf;
    RowsAfterJoin(st, ticket, job);
    LogAfter(st, ticket, [], Queued(job));
    assert st.log + [] == st.log;
  }

  lemma SlotsAfterJoin(st: State, max: nat, ticket: nat, job: Job)
    requires SlotsAddUp(st.sem, st.phase, max) && Locked(st.sem) && ticket !in st.phase
    ensures SlotsAddUp(Join(st.sem, ticket), st.phase[ticket := Queued(job)], max)
  {
    hide Join, Unused, Served, ExecutingSet, Locked;
    SemaphoreCounts(st.sem, ticket);
    ExecutingChange(st.phase, ticket, Queued(job));
  }

  lemma RowsAfterJoin(st: State, ticket: nat, job: Job)
    requires RowsAgree(st.table, st.phase) && ticket !in st.phase
    ensures RowsAgree(st.table, st.phase[ticket := Queued(job)])
  {
  }

  lemma ExecutingTold(st: State, ticket: nat)
    requires RowsAgree(st.table, st.phase) && LogTells(st.log, st.phase)
    requires ticket in st.phase && st.phase[ticket].Executing?
    ensures var entry := st.phase[ticket].entry;
      && entry in st.table && st.table[entry].status == Running && st.table[entry].id == entry
      && st.table[entry].action == "cron_job_exec"
    ensures Tells(CallsOf(st.log, ticket), st.phase[ticket])
  {
  }

  lemma EndKeepsInv(st: State, max: nat, ticket: nat, result: Option<Dict>, error: string, env: Env)
    requires Inv(st, max) && ticket in st.phase && st.phase[ticket].Executing? && AllFine(env)
    ensures var job, entry := st.phase[ticket].job, st.phase[ticket].entry;
      var after := End(st, ticket, job, entry, result, error, env);
      && Inv(after, max)
      && after.phase == st.phase[ticket := Finished(entry, result.None?)]
      && after.sem == Release(st.sem)
      && after.jobs == (if job.deleteAfterRun then st.jobs - {job.id} else st.jobs)
  {
    var job, entry := st.phase[ticket].job, st.phase[ticket].entry;
    ExecutingTold(st, ticket);
    EndKeepsSlots(st, max, ticket, result, error, env);
    hide End, Release, SlotInv, RowsAgree, LogTells, Tells, RowAgrees, CallsOf, MovedRow;
    var failed := result.None?;
    var status := if failed then Failed else Completed;
    var failure := if failed then Some(error) else None;
    EndEffect(st, ticket, job, entry, result, error, env);
    RecordsAfterEnd(st, ticket, status, result, failure, env.t0);
  }

  lemma SlotsAfterEnd(st: State, max: nat, ticket: nat, now: Phase)
    requires SlotsAddUp(st.sem, st.phase, max) && ticket in st.phase && st.phase[ticket].Executing? && !now.Executing?
    ensures SlotsAddUp(Release(st.sem), st.phase[ticket := now], max)
  {
    hide Release, Unused, Served, ExecutingSet;
    SemaphoreCounts(st.sem, ticket);
    ExecutingChange(st.phase, ticket, now);
  }

  lemma RecordsAfterEnd(st: State, ticket: nat, status: Status, result: Option<Dict>,
      failure: Option<string>, time: int)
    requires RowsAgree(st.table, st.phase) && LogTells(st.log, st.phase)
    requires ticket in st.phase && st.phase[ticket].Executing? && status in {Completed, Failed}
    ensures var entry := st.phase[ticket].entry;
      var now := Finished(entry, status == Failed);
      && entry in st.table
      && RowsAgree(st.table[entry := MovedRow(st.table[entry], status, result, failure, time)], st.phase[ticket := now])
      && LogTells(st.log + [Logged(ticket, Move(entry, status, result, failure, time), true)], st.phase[ticket := now])
  {
    ExecutingTold(st, ticket);
    hide RowsAgree, LogTells, Tells, RowAgrees, CallsOf;
    var job, entry := st.phase[ticket].job, st.phase[ticket].entry;
    var failed := status == Failed;
    var row := MovedRow(st.table[entry], status, result, failure, time);
    var last := Logged(ticket, Move(entry, status, result, failure, time), true);
    EndTold(CallsOf(st.log, ticket), job, entry, failed, last);
    EndedRow(st.table, entry, row, failed);
    RowsAfter(st, ticket, entry, row, Finished(entry, failed));
    LogAfter(st, ticket, [last], Finished(entry, failed));
  }

  lemma EndTold(calls: seq<Logged>, job: Job, entry: string, failed: bool, last: Logged)
    requires Tells(calls, Executing(job, entry)) && last.ok
    requires MovesTo(last, entry, if failed then Failed else Completed)
    ensures Tells(calls + [last], Finished(entry, failed))
  {
  }

  lemma EndedRow(table: Table, entry: string, row: LedgerEntry, failed: bool)
    requires !failed ==> row.status == Completed
    ensures RowAgrees(table[entry := row], Finished(entry, failed))
  {
  }

  /** Every plausible step keeps the invariant. */
  lemma NextKeepsInv(st: State, max: nat, step: Step)
    requires Inv(st, max) && Plausible(st, step)
    ensures Inv(Next(st, step), max)
  {
    hide Inv, Begin, Drop, End, Take, Leave, Join, Locked, Apply;
    match step
    case Trigger(ticket, jobId, entry, env) =>
      if Runnable(st, jobId) && ticket !in st.phase {
        var job := st.jobs[jobId];
        if Locked(st.sem) && job.priority < KEEP_PRIORITY {
          DropKeepsInv(st, max, ticket, job, entry, env);
        } else if Locked(st.sem) {
          JoinKeepsInv(st, max, ticket, job);
        } else {
          BeginKeepsInv(st, max, Take(st.sem), ticket, job, entry, env);
        }
      }
    case Resume(ticket, entry, env) =>
      if ticket in st.sem.granted && ticket in st.phase && st.phase[ticket].Queued? {
        BeginKeepsInv(st, max, Leave(st.sem, ticket), ticket, st.phase[ticket].job, entry, env);
      }
    case Finish(ticket, result, error, env) =>
      if ticket in st.phase && st.phase[ticket].Executing? {
        EndKeepsInv(st, max, ticket, result, error, env);
      }
    case Other(call) => OtherKeepsInv(st, max, call);
    case _ => JobsDoNotMatter(st, max, Next(st, step).jobs);
  }

  lemma OtherKeepsInv(st: State, max: nat, call: Call)
    requires Inv(st, max) && Respects(st, call)
    ensures Inv(st.(table := Apply(st.table, call).0), max)
  {
    hide Apply, RowsAgree, LogTells, SlotsAddUp, QueueIsFair;
    RowsAfterOther(st, call);
  }

  lemma JobsDoNotMatter(st: State, max: nat, jobs: map<string, Job>)
    requires Inv(st, max)
    ensures Inv(st.(jobs := jobs), max)
  {
  }

  /**
   Admission in every run, with no hypothesis: whatever the table, the statements of others, the
   ids and the outcomes of the ledger calls, the slots add up and the queue is fair.
   */
  lemma {:induction false} AdmissionInEveryRun(max: nat, jobs: map<string, Job>, table: Table, steps: seq<Step>)
    ensures SlotInv(RunSteps(Initial(max, jobs, table), steps), max)
  {
    hide Next;
    var st := Initial(max, jobs, table);
    if steps == [] {
      assert ExecutingSet(st.phase) == {};
    } else {
      var n := |steps| - 1;
      AdmissionInEveryRun(max, jobs, table, steps[..n]);
      NextKeepsSlots(RunSteps(st, steps[..n]), max, steps[n]);
    }
  }

  /** In every plausible run ledger and log tell, besides, what became of each trigger. */
  lemma {:induction false} RecordsInEveryRun(max: nat, jobs: map<string, Job>, table: Table, steps: seq<Step>)
    requires WellKeyed(table) && PlausibleRun(Initial(max, jobs, table), steps)
    ensures Inv(RunSteps(Initial(max, jobs, table), steps), max)
  {
    hide Next, SlotInv;
    var st := Initial(max, jobs, table);
    if steps == [] {
      AdmissionInEveryRun(max, jobs, table, []);
    } else {
      var n := |steps| - 1;
      RecordsInEveryRun(max, jobs, table, steps[..n]);
      NextKeepsInv(RunSteps(st, steps[..n]), max, steps[n]);
    }
  }

  // What the invariant says.

  /**
   At most `max` jobs execute and no job of low priority ever sleeps. Once the woken waiters have
   resumed, somebody sleeps only if all slots are in use, and nobody is left asleep at the end.
   */
  lemma SlotsAreBounded(st: State, max: nat)
    requires SlotInv(st, max)
    ensures |ExecutingSet(st.phase)| + |st.sem.granted| <= max
    ensures forall t ::
      t in st.sem.waiting ==>
        t in st.phase && st.phase[t].Queued? && st.phase[t].job.priority >= KEEP_PRIORITY
    ensures st.sem.waiting != [] && st.sem.granted == [] ==> st.sem.value == 0 && |ExecutingSet(st.phase)| == max
    ensures ExecutingSet(st.phase) == {} && st.sem.granted == [] && max > 0 ==> st.sem.waiting == []
  {
    assert forall t :: t in st.sem.waiting ==> t in st.sem.granted + st.sem.waiting;
  }

  function EntriesOf(phase: map<nat, Phase>, tickets: set<nat>): set<string>
    requires forall t :: t in tickets ==> t in phase && phase[t].Executing?
  {
    set t | t in tickets :: phase[t].entry
  }

  lemma {:induction false} EntriesAreDistinct(phase: map<nat, Phase>, tickets: set<nat>)
    requires forall t :: t in tickets ==> t in phase && phase[t].Executing?
    requires forall t, u :: t in tickets && u in tickets && t != u ==> phase[t].entry != phase[u].entry
    ensures |EntriesOf(phase, tickets)| == |tickets|
    decreases tickets
  {
    if tickets != {} {
      var t :| t in tickets;
      EntriesAreDistinct(phase, tickets - {t});
      assert EntriesOf(phase, tickets) == EntriesOf(phase, tickets - {t}) + {phase[t].entry};
      assert tickets == (tickets - {t}) + {t};
    }
  }

  /** At every await the slots taken are the running entries of executing jobs and the slots handed to woken waiters. */
  lemma SlotsTakenAreRunningEntries(st: State, max: nat)
    requires Inv(st, max)
    ensures var running := EntriesOf(st.phase, ExecutingSet(st.phase));
      && max - st.sem.value == |running| + |st.sem.granted|
      && forall e ::
        e in running ==>
          e in st.table && st.table[e].status == Running && st.table[e].action == "cron_job_exec"
  {
    hide QueueIsFair, LogTells;
    EntriesAreDistinct(st.phase, ExecutingSet(st.phase));
  }

  /** First come, first served: the sleepers are exactly the last to have queued. */
  lemma FirstComeFirstServed(st: State, max: nat, i: nat)
    requires SlotInv(st, max) && i < |st.queued|
    ensures st.queued[i] in st.sem.waiting <==> i >= |st.queued| - |st.sem.waiting|
  {
    hide SlotsAddUp;
    var k := |st.queued| - |st.sem.waiting|;
    if i >= k {
      assert st.sem.waiting[i - k] == st.queued[i];
    } else {
      assert forall m :: 0 <= m < |st.sem.waiting| ==> st.sem.waiting[m] == st.queued[k + m];
    }
  }

  /**
   What becomes of a trigger at once: it is shed exactly when its priority is low and no slot is
   free or a woken waiter has yet to resume; it queues exactly when its priority is not low and the
   same holds; and otherwise it runs. To be shed or run, its ledger calls must succeed, or it aborts.
   */
  lemma ShedExactly(st: State, max: nat, ticket: nat, jobId: string, entry: string, env: Env)
    requires SlotInv(st, max) && ticket !in st.phase && jobId in st.jobs && st.jobs[jobId].enabled
    ensures var after := Next(st, Trigger(ticket, jobId, entry, env));
      var busy := st.sem.value == 0 || st.sem.granted != [];
      var low := st.jobs[jobId].priority < 30;
      && ticket in after.phase
      && (after.phase[ticket].Queued? <==> busy && !low)
      && (after.phase[ticket] == Shed(entry) <==> busy && low && Opens(st.table, entry, env) && env.f2.Fine?)
      && (after.phase[ticket].Executing? <==> !busy && Opens(st.table, entry, env))
      && (after.phase[ticket].Aborted? <==>
          (!busy || low) && !(Opens(st.table, entry, env) && (busy ==> env.f2.Fine?)))
  {
    hide Drop, Begin, QueueIsFair, Opens;
    var job := st.jobs[jobId];
    assert Locked(st.sem) <==> st.sem.value == 0 || st.sem.granted != [];
    if Locked(st.sem) && job.priority < KEEP_PRIORITY {
      DropOutcome(st, ticket, job, entry, env);
    } else if !Locked(st.sem) {
      BeginOutcome(st.(sem := Take(st.sem)), ticket, job, entry, env);
    }
  }

  /** A trigger of a job that is disabled or not there any more does nothing at all. */
  lemma DisabledJobDoesNothing(st: State, ticket: nat, jobId: string, entry: string, env: Env)
    requires jobId !in st.jobs || !st.jobs[jobId].enabled
    ensures Next(st, Trigger(ticket, jobId, entry, env)) == st
  {
  }

  // When ledger calls end a trigger.

  /**
   The ledger lets a step end well: a new entry has a new id, a row to be closed is still pending
   or running, and the database raises no error that the wrapper does not catch.
   */
  predicate LedgerAdmits(st: State, step: Step) {
    match step
    case Trigger(ticket, jobId, entry, env) =>
      Runnable(st, jobId) && ticket !in st.phase ==>
        if !Locked(st.sem) then Opens(st.table, entry, env)
        else st.jobs[jobId].priority < KEEP_PRIORITY ==> Opens(st.table, entry, env) && env.f2.Fine?
    case Resume(ticket, entry, env) =>
      ticket in st.sem.granted && ticket in st.phase && st.phase[ticket].Queued? ==> Opens(st.table, entry, env)
    case Finish(ticket, result, _, env) =>
      ticket in st.phase && st.phase[ticket].Executing? ==>
        var entry := st.phase[ticket].entry;
        entry in st.table && Closes(st.table[entry].status, result, env)
    case _ => true
  }

  ghost predicate NoneAborted(st: State) {
    forall t :: t in st.phase ==> !st.phase[t].Aborted?
  }

  /** Once a trigger is aborted it stays so; and a step aborts one exactly if the ledger does not admit it. */
  lemma AbortsExactly(st: State, step: Step)
    ensures NoneAborted(Next(st, step)) <==> NoneAborted(st) && LedgerAdmits(st, step)
  {
    hide Begin, Drop, End, Take, Leave, Join, Locked, Apply, Opens, Closes;
    match step
    case Trigger(ticket, jobId, entry, env) =>
      if Runnable(st, jobId) && ticket !in st.phase {
        var job := st.jobs[jobId];
        if Locked(st.sem) && job.priority < KEEP_PRIORITY {
          DropOutcome(st, ticket, job, entry, env);
          AbortedAfter(st.phase, ticket, if Opens(st.table, entry, env) && env.f2.Fine? then Shed(entry) else Aborted);
        } else if Locked(st.sem) {
          AbortedAfter(st.phase, ticket, Queued(job));
        } else {
          BeginOutcome(st.(sem := Take(st.sem)), ticket, job, entry, env);
          AbortedAfter(st.phase, ticket, if Opens(st.table, entry, env) then Executing(job, entry) else Aborted);
        }
      }
    case Resume(ticket, entry, env) =>
      if ticket in st.sem.granted && ticket in st.phase && st.phase[ticket].Queued? {
        var job := st.phase[ticket].job;
        BeginOutcome(st.(sem := Leave(st.sem, ticket)), ticket, job, entry, env);
        AbortedAfter(st.phase, ticket, if Opens(st.table, entry, env) then Executing(job, entry) else Aborted);
      }
    case Finish(ticket, result, error, env) =>
      if ticket in st.phase && st.phase[ticket].Executing? {
        var job, entry := st.phase[ticket].job, st.phase[ticket].entry;
        EndOutcome(st, ticket, job, entry, result, error, env);
        AbortedAfter(st.phase, ticket, Outcome(st.table, entry, result, env));
      }
    case _ =>
  }

  lemma AbortedAfter(phase: map<nat, Phase>, ticket: nat, now: Phase)
    requires ticket in phase ==> !phase[ticket].Aborted?
    ensures var after := phase[ticket := now];
      (forall t :: t in after ==> !after[t].Aborted?) <==>
        (forall t :: t in phase ==> !phase[t].Aborted?) && !now.Aborted?
  {
    var after := phase[ticket := now];
    assert after[ticket] == now;
    assert forall t :: t in phase && t != ticket ==> t in after && after[t] == phase[t];
  }

  predicate AllAdmitted(st: State, steps: seq<Step>) {
    steps == [] ||
    var n := |steps| - 1;
    AllAdmitted(st, steps[..n]) && LedgerAdmits(RunSteps(st, steps[..n]), steps[n])
  }

  /** No trigger of a run is aborted if and only if the ledger admits every step of it. */
  lemma {:induction false} NoneAbortedExactly(max: nat, jobs: map<string, Job>, table: Table, steps: seq<Step>)
    ensures var start := Initial(max, jobs, table);
      NoneAborted(RunSteps(start, steps)) <==> AllAdmitted(start, steps)
  {
    hide Next, LedgerAdmits;
    var start := Initial(max, jobs, table);
    if steps != [] {
      var n := |steps| - 1;
      NoneAbortedExactly(max, jobs, table, steps[..n]);
      AbortsExactly(RunSteps(start, steps[..n]), steps[n]);
    }
  }

  /**
   The second case is real: of two slots both are given back before the one waiter resumes. Then
   the semaphore counts as locked although a slot is free, and whoever comes next sleeps beside
   that slot until the waiter resumes and hands it on.
   */
  lemma LockedBesideFreeSlot(waiter: nat, newcomer: nat)
    ensures var s := Release(Release(Join(Take(Take(Sem(2, [], []))), waiter)));
      && s == Sem(1, [waiter], []) && Locked(s)
      && Join(s, newcomer) == Sem(1, [waiter], [newcomer])
      && Leave(Join(s, newcomer), waiter) == Sem(0, [newcomer], [])
  {
    var full := Join(Take(Take(Sem(2, [], []))), waiter);
    assert full == Sem(0, [], [waiter]);
    assert Release(full) == Sem(0, [waiter], []);
    assert Without([waiter], waiter) == [];
  }

  /**
   A run of the engine that ends so: of two executing jobs both finish before the queued one resumes,
   and a low-priority trigger is dropped although a slot is free.
   */
  lemma ShedBesideFreeSlot(jobs: map<string, Job>, table: Table, high: string, low: string, env: Env)
      returns (steps: seq<Step>, entry: string)
    requires WellKeyed(table) && high != low && high in jobs && low in jobs
    requires jobs[high].enabled && jobs[high].priority >= KEEP_PRIORITY && jobs[high].id == high
    requires jobs[low].enabled && jobs[low].priority < KEEP_PRIORITY && AllFine(env)
    ensures var start := Initial(2, jobs, table);
      var end := RunSteps(start, steps);
      && PlausibleRun(start, steps)
      && steps != [] && steps[|steps| - 1] == Trigger(3, low, entry, env)
      && RunSteps(start, steps[..|steps| - 1]).sem == end.sem == Sem(1, [2], [])
      && 3 in end.phase && end.phase[3] == Shed(entry)
  {
    var start := Initial(2, jobs, table);
    var before, st := TwoDoneOneWoken(jobs, table, high, env);
    entry := FreshId(st);
    hide Next, RunSteps, PlausibleRun, Inv;
    var last := Trigger(3, low, entry, env);
    RunSnoc(start, before, 2, last);
    DropAtOnce(st, 2, 3, low, entry, env);
    steps := before + [last];
  }

  /** Two jobs execute, a third waits, both finish. */
  lemma TwoDoneOneWoken(jobs: map<string, Job>, table: Table, high: string, env: Env)
      returns (steps: seq<Step>, st: State)
    requires WellKeyed(table) && high in jobs && AllFine(env)
    requires jobs[high].enabled && jobs[high].priority >= KEEP_PRIORITY && jobs[high].id == high
    ensures var start := Initial(2, jobs, table);
      && PlausibleRun(start, steps) && st == RunSteps(start, steps) && Inv(st, 2)
      && st.sem == Sem(1, [2], []) && 3 !in st.phase
      && forall id :: id in jobs && id != high ==> id in st.jobs && st.jobs[id] == jobs[id]
  {
    hide Next, RunSteps, PlausibleRun, Inv;
    var start := Initial(2, jobs, table);
    RunNothing(start);
    RecordsInEveryRun(2, jobs, table, []);
    st, steps := TriggerAtOnce(start, [], 2, 0, high, env);
    st, steps := TriggerAtOnce(start, steps, 2, 1, high, env);
    st, steps := TriggerQueued(start, steps, 2, 2, high, env);
    assert st.sem == Sem(0, [], [2]);
    st, steps := FinishWell(start, steps, 2, 0, env);
    assert st.sem == Sem(0, [2], []);
    st, steps := FinishWell(start, steps, 2, 1, env);
    assert st.sem == Sem(1, [2], []);
  }

  lemma DropAtOnce(st: State, max: nat, ticket: nat, jobId: string, entry: string, env: Env)
    requires Inv(st, max) && NewId(st, entry) && ticket !in st.phase && AllFine(env)
    requires Runnable(st, jobId) && Locked(st.sem) && st.jobs[jobId].priority < KEEP_PRIORITY
    ensures var after := Next(st, Trigger(ticket, jobId, entry, env));
      after.phase == st.phase[ticket := Shed(entry)] && after.sem == st.sem
  {
    hide Inv, Drop;
    DropKeepsInv(st, max, ticket, st.jobs[jobId], entry, env);
  }

  lemma FreshId(st: State) returns (entry: string)
    ensures NewId(st, entry)
  {
    entry := AnotherText(st.table.Keys + set t | t in st.phase && HasEntry(st.phase[t]) :: st.phase[t].entry);
  }

  lemma RunNothing(st: State)
    ensures RunSteps(st, []) == st && PlausibleRun(st, [])
  {
  }

  lemma RunSnoc(st: State, steps: seq<Step>, max: nat, step: Step)
    requires PlausibleRun(st, steps) && Inv(RunSteps(st, steps), max) && Plausible(RunSteps(st, steps), step)
    ensures var more := steps + [step];
      PlausibleRun(st, more) && RunSteps(st, more) == Next(RunSteps(st, steps), step) && Inv(RunSteps(st, more), max)
  {
    hide Next, Inv, Plausible;
    assert (steps + [step])[..|steps|] == steps;
    NextKeepsInv(RunSteps(st, steps), max, step);
  }

  /** One more trigger that finds a slot. */
  lemma TriggerAtOnce(start: State, before: seq<Step>, max: nat, ticket: nat, jobId: string, env: Env)
      returns (end: State, steps: seq<Step>)
    requires PlausibleRun(start, before) && Inv(RunSteps(start, before), max) && AllFine(env)
    requires var st := RunSteps(start, before); Runnable(st, jobId) && ticket !in st.phase && !Locked(st.sem)
    ensures PlausibleRun(start, steps) && end == RunSteps(start, steps) && Inv(end, max)
    ensures var st := RunSteps(start, before);
      && end.sem == Take(st.sem) && end.jobs == st.jobs
      && end.phase.Keys == st.phase.Keys + {ticket} && end.phase[ticket].Executing?
      && end.phase[ticket].job == st.jobs[jobId]
      && forall t :: t in st.phase && t != ticket ==> end.phase[t] == st.phase[t]
  {
    hide RunSteps, PlausibleRun, Inv, Begin, Drop, Take, Locked;
    var st := RunSteps(start, before);
    var entry := FreshId(st);
    var step := Trigger(ticket, jobId, entry, env);
    RunSnoc(start, before, max, step);
    BeginKeepsInv(st, max, Take(st.sem), ticket, st.jobs[jobId], entry, env);
    end, steps := Next(st, step), before + [step];
  }

  /** One more trigger of a job that is worth waiting for and finds no slot. */
  lemma TriggerQueued(start: State, before: seq<Step>, max: nat, ticket: nat, jobId: string, env: Env)
      returns (end: State, steps: seq<Step>)
    requires PlausibleRun(start, before) && Inv(RunSteps(start, before), max) && AllFine(env)
    requires var st := RunSteps(start, before);
      Runnable(st, jobId) && ticket !in st.phase && Locked(st.sem) && st.jobs[jobId].priority >= KEEP_PRIORITY
    ensures PlausibleRun(start, steps) && end == RunSteps(start, steps) && Inv(end, max)
    ensures var st := RunSteps(start, before);
      end.sem == Join(st.sem, ticket) && end.jobs == st.jobs && end.phase == st.phase[ticket := Queued(st.jobs[jobId])]
  {
    hide RunSteps, PlausibleRun, Inv, Begin, Drop, Take, Locked, Join;
    var st := RunSteps(start, before);
    var entry := FreshId(st);
    var step := Trigger(ticket, jobId, entry, env);
    RunSnoc(start, before, max, step);
    end, steps := Next(st, step), before + [step];
  }

  /** The end of a payload that returned. */
  lemma FinishWell(start: State, before: seq<Step>, max: nat, ticket: nat, env: Env)
      returns (end: State, steps: seq<Step>)
    requires PlausibleRun(start, before) && Inv(RunSteps(start, before), max) && AllFine(env)
    requires var st := RunSteps(start, before); ticket in st.phase && st.phase[ticket].Executing?
    ensures PlausibleRun(start, steps) && end == RunSteps(start, steps) && Inv(end, max)
    ensures var st := RunSteps(start, before);
      && end.sem == Release(st.sem)
      && end.phase == st.phase[ticket := Finished(st.phase[ticket].entry, false)]
      && end.jobs.Keys >= st.jobs.Keys - {st.phase[ticket].job.id}
      && forall id :: id in end.jobs ==> id in st.jobs && end.jobs[id] == st.jobs[id]
  {
    hide RunSteps, PlausibleRun, Inv, End, Release;
    var st := RunSteps(start, before);
    var step := Finish(ticket, Some(map[]), "", env);
    RunSnoc(start, before, max, step);
    EndKeepsInv(st, max, ticket, Some(map[]), "", env);
    end, steps := Next(st, step), before + [step];
  }

  /**
   Without the hypothesis a trigger can abort: somebody deletes the entry of an executing job, so
   that neither its completion nor its failure can be written. Its slot is free again all the same.
   */
  lemma DeletedEntryAborts(max: nat, jobs: map<string, Job>, table: Table, jobId: string, entry: string, env: Env,
                           result: Option<Dict>)
    requires max > 0 && jobId in jobs && jobs[jobId].enabled && entry !in table && AllFine(env)
    ensures var start := Initial(max, jobs, table);
      var begun := Next(start, Trigger(0, jobId, entry, env));
      var deleted := Next(begun, Other(Remove(entry)));
      var end := Next(deleted, Finish(0, result, "", env));
      && begun.phase == map[0 := Executing(jobs[jobId], entry)] && begun.sem == Sem(max - 1, [], [])
      && !Respects(begun, Remove(entry))
      && end.phase == map[0 := Aborted] && end.sem == Sem(max, [], [])
  {
    hide Begin, End;
    var start := Initial(max, jobs, table);
    BeginOutcome(start.(sem := Take(start.sem)), 0, jobs[jobId], entry, env);
    var begun := Next(start, Trigger(0, jobId, entry, env));
    var deleted := Next(begun, Other(Remove(entry)));
    EndOutcome(deleted, 0, jobs[jobId], entry, result, "", env);
  }

  /** A trigger that was admitted or shed has created exactly one entry, and no two triggers share one. */
  lemma OneEntryEach(st: State, max: nat, ticket: nat)
    requires Inv(st, max) && ticket in st.phase && !st.phase[ticket].Queued?
    ensures var calls := CallsOf(st.log, ticket);
      && HasEntry(st.phase[ticket])
      && |calls| > 0 && calls[0].call.Create? && calls[0].call.entry.id == st.phase[ticket].entry
      && (forall i :: 0 < i < |calls| ==> calls[i].call.Move? && calls[i].call.id == st.phase[ticket].entry)
      && forall other :: other in st.phase && other != ticket && HasEntry(st.phase[other])
           ==> st.phase[other].entry != st.phase[ticket].entry
  {
    hide SlotsAddUp, QueueIsFair, CallsOf;
    assert Tells(CallsOf(st.log, ticket), st.phase[ticket]);
  }

  /** Every ledger call that the engine makes succeeds. */
  lemma EveryCallSucceeds(st: State, max: nat, i: nat)
    requires Inv(st, max) && i < |st.log|
    ensures st.log[i].ok
  {
    hide SlotsAddUp, QueueIsFair, RowsAgree, Opened;
    InCallsOf(st.log, i);
    assert st.log[i] in CallsOf(st.log, st.log[i].ticket);
  }

  lemma {:induction false} InCallsOf(log: seq<Logged>, i: nat)
    requires i < |log|
    ensures log[i] in CallsOf(log, log[i].ticket)
  {
    if i < |log| - 1 {
      InCallsOf(log[..|log| - 1], i);
    }
  }

  // The engine object.

  /** An uncontended transition does what its statement does, and raises exactly when that has no effect. */
  lemma TransitionIsStatement(table: Table, id: string, to: Status, checkpoint: Option<Dict>,
      error: Option<string>, now: int)
    requires WellKeyed(table)
    ensures var (after, r) := Transitioned(table, id, Known(to), checkpoint, error, now, []);
      (after, r.Ok?) == Apply(table, Move(id, to, checkpoint, error, now))
    ensures WellKeyed(Apply(table, Move(id, to, checkpoint, error, now)).0)
  {
    hide Apply;
    MoveResult(table, id, to, checkpoint, error, now);
  }

  class CronEngine {
    const ledger: OpsLedger
    const semaphore: Semaphore
    var jobs: map<string, Job>
    ghost var phase: map<nat, Phase>
    ghost var queued: seq<nat>
    ghost var log: seq<Logged>

    ghost predicate Valid()
      reads this, semaphore, ledger.storage
    {
      semaphore.Valid() && ledger.storage.Valid()
    }

    ghost function Abstract(): State
      reads this, semaphore, ledger.storage
    {
      State(semaphore.state, jobs, ledger.storage.table, phase, queued, log)
    }

    constructor (ledger: OpsLedger, maxConcurrentJobs: nat, jobs: map<string, Job>)
      requires ledger.storage.Valid()
      ensures Valid() && fresh(semaphore)
      ensures this.ledger == ledger && Abstract() == Initial(maxConcurrentJobs, jobs, ledger.storage.table)
    {
      this.ledger, this.jobs := ledger, jobs;
      this.semaphore := new Semaphore(maxConcurrentJobs);
      phase, queued, log := map[], [], [];
    }

    method Mark(ticket: nat, entry: string, to: Status, checkpoint: Option<Dict>, error: Option<string>, now: int,
                fault: Fault)
      returns (ok: bool)
      requires Valid()
      modifies this`log, ledger.storage
      ensures Valid()
      ensures (Abstract(), ok) == Issue(old(Abstract()), ticket, Move(entry, to, checkpoint, error, now), fault)
    {
      hide Transitioned, Apply;
      TransitionIsStatement(ledger.storage.table, entry, to, checkpoint, error, now);
      ok := false;
      if !fault.Refused? {
        var r := ledger.Transition(entry, Known(to), checkpoint, error, now, []);
        ok := r.Ok? && fault.Fine?;
      }
      log := log + [Logged(ticket, Move(entry, to, checkpoint, error, now), ok)];
    }

    method OpenEntry(ticket: nat, row: LedgerEntry, env: Env) returns (ok: bool)
      requires Valid()
        && row == LedgerEntry(row.id, row.action, Pending, map[], env.t0, env.t0, None, row.metadata, None)
      modifies this`log, ledger.storage
      ensures Valid() && (Abstract(), ok) == Open(old(Abstract()), ticket, row, env)
    {
      ok := false;
      if !env.f0.Refused? {
        var created := ledger.CreateEntry(row.action, None, row.id, None, map[], row.metadata, env.t0, [], []);
        ok := created.Ok? && env.f0.Fine?;
      }
      log := log + [Logged(ticket, Create(row), ok)];
      assert (Abstract(), ok) == Issue(old(Abstract()), ticket, Create(row), env.f0);
      if ok {
        ok := Mark(ticket, row.id, Running, None, None, env.t1, env.f1);
      }
    }

    method BeginJob(ticket: nat, job: Job, entry: string, env: Env)
      requires Valid()
      modifies this`log, this`phase, semaphore, ledger.storage
      ensures Valid() && Abstract() == Begin(old(Abstract()), ticket, job, entry, env)
    {
      hide Open;
      var ok := OpenEntry(ticket, ExecRow(job, entry, env.t0), env);
      if ok {
        phase := phase[ticket := Executing(job, entry)];
      } else {
        phase := phase[ticket := Aborted];
        semaphore.ReleaseSlot();
      }
    }

    /** `_execute_job_wrapper` from its call to its first await, or to its end if the job is dropped. */
    method ExecuteJobWrapper(ticket: nat, jobId: string, entry: string, env: Env)
      requires Valid() && ticket !in phase
      modifies this`log, this`phase, this`queued, semaphore, ledger.storage
      ensures Valid() && Abstract() == Next(old(Abstract()), Trigger(ticket, jobId, entry, env))
      ensures jobId !in jobs || !jobs[jobId].enabled ==> Abstract() == old(Abstract())
    {
      hide Open, Begin, Issue, Locked;
      if jobId !in jobs || !jobs[jobId].enabled {
        return;
      }
      var job := jobs[jobId];
      var locked := semaphore.IsLocked();
      if locked && job.priority < KEEP_PRIORITY {
        var ok := OpenEntry(ticket, SkipRow(job, entry, env.t0), env);
        if ok {
          ok := Mark(ticket, entry, Completed, Some(SKIPPED), None, env.t2, env.f2);
        }
        phase := phase[ticket := if ok then Shed(entry) else Aborted];
        return;
      }
      if !locked {
        semaphore.AcquireNow();
        BeginJob(ticket, job, entry, env);
      } else {
        semaphore.AppendWaiter(ticket);
        queued := queued + [ticket];
        phase := phase[ticket := Queued(job)];
      }
    }

    /** From the wake-up of a waiting wrapper to the await of its payload. */
    method ResumeJob(ticket: nat, job: Job, entry: string, env: Env)
      requires Valid() && ticket in semaphore.state.granted && ticket in phase && phase[ticket] == Queued(job)
      modifies this`log, this`phase, semaphore, ledger.storage
      ensures Valid() && Abstract() == Next(old(Abstract()), Resume(ticket, entry, env))
    {
      hide Begin, Leave;
      semaphore.Resume(ticket);
      BeginJob(ticket, job, entry, env);
    }

    /** From the end of the payload to the end of the wrapper. */
    method FinishJob(ticket: nat, job: Job, entry: string, result: Option<Dict>, error: string, env: Env)
      requires Valid() && ticket in phase && phase[ticket] == Executing(job, entry)
      modifies this`log, this`phase, this`jobs, semaphore, ledger.storage
      ensures Valid() && Abstract() == Next(old(Abstract()), Finish(ticket, result, error, env))
    {
      hide Issue, Release;
      var ok := false;
      if result.Some? {
        ok := Mark(ticket, entry, Completed, result, None, env.t0, env.f0);
      }
      if ok {
        phase := phase[ticket := Finished(entry, false)];
      } else {
        ok := Mark(ticket, entry, Failed, None, Some(error), if result.Some? then env.t1 else env.t0,
          if result.Some? then env.f1 else env.f0);
        phase := phase[ticket := if ok then Finished(entry, true) else Aborted];
      }
      if ok && job.deleteAfterRun {
        DeleteJob(job.id);
      }
      semaphore.ReleaseSlot();
    }

    method SaveJob(job: Job)
      requires Valid()
      modifies this`jobs
      ensures Valid() && Abstract() == Next(old(Abstract()), AddJob(job))
      ensures jobs == old(jobs)[job.id := job]
    {
      jobs := jobs[job.id := job];
    }

    /** `remove_job`. */
    method DeleteJob(jobId: string)
      requires Valid()
      modifies this`jobs
      ensures Valid() && Abstract() == Next(old(Abstract()), RemoveJob(jobId))
      ensures jobs == old(jobs) - {jobId}
    {
      if jobId in jobs {
        jobs := jobs - {jobId};
      }
    }
  }
}
