/**
Failover of a dead node (src/agent_manager.py, `perform_failover`): the task registry is read
once, and then each task of the node is reclaimed by one MULTI/EXEC pipeline that deletes its
lock, deletes its registration and broadcasts the news.
*/
module Failovers {
  import opened Collections
  import opened Wrappers

  /** A broadcast that a task of a dead node is free. */
  datatype Rebalance = Rebalance(task: string, oldNode: string)

  /** The alert raised at the end of a failover. */
  datatype NodeDead = NodeDead(node: string, tasks: seq<string>)

  /** The shared state: which node runs each task, who holds each task's lock, what was broadcast. */
  datatype Cluster = Cluster(registry: map<string, string>, locks: map<string, string>, broadcasts: seq<Rebalance>)

  /** What others do to the shared state. */
  datatype Update =
    | Register(task: string, node: string)
    | Unregister(task: string)
    | Lock(task: string, holder: string)
    | Unlock(task: string)

  /** Where a call breaks off: nowhere, at the read, or at a pipeline, which may have landed all the same. */
  datatype Fault = NoFault | ReadFails | PipelineFails(at: nat, landed: bool)

  function ApplyUpdate(c: Cluster, u: Update): Cluster {
    match u
    case Register(task, node) => c.(registry := c.registry[task := node])
    case Unregister(task) => c.(registry := c.registry - {task})
    case Lock(task, holder) => c.(locks := c.locks[task := holder])
    case Unlock(task) => c.(locks := c.locks - {task})
  }

  function ApplyUpdates(c: Cluster, us: seq<Update>): Cluster {
    if us == [] then c else ApplyUpdate(ApplyUpdates(c, us[..|us| - 1]), us[|us| - 1])
  }

  /** One pipeline. */
  function Reclaim(c: Cluster, task: string, node: string): Cluster {
    Cluster(c.registry - {task}, c.locks - {task}, c.broadcasts + [Rebalance(task, node)])
  }

  /** `order` lists the keys of the registry, as HGETALL returns them. */
  ghost predicate Lists(order: seq<string>, registry: map<string, string>) {
    && (forall t :: t in order <==> t in registry)
    && Distinct(order)
  }

  /** The tasks of a node, in the order they are listed. */
  function TasksOf(registry: map<string, string>, node: string, order: seq<string>): (tasks: seq<string>)
    ensures forall t :: t in tasks <==> t in order && t in registry && registry[t] == node
  {
    if order == [] then []
    else
      var front, last := TasksOf(registry, node, order[..|order| - 1]), order[|order| - 1];
      if last in registry && registry[last] == node then front + [last] else front
  }

  function UpdatesAt(others: seq<seq<Update>>, i: nat): seq<Update> {
    if i < |others| then others[i] else []
  }

  /** The first `n` pipelines, each after the updates of others that come before it. */
  function ReclaimFirst(c: Cluster, node: string, tasks: seq<string>, others: seq<seq<Update>>, n: nat): Cluster
    requires n <= |tasks|
  {
    if n == 0 then c
    else Reclaim(ApplyUpdates(ReclaimFirst(c, node, tasks, others, n - 1), UpdatesAt(others, n - 1)),
      tasks[n - 1], node)
  }

  datatype Outcome = Outcome(cluster: Cluster, count: nat, alerts: seq<NodeDead>)

  function Failover(c: Cluster, node: string, order: seq<string>, others: seq<seq<Update>>, fault: Fault): Outcome {
    var tasks := TasksOf(c.registry, node, order);
    if fault.ReadFails? || tasks == [] then Outcome(c, 0, [])
    else if fault.PipelineFails? && fault.at < |tasks| then
      var before := ApplyUpdates(ReclaimFirst(c, node, tasks, others, fault.at), UpdatesAt(others, fault.at));
      Outcome(if fault.landed then Reclaim(before, tasks[fault.at], node) else before, 0, [])
    else Outcome(ReclaimFirst(c, node, tasks, others, |tasks|), |tasks|, [NodeDead(node, tasks)])
  }

  // Alone.

  /** The tasks come in the order they are listed. */
  lemma {:induction false} TasksKeepOrder(registry: map<string, string>, node: string, a: seq<string>, b: seq<string>)
    ensures TasksOf(registry, node, a + b) == TasksOf(registry, node, a) + TasksOf(registry, node, b)
    ensures |a| == 1 && a[0] in registry && registry[a[0]] == node ==> TasksOf(registry, node, a) == a
  {
    assert |a| == 1 ==> a[..0] == [] && a == [a[0]];
    if b == [] {
      assert a + b == a;
    } else {
      assert (a + b)[..|a + b| - 1] == a + b[..|b| - 1];
      TasksKeepOrder(registry, node, a, b[..|b| - 1]);
    }
  }

  /** A call that breaks off at its read or at one of its pipelines answers 0 and raises no alert. */
  lemma BrokenCallAnswersZero(c: Cluster, node: string, order: seq<string>, others: seq<seq<Update>>, fault: Fault)
    requires fault.ReadFails? || (fault.PipelineFails? && fault.at < |TasksOf(c.registry, node, order)|)
    ensures Failover(c, node, order, others, fault).count == 0
    ensures Failover(c, node, order, others, fault).alerts == []
    ensures fault.ReadFails? ==> Failover(c, node, order, others, fault).cluster == c
  {
  }

  /** The cluster without some tasks, which were broadcast as lost by `node`. */
  predicate Without(before: Cluster, after: Cluster, node: string, gone: seq<string>) {
    && after.registry == before.registry - Members(gone)
    && after.locks == before.locks - Members(gone)
    && after.broadcasts == before.broadcasts + Rebalances(gone, node)
  }

  function Rebalances(tasks: seq<string>, node: string): (news: seq<Rebalance>)
    ensures |news| == |tasks| && forall i :: 0 <= i < |tasks| ==> news[i] == Rebalance(tasks[i], node)
  {
    seq(|tasks|, i requires 0 <= i < |tasks| => Rebalance(tasks[i], node))
  }

  /** Undisturbed, the first pipelines remove their tasks, their locks, and nothing else. */
  lemma {:induction false} ReclaimsFirstTasks(c: Cluster, node: string, tasks: seq<string>, n: nat)
    requires n <= |tasks|
    ensures Without(c, ReclaimFirst(c, node, tasks, [], n), node, tasks[..n])
  {
    if n > 0 {
      ReclaimsFirstTasks(c, node, tasks, n - 1);
      assert tasks[..n] == tasks[..n - 1] + [tasks[n - 1]];
      assert Members(tasks[..n]) == Members(tasks[..n - 1]) + {tasks[n - 1]};
      assert Rebalances(tasks[..n], node) == Rebalances(tasks[..n - 1], node) + [Rebalance(tasks[n - 1], node)];
    } else {
      assert Members(tasks[..0]) == {};
    }
  }

  /** The registry without the tasks of some nodes. */
  function Survivors(registry: map<string, string>, dead: set<string>): map<string, string> {
    map t | t in registry && registry[t] !in dead :: registry[t]
  }

  function DeadTasks(registry: map<string, string>, dead: set<string>): set<string> {
    set t | t in registry && registry[t] in dead
  }

  /** One broadcast for each task of some nodes. */
  function News(registry: map<string, string>, dead: set<string>): set<Rebalance> {
    set t | t in registry && registry[t] in dead :: Rebalance(t, registry[t])
  }

  /** The dead nodes' tasks and their locks are gone, each task was broadcast once, and nothing else has changed. */
  ghost predicate FailedOver(before: Cluster, after: Cluster, dead: set<string>) {
    && after.registry == Survivors(before.registry, dead)
    && after.locks == before.locks - DeadTasks(before.registry, dead)
    && multiset(after.broadcasts) == multiset(before.broadcasts) + multiset(News(before.registry, dead))
  }

  lemma {:induction false} TasksAreDistinct(registry: map<string, string>, node: string, order: seq<string>)
    requires Distinct(order)
    ensures Distinct(TasksOf(registry, node, order))
  {
    if order != [] {
      TasksAreDistinct(registry, node, order[..|order| - 1]);
    }
  }

  function RebalanceSet(tasks: set<string>, node: string): set<Rebalance> {
    set t | t in tasks :: Rebalance(t, node)
  }

  /** Some tasks of a node wholly reclaimed, the others wholly untouched. */
  ghost predicate PartlyFailedOver(before: Cluster, after: Cluster, node: string, gone: set<string>) {
    && gone <= DeadTasks(before.registry, {node})
    && after.registry == before.registry - gone
    && after.locks == before.locks - gone
    && multiset(after.broadcasts) == multiset(before.broadcasts) + multiset(RebalanceSet(gone, node))
  }

  lemma {:induction false} DistinctNews(tasks: seq<string>, node: string)
    requires Distinct(tasks)
    ensures multiset(Rebalances(tasks, node)) == multiset(RebalanceSet(Members(tasks), node))
    ensures |Members(tasks)| == |tasks|
  {
    if tasks == [] {
      assert Members(tasks) == {} && RebalanceSet({}, node) == {};
    } else {
      var front, last := tasks[..|tasks| - 1], tasks[|tasks| - 1];
      DistinctNews(front, node);
      assert tasks == front + [last];
      assert Members(tasks) == Members(front) + {last};
      assert last !in Members(front);
      assert Rebalances(tasks, node) == Rebalances(front, node) + [Rebalance(last, node)];
      assert RebalanceSet(Members(tasks), node) == RebalanceSet(Members(front), node) + {Rebalance(last, node)};
      assert Rebalance(last, node) !in RebalanceSet(Members(front), node);
    }
  }

  lemma WithoutIsPartial(before: Cluster, after: Cluster, node: string, gone: seq<string>)
    requires Distinct(gone) && Without(before, after, node, gone) && Members(gone) <= DeadTasks(before.registry, {node})
    ensures PartlyFailedOver(before, after, node, Members(gone))
  {
    DistinctNews(gone, node);
    assert multiset(after.broadcasts) == multiset(before.broadcasts) + multiset(Rebalances(gone, node));
  }

  /** How many tasks a call reclaims. */
  function Reaches(n: nat, fault: Fault): (m: nat)
    ensures m <= n
  {
    match fault
    case NoFault => n
    case ReadFails => 0
    case PipelineFails(at, landed) => if at < n then if landed then at + 1 else at else n
  }

  lemma StopsAfter(c: Cluster, node: string, order: seq<string>, fault: Fault)
    ensures var tasks := TasksOf(c.registry, node, order);
      Failover(c, node, order, [], fault).cluster == ReclaimFirst(c, node, tasks, [], Reaches(|tasks|, fault))
  {
    hide TasksOf, Reclaim;
  }

  /** However an undisturbed call ends, each task of the node is wholly reclaimed or untouched, and
      nothing else changes. */
  lemma FailoverIsPartial(c: Cluster, node: string, order: seq<string>, fault: Fault) returns (gone: set<string>)
    requires Lists(order, c.registry)
    ensures PartlyFailedOver(c, Failover(c, node, order, [], fault).cluster, node, gone)
    ensures var tasks := TasksOf(c.registry, node, order);
      gone == Members(tasks[..Reaches(|tasks|, fault)])
  {
    hide Failover, ReclaimFirst, Without, PartlyFailedOver;
    var tasks := TasksOf(c.registry, node, order);
    var n := Reaches(|tasks|, fault);
    TasksAreDistinct(c.registry, node, order);
    StopsAfter(c, node, order, fault);
    ReclaimsFirstTasks(c, node, tasks, n);
    gone := Members(tasks[..n]);
    assert forall t :: t in tasks[..n] ==> t in tasks;
    WithoutIsPartial(c, ReclaimFirst(c, node, tasks, [], n), node, tasks[..n]);
  }

  /** A complete call removes exactly the node's tasks and their locks; count, removals and broadcasts agree. */
  lemma CompleteFailover(c: Cluster, node: string, order: seq<string>)
    requires Lists(order, c.registry)
    ensures var o := Failover(c, node, order, [], NoFault);
      && FailedOver(c, o.cluster, {node})
      && o.count == |DeadTasks(c.registry, {node})|
      && |o.cluster.broadcasts| == |c.broadcasts| + o.count
      && (o.alerts == [] <==> o.count == 0) && |o.alerts| <= 1
      && forall a :: a in o.alerts ==> a.node == node && Members(a.tasks) == DeadTasks(c.registry, {node})
  {
    hide FailedOver, PartlyFailedOver, ReclaimFirst, TasksOf;
    var gone := FailoverIsPartial(c, node, order, NoFault);
    var tasks := TasksOf(c.registry, node, order);
    assert tasks[..|tasks|] == tasks;
    AllItsTasks(c, node, order);
    PartialOfAll(c, Failover(c, node, order, [], NoFault).cluster, node);
    CountOfTasks(c, node, order);
  }

  lemma AllItsTasks(c: Cluster, node: string, order: seq<string>)
    requires Lists(order, c.registry)
    ensures Members(TasksOf(c.registry, node, order)) == DeadTasks(c.registry, {node})
  {
  }

  lemma CountOfTasks(c: Cluster, node: string, order: seq<string>)
    requires Lists(order, c.registry)
    ensures var tasks := TasksOf(c.registry, node, order);
      && |tasks| == |Members(tasks)|
      && |ReclaimFirst(c, node, tasks, [], |tasks|).broadcasts| == |c.broadcasts| + |tasks|
  {
    var tasks := TasksOf(c.registry, node, order);
    TasksAreDistinct(c.registry, node, order);
    DistinctNews(tasks, node);
    ReclaimsFirstTasks(c, node, tasks, |tasks|);
    assert tasks[..|tasks|] == tasks;
  }

  lemma PartialOfAll(before: Cluster, after: Cluster, node: string)
    requires PartlyFailedOver(before, after, node, DeadTasks(before.registry, {node}))
    ensures FailedOver(before, after, {node})
  {
    assert Survivors(before.registry, {node}) == before.registry - DeadTasks(before.registry, {node});
    assert News(before.registry, {node}) == RebalanceSet(DeadTasks(before.registry, {node}), node);
  }

  /** Each lost task is broadcast once. */
  lemma OneBroadcastEach(registry: map<string, string>, dead: set<string>, task: string, node: string)
    ensures multiset(News(registry, dead))[Rebalance(task, node)]
         == if task in registry && registry[task] in dead && registry[task] == node then 1 else 0
  {
  }

  // Retries and several nodes.

  lemma NewsMembers(registry: map<string, string>, dead: set<string>)
    ensures forall n :: n in News(registry, dead) <==>
      n.task in registry && registry[n.task] in dead && n.oldNode == registry[n.task]
  {
  }

  lemma DisjointUnion<T>(a: set<T>, b: set<T>)
    requires a !! b
    ensures multiset(a + b) == multiset(a) + multiset(b)
  {
  }

  /** The news of two rounds, the second on the registry that the first left. */
  lemma NewsOfTwoRounds(registry: map<string, string>, first: set<string>, second: set<string>)
    ensures multiset(News(registry, first + second))
         == multiset(News(registry, first)) + multiset(News(Survivors(registry, first), second))
  {
    var survivors := Survivors(registry, first);
    NewsMembers(registry, first + second);
    NewsMembers(registry, first);
    NewsMembers(survivors, second);
    hide News;
    assert News(registry, first + second) == News(registry, first) + News(survivors, second);
    DisjointUnion(News(registry, first), News(survivors, second));
  }

  lemma RegistryOfTwoRounds(registry: map<string, string>, first: set<string>, second: set<string>)
    ensures Survivors(Survivors(registry, first), second) == Survivors(registry, first + second)
    ensures DeadTasks(registry, first + second)
      == DeadTasks(registry, first) + DeadTasks(Survivors(registry, first), second)
  {
  }

  /** What failed over in two goes failed over. */
  lemma FailedOverTwice(a: Cluster, b: Cluster, c: Cluster, first: set<string>, second: set<string>)
    requires FailedOver(a, b, first) && FailedOver(b, c, second)
    ensures FailedOver(a, c, first + second)
  {
    hide Survivors, DeadTasks, News;
    RegistryOfTwoRounds(a.registry, first, second);
    NewsOfTwoRounds(a.registry, first, second);
    assert c.locks == a.locks - DeadTasks(a.registry, first + second);
  }

  lemma NewsOfPart(registry: map<string, string>, node: string, gone: set<string>)
    requires gone <= DeadTasks(registry, {node})
    ensures multiset(News(registry, {node}))
      == multiset(RebalanceSet(gone, node)) + multiset(News(registry - gone, {node}))
  {
    NewsMembers(registry, {node});
    NewsMembers(registry - gone, {node});
    assert forall n :: n in RebalanceSet(gone, node) <==> n.task in gone && n.oldNode == node;
    hide News, RebalanceSet;
    assert News(registry, {node}) == RebalanceSet(gone, node) + News(registry - gone, {node});
    DisjointUnion(RebalanceSet(gone, node), News(registry - gone, {node}));
  }

  lemma RegistryOfPart(registry: map<string, string>, node: string, gone: set<string>)
    requires gone <= DeadTasks(registry, {node})
    ensures Survivors(registry - gone, {node}) == Survivors(registry, {node})
    ensures DeadTasks(registry, {node}) == gone + DeadTasks(registry - gone, {node})
  {
  }

  lemma PartThenWhole(a: Cluster, b: Cluster, c: Cluster, node: string, gone: set<string>)
    requires PartlyFailedOver(a, b, node, gone) && FailedOver(b, c, {node})
    ensures FailedOver(a, c, {node})
  {
    hide Survivors, DeadTasks, News, RebalanceSet;
    RegistryOfPart(a.registry, node, gone);
    NewsOfPart(a.registry, node, gone);
    assert c.locks == a.locks - DeadTasks(a.registry, {node});
  }

  /** One call of a failover: the order in which it reads the registry, and where it breaks off. */
  datatype Try = Try(order: seq<string>, fault: Fault)

  function RunTries(c: Cluster, node: string, tries: seq<Try>): Cluster
    decreases |tries|
  {
    if tries == [] then c
    else RunTries(Failover(c, node, tries[0].order, [], tries[0].fault).cluster, node, tries[1..])
  }

  ghost predicate TriesList(c: Cluster, node: string, tries: seq<Try>)
    decreases |tries|
  {
    tries == [] ||
    (&& Lists(tries[0].order, c.registry)
     && TriesList(Failover(c, node, tries[0].order, [], tries[0].fault).cluster, node, tries[1..]))
  }

  /** Any number of broken calls and then a complete one do what a single complete call does. */
  lemma {:induction false} RetriesEndTheSame(c: Cluster, node: string, tries: seq<Try>)
    requires tries != [] && tries[|tries| - 1].fault == NoFault && TriesList(c, node, tries)
    ensures FailedOver(c, RunTries(c, node, tries), {node})
    decreases |tries|
  {
    hide Failover, FailedOver, PartlyFailedOver, Lists;
    var after := Failover(c, node, tries[0].order, [], tries[0].fault).cluster;
    if |tries| == 1 {
      CompleteFailover(c, node, tries[0].order);
      assert RunTries(after, node, tries[1..]) == after;
    } else {
      var gone := FailoverIsPartial(c, node, tries[0].order, tries[0].fault);
      RetriesEndTheSame(after, node, tries[1..]);
      PartThenWhole(c, after, RunTries(after, node, tries[1..]), node, gone);
    }
  }

  /** Complete failovers of several nodes, one after the other. */
  function FailoverAll(c: Cluster, nodes: seq<string>, orders: seq<seq<string>>): Cluster
    requires |orders| == |nodes|
  {
    if nodes == [] then c
    else Failover(FailoverAll(c, nodes[..|nodes| - 1], orders[..|nodes| - 1]), nodes[|nodes| - 1],
      orders[|nodes| - 1], [], NoFault).cluster
  }

  ghost predicate OrdersList(c: Cluster, nodes: seq<string>, orders: seq<seq<string>>)
    requires |orders| == |nodes|
  {
    nodes == [] ||
    var n := |nodes| - 1;
    OrdersList(c, nodes[..n], orders[..n]) && Lists(orders[n], FailoverAll(c, nodes[..n], orders[..n]).registry)
  }

  lemma {:induction false} AllFailedOver(c: Cluster, nodes: seq<string>, orders: seq<seq<string>>)
    requires |orders| == |nodes| && OrdersList(c, nodes, orders)
    ensures FailedOver(c, FailoverAll(c, nodes, orders), Members(nodes))
  {
    hide Failover, Lists, FailedOver;
    if nodes == [] {
      NobodyDied(c);
      assert Members(nodes) == {};
    } else {
      var n := |nodes| - 1;
      AllFailedOver(c, nodes[..n], orders[..n]);
      CompleteFailover(FailoverAll(c, nodes[..n], orders[..n]), nodes[n], orders[n]);
      FailedOverTwice(c, FailoverAll(c, nodes[..n], orders[..n]), FailoverAll(c, nodes, orders),
        Members(nodes[..n]), {nodes[n]});
      assert nodes == nodes[..n] + [nodes[n]];
      assert Members(nodes) == Members(nodes[..n]) + {nodes[n]};
    }
  }

  lemma NobodyDied(c: Cluster)
    ensures FailedOver(c, c, {})
  {
    assert Survivors(c.registry, {}) == c.registry;
    assert DeadTasks(c.registry, {}) == {} && News(c.registry, {}) == {};
  }

  /** The same nodes, in any order and however often, leave the same registry, locks and broadcasts. */
  lemma NodeOrderDoesNotMatter(c: Cluster, nodes: seq<string>, orders: seq<seq<string>>, nodes': seq<string>,
      orders': seq<seq<string>>)
    requires |orders| == |nodes| && OrdersList(c, nodes, orders)
    requires |orders'| == |nodes'| && OrdersList(c, nodes', orders')
    requires forall n :: n in nodes <==> n in nodes'
    ensures var a, b := FailoverAll(c, nodes, orders), FailoverAll(c, nodes', orders');
      a.registry == b.registry && a.locks == b.locks && multiset(a.broadcasts) == multiset(b.broadcasts)
  {
    hide FailoverAll, OrdersList;
    AllFailedOver(c, nodes, orders);
    AllFailedOver(c, nodes', orders');
    assert Members(nodes) == Members(nodes');
  }

  // With others at work: the registry is read once, and a pipeline does not look again.

  function NodeOf(registry: map<string, string>, task: string): Option<string> {
    if task in registry then Some(registry[task]) else None
  }

  /** Where a task is registered after some updates, if it was registered at `start` before. */
  function Moved(start: Option<string>, us: seq<Update>, task: string): Option<string> {
    if us == [] then start
    else
      match us[|us| - 1]
      case Register(t, node) => if t == task then Some(node) else Moved(start, us[..|us| - 1], task)
      case Unregister(t) => if t == task then None else Moved(start, us[..|us| - 1], task)
      case _ => Moved(start, us[..|us| - 1], task)
  }

  lemma {:induction false} UpdatesMove(c: Cluster, us: seq<Update>, task: string)
    ensures NodeOf(ApplyUpdates(c, us).registry, task) == Moved(NodeOf(c.registry, task), us, task)
  {
    if us != [] {
      UpdatesMove(c, us[..|us| - 1], task);
    }
  }

  lemma {:induction false} MovedTwice(start: Option<string>, a: seq<Update>, b: seq<Update>, task: string)
    ensures Moved(start, a + b, task) == Moved(Moved(start, a, task), b, task)
  {
    if b == [] {
      assert a + b == a;
    } else {
      assert (a + b)[..|a + b| - 1] == a + b[..|b| - 1];
      MovedTwice(start, a, b[..|b| - 1], task);
    }
  }

  /** All updates of others before the first `n` pipelines. */
  function Earlier(others: seq<seq<Update>>, n: nat): seq<Update> {
    if n == 0 then [] else Earlier(others, n - 1) + UpdatesAt(others, n - 1)
  }

  /** A task that is not (yet) reclaimed is registered where the others put it: pipelines touch nothing else. */
  lemma {:induction false} OnlyOthersMove(c: Cluster, node: string, tasks: seq<string>, others: seq<seq<Update>>,
      n: nat, task: string)
    requires n <= |tasks| && task !in tasks[..n]
    ensures NodeOf(ReclaimFirst(c, node, tasks, others, n).registry, task)
         == Moved(NodeOf(c.registry, task), Earlier(others, n), task)
  {
    if n > 0 {
      assert forall t :: t in tasks[..n - 1] ==> t in tasks[..n];
      assert tasks[n - 1] in tasks[..n];
      OnlyOthersMove(c, node, tasks, others, n - 1, task);
      UpdatesMove(ReclaimFirst(c, node, tasks, others, n - 1), UpdatesAt(others, n - 1), task);
      MovedTwice(NodeOf(c.registry, task), Earlier(others, n - 1), UpdatesAt(others, n - 1), task);
    }
  }

  /** The `i`-th pipeline deletes a registration at a living node. */
  predicate WipesLive(c: Cluster, node: string, tasks: seq<string>, others: seq<seq<Update>>, i: nat)
    requires i < |tasks|
  {
    var before := ApplyUpdates(ReclaimFirst(c, node, tasks, others, i), UpdatesAt(others, i));
    NodeOf(before.registry, tasks[i]).Some? && NodeOf(before.registry, tasks[i]) != Some(node)
  }

  /** That happens exactly when the others have last registered the task at another node since the read. */
  lemma WipesLiveExactly(c: Cluster, node: string, order: seq<string>, others: seq<seq<Update>>, i: nat)
    requires Lists(order, c.registry) && i < |TasksOf(c.registry, node, order)|
    ensures var tasks := TasksOf(c.registry, node, order);
      var now := Moved(Some(node), Earlier(others, i + 1), tasks[i]);
      WipesLive(c, node, tasks, others, i) <==> now.Some? && now != Some(node)
  {
    var tasks := TasksOf(c.registry, node, order);
    TasksAreDistinct(c.registry, node, order);
    assert tasks[i] in tasks;
    assert tasks[i] !in tasks[..i];
    OnlyOthersMove(c, node, tasks, others, i, tasks[i]);
    UpdatesMove(ReclaimFirst(c, node, tasks, others, i), UpdatesAt(others, i), tasks[i]);
    MovedTwice(Some(node), Earlier(others, i), UpdatesAt(others, i), tasks[i]);
  }

  /** A task that another node takes over between the read and its pipeline loses its new registration and lock. */
  lemma StaleReadWipesNewOwner(task: string, dead: string, heir: string)
    requires heir != dead
    ensures var c := Cluster(map[task := dead], map[], []);
      var takeover := [[Register(task, heir), Lock(task, heir)]];
      && Lists([task], c.registry)
      && Failover(c, dead, [task], takeover, NoFault).cluster == Cluster(map[], map[], [Rebalance(task, dead)])
  {
    var c := Cluster(map[task := dead], map[], []);
    assert [task][..0] == [];
    assert TasksOf(c.registry, dead, []) == [];
    assert TasksOf(c.registry, dead, [task]) == [task];
    var us := [Register(task, heir), Lock(task, heir)];
    assert us[..1] == [us[0]] && us[..1][..0] == [];
    assert ApplyUpdates(c, us[..1]) == ApplyUpdate(ApplyUpdates(c, []), us[0]);
    var taken := ApplyUpdates(c, us);
    assert taken == Cluster(map[task := heir], map[task := heir], []);
    assert ReclaimFirst(c, dead, [task], [us], 1) == Reclaim(taken, task, dead);
  }

  // The manager object.

  class AgentManager {
    const clustered: bool
    var cluster: Cluster
    var alerts: seq<NodeDead>

    constructor (clustered: bool, cluster: Cluster)
      ensures this.clustered == clustered && this.cluster == cluster && alerts == []
    {
      this.clustered, this.cluster, alerts := clustered, cluster, [];
    }

    /** The comprehension over the items of the registry. */
    method TasksToReclaim(node: string, order: seq<string>) returns (tasks: seq<string>)
      ensures tasks == TasksOf(cluster.registry, node, order)
    {
      tasks := [];
      for i := 0 to |order|
        invariant tasks == TasksOf(cluster.registry, node, order[..i])
      {
        assert order[..i + 1][..i] == order[..i];
        if order[i] in cluster.registry && cluster.registry[order[i]] == node {
          tasks := tasks + [order[i]];
        }
      }
      assert order[..|order|] == order;
    }

    /** `perform_failover`; any exception ends in the answer 0. */
    method PerformFailover(deadNode: string, order: seq<string>, others: seq<seq<Update>>, fault: Fault)
        returns (count: nat)
      modifies this
      ensures if clustered
        then
          var o := Failover(old(cluster), deadNode, order, others, fault);
          cluster == o.cluster && count == o.count && alerts == old(alerts) + o.alerts
        else count == 0 && cluster == old(cluster) && alerts == old(alerts)
    {
      if !clustered || fault.ReadFails? {
        return 0;
      }
      hide ApplyUpdates, Reclaim, UpdatesAt, TasksOf;
      var tasks := TasksToReclaim(deadNode, order);
      if tasks == [] {
        return 0;
      }
      count := 0;
      while count < |tasks|
        invariant count <= |tasks| && alerts == old(alerts)
        invariant cluster == ReclaimFirst(old(cluster), deadNode, tasks, others, count)
        invariant fault.PipelineFails? ==> count <= fault.at
      {
        cluster := ApplyUpdates(cluster, UpdatesAt(others, count));
        if fault.PipelineFails? && fault.at == count {
          if fault.landed {
            cluster := Reclaim(cluster, tasks[count], deadNode);
          }
          return 0;
        }
        cluster := Reclaim(cluster, tasks[count], deadNode);
        count := count + 1;
      }
      alerts := alerts + [NodeDead(deadNode, tasks)];
    }
  }
}
