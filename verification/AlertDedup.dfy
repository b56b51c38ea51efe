/**
Deduplication and grouping of alerts (src/cluster/alert_engine.py, `_aggregate`): the first
event of every key survives, and the survivors are grouped by type.
*/
module AlertDedups {
  import opened Texts

  datatype Event = Event(kind: string, severity: string, source: string, message: string)

  /** What makes two alerts the same. */
  datatype Triple = Triple(source: string, kind: string, severity: string)

  function TripleOf(e: Event): Triple {
    Triple(e.source, e.kind, e.severity)
  }

  function KeyText(t: Triple): string {
    t.source + ":" + t.kind + ":" + t.severity
  }

  function DedupKey(e: Event): string {
    KeyText(TripleOf(e))
  }

  // The survivors.

  predicate IsFirst(events: seq<Event>, i: nat) {
    i < |events| && forall j :: 0 <= j < i ==> DedupKey(events[j]) != DedupKey(events[i])
  }

  /** Of the first `n` events, those with no earlier event of the same key, in order. */
  function FirstsUpTo(events: seq<Event>, n: nat): seq<Event>
    requires n <= |events|
  {
    if n == 0 then []
    else FirstsUpTo(events, n - 1) + (if IsFirst(events, n - 1) then [events[n - 1]] else [])
  }

  function Firsts(events: seq<Event>): seq<Event> {
    FirstsUpTo(events, |events|)
  }

  /** The survivors are events of their own, earliest first: each is the first with its key. */
  lemma {:induction false} FirstsAreFirst(events: seq<Event>, n: nat, i: nat)
    requires i < n <= |events|
    ensures (forall j :: 0 <= j < i ==> DedupKey(events[j]) != DedupKey(events[i])) ==>
      events[i] in FirstsUpTo(events, n)
    ensures FirstsUpTo(events, i + 1) <= FirstsUpTo(events, n)
    ensures FirstsUpTo(events, i + 1) == FirstsUpTo(events, i)
      || FirstsUpTo(events, i + 1) == FirstsUpTo(events, i) + [events[i]]
  {
    hide DedupKey;
    if i < n - 1 {
      FirstsAreFirst(events, n - 1, i);
    }
  }

  function Keys(events: seq<Event>): set<string> {
    set i | 0 <= i < |events| :: DedupKey(events[i])
  }

  ghost predicate DistinctKeys(events: seq<Event>) {
    forall i, j :: 0 <= i < j < |events| ==> DedupKey(events[i]) != DedupKey(events[j])
  }

  lemma {:induction false} FirstsPrefix(a: seq<Event>, b: seq<Event>, n: nat)
    requires n <= |a| && n <= |b| && a[..n] == b[..n]
    ensures FirstsUpTo(a, n) == FirstsUpTo(b, n)
  {
    if n > 0 {
      assert a[..n - 1] == a[..n][..n - 1] && b[..n - 1] == b[..n][..n - 1];
      FirstsPrefix(a, b, n - 1);
      assert forall j :: 0 <= j < n ==> a[j] == a[..n][j] && b[j] == b[..n][j];
    }
  }

  lemma KeysSnoc(events: seq<Event>, e: Event)
    ensures Keys(events + [e]) == Keys(events) + {DedupKey(e)}
  {
    var more := events + [e];
    assert forall i :: 0 <= i < |events| ==> more[i] == events[i];
    assert more[|events|] == e;
    forall k | k in Keys(events) + {DedupKey(e)}
      ensures k in Keys(more)
    {
      if k in Keys(events) {
        var i :| 0 <= i < |events| && DedupKey(events[i]) == k;
        assert DedupKey(more[i]) == k;
      }
    }
  }

  /** The survivors have the keys of all events, each once. */
  lemma {:induction false} FirstsHaveEachKeyOnce(events: seq<Event>, n: nat)
    requires n <= |events|
    ensures Keys(FirstsUpTo(events, n)) == Keys(events[..n])
    ensures DistinctKeys(FirstsUpTo(events, n))
  {
    hide DedupKey;
    if n > 0 {
      FirstsHaveEachKeyOnce(events, n - 1);
      var last := events[n - 1];
      assert events[..n] == events[..n - 1] + [last];
      KeysSnoc(events[..n - 1], last);
      FirstMeansNewKey(events, n - 1);
      if IsFirst(events, n - 1) {
        KeysSnoc(FirstsUpTo(events, n - 1), last);
        DistinctSnoc(FirstsUpTo(events, n - 1), last);
      } else {
        assert FirstsUpTo(events, n) == FirstsUpTo(events, n - 1);
        assert Keys(events[..n]) == Keys(events[..n - 1]);
      }
    }
  }

  lemma FirstMeansNewKey(events: seq<Event>, i: nat)
    requires i < |events|
    ensures IsFirst(events, i) <==> DedupKey(events[i]) !in Keys(events[..i])
  {
    hide DedupKey;
    assert forall j :: 0 <= j < i ==> events[..i][j] == events[j];
    forall j | 0 <= j < i
      ensures DedupKey(events[j]) in Keys(events[..i])
    {
      assert DedupKey(events[..i][j]) in Keys(events[..i]);
    }
  }

  lemma DistinctSnoc(events: seq<Event>, e: Event)
    requires DistinctKeys(events) && DedupKey(e) !in Keys(events)
    ensures DistinctKeys(events + [e])
  {
    hide DedupKey;
    var more := events + [e];
    forall i, j | 0 <= i < j < |more|
      ensures DedupKey(more[i]) != DedupKey(more[j])
    {
      assert more[i] == events[i];
      assert DedupKey(events[i]) in Keys(events);
    }
  }

  /** Deduplicating distinct events changes nothing. */
  lemma {:induction false} FirstsOfDistinct(events: seq<Event>, n: nat)
    requires DistinctKeys(events) && n <= |events|
    ensures FirstsUpTo(events, n) == events[..n]
  {
    hide DedupKey;
    if n > 0 {
      FirstsOfDistinct(events, n - 1);
      assert events[..n] == events[..n - 1] + [events[n - 1]];
    }
  }

  /** The number of survivors is the number of keys. */
  lemma {:induction false} DistinctCount(events: seq<Event>)
    requires DistinctKeys(events)
    ensures |Keys(events)| == |events|
  {
    hide DedupKey;
    if events != [] {
      var front, last := events[..|events| - 1], events[|events| - 1];
      DistinctCount(front);
      assert events == front + [last];
      KeysSnoc(front, last);
      assert DedupKey(last) !in Keys(front);
    }
  }

  // The groups.

  /** One item of the resulting dictionary; the dictionary keeps the order of insertion. */
  datatype Group = Group(kind: string, events: seq<Event>)

  /** `grouped[e.type].append(e)`. */
  function AddTo(groups: seq<Group>, e: Event): seq<Group> {
    if groups == [] then [Group(e.kind, [e])]
    else if groups[0].kind == e.kind then [Group(e.kind, groups[0].events + [e])] + groups[1..]
    else [groups[0]] + AddTo(groups[1..], e)
  }

  function GroupByKind(events: seq<Event>): seq<Group> {
    if events == [] then []
    else AddTo(GroupByKind(events[..|events| - 1]), events[|events| - 1])
  }

  function Aggregated(events: seq<Event>): seq<Group> {
    GroupByKind(Firsts(events))
  }

  function OfKind(events: seq<Event>, kind: string): seq<Event> {
    if events == [] then []
    else
      var front, last := OfKind(events[..|events| - 1], kind), events[|events| - 1];
      if last.kind == kind then front + [last] else front
  }

  /** The events of a kind as the groups have them. */
  function Lookup(groups: seq<Group>, kind: string): seq<Event> {
    if groups == [] then []
    else if groups[0].kind == kind then groups[0].events
    else Lookup(groups[1..], kind)
  }

  /** Kinds are distinct, and every group holds at least one event, and only its kind. */
  ghost predicate WellGrouped(groups: seq<Group>) {
    && (forall i, j :: 0 <= i < j < |groups| ==> groups[i].kind != groups[j].kind)
    && (forall i :: 0 <= i < |groups| ==> OneKind(groups[i]))
  }

  predicate OneKind(g: Group) {
    g.events != [] && forall j :: 0 <= j < |g.events| ==> g.events[j].kind == g.kind
  }

  function AllEvents(groups: seq<Group>): seq<Event> {
    if groups == [] then []
    else AllEvents(groups[..|groups| - 1]) + groups[|groups| - 1].events
  }

  function TotalCount(groups: seq<Group>): nat {
    if groups == [] then 0
    else TotalCount(groups[..|groups| - 1]) + |groups[|groups| - 1].events|
  }

  lemma {:induction false} AddToKinds(groups: seq<Group>, e: Event)
    requires WellGrouped(groups)
    ensures WellGrouped(AddTo(groups, e))
    ensures forall i :: 0 <= i < |AddTo(groups, e)| ==>
      AddTo(groups, e)[i].kind == e.kind || exists j :: 0 <= j < |groups| && groups[j].kind == AddTo(groups, e)[i].kind
  {
    if groups != [] && groups[0].kind != e.kind {
      AddToKinds(groups[1..], e);
      var more := AddTo(groups[1..], e);
      forall i | 0 <= i < |more|
        ensures more[i].kind == e.kind || exists j :: 0 < j < |groups| && groups[j].kind == more[i].kind
      {
        if more[i].kind != e.kind {
          var j :| 0 <= j < |groups[1..]| && groups[1..][j].kind == more[i].kind;
          assert groups[j + 1].kind == more[i].kind;
        }
      }
    }
  }

  lemma {:induction false} AddToLookup(groups: seq<Group>, e: Event, kind: string)
    ensures Lookup(AddTo(groups, e), kind) == Lookup(groups, kind) + (if kind == e.kind then [e] else [])
  {
    if groups != [] && groups[0].kind != e.kind {
      AddToLookup(groups[1..], e, kind);
    }
  }

  /** The groups partition the events by kind, each in order. */
  lemma {:induction false} GroupsPartition(events: seq<Event>, kind: string)
    ensures WellGrouped(GroupByKind(events))
    ensures Lookup(GroupByKind(events), kind) == OfKind(events, kind)
  {
    if events != [] {
      var front, last := events[..|events| - 1], events[|events| - 1];
      GroupsPartition(front, kind);
      AddToKinds(GroupByKind(front), last);
      AddToLookup(GroupByKind(front), last, kind);
    }
  }

  lemma {:induction false} AddToEvents(groups: seq<Group>, e: Event)
    ensures multiset(AllEvents(AddTo(groups, e))) == multiset(AllEvents(groups)) + multiset{e}
  {
    if groups == [] {
      assert AddTo(groups, e)[..0] == [];
      assert AllEvents(AddTo(groups, e)) == [e];
    } else if groups[0].kind == e.kind {
      AllEventsCons(groups[0], groups[1..]);
      AllEventsCons(Group(e.kind, groups[0].events + [e]), groups[1..]);
      assert groups == [groups[0]] + groups[1..];
    } else {
      AddToEvents(groups[1..], e);
      AllEventsCons(groups[0], groups[1..]);
      AllEventsCons(groups[0], AddTo(groups[1..], e));
      assert groups == [groups[0]] + groups[1..];
    }
  }

  lemma {:induction false} AllEventsCons(g: Group, groups: seq<Group>)
    ensures AllEvents([g] + groups) == g.events + AllEvents(groups)
  {
    if groups == [] {
      assert ([g] + groups)[..0] == [];
    } else {
      var n := |groups| - 1;
      assert ([g] + groups)[..n + 1] == [g] + groups[..n];
      AllEventsCons(g, groups[..n]);
    }
  }

  lemma NoGroupsNoEvents()
    ensures AllEvents(GroupByKind([])) == []
  {
  }

  /** No event is lost or doubled by grouping. */
  lemma {:induction false} GroupsKeepEvents(events: seq<Event>)
    ensures multiset(AllEvents(GroupByKind(events))) == multiset(events)
  {
    hide AddTo, AllEvents;
    if events == [] {
      NoGroupsNoEvents();
    } else {
      var front, last := events[..|events| - 1], events[|events| - 1];
      GroupsKeepEvents(front);
      AddToEvents(GroupByKind(front), last);
      assert events == front + [last];
    }
  }

  lemma {:induction false} TotalIsCount(groups: seq<Group>)
    ensures TotalCount(groups) == |AllEvents(groups)|
  {
    if groups != [] {
      TotalIsCount(groups[..|groups| - 1]);
    }
  }

  /** The total that is reported is the number of distinct keys. */
  lemma TotalIsDistinctKeys(events: seq<Event>)
    ensures TotalCount(Aggregated(events)) == |Keys(events)|
  {
    var firsts := Firsts(events);
    TotalIsCount(GroupByKind(firsts));
    GroupsKeepEvents(firsts);
    assert |AllEvents(GroupByKind(firsts))| == |multiset(AllEvents(GroupByKind(firsts)))|
      == |multiset(firsts)| == |firsts|;
    FirstsHaveEachKeyOnce(events, |events|);
    assert events[..|events|] == events;
    DistinctCount(firsts);
  }

  // Aggregating again.

  lemma {:induction false} AddToBehind(groups: seq<Group>, e: Event, last: seq<Event>)
    requires forall i :: 0 <= i < |groups| ==> groups[i].kind != e.kind
    ensures AddTo(groups, e) == groups + [Group(e.kind, [e])]
    ensures AddTo(groups + [Group(e.kind, last)], e) == groups + [Group(e.kind, last + [e])]
  {
    if groups != [] {
      AddToBehind(groups[1..], e, last);
      assert (groups + [Group(e.kind, last)])[1..] == groups[1..] + [Group(e.kind, last)];
    }
  }

  lemma GroupSnoc(events: seq<Event>, e: Event)
    ensures GroupByKind(events + [e]) == AddTo(GroupByKind(events), e)
  {
    assert (events + [e])[..|events|] == events;
  }

  /** A run of events of one new kind becomes one new group. */
  lemma {:induction false} GroupOfRun(front: seq<Event>, groups: seq<Group>, kind: string, run: seq<Event>)
    requires GroupByKind(front) == groups && run != []
    requires forall i :: 0 <= i < |groups| ==> groups[i].kind != kind
    requires forall j :: 0 <= j < |run| ==> run[j].kind == kind
    ensures GroupByKind(front + run) == groups + [Group(kind, run)]
  {
    hide AddTo, GroupByKind;
    var n := |run| - 1;
    assert front + run == (front + run[..n]) + [run[n]];
    GroupSnoc(front + run[..n], run[n]);
    if n == 0 {
      assert front + run[..n] == front;
      assert run == [run[0]];
      AddToBehind(groups, run[0], []);
    } else {
      GroupOfRun(front, groups, kind, run[..n]);
      AddToBehind(groups, run[n], run[..n]);
      assert run == run[..n] + [run[n]];
    }
  }

  /** Grouping the events of the groups, group after group, gives the groups back. */
  lemma {:induction false} RegroupingIsIdentity(groups: seq<Group>)
    requires WellGrouped(groups)
    ensures GroupByKind(AllEvents(groups)) == groups
  {
    hide AddTo;
    if groups != [] {
      var n := |groups| - 1;
      RegroupingIsIdentity(groups[..n]);
      assert OneKind(groups[n]);
      GroupOfRun(AllEvents(groups[..n]), groups[..n], groups[n].kind, groups[n].events);
      assert groups == groups[..n] + [groups[n]];
    }
  }

  lemma SameEventsStayDistinct(a: seq<Event>, b: seq<Event>)
    requires multiset(a) == multiset(b) && DistinctKeys(a)
    ensures DistinctKeys(b)
  {
    hide DedupKey;
    forall i, j | 0 <= i < j < |b|
      ensures DedupKey(b[i]) != DedupKey(b[j])
    {
      assert b[i] in multiset(a) && b[j] in multiset(a);
      var x :| 0 <= x < |a| && a[x] == b[i];
      var y :| 0 <= y < |a| && a[y] == b[j];
      TwiceInMultiset(b, i, j);
      OnceInMultiset(a, x);
    }
  }

  lemma TwiceInMultiset(b: seq<Event>, i: nat, j: nat)
    requires i < j < |b|
    ensures b[i] == b[j] ==> multiset(b)[b[i]] >= 2
  {
    assert b == b[..i] + [b[i]] + b[i + 1..j] + [b[j]] + b[j + 1..];
  }

  lemma OnceInMultiset(a: seq<Event>, x: nat)
    requires DistinctKeys(a) && x < |a|
    ensures multiset(a)[a[x]] == 1
  {
    hide DedupKey;
    assert a == a[..x] + [a[x]] + a[x + 1..];
    assert a[x] !in a[..x];
    assert a[x] !in a[x + 1..];
  }

  /** Aggregating the aggregated alerts changes nothing. */
  lemma AggregationIsIdempotent(events: seq<Event>)
    ensures Aggregated(AllEvents(Aggregated(events))) == Aggregated(events)
  {
    hide GroupByKind, AllEvents, FirstsUpTo, DistinctKeys, WellGrouped;
    var firsts := Firsts(events);
    var groups := GroupByKind(firsts);
    FirstsHaveEachKeyOnce(events, |events|);
    GroupsPartition(firsts, "");
    GroupsKeepEvents(firsts);
    SameEventsStayDistinct(firsts, AllEvents(groups));
    FirstsOfDistinct(AllEvents(groups), |AllEvents(groups)|);
    assert AllEvents(groups)[..|AllEvents(groups)|] == AllEvents(groups);
    RegroupingIsIdentity(groups);
  }

  // Keys and triples.

  function Triples(events: seq<Event>): set<Triple> {
    set i | 0 <= i < |events| :: TripleOf(events[i])
  }

  /** No two alerts that differ in source, type or severity share a key. */
  ghost predicate NoCollision(triples: set<Triple>) {
    forall a, b :: a in triples && b in triples && KeyText(a) == KeyText(b) ==> a == b
  }

  function KeyTexts(triples: set<Triple>): set<string> {
    set t | t in triples :: KeyText(t)
  }

  lemma {:induction false} KeyTextCount(triples: set<Triple>)
    ensures |KeyTexts(triples)| <= |triples|
    ensures |KeyTexts(triples)| == |triples| <==> NoCollision(triples)
    decreases triples
  {
    hide KeyText;
    if triples != {} {
      var t :| t in triples;
      var rest := triples - {t};
      KeyTextCount(rest);
      assert KeyTexts(triples) == KeyTexts(rest) + {KeyText(t)};
      assert triples == rest + {t};
      if KeyText(t) in KeyTexts(rest) {
        var other :| other in rest && KeyText(other) == KeyText(t);
        assert KeyTexts(triples) == KeyTexts(rest);
      } else {
        assert forall a :: a in rest ==> KeyText(a) in KeyTexts(rest);
      }
    }
  }

  lemma KeysAreTextsOfTriples(events: seq<Event>)
    ensures Keys(events) == KeyTexts(Triples(events))
  {
    hide KeyText;
    forall k | k in Keys(events)
      ensures k in KeyTexts(Triples(events))
    {
      var i :| 0 <= i < |events| && DedupKey(events[i]) == k;
      assert TripleOf(events[i]) in Triples(events);
    }
    forall k | k in KeyTexts(Triples(events))
      ensures k in Keys(events)
    {
      var t :| t in Triples(events) && KeyText(t) == k;
      var i :| 0 <= i < |events| && TripleOf(events[i]) == t;
      assert DedupKey(events[i]) == k;
    }
  }

  /** The reported total never exceeds the distinct triples, and equals them exactly when no two triples share a key. */
  lemma TotalIsDistinctTriplesExactly(events: seq<Event>)
    ensures TotalCount(Aggregated(events)) <= |Triples(events)|
    ensures TotalCount(Aggregated(events)) == |Triples(events)| <==> NoCollision(Triples(events))
  {
    hide Aggregated, Keys, Triples, NoCollision, KeyTexts;
    TotalIsDistinctKeys(events);
    KeysAreTextsOfTriples(events);
    KeyTextCount(Triples(events));
  }

  predicate NoColon(s: string) {
    ':' !in s
  }

  /** Type and severity of an alert. */
  datatype Label = Label(kind: string, severity: string)

  function LabelOf(t: Triple): Label {
    Label(t.kind, t.severity)
  }

  /** What follows the source in a key. */
  function Tail(l: Label): string {
    ":" + l.kind + ":" + l.severity
  }

  predicate IsSuffix(a: string, b: string) {
    |a| <= |b| && b[|b| - |a|..] == a
  }

  /** No label's tail ends another label's tail. */
  ghost predicate TellApart(labels: set<Label>) {
    forall p, q :: p in labels && q in labels && p != q ==> !IsSuffix(Tail(p), Tail(q))
  }

  /** With these labels and any sources whatever, different alerts have different keys. */
  ghost predicate NeverCollide(labels: set<Label>) {
    forall a: Triple, b: Triple ::
      LabelOf(a) in labels && LabelOf(b) in labels && KeyText(a) == KeyText(b) ==> a == b
  }

  lemma KeyIsSourceAndTail(t: Triple)
    ensures KeyText(t) == t.source + Tail(LabelOf(t))
  {
  }

  lemma SuffixCollides(labels: set<Label>, p: Label, q: Label)
    requires p in labels && q in labels && p != q && IsSuffix(Tail(p), Tail(q))
    ensures !NeverCollide(labels)
  {
    hide Tail, KeyText;
    var rest := Tail(q)[..|Tail(q)| - |Tail(p)|];
    var a, b := Triple(rest, p.kind, p.severity), Triple("", q.kind, q.severity);
    KeyIsSourceAndTail(a);
    KeyIsSourceAndTail(b);
    assert rest + Tail(p) == Tail(q) == "" + Tail(q);
    assert LabelOf(a) == p && LabelOf(b) == q && KeyText(a) == KeyText(b) && a != b;
  }

  lemma CollisionHasSuffix(a: Triple, b: Triple)
    requires KeyText(a) == KeyText(b) && |Tail(LabelOf(a))| <= |Tail(LabelOf(b))|
    ensures IsSuffix(Tail(LabelOf(a)), Tail(LabelOf(b)))
    ensures LabelOf(a) == LabelOf(b) ==> a == b
  {
    hide Tail;
    var x, y := Tail(LabelOf(a)), Tail(LabelOf(b));
    KeyIsSourceAndTail(a);
    KeyIsSourceAndTail(b);
    var key := a.source + x;
    assert key == b.source + y;
    assert x == key[|key| - |x|..] && y == key[|key| - |y|..];
    assert y[|y| - |x|..] == key[|key| - |x|..];
    assert a.source == key[..|key| - |x|] && b.source == key[..|key| - |y|];
  }

  /** The exact condition on types and severities: no collisions whatever the sources, if and only if
      no tail ends another. */
  lemma NoCollisionsExactly(labels: set<Label>)
    ensures NeverCollide(labels) <==> TellApart(labels)
  {
    hide Tail, KeyText, IsSuffix;
    if TellApart(labels) {
      forall a: Triple, b: Triple | LabelOf(a) in labels && LabelOf(b) in labels && KeyText(a) == KeyText(b)
        ensures a == b
      {
        if |Tail(LabelOf(a))| <= |Tail(LabelOf(b))| {
          CollisionHasSuffix(a, b);
        } else {
          CollisionHasSuffix(b, a);
        }
      }
    } else {
      var p, q :| p in labels && q in labels && p != q && IsSuffix(Tail(p), Tail(q));
      SuffixCollides(labels, p, q);
    }
  }

  function Labels(events: seq<Event>): set<Label> {
    set i | 0 <= i < |events| :: LabelOf(TripleOf(events[i]))
  }

  /** Labels that can be told apart make the reported total right. */
  lemma TotalIsRight(events: seq<Event>)
    requires TellApart(Labels(events))
    ensures NoCollision(Triples(events))
    ensures TotalCount(Aggregated(events)) == |Triples(events)|
  {
    hide Aggregated, TellApart, KeyText;
    NoCollisionsExactly(Labels(events));
    forall t | t in Triples(events)
      ensures LabelOf(t) in Labels(events)
    {
      var i :| 0 <= i < |events| && TripleOf(events[i]) == t;
    }
    TotalIsDistinctTriplesExactly(events);
  }

  /** Labels without colons can be told apart. */
  lemma NoColonsTellApart(labels: set<Label>)
    requires forall l :: l in labels ==> NoColon(l.kind) && NoColon(l.severity)
    ensures TellApart(labels)
  {
    hide NoColon, IsSuffix, Tail;
    forall p, q | p in labels && q in labels && IsSuffix(Tail(p), Tail(q))
      ensures p == q
    {
      SuffixIsWhole(p, q);
    }
  }

  lemma SuffixIsWhole(p: Label, q: Label)
    requires NoColon(p.kind) && NoColon(p.severity) && NoColon(q.kind) && NoColon(q.severity)
    requires IsSuffix(Tail(p), Tail(q))
    ensures p == q
  {
    var rest := Tail(q)[..|Tail(q)| - |Tail(p)|];
    assert Tail(q) == rest + Tail(p);
    Regroup(rest, ":" + p.kind, ":" + p.severity);
    Regroup(":" + q.kind, ":", q.severity);
    Regroup(":" + p.kind, ":", p.severity);
    Regroup(rest + (":" + p.kind), ":", p.severity);
    LastMarkSplits(':', rest + (":" + p.kind), p.severity, ":" + q.kind, q.severity);
    Regroup(rest, ":", p.kind);
    assert "" + ":" + q.kind == ":" + q.kind;
    LastMarkSplits(':', rest, p.kind, "", q.kind);
  }

  lemma Regroup(a: string, b: string, c: string)
    ensures a + (b + c) == a + b + c
  {
  }

  /** Without colons in type and severity there are no collisions, whatever the sources hold. */
  lemma NoColonsNoCollision(events: seq<Event>)
    requires forall i :: 0 <= i < |events| ==> NoColon(events[i].kind) && NoColon(events[i].severity)
    ensures NoCollision(Triples(events))
    ensures TotalCount(Aggregated(events)) == |Triples(events)|
  {
    hide Aggregated, NoColon;
    NoColonsTellApart(Labels(events));
    TotalIsRight(events);
  }

  /** With a colon in a type, two different alerts can count as one, and the second is dropped. */
  lemma CollidingAlerts(severity: string, message: string, other: string)
    ensures var a := Event("disk:full", severity, "node", message);
      var b := Event("full", severity, "node:disk", other);
      && TripleOf(a) != TripleOf(b)
      && Aggregated([a, b]) == [Group("disk:full", [a])]
  {
    var a := Event("disk:full", severity, "node", message);
    var b := Event("full", severity, "node:disk", other);
    assert "node" + ":" + "disk:full" == "node:disk:full" == "node:disk" + ":" + "full";
    assert "node" + ":" + "disk:full" + ":" + severity == "node:disk" + ":" + "full" + ":" + severity;
    assert DedupKey(a) == DedupKey(b);
    FirstOfTwo(a, b);
  }

  lemma FirstOfTwo(a: Event, b: Event)
    requires DedupKey(a) == DedupKey(b)
    ensures Aggregated([a, b]) == [Group(a.kind, [a])]
  {
    hide DedupKey;
    var events := [a, b];
    assert DedupKey(events[0]) == DedupKey(events[1]);
    assert IsFirst(events, 0) && !IsFirst(events, 1);
    assert FirstsUpTo(events, 1) == FirstsUpTo(events, 0) + [a] == [a];
    assert FirstsUpTo(events, 2) == FirstsUpTo(events, 1) + [] == [a];
    assert [a][..0] == [];
    assert GroupByKind([a]) == AddTo(GroupByKind([]), a);
  }
}
