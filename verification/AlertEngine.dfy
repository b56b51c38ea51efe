/**
The alert aggregator (src/cluster/alert_engine.py): the buffer, the loop that drains it in
pipelines, and the deduplication and grouping of what was drained.
*/
module AlertEngines {
  import opened AlertDedups
  import opened Collections
  import opened Wrappers

  // The Redis list. Its head is index 0: LPUSH adds at the head, RPOP takes from the tail.

  const BATCH_SIZE := 1000

  /** LPUSH of several payloads, one after the other. */
  function Push(list: seq<string>, payloads: seq<string>): seq<string> {
    Reversed(payloads) + list
  }

  /** The payloads in the order they were pushed. */
  function Pushed(list: seq<string>): seq<string> {
    Reversed(list)
  }

  /** `n` RPOPs in one pipeline: their replies, and what is left. */
  function Pops(list: seq<string>, n: nat): (seq<Option<string>>, seq<string>) {
    if n == 0 then ([], list)
    else
      var (replies, rest) := Pops(list, n - 1);
      if rest == [] then (replies + [None], rest)
      else (replies + [Some(rest[|rest| - 1])], rest[..|rest| - 1])
  }

  /** The replies are the oldest payloads in order, then nothing. */
  lemma {:induction false} PopsOldestFirst(list: seq<string>, n: nat)
    ensures var (replies, rest) := Pops(list, n);
      var m := Least(n, |list|);
      && |replies| == n
      && rest == list[..|list| - m]
      && forall i :: 0 <= i < n ==> replies[i] == if i < m then Some(Pushed(list)[i]) else None
  {
    if n > 0 {
      PopsOldestFirst(list, n - 1);
    }
  }

  /** What reading a pipeline's replies gives: the events, whether any payload was there, whether one
      failed to parse. */
  datatype Reading = Reading(events: seq<Event>, found: bool, failed: bool)

  function Read(decode: string -> Option<Event>, replies: seq<Option<string>>): Reading {
    if replies == [] then Reading([], false, false)
    else
      var front, last := Read(decode, replies[..|replies| - 1]), replies[|replies| - 1];
      if front.failed || last.None? || last.value == "" then front
      else
        match decode(last.value)
        case None => Reading(front.events, front.found, true)
        case Some(e) => Reading(front.events + [e], true, false)
  }

  /** What can befall a pipeline: nothing, an error before it reaches Redis, or the loss of its replies. */
  datatype Outage = Fine | FailsBefore | FailsAfter

  /** What happens from one pipeline to the next: payloads that others push, then the pipeline itself. */
  datatype Turn = Turn(arrivals: seq<string>, outage: Outage)

  /** The events a drain returns, what it leaves in the list, and how many turns it took from `turns`. */
  datatype Drained = Drained(events: seq<Event>, left: seq<string>, turns: nat)

  function FirstTurn(turns: seq<Turn>): Turn {
    if turns == [] then Turn([], Fine) else turns[0]
  }

  function LaterTurns(turns: seq<Turn>): (later: seq<Turn>)
    ensures |later| <= |turns|
    ensures turns != [] ==> |later| == |turns| - 1
  {
    if turns == [] then [] else turns[1..]
  }

  /** The drain loop; when `turns` run out nothing more arrives and nothing fails. */
  function Drain(decode: string -> Option<Event>, list: seq<string>, turns: seq<Turn>): Drained
    decreases |turns|, |list|
  {
    var turn, later := FirstTurn(turns), LaterTurns(turns);
    var used := |turns| - |later|;
    var full := Push(list, turn.arrivals);
    var (replies, rest) := Pops(full, BATCH_SIZE);
    var reading := Read(decode, replies);
    FoundMeansPopped(decode, full, BATCH_SIZE);
    if turn.outage.FailsBefore? then Drained([], full, used)
    else if turn.outage.FailsAfter? then Drained([], rest, used)
    else if reading.failed || !reading.found then Drained(reading.events, rest, used)
    else
      var tail := Drain(decode, rest, later);
      Drained(reading.events + tail.events, tail.left, used + tail.turns)
  }

  lemma {:induction false} NothingFound(decode: string -> Option<Event>, replies: seq<Option<string>>)
    requires forall i :: 0 <= i < |replies| ==> replies[i] == None
    ensures Read(decode, replies) == Reading([], false, false)
  {
    if replies != [] {
      NothingFound(decode, replies[..|replies| - 1]);
    }
  }

  lemma FoundMeansPopped(decode: string -> Option<Event>, list: seq<string>, n: nat)
    ensures Read(decode, Pops(list, n).0).found ==> |Pops(list, n).1| < |list|
  {
    PopsOldestFirst(list, n);
    if |list| == 0 || n == 0 {
      NothingFound(decode, Pops(list, n).0);
    }
  }

  // What a drain returns, and what it loses.

  predicate Bad(decode: string -> Option<Event>, payload: string) {
    payload != "" && decode(payload).None?
  }

  /** The events of the payloads that hold one. */
  function Decoded(decode: string -> Option<Event>, payloads: seq<string>): seq<Event> {
    if payloads == [] then []
    else
      var front, last := Decoded(decode, payloads[..|payloads| - 1]), payloads[|payloads| - 1];
      if last == "" || decode(last).None? then front else front + [decode(last).value]
  }

  lemma {:induction false} DecodedConcat(decode: string -> Option<Event>, a: seq<string>, b: seq<string>)
    ensures Decoded(decode, a + b) == Decoded(decode, a) + Decoded(decode, b)
  {
    if b == [] {
      assert a + b == a;
    } else {
      assert (a + b)[..|a + b| - 1] == a + b[..|b| - 1];
      DecodedConcat(decode, a, b[..|b| - 1]);
    }
  }

  /** The reading stops before the first bad payload, if there is one. */
  lemma {:induction false} ReadsUpToBad(decode: string -> Option<Event>, payloads: seq<string>,
      replies: seq<Option<string>>)
    returns (read: nat)
    requires |payloads| <= |replies|
    requires forall i :: 0 <= i < |replies| ==> replies[i] == if i < |payloads| then Some(payloads[i]) else None
    ensures read <= |payloads| && NoneBad(decode, payloads[..read])
    ensures var r := Read(decode, replies);
      && r.events == Decoded(decode, payloads[..read])
      && (r.failed <==> read < |payloads|)
      && (r.failed ==> Bad(decode, payloads[read]))
      && (r.found <==> r.events != [])
  {
    if replies == [] {
      read := 0;
    } else {
      var n := |replies| - 1;
      if |payloads| < |replies| {
        read := ReadsUpToBad(decode, payloads, replies[..n]);
      } else {
        var front := payloads[..n];
        read := ReadsUpToBad(decode, front, replies[..n]);
        if read == n && !Bad(decode, payloads[n]) {
          read := n + 1;
          assert payloads[..n + 1][..n] == front;
          assert payloads == front + [payloads[n]];
          assert front[..n] == front;
        } else {
          assert payloads[..read] == front[..read];
        }
      }
    }
  }

  function Arrivals(turns: seq<Turn>): seq<string> {
    if turns == [] then [] else turns[0].arrivals + Arrivals(turns[1..])
  }

  predicate NoLostReplies(turns: seq<Turn>) {
    forall i :: 0 <= i < |turns| ==> !turns[i].outage.FailsAfter?
  }

  /** One pipeline takes the oldest payloads, and reads those before the first bad one. */
  lemma PipelineReads(decode: string -> Option<Event>, list: seq<string>) returns (read: nat)
    ensures var (replies, rest) := Pops(list, BATCH_SIZE);
      var m := Least(BATCH_SIZE, |list|);
      var reading := Read(decode, replies);
      && read <= m <= |Pushed(list)| == |list|
      && Pushed(rest) == Pushed(list)[m..]
      && reading.events == Decoded(decode, Pushed(list)[..read])
      && (reading.failed <==> read < m)
      && (reading.failed ==> Bad(decode, Pushed(list)[read]))
      && NoneBad(decode, Pushed(list)[..read])
      && (reading.found <==> reading.events != [])
  {
    hide Read, Decoded;
    var (replies, rest) := Pops(list, BATCH_SIZE);
    PopsOldestFirst(list, BATCH_SIZE);
    var m := Least(BATCH_SIZE, |list|);
    read := ReadsUpToBad(decode, Pushed(list)[..m], replies);
    assert Pushed(list)[..m][..read] == Pushed(list)[..read];
  }

  /** The payloads of a drain are those before its first pipeline and those that arrive later. */
  lemma AllSplits(list: seq<string>, turns: seq<Turn>, n: nat)
    requires n <= |LaterTurns(turns)|
    ensures var used := |turns| - |LaterTurns(turns)|;
      Pushed(list) + Arrivals(turns[..used + n])
      == Pushed(Push(list, FirstTurn(turns).arrivals)) + Arrivals(LaterTurns(turns)[..n])
    ensures Pushed(list) + Arrivals(turns[..|turns| - |LaterTurns(turns)|])
      == Pushed(Push(list, FirstTurn(turns).arrivals))
    ensures turns == [] ==> Push(list, FirstTurn(turns).arrivals) == list
  {
    var first := FirstTurn(turns).arrivals;
    assert Pushed(Push(list, first)) == Pushed(list) + first;
    if turns != [] {
      assert turns[..1][1..] == [] && turns[..1][0] == turns[0];
      assert turns[..1 + n][1..] == LaterTurns(turns)[..n];
      assert turns[..1 + n][0] == turns[0];
    }
  }

  lemma LostReplies(turns: seq<Turn>, n: nat)
    requires n <= |LaterTurns(turns)|
    ensures var used := |turns| - |LaterTurns(turns)|;
      && (NoLostReplies(turns[..used + n])
        <==> NoLostReplies(LaterTurns(turns)[..n]) && !FirstTurn(turns).outage.FailsAfter?)
      && (NoLostReplies(turns[..used]) <==> !FirstTurn(turns).outage.FailsAfter?)
  {
    if turns != [] {
      assert forall i :: 0 <= i < n ==> turns[..1 + n][i + 1] == LaterTurns(turns)[..n][i];
      assert turns[..1 + n][0] == turns[0];
    }
  }

  /**
   Of the payloads `all`, in the order they were pushed, the first `read` gave the events, the
   next up to `taken` are lost, and the others are still in the list. At most one pipeline is
   lost; and nothing is lost unless a payload fails to parse or a pipeline's replies get lost.
   */
  ghost predicate Accounted(decode: string -> Option<Event>, all: seq<string>, events: seq<Event>, left: seq<string>,
                            read: nat, taken: nat, lostReplies: bool) {
    && read <= taken <= |all| && taken - read <= BATCH_SIZE
    && events == Decoded(decode, all[..read])
    && Pushed(left) == all[taken..]
    && NoneBad(decode, all[..read])
    && (read < taken ==> Bad(decode, all[read]) || lostReplies)
  }

  ghost predicate NoneBad(decode: string -> Option<Event>, payloads: seq<string>) {
    forall i :: 0 <= i < |payloads| ==> !Bad(decode, payloads[i])
  }

  lemma NoneBadConcat(decode: string -> Option<Event>, a: seq<string>, b: seq<string>)
    requires NoneBad(decode, a) && NoneBad(decode, b)
    ensures NoneBad(decode, a + b)
  {
  }

  lemma AccountedBehind(decode: string -> Option<Event>, here: seq<string>, beyond: seq<string>,
                        events: seq<Event>, left: seq<string>, read: nat, taken: nat, lostReplies: bool)
    requires Accounted(decode, beyond, events, left, read, taken, lostReplies)
    requires NoneBad(decode, here)
    ensures Accounted(decode, here + beyond, Decoded(decode, here) + events, left,
      |here| + read, |here| + taken, lostReplies)
  {
    hide Decoded, Pushed, Bad, NoneBad;
    DecodedConcat(decode, here, beyond[..read]);
    NoneBadConcat(decode, here, beyond[..read]);
    SlicesBehind(here, beyond, read, taken);
  }

  lemma SlicesBehind<T>(here: seq<T>, beyond: seq<T>, read: nat, taken: nat)
    requires read <= taken <= |beyond|
    ensures var all := here + beyond;
      && all[..|here| + read] == here + beyond[..read]
      && all[|here| + taken..] == beyond[taken..]
      && (read < taken ==> all[|here| + read] == beyond[read])
  {
  }

  /** A drain accounts for every payload that was in the list or arrived in its turns. */
  lemma {:induction false} DrainAccounts(decode: string -> Option<Event>, list: seq<string>, turns: seq<Turn>)
    returns (read: nat, taken: nat)
    ensures var d := Drain(decode, list, turns);
      && d.turns <= |turns|
      && Accounted(decode, Pushed(list) + Arrivals(turns[..d.turns]), d.events, d.left, read, taken,
        !NoLostReplies(turns[..d.turns]))
    decreases |turns|, |list|
  {
    hide Drain, GoesOn, Pops, Read, Decoded, Arrivals, Push, Pushed, Bad, NoLostReplies, Accounted;
    AllSplits(list, turns, 0);
    LostReplies(turns, 0);
    var turn, later := FirstTurn(turns), LaterTurns(turns);
    var full := Push(list, turn.arrivals);
    if GoesOn(decode, full, turn) {
      RestIsShorter(decode, list, turns);
      var rest := Pops(full, BATCH_SIZE).1;
      var moreRead, moreTaken := DrainAccounts(decode, rest, later);
      var tail := Drain(decode, rest, later);
      AllSplits(list, turns, tail.turns);
      LostReplies(turns, tail.turns);
      read, taken := |full| - |rest| + moreRead, |full| - |rest| + moreTaken;
      GoingOn(decode, list, turns, Arrivals(later[..tail.turns]), moreRead, moreTaken,
        !NoLostReplies(later[..tail.turns]));
    } else {
      read, taken := LastTurn(decode, list, turns);
    }
  }

  /** The loop goes round again: the pipeline's replies came, parsed, and held something. */
  predicate GoesOn(decode: string -> Option<Event>, full: seq<string>, turn: Turn) {
    var reading := Read(decode, Pops(full, BATCH_SIZE).0);
    turn.outage.Fine? && !reading.failed && reading.found
  }

  lemma LastTurn(decode: string -> Option<Event>, list: seq<string>, turns: seq<Turn>) returns (read: nat, taken: nat)
    requires !GoesOn(decode, Push(list, FirstTurn(turns).arrivals), FirstTurn(turns))
    ensures var d := Drain(decode, list, turns);
      && d.turns == |turns| - |LaterTurns(turns)|
      && Accounted(decode, Pushed(Push(list, FirstTurn(turns).arrivals)), d.events, d.left, read, taken,
        FirstTurn(turns).outage.FailsAfter?)
  {
    assert Decoded(decode, []) == [];
    hide Pops, Read, Decoded, Push, Pushed, Bad;
    var full := Push(list, FirstTurn(turns).arrivals);
    read := PipelineReads(decode, full);
    taken := Least(BATCH_SIZE, |full|);
    assert Pushed(full)[..0] == [] && Pushed(full)[0..] == Pushed(full);
    if FirstTurn(turns).outage.FailsBefore? {
      read, taken := 0, 0;
    } else if FirstTurn(turns).outage.FailsAfter? {
      read := 0;
    }
  }

  lemma RestIsShorter(decode: string -> Option<Event>, list: seq<string>, turns: seq<Turn>)
    requires GoesOn(decode, Push(list, FirstTurn(turns).arrivals), FirstTurn(turns))
    ensures var full := Push(list, FirstTurn(turns).arrivals);
      |Pops(full, BATCH_SIZE).1| < |full| && (turns == [] ==> full == list) && FirstTurn(turns).outage.Fine?
  {
    AllSplits(list, turns, 0);
    FoundMeansPopped(decode, Push(list, FirstTurn(turns).arrivals), BATCH_SIZE);
  }

  lemma GoingOn(decode: string -> Option<Event>, list: seq<string>, turns: seq<Turn>,
                beyond: seq<string>, read: nat, taken: nat, lost: bool)
    requires GoesOn(decode, Push(list, FirstTurn(turns).arrivals), FirstTurn(turns))
    requires var rest := Pops(Push(list, FirstTurn(turns).arrivals), BATCH_SIZE).1;
      var tail := Drain(decode, rest, LaterTurns(turns));
      Accounted(decode, Pushed(rest) + beyond, tail.events, tail.left, read, taken, lost)
    ensures var full := Push(list, FirstTurn(turns).arrivals);
      var rest := Pops(full, BATCH_SIZE).1;
      var d := Drain(decode, list, turns);
      && |rest| < |full|
      && d.turns == |turns| - |LaterTurns(turns)| + Drain(decode, rest, LaterTurns(turns)).turns
      && Accounted(decode, Pushed(full) + beyond, d.events, d.left,
        |full| - |rest| + read, |full| - |rest| + taken, lost)
  {
    hide Pops, Read, Decoded, Pushed, Bad, Accounted, Push;
    var full := Push(list, FirstTurn(turns).arrivals);
    var rest := Pops(full, BATCH_SIZE).1;
    var tail := Drain(decode, rest, LaterTurns(turns));
    var d := Drain(decode, list, turns);
    RestIsShorter(decode, list, turns);
    var m := PipelineReads(decode, full);
    PoppedCount(full);
    var here := Pushed(full)[..m];
    assert Pushed(full) + beyond == here + (Pushed(rest) + beyond);
    AccountedBehind(decode, here, Pushed(rest) + beyond, tail.events, tail.left, read, taken, lost);
  }

  lemma PoppedCount(list: seq<string>)
    ensures |Pops(list, BATCH_SIZE).1| == |list| - Least(BATCH_SIZE, |list|)
  {
    PopsOldestFirst(list, BATCH_SIZE);
  }

  // A list that nobody else touches.

  ghost predicate AllGood(decode: string -> Option<Event>, payloads: seq<string>) {
    forall i :: 0 <= i < |payloads| ==> payloads[i] != "" && !Bad(decode, payloads[i])
  }

  lemma {:induction false} GoodDecodes(decode: string -> Option<Event>, payloads: seq<string>)
    requires AllGood(decode, payloads)
    ensures |Decoded(decode, payloads)| == |payloads|
  {
    if payloads != [] {
      GoodDecodes(decode, payloads[..|payloads| - 1]);
    }
  }

  /** One pipeline on a list whose first bad payload, if any, is at `p`. */
  lemma PipelineUpTo(decode: string -> Option<Event>, list: seq<string>, p: nat)
    requires p <= |list| && AllGood(decode, Pushed(list)[..p]) && (p < |list| ==> Bad(decode, Pushed(list)[p]))
    ensures var (replies, rest) := Pops(list, BATCH_SIZE);
      var m := Least(BATCH_SIZE, |list|);
      var reading := Read(decode, replies);
      && reading.events == Decoded(decode, Pushed(list)[..Least(p, m)])
      && (reading.failed <==> p < m) && (reading.found <==> p > 0)
      && rest == list[..|list| - m] && Pushed(rest) == Pushed(list)[m..]
  {
    hide Pops, Read, Decoded, Bad, AllGood, Pushed;
    var m := Least(BATCH_SIZE, |list|);
    var read := PipelineReads(decode, list);
    var q := Pushed(list);
    GoodBefore(decode, q, p);
    NoneBadBefore(decode, q, read);
    assert if p < m then read == p else read == m;
    PopsOldestFirst(list, BATCH_SIZE);
    GoodPart(decode, q, read, p);
    GoodDecodes(decode, q[..read]);
  }

  lemma NoneBadBefore(decode: string -> Option<Event>, q: seq<string>, n: nat)
    requires n <= |q| && NoneBad(decode, q[..n])
    ensures forall i :: 0 <= i < n ==> !Bad(decode, q[i])
  {
    assert forall i :: 0 <= i < n ==> q[i] == q[..n][i];
  }

  lemma GoodBefore(decode: string -> Option<Event>, q: seq<string>, p: nat)
    requires p <= |q| && AllGood(decode, q[..p])
    ensures forall i :: 0 <= i < p ==> !Bad(decode, q[i])
  {
    assert forall i :: 0 <= i < p ==> q[i] == q[..p][i];
  }

  /** With nothing but good payloads the drain returns all of them, oldest first, and empties the list. */
  lemma {:induction false} DrainReturnsAll(decode: string -> Option<Event>, list: seq<string>)
    requires AllGood(decode, Pushed(list))
    ensures Drain(decode, list, []) == Drained(Decoded(decode, Pushed(list)), [], 0)
    decreases |list|
  {
    hide Pops, Read, Decoded, AllGood;
    var q := Pushed(list);
    assert q[..|list|] == q;
    PipelineUpTo(decode, list, |list|);
    assert Push(list, []) == list;
    var m := Least(BATCH_SIZE, |list|);
    var rest := Pops(list, BATCH_SIZE).1;
    assert q == q[..m] + Pushed(rest);
    DecodedConcat(decode, q[..m], Pushed(rest));
    if list != [] {
      GoodPart(decode, q, m, |q|);
      DrainReturnsAll(decode, rest);
    }
  }

  function Encoded(encode: Event -> string, events: seq<Event>): (payloads: seq<string>)
    ensures |payloads| == |events| && forall i :: 0 <= i < |events| ==> payloads[i] == encode(events[i])
  {
    seq(|events|, i requires 0 <= i < |events| => encode(events[i]))
  }

  /** What is asked of the JSON form of an event. */
  ghost predicate Faithful(encode: Event -> string, decode: string -> Option<Event>) {
    forall e: Event :: encode(e) != "" && decode(encode(e)) == Some(e)
  }

  /** Emitted events come back from the next drain: each once, in the order they were emitted. */
  lemma EmittedEventsComeBack(encode: Event -> string, decode: string -> Option<Event>, events: seq<Event>)
    requires Faithful(encode, decode)
    ensures Drain(decode, Push([], Encoded(encode, events)), []) == Drained(events, [], 0)
  {
    var payloads := Encoded(encode, events);
    assert Pushed(Push([], payloads)) == payloads;
    DecodedEncoded(encode, decode, events);
    DrainReturnsAll(decode, Push([], payloads));
  }

  lemma {:induction false} DecodedEncoded(encode: Event -> string, decode: string -> Option<Event>, events: seq<Event>)
    requires Faithful(encode, decode)
    ensures Decoded(decode, Encoded(encode, events)) == events
    ensures AllGood(decode, Encoded(encode, events))
  {
    if events != [] {
      var n := |events| - 1;
      DecodedEncoded(encode, decode, events[..n]);
      assert Encoded(encode, events)[..n] == Encoded(encode, events[..n]);
      assert events == events[..n] + [events[n]];
    }
  }

  lemma GoodPart(decode: string -> Option<Event>, q: seq<string>, from: nat, to: nat)
    requires from <= to <= |q| && AllGood(decode, q[..to])
    ensures AllGood(decode, q[from..to]) && AllGood(decode, q[..from]) && (to == |q| ==> q[from..to] == q[from..])
  {
    forall i | 0 <= i < to - from
      ensures q[from..to][i] != "" && !Bad(decode, q[from..to][i])
    {
      assert q[from..to][i] == q[..to][from + i];
    }
    forall i | 0 <= i < from
      ensures q[..from][i] != "" && !Bad(decode, q[..from][i])
    {
      assert q[..from][i] == q[..to][i];
    }
  }

  /**
   A payload that fails to parse ends the drain: what was before it is returned, the rest of
   its pipeline is lost with it, and later pipelines stay in the list.
   */
  lemma {:induction false} BadPayloadLosesItsPipeline(decode: string -> Option<Event>, list: seq<string>, p: nat)
    requires p < |list| && AllGood(decode, Pushed(list)[..p]) && Bad(decode, Pushed(list)[p])
    ensures var q := Pushed(list);
      var end := Least(|list|, (p / 1000 + 1) * 1000);
      var d := Drain(decode, list, []);
      d.events == Decoded(decode, q[..p]) && Pushed(d.left) == q[end..]
    decreases |list|
  {
    hide Pops, Read, Decoded, AllGood, Bad, Drain, Pushed;
    var q := Pushed(list);
    PipelineUpTo(decode, list, p);
    QuietTurn(decode, list);
    var m := Least(BATCH_SIZE, |list|);
    if p >= BATCH_SIZE {
      var rest := Pops(list, BATCH_SIZE).1;
      assert Pushed(rest) == q[m..];
      assert Pushed(rest)[..p - m] == q[m..p];
      GoodPart(decode, q, m, p);
      BadPayloadLosesItsPipeline(decode, rest, p - m);
      DecodedConcat(decode, q[..m], q[m..p]);
      assert q[..p] == q[..m] + q[m..p];
      NextPipeline(|list|, p);
      var end := Least(|list|, (p / BATCH_SIZE + 1) * BATCH_SIZE);
      assert q[m..][end - m..] == q[end..];
    } else {
      assert p / BATCH_SIZE == 0;
    }
  }

  /** One round of the loop on a list that nobody else touches. */
  lemma QuietTurn(decode: string -> Option<Event>, list: seq<string>)
    ensures var (replies, rest) := Pops(list, BATCH_SIZE);
      var reading := Read(decode, replies);
      var d := Drain(decode, list, []);
      if reading.failed || !reading.found then d.events == reading.events && d.left == rest
      else d.events == reading.events + Drain(decode, rest, []).events && d.left == Drain(decode, rest, []).left
    ensures |Pushed(list)| == |list|
  {
    hide Pops, Read;
    assert Push(list, []) == list;
  }

  lemma NextPipeline(n: nat, p: nat)
    requires BATCH_SIZE <= p < n
    ensures Least(n - BATCH_SIZE, ((p - BATCH_SIZE) / BATCH_SIZE + 1) * BATCH_SIZE) + BATCH_SIZE
         == Least(n, (p / BATCH_SIZE + 1) * BATCH_SIZE)
  {
  }

  // The aggregator object.

  class AlertAggregator {
    const distributed: bool
    var list: seq<string>
    var buffer: seq<Event>

    constructor (distributed: bool)
      ensures this.distributed == distributed && list == [] && buffer == []
    {
      this.distributed, list, buffer := distributed, [], [];
    }

    /** `emit`. */
    method Emit(event: Event, encode: Event -> string)
      modifies this
      ensures distributed ==> Pushed(list) == old(Pushed(list)) + [encode(event)] && buffer == old(buffer)
      ensures !distributed ==> buffer == old(buffer) + [event] && list == old(list)
    {
      if distributed {
        list := [encode(event)] + list;
      } else {
        buffer := buffer + [event];
      }
    }

    /** The pipeline of RPOPs. */
    method Pipeline(n: nat) returns (replies: seq<Option<string>>)
      modifies this`list
      ensures (replies, list) == Pops(old(list), n)
    {
      replies := [];
      for i := 0 to n
        invariant (replies, list) == Pops(old(list), i)
      {
        if list == [] {
          replies := replies + [None];
        } else {
          replies := replies + [Some(list[|list| - 1])];
          list := list[..|list| - 1];
        }
      }
    }

    method ReadReplies(decode: string -> Option<Event>, replies: seq<Option<string>>) returns (reading: Reading)
      ensures reading == Read(decode, replies)
    {
      var events, found := [], false;
      for i := 0 to |replies|
        invariant Read(decode, replies[..i]) == Reading(events, found, false)
      {
        assert replies[..i + 1][..i] == replies[..i];
        var raw := replies[i];
        if raw.Some? && raw.value != "" {
          var event := decode(raw.value);
          if event.None? {
            FailureStays(decode, replies, i + 1);
            return Reading(events, found, true);
          }
          events := events + [event.value];
          found := true;
        }
      }
      assert replies[..|replies|] == replies;
      return Reading(events, found, false);
    }

    /** The Redis half of `_process_batch`'s first step. */
    method FetchAll(decode: string -> Option<Event>, turns: seq<Turn>) returns (rawEvents: seq<Event>)
      modifies this`list
      ensures var d := Drain(decode, old(list), turns);
        rawEvents == d.events && list == d.left
    {
      hide Pops, Read, Push, Drain;
      rawEvents := [];
      ghost var d := Drain(decode, list, turns);
      var later := turns;
      while true
        invariant rawEvents + Drain(decode, list, later).events == d.events
        invariant Drain(decode, list, later).left == d.left
        decreases |later|, |list|
      {
        DrainTurn(decode, list, later);
        FoundMeansPopped(decode, Push(list, FirstTurn(later).arrivals), BATCH_SIZE);
        AllSplits(list, later, 0);
        var turn := FirstTurn(later);
        list := Push(list, turn.arrivals);
        later := LaterTurns(later);
        if turn.outage.FailsBefore? {
          break;
        }
        var replies := Pipeline(BATCH_SIZE);
        if turn.outage.FailsAfter? {
          break;
        }
        var reading := ReadReplies(decode, replies);
        rawEvents := rawEvents + reading.events;
        if reading.failed || !reading.found {
          break;
        }
      }
    }

    /** The memory half: the buffer is swapped for an empty one. */
    method TakeBuffer() returns (rawEvents: seq<Event>)
      modifies this`buffer
      ensures rawEvents == old(buffer) && buffer == []
    {
      rawEvents := buffer;
      buffer := [];
    }

    /** `_aggregate`. */
    method Aggregate(events: seq<Event>) returns (grouped: seq<Group>)
      ensures grouped == Aggregated(events)
    {
      hide DedupKey, AddTo;
      grouped := [];
      var seen: set<string> := {};
      for i := 0 to |events|
        invariant grouped == GroupByKind(FirstsUpTo(events, i))
        invariant seen == Keys(events[..i])
      {
        var e := events[i];
        assert events[..i + 1] == events[..i] + [e];
        KeysSnoc(events[..i], e);
        FirstMeansNewKey(events, i);
        var dedupKey := DedupKey(e);
        if dedupKey in seen {
          assert FirstsUpTo(events, i + 1) == FirstsUpTo(events, i);
          continue;
        }
        assert FirstsUpTo(events, i + 1)[..|FirstsUpTo(events, i)|] == FirstsUpTo(events, i);
        seen := seen + {dedupKey};
        grouped := AddTo(grouped, e);
      }
      assert events[..|events|] == events;
    }

    /** The count that `_dispatch` reports. */
    method CountEvents(grouped: seq<Group>) returns (total: nat)
      ensures total == TotalCount(grouped)
    {
      total := 0;
      for i := 0 to |grouped|
        invariant total == TotalCount(grouped[..i])
      {
        assert grouped[..i + 1][..i] == grouped[..i];
        total := total + |grouped[i].events|;
      }
      assert grouped[..|grouped|] == grouped;
    }
  }

  lemma {:induction false} FailureStays(decode: string -> Option<Event>, replies: seq<Option<string>>, n: nat)
    requires n <= |replies| && Read(decode, replies[..n]).failed
    ensures Read(decode, replies) == Read(decode, replies[..n])
    decreases |replies|
  {
    if n == |replies| {
      assert replies[..n] == replies;
    } else {
      assert replies[..|replies| - 1][..n] == replies[..n];
      FailureStays(decode, replies[..|replies| - 1], n);
    }
  }

  lemma DrainTurn(decode: string -> Option<Event>, list: seq<string>, turns: seq<Turn>)
    ensures var turn := FirstTurn(turns);
      var full := Push(list, turn.arrivals);
      var reading := Read(decode, Pops(full, BATCH_SIZE).0);
      var rest := Pops(full, BATCH_SIZE).1;
      var d := Drain(decode, list, turns);
      if turn.outage.FailsBefore? then d.events == [] && d.left == full
      else if turn.outage.FailsAfter? then d.events == [] && d.left == rest
      else if reading.failed || !reading.found then d.events == reading.events && d.left == rest
      else
        var tail := Drain(decode, rest, LaterTurns(turns));
        d.events == reading.events + tail.events && d.left == tail.left
  {
    hide Pops, Read, Push;
  }
}
