/**
The chat loop of an agent (src/agent_vm.py): it asks the model, runs the tools the model calls,
appends every answer to the conversation, and stops when the model calls no tool or after ten
rounds. Also the compaction of a long conversation before the first round.
*/
module AgentVms {
  import opened ToolStreams
  import opened Wrappers

  /** A message; Plain stands for system and user messages. */
  datatype Message =
    | Plain(role: string, content: string)
    | Assistant(content: string, calls: seq<Call>)
    | Tool(callId: Option<string>, name: string, content: string)

  /** What the generator yields. */
  datatype Event =
    | Content(text: string)
    | Said(message: Message)
    | Calling(name: string, args: string)
    | Result(name: string, content: string)
    | Done

  /** A streamed delta: content, which may be empty, and pieces of tool calls. */
  datatype Delta = Delta(content: string, fragments: seq<Fragment>)

  /** The model's answer: an exception, or deltas, after which the stream may break. */
  datatype Response = CallFails | Answer(deltas: seq<Delta>, breaks: bool)

  /**
   What the loop cannot see into: the model; the JSON parser for arguments, as text, None on
   malformed text; and the tools with the JSON text of their results, None when they raise.
   Round and position are passed, as neither model nor tools need repeat themselves.
   */
  datatype World = World(
    model: (nat, seq<Message>) -> Response,
    parse: string -> Option<string>,
    dispatch: (nat, nat, string, string) -> Option<string>)

  const MAX_LOOPS := 10

  // Compaction.

  function Compacted(messages: seq<Message>): (kept: seq<Message>)
    ensures |messages| <= 20 ==> kept == messages
    ensures |messages| > 20 ==> |kept| == 12 && kept[..2] == messages[..2] && kept[2..] == messages[|messages| - 10..]
  {
    if |messages| > 20 then messages[..2] + messages[|messages| - 10..] else messages
  }

  // Hearing one answer.

  datatype Heard = Heard(content: string, calls: seq<Call>, events: seq<Event>, failed: bool)

  function HearDelta(h: Heard, d: Delta): Heard {
    if h.failed then h
    else
      var said := if d.content == "" then h
        else h.(content := h.content + d.content, events := h.events + [Content(d.content)]);
      match AddFragments(said.calls, d.fragments)
      case None => said.(failed := true)
      case Some(calls) => said.(calls := calls)
  }

  function Hear(deltas: seq<Delta>): Heard {
    if deltas == [] then Heard("", [], [], false)
    else HearDelta(Hear(deltas[..|deltas| - 1]), deltas[|deltas| - 1])
  }

  function AllFragments(deltas: seq<Delta>): seq<Fragment> {
    if deltas == [] then [] else AllFragments(deltas[..|deltas| - 1]) + deltas[|deltas| - 1].fragments
  }

  function AllContent(deltas: seq<Delta>): string {
    if deltas == [] then "" else AllContent(deltas[..|deltas| - 1]) + deltas[|deltas| - 1].content
  }

  lemma {:induction false} AddTwice(calls: seq<Call>, a: seq<Fragment>, b: seq<Fragment>)
    ensures AddFragments(calls, a + b)
         == match AddFragments(calls, a) case None => None case Some(more) => AddFragments(more, b)
  {
    if b == [] {
      assert a + b == a;
    } else {
      assert (a + b)[..|a + b| - 1] == a + b[..|b| - 1];
      AddTwice(calls, a, b[..|b| - 1]);
    }
  }

  /** How fragments are spread over deltas does not matter; nor does content in between. */
  lemma {:induction false} HearsEverything(deltas: seq<Delta>)
    ensures Hear(deltas).failed <==> AddFragments([], AllFragments(deltas)).None?
    ensures !Hear(deltas).failed ==>
      Hear(deltas).content == AllContent(deltas) && AddFragments([], AllFragments(deltas)) == Some(Hear(deltas).calls)
  {
    hide AddFragments;
    if deltas == [] {
      NothingHeard();
    } else {
      var n := |deltas| - 1;
      HearsEverything(deltas[..n]);
      AddTwice([], AllFragments(deltas[..n]), deltas[n].fragments);
      assert AllContent(deltas[..n]) + "" == AllContent(deltas[..n]);
    }
  }

  /** So an answer whose new indices are consecutive is heard whole, whatever its deltas. */
  lemma AnswerIsAssembled(deltas: seq<Delta>)
    requires Consecutive(AllFragments(deltas))
    ensures var h := Hear(deltas);
      !h.failed && h.content == AllContent(deltas) && Assembled(h.calls, AllFragments(deltas))
  {
    hide Hear, Assembled, AddFragments, Consecutive;
    HearsEverything(deltas);
    ConsecutiveIsAssembled(AllFragments(deltas));
  }

  function TextOfEvents(events: seq<Event>): string {
    if events == [] then ""
    else
      var last := events[|events| - 1];
      TextOfEvents(events[..|events| - 1]) + (if last.Content? then last.text else "")
  }

  /** While it is heard, content is passed on as it comes: the pieces yielded, none empty, make up the content. */
  lemma {:induction false} ContentIsPassedOn(deltas: seq<Delta>)
    ensures TextOfEvents(Hear(deltas).events) == Hear(deltas).content
    ensures forall e :: e in Hear(deltas).events ==> e.Content? && e.text != ""
  {
    hide AddFragments;
    if deltas != [] {
      var n := |deltas| - 1;
      ContentIsPassedOn(deltas[..n]);
      var front := Hear(deltas[..n]).events;
      assert (front + [Content(deltas[n].content)])[..|front|] == front;
    }
  }

  lemma NothingHeard()
    ensures AddFragments([], []) == Some([])
  {
  }

  // The loop.

  datatype Status = Going | Stopped | Raised

  /** The conversation, the events so far, and the messages sent with each request. */
  datatype Chat = Chat(messages: seq<Message>, events: seq<Event>, requests: seq<seq<Message>>, status: Status)

  function ArgsOf(world: World, call: Call): string {
    match world.parse(call.arguments)
    case None => "{}"
    case Some(args) => args
  }

  /** Runs the first `n` of the calls of an assistant message. */
  function RunTools(world: World, round: nat, c: Chat, calls: seq<Call>, n: nat): Chat
    requires n <= |calls|
  {
    if n == 0 then c
    else
      var before := RunTools(world, round, c, calls, n - 1);
      if before.status == Raised then before
      else RunTool(world, round, before, calls[n - 1], n - 1)
  }

  function RunTool(world: World, round: nat, c: Chat, call: Call, position: nat): Chat {
    var args := ArgsOf(world, call);
    var announced := c.(events := c.events + [Calling(call.name, args)]);
    match world.dispatch(round, position, call.name, args)
    case None => announced.(status := Raised)
    case Some(result) =>
      announced.(
        messages := c.messages + [Tool(call.id, call.name, result)],
        events := announced.events + [Result(call.name, result)])
  }

  /** What is made of an answer that was heard to its end. */
  function Act(world: World, round: nat, c: Chat, heard: Heard): Chat {
    var said := Assistant(heard.content, heard.calls);
    var spoken := c.(messages := c.messages + [said], events := c.events + heard.events + [Said(said)]);
    if heard.calls == [] then spoken.(status := Stopped)
    else RunTools(world, round, spoken, heard.calls, |heard.calls|)
  }

  function OneRound(world: World, stream: bool, round: nat, c: Chat): Chat {
    var asked := c.(requests := c.requests + [c.messages]);
    match world.model(round, c.messages)
    case CallFails => asked.(status := Raised)
    case Answer(deltas, breaks) =>
      var heard := if stream then Hear(deltas) else Hear([]);
      if heard.failed || (stream && breaks) then asked.(events := c.events + heard.events, status := Raised)
      else Act(world, round, asked, heard)
  }

  function Rounds(world: World, stream: bool, c: Chat, n: nat): Chat {
    if n == 0 then c
    else
      var before := Rounds(world, stream, c, n - 1);
      if before.status == Going then OneRound(world, stream, n - 1, before) else before
  }

  /** The whole of `chat`, given the system prompt and the history. */
  function ChatResult(world: World, stream: bool, prompt: string, history: seq<Message>): Chat {
    var start := Chat(Compacted([Plain("system", prompt)] + history), [], [], Going);
    var end := Rounds(world, stream, start, MAX_LOOPS);
    if end.status == Raised then end else end.(events := end.events + [Done])
  }

  // Calls and answers.

  /** A call that still wants its tool message. */
  datatype Wanted = Wanted(id: Option<string>, name: string)

  function WantedOf(calls: seq<Call>): (wanted: seq<Wanted>)
    ensures |wanted| == |calls| && forall i :: 0 <= i < |calls| ==> wanted[i] == Wanted(calls[i].id, calls[i].name)
  {
    seq(|calls|, i requires 0 <= i < |calls| => Wanted(calls[i].id, calls[i].name))
  }

  /** Reads one message; None if it is not the next one that is wanted. */
  function Take(wanted: seq<Wanted>, m: Message): Option<seq<Wanted>> {
    match m
    case Plain(_, _) => if wanted == [] then Some([]) else None
    case Assistant(_, calls) => if wanted == [] then Some(WantedOf(calls)) else None
    case Tool(id, name, _) => if wanted != [] && wanted[0] == Wanted(id, name) then Some(wanted[1..]) else None
  }

  /** The calls that still want an answer after some messages; None if a message was out of place. */
  function Pending(wanted: seq<Wanted>, ms: seq<Message>): Option<seq<Wanted>> {
    if ms == [] then Some(wanted)
    else
      match Pending(wanted, ms[..|ms| - 1])
      case None => None
      case Some(w) => Take(w, ms[|ms| - 1])
  }

  /** Every assistant message is followed by exactly one matching tool message per call, in order. */
  predicate Paired(ms: seq<Message>) {
    Pending([], ms) == Some([])
  }

  lemma PendingSnoc(wanted: seq<Wanted>, ms: seq<Message>, m: Message)
    ensures Pending(wanted, ms + [m]) == Then(Pending(wanted, ms), m)
  {
  }

  function Then(w: Option<seq<Wanted>>, m: Message): Option<seq<Wanted>> {
    if w.None? then None else Take(w.value, m)
  }

  lemma {:induction false} PendingConcat(wanted: seq<Wanted>, a: seq<Message>, b: seq<Message>)
    ensures Pending(wanted, a + b) == match Pending(wanted, a) case None => None case Some(w) => Pending(w, b)
  {
    if b == [] {
      assert a + b == a;
    } else {
      assert (a + b)[..|a + b| - 1] == a + b[..|b| - 1];
      PendingConcat(wanted, a, b[..|b| - 1]);
    }
  }

  lemma PendingOne(wanted: seq<Wanted>, m: Message)
    ensures Pending(wanted, [m]) == Take(wanted, m)
  {
    assert [m][..0] == [];
    assert Pending(wanted, []) == Some(wanted);
  }

  /** In a paired conversation the answers stand right behind their assistant message. */
  lemma AnswersFollow(ms: seq<Message>, i: nat)
    requires Paired(ms) && i < |ms| && ms[i].Assistant?
    ensures i + |ms[i].calls| < |ms|
    ensures forall j :: 0 <= j < |ms[i].calls| ==>
      ms[i + 1 + j].Tool? && ms[i + 1 + j].callId == ms[i].calls[j].id && ms[i + 1 + j].name == ms[i].calls[j].name
  {
    hide Pending;
    var here, behind := ms[..i], ms[i + 1..];
    assert ms == here + ([ms[i]] + behind);
    PendingConcat([], here, [ms[i]] + behind);
    var before := Pending([], here).value;
    PendingConcat(before, [ms[i]], behind);
    PendingOne(before, ms[i]);
    AnswersFirst(WantedOf(ms[i].calls), behind);
    assert forall j :: 0 <= j < |behind| ==> behind[j] == ms[i + 1 + j];
  }

  lemma {:induction false} AnswersFirst(wanted: seq<Wanted>, ms: seq<Message>)
    requires Pending(wanted, ms) == Some([])
    ensures |wanted| <= |ms|
    ensures forall j :: 0 <= j < |wanted| ==> ms[j].Tool? && Wanted(ms[j].callId, ms[j].name) == wanted[j]
    decreases |wanted|
  {
    if wanted != [] {
      FirstMessage(wanted, ms);
      AnswersFirst(wanted[1..], ms[1..]);
      forall j | 0 < j < |wanted|
        ensures ms[j].Tool? && Wanted(ms[j].callId, ms[j].name) == wanted[j]
      {
        assert ms[j] == ms[1..][j - 1] && wanted[j] == wanted[1..][j - 1];
      }
    }
  }

  lemma FirstMessage(wanted: seq<Wanted>, ms: seq<Message>)
    requires Pending(wanted, ms).Some?
    ensures ms == [] ==> Pending(wanted, ms) == Some(wanted)
    ensures ms != [] ==> Take(wanted, ms[0]).Some? && Pending(wanted, ms) == Pending(Take(wanted, ms[0]).value, ms[1..])
  {
    hide Take;
    if ms != [] {
      assert ms == [ms[0]] + ms[1..];
      PendingConcat(wanted, [ms[0]], ms[1..]);
      PendingOne(wanted, ms[0]);
    }
  }

  // What compaction does to pairing.

  /** The rest of a paired conversation tells which calls were pending before it. */
  lemma {:induction false} RestDetermines(a: seq<Wanted>, b: seq<Wanted>, rest: seq<Message>)
    requires Pending(a, rest) == Some([]) && Pending(b, rest) == Some([])
    ensures a == b
    decreases |rest|
  {
    hide Pending;
    FirstMessage(a, rest);
    FirstMessage(b, rest);
    if rest != [] && rest[0].Tool? {
      RestDetermines(a[1..], b[1..], rest[1..]);
      assert a == [a[0]] + a[1..] && b == [b[0]] + b[1..];
    }
  }

  /** Compaction keeps a long conversation paired exactly when the same calls are pending at both ends of the gap. */
  lemma CompactionKeepsPairingExactly(ms: seq<Message>)
    requires Paired(ms) && |ms| > 20
    ensures Pending([], ms[..2]).Some? && Pending([], ms[..|ms| - 10]).Some?
    ensures Paired(Compacted(ms)) <==> Pending([], ms[..2]) == Pending([], ms[..|ms| - 10])
  {
    hide Pending, Compacted;
    var cut := |ms| - 10;
    assert ms == ms[..2] + ms[2..] && ms == ms[..cut] + ms[cut..];
    PendingConcat([], ms[..2], ms[2..]);
    PendingConcat([], ms[..cut], ms[cut..]);
    var kept := Compacted(ms);
    assert kept == ms[..2] + ms[cut..] by { assert kept == kept[..2] + kept[2..]; }
    PendingConcat([], ms[..2], ms[cut..]);
    var head, gap := Pending([], ms[..2]).value, Pending([], ms[..cut]).value;
    if Paired(kept) {
      RestDetermines(head, gap, ms[cut..]);
    }
  }

  /** After the usual beginning, it does so exactly when the first of the last ten messages is not a tool message. */
  lemma CutBeforeToolBreaksExactly(ms: seq<Message>)
    requires Paired(ms) && |ms| > 20 && ms[0].Plain? && ms[1].Plain?
    ensures Paired(Compacted(ms)) <==> !ms[|ms| - 10].Tool?
  {
    hide Pending, Compacted;
    CompactionKeepsPairingExactly(ms);
    var cut := |ms| - 10;
    assert ms[..2] == [ms[0]] + [ms[1]];
    PendingConcat([], [ms[0]], [ms[1]]);
    PendingOne([], ms[0]);
    PendingOne([], ms[1]);
    assert ms == ms[..cut] + ms[cut..];
    PendingConcat([], ms[..cut], ms[cut..]);
    FirstMessage(Pending([], ms[..cut]).value, ms[cut..]);
  }

  // What the loop keeps.

  /** The conversation is in order, no request was sent out of order, and `done` is yet to come. */
  predicate InOrder(c: Chat, rounds: nat) {
    && |c.requests| <= rounds
    && (forall i :: 0 <= i < |c.requests| ==> Paired(c.requests[i]))
    && Pending([], c.messages).Some?
    && (c.status != Raised ==> Paired(c.messages))
    && Done !in c.events
  }

  /** The tools that ran have answered, in order; the other calls are pending. */
  lemma {:induction false} ToolsAnswer(world: World, round: nat, c: Chat, calls: seq<Call>, n: nat)
    requires n <= |calls| && c.status == Going && Done !in c.events
    requires Pending([], c.messages) == Some(WantedOf(calls))
    ensures var after := RunTools(world, round, c, calls, n);
      && after.requests == c.requests && Done !in after.events && after.status != Stopped
      && Pending([], after.messages).Some?
      && (after.status != Raised ==>
          after.status == Going && Pending([], after.messages) == Some(WantedOf(calls)[n..])
          && |after.messages| == |c.messages| + n)
  {
    hide Pending;
    if n > 0 {
      ToolsAnswer(world, round, c, calls, n - 1);
      var before := RunTools(world, round, c, calls, n - 1);
      var args := ArgsOf(world, calls[n - 1]);
      var result := world.dispatch(round, n - 1, calls[n - 1].name, args);
      if before.status != Raised && result.Some? {
        PendingSnoc([], before.messages, Tool(calls[n - 1].id, calls[n - 1].name, result.value));
        assert WantedOf(calls)[n - 1..][1..] == WantedOf(calls)[n..];
      }
    }
  }

  lemma {:induction false} HearingSaysNotDone(deltas: seq<Delta>)
    ensures Done !in Hear(deltas).events
  {
    if deltas != [] {
      HearingSaysNotDone(deltas[..|deltas| - 1]);
    }
  }

  lemma ActKeepsOrder(world: World, round: nat, c: Chat, heard: Heard, rounds: nat)
    requires InOrder(c, rounds) && c.status == Going && Done !in heard.events
    ensures InOrder(Act(world, round, c, heard), rounds)
    ensures Act(world, round, c, heard).status == Stopped <==> heard.calls == []
  {
    hide Pending, RunTools;
    var said := Assistant(heard.content, heard.calls);
    var spoken := c.(messages := c.messages + [said], events := c.events + heard.events + [Said(said)]);
    PendingSnoc([], c.messages, said);
    if heard.calls != [] {
      ToolsAnswer(world, round, spoken, heard.calls, |heard.calls|);
      assert WantedOf(heard.calls)[|heard.calls|..] == [];
    } else {
      assert WantedOf(heard.calls) == [];
    }
  }

  lemma RoundKeepsOrder(world: World, stream: bool, round: nat, c: Chat)
    requires InOrder(c, round) && c.status == Going
    ensures InOrder(OneRound(world, stream, round, c), round + 1)
    ensures |OneRound(world, stream, round, c).requests| == |c.requests| + 1
  {
    hide Pending, Hear, Act;
    var asked := c.(requests := c.requests + [c.messages]);
    var response := world.model(round, c.messages);
    if response.Answer? {
      var heard := if stream then Hear(response.deltas) else Hear([]);
      HearingSaysNotDone(response.deltas);
      HearingSaysNotDone([]);
      if !(heard.failed || (stream && response.breaks)) {
        ActKeepsOrder(world, round, asked, heard, round + 1);
        ActKeepsRequests(world, round, asked, heard);
      }
    }
  }

  lemma ActKeepsRequests(world: World, round: nat, c: Chat, heard: Heard)
    ensures Act(world, round, c, heard).requests == c.requests
  {
    var said := Assistant(heard.content, heard.calls);
    var spoken := c.(messages := c.messages + [said], events := c.events + heard.events + [Said(said)]);
    ToolsSendNothing(world, round, spoken, heard.calls, |heard.calls|);
  }

  lemma {:induction false} ToolsSendNothing(world: World, round: nat, c: Chat, calls: seq<Call>, n: nat)
    requires n <= |calls|
    ensures RunTools(world, round, c, calls, n).requests == c.requests
  {
    if n > 0 {
      ToolsSendNothing(world, round, c, calls, n - 1);
    }
  }

  lemma {:induction false} RoundsKeepOrder(world: World, stream: bool, c: Chat, n: nat)
    requires InOrder(c, 0) && c.status == Going
    ensures InOrder(Rounds(world, stream, c, n), n)
    ensures Rounds(world, stream, c, n).status == Going ==> |Rounds(world, stream, c, n).requests| == n
  {
    hide OneRound, InOrder;
    NoRequestYet(c);
    if n > 0 {
      RoundsKeepOrder(world, stream, c, n - 1);
      var before := Rounds(world, stream, c, n - 1);
      if before.status == Going {
        RoundKeepsOrder(world, stream, n - 1, before);
      } else {
        OneMoreRound(before, n - 1);
      }
    }
  }

  lemma NoRequestYet(c: Chat)
    requires InOrder(c, 0)
    ensures c.requests == []
  {
  }

  lemma OneMoreRound(c: Chat, n: nat)
    requires InOrder(c, n)
    ensures InOrder(c, n + 1)
  {
  }

  /**
   A chat whose compacted history is paired asks the model at most ten times, always with a
   paired conversation; ends with one `done` unless something raised; and leaves a paired
   conversation if nothing did.
   */
  lemma ChatIsOrderly(world: World, stream: bool, prompt: string, history: seq<Message>)
    requires Paired(Compacted([Plain("system", prompt)] + history))
    ensures var c := ChatResult(world, stream, prompt, history);
      && |c.requests| <= 10
      && (forall i :: 0 <= i < |c.requests| ==> Paired(c.requests[i]))
      && (c.status != Raised ==>
          (&& Paired(c.messages)
           && c.events != [] && c.events[|c.events| - 1] == Done && Done !in c.events[..|c.events| - 1]))
      && (c.status == Raised ==> Done !in c.events)
      && (c.status == Going ==> |c.requests| == 10)
  {
    hide Rounds, Paired, Compacted;
    var start := Chat(Compacted([Plain("system", prompt)] + history), [], [], Going);
    StartsInOrder(start);
    RoundsKeepOrder(world, stream, start, MAX_LOOPS);
    var end := Rounds(world, stream, start, MAX_LOOPS);
    assert (end.events + [Done])[..|end.events|] == end.events;
  }

  /** The arguments a tool is called with: what the parser makes of the text, or an empty object. */
  function Arguments(world: World, text: string): string {
    if world.parse(text).Some? then world.parse(text).value else "{}"
  }

  predicate Succeeds(world: World, round: nat, j: nat, call: Call) {
    world.dispatch(round, j, call.name, Arguments(world, call.arguments)).Some?
  }

  /** The answer of a call that does not raise. */
  function AnswerOf(world: World, round: nat, j: nat, call: Call): Message
    requires Succeeds(world, round, j, call)
  {
    Tool(call.id, call.name, world.dispatch(round, j, call.name, Arguments(world, call.arguments)).value)
  }

  /** What is yielded for the first `n` calls: each is announced, and then its result is. */
  function Announcements(world: World, round: nat, calls: seq<Call>, n: nat): seq<Event>
    requires n <= |calls| && forall j :: 0 <= j < n ==> Succeeds(world, round, j, calls[j])
  {
    if n == 0 then []
    else
      var call := calls[n - 1];
      Announcements(world, round, calls, n - 1) + [Calling(call.name, Arguments(world, call.arguments)),
        Result(call.name, AnswerOf(world, round, n - 1, call).content)]
  }

  /** The tools when none raises: each is called in turn with its own arguments, and its result is its answer. */
  lemma {:induction false} ToolsAnswerWithResults(world: World, round: nat, c: Chat, calls: seq<Call>, n: nat)
    requires n <= |calls| && c.status == Going
    requires forall j :: 0 <= j < n ==> Succeeds(world, round, j, calls[j])
    ensures RunTools(world, round, c, calls, n) == c.(
      messages := c.messages + seq(n, j requires 0 <= j < n => AnswerOf(world, round, j, calls[j])),
      events := c.events + Announcements(world, round, calls, n))
  {
    if n > 0 {
      ToolsAnswerWithResults(world, round, c, calls, n - 1);
      var call := calls[n - 1];
      var args := Arguments(world, call.arguments);
      assert ArgsOf(world, call) == args && Succeeds(world, round, n - 1, call);
      Regroup(c.events, Announcements(world, round, calls, n - 1), [Calling(call.name, args)]);
    }
  }

  lemma Regroup<T>(a: seq<T>, b: seq<T>, d: seq<T>)
    ensures a + (b + d) == a + b + d
  {
  }

  lemma {:induction false} ToolsGoOn(world: World, round: nat, c: Chat, calls: seq<Call>, n: nat)
    requires n <= |calls| && c.status == Going
    requires forall j :: 0 <= j < n ==> Succeeds(world, round, j, calls[j])
    ensures RunTools(world, round, c, calls, n).status == Going
  {
    if n > 0 {
      ToolsGoOn(world, round, c, calls, n - 1);
    }
  }

  lemma OneMoreTool(world: World, round: nat, c: Chat, calls: seq<Call>, n: nat)
    requires n < |calls|
    ensures var before := RunTools(world, round, c, calls, n);
      RunTools(world, round, c, calls, n + 1)
        == if before.status == Raised then before else RunTool(world, round, before, calls[n], n)
  {
    hide RunTool;
  }

  lemma ToolRaises(world: World, round: nat, c: Chat, call: Call, j: nat)
    requires !Succeeds(world, round, j, call)
    ensures RunTool(world, round, c, call, j) == c.(
      status := Raised, events := c.events + [Calling(call.name, Arguments(world, call.arguments))])
  {
  }

  /** A tool that raises ends the chat there; it has been announced, and the tools before it have answered. */
  lemma RaisingToolEndsChat(world: World, round: nat, c: Chat, calls: seq<Call>, n: nat)
    requires n < |calls| && c.status == Going
    requires forall j :: 0 <= j < n ==> Succeeds(world, round, j, calls[j])
    requires !Succeeds(world, round, n, calls[n])
    ensures var before := RunTools(world, round, c, calls, n);
      RunTools(world, round, c, calls, |calls|) == before.(
        status := Raised,
        events := before.events + [Calling(calls[n].name, Arguments(world, calls[n].arguments))])
  {
    ToolsGoOn(world, round, c, calls, n);
    hide *;
    OneMoreTool(world, round, c, calls, n);
    ToolRaises(world, round, RunTools(world, round, c, calls, n), calls[n], n);
    RaisedToolsStay(world, round, c, calls, n + 1, |calls|);
  }

  lemma {:induction false} RaisedToolsStay(world: World, round: nat, c: Chat, calls: seq<Call>, n: nat, m: nat)
    requires n <= m <= |calls| && RunTools(world, round, c, calls, n).status == Raised
    ensures RunTools(world, round, c, calls, m) == RunTools(world, round, c, calls, n)
  {
    if n < m {
      RaisedToolsStay(world, round, c, calls, n, m - 1);
    }
  }

  /** One round: the model is asked with the conversation as it is, and its answer is appended and acted on. */
  lemma RoundOutcome(world: World, round: nat, c: Chat)
    requires c.status == Going
    ensures OneRound(world, true, round, c).requests == c.requests + [c.messages]
    ensures world.model(round, c.messages).CallFails? ==>
      OneRound(world, true, round, c) == Chat(c.messages, c.events, c.requests + [c.messages], Raised)
    ensures world.model(round, c.messages).Answer? ==>
      var heard := Hear(world.model(round, c.messages).deltas);
      var said := Assistant(heard.content, heard.calls);
      var after := OneRound(world, true, round, c).(requests := []);
      after ==
        if heard.failed || world.model(round, c.messages).breaks
        then Chat(c.messages, c.events + heard.events, [], Raised)
        else if heard.calls == []
        then Chat(c.messages + [said], c.events + heard.events + [Said(said)], [], Stopped)
        else RunTools(world, round, Chat(c.messages + [said], c.events + heard.events + [Said(said)], [], Going),
          heard.calls, |heard.calls|)
  {
    hide Hear;
    RoundAsks(world, true, round, c);
    var response := world.model(round, c.messages);
    if response.Answer? {
      var heard := Hear(response.deltas);
      var said := Assistant(heard.content, heard.calls);
      ToolsIgnoreRequests(world, round, Chat(c.messages + [said], c.events + heard.events + [Said(said)],
        c.requests + [c.messages], Going), heard.calls, |heard.calls|);
    }
  }

  lemma {:induction false} ToolsIgnoreRequests(world: World, round: nat, c: Chat, calls: seq<Call>, n: nat)
    requires n <= |calls|
    ensures RunTools(world, round, c, calls, n).(requests := [])
      == RunTools(world, round, c.(requests := []), calls, n)
  {
    if n > 0 {
      ToolsIgnoreRequests(world, round, c, calls, n - 1);
    }
  }

  /** Every request but the first is the one before with its answer: an assistant message with calls, and tools. */
  ghost predicate RequestsGrow(requests: seq<seq<Message>>) {
    forall i :: 0 <= i < |requests| - 1 ==> IsAnswered(requests[i], requests[i + 1])
  }

  predicate IsAnswered(before: seq<Message>, after: seq<Message>) {
    && |before| < |after| && after[..|before|] == before && after[|before|].Assistant?
    && after[|before|].calls != [] && |after| == |before| + 1 + |after[|before|].calls|
    && forall j :: |before| < j < |after| ==> after[j].Tool?
  }

  /** The chat goes on exactly as long as the model calls tools, and stops with its first answer that calls none. */
  lemma {:induction false} ChatStopsAtFirstAnswer(world: World, c: Chat, n: nat)
    requires c.requests == [] && c.status == Going
    ensures var end := Rounds(world, true, c, n);
      && RequestsGrow(end.requests) && (n > 0 ==> end.requests != [])
      && (end.status == Going && n > 0 ==> IsAnswered(end.requests[|end.requests| - 1], end.messages))
      && (end.status == Going && n == 0 ==> end == c)
      && (end.status == Stopped ==>
          exists content :: end.messages == end.requests[|end.requests| - 1] + [Assistant(content, [])])
      && (end.status == Going ==> |end.requests| == n)
  {
    hide OneRound;
    if n > 0 {
      ChatStopsAtFirstAnswer(world, c, n - 1);
      var before := Rounds(world, true, c, n - 1);
      if before.status == Going {
        RoundOutcome(world, n - 1, before);
        RoundAnswers(world, n - 1, before);
      }
    }
  }

  lemma RoundAnswers(world: World, round: nat, c: Chat)
    requires c.status == Going
    ensures var after := OneRound(world, true, round, c);
      && (after.status == Going ==> IsAnswered(c.messages, after.messages))
      && (after.status == Stopped ==> exists content :: after.messages == c.messages + [Assistant(content, [])])
  {
    hide Hear;
    RoundOutcome(world, round, c);
    var response := world.model(round, c.messages);
    if response.Answer? {
      var heard := Hear(response.deltas);
      var said := Assistant(heard.content, heard.calls);
      ToolsAppend(world, round, Chat(c.messages + [said], c.events + heard.events + [Said(said)], [], Going),
        heard.calls, |heard.calls|);
    }
  }

  lemma {:induction false} ToolsAppend(world: World, round: nat, c: Chat, calls: seq<Call>, n: nat)
    requires n <= |calls| && c.status == Going
    ensures var after := RunTools(world, round, c, calls, n);
      && |after.messages| >= |c.messages| && after.messages[..|c.messages|] == c.messages
      && (forall j :: |c.messages| <= j < |after.messages| ==> after.messages[j].Tool?)
      && after.status != Stopped && (after.status == Going ==> |after.messages| == |c.messages| + n)
  {
    if n > 0 {
      ToolsAppend(world, round, c, calls, n - 1);
    }
  }

  lemma RoundAsks(world: World, stream: bool, round: nat, c: Chat)
    ensures OneRound(world, stream, round, c).requests == c.requests + [c.messages]
  {
    hide Hear, Act;
    var asked := c.(requests := c.requests + [c.messages]);
    var response := world.model(round, c.messages);
    if response.Answer? {
      ActKeepsRequests(world, round, asked, if stream then Hear(response.deltas) else Hear([]));
    }
  }

  lemma {:induction false} FirstRequest(world: World, stream: bool, c: Chat, n: nat)
    requires n > 0 && c.requests == [] && c.status == Going
    ensures var end := Rounds(world, stream, c, n);
      end.requests != [] && end.requests[0] == c.messages
  {
    hide OneRound;
    if n == 1 {
      assert Rounds(world, stream, c, 0) == c;
      RoundAsks(world, stream, 0, c);
    } else {
      FirstRequest(world, stream, c, n - 1);
      RoundAsks(world, stream, n - 1, Rounds(world, stream, c, n - 1));
    }
  }

  predicate AllPaired(requests: seq<seq<Message>>) {
    forall i :: 0 <= i < |requests| ==> Paired(requests[i])
  }

  /** Every request of a chat is paired if and only if its compacted beginning is, whatever the model answers. */
  lemma ChatIsOrderlyExactly(world: World, stream: bool, prompt: string, history: seq<Message>)
    ensures AllPaired(ChatResult(world, stream, prompt, history).requests) <==>
      Paired(Compacted([Plain("system", prompt)] + history))
  {
    hide Rounds, Paired, Compacted;
    var start := Chat(Compacted([Plain("system", prompt)] + history), [], [], Going);
    FirstRequest(world, stream, start, MAX_LOOPS);
    if Paired(start.messages) {
      ChatIsOrderly(world, stream, prompt, history);
    }
  }

  /**
   From a paired history that begins with a plain message, every request is paired if and only if
   the history is short or its tenth message from the end is not a tool message.
   */
  lemma PairedHistoryIsOrderlyExactly(world: World, stream: bool, prompt: string, history: seq<Message>)
    requires Paired(history) && history != [] && history[0].Plain?
    ensures AllPaired(ChatResult(world, stream, prompt, history).requests) <==>
      |history| < 20 || !history[|history| - 10].Tool?
  {
    hide ChatResult, Paired, AllPaired;
    var ms := [Plain("system", prompt)] + history;
    ChatIsOrderlyExactly(world, stream, prompt, history);
    PromptKeepsPairing(Plain("system", prompt), history);
    if |history| >= 20 {
      CutBeforeToolBreaksExactly(ms);
    }
  }

  lemma PromptKeepsPairing(first: Message, history: seq<Message>)
    requires first.Plain? && Paired(history)
    ensures Paired([first] + history)
  {
    hide Pending;
    PendingConcat([], [first], history);
    PendingOne([], first);
  }

  lemma StartsInOrder(c: Chat)
    requires Paired(c.messages) && c.events == [] && c.requests == []
    ensures InOrder(c, 0)
  {
  }

  // The loops.

  /** A long paired conversation that begins as usual stays paired exactly if it is not cut before a tool message. */
  method CompactContext(messages: seq<Message>) returns (kept: seq<Message>)
    ensures kept == Compacted(messages)
    ensures |messages| <= 20 ==> kept == messages
    ensures |messages| > 20 ==> |kept| == 12 && kept[0] == messages[0] && kept[1] == messages[1]
    ensures |messages| > 20 ==> forall i :: 2 <= i < 12 ==> kept[i] == messages[|messages| - 12 + i]
    ensures |messages| > 20 && Paired(messages) && messages[0].Plain? && messages[1].Plain? ==>
      (Paired(kept) <==> !messages[|messages| - 10].Tool?)
  {
    hide Paired;
    if |messages| > 20 && Paired(messages) && messages[0].Plain? && messages[1].Plain? {
      CutBeforeToolBreaksExactly(messages);
    }
    kept := messages;
    if |messages| > 20 {
      kept := messages[..2] + messages[|messages| - 10..];
    }
  }

  /** The inner loops over a delta's fragments. */
  method Accumulate(toolCalls: seq<Call>, fragments: seq<Fragment>) returns (r: Option<seq<Call>>)
    ensures r == AddFragments(toolCalls, fragments)
  {
    var calls := toolCalls;
    for i := 0 to |fragments|
      invariant AddFragments(toolCalls, fragments[..i]) == Some(calls)
    {
      assert fragments[..i + 1][..i] == fragments[..i];
      var tc := fragments[i];
      var slots := calls;
      if |slots| <= tc.index {
        slots := slots + [Call(tc.id, "", "")];
      }
      if tc.name != "" || tc.arguments != "" {
        var position := Position(|slots|, tc.index);
        if position.None? {
          NoneStays(toolCalls, fragments, i + 1);
          return None;
        }
        var call := slots[position.value];
        slots := slots[position.value :=
          call.(name := call.name + tc.name, arguments := call.arguments + tc.arguments)];
      }
      calls := slots;
    }
    assert fragments[..|fragments|] == fragments;
    return Some(calls);
  }

  lemma {:induction false} NoneStays(calls: seq<Call>, fragments: seq<Fragment>, n: nat)
    requires n <= |fragments| && AddFragments(calls, fragments[..n]).None?
    ensures AddFragments(calls, fragments).None?
    decreases |fragments|
  {
    if n == |fragments| {
      assert fragments[..n] == fragments;
    } else {
      assert fragments[..|fragments| - 1][..n] == fragments[..n];
      NoneStays(calls, fragments[..|fragments| - 1], n);
    }
  }

  /** The loop over the chunks of a stream. */
  method HearStream(deltas: seq<Delta>) returns (h: Heard)
    ensures h == Hear(deltas)
  {
    hide AddFragments;
    var fullContent, toolCalls, events := "", [], [];
    for i := 0 to |deltas|
      invariant Hear(deltas[..i]) == Heard(fullContent, toolCalls, events, false)
    {
      assert deltas[..i + 1][..i] == deltas[..i];
      var delta := deltas[i];
      if delta.content != "" {
        fullContent := fullContent + delta.content;
        events := events + [Content(delta.content)];
      }
      var more := Accumulate(toolCalls, delta.fragments);
      if more.None? {
        FailureStays(deltas, i + 1);
        return Heard(fullContent, toolCalls, events, true);
      }
      toolCalls := more.value;
    }
    assert deltas[..|deltas|] == deltas;
    return Heard(fullContent, toolCalls, events, false);
  }

  lemma {:induction false} FailureStays(deltas: seq<Delta>, n: nat)
    requires n <= |deltas| && Hear(deltas[..n]).failed
    ensures Hear(deltas) == Hear(deltas[..n])
    decreases |deltas|
  {
    if n == |deltas| {
      assert deltas[..n] == deltas;
    } else {
      assert deltas[..|deltas| - 1][..n] == deltas[..n];
      FailureStays(deltas[..|deltas| - 1], n);
    }
  }

  /** `chat`. The events are what the generator yields before it ends or raises. */
  method RunChat(world: World, stream: bool, prompt: string, history: seq<Message>)
    returns (messages: seq<Message>, events: seq<Event>, raised: bool, ghost requests: seq<seq<Message>>)
    ensures messages == ChatResult(world, stream, prompt, history).messages
    ensures events == ChatResult(world, stream, prompt, history).events
    ensures raised <==> ChatResult(world, stream, prompt, history).status == Raised
    ensures requests == ChatResult(world, stream, prompt, history).requests
  {
    hide Hear, Act, Paired, Compacted;
    messages := CompactContext([Plain("system", prompt)] + history);
    events, requests := [], [];
    ghost var start := Chat(messages, [], [], Going);
    for loop := 0 to MAX_LOOPS
      invariant Rounds(world, stream, start, loop) == Chat(messages, events, requests, Going)
    {
      ghost var c := Chat(messages, events, requests, Going);
      ghost var after := OneRound(world, stream, loop, c);
      OneRoundOfMany(world, stream, start, loop);
      requests := requests + [messages];
      var response := world.model(loop, messages);
      if response.CallFails? {
        RaisedStays(world, stream, start, loop + 1, MAX_LOOPS);
        return messages, events, true, requests;
      }
      var heard := Heard("", [], [], false);
      if stream {
        heard := HearStream(response.deltas);
      }
      assert heard == if stream then Hear(response.deltas) else Hear([]) by { SilentAnswer(); }
      events := events + heard.events;
      if heard.failed || (stream && response.breaks) {
        RaisedStays(world, stream, start, loop + 1, MAX_LOOPS);
        return messages, events, true, requests;
      }
      ghost var asked := c.(requests := requests);
      assert after == Act(world, loop, asked, heard);
      ActUnfolds(world, loop, asked, heard);
      var assistant := Assistant(heard.content, heard.calls);
      messages := messages + [assistant];
      events := events + [Said(assistant)];
      if heard.calls == [] {
        RaisedStays(world, stream, start, loop + 1, MAX_LOOPS);
        break;
      }
      var failed;
      messages, events, failed := ExecuteCalls(world, loop, messages, events, requests, heard.calls);
      if failed {
        RaisedStays(world, stream, start, loop + 1, MAX_LOOPS);
        return messages, events, true, requests;
      }
    }
    events := events + [Done];
    raised := false;
  }

  /** The loop over the calls of an assistant message. */
  method ExecuteCalls(world: World, round: nat, before: seq<Message>, yielded: seq<Event>,
      ghost requests: seq<seq<Message>>, calls: seq<Call>)
    returns (messages: seq<Message>, events: seq<Event>, raised: bool)
    ensures Chat(messages, events, requests, if raised then Raised else Going)
         == RunTools(world, round, Chat(before, yielded, requests, Going), calls, |calls|)
  {
    messages, events, raised := before, yielded, false;
    ghost var start := Chat(before, yielded, requests, Going);
    for i := 0 to |calls|
      invariant Chat(messages, events, requests, Going) == RunTools(world, round, start, calls, i)
    {
      var parsed := world.parse(calls[i].arguments);
      var args := if parsed.Some? then parsed.value else "{}";
      events := events + [Calling(calls[i].name, args)];
      var result := world.dispatch(round, i, calls[i].name, args);
      if result.None? {
        RaisedToolStays(world, round, start, calls, i + 1, |calls|);
        return messages, events, true;
      }
      messages := messages + [Tool(calls[i].id, calls[i].name, result.value)];
      events := events + [Result(calls[i].name, result.value)];
    }
  }

  lemma {:induction false} RaisedToolStays(world: World, round: nat, c: Chat, calls: seq<Call>, m: nat, n: nat)
    requires m <= n <= |calls| && RunTools(world, round, c, calls, m).status == Raised
    ensures RunTools(world, round, c, calls, n) == RunTools(world, round, c, calls, m)
  {
    if m < n {
      RaisedToolStays(world, round, c, calls, m, n - 1);
    }
  }

  lemma {:induction false} RaisedStays(world: World, stream: bool, c: Chat, m: nat, n: nat)
    requires m <= n && Rounds(world, stream, c, m).status != Going
    ensures Rounds(world, stream, c, n) == Rounds(world, stream, c, m)
  {
    if m < n {
      RaisedStays(world, stream, c, m, n - 1);
    }
  }

  lemma OneRoundOfMany(world: World, stream: bool, c: Chat, n: nat)
    requires Rounds(world, stream, c, n).status == Going
    ensures Rounds(world, stream, c, n + 1) == OneRound(world, stream, n, Rounds(world, stream, c, n))
  {
    hide OneRound;
  }

  lemma SilentAnswer()
    ensures Hear([]) == Heard("", [], [], false)
  {
  }

  lemma ActUnfolds(world: World, round: nat, c: Chat, heard: Heard)
    ensures var said := Assistant(heard.content, heard.calls);
      var spoken := c.(messages := c.messages + [said], events := c.events + heard.events + [Said(said)]);
      Act(world, round, c, heard)
      == if heard.calls == [] then spoken.(status := Stopped)
        else RunTools(world, round, spoken, heard.calls, |heard.calls|)
  {
    hide RunTools;
  }
}
