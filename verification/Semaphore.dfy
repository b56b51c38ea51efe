/**
The semaphore that the cron engine uses (`asyncio.Semaphore` of Python 3.12, without
cancellation): a count of free slots and a queue of waiters. A woken waiter owns its slot at
once but leaves the queue only when its task resumes.
*/
module Semaphores {
  import opened Collections

  /** Free slots, woken waiters that have not resumed, and sleeping waiters, both in queue order. */
  datatype Sem = Sem(value: nat, granted: seq<nat>, waiting: seq<nat>)

  /** `locked()`: a caller would have to wait. */
  predicate Locked(s: Sem) {
    s.value == 0 || s.granted != [] || s.waiting != []
  }

  /** Wakes the first sleeper, if there is one. */
  function Grant(s: Sem): Sem
    requires s.value > 0
  {
    if s.waiting == [] then s else Sem(s.value - 1, s.granted + [s.waiting[0]], s.waiting[1..])
  }

  /** Wakes as many sleepers as there are free slots, in order. */
  function GrantAll(s: Sem): Sem {
    var n := Least(s.value, |s.waiting|);
    Sem(s.value - n, s.granted + s.waiting[..n], s.waiting[n..])
  }

  /** `acquire` without waiting. */
  function Take(s: Sem): Sem
    requires !Locked(s)
  {
    s.(value := s.value - 1)
  }

  /** `acquire` up to its await. */
  function Join(s: Sem, ticket: nat): Sem {
    s.(waiting := s.waiting + [ticket])
  }

  function Without(tickets: seq<nat>, ticket: nat): (rest: seq<nat>)
    ensures ticket !in tickets ==> rest == tickets
    ensures ticket in tickets ==> |rest| == |tickets| - 1
  {
    if tickets == [] then []
    else if tickets[0] == ticket then tickets[1..]
    else [tickets[0]] + Without(tickets[1..], ticket)
  }

  lemma WithoutOne(tickets: seq<nat>, ticket: nat)
    requires Distinct(tickets)
    ensures Distinct(Without(tickets, ticket))
    ensures forall t :: t in Without(tickets, ticket) <==> t in tickets && t != ticket
  {
    hide Without;
    if ticket in tickets {
      var i :| 0 <= i < |tickets| && tickets[i] == ticket;
      WithoutAt(tickets, ticket, i);
      forall t
        ensures t in Without(tickets, ticket) <==> t in tickets && t != ticket
      {
        if t in tickets && t != ticket {
          var j :| 0 <= j < |tickets| && tickets[j] == t;
          assert if j < i then tickets[..i][j] == t else tickets[i + 1..][j - i - 1] == t;
        }
      }
    }
  }

  /** `acquire` after its await. */
  function Leave(s: Sem, ticket: nat): Sem {
    GrantAll(s.(granted := Without(s.granted, ticket)))
  }

  function Release(s: Sem): Sem {
    Grant(s.(value := s.value + 1))
  }

  /** Slots that are free or promised; what is missing to the maximum is in use. */
  function Unused(s: Sem): nat {
    s.value + |s.granted|
  }

  /** Nobody sleeps beside a free slot, unless a woken waiter has yet to resume and look. */
  predicate Served(s: Sem) {
    s.waiting != [] && s.value > 0 ==> s.granted != []
  }

  /** A waiter in the deque: its future and whether the result is set. */
  datatype Waiter = Waiter(ticket: nat, done: bool)

  function Deque(granted: seq<nat>, waiting: seq<nat>): seq<Waiter> {
    seq(|granted|, i requires 0 <= i < |granted| => Waiter(granted[i], true))
    + seq(|waiting|, i requires 0 <= i < |waiting| => Waiter(waiting[i], false))
  }

  class Semaphore {
    var value: nat
    var waiters: seq<Waiter>
    ghost var state: Sem

    /** The deque holds the woken waiters before the sleeping ones. */
    ghost predicate Valid()
      reads this
    {
      value == state.value && waiters == Deque(state.granted, state.waiting)
    }

    constructor (value: nat)
      ensures Valid() && state == Sem(value, [], [])
    {
      this.value, waiters, state := value, [], Sem(value, [], []);
    }

    method IsLocked() returns (locked: bool)
      requires Valid()
      ensures locked == Locked(state)
    {
      locked := value == 0 || waiters != [];
    }

    method AcquireNow()
      requires Valid() && !Locked(state)
      modifies this
      ensures Valid() && state == Take(old(state))
    {
      value := value - 1;
      state := Take(state);
    }

    method AppendWaiter(ticket: nat)
      requires Valid()
      modifies this
      ensures Valid() && state == Join(old(state), ticket)
    {
      waiters := waiters + [Waiter(ticket, false)];
      state := Join(state, ticket);
    }

    /** `_wake_up_next`. */
    method WakeUpNext() returns (woken: bool)
      requires Valid() && value > 0
      modifies this
      ensures Valid() && state == Grant(old(state)) && woken == (old(state).waiting != [])
    {
      var i := 0;
      while i < |waiters|
        invariant i <= |state.granted|
        invariant Valid() && state == old(state) && value > 0
      {
        if !waiters[i].done {
          value := value - 1;
          waiters := waiters[i := Waiter(waiters[i].ticket, true)];
          state := Grant(state);
          return true;
        }
        i := i + 1;
      }
      return false;
    }

    /** `deque.remove`: the first waiter with this future. */
    method RemoveWaiter(ticket: nat)
      requires Valid() && ticket in state.granted
      modifies this
      ensures Valid() && state == old(state).(granted := Without(old(state).granted, ticket))
    {
      hide Without;
      var i := 0;
      while waiters[i].ticket != ticket
        invariant i < |state.granted| && forall j :: 0 <= j < i ==> state.granted[j] != ticket
        decreases |waiters| - i
      {
        i := i + 1;
      }
      WithoutAt(state.granted, ticket, i);
      DequeWithout(state.granted, state.waiting, i);
      waiters := waiters[..i] + waiters[i + 1..];
      state := state.(granted := state.granted[..i] + state.granted[i + 1..]);
    }

    /** What a woken task does first: it leaves the queue and wakes whom it can. */
    method Resume(ticket: nat)
      requires Valid() && ticket in state.granted
      modifies this
      ensures Valid() && state == Leave(old(state), ticket)
    {
      RemoveWaiter(ticket);
      while value > 0
        invariant Valid() && GrantAll(state) == Leave(old(state), ticket)
        decreases value
      {
        GrantAllStep(state);
        var woken := WakeUpNext();
        if !woken {
          break;
        }
      }
    }

    method ReleaseSlot()
      requires Valid()
      modifies this
      ensures Valid() && state == Release(old(state))
    {
      value := value + 1;
      state := state.(value := state.value + 1);
      var _ := WakeUpNext();
    }
  }

  lemma {:induction false} WithoutAt(tickets: seq<nat>, ticket: nat, i: nat)
    requires i < |tickets| && tickets[i] == ticket && forall j :: 0 <= j < i ==> tickets[j] != ticket
    ensures Without(tickets, ticket) == tickets[..i] + tickets[i + 1..]
  {
    if i > 0 {
      WithoutAt(tickets[1..], ticket, i - 1);
      assert tickets[1..][..i - 1] == tickets[1..i] && tickets[1..][i..] == tickets[i + 1..];
      assert [tickets[0]] + tickets[1..i] == tickets[..i];
    }
  }

  lemma DequeWithout(granted: seq<nat>, waiting: seq<nat>, i: nat)
    requires i < |granted|
    ensures var waiters := Deque(granted, waiting);
      Deque(granted[..i] + granted[i + 1..], waiting) == waiters[..i] + waiters[i + 1..]
  {
  }

  lemma GrantAllStep(s: Sem)
    requires s.value > 0
    ensures GrantAll(Grant(s)) == GrantAll(s)
    ensures s.waiting == [] ==> GrantAll(s) == s
  {
    if s.waiting != [] {
      var n := Least(s.value, |s.waiting|);
      assert s.waiting[1..][..n - 1] == s.waiting[1..n];
      assert s.waiting[..n] == [s.waiting[0]] + s.waiting[1..n];
      assert s.waiting[1..][n - 1..] == s.waiting[n..];
    }
  }
}
