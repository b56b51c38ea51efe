/**
The three waiting loops: the retry decorator of the ledger storage
(src/sqlite_ledger_storage.py), the waiting acquire of the lock (src/config_shield.py) and the
run loop of the shipper (src/cluster/shipper.py). Times are real numbers of seconds; the
outcomes of the calls, the clock and the random numbers are parameters.
*/
module Backoff {

  function Min(a: real, b: real): real {
    if a <= b then a else b
  }

  function Pow2(n: nat): nat {
    if n == 0 then 1 else 2 * Pow2(n - 1)
  }

  function Sum(s: seq<real>): real {
    if s == [] then 0.0 else Sum(s[..|s| - 1]) + s[|s| - 1]
  }

  // with_retry.

  datatype Outcome<T> =
    | Returns(value: T)
    | Locked            // OperationalError: database is locked
    | Raises            // any other exception

  /** The delay before attempt `k` + 1, without jitter. */
  function RetryDelay(k: nat, base: real, cap: real): real {
    Min(cap, base * (Pow2(k) as real))
  }

  /** The capped geometric sum of the first `n` delays. */
  function RetryDelays(n: nat, base: real, cap: real): real {
    if n == 0 then 0.0 else RetryDelays(n - 1, base, cap) + RetryDelay(n, base, cap)
  }

  /**
   What the decorated call gives. It makes at most `maxAttempts` calls, and one when that is not
   positive; every call but the last one found the database locked, so the wrapped function took
   effect at most once; and the time slept is within a tenth of the capped geometric sum.
   */
  method WithRetry<T>(outcomes: nat -> Outcome<T>, random: nat -> real, maxAttempts: int, base: real, cap: real)
    returns (result: Outcome<T>, calls: nat, slept: real, fellThrough: bool)
    requires forall i :: 0.0 <= random(i) < 1.0
    requires base >= 0.0 && cap >= 0.0
    ensures 1 <= calls && (maxAttempts >= 1 ==> calls <= maxAttempts) && (maxAttempts < 1 ==> calls == 1)
    ensures fellThrough <==> maxAttempts < 1
    ensures result == outcomes(calls - 1)
    ensures forall i :: 0 <= i < calls - 1 ==> outcomes(i).Locked?
    ensures result.Locked? && maxAttempts >= 1 ==> calls == maxAttempts
    ensures 0.9 * RetryDelays(calls - 1, base, cap) <= slept <= 1.1 * RetryDelays(calls - 1, base, cap)
  {
    hide Jitter, RetryDelay;
    var attempts: nat := 0;
    calls, slept, fellThrough := 0, 0.0, false;
    while attempts < maxAttempts
      invariant 0 <= attempts == calls
      invariant if maxAttempts >= 1 then attempts < maxAttempts else attempts == 0
      invariant forall i :: 0 <= i < calls ==> outcomes(i).Locked?
      invariant 0.9 * RetryDelays(calls, base, cap) <= slept <= 1.1 * RetryDelays(calls, base, cap)
      decreases maxAttempts - attempts
    {
      result := outcomes(calls);
      calls := calls + 1;
      if result.Locked? && attempts < maxAttempts - 1 {
        attempts := attempts + 1;
        var delay := RetryDelay(attempts, base, cap);
        DelayIsNonnegative(attempts, base, cap);
        JitterBound(delay, random(attempts));
        slept := slept + (delay + Jitter(delay, random(attempts)));
      } else {
        return;
      }
    }
    fellThrough := true;
    result := outcomes(calls);
    calls := calls + 1;
  }

  function Jitter(delay: real, r: real): real {
    delay * 0.1 * (r * 2.0 - 1.0)
  }

  lemma JitterBound(delay: real, r: real)
    requires delay >= 0.0 && 0.0 <= r < 1.0
    ensures -0.1 * delay <= Jitter(delay, r) <= 0.1 * delay
  {
    var u := r * 2.0 - 1.0;
    Nonnegative(delay, u + 1.0);
    Nonnegative(delay, 1.0 - u);
    assert delay * (u + 1.0) == delay * u + delay && delay * (1.0 - u) == delay - delay * u;
    assert Jitter(delay, r) == 0.1 * (delay * u);
  }

  lemma Nonnegative(a: real, b: real)
    requires a >= 0.0 && b >= 0.0
    ensures a * b >= 0.0
  {
  }

  lemma DelayIsNonnegative(k: nat, base: real, cap: real)
    requires base >= 0.0 && cap >= 0.0
    ensures RetryDelay(k, base, cap) >= 0.0
  {
    Nonnegative(base, Pow2(k) as real);
  }

  /** With the default base 10 ms and cap 500 ms, five attempts sleep at most 330 ms. */
  lemma {:induction false} DefaultRetryBound(n: nat)
    requires n <= 4
    ensures RetryDelays(n, 0.01, 0.5) == [0.0, 0.02, 0.06, 0.14, 0.30][n]
    ensures 1.1 * RetryDelays(n, 0.01, 0.5) <= 0.33
  {
    assert Pow2(1) == 2 && Pow2(2) == 4 && Pow2(3) == 8 && Pow2(4) == 16;
    assert RetryDelays(1, 0.01, 0.5) == 0.02;
    assert RetryDelays(2, 0.01, 0.5) == 0.06;
    assert RetryDelays(3, 0.01, 0.5) == 0.14;
    assert RetryDelays(4, 0.01, 0.5) == 0.30;
  }

  /** Each delay doubles the one before until the cap is reached, and stays there. */
  lemma RetryDelayDoubles(k: nat, base: real, cap: real)
    requires base >= 0.0 && cap >= 0.0
    ensures RetryDelay(0, base, cap) == if base <= cap then base else cap
    ensures var twice := 2.0 * RetryDelay(k, base, cap);
      RetryDelay(k + 1, base, cap) == if twice <= cap then twice else cap
  {
    PowPositive(k);
    var x := base * (Pow2(k) as real);
    Nonnegative(base, Pow2(k) as real);
    assert base * (Pow2(k + 1) as real) == 2.0 * x;
  }

  // acquire.

  datatype Attempt = Granted | Contended | Fatal  // Fatal: an error that is not transient

  datatype Acquired = Got | Refused | Failed | StillTrying

  const BASE_DELAY: real := 0.02
  const MAX_DELAY: real := 0.2

  /** The sleep after `tried` attempts: a random part of the doubling cap, cut at the time left, never negative. */
  function SleepAfter(tried: nat, random: real, timeLeft: real): real {
    var delay := Min(MAX_DELAY, BASE_DELAY * (Pow2(tried) as real)) * random;
    if delay > timeLeft then if timeLeft > 0.0 then timeLeft else 0.0 else delay
  }

  method PickDelay(tried: nat, random: real, timeLeft: real) returns (delay: real)
    ensures delay == SleepAfter(tried, random, timeLeft)
  {
    var power := Power(tried);
    var currentCap := Min(MAX_DELAY, BASE_DELAY * (power as real));
    delay := currentCap * random;
    if delay > timeLeft {
      delay := timeLeft;
      if delay <= 0.0 {
        delay := 0.0;
      }
    }
  }

  /** With time enough, the sleeps are random parts of 40, 80, 160, 200, 200, ... milliseconds. */
  lemma SleepTells(tried: nat, random: real, timeLeft: real)
    requires 1 <= tried && 0.0 <= random <= 1.0 && timeLeft >= 0.2
    ensures SleepAfter(tried, random, timeLeft)
      == (if tried == 1 then 0.04 else if tried == 2 then 0.08 else if tried == 3 then 0.16 else 0.2) * random
  {
    SleepBound(tried, random, timeLeft);
    assert Pow2(1) == 2 && Pow2(2) == 4 && Pow2(3) == 8 && Pow2(4) == 16;
    if tried >= 4 {
      PowGrows(4, tried);
    }
    var currentCap := Min(MAX_DELAY, BASE_DELAY * (Pow2(tried) as real));
    Nonnegative(0.2 - currentCap, random);
    Nonnegative(0.2, 1.0 - random);
  }

  /** A sleep is at most 200 ms and, when there is one, ends within the time left. */
  lemma SleepBound(tried: nat, random: real, timeLeft: real)
    requires 0.0 <= random <= 1.0
    ensures 0.0 <= SleepAfter(tried, random, timeLeft) <= 0.2
    ensures SleepAfter(tried, random, timeLeft) > 0.0 ==> SleepAfter(tried, random, timeLeft) <= timeLeft
  {
    PowPositive(tried);
    var currentCap := Min(MAX_DELAY, BASE_DELAY * (Pow2(tried) as real));
    Nonnegative(currentCap, random);
    Nonnegative(currentCap, 1.0 - random);
    assert currentCap * (1.0 - random) == currentCap - currentCap * random;
  }

  /**
   The loop of `acquire` over any finite stretch of attempts. `start` is the clock when the
   deadline is set; after attempt i the clock reads `before(i)` at the deadline check and
   `after(i)` when the delay is computed. It tries at least once, gives up only on contention
   past the deadline, and each sleep ends at or before the deadline.
   */
  method AcquireLoop(attempts: seq<Attempt>, waitMs: int, start: real, before: nat -> real, after: nat -> real,
                     random: nat -> real)
    returns (result: Acquired, tried: nat, sleeps: seq<real>)
    requires attempts != [] && start > 0.0
    requires forall i :: 0.0 <= random(i) <= 1.0
    ensures 1 <= tried <= |attempts|
    ensures forall i :: 0 <= i < tried - 1 ==> attempts[i] == Contended
    ensures result == Got <==> attempts[tried - 1] == Granted
    ensures result == Failed <==> attempts[tried - 1] == Fatal
    ensures waitMs <= 0 ==> tried == 1 && sleeps == []
    ensures waitMs > 0 ==>
      (result == Refused <==> attempts[tried - 1] == Contended && before(tried - 1) >= start + waitMs as real / 1000.0)
    ensures waitMs > 0 ==> forall i :: 0 <= i < tried - 1 ==> before(i) < start + waitMs as real / 1000.0
    ensures result == StillTrying ==> tried == |attempts|
    ensures |sleeps| == (if result == StillTrying then tried else tried - 1)
    ensures forall i :: 0 <= i < |sleeps| ==>
      sleeps[i] == SleepAfter(i + 1, random(i), start + waitMs as real / 1000.0 - after(i))
    ensures waitMs > 0 ==> forall i :: 0 <= i < |sleeps| ==>
      0.0 <= sleeps[i] <= MAX_DELAY && (sleeps[i] > 0.0 ==> after(i) + sleeps[i] <= start + waitMs as real / 1000.0)
  {
    hide SleepAfter;
    var deadline := if waitMs > 0 then start + waitMs as real / 1000.0 else 0.0;
    tried, sleeps := 0, [];
    while tried < |attempts|
      invariant 0 <= tried <= |attempts| && |sleeps| == tried
      invariant waitMs <= 0 ==> tried == 0
      invariant forall i :: 0 <= i < tried ==> attempts[i] == Contended && waitMs > 0 && before(i) < deadline
      invariant forall i :: 0 <= i < tried ==> sleeps[i] == SleepAfter(i + 1, random(i), deadline - after(i))
      invariant forall i :: 0 <= i < tried ==>
        0.0 <= sleeps[i] <= MAX_DELAY && (sleeps[i] > 0.0 ==> after(i) + sleeps[i] <= deadline)
    {
      var attempt := attempts[tried];
      tried := tried + 1;
      if attempt == Granted {
        return Got, tried, sleeps;
      }
      if attempt == Fatal {
        return Failed, tried, sleeps;
      }
      if deadline == 0.0 || before(tried - 1) >= deadline {
        return Refused, tried, sleeps;
      }
      var timeLeft := deadline - after(tried - 1);
      var delay := PickDelay(tried, random(tried - 1), timeLeft);
      SleepBound(tried, random(tried - 1), timeLeft);
      sleeps := sleeps + [delay];
    }
    result := StillTrying;
  }

  lemma {:induction false} PowPositive(n: nat)
    ensures Pow2(n) >= 1
  {
    if n > 0 {
      PowPositive(n - 1);
    }
  }

  // The shipper's run loop.

  /** The wait after the k-th failure in a row. */
  function FailureWait(k: nat): nat
    requires k >= 1
  {
    if Pow2(k - 1) < 60 then Pow2(k - 1) else 60
  }

  function FailureWaits(k: nat): nat {
    if k == 0 then 0 else FailureWaits(k - 1) + FailureWait(k)
  }

  /** The total wait after k failures in a row: 2^k - 1 up to six, then a minute more each. */
  lemma {:induction false} FailureWaitsClosedForm(k: nat)
    ensures k <= 6 ==> FailureWaits(k) == Pow2(k) - 1
    ensures k > 6 ==> FailureWaits(k) == 63 + 60 * (k - 6)
  {
    if k > 0 {
      FailureWaitsClosedForm(k - 1);
      PowOfSmall();
      if k >= 7 {
        PowGrows(6, k - 1);
      }
    }
  }

  lemma PowOfSmall()
    ensures Pow2(0) == 1 && Pow2(1) == 2 && Pow2(2) == 4 && Pow2(3) == 8 && Pow2(4) == 16
      && Pow2(5) == 32 && Pow2(6) == 64
  {
    assert Pow2(3) == 8;
    assert Pow2(5) == 32;
  }

  lemma {:induction false} PowGrows(a: nat, b: nat)
    requires a <= b
    ensures Pow2(a) <= Pow2(b)
  {
    if a < b {
      PowGrows(a, b - 1);
    }
  }

  /** One turn of the run loop: shipped this many, or raised. */
  datatype Turn = Shipped(count: nat) | Raised

  /** Failures in a row at the end of `turns`. */
  function Streak(turns: seq<Turn>): nat {
    if turns == [] || turns[|turns| - 1].Shipped? then 0 else 1 + Streak(turns[..|turns| - 1])
  }

  /** The wait that follows the last of `turns`. */
  function WaitAfter(turns: seq<Turn>, batchSize: int, interval: real): real
    requires turns != []
  {
    match turns[|turns| - 1]
    case Shipped(count) => if count >= batchSize then 0.1 else interval
    case Raised => FailureWait(Streak(turns)) as real
  }

  /** `_run_loop` over any finite stretch of turns: every wait depends only on the turns up to it. */
  method RunLoop(turns: seq<Turn>, batchSize: int, interval: real) returns (waits: seq<real>)
    ensures |waits| == |turns|
    ensures forall i :: 0 <= i < |turns| ==> waits[i] == WaitAfter(turns[..i + 1], batchSize, interval)
    ensures forall i :: 0 <= i < |turns| && turns[i].Shipped? ==>
      waits[i] == if turns[i].count >= batchSize then 0.1 else interval
  {
    var consecutiveFailures: nat := 0;
    waits := [];
    for i := 0 to |turns|
      invariant |waits| == i
      invariant consecutiveFailures == Streak(turns[..i])
      invariant forall j :: 0 <= j < i ==> waits[j] == WaitAfter(turns[..j + 1], batchSize, interval)
    {
      assert turns[..i + 1][..i] == turns[..i];
      match turns[i]
      case Shipped(count) =>
        consecutiveFailures := 0;
        waits := waits + [if count >= batchSize then 0.1 else interval];
      case Raised =>
        consecutiveFailures := consecutiveFailures + 1;
        var power := Power(consecutiveFailures - 1);
        waits := waits + [(if power < 60 then power else 60) as real];
    }
  }

  method Power(n: nat) returns (p: nat)
    ensures p == Pow2(n)
  {
    p := 1;
    for i := 0 to n
      invariant p == Pow2(i)
    {
      p := 2 * p;
    }
  }

  function Raises(k: nat): seq<Turn> {
    seq(k, i => Raised)
  }

  /** The waits after each of `k` failures that follow a history. */
  function OutageWaits(history: seq<Turn>, k: nat, batchSize: int, interval: real): (waits: seq<real>)
    ensures |waits| == k
    ensures forall i :: 0 <= i < k ==> waits[i] == WaitAfter(history + Raises(i + 1), batchSize, interval)
  {
    if k == 0 then []
    else OutageWaits(history, k - 1, batchSize, interval) + [WaitAfter(history + Raises(k), batchSize, interval)]
  }

  /** After any history that ended well, k failures in a row wait the closed-form total. */
  lemma {:induction false} OutageWait(history: seq<Turn>, k: nat, batchSize: int, interval: real)
    requires Streak(history) == 0
    ensures Streak(history + Raises(k)) == k
    ensures Sum(OutageWaits(history, k, batchSize, interval)) == FailureWaits(k) as real
  {
    hide Streak, FailureWait;
    if k == 0 {
      assert history + Raises(0) == history;
    } else {
      OutageWait(history, k - 1, batchSize, interval);
      OneMoreFailure(history, k);
      var waits := OutageWaits(history, k, batchSize, interval);
      assert waits[..k - 1] == OutageWaits(history, k - 1, batchSize, interval);
      assert waits[k - 1] == FailureWait(k) as real;
    }
  }

  lemma OneMoreFailure(history: seq<Turn>, k: nat)
    requires k > 0
    ensures var turns := history + Raises(k);
      turns[|turns| - 1] == Raised && Streak(turns) == 1 + Streak(history + Raises(k - 1))
  {
    var turns := history + Raises(k);
    assert turns[..|turns| - 1] == history + Raises(k - 1);
  }
}
