/**
 Retrying under a whole-loop deadline. The clock is an input: `start` when the loop begins, `before(i)` when
 attempt `i` asks what remains, `after(i)` when attempt `i` has ended. Nothing but monotonicity is assumed
 of it unless a lemma says so.
 */
module DeadlineRetry {
  import opened Prelude
  import opened Retry

  datatype Timeout = Timeout(connect: Option<real>, read: Option<real>, write: Option<real>, pool: Option<real>)

  datatype Clock = Clock(start: real, before: nat -> real, after: nat -> real)

  datatype Job = Job(verb: string, timeout: Timeout, deadline: real, retries: int,
                     factor: real, retryNonIdempotent: bool)

  datatype Attempt = Attempt(begun: real, timeout: Timeout)

  /** The smaller of a configured limit, if there is one, and the remaining budget. */
  function Limit(value: Option<real>, remaining: real): (limit: real)
    ensures limit <= remaining && (value.Some? ==> limit <= value.value)
    ensures limit == remaining || value == Some(limit)
  {
    if value.None? then remaining else if value.value < remaining then value.value else remaining
  }

  function AttemptTimeout(t: Timeout, remaining: real): Timeout {
    Timeout(Some(Limit(t.connect, remaining)), Some(Limit(t.read, remaining)),
            Some(Limit(t.write, remaining)), Some(Limit(t.pool, remaining)))
  }

  function End(j: Job, clock: Clock): real {
    clock.start + j.deadline
  }

  // ---- What the loop does, said without a loop ------------------------------------------------

  predicate Starts(j: Job, clock: Clock, i: nat) {
    i <= j.retries && clock.before(i) < End(j, clock)
  }

  /** After attempt `i` the loop sleeps and turns. */
  predicate GoesOn(j: Job, clock: Clock, outcomes: nat -> Outcome, i: nat) {
    Retryable(j.verb, j.retryNonIdempotent, outcomes(i)) && i < j.retries && clock.after(i) < End(j, clock)
  }

  /** Exactly the attempts 0 to n-1 are made. */
  predicate Makes(j: Job, clock: Clock, outcomes: nat -> Outcome, n: nat) {
    && (forall i :: 0 <= i < n ==> Starts(j, clock, i))
    && (forall i :: 0 <= i < n - 1 ==> GoesOn(j, clock, outcomes, i))
    && (n == 0 || GoesOn(j, clock, outcomes, n - 1) ==> !Starts(j, clock, n))
  }

  function LastAnswer(outcomes: nat -> Outcome, n: nat): Option<Response> {
    if n == 0 then None
    else if outcomes(n - 1).Answer? then Some(outcomes(n - 1).response)
    else LastAnswer(outcomes, n - 1)
  }

  /** A final outcome wins; then the latest response, even an older one; then the latest error. */
  function Verdict(j: Job, outcomes: nat -> Outcome, n: nat): Result {
    if n == 0 then DeadlineExceeded
    else if !Retryable(j.verb, j.retryNonIdempotent, outcomes(n - 1)) then ResultOf(outcomes(n - 1))
    else if LastAnswer(outcomes, n).Some? then Returned(LastAnswer(outcomes, n).value)
    else ResultOf(outcomes(n - 1))
  }

  function SleepAfter(j: Job, clock: Clock, jitter: nat -> real, i: nat): real {
    Limit(Some(JitteredBackoff(j.factor, i, jitter(i))), End(j, clock) - clock.after(i))
  }

  function AttemptAt(j: Job, clock: Clock, i: nat): Attempt {
    Attempt(clock.before(i), AttemptTimeout(j.timeout, End(j, clock) - clock.before(i)))
  }

  predicate SleepsAsRun(j: Job, clock: Clock, jitter: nat -> real, sleeps: seq<real>) {
    forall i :: 0 <= i < |sleeps| ==> sleeps[i] == SleepAfter(j, clock, jitter, i)
  }

  predicate AttemptsAsRun(j: Job, clock: Clock, attempts: seq<Attempt>) {
    forall i :: 0 <= i < |attempts| ==> attempts[i] == AttemptAt(j, clock, i)
  }

  ghost predicate MeetsDeadline(j: Job, clock: Clock, outcomes: nat -> Outcome, jitter: nat -> real,
                                result: Result, attempts: seq<Attempt>, sleeps: seq<real>)
  {
    var n := |attempts|;
    && Makes(j, clock, outcomes, n)
    && result == Verdict(j, outcomes, n)
    && AttemptsAsRun(j, clock, attempts)
    && SleepsAsRun(j, clock, jitter, sleeps)
    && |sleeps| == if n == 0 then 0 else if GoesOn(j, clock, outcomes, n - 1) then n else n - 1
  }

  /** The loop has made its attempts and slept after all of them that it went on from. */
  ghost predicate Underway(j: Job, clock: Clock, outcomes: nat -> Outcome, jitter: nat -> real,
                           attempts: seq<Attempt>, sleeps: seq<real>)
  {
    && (forall i :: 0 <= i < |attempts| ==> Starts(j, clock, i))
    && (forall i :: 0 <= i < |sleeps| ==> GoesOn(j, clock, outcomes, i))
    && AttemptsAsRun(j, clock, attempts)
    && SleepsAsRun(j, clock, jitter, sleeps)
  }

  lemma EndsOnFinalOutcome(j: Job, clock: Clock, outcomes: nat -> Outcome, jitter: nat -> real,
                           attempts: seq<Attempt>, sleeps: seq<real>)
    requires Underway(j, clock, outcomes, jitter, attempts, sleeps) && |attempts| == |sleeps| + 1
    requires !Retryable(j.verb, j.retryNonIdempotent, outcomes(|sleeps|))
    ensures MeetsDeadline(j, clock, outcomes, jitter, ResultOf(outcomes(|sleeps|)), attempts, sleeps)
  {}

  lemma MakesAll(j: Job, clock: Clock, outcomes: nat -> Outcome, n: nat, slept: nat)
    requires forall i :: 0 <= i < n ==> Starts(j, clock, i)
    requires forall i :: 0 <= i < slept ==> GoesOn(j, clock, outcomes, i)
    requires (slept == n && !Starts(j, clock, n)) || (n == slept + 1 && !GoesOn(j, clock, outcomes, slept))
    ensures Makes(j, clock, outcomes, n)
    ensures slept == if n == 0 then 0 else if GoesOn(j, clock, outcomes, n - 1) then n else n - 1
  {}

  lemma EndsWithoutOne(j: Job, clock: Clock, outcomes: nat -> Outcome, jitter: nat -> real,
                       attempts: seq<Attempt>, sleeps: seq<real>, result: Result)
    requires Underway(j, clock, outcomes, jitter, attempts, sleeps)
    requires (|sleeps| == |attempts| && !Starts(j, clock, |attempts|))
             || (|attempts| == |sleeps| + 1 && !GoesOn(j, clock, outcomes, |sleeps|))
    requires result == Verdict(j, outcomes, |attempts|)
    ensures MeetsDeadline(j, clock, outcomes, jitter, result, attempts, sleeps)
  {
    MakesAll(j, clock, outcomes, |attempts|, |sleeps|);
  }

  lemma OneMoreAttempt(j: Job, clock: Clock, outcomes: nat -> Outcome, jitter: nat -> real,
                       attempts: seq<Attempt>, sleeps: seq<real>)
    requires Underway(j, clock, outcomes, jitter, attempts, sleeps) && Starts(j, clock, |attempts|)
    ensures Underway(j, clock, outcomes, jitter, attempts + [AttemptAt(j, clock, |attempts|)], sleeps)
  {}

  lemma OneMoreSleep(j: Job, clock: Clock, outcomes: nat -> Outcome, jitter: nat -> real,
                     attempts: seq<Attempt>, sleeps: seq<real>)
    requires Underway(j, clock, outcomes, jitter, attempts, sleeps) && GoesOn(j, clock, outcomes, |sleeps|)
    ensures Underway(j, clock, outcomes, jitter, attempts, sleeps + [SleepAfter(j, clock, jitter, |sleeps|)])
  {}

  /** The loop's two variables after `n` attempts, none of them final. */
  predicate Remembers(j: Job, outcomes: nat -> Outcome, n: nat, lastResponse: Option<Response>, lastExc: Option<int>) {
    && lastResponse == LastAnswer(outcomes, n)
    && (n == 0 ==> lastExc.None?)
    && (n > 0 ==> Retryable(j.verb, j.retryNonIdempotent, outcomes(n - 1)))
    && (n > 0 && lastResponse.None? ==> lastExc.Some? && outcomes(n - 1) == Transient(lastExc.value))
  }

  lemma RememberedVerdict(j: Job, outcomes: nat -> Outcome, n: nat,
                          lastResponse: Option<Response>, lastExc: Option<int>)
    requires Remembers(j, outcomes, n, lastResponse, lastExc)
    ensures Verdict(j, outcomes, n) ==
            if lastResponse.Some? then Returned(lastResponse.value)
            else if lastExc.Some? then Raised(lastExc.value) else DeadlineExceeded
  {}

  method RequestWithinDeadline(j: Job, clock: Clock, outcomes: nat -> Outcome, jitter: nat -> real)
    returns (result: Result, attempts: seq<Attempt>, sleeps: seq<real>)
    ensures MeetsDeadline(j, clock, outcomes, jitter, result, attempts, sleeps)
  {
    var end := End(j, clock);
    var lastResponse: Option<Response> := None;
    var lastExc: Option<int> := None;
    attempts, sleeps := [], [];
    var attempt: nat := 0;
    while attempt < j.retries + 1
      invariant |attempts| == attempt == |sleeps|
      invariant attempt == 0 || attempt <= j.retries
      invariant Underway(j, clock, outcomes, jitter, attempts, sleeps)
      invariant Remembers(j, outcomes, attempt, lastResponse, lastExc)
    {
      var remaining := end - clock.before(attempt);
      if remaining <= 0.0 {
        break;
      }
      OneMoreAttempt(j, clock, outcomes, jitter, attempts, sleeps);
      attempts := attempts + [Attempt(clock.before(attempt), AttemptTimeout(j.timeout, remaining))];
      match outcomes(attempt) {
        case Fatal(exc) =>
          EndsOnFinalOutcome(j, clock, outcomes, jitter, attempts, sleeps);
          return Raised(exc), attempts, sleeps;
        case Transient(exc) =>
          lastExc := Some(exc);
        case Answer(response) =>
          if !ShouldRetryStatus(j.verb, response.status, j.retryNonIdempotent) {
            EndsOnFinalOutcome(j, clock, outcomes, jitter, attempts, sleeps);
            return Returned(response), attempts, sleeps;
          }
          lastResponse := Some(response);
      }
      if attempt >= j.retries {
        break;
      }
      var budget := end - clock.after(attempt);
      if budget <= 0.0 {
        break;
      }
      OneMoreSleep(j, clock, outcomes, jitter, attempts, sleeps);
      sleeps := sleeps + [Limit(Some(JitteredBackoff(j.factor, attempt, jitter(attempt))), budget)];
      attempt := attempt + 1;
    }
    RememberedVerdict(j, outcomes, |attempts|, lastResponse, lastExc);
    if lastResponse.Some? {
      result := Returned(lastResponse.value);
    } else if lastExc.Some? {
      result := Raised(lastExc.value);
    } else {
      result := DeadlineExceeded;
    }
    EndsWithoutOne(j, clock, outcomes, jitter, attempts, sleeps, result);
  }

  // ---- The deadline ---------------------------------------------------------------------------

  predicate Within(t: Timeout, remaining: real) {
    && t.connect.Some? && t.connect.value <= remaining && t.read.Some? && t.read.value <= remaining
    && t.write.Some? && t.write.value <= remaining && t.pool.Some? && t.pool.value <= remaining
  }

  /**
   For every clock: no attempt starts at or after the end, every timeout component of an attempt fits in
   what remains at its start, and every single sleep fits in what remains when it is requested.
   */
  lemma NothingOutlivesTheDeadline(j: Job, clock: Clock, outcomes: nat -> Outcome, jitter: nat -> real,
                                   result: Result, attempts: seq<Attempt>, sleeps: seq<real>)
    requires MeetsDeadline(j, clock, outcomes, jitter, result, attempts, sleeps)
    ensures forall i :: 0 <= i < |attempts| ==>
                          && attempts[i].begun < End(j, clock)
                          && Within(attempts[i].timeout, End(j, clock) - attempts[i].begun)
    ensures forall i :: 0 <= i < |sleeps| ==>
                          clock.after(i) < End(j, clock) && sleeps[i] <= End(j, clock) - clock.after(i)
    ensures |attempts| <= if j.retries >= 0 then j.retries + 1 else 0
  {
    forall i | 0 <= i < |attempts|
      ensures attempts[i].begun < End(j, clock) && Within(attempts[i].timeout, End(j, clock) - attempts[i].begun)
    {
      assert Starts(j, clock, i);
    }
    if attempts != [] { assert Starts(j, clock, |attempts| - 1); }
    forall i | 0 <= i < |sleeps|
      ensures clock.after(i) < End(j, clock) && sleeps[i] <= End(j, clock) - clock.after(i)
    {
      assert GoesOn(j, clock, outcomes, i);
    }
  }

  /** `x` is the smaller of `a` and `b`. */
  predicate Smaller(x: real, a: real, b: real) {
    x <= a && x <= b && (x == a || x == b)
  }

  /**
   Every sleep is the jittered backoff of its attempt, or what remains where that is less, so with a sample in
   [0, 1] it stays within the attempt's exponential cap.
   */
  lemma SleepsBackOff(j: Job, clock: Clock, outcomes: nat -> Outcome, jitter: nat -> real,
                      result: Result, attempts: seq<Attempt>, sleeps: seq<real>, i: nat)
    requires MeetsDeadline(j, clock, outcomes, jitter, result, attempts, sleeps) && i < |sleeps|
    ensures Smaller(sleeps[i], JitteredBackoff(j.factor, i, jitter(i)), clock.start + j.deadline - clock.after(i))
    ensures j.factor >= 0.0 && 0.0 <= jitter(i) <= 1.0 ==> 0.0 < sleeps[i] <= Cap(j.factor, i) || j.factor == 0.0
  {
    assert sleeps[i] == SleepAfter(j, clock, jitter, i);
    assert GoesOn(j, clock, outcomes, i);
    if j.factor >= 0.0 && 0.0 <= jitter(i) <= 1.0 {
      JitterBand(j.factor, i, jitter(i));
      if j.factor > 0.0 { CapPositive(j.factor, i); }
    }
  }

  lemma {:induction false} CapPositive(factor: real, attempt: nat)
    requires factor > 0.0
    ensures Cap(factor, attempt) > 0.0
  {
    if attempt > 0 { CapPositive(factor, attempt - 1); }
  }

  /** A timeout component as an attempt gets it: the remaining time, or the configured limit where that is less. */
  predicate Capped(given: Option<real>, configured: Option<real>, remaining: real) {
    && given.Some?
    && (configured.None? ==> given.value == remaining)
    && (configured.Some? ==> Smaller(given.value, configured.value, remaining))
  }

  /** Every attempt begins when it asked what remains, and gets each of its four timeouts capped by that. */
  lemma AttemptsAreCapped(j: Job, clock: Clock, outcomes: nat -> Outcome, jitter: nat -> real,
                          result: Result, attempts: seq<Attempt>, sleeps: seq<real>, i: nat)
    requires MeetsDeadline(j, clock, outcomes, jitter, result, attempts, sleeps) && i < |attempts|
    ensures attempts[i].begun == clock.before(i)
    ensures var t, remaining := attempts[i].timeout, clock.start + j.deadline - clock.before(i);
            && Capped(t.connect, j.timeout.connect, remaining) && Capped(t.read, j.timeout.read, remaining)
            && Capped(t.write, j.timeout.write, remaining) && Capped(t.pool, j.timeout.pool, remaining)
  {
    assert attempts[i] == AttemptAt(j, clock, i);
  }

  /** Short of a final outcome, the loop gives up only when its budget or its time is used up. */
  lemma LeavesOnlyWhenDone(j: Job, clock: Clock, outcomes: nat -> Outcome, jitter: nat -> real,
                           result: Result, attempts: seq<Attempt>, sleeps: seq<real>)
    requires MeetsDeadline(j, clock, outcomes, jitter, result, attempts, sleeps)
    ensures var n, end := |attempts|, clock.start + j.deadline;
            || n >= j.retries + 1
            || (n > 0 && !Retryable(j.verb, j.retryNonIdempotent, outcomes(n - 1)))
            || (n > 0 && clock.after(n - 1) >= end)
            || clock.before(n) >= end
    ensures |sleeps| <= |attempts| <= |sleeps| + 1
    ensures forall i :: 0 <= i < |attempts| - 1 ==> Retryable(j.verb, j.retryNonIdempotent, outcomes(i))
  {
    var n := |attempts|;
    if n > 0 { assert Starts(j, clock, n - 1); }
    forall i | 0 <= i < n - 1 ensures Retryable(j.verb, j.retryNonIdempotent, outcomes(i)) {
      assert GoesOn(j, clock, outcomes, i);
    }
  }

  lemma {:induction false} LastAnswerIsLatest(outcomes: nat -> Outcome, n: nat)
    ensures LastAnswer(outcomes, n).Some? ==>
              exists i :: 0 <= i < n && outcomes(i) == Answer(LastAnswer(outcomes, n).value)
                          && forall k :: i < k < n ==> !outcomes(k).Answer?
    ensures LastAnswer(outcomes, n).None? ==> forall k :: 0 <= k < n ==> !outcomes(k).Answer?
  {
    if n > 0 {
      LastAnswerIsLatest(outcomes, n - 1);
      if outcomes(n - 1).Answer? { assert outcomes(n - 1) == Answer(LastAnswer(outcomes, n).value); }
    }
  }

  /**
   What the loop comes to: no attempt, no answer. Otherwise the latest response of all attempts, which is the
   last one's if that was final; or, if there was none or the last attempt failed for good, its error.
   */
  lemma VerdictMeans(j: Job, clock: Clock, outcomes: nat -> Outcome, jitter: nat -> real,
                     result: Result, attempts: seq<Attempt>, sleeps: seq<real>)
    requires MeetsDeadline(j, clock, outcomes, jitter, result, attempts, sleeps)
    ensures result == DeadlineExceeded <==> attempts == []
    ensures forall r :: result == Returned(r) ==>
                          exists i :: 0 <= i < |attempts| && outcomes(i) == Answer(r)
                                      && forall k :: i < k < |attempts| ==> outcomes(k).Transient?
    ensures forall exc :: result == Raised(exc) ==>
                            && attempts != []
                            && (outcomes(|attempts| - 1) == Fatal(exc) ||
                                (outcomes(|attempts| - 1) == Transient(exc)
                                 && forall k :: 0 <= k < |attempts| ==> outcomes(k).Transient?))
  {
    var n := |attempts|;
    LeavesOnlyWhenDone(j, clock, outcomes, jitter, result, attempts, sleeps);
    LastAnswerIsLatest(outcomes, n);
    forall k | 0 <= k < n - 1 ensures !outcomes(k).Fatal? {
      assert Retryable(j.verb, j.retryNonIdempotent, outcomes(k));
    }
    if n > 0 && outcomes(n - 1).Answer? { assert LastAnswer(outcomes, n) == Some(outcomes(n - 1).response); }
  }

  predicate Ordered(clock: Clock, i: nat) {
    clock.before(i) <= clock.after(i) <= clock.before(i + 1)
  }

  predicate Monotone(clock: Clock, n: nat) {
    clock.start <= clock.before(0) && forall i :: 0 <= i < n ==> Ordered(clock, i)
  }

  predicate SleptThrough(clock: Clock, i: nat, asked: real) {
    clock.after(i) + asked <= clock.before(i + 1)
  }

  /** `time.sleep` suspends for at least the time asked for. */
  predicate SleepsCount(clock: Clock, sleeps: seq<real>) {
    forall i :: 0 <= i < |sleeps| ==> SleptThrough(clock, i, sleeps[i])
  }

  function SumOf(xs: seq<real>): real {
    if xs == [] then 0.0 else SumOf(xs[..|xs| - 1]) + xs[|xs| - 1]
  }

  lemma {:induction false} SleptByNow(clock: Clock, sleeps: seq<real>, n: nat)
    requires n <= |sleeps| && Monotone(clock, |sleeps|) && SleepsCount(clock, sleeps)
    ensures clock.start + SumOf(sleeps[..n]) <= clock.before(n)
  {
    if n > 0 {
      SleptByNow(clock, sleeps, n - 1);
      assert sleeps[..n][..n - 1] == sleeps[..n - 1];
      assert Ordered(clock, n - 1) && SleptThrough(clock, n - 1, sleeps[n - 1]);
    }
  }

  /** All requested sleeps together fit in the deadline. */
  lemma TotalSleepWithinDeadline(j: Job, clock: Clock, outcomes: nat -> Outcome, jitter: nat -> real,
                                 result: Result, attempts: seq<Attempt>, sleeps: seq<real>)
    requires MeetsDeadline(j, clock, outcomes, jitter, result, attempts, sleeps)
    requires Monotone(clock, |sleeps|) && SleepsCount(clock, sleeps)
    ensures SumOf(sleeps) <= if j.deadline > 0.0 then j.deadline else 0.0
  {
    if sleeps != [] {
      var last := |sleeps| - 1;
      SleptByNow(clock, sleeps, last);
      SleptByNow(clock, sleeps, 0);
      assert Ordered(clock, last);
      NothingOutlivesTheDeadline(j, clock, outcomes, jitter, result, attempts, sleeps);
      assert sleeps[last] <= End(j, clock) - clock.after(last);
      assert Starts(j, clock, 0);
    }
  }

  /** Monotonicity alone is not enough: on a clock that stands still two sleeps can each take the whole deadline. */
  lemma StuckClockOversleeps(j: Job, outcomes: nat -> Outcome, jitter: nat -> real,
                             result: Result, attempts: seq<Attempt>, sleeps: seq<real>)
    requires j.retries == 2 && j.deadline > 0.0 && j.factor >= 2.0 * j.deadline
    requires forall i :: 0.0 <= jitter(i) <= 1.0
    requires forall i :: Retryable(j.verb, j.retryNonIdempotent, outcomes(i))
    requires MeetsDeadline(j, Clock(0.0, _ => 0.0, _ => 0.0), outcomes, jitter, result, attempts, sleeps)
    ensures SumOf(sleeps) == 2.0 * j.deadline
  {
    var clock := Clock(0.0, _ => 0.0, _ => 0.0);
    var n := |attempts|;
    assert n == 3 by {
      assert n > 0 ==> Starts(j, clock, n - 1);
      assert forall i: nat :: i <= 2 ==> Starts(j, clock, i);
      assert forall i: nat :: i < 2 ==> GoesOn(j, clock, outcomes, i);
    }
    assert !GoesOn(j, clock, outcomes, 2);
    JitterBand(j.factor, 0, jitter(0));
    JitterBand(j.factor, 1, jitter(1));
    assert sleeps[0] == j.deadline && sleeps[1] == j.deadline;
    assert sleeps == [j.deadline, j.deadline] && sleeps[..1] == [j.deadline] && sleeps[..1][..0] == [];
    assert SumOf(sleeps[..1]) == j.deadline;
  }

  function Longest(t: Timeout): (longest: real)
    requires t.connect.Some? && t.read.Some? && t.write.Some? && t.pool.Some?
    ensures forall bound :: Within(t, bound) ==> longest <= bound
  {
    var a := if t.connect.value > t.read.value then t.connect.value else t.read.value;
    var b := if t.write.value > t.pool.value then t.write.value else t.pool.value;
    if a > b then a else b
  }

  /** When the loop leaves: at the check that found no time left, or at the end of its last attempt. */
  function Finish(clock: Clock, n: nat, slept: nat): real
    requires slept <= n
  {
    if slept == n then clock.before(n) else clock.after(n - 1)
  }

  /** If attempts keep to their capped timeouts and sleeps are exact, the loop is back by the end time. */
  lemma ReturnsByTheEnd(j: Job, clock: Clock, outcomes: nat -> Outcome, jitter: nat -> real,
                        result: Result, attempts: seq<Attempt>, sleeps: seq<real>)
    requires MeetsDeadline(j, clock, outcomes, jitter, result, attempts, sleeps)
    requires clock.before(0) == clock.start && j.deadline >= 0.0
    requires forall i :: 0 <= i < |attempts| ==>
                           clock.after(i) <= clock.before(i) + Longest(AttemptAt(j, clock, i).timeout)
    requires forall i :: 0 <= i < |sleeps| ==> clock.before(i + 1) == clock.after(i) + sleeps[i]
    ensures |sleeps| <= |attempts| && Finish(clock, |attempts|, |sleeps|) <= End(j, clock)
  {
    NothingOutlivesTheDeadline(j, clock, outcomes, jitter, result, attempts, sleeps);
    var n := |attempts|;
    if n > 0 {
      var remaining := End(j, clock) - clock.before(n - 1);
      assert Within(attempts[n - 1].timeout, remaining);
      assert clock.after(n - 1) <= End(j, clock);
    }
  }

  // ---- The two loops agree --------------------------------------------------------------------

  predicate NeverBites(j: Job, clock: Clock) {
    forall i :: 0 <= i <= j.retries ==> clock.before(i) < End(j, clock) && clock.after(i) < End(j, clock)
  }

  lemma SameAttempts(j: Job, p: Policy, clock: Clock, outcomes: nat -> Outcome, n: nat, last: nat)
    requires j.retries == p.retries >= 0 && j.retryNonIdempotent == p.retryNonIdempotent && NeverBites(j, clock)
    requires Makes(j, clock, outcomes, n) && IsLast(p, j.verb, outcomes, last)
    ensures n == last + 1
  {
    assert n > 0 by { assert Starts(j, clock, 0); }
    assert Starts(j, clock, n - 1);
    assert last <= n - 1 by {
      LastIsLeast(p, j.verb, outcomes, last, p.retries);
      if n <= last {
        assert !Stops(p, j.verb, outcomes, n - 1);
        assert GoesOn(j, clock, outcomes, n - 1) && Starts(j, clock, n);
        assert false;
      }
    }
    assert n - 1 <= last by {
      assert GoesOn(j, clock, outcomes, last) ==> !Stops(p, j.verb, outcomes, last);
      assert 0 <= last < n - 1 ==> GoesOn(j, clock, outcomes, last);
    }
  }

  lemma {:induction false} LastAnswerIsSome(outcomes: nat -> Outcome, n: nat)
    ensures LastAnswer(outcomes, n).Some? <==> exists i :: 0 <= i < n && outcomes(i).Answer?
  {
    if n > 0 { LastAnswerIsSome(outcomes, n - 1); }
  }

  /**
   On the same outcomes the deadline loop and the transport loop send equally often and answer alike,
   except exactly when the last attempt raised and an earlier one had a retryable response: then the
   deadline loop returns the latest such response and the transport loop raises.
   */
  lemma LoopsAgree(j: Job, p: Policy, clock: Clock, outcomes: nat -> Outcome, jitter: nat -> real,
                   result: Result, attempts: seq<Attempt>, sleeps: seq<real>,
                   last: nat, sent: Result, trace: seq<Event>)
    requires j.retries == p.retries >= 0 && j.retryNonIdempotent == p.retryNonIdempotent && NeverBites(j, clock)
    requires MeetsDeadline(j, clock, outcomes, jitter, result, attempts, sleeps)
    requires Meets(p, j.verb, outcomes, jitter, last, sent, trace)
    ensures |attempts| == last + 1 == Sends(trace)
    ensures result != sent <==> outcomes(last).Transient? && exists i :: 0 <= i < last && outcomes(i).Answer?
    ensures result != sent ==> LastAnswer(outcomes, last).Some? && result == Returned(LastAnswer(outcomes, last).value)
                               && sent == Raised(outcomes(last).exc)
  {
    SameAttempts(j, p, clock, outcomes, |attempts|, last);
    SendBudget(p, j.verb, outcomes, jitter, last, sent, trace);
    LastAnswerIsSome(outcomes, last);
  }

  /** With a negative budget they never agree: the transport still sends once, the deadline loop not at all. */
  lemma NegativeBudgetDisagrees(j: Job, p: Policy, clock: Clock, outcomes: nat -> Outcome, jitter: nat -> real,
                                result: Result, attempts: seq<Attempt>, sleeps: seq<real>,
                                last: nat, sent: Result, trace: seq<Event>)
    requires j.retries == p.retries < 0
    requires MeetsDeadline(j, clock, outcomes, jitter, result, attempts, sleeps)
    requires Meets(p, j.verb, outcomes, jitter, last, sent, trace)
    ensures |attempts| == 0 && Sends(trace) == 1 && result == DeadlineExceeded != sent
  {
    SendBudget(p, j.verb, outcomes, jitter, last, sent, trace);
    assert |attempts| > 0 ==> Starts(j, clock, 0);
  }
}
