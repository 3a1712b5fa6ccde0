/**
 The retry policy shared by the transports. What the network does is an arbitrary stream of outcomes, one
 per send; what `random` does is an arbitrary stream of samples in [0, 1]. A run leaves a trace of its
 sends, releases and sleeps.
 */
module Retry {
  import opened Prelude

  /** The `Retry-After` header of section 10.2.3 of RFC 9110; `Date` holds the date minus the current time. */
  datatype RetryAfter = Absent | Seconds(value: real) | Date(delta: real) | Garbage

  datatype Response = Response(status: int, retryAfter: RetryAfter)

  /** `Transient` is a network, timeout or remote-protocol error; `Fatal` is any other exception. */
  datatype Outcome = Answer(response: Response) | Transient(exc: int) | Fatal(exc: int)

  datatype Result = Returned(response: Response) | Raised(exc: int) | DeadlineExceeded

  datatype Policy = Policy(retries: int, factor: real, retryNonIdempotent: bool, maxRetryAfter: real)

  datatype Event = Sent(attempt: nat) | Closed(attempt: nat) | Slept(seconds: real)

  // ---- Decisions -----------------------------------------------------------------------------

  const IDEMPOTENT_METHODS := {"GET", "HEAD", "OPTIONS"}

  function Upper(s: string): string {
    seq(|s|, i requires 0 <= i < |s| => if 'a' <= s[i] <= 'z' then (s[i] as int - 32) as char else s[i])
  }

  predicate IsIdempotent(verb: string) {
    Upper(verb) in IDEMPOTENT_METHODS
  }

  predicate IsRetryableStatus(status: int) {
    status == 408 || status == 429 || status >= 500
  }

  predicate ShouldRetryStatus(verb: string, status: int, retryNonIdempotent: bool) {
    IsRetryableStatus(status) && (retryNonIdempotent || IsIdempotent(verb))
  }

  predicate Retryable(verb: string, retryNonIdempotent: bool, o: Outcome) {
    match o
    case Answer(r) => ShouldRetryStatus(verb, r.status, retryNonIdempotent)
    case Transient(_) => true
    case Fatal(_) => false
  }

  /** `text` spells `word`, whatever the case of its letters. */
  predicate Spells(text: string, word: string) {
    && |text| == |word|
    && forall i :: 0 <= i < |text| ==>
                     text[i] == word[i] || ('a' <= text[i] <= 'z' && text[i] as int == word[i] as int + 32)
  }

  lemma UpperSpells(text: string, word: string)
    requires forall i :: 0 <= i < |word| ==> 'A' <= word[i] <= 'Z'
    ensures Upper(text) == word <==> Spells(text, word)
  {
    var upper := Upper(text);
    if Spells(text, word) {
      forall i | 0 <= i < |text| ensures upper[i] == word[i] {}
    }
    if upper == word {
      forall i | 0 <= i < |text|
        ensures text[i] == word[i] || ('a' <= text[i] <= 'z' && text[i] as int == word[i] as int + 32)
      {
        assert upper[i] == word[i];
      }
    }
  }

  /**
   What makes an outcome worth another attempt: an error without any response; or a 408, 429 or 5xx, if the
   method is GET, HEAD or OPTIONS in any case or the caller opted in.
   */
  lemma RetryableExactly(verb: string, retryNonIdempotent: bool, o: Outcome)
    ensures Retryable(verb, retryNonIdempotent, o) <==>
            || o.Transient?
            || (&& o.Answer? && (o.response.status in {408, 429} || o.response.status >= 500)
                && (retryNonIdempotent || Spells(verb, "GET") || Spells(verb, "HEAD") || Spells(verb, "OPTIONS")))
  {
    UpperSpells(verb, "GET");
    UpperSpells(verb, "HEAD");
    UpperSpells(verb, "OPTIONS");
  }

  function ResultOf(o: Outcome): Result {
    match o
    case Answer(r) => Returned(r)
    case Transient(exc) => Raised(exc)
    case Fatal(exc) => Raised(exc)
  }

  // ---- Delays --------------------------------------------------------------------------------

  function Pow2(n: nat): (p: real)
    ensures p >= 1.0
  {
    if n == 0 then 1.0 else 2.0 * Pow2(n - 1)
  }

  /** The exponential cap `factor * 2**attempt`, by doubling; `CapIsPower` gives the product. */
  function Cap(factor: real, attempt: nat): real {
    if attempt == 0 then factor else 2.0 * Cap(factor, attempt - 1)
  }

  /** `uniform(0, top)` on the sample `u`. */
  function Uniform(u: real, top: real): (x: real)
    ensures 0.0 <= u <= 1.0 && top >= 0.0 ==> 0.0 <= x <= top
  {
    Scale(u, top);
    u * top
  }

  lemma Scale(u: real, top: real)
    ensures 0.0 <= u <= 1.0 && top >= 0.0 ==> 0.0 <= u * top <= top
  {
    assert top - u * top == (1.0 - u) * top;
  }

  /** `cap/2 + uniform(0, cap/2)`. */
  function JitteredBackoff(factor: real, attempt: nat, u: real): real {
    var half := Cap(factor, attempt) / 2.0;
    half + Uniform(u, half)
  }

  lemma {:induction false} CapIsPower(factor: real, attempt: nat)
    ensures Cap(factor, attempt) == factor * Pow2(attempt)
  {
    if attempt > 0 {
      CapIsPower(factor, attempt - 1);
      Doubled(factor, Pow2(attempt - 1));
    }
  }

  lemma Doubled(c: real, q: real)
    ensures c * (2.0 * q) == 2.0 * (c * q)
  {}

  function Clamp(x: real, limit: real): real {
    var low := if x > 0.0 then x else 0.0;
    if low < limit then low else limit
  }

  function ParseRetryAfter(header: RetryAfter, limit: real): Option<real> {
    match header
    case Absent => None
    case Seconds(x) => Some(Clamp(x, limit))
    case Date(delta) => Some(Clamp(delta, limit))
    case Garbage => None
  }

  function StatusDelay(p: Policy, r: Response, attempt: nat, u: real): real {
    var parsed := ParseRetryAfter(r.retryAfter, p.maxRetryAfter);
    if parsed.Some? then parsed.value else JitteredBackoff(p.factor, attempt, u)
  }

  function Delay(p: Policy, o: Outcome, attempt: nat, u: real): real {
    if o.Answer? then StatusDelay(p, o.response, attempt, u) else JitteredBackoff(p.factor, attempt, u)
  }

  /** Whether the delay after this outcome comes from a header. */
  predicate Prescribed(o: Outcome) {
    o.Answer? && (o.response.retryAfter.Seconds? || o.response.retryAfter.Date?)
  }

  // ---- The reference policy ------------------------------------------------------------------

  predicate Stops(p: Policy, verb: string, outcomes: nat -> Outcome, n: nat) {
    n >= p.retries || !Retryable(verb, p.retryNonIdempotent, outcomes(n))
  }

  /** The policy, said once: the first attempt that is final or out of budget decides. */
  predicate IsLast(p: Policy, verb: string, outcomes: nat -> Outcome, last: nat) {
    Stops(p, verb, outcomes, last) && forall i :: 0 <= i < last ==> !Stops(p, verb, outcomes, i)
  }

  /** What one retried attempt leaves behind: its send, the release of its response if any, its sleep. */
  function Turn(p: Policy, o: Outcome, n: nat, u: real): seq<Event> {
    if o.Answer? then [Sent(n), Closed(n), Slept(Delay(p, o, n, u))] else [Sent(n), Slept(Delay(p, o, n, u))]
  }

  /** What the first `n` attempts leave behind when all of them are retried. */
  function Retried(p: Policy, outcomes: nat -> Outcome, jitter: nat -> real, n: nat): seq<Event> {
    if n == 0 then [] else Retried(p, outcomes, jitter, n - 1) + Turn(p, outcomes(n - 1), n - 1, jitter(n - 1))
  }

  ghost predicate Meets(p: Policy, verb: string, outcomes: nat -> Outcome, jitter: nat -> real,
                        last: nat, result: Result, trace: seq<Event>)
  {
    && IsLast(p, verb, outcomes, last)
    && result == ResultOf(outcomes(last))
    && trace == Retried(p, outcomes, jitter, last) + [Sent(last)]
  }

  method SendWithRetries(p: Policy, verb: string, outcomes: nat -> Outcome, jitter: nat -> real)
    returns (result: Result, trace: seq<Event>, sends: nat)
    ensures sends >= 1 && Meets(p, verb, outcomes, jitter, sends - 1, result, trace)
  {
    var attempt: nat := 0;
    trace := [];
    while true
      invariant trace == Retried(p, outcomes, jitter, attempt)
      invariant forall i :: 0 <= i < attempt ==> !Stops(p, verb, outcomes, i)
      invariant attempt == 0 || attempt <= p.retries
      decreases if p.retries >= 0 then p.retries - attempt + 1 else 1 - attempt
    {
      var o := outcomes(attempt);
      trace := trace + [Sent(attempt)];
      var delay: real;
      match o {
        case Fatal(exc) =>
          return Raised(exc), trace, attempt + 1;
        case Transient(exc) =>
          if attempt >= p.retries {
            return Raised(exc), trace, attempt + 1;
          }
          delay := JitteredBackoff(p.factor, attempt, jitter(attempt));
        case Answer(response) =>
          if !ShouldRetryStatus(verb, response.status, p.retryNonIdempotent) {
            return Returned(response), trace, attempt + 1;
          }
          if attempt >= p.retries {
            return Returned(response), trace, attempt + 1;
          }
          delay := StatusDelay(p, response, attempt, jitter(attempt));
          trace := trace + [Closed(attempt)];
      }
      trace := trace + [Slept(delay)];
      assert trace == Retried(p, outcomes, jitter, attempt) + Turn(p, o, attempt, jitter(attempt));
      attempt := attempt + 1;
    }
  }

  /** The async twin, loop for loop. */
  method AsendWithRetries(p: Policy, verb: string, outcomes: nat -> Outcome, jitter: nat -> real)
    returns (result: Result, trace: seq<Event>, sends: nat)
    ensures sends >= 1 && Meets(p, verb, outcomes, jitter, sends - 1, result, trace)
  {
    var attempt: nat := 0;
    trace := [];
    while true
      invariant trace == Retried(p, outcomes, jitter, attempt)
      invariant forall i :: 0 <= i < attempt ==> !Stops(p, verb, outcomes, i)
      invariant attempt == 0 || attempt <= p.retries
      decreases if p.retries >= 0 then p.retries - attempt + 1 else 1 - attempt
    {
      var o := outcomes(attempt);
      trace := trace + [Sent(attempt)];
      if o.Fatal? {
        return Raised(o.exc), trace, attempt + 1;
      }
      var delay: real;
      if o.Transient? {
        if attempt >= p.retries {
          return Raised(o.exc), trace, attempt + 1;
        }
        delay := JitteredBackoff(p.factor, attempt, jitter(attempt));
      } else {
        if !ShouldRetryStatus(verb, o.response.status, p.retryNonIdempotent) || attempt >= p.retries {
          return Returned(o.response), trace, attempt + 1;
        }
        delay := StatusDelay(p, o.response, attempt, jitter(attempt));
        trace := trace + [Closed(attempt)];
      }
      trace := trace + [Slept(delay)];
      assert trace == Retried(p, outcomes, jitter, attempt) + Turn(p, o, attempt, jitter(attempt));
      attempt := attempt + 1;
    }
  }

  // ---- What a run guarantees -----------------------------------------------------------------

  function Budget(p: Policy): nat {
    if p.retries > 0 then p.retries else 0
  }

  lemma LastIsLeast(p: Policy, verb: string, outcomes: nat -> Outcome, last: nat, n: nat)
    requires IsLast(p, verb, outcomes, last) && Stops(p, verb, outcomes, n)
    ensures last <= n
  {}

  /** The contract fixes every output, so the sync loop and its async twin decide alike. */
  lemma RunsAgree(p: Policy, verb: string, outcomes: nat -> Outcome, jitter: nat -> real,
                  last1: nat, result1: Result, trace1: seq<Event>, last2: nat, result2: Result, trace2: seq<Event>)
    requires Meets(p, verb, outcomes, jitter, last1, result1, trace1)
    requires Meets(p, verb, outcomes, jitter, last2, result2, trace2)
    ensures last1 == last2 && result1 == result2 && trace1 == trace2
  {
    LastIsLeast(p, verb, outcomes, last1, last2);
    LastIsLeast(p, verb, outcomes, last2, last1);
  }

  function Sends(trace: seq<Event>): nat {
    if trace == [] then 0
    else Sends(trace[..|trace| - 1]) + if trace[|trace| - 1].Sent? then 1 else 0
  }

  lemma {:induction false} SendsConcat(a: seq<Event>, b: seq<Event>)
    ensures Sends(a + b) == Sends(a) + Sends(b)
    decreases |b|
  {
    if b == [] {
      assert a + b == a;
    } else {
      assert (a + b)[..|a + b| - 1] == a + b[..|b| - 1];
      SendsConcat(a, b[..|b| - 1]);
    }
  }

  lemma {:induction false} RetriedSends(p: Policy, outcomes: nat -> Outcome, jitter: nat -> real, n: nat)
    ensures Sends(Retried(p, outcomes, jitter, n)) == n
  {
    if n > 0 {
      RetriedSends(p, outcomes, jitter, n - 1);
      var turn := Turn(p, outcomes(n - 1), n - 1, jitter(n - 1));
      TurnCounts(p, outcomes(n - 1), n - 1, jitter(n - 1), n - 1);
      SendsConcat(Retried(p, outcomes, jitter, n - 1), turn);
    }
  }

  lemma OneEvent(e: Event, i: nat)
    ensures Sends([e]) == (if e.Sent? then 1 else 0) && Releases([e], i) == (if e == Closed(i) then 1 else 0)
    ensures TotalSleep([e]) == if e.Slept? then e.seconds else 0.0
  {
    assert [e][..0] == [];
  }

  lemma TurnCounts(p: Policy, o: Outcome, n: nat, u: real, i: nat)
    ensures var turn := Turn(p, o, n, u);
            && Sends(turn) == 1 && TotalSleep(turn) == Delay(p, o, n, u)
            && Releases(turn, i) == if o.Answer? && i == n then 1 else 0
  {
    var turn := Turn(p, o, n, u);
    OneEvent(turn[0], i);
    assert turn[..2][..1] == [turn[0]];
    if o.Answer? {
      assert turn[..2] == [turn[0], turn[1]];
    } else {
      assert turn[..2] == turn;
    }
  }

  /** A run returns a response or raises an error exactly as its last attempt did. */
  lemma ResultIsLast(p: Policy, verb: string, outcomes: nat -> Outcome, jitter: nat -> real,
                     last: nat, result: Result, trace: seq<Event>)
    requires Meets(p, verb, outcomes, jitter, last, result, trace)
    ensures forall r :: result == Returned(r) <==> outcomes(last) == Answer(r)
    ensures forall exc :: result == Raised(exc) <==> outcomes(last) in {Transient(exc), Fatal(exc)}
    ensures !result.DeadlineExceeded?
  {}

  /** At most one send more than the retry budget; a negative budget still sends once. */
  lemma SendBudget(p: Policy, verb: string, outcomes: nat -> Outcome, jitter: nat -> real,
                   last: nat, result: Result, trace: seq<Event>)
    requires Meets(p, verb, outcomes, jitter, last, result, trace)
    ensures Sends(trace) == last + 1 <= Budget(p) + 1
    ensures last < p.retries ==> !Retryable(verb, p.retryNonIdempotent, outcomes(last))
  {
    RetriedSends(p, outcomes, jitter, last);
    SendsConcat(Retried(p, outcomes, jitter, last), [Sent(last)]);
    OneEvent(Sent(last), last);
    LastIsLeast(p, verb, outcomes, last, Budget(p));
  }

  /** How often attempt `i`'s response is released. */
  function Releases(trace: seq<Event>, i: nat): nat {
    if trace == [] then 0
    else Releases(trace[..|trace| - 1], i) + if trace[|trace| - 1] == Closed(i) then 1 else 0
  }

  lemma {:induction false} ReleasesConcat(a: seq<Event>, b: seq<Event>, i: nat)
    ensures Releases(a + b, i) == Releases(a, i) + Releases(b, i)
    decreases |b|
  {
    if b == [] {
      assert a + b == a;
    } else {
      assert (a + b)[..|a + b| - 1] == a + b[..|b| - 1];
      ReleasesConcat(a, b[..|b| - 1], i);
    }
  }

  lemma {:induction false} RetriedReleases(p: Policy, outcomes: nat -> Outcome, jitter: nat -> real, n: nat, i: nat)
    ensures Releases(Retried(p, outcomes, jitter, n), i) == if i < n && outcomes(i).Answer? then 1 else 0
  {
    if n > 0 {
      RetriedReleases(p, outcomes, jitter, n - 1, i);
      TurnCounts(p, outcomes(n - 1), n - 1, jitter(n - 1), i);
      ReleasesConcat(Retried(p, outcomes, jitter, n - 1), Turn(p, outcomes(n - 1), n - 1, jitter(n - 1)), i);
    }
  }

  /** Every discarded response is released exactly once; the returned one never is. */
  lemma DiscardedClosedOnce(p: Policy, verb: string, outcomes: nat -> Outcome, jitter: nat -> real,
                            last: nat, result: Result, trace: seq<Event>, i: nat)
    requires Meets(p, verb, outcomes, jitter, last, result, trace)
    ensures Releases(trace, i) == if i < last && outcomes(i).Answer? then 1 else 0
  {
    RetriedReleases(p, outcomes, jitter, last, i);
    ReleasesConcat(Retried(p, outcomes, jitter, last), [Sent(last)], i);
    OneEvent(Sent(last), i);
  }

  /** After each retried send: the release if there was a response, then the sleep it calls for. */
  lemma {:induction false} CloseComesBeforeSleep(p: Policy, outcomes: nat -> Outcome, jitter: nat -> real,
                                                 n: nat, t: nat)
    requires t < |Retried(p, outcomes, jitter, n)| && Retried(p, outcomes, jitter, n)[t].Sent?
    ensures var trace, i := Retried(p, outcomes, jitter, n), Retried(p, outcomes, jitter, n)[t].attempt;
            && i < n
            && var pause := Slept(Delay(p, outcomes(i), i, jitter(i)));
            && (outcomes(i).Answer? ==> t + 2 < |trace| && trace[t + 1] == Closed(i) && trace[t + 2] == pause)
            && (!outcomes(i).Answer? ==> t + 1 < |trace| && trace[t + 1] == pause)
  {
    var before := Retried(p, outcomes, jitter, n - 1);
    if t < |before| {
      assert before[t] == Retried(p, outcomes, jitter, n)[t];
      CloseComesBeforeSleep(p, outcomes, jitter, n - 1, t);
    }
  }

  /** Without the opt-in, only an error without any response makes a non-idempotent request go out again. */
  lemma NonIdempotentNeverResentAfterResponse(p: Policy, verb: string, outcomes: nat -> Outcome, jitter: nat -> real,
                                              last: nat, result: Result, trace: seq<Event>)
    requires Meets(p, verb, outcomes, jitter, last, result, trace)
    requires !IsIdempotent(verb) && !p.retryNonIdempotent
    ensures forall i :: 0 <= i < last ==> outcomes(i).Transient?
    ensures forall e :: e in trace ==> !e.Closed?
  {
    forall i | 0 <= i < last ensures outcomes(i).Transient? { assert !Stops(p, verb, outcomes, i); }
    RetriedKeepsOpen(p, outcomes, jitter, last);
  }

  lemma {:induction false} RetriedKeepsOpen(p: Policy, outcomes: nat -> Outcome, jitter: nat -> real, n: nat)
    requires forall i :: 0 <= i < n ==> !outcomes(i).Answer?
    ensures forall e :: e in Retried(p, outcomes, jitter, n) ==> !e.Closed?
  {
    if n > 0 { RetriedKeepsOpen(p, outcomes, jitter, n - 1); }
  }

  // ---- Backoff arithmetic --------------------------------------------------------------------

  function TotalSleep(trace: seq<Event>): real {
    if trace == [] then 0.0
    else
      var e := trace[|trace| - 1];
      TotalSleep(trace[..|trace| - 1]) + if e.Slept? then e.seconds else 0.0
  }

  lemma {:induction false} SleepConcat(a: seq<Event>, b: seq<Event>)
    ensures TotalSleep(a + b) == TotalSleep(a) + TotalSleep(b)
    decreases |b|
  {
    if b == [] {
      assert a + b == a;
    } else {
      assert (a + b)[..|a + b| - 1] == a + b[..|b| - 1];
      SleepConcat(a, b[..|b| - 1]);
    }
  }

  lemma RetriedSleepStep(p: Policy, outcomes: nat -> Outcome, jitter: nat -> real, n: nat)
    ensures TotalSleep(Retried(p, outcomes, jitter, n + 1)) ==
            TotalSleep(Retried(p, outcomes, jitter, n)) + Delay(p, outcomes(n), n, jitter(n))
  {
    TurnCounts(p, outcomes(n), n, jitter(n), n);
    SleepConcat(Retried(p, outcomes, jitter, n), Turn(p, outcomes(n), n, jitter(n)));
  }

  lemma {:induction false} CapNonNegative(factor: real, attempt: nat)
    requires factor >= 0.0
    ensures Cap(factor, attempt) >= 0.0
  {
    if attempt > 0 { CapNonNegative(factor, attempt - 1); }
  }

  /** The jitter band: between half of and all of the exponential cap, and evenly over it. */
  lemma JitterBand(factor: real, attempt: nat, u: real)
    requires factor >= 0.0 && 0.0 <= u <= 1.0
    ensures 0.0 <= Cap(factor, attempt) / 2.0 <= JitteredBackoff(factor, attempt, u) <= Cap(factor, attempt)
    ensures u == 0.0 ==> JitteredBackoff(factor, attempt, u) == Cap(factor, attempt) / 2.0
    ensures u == 1.0 ==> JitteredBackoff(factor, attempt, u) == Cap(factor, attempt)
  {
    CapNonNegative(factor, attempt);
    assert Uniform(u, Cap(factor, attempt) / 2.0) <= Cap(factor, attempt) / 2.0;
  }

  /** Equal steps of the sample are equal steps of the delay. */
  lemma JitterIsEven(factor: real, attempt: nat, u: real, v: real)
    ensures JitteredBackoff(factor, attempt, u) - JitteredBackoff(factor, attempt, v) ==
            (u - v) * Cap(factor, attempt) / 2.0
  {
    var half := Cap(factor, attempt) / 2.0;
    assert u * half - v * half == (u - v) * half;
  }

  function PrescribedCount(outcomes: nat -> Outcome, n: nat): nat {
    if n == 0 then 0 else PrescribedCount(outcomes, n - 1) + if Prescribed(outcomes(n - 1)) then 1 else 0
  }

  /**
   A header is obeyed as given when it lies in the allowed range and moved to the nearer end otherwise;
   after anything unreadable, and after an error without a response, the delay is jittered.
   */
  lemma HeaderIsObeyed(p: Policy, status: int, x: real, attempt: nat, u: real)
    requires p.maxRetryAfter >= 0.0
    ensures forall header :: header in {Seconds(x), Date(x)} ==>
                               var d := Delay(p, Answer(Response(status, header)), attempt, u);
                               && (0.0 <= x <= p.maxRetryAfter ==> d == x)
                               && (x < 0.0 ==> d == 0.0)
                               && (x > p.maxRetryAfter ==> d == p.maxRetryAfter)
    ensures forall header :: header in {Absent, Garbage} ==>
                               Delay(p, Answer(Response(status, header)), attempt, u) ==
                               JitteredBackoff(p.factor, attempt, u)
    ensures forall exc :: Delay(p, Transient(exc), attempt, u) == JitteredBackoff(p.factor, attempt, u)
  {}

  function Sum(d: nat -> real, n: nat): real {
    if n == 0 then 0.0 else Sum(d, n - 1) + d(n - 1)
  }

  /** Delays in the jitter band add up to a geometric sum. */
  lemma {:induction false} BandTotal(d: nat -> real, factor: real, n: nat)
    requires forall i {:trigger d(i)} :: 0 <= i < n ==> Cap(factor, i) / 2.0 <= d(i) <= Cap(factor, i)
    ensures (Cap(factor, n) - factor) / 2.0 <= Sum(d, n) <= Cap(factor, n) - factor
  {
    if n > 0 { BandTotal(d, factor, n - 1); }
  }

  /** Each delay uses up at most the allowance of its kind: its cap, or the header limit. */
  lemma {:induction false} AllowanceTotal(d: nat -> real, outcomes: nat -> Outcome, factor: real, limit: real, n: nat)
    requires factor >= 0.0
    requires forall i {:trigger d(i)} :: 0 <= i < n ==>
                                           0.0 <= d(i) <= if Prescribed(outcomes(i)) then limit else Cap(factor, i)
    ensures 0.0 <= Sum(d, n) <= Cap(factor, n) - factor + Times(PrescribedCount(outcomes, n), limit)
  {
    if n > 0 {
      AllowanceTotal(d, outcomes, factor, limit, n - 1);
      CapNonNegative(factor, n - 1);
    }
  }

  function Delays(p: Policy, outcomes: nat -> Outcome, jitter: nat -> real): nat -> real {
    (k: nat) => Delay(p, outcomes(k), k, jitter(k))
  }

  lemma {:induction false} TotalIsSum(p: Policy, outcomes: nat -> Outcome, jitter: nat -> real, n: nat)
    ensures TotalSleep(Retried(p, outcomes, jitter, n)) == Sum(Delays(p, outcomes, jitter), n)
  {
    if n > 0 {
      TotalIsSum(p, outcomes, jitter, n - 1);
      RetriedSleepStep(p, outcomes, jitter, n - 1);
    }
  }

  lemma DelayInBand(p: Policy, o: Outcome, attempt: nat, u: real)
    requires p.factor >= 0.0 && 0.0 <= u <= 1.0
    ensures !Prescribed(o) ==> 0.0 <= Cap(p.factor, attempt) / 2.0 <= Delay(p, o, attempt, u) <= Cap(p.factor, attempt)
    ensures p.maxRetryAfter >= 0.0 && Prescribed(o) ==> 0.0 <= Delay(p, o, attempt, u) <= p.maxRetryAfter
  {
    JitterBand(p.factor, attempt, u);
  }

  /**
   All retries jittered: the total lies between half of and all of `factor * (2^n - 1)`, which is
   `Cap(n) - factor` by `GeometricForm`.
   */
  lemma JitteredTotal(p: Policy, outcomes: nat -> Outcome, jitter: nat -> real, n: nat)
    requires p.factor >= 0.0 && forall i :: 0 <= i < n ==> 0.0 <= jitter(i) <= 1.0 && !Prescribed(outcomes(i))
    ensures var total := TotalSleep(Retried(p, outcomes, jitter, n));
            (Cap(p.factor, n) - p.factor) / 2.0 <= total <= Cap(p.factor, n) - p.factor
  {
    var d := Delays(p, outcomes, jitter);
    forall i | 0 <= i < n
      ensures Cap(p.factor, i) / 2.0 <= d(i) <= Cap(p.factor, i)
    {
      DelayInBand(p, outcomes(i), i, jitter(i));
    }
    BandTotal(d, p.factor, n);
    TotalIsSum(p, outcomes, jitter, n);
  }

  lemma GeometricForm(factor: real, n: nat)
    ensures Cap(factor, n) - factor == factor * (Pow2(n) - 1.0)
  {
    CapIsPower(factor, n);
    Distribute(factor, Pow2(n));
  }

  lemma Distribute(c: real, q: real)
    ensures c * q - c == c * (q - 1.0)
  {}

  /** `count` header delays at their limit, by repeated addition; `TimesIsProduct` gives the product. */
  function Times(count: nat, limit: real): real {
    if count == 0 then 0.0 else Times(count - 1, limit) + limit
  }

  lemma {:induction false} TimesIsProduct(count: nat, limit: real)
    ensures Times(count, limit) == count as real * limit
  {
    if count > 0 { TimesIsProduct(count - 1, limit); }
  }

  /** With headers on any of the retries, each one adds at most the header limit. */
  lemma PrescribedTotal(p: Policy, outcomes: nat -> Outcome, jitter: nat -> real, n: nat)
    requires p.factor >= 0.0 && p.maxRetryAfter >= 0.0 && forall i :: 0 <= i < n ==> 0.0 <= jitter(i) <= 1.0
    ensures var total := TotalSleep(Retried(p, outcomes, jitter, n));
            0.0 <= total <= Cap(p.factor, n) - p.factor + Times(PrescribedCount(outcomes, n), p.maxRetryAfter)
  {
    var d := Delays(p, outcomes, jitter);
    forall i | 0 <= i < n
      ensures 0.0 <= d(i) <= if Prescribed(outcomes(i)) then p.maxRetryAfter else Cap(p.factor, i)
    {
      DelayInBand(p, outcomes(i), i, jitter(i));
    }
    AllowanceTotal(d, outcomes, p.factor, p.maxRetryAfter, n);
    TotalIsSum(p, outcomes, jitter, n);
  }

  /** A whole run sleeps at most the geometric sum of its budget plus one header limit per prescribed delay. */
  lemma RunSleepBound(p: Policy, verb: string, outcomes: nat -> Outcome, jitter: nat -> real,
                      last: nat, result: Result, trace: seq<Event>)
    requires Meets(p, verb, outcomes, jitter, last, result, trace)
    requires p.factor >= 0.0 && p.maxRetryAfter >= 0.0 && forall i :: 0 <= i < last ==> 0.0 <= jitter(i) <= 1.0
    ensures 0.0 <= TotalSleep(trace) <= Cap(p.factor, Budget(p)) - p.factor + Times(Budget(p), p.maxRetryAfter)
  {
    SendBudget(p, verb, outcomes, jitter, last, result, trace);
    PrescribedTotal(p, outcomes, jitter, last);
    SleepConcat(Retried(p, outcomes, jitter, last), [Sent(last)]);
    OneEvent(Sent(last), last);
    CapMonotone(p.factor, last, Budget(p));
    PrescribedAtMost(outcomes, last);
    TimesMonotone(PrescribedCount(outcomes, last), Budget(p), p.maxRetryAfter);
  }

  lemma {:induction false} CapMonotone(factor: real, m: nat, n: nat)
    requires factor >= 0.0 && m <= n
    ensures Cap(factor, m) <= Cap(factor, n)
  {
    if m < n {
      CapMonotone(factor, m, n - 1);
      CapNonNegative(factor, n - 1);
    }
  }

  lemma {:induction false} TimesMonotone(m: nat, n: nat, limit: real)
    requires limit >= 0.0 && m <= n
    ensures Times(m, limit) <= Times(n, limit)
  {
    if m < n { TimesMonotone(m, n - 1, limit); }
  }

  lemma {:induction false} PrescribedAtMost(outcomes: nat -> Outcome, n: nat)
    ensures PrescribedCount(outcomes, n) <= n
  {
    if n > 0 { PrescribedAtMost(outcomes, n - 1); }
  }
}
