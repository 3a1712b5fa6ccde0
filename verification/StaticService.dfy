/**
 The static-service helpers: a retry loop of their own over a client whose transport may retry too.
 `network(k)` is the stream of outcomes the transport meets during the helper's k-th call.
 */
module StaticService {
  import opened Prelude
  import opened Retry

  datatype Error =
    | Unreachable(exc: int)
    | Rejected(status: int)
    | StillFailing(status: int, attempt: nat)
    | NoLink
    | Expired
    | NoAttempts

  /** `Crashed` is an exception the helpers do not translate. */
  datatype HelperResult = Done(response: Response) | Failed(error: Error) | Crashed(exc: int)

  /** What one call of the loop leads to: the helper's result, or another turn with this as the last error. */
  datatype Turn = Final(result: HelperResult) | Again(error: Error)

  function UploadTurn(o: Outcome, attempt: nat, hasLink: bool): Turn {
    match o
    case Fatal(exc) => Final(Crashed(exc))
    case Transient(exc) => Again(Unreachable(exc))
    case Answer(r) =>
      if r.status == 200 || r.status == 201 then Final(if hasLink then Done(r) else Failed(NoLink))
      else if !IsRetryableStatus(r.status) then Final(Failed(Rejected(r.status)))
      else Again(StillFailing(r.status, attempt + 1))
  }

  function FetchTurn(o: Outcome, attempt: nat): Turn {
    match o
    case Fatal(exc) => Final(Crashed(exc))
    case Transient(exc) => Again(Unreachable(exc))
    case Answer(r) =>
      if r.status == 200 then Final(Done(r))
      else if r.status == 404 then Final(Failed(Expired))
      else if !IsRetryableStatus(r.status) then Final(Failed(Rejected(r.status)))
      else Again(StillFailing(r.status, attempt + 1))
  }

  // ---- The transport underneath ----------------------------------------------------------------

  /** The attempt at which the transport's own loop ends. */
  function LastAttempt(p: Policy, verb: string, outcomes: nat -> Outcome, n: nat := 0): nat
    decreases Budget(p) + 1 - n
  {
    if Stops(p, verb, outcomes, n) then n else LastAttempt(p, verb, outcomes, n + 1)
  }

  lemma {:induction false} LastAttemptIsLast(p: Policy, verb: string, outcomes: nat -> Outcome, n: nat := 0)
    requires forall i :: 0 <= i < n ==> !Stops(p, verb, outcomes, i)
    ensures IsLast(p, verb, outcomes, LastAttempt(p, verb, outcomes, n))
    decreases Budget(p) + 1 - n
  {
    if !Stops(p, verb, outcomes, n) { LastAttemptIsLast(p, verb, outcomes, n + 1); }
  }

  function CallOutcome(p: Policy, verb: string, outcomes: nat -> Outcome): Outcome {
    outcomes(LastAttempt(p, verb, outcomes))
  }

  /** Requests on the wire during the helper's first `calls` calls. */
  function WireSends(p: Policy, verb: string, network: nat -> (nat -> Outcome), calls: nat): nat {
    if calls == 0 then 0
    else WireSends(p, verb, network, calls - 1) + LastAttempt(p, verb, network(calls - 1)) + 1
  }

  // ---- The helper's loop, said without a loop ----------------------------------------------------

  /** With `retries + 1` turns at most, `calls` of them are taken and the last one gives the result. */
  ghost predicate HelperMeets(retries: int, turns: nat -> Turn, calls: nat, result: HelperResult) {
    && (forall i :: 0 <= i < calls - 1 ==> turns(i).Again?)
    && (calls == 0 <==> retries < 0)
    && calls <= (if retries < 0 then 0 else retries + 1)
    && (calls == 0 ==> result == Failed(NoAttempts))
    && (calls > 0 && turns(calls - 1).Final? ==> result == turns(calls - 1).result)
    && (calls > 0 && turns(calls - 1).Again? ==> calls == retries + 1 && result == Failed(turns(calls - 1).error))
  }

  ghost function UploadTurnAt(p: Policy, network: nat -> (nat -> Outcome), links: nat -> bool, k: nat): Turn {
    UploadTurn(CallOutcome(p, "POST", network(k)), k, links(k))
  }

  ghost function FetchTurnAt(p: Policy, network: nat -> (nat -> Outcome), k: nat): Turn {
    FetchTurn(CallOutcome(p, "GET", network(k)), k)
  }

  ghost function UploadTurns(p: Policy, network: nat -> (nat -> Outcome), links: nat -> bool): nat -> Turn {
    (k: nat) => UploadTurnAt(p, network, links, k)
  }

  ghost function FetchTurns(p: Policy, network: nat -> (nat -> Outcome)): nat -> Turn {
    (k: nat) => FetchTurnAt(p, network, k)
  }

  /** One client call through the transport: what it comes to, and how many requests it put on the wire. */
  method Call(p: Policy, verb: string, outcomes: nat -> Outcome, jitter: nat -> real) returns (o: Outcome, sends: nat)
    ensures o == CallOutcome(p, verb, outcomes) && sends == LastAttempt(p, verb, outcomes) + 1
  {
    var result, trace;
    result, trace, sends := SendWithRetries(p, verb, outcomes, jitter);
    SameLast(p, verb, outcomes, sends - 1);
    o := outcomes(sends - 1);
  }

  /** The loop at the top of turn `n`: all turns so far led on, and the last of them left its error. */
  ghost predicate Turning(turns: nat -> Turn, n: nat, lastError: Option<Error>) {
    && (forall i :: 0 <= i < n ==> turns(i).Again?)
    && lastError == if n == 0 then None else Some(turns(n - 1).error)
  }

  lemma TurnTaken(retries: int, turns: nat -> Turn, n: nat, lastError: Option<Error>)
    requires Turning(turns, n, lastError) && n <= retries
    ensures turns(n).Again? ==> Turning(turns, n + 1, Some(turns(n).error))
    ensures turns(n).Final? ==> HelperMeets(retries, turns, n + 1, turns(n).result)
  {}

  lemma BudgetEnds(retries: int, turns: nat -> Turn, n: nat, lastError: Option<Error>)
    requires Turning(turns, n, lastError) && n == if retries < 0 then 0 else retries + 1
    ensures HelperMeets(retries, turns, n, Failed(lastError.GetOr(NoAttempts)))
  {}

  predicate Paused(factor: real, jitter: nat -> real, sleeps: seq<real>) {
    forall i :: 0 <= i < |sleeps| ==> sleeps[i] == JitteredBackoff(factor, i, jitter(i))
  }

  lemma OneMorePause(factor: real, jitter: nat -> real, sleeps: seq<real>)
    requires Paused(factor, jitter, sleeps)
    ensures Paused(factor, jitter, sleeps + [JitteredBackoff(factor, |sleeps|, jitter(|sleeps|))])
  {}

  method StaticUpload(retries: int, factor: real, p: Policy, network: nat -> (nat -> Outcome), links: nat -> bool,
                      jitter: nat -> real)
    returns (result: HelperResult, calls: nat, wire: nat, sleeps: seq<real>)
    ensures HelperMeets(retries, UploadTurns(p, network, links), calls, result)
    ensures wire == WireSends(p, "POST", network, calls)
    ensures Paused(factor, jitter, sleeps)
    ensures |sleeps| == if calls == 0 then 0 else calls - 1
  {
    var attempts := retries + 1;
    var lastError: Option<Error> := None;
    calls, wire, sleeps := 0, 0, [];
    ghost var turns := UploadTurns(p, network, links);
    for attempt := 0 to if attempts > 0 then attempts else 0
      invariant calls == attempt
      invariant wire == WireSends(p, "POST", network, attempt)
      invariant |sleeps| == if attempt < attempts then attempt else if attempt == 0 then 0 else attempt - 1
      invariant Paused(factor, jitter, sleeps)
      invariant Turning(turns, attempt, lastError)
    {
      var o, sends := Call(p, "POST", network(attempt), jitter);
      calls, wire := calls + 1, wire + sends;
      TurnTaken(retries, turns, attempt, lastError);
      match o {
        case Fatal(exc) =>
          return Crashed(exc), calls, wire, sleeps;
        case Transient(exc) =>
          lastError := Some(Unreachable(exc));
        case Answer(response) =>
          if response.status == 200 || response.status == 201 {
            if !links(attempt) {
              return Failed(NoLink), calls, wire, sleeps;
            }
            return Done(response), calls, wire, sleeps;
          }
          if !IsRetryableStatus(response.status) {
            return Failed(Rejected(response.status)), calls, wire, sleeps;
          }
          lastError := Some(StillFailing(response.status, attempt + 1));
      }
      if attempt + 1 < attempts {
        OneMorePause(factor, jitter, sleeps);
        sleeps := sleeps + [JitteredBackoff(factor, attempt, jitter(attempt))];
      }
    }
    BudgetEnds(retries, turns, calls, lastError);
    result := Failed(lastError.GetOr(NoAttempts));
  }

  method StaticFetch(retries: int, factor: real, p: Policy, network: nat -> (nat -> Outcome), jitter: nat -> real)
    returns (result: HelperResult, calls: nat, wire: nat, sleeps: seq<real>)
    ensures HelperMeets(retries, FetchTurns(p, network), calls, result)
    ensures wire == WireSends(p, "GET", network, calls)
    ensures Paused(factor, jitter, sleeps)
    ensures |sleeps| == if calls == 0 then 0 else calls - 1
  {
    var attempts := retries + 1;
    var lastError: Option<Error> := None;
    calls, wire, sleeps := 0, 0, [];
    ghost var turns := FetchTurns(p, network);
    for attempt := 0 to if attempts > 0 then attempts else 0
      invariant calls == attempt
      invariant wire == WireSends(p, "GET", network, attempt)
      invariant |sleeps| == if attempt < attempts then attempt else if attempt == 0 then 0 else attempt - 1
      invariant Paused(factor, jitter, sleeps)
      invariant Turning(turns, attempt, lastError)
    {
      var o, sends := Call(p, "GET", network(attempt), jitter);
      calls, wire := calls + 1, wire + sends;
      TurnTaken(retries, turns, attempt, lastError);
      match o {
        case Fatal(exc) =>
          return Crashed(exc), calls, wire, sleeps;
        case Transient(exc) =>
          lastError := Some(Unreachable(exc));
        case Answer(response) =>
          if response.status == 200 {
            return Done(response), calls, wire, sleeps;
          }
          if response.status == 404 {
            return Failed(Expired), calls, wire, sleeps;
          }
          if !IsRetryableStatus(response.status) {
            return Failed(Rejected(response.status)), calls, wire, sleeps;
          }
          lastError := Some(StillFailing(response.status, attempt + 1));
      }
      if attempt + 1 < attempts {
        OneMorePause(factor, jitter, sleeps);
        sleeps := sleeps + [JitteredBackoff(factor, attempt, jitter(attempt))];
      }
    }
    BudgetEnds(retries, turns, calls, lastError);
    result := Failed(lastError.GetOr(NoAttempts));
  }

  lemma SameLast(p: Policy, verb: string, outcomes: nat -> Outcome, last: nat)
    requires IsLast(p, verb, outcomes, last)
    ensures LastAttempt(p, verb, outcomes) == last
  {
    LastAttemptIsLast(p, verb, outcomes);
    LastIsLeast(p, verb, outcomes, last, LastAttempt(p, verb, outcomes));
    LastIsLeast(p, verb, outcomes, LastAttempt(p, verb, outcomes), last);
  }

  // ---- Nested retries ----------------------------------------------------------------------------

  lemma Product(calls: nat, each: nat)
    ensures (calls + 1) * each == calls * each + each
  {}

  lemma ProductMonotone(a: nat, b: nat, each: nat)
    requires a <= b
    ensures a * each <= b * each
  {}

  lemma {:induction false} WireBound(p: Policy, verb: string, network: nat -> (nat -> Outcome), calls: nat)
    ensures calls <= WireSends(p, verb, network, calls) <= calls * (Budget(p) + 1)
  {
    if calls > 0 {
      WireBound(p, verb, network, calls - 1);
      LastAttemptIsLast(p, verb, network(calls - 1));
      LastIsLeast(p, verb, network(calls - 1), LastAttempt(p, verb, network(calls - 1)), Budget(p));
      Product(calls - 1, Budget(p) + 1);
    }
  }

  /** A helper with n retries over a transport with m retries sends at most (n+1)(m+1) requests. */
  lemma NestedBound(n: nat, p: Policy, verb: string, network: nat -> (nat -> Outcome),
                    turns: nat -> Turn, calls: nat, result: HelperResult)
    requires HelperMeets(n, turns, calls, result)
    ensures WireSends(p, verb, network, calls) <= (n + 1) * (Budget(p) + 1)
    ensures p.retries <= 0 ==> WireSends(p, verb, network, calls) == calls <= n + 1
  {
    WireBound(p, verb, network, calls);
    ProductMonotone(calls, n + 1, Budget(p) + 1);
  }

  lemma {:induction false} FailingCallsMultiply(p: Policy, network: nat -> (nat -> Outcome), calls: nat)
    requires forall k, i :: network(k)(i) == Answer(Response(503, Absent))
    ensures WireSends(p, "GET", network, calls) == calls * (Budget(p) + 1)
  {
    if calls > 0 {
      FailingCallsMultiply(p, network, calls - 1);
      UpperGet();
      var outcomes := network(calls - 1);
      forall i: nat {:trigger outcomes(i)}
        ensures outcomes(i) == Answer(Response(503, Absent))
      {
        assert network(calls - 1)(i) == Answer(Response(503, Absent));
      }
      SameLast(p, "GET", outcomes, Budget(p));
      Product(calls - 1, Budget(p) + 1);
    }
  }

  /** The bound is reached: a download that meets 503 throughout makes all its calls, each with all its sends. */
  lemma NestedBoundIsTight(n: nat, p: Policy, network: nat -> (nat -> Outcome), calls: nat, result: HelperResult)
    requires forall k, i :: network(k)(i) == Answer(Response(503, Absent))
    requires HelperMeets(n, FetchTurns(p, network), calls, result)
    ensures WireSends(p, "GET", network, calls) == (n + 1) * (Budget(p) + 1)
    ensures result == Failed(StillFailing(503, n + 1))
  {
    var k := calls - 1;
    assert CallOutcome(p, "GET", network(k)) == Answer(Response(503, Absent));
    assert FetchTurns(p, network)(k) == FetchTurnAt(p, network, k) == Again(StillFailing(503, k + 1));
    FailingCallsMultiply(p, network, calls);
  }

  lemma UpperGet()
    ensures IsIdempotent("GET") && !IsIdempotent("POST")
  {
    assert Upper("GET") == "GET" && Upper("POST") == "POST";
    assert Upper("POST")[0] == 'P';
  }

  /** The error that says no attempt was made occurs exactly for a negative budget. */
  lemma NoAttemptsExactly(retries: int, p: Policy, network: nat -> (nat -> Outcome), links: nat -> bool,
                          calls: nat, result: HelperResult)
    requires HelperMeets(retries, UploadTurns(p, network, links), calls, result) ||
             HelperMeets(retries, FetchTurns(p, network), calls, result)
    ensures result == Failed(NoAttempts) <==> retries < 0
  {
    if calls > 0 {
      var k := calls - 1;
      var up, down := UploadTurns(p, network, links)(k), FetchTurns(p, network)(k);
      assert up == UploadTurn(CallOutcome(p, "POST", network(k)), k, links(k));
      assert down == FetchTurn(CallOutcome(p, "GET", network(k)), k);
    }
  }

  /** An upload succeeds exactly when its last call was accepted, fresh or deduplicated, and carries a link. */
  lemma UploadSucceedsExactly(retries: int, p: Policy, network: nat -> (nat -> Outcome), links: nat -> bool,
                              calls: nat, result: HelperResult)
    requires HelperMeets(retries, UploadTurns(p, network, links), calls, result)
    ensures result.Done? <==>
            calls > 0 && links(calls - 1) &&
            var o := CallOutcome(p, "POST", network(calls - 1)); o.Answer? && o.response.status in {200, 201}
    ensures result.Done? ==> CallOutcome(p, "POST", network(calls - 1)) == Answer(result.response)
  {
    if calls > 0 { assert UploadTurns(p, network, links)(calls - 1) == UploadTurnAt(p, network, links, calls - 1); }
  }

  /** How a download ends: by what its last call came to, and no earlier than that allows. */
  lemma FetchEndsExactly(retries: int, p: Policy, network: nat -> (nat -> Outcome), calls: nat, result: HelperResult)
    requires HelperMeets(retries, FetchTurns(p, network), calls, result) && retries >= 0
    ensures calls > 0
    ensures match CallOutcome(p, "GET", network(calls - 1))
            case Fatal(exc) => result == Crashed(exc)
            case Transient(exc) => result == Failed(Unreachable(exc)) && calls == retries + 1
            case Answer(r) =>
              if r.status == 200 then result == Done(r)
              else if r.status == 404 then result == Failed(Expired)
              else if r.status in {408, 429} || r.status >= 500 then
                result == Failed(StillFailing(r.status, calls)) && calls == retries + 1
              else result == Failed(Rejected(r.status))
  {
    assert FetchTurns(p, network)(calls - 1) == FetchTurnAt(p, network, calls - 1);
  }

  /** A download succeeds exactly when its last call was answered 200, and then with that answer. */
  lemma FetchSucceedsExactly(retries: int, p: Policy, network: nat -> (nat -> Outcome),
                             calls: nat, result: HelperResult)
    requires HelperMeets(retries, FetchTurns(p, network), calls, result)
    ensures result.Done? <==>
            calls > 0 && var o := CallOutcome(p, "GET", network(calls - 1)); o.Answer? && o.response.status == 200
    ensures result.Done? ==> CallOutcome(p, "GET", network(calls - 1)) == Answer(result.response)
  {
    if retries >= 0 { FetchEndsExactly(retries, p, network, calls, result); }
  }

  /** A call of a download is followed by another exactly when it was worth it and the budget allows. */
  lemma FetchRepeatsExactly(retries: int, p: Policy, network: nat -> (nat -> Outcome), calls: nat, result: HelperResult,
                            i: nat)
    requires HelperMeets(retries, FetchTurns(p, network), calls, result) && i < calls
    ensures i + 1 < calls <==>
            i < retries && var o := CallOutcome(p, "GET", network(i));
                        o.Transient? || (o.Answer? && (o.response.status in {408, 429} || o.response.status >= 500))
  {
    assert FetchTurns(p, network)(i) == FetchTurnAt(p, network, i);
    assert i + 1 < calls ==> FetchTurns(p, network)(i).Again?;
  }

  /** How an upload ends: likewise. */
  lemma UploadEndsExactly(retries: int, p: Policy, network: nat -> (nat -> Outcome), links: nat -> bool,
                          calls: nat, result: HelperResult)
    requires HelperMeets(retries, UploadTurns(p, network, links), calls, result) && retries >= 0
    ensures calls > 0
    ensures match CallOutcome(p, "POST", network(calls - 1))
            case Fatal(exc) => result == Crashed(exc)
            case Transient(exc) => result == Failed(Unreachable(exc)) && calls == retries + 1
            case Answer(r) =>
              if r.status in {200, 201} then result == if links(calls - 1) then Done(r) else Failed(NoLink)
              else if r.status in {408, 429} || r.status >= 500 then
                result == Failed(StillFailing(r.status, calls)) && calls == retries + 1
              else result == Failed(Rejected(r.status))
  {
    assert UploadTurns(p, network, links)(calls - 1) == UploadTurnAt(p, network, links, calls - 1);
  }

  /** A call of an upload is followed by another exactly when it was worth it and the budget allows. */
  lemma UploadRepeatsExactly(retries: int, p: Policy, network: nat -> (nat -> Outcome), links: nat -> bool,
                             calls: nat, result: HelperResult, i: nat)
    requires HelperMeets(retries, UploadTurns(p, network, links), calls, result) && i < calls
    ensures i + 1 < calls <==>
            i < retries && var o := CallOutcome(p, "POST", network(i));
                        o.Transient? || (o.Answer? && (o.response.status in {408, 429} || o.response.status >= 500))
  {
    assert UploadTurns(p, network, links)(i) == UploadTurnAt(p, network, links, i);
    assert i + 1 < calls ==> UploadTurns(p, network, links)(i).Again?;
  }

  /** A missing file ends the download at once, with the error that says so. */
  lemma MissingFileIsNotRetried(retries: int, p: Policy, network: nat -> (nat -> Outcome),
                                calls: nat, result: HelperResult, i: nat)
    requires HelperMeets(retries, FetchTurns(p, network), calls, result) && i < calls
    requires var o := CallOutcome(p, "GET", network(i)); o.Answer? && o.response.status == 404
    ensures calls == i + 1 && result == Failed(Expired)
  {
    assert FetchTurns(p, network)(i) == Final(Failed(Expired));
  }
}
