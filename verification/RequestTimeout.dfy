/**
 The request ceiling as a transition system. One event is one stretch of code between two awaits,
 or one thing the environment does: the wrapped app sends or finishes, the server takes a message
 over, a timer or the finished task wakes the waiting call, a done callback runs. `Run` accepts every
 sequence of events, so a theorem about `Run` holds in every interleaving of every number of calls.
 */
module RequestTimeout {
  import opened Prelude

  datatype Msg = Start(status: int) | Body(text: string)

  datatype Scope = Scope(http: bool, verb: string)

  /** `render` is the error renderer: the two messages of a reply, by status and request. */
  datatype Config = Config(
    safeMethods: Option<set<string>>,
    neverShed: set<string>,
    maxAbandoned: int,
    render: (int, Scope) -> (Msg, Msg))

  datatype Role = Passthrough | Shed | Capped

  /** Where a call is suspended: in the timed wait, in awaiting the app, or in the reply's n-th send. */
  datatype Phase = Watching | Draining | Replying(sent: nat) | Returned

  /**
   One call. `app` is every message the wrapped app passed to its `send`, `handed` every message whose
   server-side send has begun, and the first `delivered` of those have reached the wire.
   */
  datatype Call = Call(
    scope: Scope, role: Role, phase: Phase,
    started: bool, abandoned: bool, appDone: bool, lateFinished: bool,
    app: seq<Msg>, handed: seq<Msg>, delivered: nat)

  datatype State = State(calls: map<nat, Call>, pool: set<nat>)

  datatype Event =
    | Begin(id: nat, scope: Scope)
    | AppSend(id: nat, msg: Msg)
    | Deliver(id: nat)
    | AppFinish(id: nat)
    | Wake(id: nat)
    | AppReturned(id: nat)
    | ReplyNext(id: nat)
    | LateFinish(id: nat)

  const IDLE := State(map[], {})

  predicate IsCapped(cfg: Config, verb: string) {
    cfg.safeMethods.None? || verb in cfg.safeMethods.value
  }

  predicate Sheddable(cfg: Config, scope: Scope) {
    scope.verb !in cfg.neverShed
  }

  function Pair(cfg: Config, status: int, scope: Scope): seq<Msg> {
    var (first, second) := cfg.render(status, scope);
    [first, second]
  }

  predicate Enabled(s: State, e: Event) {
    if e.Begin? then e.id !in s.calls
    else
      e.id in s.calls &&
      var c := s.calls[e.id];
      match e
      case AppSend(_, _) => c.role != Shed
      case Deliver(_) => c.delivered < |c.handed|
      case AppFinish(_) => c.role != Shed && !c.appDone
      case Wake(_) => c.phase == Watching
      case AppReturned(_) => c.phase == Draining && c.appDone
      case ReplyNext(_) => c.phase.Replying? && c.delivered == |c.handed|
      case LateFinish(_) => c.abandoned && c.appDone && !c.lateFinished
  }

  /** The stretch of a call up to its first await. */
  function Opened(cfg: Config, pool: set<nat>, scope: Scope): Call {
    var call := Call(scope, Capped, Watching, false, false, false, false, [], [], 0);
    if !scope.http || !IsCapped(cfg, scope.verb) then
      call.(role := Passthrough, phase := Draining)
    else if Sheddable(cfg, scope) && |pool| >= cfg.maxAbandoned then
      call.(role := Shed, phase := Replying(1), handed := [Pair(cfg, 503, scope)[0]])
    else
      call
  }

  function Sent(c: Call, m: Msg): Call {
    var c' := c.(app := c.app + [m]);
    if c.abandoned then c'
    else c'.(started := c.started || (c.role == Capped && m.Start?), handed := c.handed + [m])
  }

  predicate Gives504(c: Call) {
    !c.appDone && !c.started
  }

  function Woken(cfg: Config, c: Call): Call {
    if c.appDone then c.(phase := Returned)
    else if c.started then c.(phase := Draining)
    else c.(abandoned := true, phase := Replying(1), handed := c.handed + [Pair(cfg, 504, c.scope)[0]])
  }

  function ReplyPair(cfg: Config, c: Call): (pair: seq<Msg>)
    ensures |pair| == 2
  {
    Pair(cfg, if c.role == Shed then 503 else 504, c.scope)
  }

  function Replied(cfg: Config, c: Call): Call
    requires c.phase.Replying?
  {
    if c.phase.sent == 1
    then c.(phase := Replying(2), handed := c.handed + [ReplyPair(cfg, c)[1]])
    else c.(phase := Returned)
  }

  /** What an enabled event does to the call it names. */
  function NextCall(cfg: Config, s: State, e: Event): Call
    requires Enabled(s, e)
  {
    match e
    case Begin(_, scope) => Opened(cfg, s.pool, scope)
    case AppSend(id, m) => Sent(s.calls[id], m)
    case Deliver(id) => s.calls[id].(delivered := s.calls[id].delivered + 1)
    case AppFinish(id) => s.calls[id].(appDone := true)
    case Wake(id) => Woken(cfg, s.calls[id])
    case AppReturned(id) => s.calls[id].(phase := Returned)
    case ReplyNext(id) => Replied(cfg, s.calls[id])
    case LateFinish(id) => s.calls[id].(lateFinished := true)
  }

  function NextPool(s: State, e: Event): set<nat>
    requires Enabled(s, e)
  {
    match e
    case Wake(id) => if Gives504(s.calls[id]) then s.pool + {id} else s.pool
    case LateFinish(id) => s.pool - {id}
    case _ => s.pool
  }

  /** One atomic step; an event that is not enabled leaves the state as it is. */
  function Step(cfg: Config, s: State, e: Event): State {
    if Enabled(s, e) then State(s.calls[e.id := NextCall(cfg, s, e)], NextPool(s, e)) else s
  }

  function Run(cfg: Config, s: State, es: seq<Event>): State
    decreases |es|
  {
    if es == [] then s else Run(cfg, Step(cfg, s, es[0]), es[1..])
  }

  // ---- The invariant -------------------------------------------------------------------------

  predicate HasStart(ms: seq<Msg>) {
    exists i :: 0 <= i < |ms| && ms[i].Start?
  }

  /** How many messages of the reply a call has handed over. */
  function ReplyCount(c: Call): nat {
    match c.phase
    case Replying(n) => n
    case _ => if c.abandoned || c.role == Shed then 2 else 0
  }

  /** After the mute: what the app sent before it, without a status line, then the reply so far. */
  predicate Muted(cfg: Config, c: Call) {
    var n := ReplyCount(c);
    var k := |c.handed| - n;
    && 0 <= k <= |c.app| && n <= 2
    && (forall i :: 0 <= i < k ==> c.handed[i] == c.app[i] && !c.app[i].Start?)
    && (n >= 1 ==> c.handed[k] == ReplyPair(cfg, c)[0])
    && (n == 2 ==> c.handed[k + 1] == ReplyPair(cfg, c)[1])
  }

  predicate CallInv(cfg: Config, c: Call) {
    && c.delivered <= |c.handed|
    && (c.lateFinished ==> c.abandoned && c.appDone)
    && (c.abandoned ==> c.role == Capped)
    && (c.phase.Replying? ==> 1 <= c.phase.sent <= 2)
    && (c.phase.Replying? ==> c.abandoned || c.role == Shed)
    && (c.phase == Watching ==> c.role == Capped)
    && (c.phase == Watching || c.phase == Draining ==> !c.abandoned && c.role != Shed)
    && (!c.abandoned && c.role != Shed ==> c.handed == c.app)
    && (!c.abandoned && c.role == Capped ==> (c.started <==> HasStart(c.app)))
    && (c.role == Shed ==> c.app == [])
    && (c.phase == Returned && !c.abandoned && c.role != Shed ==> c.appDone)
    && (c.abandoned ==> !c.started)
    && (c.started ==> c.role == Capped)
    && (c.abandoned || c.role == Shed ==> Muted(cfg, c))
    && ((c.abandoned || c.role == Shed) && c.phase == Returned ==> c.delivered == |c.handed|)
    && (c.role == Passthrough <==> !c.scope.http || !IsCapped(cfg, c.scope.verb))
    && (c.role == Shed ==> Sheddable(cfg, c.scope))
  }

  lemma HasStartAppend(ms: seq<Msg>, m: Msg)
    ensures HasStart(ms + [m]) <==> HasStart(ms) || m.Start?
  {
    if HasStart(ms) {
      var i :| 0 <= i < |ms| && ms[i].Start?;
      assert (ms + [m])[i].Start?;
    }
    if m.Start? { assert (ms + [m])[|ms|].Start?; }
  }

  lemma SentKeepsInv(cfg: Config, c: Call, m: Msg)
    requires CallInv(cfg, c) && c.role != Shed
    ensures CallInv(cfg, Sent(c, m))
  {
    HasStartAppend(c.app, m);
  }

  lemma WokenKeepsInv(cfg: Config, c: Call)
    requires CallInv(cfg, c) && c.phase == Watching
    ensures CallInv(cfg, Woken(cfg, c))
  {}

  lemma RepliedIsMuted(cfg: Config, c: Call)
    requires Muted(cfg, c) && c.phase.Replying? && 1 <= c.phase.sent <= 2 && (c.abandoned || c.role == Shed)
    ensures Muted(cfg, Replied(cfg, c))
  {
    var c' := Replied(cfg, c);
    assert |c'.handed| - ReplyCount(c') == |c.handed| - ReplyCount(c);
  }

  lemma RepliedKeepsInv(cfg: Config, c: Call)
    requires CallInv(cfg, c) && c.phase.Replying? && c.delivered == |c.handed|
    ensures CallInv(cfg, Replied(cfg, c))
  {
    RepliedIsMuted(cfg, c);
  }

  lemma OpenedKeepsInv(cfg: Config, pool: set<nat>, scope: Scope)
    ensures CallInv(cfg, Opened(cfg, pool, scope))
  {}

  lemma DeliveredKeepsInv(cfg: Config, c: Call)
    requires CallInv(cfg, c) && c.delivered < |c.handed|
    ensures CallInv(cfg, c.(delivered := c.delivered + 1))
  {}

  lemma FinishedKeepsInv(cfg: Config, c: Call)
    requires CallInv(cfg, c)
    ensures CallInv(cfg, c.(appDone := true))
    ensures c.abandoned && c.appDone ==> CallInv(cfg, c.(lateFinished := true))
  {}

  lemma DrainedKeepsInv(cfg: Config, c: Call)
    requires CallInv(cfg, c) && c.phase == Draining && c.appDone
    ensures CallInv(cfg, c.(phase := Returned))
  {}

  /** The events that only move a call on: nothing is sent, and nobody is muted. */
  predicate MovesOn(e: Event) {
    e.Deliver? || e.AppFinish? || e.AppReturned? || e.LateFinish?
  }

  lemma MovingOnKeepsInv(cfg: Config, s: State, e: Event)
    requires MovesOn(e) && Enabled(s, e) && CallInv(cfg, s.calls[e.id])
    ensures CallInv(cfg, NextCall(cfg, s, e))
  {
    var c := s.calls[e.id];
    if e.Deliver? {
      DeliveredKeepsInv(cfg, c);
    } else if e.AppReturned? {
      DrainedKeepsInv(cfg, c);
    } else {
      FinishedKeepsInv(cfg, c);
    }
  }

  lemma NextCallKeepsInv(cfg: Config, s: State, e: Event)
    requires Enabled(s, e)
    requires !e.Begin? ==> CallInv(cfg, s.calls[e.id])
    ensures CallInv(cfg, NextCall(cfg, s, e))
  {
    if MovesOn(e) {
      MovingOnKeepsInv(cfg, s, e);
    } else if e.Begin? {
      OpenedKeepsInv(cfg, s.pool, e.scope);
    } else if e.AppSend? {
      SentKeepsInv(cfg, s.calls[e.id], e.msg);
    } else if e.Wake? {
      WokenKeepsInv(cfg, s.calls[e.id]);
    } else {
      RepliedKeepsInv(cfg, s.calls[e.id]);
    }
  }

  ghost predicate CallsInv(cfg: Config, s: State) {
    forall id :: id in s.calls ==> CallInv(cfg, s.calls[id])
  }

  predicate Pooled(c: Call) {
    c.abandoned && !c.lateFinished
  }

  ghost predicate PoolInv(s: State) {
    forall id :: id in s.pool <==> id in s.calls && Pooled(s.calls[id])
  }

  ghost predicate Inv(cfg: Config, s: State) {
    CallsInv(cfg, s) && PoolInv(s)
  }

  lemma NextPoolIsExact(cfg: Config, s: State, e: Event)
    requires Enabled(s, e) && PoolInv(s)
    requires !e.Begin? ==> CallInv(cfg, s.calls[e.id])
    ensures e.id in NextPool(s, e) <==> Pooled(NextCall(cfg, s, e))
    ensures NextPool(s, e) - {e.id} == s.pool - {e.id}
  {}

  lemma StepKeepsInv(cfg: Config, s: State, e: Event)
    requires Inv(cfg, s)
    ensures Inv(cfg, Step(cfg, s, e))
  {
    if Enabled(s, e) {
      NextCallKeepsInv(cfg, s, e);
      NextPoolIsExact(cfg, s, e);
      var s' := Step(cfg, s, e);
      forall id
        ensures id in s'.pool <==> id in s'.calls && Pooled(s'.calls[id])
      {
        assert id in s'.pool - {e.id} <==> id in s.pool - {e.id};
      }
    }
  }

  lemma {:induction false} RunKeepsInv(cfg: Config, s: State, es: seq<Event>)
    requires Inv(cfg, s)
    ensures Inv(cfg, Run(cfg, s, es))
    decreases |es|
  {
    if es != [] {
      StepKeepsInv(cfg, s, es[0]);
      RunKeepsInv(cfg, Step(cfg, s, es[0]), es[1..]);
    }
  }

  // ---- Wire safety ---------------------------------------------------------------------------

  function Wire(c: Call): (w: seq<Msg>)
    requires c.delivered <= |c.handed|
  {
    c.handed[..c.delivered]
  }

  /** The wire of a call has grown by the oldest message handed over and not yet taken. */
  predicate OneMoreOnWire(s: State, s': State, id: nat) {
    && id in s.calls && s.calls[id].delivered < |s.calls[id].handed|
    && id in s'.calls && s'.calls[id].delivered <= |s'.calls[id].handed|
    && Wire(s'.calls[id]) == Wire(s.calls[id]) + [s.calls[id].handed[s.calls[id].delivered]]
  }

  lemma DeliverTakesOver(cfg: Config, s: State, id: nat)
    requires Enabled(s, Deliver(id))
    ensures OneMoreOnWire(s, Step(cfg, s, Deliver(id)), id)
  {}

  function Starts(ms: seq<Msg>): nat {
    if ms == [] then 0 else Starts(ms[..|ms| - 1]) + if ms[|ms| - 1].Start? then 1 else 0
  }

  /** The order the ASGI HTTP specification asks of an application: the response start comes first. */
  predicate StartsFirst(ms: seq<Msg>) {
    ms != [] ==> ms[0].Start?
  }

  /** What the wire holds when an app breaks the ASGI order: its own headless bytes, then the 504. */
  ghost predicate NeverBoth(cfg: Config, c: Call) {
    && !(c.started && c.abandoned)
    && (c.abandoned ==>
          exists k :: 0 <= k <= |c.app| && !HasStart(c.app[..k])
                      && c.handed <= c.app[..k] + Pair(cfg, 504, c.scope))
  }

  lemma CallNeverBoth(cfg: Config, c: Call)
    requires CallInv(cfg, c)
    ensures NeverBoth(cfg, c)
  {
    if c.abandoned {
      var k := |c.handed| - ReplyCount(c);
      assert !HasStart(c.app[..k]);
      assert c.handed <= c.app[..k] + Pair(cfg, 504, c.scope);
    }
  }

  /** Holds for every app, also one that breaks the ASGI order. */
  lemma NeverStartedAndAbandoned(cfg: Config, es: seq<Event>, id: nat)
    requires id in Run(cfg, IDLE, es).calls
    ensures NeverBoth(cfg, Run(cfg, IDLE, es).calls[id])
  {
    RunKeepsInv(cfg, IDLE, es);
    CallNeverBoth(cfg, Run(cfg, IDLE, es).calls[id]);
  }

  /**
   A call's wire holds a prefix of the app's own messages, or of the 504 pair, or of the 503 pair, never a
   mix. Once a replied call has returned, the pair is there in full; without a reply nothing is withheld.
   */
  predicate WireSafe(cfg: Config, c: Call) {
    && c.delivered <= |c.handed|
    && (c.role == Passthrough ==> Wire(c) <= c.app)
    && (c.role == Shed ==> Wire(c) <= Pair(cfg, 503, c.scope) && c.app == [])
    && (c.role == Capped && !c.abandoned ==> Wire(c) <= c.app)
    && (c.role == Capped && c.abandoned ==> Wire(c) <= Pair(cfg, 504, c.scope))
    && (c.phase == Returned && c.role == Shed ==> Wire(c) == Pair(cfg, 503, c.scope))
    && (c.phase == Returned && c.abandoned ==> Wire(c) == Pair(cfg, 504, c.scope))
    && (c.role != Shed && !c.abandoned && c.delivered == |c.handed| ==> Wire(c) == c.app)
    && (c.role == Passthrough <==> !c.scope.http || !IsCapped(cfg, c.scope.verb))
    && (c.role == Shed ==> Sheddable(cfg, c.scope))
  }

  /** With an app that starts first, a replied call has handed over nothing but the reply. */
  lemma HandedIsReply(cfg: Config, c: Call)
    requires CallInv(cfg, c) && StartsFirst(c.app) && (c.abandoned || c.role == Shed)
    ensures |c.handed| == ReplyCount(c) && c.handed <= ReplyPair(cfg, c)
  {
    NoHeadlessPrefix(c.app, |c.handed| - ReplyCount(c));
  }

  lemma NoHeadlessPrefix(ms: seq<Msg>, k: nat)
    requires StartsFirst(ms) && k <= |ms| && forall i :: 0 <= i < k ==> !ms[i].Start?
    ensures k == 0
  {}

  lemma CallWireSafe(cfg: Config, c: Call)
    requires CallInv(cfg, c) && StartsFirst(c.app)
    ensures WireSafe(cfg, c)
  {
    if c.abandoned || c.role == Shed {
      HandedIsReply(cfg, c);
    }
  }

  /** One response in every interleaving, for every call of every run. */
  lemma WireSafety(cfg: Config, es: seq<Event>, id: nat)
    requires id in Run(cfg, IDLE, es).calls
    requires StartsFirst(Run(cfg, IDLE, es).calls[id].app)
    ensures WireSafe(cfg, Run(cfg, IDLE, es).calls[id])
  {
    RunKeepsInv(cfg, IDLE, es);
    CallWireSafe(cfg, Run(cfg, IDLE, es).calls[id]);
  }

  ghost predicate SafeOnWire(cfg: Config, s: State, id: nat) {
    id in s.calls && (StartsFirst(s.calls[id].app) ==> WireSafe(cfg, s.calls[id]))
  }

  lemma EveryCallIsSafe(cfg: Config, s: State, id: nat)
    requires Inv(cfg, s) && id in s.calls
    ensures SafeOnWire(cfg, s, id)
  {
    if StartsFirst(s.calls[id].app) { CallWireSafe(cfg, s.calls[id]); }
  }

  predicate Settled(s: State, id: nat) {
    id in s.calls && !s.calls[id].abandoned && (s.calls[id].started || s.calls[id].appDone)
  }

  lemma StepKeepsSettled(cfg: Config, s: State, e: Event, id: nat)
    requires Settled(s, id)
    ensures Settled(Step(cfg, s, e), id)
  {}

  /** Once the app has started its response or finished unabandoned, no later event makes it a 504. */
  lemma {:induction false} AnsweredInTimeStaysAnswered(cfg: Config, s: State, es: seq<Event>, id: nat)
    requires Settled(s, id)
    ensures Settled(Run(cfg, s, es), id)
    decreases |es|
  {
    if es != [] {
      StepKeepsSettled(cfg, s, es[0], id);
      AnsweredInTimeStaysAnswered(cfg, Step(cfg, s, es[0]), es[1..], id);
    }
  }

  lemma {:induction false} StartsPrefix(ms: seq<Msg>, n: nat)
    requires n <= |ms|
    ensures Starts(ms[..n]) <= Starts(ms)
    decreases |ms|
  {
    if n < |ms| {
      StartsPrefix(ms[..|ms| - 1], n);
      assert ms[..|ms| - 1][..n] == ms[..n];
    } else {
      assert ms[..n] == ms;
    }
  }

  lemma PairStartsOnce(pair: seq<Msg>)
    requires |pair| == 2 && pair[0].Start? && pair[1].Body?
    ensures Starts(pair) == 1
  {
    var first := pair[..|pair| - 1];
    assert first[..|first| - 1] == [];
    assert Starts(first) == Starts([]) + 1;
  }

  lemma CallStatusLines(cfg: Config, c: Call)
    requires CallInv(cfg, c) && StartsFirst(c.app) && Starts(c.app) <= 1
    requires ReplyPair(cfg, c)[0].Start? && ReplyPair(cfg, c)[1].Body?
    ensures c.delivered <= |c.handed| && Starts(Wire(c)) <= 1
  {
    var source := c.app;
    if c.role == Shed || c.abandoned {
      HandedIsReply(cfg, c);
      source := ReplyPair(cfg, c);
      PairStartsOnce(source);
    }
    assert Wire(c) == source[..|Wire(c)|];
    StartsPrefix(source, |Wire(c)|);
  }

  /** With a renderer that makes (start, body) pairs and an app that starts once, one status line at most. */
  lemma AtMostOneStatusLine(cfg: Config, es: seq<Event>, id: nat)
    requires forall status, scope :: cfg.render(status, scope).0.Start? && cfg.render(status, scope).1.Body?
    requires id in Run(cfg, IDLE, es).calls
    requires var ms := Run(cfg, IDLE, es).calls[id].app; StartsFirst(ms) && Starts(ms) <= 1
    ensures var c := Run(cfg, IDLE, es).calls[id]; c.delivered <= |c.handed| && Starts(Wire(c)) <= 1
  {
    RunKeepsInv(cfg, IDLE, es);
    CallStatusLines(cfg, Run(cfg, IDLE, es).calls[id]);
  }

  /** A call in which the app sends `m` before the time is up, and what was handed over is delivered. */
  function EarlyMessage(scope: Scope, m: Msg): seq<Event> {
    [Begin(0, scope), AppSend(0, m), Wake(0), Deliver(0), Deliver(0)]
  }

  lemma RunFive(cfg: Config, s: State, es: seq<Event>)
    requires |es| == 5
    ensures Run(cfg, s, es) ==
            Step(cfg, Step(cfg, Step(cfg, Step(cfg, Step(cfg, s, es[0]), es[1]), es[2]), es[3]), es[4])
  {
    var s1 := Step(cfg, s, es[0]);
    var s2 := Step(cfg, s1, es[1]);
    var s3 := Step(cfg, s2, es[2]);
    var s4 := Step(cfg, s3, es[3]);
    var es1 := es[1..];
    var es2 := es1[1..];
    var es3 := es2[1..];
    var es4 := es3[1..];
    assert Run(cfg, s4, es4) == Step(cfg, s4, es[4]);
    assert Run(cfg, s3, es3) == Run(cfg, s4, es4);
    assert Run(cfg, s2, es2) == Run(cfg, s3, es3);
    assert Run(cfg, s1, es1) == Run(cfg, s2, es2);
  }

  /**
   The ASGI order is needed. In the run above, an app whose message is not a response start has put its bytes
   on the wire and the 504's start follows them; an app that starts its response has the wire to itself.
   */
  lemma FirstMessageDecides(cfg: Config, scope: Scope, m: Msg)
    requires scope.http && IsCapped(cfg, scope.verb) && cfg.maxAbandoned >= 1
    ensures var s := Run(cfg, IDLE, EarlyMessage(scope, m));
            && 0 in s.calls && s.calls[0].delivered <= |s.calls[0].handed|
            && Wire(s.calls[0]) == if m.Start? then [m] else [m, Pair(cfg, 504, scope)[0]]
  {
    RunFive(cfg, IDLE, EarlyMessage(scope, m));
    MutedOrLeft(cfg, scope, m);
    var s1 := Step(cfg, IDLE, Begin(0, scope));
    assert s1.calls[0] == Opened(cfg, {}, scope);
    var s2 := Step(cfg, s1, AppSend(0, m));
    assert s2.calls[0] == Sent(s1.calls[0], m);
    var s3 := Step(cfg, s2, Wake(0));
    assert s3.calls[0] == Woken(cfg, s2.calls[0]);
  }

  lemma MutedOrLeft(cfg: Config, scope: Scope, m: Msg)
    requires scope.http && IsCapped(cfg, scope.verb) && cfg.maxAbandoned >= 1
    ensures var c := Woken(cfg, Sent(Opened(cfg, {}, scope), m));
            c.handed == (if m.Start? then [m] else [m, Pair(cfg, 504, scope)[0]]) && c.delivered == 0
  {
    var c := Opened(cfg, {}, scope);
    assert c.role == Capped && c.handed == [] && c.handed + [m] == [m];
    assert [m] + [Pair(cfg, 504, scope)[0]] == [m, Pair(cfg, 504, scope)[0]];
  }

  lemma {:induction false} RunAppend(cfg: Config, s: State, es: seq<Event>, fs: seq<Event>)
    ensures Run(cfg, s, es + fs) == Run(cfg, Run(cfg, s, es), fs)
    decreases |es|
  {
    if es == [] {
      assert [] + fs == fs;
    } else {
      assert (es + fs)[1..] == es[1..] + fs;
      RunAppend(cfg, Step(cfg, s, es[0]), es[1..], fs);
    }
  }

  // ---- How a request is treated ---------------------------------------------------------------

  /** Whether the ceiling applies to a request, and whether it is shed when `pooled` requests are abandoned. */
  predicate TreatedAs(cfg: Config, scope: Scope, pooled: nat, role: Role) {
    var capped := scope.http && (cfg.safeMethods.None? || scope.verb in cfg.safeMethods.value);
    && (role == Passthrough <==> !capped)
    && (role == Shed <==> capped && scope.verb !in cfg.neverShed && pooled >= cfg.maxAbandoned)
  }

  /** A request is shed exactly when it is capped, may be shed, and the pool is full; otherwise its app runs. */
  lemma ShedExactly(cfg: Config, s: State, id: nat, scope: Scope)
    requires id !in s.calls
    ensures var s' := Step(cfg, s, Begin(id, scope));
            var c := s'.calls[id];
            && TreatedAs(cfg, scope, |s.pool|, c.role) && c.scope == scope
            && s'.calls == s.calls[id := c] && s'.pool == s.pool
            && c.phase == (if c.role == Shed then Replying(1) else if c.role == Capped then Watching else Draining)
            && c.handed == (if c.role == Shed then [cfg.render(503, scope).0] else [])
            && !c.started && !c.abandoned && !c.appDone && c.app == [] && c.delivered == 0
  {}

  lemma StepKeepsRole(cfg: Config, s: State, e: Event, id: nat)
    requires id in s.calls
    ensures var s' := Step(cfg, s, e);
            id in s'.calls && s'.calls[id].role == s.calls[id].role && s'.calls[id].scope == s.calls[id].scope
  {}

  lemma {:induction false} RoleIsKept(cfg: Config, s: State, es: seq<Event>, id: nat)
    requires id in s.calls
    ensures var s' := Run(cfg, s, es);
            id in s'.calls && s'.calls[id].role == s.calls[id].role && s'.calls[id].scope == s.calls[id].scope
    decreases |es|
  {
    if es != [] {
      StepKeepsRole(cfg, s, es[0], id);
      RoleIsKept(cfg, Step(cfg, s, es[0]), es[1..], id);
    }
  }

  /** In every run, a request is for good what the pool it met on arrival made it. */
  lemma TreatmentIsDecidedOnArrival(cfg: Config, es: seq<Event>, fs: seq<Event>, id: nat, scope: Scope)
    requires id !in Run(cfg, IDLE, es).calls
    ensures var s := Run(cfg, IDLE, es + ([Begin(id, scope)] + fs));
            && id in s.calls && s.calls[id].scope == scope
            && TreatedAs(cfg, scope, |Run(cfg, IDLE, es).pool|, s.calls[id].role)
  {
    var s := Run(cfg, IDLE, es);
    RunAppend(cfg, IDLE, es, [Begin(id, scope)] + fs);
    assert ([Begin(id, scope)] + fs)[1..] == fs;
    ShedExactly(cfg, s, id, scope);
    RoleIsKept(cfg, Step(cfg, s, Begin(id, scope)), fs, id);
  }

  /** A call that has returned was answered in full by the renderer, or by an app that has finished. */
  lemma AnsweredInFull(cfg: Config, es: seq<Event>, id: nat)
    requires id in Run(cfg, IDLE, es).calls && Run(cfg, IDLE, es).calls[id].phase == Returned
    requires StartsFirst(Run(cfg, IDLE, es).calls[id].app)
    ensures var c := Run(cfg, IDLE, es).calls[id];
            && c.delivered <= |c.handed|
            && (c.role == Shed ==> Wire(c) == [cfg.render(503, c.scope).0, cfg.render(503, c.scope).1])
            && (c.abandoned ==> Wire(c) == [cfg.render(504, c.scope).0, cfg.render(504, c.scope).1])
            && (c.role != Shed && !c.abandoned ==> c.appDone && c.handed == c.app)
  {
    RunKeepsInv(cfg, IDLE, es);
    CallWireSafe(cfg, Run(cfg, IDLE, es).calls[id]);
  }

  /** The events with which the middleware and the server answer a call without its app. */
  predicate WithoutApp(es: seq<Event>) {
    forall i :: 0 <= i < |es| ==> es[i].Wake? || es[i].Deliver? || es[i].ReplyNext?
  }

  lemma PrefixedRun(cfg: Config, s: State, e: Event, es: seq<Event>)
    ensures Run(cfg, s, [e] + es) == Run(cfg, Step(cfg, s, e), es)
    ensures WithoutApp(es) && (e.Wake? || e.Deliver? || e.ReplyNext?) ==> WithoutApp([e] + es)
  {
    assert ([e] + es)[1..] == es;
  }

  /** A run after which a call has returned, its flags and its app's messages being what they were. */
  ghost predicate Returns(cfg: Config, s: State, es: seq<Event>, id: nat)
    requires id in s.calls
  {
    var s' := Run(cfg, s, es);
    && id in s'.calls && s'.calls[id].phase == Returned
    && s'.calls[id].abandoned == s.calls[id].abandoned && s'.calls[id].app == s.calls[id].app
  }

  lemma {:induction false} ReplyEnds(cfg: Config, s: State, id: nat) returns (es: seq<Event>)
    requires Inv(cfg, s) && id in s.calls && s.calls[id].phase.Replying?
    ensures WithoutApp(es) && Returns(cfg, s, es, id)
    decreases 2 - s.calls[id].phase.sent, |s.calls[id].handed| - s.calls[id].delivered
  {
    var c := s.calls[id];
    assert CallInv(cfg, c);
    if c.delivered == |c.handed| && c.phase.sent == 2 {
      PrefixedRun(cfg, s, ReplyNext(id), []);
      es := [ReplyNext(id)] + [];
    } else {
      var e := if c.delivered < |c.handed| then Deliver(id) else ReplyNext(id);
      StepKeepsInv(cfg, s, e);
      var rest := ReplyEnds(cfg, Step(cfg, s, e), id);
      PrefixedRun(cfg, s, e, rest);
      es := [e] + rest;
    }
  }

  /** What the ceiling is for: a request whose app has sent nothing and may never do so is answered all the same. */
  lemma HungAppIsAnswered(cfg: Config, es: seq<Event>, id: nat) returns (fs: seq<Event>)
    requires id in Run(cfg, IDLE, es).calls
    requires var c := Run(cfg, IDLE, es).calls[id]; c.phase == Watching && !c.appDone && c.app == []
    ensures WithoutApp(fs) && id in Run(cfg, IDLE, es + fs).calls
    ensures var c := Run(cfg, IDLE, es + fs).calls[id];
            && c.phase == Returned && c.delivered <= |c.handed|
            && Wire(c) == [cfg.render(504, c.scope).0, cfg.render(504, c.scope).1]
  {
    RunKeepsInv(cfg, IDLE, es);
    var s := Run(cfg, IDLE, es);
    var s1 := Step(cfg, s, Wake(id));
    StepKeepsInv(cfg, s, Wake(id));
    assert CallInv(cfg, s.calls[id]);
    assert s1.calls[id] == Woken(cfg, s.calls[id]) && s1.calls[id].abandoned;
    var rest := ReplyEnds(cfg, s1, id);
    PrefixedRun(cfg, s, Wake(id), rest);
    fs := [Wake(id)] + rest;
    RunAppend(cfg, IDLE, es, fs);
    RunKeepsInv(cfg, IDLE, es + fs);
    AnsweredInFull(cfg, es + fs, id);
  }

  /** And a shed request is answered, by the 503. */
  lemma ShedRequestIsAnswered(cfg: Config, es: seq<Event>, id: nat) returns (fs: seq<Event>)
    requires id in Run(cfg, IDLE, es).calls && Run(cfg, IDLE, es).calls[id].role == Shed
    ensures WithoutApp(fs) && id in Run(cfg, IDLE, es + fs).calls
    ensures var c := Run(cfg, IDLE, es + fs).calls[id];
            && c.phase == Returned && c.delivered <= |c.handed|
            && Wire(c) == [cfg.render(503, c.scope).0, cfg.render(503, c.scope).1]
  {
    RunKeepsInv(cfg, IDLE, es);
    var s := Run(cfg, IDLE, es);
    assert CallInv(cfg, s.calls[id]);
    fs := [];
    if s.calls[id].phase != Returned { fs := ReplyEnds(cfg, s, id); }
    RunAppend(cfg, IDLE, es, fs);
    RoleIsKept(cfg, s, fs, id);
    AnsweredInFull(cfg, es + fs, id);
  }

  /** Any other call returns once its app finishes, whether or not its time is up. */
  lemma FinishedAppReturns(cfg: Config, s: State, id: nat)
    requires Inv(cfg, s) && id in s.calls && s.calls[id].appDone
    requires s.calls[id].phase == Watching || s.calls[id].phase == Draining
    ensures var s' := Step(cfg, s, if s.calls[id].phase == Watching then Wake(id) else AppReturned(id));
            && id in s'.calls && s'.calls[id].phase == Returned && !s'.calls[id].abandoned
            && s'.calls[id].handed == s.calls[id].handed && s'.pool == s.pool
  {
    assert CallInv(cfg, s.calls[id]);
  }

  // ---- Overload ------------------------------------------------------------------------------

  /** Calls the server has not yet seen return. */
  function InProgress(s: State): set<nat> {
    set id | id in s.calls && s.calls[id].phase != Returned
  }

  predicate Owed(cfg: Config, pooled: bool, c: Call) {
    Sheddable(cfg, c.scope) && (pooled || (c.role == Capped && (c.phase == Watching || c.phase == Draining)))
  }

  /** Sheddable requests whose work is still owed: abandoned in the pool, or watched. */
  function Load(cfg: Config, s: State): set<nat> {
    set id | id in s.calls && Owed(cfg, id in s.pool, s.calls[id])
  }

  /** At no point of the run does the server have more than `limit` calls in progress. */
  predicate Limited(cfg: Config, s: State, es: seq<Event>, limit: nat)
    decreases |es|
  {
    |InProgress(s)| <= limit && (es != [] ==> Limited(cfg, Step(cfg, s, es[0]), es[1..], limit))
  }

  lemma UnionSize(a: set<nat>, b: set<nat>)
    ensures |a + b| <= |a| + |b|
  {
    assert a + b == a + (b - a);
    SubsetSize(b - a, b);
  }

  lemma SubsetSize(a: set<nat>, b: set<nat>)
    requires a <= b
    ensures |a| <= |b|
  {
    assert |b| == |a| + |b - a| by { assert b == a + (b - a); }
  }

  lemma NotOwedAnew(cfg: Config, s: State, e: Event)
    requires Enabled(s, e) && !e.Begin? && CallInv(cfg, s.calls[e.id])
    ensures Owed(cfg, e.id in NextPool(s, e), NextCall(cfg, s, e)) ==> Owed(cfg, e.id in s.pool, s.calls[e.id])
  {}

  lemma AdmissionNeedsRoom(cfg: Config, pool: set<nat>, scope: Scope)
    ensures Owed(cfg, false, Opened(cfg, pool, scope)) ==> |pool| < cfg.maxAbandoned
  {}

  lemma LoadElsewhere(cfg: Config, s: State, e: Event, id: nat)
    requires Inv(cfg, s) && id != e.id
    ensures id in Load(cfg, Step(cfg, s, e)) <==> id in Load(cfg, s)
  {
    if Enabled(s, e) {
      NextPoolIsExact(cfg, s, e);
      assert id in NextPool(s, e) - {e.id} <==> id in s.pool - {e.id};
    }
  }

  lemma LoadedInPoolOrProgress(cfg: Config, s: State)
    ensures Load(cfg, s) <= s.pool + InProgress(s)
  {}

  /** Only the admission of a request adds to the load, only that request, and only when the pool has room. */
  lemma LoadGrowsOnlyByAdmission(cfg: Config, s: State, e: Event)
    requires Inv(cfg, s)
    ensures var s' := Step(cfg, s, e);
            || Load(cfg, s') <= Load(cfg, s)
            || (&& e.Begin? && e.id in s'.calls && s'.calls[e.id].role == Capped
                && Load(cfg, s') <= Load(cfg, s) + {e.id}
                && |s.pool| < cfg.maxAbandoned && s'.pool == s.pool)
  {
    forall id | id != e.id { LoadElsewhere(cfg, s, e, id); }
    if !Enabled(s, e) {
    } else if e.Begin? {
      AdmissionNeedsRoom(cfg, s.pool, e.scope);
    } else {
      NotOwedAnew(cfg, s, e);
    }
  }

  lemma StepKeepsLoad(cfg: Config, s: State, e: Event, limit: nat)
    requires limit >= 1 && Inv(cfg, s)
    requires |InProgress(Step(cfg, s, e))| <= limit
    requires Load(cfg, s) == {} || |Load(cfg, s)| <= cfg.maxAbandoned - 1 + limit
    ensures var l := Load(cfg, Step(cfg, s, e)); l == {} || |l| <= cfg.maxAbandoned - 1 + limit
  {
    var s' := Step(cfg, s, e);
    LoadGrowsOnlyByAdmission(cfg, s, e);
    if Load(cfg, s') <= Load(cfg, s) {
      SubsetSize(Load(cfg, s'), Load(cfg, s));
    } else {
      LoadedInPoolOrProgress(cfg, s');
      SubsetSize(Load(cfg, s'), s.pool + InProgress(s'));
      UnionSize(s.pool, InProgress(s'));
    }
  }

  lemma {:induction false} RunKeepsLoad(cfg: Config, s: State, es: seq<Event>, limit: nat)
    requires limit >= 1 && Inv(cfg, s) && Limited(cfg, s, es, limit)
    requires Load(cfg, s) == {} || |Load(cfg, s)| <= cfg.maxAbandoned - 1 + limit
    ensures var l := Load(cfg, Run(cfg, s, es)); l == {} || |l| <= cfg.maxAbandoned - 1 + limit
    decreases |es|
  {
    if es != [] {
      StepKeepsInv(cfg, s, es[0]);
      StepKeepsLoad(cfg, s, es[0], limit);
      RunKeepsLoad(cfg, Step(cfg, s, es[0]), es[1..], limit);
    }
  }

  /** Abandoned plus watched sheddable requests stay within the pool's allowance plus the server's limit. */
  lemma OverloadBound(cfg: Config, es: seq<Event>, limit: nat)
    requires limit >= 1 && Limited(cfg, IDLE, es, limit)
    ensures var l := Load(cfg, Run(cfg, IDLE, es)); l == {} || |l| <= cfg.maxAbandoned - 1 + limit
  {
    RunKeepsLoad(cfg, IDLE, es, limit);
  }

  /** The pool is exactly the abandoned requests whose done callback has not run. */
  lemma PoolIsExact(cfg: Config, es: seq<Event>)
    ensures var s := Run(cfg, IDLE, es);
            s.pool == set id | id in s.calls && s.calls[id].abandoned && !s.calls[id].lateFinished
  {
    RunKeepsInv(cfg, IDLE, es);
  }

  predicate OnlyFinishes(es: seq<Event>) {
    forall i :: 0 <= i < |es| ==> es[i].AppFinish? || es[i].LateFinish?
  }

  function Finished(cfg: Config, s: State, id: nat): State {
    Step(cfg, Step(cfg, s, AppFinish(id)), LateFinish(id))
  }

  lemma AppFinishKeepsPool(cfg: Config, s: State, id: nat)
    requires Inv(cfg, s) && id in s.pool
    ensures var s' := Step(cfg, s, AppFinish(id));
            s'.pool == s.pool && s'.calls.Keys == s.calls.Keys && Enabled(s', LateFinish(id))
  {}

  lemma FinishOne(cfg: Config, s: State, id: nat)
    requires Inv(cfg, s) && id in s.pool
    ensures var s' := Finished(cfg, s, id);
            Inv(cfg, s') && s'.pool == s.pool - {id} && s'.calls.Keys == s.calls.Keys
  {
    AppFinishKeepsPool(cfg, s, id);
    StepKeepsInv(cfg, s, AppFinish(id));
    StepKeepsInv(cfg, Step(cfg, s, AppFinish(id)), LateFinish(id));
  }

  /** A schedule of finishes that empties the pool and opens no call. */
  predicate Drains(cfg: Config, s: State, es: seq<Event>) {
    OnlyFinishes(es) && Run(cfg, s, es).pool == {} && Run(cfg, s, es).calls.Keys == s.calls.Keys
  }

  lemma {:induction false} FinishThenDrain(cfg: Config, s: State, id: nat, es: seq<Event>)
    requires Finished(cfg, s, id).calls.Keys == s.calls.Keys
    requires Drains(cfg, Finished(cfg, s, id), es)
    ensures Drains(cfg, s, [AppFinish(id), LateFinish(id)] + es)
  {
    var fs := [AppFinish(id), LateFinish(id)] + es;
    assert fs[1..] == [LateFinish(id)] + es;
    assert fs[1..][1..] == es;
    assert Run(cfg, s, fs) == Run(cfg, Finished(cfg, s, id), es);
    assert forall i :: 2 <= i < |fs| ==> fs[i] == es[i - 2];
  }

  lemma {:induction false} Drain(cfg: Config, s: State) returns (es: seq<Event>)
    requires Inv(cfg, s)
    ensures Drains(cfg, s, es)
    decreases |s.pool|
  {
    if s.pool == {} {
      es := [];
    } else {
      var id :| id in s.pool;
      FinishOne(cfg, s, id);
      var rest := Drain(cfg, Finished(cfg, s, id));
      FinishThenDrain(cfg, s, id, rest);
      es := [AppFinish(id), LateFinish(id)] + rest;
    }
  }

  /** From every reachable state the pool empties once its tasks finish, and then nothing is shed. */
  lemma SheddingStops(cfg: Config, es: seq<Event>, id: nat, scope: Scope) returns (fs: seq<Event>)
    requires cfg.maxAbandoned >= 1 && id !in Run(cfg, IDLE, es).calls
    ensures OnlyFinishes(fs)
    ensures var s := Run(cfg, IDLE, es + fs);
            s.pool == {} && id !in s.calls && Step(cfg, s, Begin(id, scope)).calls[id].role != Shed
  {
    RunKeepsInv(cfg, IDLE, es);
    fs := Drain(cfg, Run(cfg, IDLE, es));
    RunAppend(cfg, IDLE, es, fs);
  }

  // ---- The middleware object -----------------------------------------------------------------

  /** The middleware and the response channels of its calls; each method is one stretch between awaits. */
  class Middleware {
    const cfg: Config
    var calls: map<nat, Call>
    var pool: set<nat>

    ghost function View(): State
      reads this
    {
      State(calls, pool)
    }

    ghost predicate Valid()
      reads this
    {
      Inv(cfg, View())
    }

    constructor (cfg: Config)
      ensures Valid() && View() == IDLE && this.cfg == cfg
    {
      this.cfg := cfg;
      calls, pool := map[], {};
    }

    /** A call up to its first await. It adds to the owed work only while the pool has room. */
    method Begin(id: nat, scope: Scope)
      requires Valid() && Enabled(View(), Event.Begin(id, scope))
      modifies this
      ensures Valid() && View() == Step(cfg, old(View()), Event.Begin(id, scope))
      ensures id in calls && calls[id].scope == scope && TreatedAs(cfg, scope, |old(pool)|, calls[id].role)
      ensures Load(cfg, View()) <= old(Load(cfg, View())) + {id}
      ensures |pool| >= cfg.maxAbandoned ==> Load(cfg, View()) <= old(Load(cfg, View()))
    {
      ghost var before := View();
      var c := Call(scope, Capped, Watching, false, false, false, false, [], [], 0);
      if !scope.http || !IsCapped(cfg, scope.verb) {
        c := c.(role := Passthrough, phase := Draining);
      } else if scope.verb !in cfg.neverShed && |pool| >= cfg.maxAbandoned {
        var start := Pair(cfg, 503, scope)[0];
        c := c.(role := Shed, phase := Replying(1), handed := [start]);
      }
      calls := calls[id := c];
      StepKeepsInv(cfg, before, Event.Begin(id, scope));
      ShedExactly(cfg, before, id, scope);
      LoadGrowsOnlyByAdmission(cfg, before, Event.Begin(id, scope));
    }

    /** Nothing an abandoned app sends is handed over, and a status line that is rules the 504 out. */
    method Send(id: nat, msg: Msg)
      requires Valid() && Enabled(View(), AppSend(id, msg))
      modifies this`calls
      ensures Valid() && View() == Step(cfg, old(View()), AppSend(id, msg))
      ensures id in calls && NeverBoth(cfg, calls[id])
      ensures old(calls)[id].abandoned ==> calls[id].handed == old(calls)[id].handed
      ensures calls[id].role == Capped && msg.Start? && !old(calls)[id].abandoned ==> Settled(View(), id)
    {
      ghost var before := View();
      var c := calls[id].(app := calls[id].app + [msg]);
      if !c.abandoned {
        if c.role == Capped && msg.Start? {
          c := c.(started := true);
        }
        c := c.(handed := c.handed + [msg]);
      }
      calls := calls[id := c];
      StepKeepsInv(cfg, before, AppSend(id, msg));
      CallNeverBoth(cfg, calls[id]);
    }

    /** The server takes a message over: the wire is safe after each one, if the app starts first. */
    method Deliver(id: nat)
      requires Valid() && Enabled(View(), Event.Deliver(id))
      modifies this`calls
      ensures Valid() && View() == Step(cfg, old(View()), Event.Deliver(id))
      ensures SafeOnWire(cfg, View(), id)
      ensures OneMoreOnWire(old(View()), View(), id)
    {
      ghost var before := View();
      calls := calls[id := calls[id].(delivered := calls[id].delivered + 1)];
      assert View() == Step(cfg, before, Event.Deliver(id));
      StepKeepsInv(cfg, before, Event.Deliver(id));
      EveryCallIsSafe(cfg, View(), id);
      DeliverTakesOver(cfg, before, id);
    }

    method AppFinish(id: nat)
      requires Valid() && Enabled(View(), Event.AppFinish(id))
      modifies this`calls
      ensures Valid() && View() == Step(cfg, old(View()), Event.AppFinish(id))
    {
      ghost var before := View();
      calls := calls[id := calls[id].(appDone := true)];
      StepKeepsInv(cfg, before, Event.AppFinish(id));
    }

    /**
     The check-then-mute stretch: no other step can come between reading the flags and setting them, so an
     app that started or finished in time is left alone, and one that did neither is muted and pooled.
     */
    method Wake(id: nat)
      requires Valid() && Enabled(View(), Event.Wake(id))
      modifies this
      ensures Valid() && View() == Step(cfg, old(View()), Event.Wake(id))
      ensures id in calls && !(calls[id].started && calls[id].abandoned)
      ensures calls[id].abandoned <==> !old(Settled(View(), id))
      ensures calls[id].phase == (if old(calls[id].appDone) then Returned
                                  else if old(calls[id].started) then Draining else Replying(1))
      ensures id in pool <==> calls[id].abandoned
      ensures calls[id].abandoned && StartsFirst(calls[id].app) ==> calls[id].app == [] && Wire(calls[id]) == []
    {
      ghost var before := View();
      var c := calls[id];
      if c.appDone {
        c := c.(phase := Returned);
      } else if c.started {
        c := c.(phase := Draining);
      } else {
        c := c.(abandoned := true);
        pool := pool + {id};
        var start := Pair(cfg, 504, c.scope)[0];
        c := c.(phase := Replying(1), handed := c.handed + [start]);
      }
      calls := calls[id := c];
      StepKeepsInv(cfg, before, Event.Wake(id));
      MutedUnsent(cfg, before.calls[id]);
    }

    method AppReturned(id: nat)
      requires Valid() && Enabled(View(), Event.AppReturned(id))
      modifies this`calls
      ensures Valid() && View() == Step(cfg, old(View()), Event.AppReturned(id))
    {
      ghost var before := View();
      calls := calls[id := calls[id].(phase := Returned)];
      StepKeepsInv(cfg, before, Event.AppReturned(id));
    }

    /** The reply goes on; a call that returns from it has put the whole pair on the wire. */
    method ReplyNext(id: nat)
      requires Valid() && Enabled(View(), Event.ReplyNext(id))
      modifies this`calls
      ensures Valid() && View() == Step(cfg, old(View()), Event.ReplyNext(id))
      ensures id in calls && calls[id].delivered <= |calls[id].handed|
      ensures calls[id].phase == Returned && StartsFirst(calls[id].app) ==> Wire(calls[id]) == ReplyPair(cfg, calls[id])
    {
      ghost var before := View();
      var c := calls[id];
      if c.phase.sent == 1 {
        var body := ReplyPair(cfg, c)[1];
        c := c.(phase := Replying(2), handed := c.handed + [body]);
      } else {
        c := c.(phase := Returned);
      }
      calls := calls[id := c];
      assert c == Replied(cfg, before.calls[id]);
      StepKeepsInv(cfg, before, Event.ReplyNext(id));
      ReturnedIsWhole(cfg, before.calls[id]);
    }

    /** The done callback gives the abandoned request's place in the pool back. */
    method LateFinish(id: nat)
      requires Valid() && Enabled(View(), Event.LateFinish(id))
      modifies this
      ensures Valid() && View() == Step(cfg, old(View()), Event.LateFinish(id))
      ensures id in old(pool) && id !in pool && |pool| == |old(pool)| - 1
    {
      ghost var before := View();
      calls := calls[id := calls[id].(lateFinished := true)];
      pool := pool - {id};
      StepKeepsInv(cfg, before, Event.LateFinish(id));
    }
  }

  /** A call that returns from its reply has sent all of it. */
  lemma ReturnedIsWhole(cfg: Config, c: Call)
    requires CallInv(cfg, c) && c.phase.Replying? && c.delivered == |c.handed|
    ensures var c' := Replied(cfg, c);
            c'.delivered <= |c'.handed| &&
            (c'.phase == Returned && StartsFirst(c'.app) ==> Wire(c') == ReplyPair(cfg, c'))
  {
    if c.phase.sent == 2 && StartsFirst(c.app) { HandedIsReply(cfg, c); }
  }

  /** An app that starts first and has not started when it is muted has handed nothing over. */
  lemma MutedUnsent(cfg: Config, c: Call)
    requires CallInv(cfg, c) && c.phase == Watching
    ensures !c.started && StartsFirst(c.app) ==> c.app == [] && c.handed == [] && c.delivered == 0
  {
    if c.app != [] && StartsFirst(c.app) { assert c.app[0].Start?; }
  }
}
