/**
 Registration and heartbeat threads as interleaved steps. Stop events are numbered in the order they are
 installed; `current` is the one in the module's dictionary. The reset is two steps under the lock, because
 `start_heartbeat` reads the dictionary without taking it. `latches` and `starts` count since the last reset.
 An event that is not enabled leaves the state as it is, so `Run` accepts every interleaving.
 */
module Registration {
  /** Where a call of `trigger_service_registration` and the thread it starts have got to. */
  datatype Stage = Latched | Checking | Registering | Beating | Gone

  datatype Mode = Waiting | Sending | Dead

  /** A heartbeat thread: the stop event it captured, and how many PUTs it has made. */
  datatype Beat = Beat(stop: nat, mode: Mode, puts: nat)

  datatype State = State(
    started: bool, resetting: bool, current: nat, stopped: set<nat>,
    regs: map<nat, Stage>, beats: map<nat, Beat>, latches: nat, starts: nat)

  datatype Event =
    | Trigger(id: nat, enabled: bool)
    | StartThread(id: nat)
    | Check(id: nat, configured: bool)
    | Registered(id: nat)
    | StartHeartbeat(id: nat, beat: nat, positive: bool)
    | WaitOver(beat: nat, configured: bool)
    | Put(beat: nat)
    | ResetBegin
    | ResetEnd

  const FRESH := State(false, false, 0, {}, map[], map[], 0, 0)

  predicate At(s: State, id: nat, stage: Stage) {
    id in s.regs && s.regs[id] == stage
  }

  predicate BeatAt(s: State, beat: nat, mode: Mode) {
    beat in s.beats && s.beats[beat].mode == mode
  }

  function Move(s: State, id: nat, stage: Stage): State {
    s.(regs := s.regs[id := stage])
  }

  function SetBeat(s: State, beat: nat, b: Beat): State {
    s.(beats := s.beats[beat := b])
  }

  predicate Enabled(s: State, e: Event) {
    match e
    case Trigger(id, _) => id !in s.regs && !s.resetting
    case StartThread(id) => At(s, id, Latched)
    case Check(id, _) => At(s, id, Checking)
    case Registered(id) => At(s, id, Registering)
    case StartHeartbeat(id, beat, _) => At(s, id, Beating) && beat !in s.beats
    case WaitOver(beat, _) => BeatAt(s, beat, Waiting)
    case Put(beat) => BeatAt(s, beat, Sending)
    case ResetBegin => !s.resetting
    case ResetEnd => s.resetting
  }

  function Step(s: State, e: Event): State {
    if !Enabled(s, e) then s
    else
      match e
      case Trigger(id, enabled) =>
        if !enabled || s.started then s
        else Move(s, id, Latched).(started := true, latches := s.latches + 1)
      case StartThread(id) => Move(s, id, Checking).(starts := s.starts + 1)
      case Check(id, configured) => Move(s, id, if configured then Registering else Gone)
      case Registered(id) => Move(s, id, Beating)
      case StartHeartbeat(id, beat, positive) =>
        var s' := Move(s, id, Gone);
        if positive then SetBeat(s', beat, Beat(s.current, Waiting, 0)) else s'
      case WaitOver(beat, configured) =>
        var b := s.beats[beat];
        SetBeat(s, beat, b.(mode := if b.stop in s.stopped || !configured then Dead else Sending))
      case Put(beat) =>
        var b := s.beats[beat];
        SetBeat(s, beat, b.(mode := Waiting, puts := b.puts + 1))
      case ResetBegin =>
        s.(started := false, resetting := true, stopped := s.stopped + {s.current}, latches := 0, starts := 0)
      case ResetEnd => s.(resetting := false, current := s.current + 1)
  }

  function Run(s: State, es: seq<Event>): State
    decreases |es|
  {
    if es == [] then s else Run(Step(s, es[0]), es[1..])
  }

  // ---- What holds in every interleaving --------------------------------------------------------

  predicate Inv(s: State) {
    && (forall e :: 0 <= e < s.current ==> e in s.stopped)
    && (forall e :: e in s.stopped ==> e <= s.current)
    && (s.current in s.stopped <==> s.resetting)
    && (forall b :: b in s.beats ==> s.beats[b].stop <= s.current)
    && s.latches == (if s.started then 1 else 0)
    && (s.resetting ==> !s.started)
  }

  lemma StepKeepsInv(s: State, e: Event)
    requires Inv(s)
    ensures Inv(Step(s, e))
  {}

  lemma {:induction false} RunKeepsInv(s: State, es: seq<Event>)
    requires Inv(s)
    ensures Inv(Run(s, es))
    decreases |es|
  {
    if es != [] {
      StepKeepsInv(s, es[0]);
      RunKeepsInv(Step(s, es[0]), es[1..]);
    }
  }

  /**
   Every stop event ever installed except the current one is set, the current one only while a reset is
   under way; and between two resets at most one call latches.
   */
  lemma SupersededEventsAreSet(es: seq<Event>)
    ensures var s := Run(FRESH, es);
            && (forall e :: 0 <= e < s.current ==> e in s.stopped)
            && (s.current in s.stopped <==> s.resetting)
            && s.latches <= 1
  {
    RunKeepsInv(FRESH, es);
  }

  lemma StoppedStepBeats(s: State, e: Event, beat: nat)
    requires beat in s.beats && s.beats[beat].stop in s.stopped
    ensures var s' := Step(s, e);
            && beat in s'.beats && s'.beats[beat].stop == s.beats[beat].stop && s'.beats[beat].stop in s'.stopped
            && s'.beats[beat].puts + (if s'.beats[beat].mode == Sending then 1 else 0)
               <= s.beats[beat].puts + (if s.beats[beat].mode == Sending then 1 else 0)
            && (s.beats[beat].mode == Dead ==> s'.beats[beat] == s.beats[beat])
  {}

  lemma {:induction false} StoppedRunBeats(s: State, es: seq<Event>, beat: nat)
    requires beat in s.beats && s.beats[beat].stop in s.stopped
    ensures beat in Run(s, es).beats
    ensures Run(s, es).beats[beat].puts <= s.beats[beat].puts + if s.beats[beat].mode == Sending then 1 else 0
    decreases |es|
  {
    if es != [] {
      StoppedStepBeats(s, es[0], beat);
      StoppedRunBeats(Step(s, es[0]), es[1..], beat);
    }
  }

  lemma {:induction false} RunAppend(s: State, es: seq<Event>, fs: seq<Event>)
    ensures Run(s, es + fs) == Run(Run(s, es), fs)
    decreases |es|
  {
    if es == [] {
      assert [] + fs == fs;
    } else {
      assert (es + fs)[1..] == es[1..] + fs;
      RunAppend(Step(s, es[0]), es[1..], fs);
    }
  }

  /** A heartbeat that captured an earlier stop event sends at most one more PUT, whatever happens next. */
  lemma SupersededHeartbeatEnds(es: seq<Event>, fs: seq<Event>, beat: nat)
    requires beat in Run(FRESH, es).beats
    requires Run(FRESH, es).beats[beat].stop != Run(FRESH, es).current
    ensures beat in Run(FRESH, es + fs).beats
    ensures Run(FRESH, es + fs).beats[beat].puts <= Run(FRESH, es).beats[beat].puts + 1
  {
    RunKeepsInv(FRESH, es);
    RunAppend(FRESH, es, fs);
    StoppedRunBeats(Run(FRESH, es), fs, beat);
  }

  // ---- Resets with nothing in flight ------------------------------------------------------------

  predicate InFlight(s: State, id: nat) {
    id in s.regs && s.regs[id] != Gone
  }

  /** A heartbeat loop that no stop event has ended. */
  predicate Live(s: State, beat: nat) {
    beat in s.beats && s.beats[beat].mode != Dead && s.beats[beat].stop !in s.stopped
  }

  ghost predicate NoneInFlight(s: State) {
    forall id :: id in s.regs ==> s.regs[id] == Gone
  }

  /** Resets begin only when no registration is in flight. */
  ghost predicate QuietResets(s: State, es: seq<Event>)
    decreases |es|
  {
    es != [] ==> (es[0].ResetBegin? && !s.resetting ==> NoneInFlight(s)) && QuietResets(Step(s, es[0]), es[1..])
  }

  ghost predicate OneLive(s: State) {
    forall a, b :: Live(s, a) && Live(s, b) ==> a == b
  }

  ghost predicate Single(s: State) {
    && (forall a, b :: InFlight(s, a) && InFlight(s, b) ==> a == b)
    && OneLive(s)
    && (forall a, b :: InFlight(s, a) ==> !Live(s, b))
    && (!s.started ==> NoneInFlight(s) && (forall b :: !Live(s, b)) && s.starts == 0)
    && (forall a :: At(s, a, Latched) ==> s.starts == 0)
    && s.starts <= 1
  }

  lemma LiveMeansCurrent(s: State, beat: nat)
    requires Inv(s) && Live(s, beat)
    ensures s.beats[beat].stop == s.current && !s.resetting
  {}

  lemma StepKeepsSingle(s: State, e: Event)
    requires Inv(s) && Single(s)
    requires e.ResetBegin? && !s.resetting ==> NoneInFlight(s)
    ensures Single(Step(s, e))
  {
    var s' := Step(s, e);
    forall b | Live(s', b)
      ensures Live(s, b) || (e.StartHeartbeat? && e.beat == b && At(s, e.id, Beating))
    {}
    forall a | InFlight(s', a)
      ensures InFlight(s, a) || (e.Trigger? && e.id == a && !s.started)
      ensures !(e.StartHeartbeat? && e.id == a && Enabled(s, e))
    {}
    forall a | At(s', a, Latched)
      ensures InFlight(s', a) && (At(s, a, Latched) || (e.Trigger? && e.id == a && !s.started))
    {}
    if (e.StartThread? || e.StartHeartbeat?) && Enabled(s, e) {
      assert InFlight(s, e.id);
    }
    if e.ResetBegin? && Enabled(s, e) {
      forall b ensures !Live(s', b) {
        if Live(s, b) { LiveMeansCurrent(s, b); }
      }
    }
  }

  lemma {:induction false} RunKeepsSingle(s: State, es: seq<Event>)
    requires Inv(s) && Single(s) && QuietResets(s, es)
    ensures Single(Run(s, es))
    decreases |es|
  {
    if es != [] {
      StepKeepsInv(s, es[0]);
      StepKeepsSingle(s, es[0]);
      RunKeepsSingle(Step(s, es[0]), es[1..]);
    }
  }

  /**
   With quiet resets at most one un-stopped heartbeat loop exists at any time, and between two resets at
   most one registration thread is started.
   */
  lemma OneHeartbeat(es: seq<Event>)
    requires QuietResets(FRESH, es)
    ensures var s := Run(FRESH, es);
            OneLive(s) && s.starts <= 1
  {
    RunKeepsSingle(FRESH, es);
  }

  // ---- A heartbeat goes on ----------------------------------------------------------------------

  /** No reset begins, and `beat` always finds the service configured. */
  predicate LeavesBeating(es: seq<Event>, beat: nat) {
    forall i :: 0 <= i < |es| ==> !es[i].ResetBegin? && es[i] != WaitOver(beat, false)
  }

  lemma {:induction false} LiveStaysLive(s: State, es: seq<Event>, beat: nat)
    requires Inv(s) && Live(s, beat) && LeavesBeating(es, beat)
    ensures Live(Run(s, es), beat)
    decreases |es|
  {
    if es != [] {
      assert !es[0].ResetBegin? && es[0] != WaitOver(beat, false);
      StepKeepsInv(s, es[0]);
      assert LeavesBeating(es[1..], beat);
      LiveStaysLive(Step(s, es[0]), es[1..], beat);
    }
  }

  /** In every run, an un-stopped heartbeat goes on until a reset begins or it finds the service unconfigured. */
  lemma HeartbeatGoesOn(es: seq<Event>, fs: seq<Event>, beat: nat)
    requires Live(Run(FRESH, es), beat) && LeavesBeating(fs, beat)
    ensures Live(Run(FRESH, es + fs), beat)
  {
    RunKeepsInv(FRESH, es);
    RunAppend(FRESH, es, fs);
    LiveStaysLive(Run(FRESH, es), fs, beat);
  }

  /** `k` intervals of a heartbeat. */
  function Rounds(beat: nat, k: nat): seq<Event> {
    if k == 0 then [] else [WaitOver(beat, true), Put(beat)] + Rounds(beat, k - 1)
  }

  lemma {:induction false} RoundsAdd(s: State, beat: nat, k: nat)
    requires Live(s, beat) && BeatAt(s, beat, Waiting)
    ensures var b := s.beats[beat];
            Run(s, Rounds(beat, k)) == s.(beats := s.beats[beat := b.(puts := b.puts + k)])
    decreases k
  {
    if k > 0 {
      var s1 := Step(s, WaitOver(beat, true));
      var s2 := Step(s1, Put(beat));
      var rest := Rounds(beat, k - 1);
      assert Rounds(beat, k) == [WaitOver(beat, true)] + ([Put(beat)] + rest);
      RunFirst(s, WaitOver(beat, true), [Put(beat)] + rest);
      RunFirst(s1, Put(beat), rest);
      RoundsAdd(s2, beat, k - 1);
    }
  }

  /** From every reachable state, a live heartbeat that waits sends one PUT in each of the next intervals. */
  lemma EveryIntervalSends(es: seq<Event>, beat: nat, k: nat)
    requires Live(Run(FRESH, es), beat) && BeatAt(Run(FRESH, es), beat, Waiting)
    ensures var s, s' := Run(FRESH, es), Run(FRESH, es + Rounds(beat, k));
            && Live(s', beat) && BeatAt(s', beat, Waiting)
            && s'.beats[beat].puts == s.beats[beat].puts + k
  {
    RunAppend(FRESH, es, Rounds(beat, k));
    RoundsAdd(Run(FRESH, es), beat, k);
  }

  /** An enabled trigger with nothing latched leads to a heartbeat that sends in every interval. */
  lemma ServiceComesUp(es: seq<Event>, id: nat, beat: nat, k: nat)
    requires var s := Run(FRESH, es); !s.started && !s.resetting && id !in s.regs && beat !in s.beats
    ensures var s' := Run(FRESH, es + ([Trigger(id, true)] + (Drive(id, beat) + Rounds(beat, k))));
            Live(s', beat) && s'.beats[beat].puts == k
  {
    var s := Run(FRESH, es);
    RunKeepsInv(FRESH, es);
    RunAppend(FRESH, es, [Trigger(id, true)] + (Drive(id, beat) + Rounds(beat, k)));
    RunFirst(s, Trigger(id, true), Drive(id, beat) + Rounds(beat, k));
    var s1 := Step(s, Trigger(id, true));
    StepKeepsInv(s, Trigger(id, true));
    RunAppend(s1, Drive(id, beat), Rounds(beat, k));
    DriveEndsInHeartbeat(s1, id, beat);
    RoundsAdd(Run(s1, Drive(id, beat)), beat, k);
  }

  /** A process that is disabled, or never finds itself configured, starts no heartbeat whatever else happens. */
  predicate NeverRegisters(es: seq<Event>) {
    || (forall i :: 0 <= i < |es| && es[i].Trigger? ==> !es[i].enabled)
    || (forall i :: 0 <= i < |es| && es[i].Check? ==> !es[i].configured)
  }

  predicate NothingSent(s: State, disabled: bool) {
    && s.beats == map[]
    && forall id :: id in s.regs ==> !disabled && s.regs[id] in {Latched, Checking, Gone}
  }

  lemma {:induction false} NothingIsSent(s: State, es: seq<Event>, disabled: bool)
    requires NothingSent(s, disabled)
    requires if disabled then forall i :: 0 <= i < |es| && es[i].Trigger? ==> !es[i].enabled
             else forall i :: 0 <= i < |es| && es[i].Check? ==> !es[i].configured
    ensures Run(s, es).beats == map[]
    decreases |es|
  {
    if es != [] {
      assert (disabled && es[0].Trigger? ==> !es[0].enabled) && (!disabled && es[0].Check? ==> !es[0].configured);
      NothingIsSent(Step(s, es[0]), es[1..], disabled);
    }
  }

  lemma UnconfiguredNeverBeats(es: seq<Event>)
    requires NeverRegisters(es)
    ensures Run(FRESH, es).beats == map[]
  {
    NothingIsSent(FRESH, es, forall i :: 0 <= i < |es| && es[i].Trigger? ==> !es[i].enabled);
  }

  // ---- A reset that races a registration --------------------------------------------------------

  /** Bring a registration in flight, wherever it is, to its heartbeat. */
  function Drive(id: nat, beat: nat): seq<Event> {
    [StartThread(id), Check(id, true), Registered(id), StartHeartbeat(id, beat, true)]
  }

  lemma RunFirst(s: State, e: Event, es: seq<Event>)
    ensures Run(s, [e] + es) == Run(Step(s, e), es)
  {
    assert ([e] + es)[1..] == es;
  }

  lemma RunThree(s: State, a: Event, b: Event, c: Event)
    ensures Run(s, [a, b, c]) == Step(Step(Step(s, a), b), c)
  {
    assert [a, b, c] == [a] + [b, c] && [b, c] == [b] + [c] && [c] == [c] + [];
    RunFirst(s, a, [b, c]);
    RunFirst(Step(s, a), b, [c]);
    RunFirst(Step(Step(s, a), b), c, []);
  }

  lemma RunFour(s: State, a: Event, b: Event, c: Event, d: Event)
    ensures Run(s, [a, b, c, d]) == Step(Step(Step(Step(s, a), b), c), d)
  {
    assert [a, b, c, d] == [a] + [b, c, d];
    RunFirst(s, a, [b, c, d]);
    RunThree(Step(s, a), b, c, d);
  }

  /** Two states that differ in the stage of one registration, and in how many threads were started. */
  predicate SameButStage(s: State, s': State, id: nat, stage: Stage) {
    s' == s.(regs := s.regs[id := stage], starts := s'.starts)
  }

  lemma DriveToHeartbeatStart(s: State, id: nat)
    requires InFlight(s, id)
    ensures SameButStage(s, Step(Step(Step(s, StartThread(id)), Check(id, true)), Registered(id)), id, Beating)
  {
    var s1 := Step(s, StartThread(id));
    assert SameButStage(s, s1, id, s1.regs[id]);
    var s2 := Step(s1, Check(id, true));
    assert SameButStage(s, s2, id, s2.regs[id]);
  }

  lemma DriveEndsInHeartbeat(s: State, id: nat, beat: nat)
    requires InFlight(s, id) && beat !in s.beats
    ensures var s' := Run(s, Drive(id, beat));
            s' == s.(regs := s.regs[id := Gone], starts := s'.starts,
            beats := s.beats[beat := Beat(s.current, Waiting, 0)])
  {
    RunFour(s, StartThread(id), Check(id, true), Registered(id), StartHeartbeat(id, beat, true));
    DriveToHeartbeatStart(s, id);
    var s3 := Step(Step(Step(s, StartThread(id)), Check(id, true)), Registered(id));
    assert s3.regs[id := Gone] == s.regs[id := Gone];
  }

  predicate NoReset(fs: seq<Event>) {
    forall i :: 0 <= i < |fs| ==> !fs[i].ResetBegin?
  }

  /** A reset beside a registration in flight, then a second registration, and both reach their heartbeats. */
  function Race(id: nat, other: nat, a: nat, b: nat): (fs: seq<Event>)
    ensures NoReset(fs)
  {
    [ResetEnd, Trigger(other, true)] + (Drive(id, a) + Drive(other, b))
  }

  lemma RaceGivesTwo(s: State, id: nat, other: nat, a: nat, b: nat)
    requires Inv(s) && InFlight(s, id) && !s.resetting
    requires other !in s.regs && a != b && a !in s.beats && b !in s.beats
    ensures var s' := Run(Step(s, ResetBegin), Race(id, other, a, b)); Live(s', a) && Live(s', b)
  {
    var s1 := Step(s, ResetBegin);
    var s2 := Step(s1, ResetEnd);
    var s3 := Step(s2, Trigger(other, true));
    StepKeepsInv(s, ResetBegin);
    StepKeepsInv(s1, ResetEnd);
    StepKeepsInv(s2, Trigger(other, true));
    var r := [ResetEnd, Trigger(other, true)];
    assert r == [ResetEnd] + [Trigger(other, true)] && r[1..] == [Trigger(other, true)] + [];
    RunFirst(s1, ResetEnd, [Trigger(other, true)]);
    RunFirst(s2, Trigger(other, true), []);
    DriveEndsInHeartbeat(s3, id, a);
    DriveEndsInHeartbeat(Run(s3, Drive(id, a)), other, b);
    RunAppend(s3, Drive(id, a), Drive(other, b));
    RunAppend(s1, r, Drive(id, a) + Drive(other, b));
  }

  /**
   The condition on resets is needed: from every reachable state with a registration in flight, a reset
   can be followed to a state with two un-stopped heartbeats.
   */
  lemma RacingResetGivesTwo(es: seq<Event>, id: nat, other: nat, a: nat, b: nat)
    requires var s := Run(FRESH, es);
             && InFlight(s, id) && !s.resetting && other !in s.regs && a != b && a !in s.beats && b !in s.beats
    ensures var s' := Run(FRESH, es + ([ResetBegin] + Race(id, other, a, b))); Live(s', a) && Live(s', b)
  {
    RunKeepsInv(FRESH, es);
    RaceGivesTwo(Run(FRESH, es), id, other, a, b);
    RunFirst(Run(FRESH, es), ResetBegin, Race(id, other, a, b));
    RunAppend(FRESH, es, [ResetBegin] + Race(id, other, a, b));
  }

  /** However a run goes on from here with quiet resets, one heartbeat at most is un-stopped. */
  ghost predicate StaysSingle(s: State) {
    forall fs :: QuietResets(s, fs) ==> OneLive(Run(s, fs))
  }

  lemma {:induction false} WithoutResetsQuiet(s: State, fs: seq<Event>)
    requires NoReset(fs)
    ensures QuietResets(s, fs)
    decreases |fs|
  {
    if fs != [] {
      assert !fs[0].ResetBegin?;
      assert NoReset(fs[1..]);
      WithoutResetsQuiet(Step(s, fs[0]), fs[1..]);
    }
  }

  lemma {:induction false} NewIds(used: set<nat>) returns (n: nat)
    ensures forall id :: id in used ==> id < n
    decreases |used|
  {
    n := 0;
    if used != {} {
      var id :| id in used;
      n := NewIds(used - {id});
      if n <= id { n := id + 1; }
      forall other | other in used ensures other < n {
        if other != id { assert other in used - {id}; }
      }
    }
  }

  /** A reset is safe exactly when it finds no registration in flight. */
  lemma ResetIsSafeExactly(s: State)
    requires Inv(s) && Single(s) && !s.resetting
    ensures StaysSingle(Step(s, ResetBegin)) <==> NoneInFlight(s)
  {
    var s1 := Step(s, ResetBegin);
    if NoneInFlight(s) {
      StepKeepsInv(s, ResetBegin);
      StepKeepsSingle(s, ResetBegin);
      forall fs | QuietResets(s1, fs)
        ensures OneLive(Run(s1, fs))
      {
        RunKeepsSingle(s1, fs);
      }
    } else {
      var id :| id in s.regs && s.regs[id] != Gone;
      var other := NewIds(s.regs.Keys);
      var a := NewIds(s.beats.Keys);
      RaceGivesTwo(s, id, other, a, a + 1);
      WithoutResetsQuiet(s1, Race(id, other, a, a + 1));
    }
  }

  // ---- The module's state -------------------------------------------------------------------------

  /** The registration module's globals and its threads; each method is one atomic step. */
  class Process {
    var started: bool
    var resetting: bool
    var current: nat
    var stopped: set<nat>
    var regs: map<nat, Stage>
    var beats: map<nat, Beat>
    var latches: nat
    var starts: nat

    ghost function View(): State
      reads this
    {
      State(started, resetting, current, stopped, regs, beats, latches, starts)
    }

    ghost predicate Valid()
      reads this
    {
      Inv(View())
    }

    constructor ()
      ensures Valid() && View() == FRESH
    {
      started, resetting, current, stopped := false, false, 0, {};
      regs, beats, latches, starts := map[], map[], 0, 0;
    }

    /** The locked section of the trigger; true for the one call since the last reset that latched. */
    method Trigger(id: nat, enabled: bool) returns (mine: bool)
      requires Valid() && Enabled(View(), Event.Trigger(id, enabled))
      modifies this
      ensures Valid() && View() == Step(old(View()), Event.Trigger(id, enabled))
      ensures mine <==> enabled && old(latches) == 0
      ensures enabled ==> latches == 1
    {
      if !enabled {
        return false;
      }
      if started {
        return false;
      }
      started := true;
      regs, latches := regs[id := Latched], latches + 1;
      mine := true;
    }

    method StartThread(id: nat)
      requires Valid() && Enabled(View(), Event.StartThread(id))
      modifies this
      ensures Valid() && View() == Step(old(View()), Event.StartThread(id))
    {
      regs, starts := regs[id := Checking], starts + 1;
    }

    method CheckPayload(id: nat, configured: bool)
      requires Valid() && Enabled(View(), Check(id, configured))
      modifies this`regs
      ensures Valid() && View() == Step(old(View()), Check(id, configured))
      ensures InFlight(View(), id) <==> configured
    {
      regs := regs[id := if configured then Registering else Gone];
    }

    method RegisterReturned(id: nat)
      requires Valid() && Enabled(View(), Registered(id))
      modifies this`regs
      ensures Valid() && View() == Step(old(View()), Registered(id))
    {
      regs := regs[id := Beating];
    }

    /** The new loop captures the event installed now: it lives, unless a reset has set that event already. */
    method StartHeartbeat(id: nat, beat: nat, positive: bool)
      requires Valid() && Enabled(View(), Event.StartHeartbeat(id, beat, positive))
      modifies this
      ensures Valid() && View() == Step(old(View()), Event.StartHeartbeat(id, beat, positive))
      ensures Live(View(), beat) <==> positive && !resetting
      ensures forall b :: b != beat ==> (Live(View(), b) <==> old(Live(View(), b)))
    {
      regs := regs[id := Gone];
      if positive {
        beats := beats[beat := Beat(current, Waiting, 0)];
      }
    }

    /** The heartbeat's wait returns. A loop whose event was superseded ends here, without another PUT. */
    method WaitOver(beat: nat, configured: bool)
      requires Valid() && Enabled(View(), Event.WaitOver(beat, configured))
      modifies this`beats
      ensures Valid() && View() == Step(old(View()), Event.WaitOver(beat, configured))
      ensures beat in beats && beats[beat].puts == old(beats)[beat].puts
      ensures old(beats)[beat].stop != current ==> BeatAt(View(), beat, Dead)
      ensures configured && old(Live(View(), beat)) ==> BeatAt(View(), beat, Sending)
      ensures !configured ==> BeatAt(View(), beat, Dead)
    {
      var b := beats[beat];
      if b.stop in stopped || !configured {
        beats := beats[beat := b.(mode := Dead)];
      } else {
        beats := beats[beat := b.(mode := Sending)];
      }
    }

    method PutOnce(beat: nat)
      requires Valid() && Enabled(View(), Put(beat))
      modifies this`beats
      ensures Valid() && View() == Step(old(View()), Put(beat))
      ensures BeatAt(View(), beat, Waiting) && beats[beat].puts == old(beats)[beat].puts + 1
      ensures Live(View(), beat) <==> old(Live(View(), beat))
    {
      var b := beats[beat];
      beats := beats[beat := b.(mode := Waiting, puts := b.puts + 1)];
    }

    /** Afterwards no heartbeat lives, and the next trigger latches. */
    method ResetBegin()
      requires Valid() && Enabled(View(), Event.ResetBegin)
      modifies this
      ensures Valid() && View() == Step(old(View()), Event.ResetBegin)
      ensures forall b :: !Live(View(), b)
      ensures !started
    {
      ghost var before := View();
      resetting, started := true, false;
      stopped := stopped + {current};
      latches, starts := 0, 0;
      forall b ensures !Live(View(), b) {
        if Live(before, b) { LiveMeansCurrent(before, b); }
      }
    }

    /** The event installed is new: no heartbeat has captured it, so none comes back to life. */
    method ResetEnd()
      requires Valid() && Enabled(View(), Event.ResetEnd)
      modifies this
      ensures Valid() && View() == Step(old(View()), Event.ResetEnd)
      ensures current !in stopped && forall b :: b in beats ==> beats[b].stop != current
      ensures forall b :: !Live(View(), b)
    {
      ghost var before := View();
      current := current + 1;
      resetting := false;
      forall b ensures !Live(View(), b) {
        if Live(before, b) { LiveMeansCurrent(before, b); }
      }
    }
  }
}
