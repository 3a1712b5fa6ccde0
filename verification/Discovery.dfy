/**
 The discovery cache as interleaved steps: lookups under the lock, refreshes on the first caller or on a
 background thread, and a publication that stores the two fields one after the other. `launches`, `inline`
 and `succeeded` record what happened since the last reset: when fetches were launched, how many of them ran
 inline, and what the successful ones returned. `returned` is what the successful ones ever returned, and
 `launched` when each refresh was launched.
 */
module Discovery {
  import opened Prelude

  const CACHE_SECONDS := 60.0

  datatype Fetched = Fetched(urls: map<string, string>, origins: set<string>)

  datatype Refresh = Fetching | Publishing(got: Fetched) | HalfPublished(got: Fetched) | Finished

  datatype State = State(
    now: real, expires: Option<real>, urls: map<string, string>, origins: set<string>,
    holder: Option<nat>, refreshes: map<nat, Refresh>,
    launches: seq<real>, inline: nat, succeeded: set<Fetched>, returned: set<Fetched>,
    launched: map<nat, real>)

  datatype Event =
    | Tick(seconds: real)
    | Lookup(id: nat)
    | FetchReturned(id: nat, got: Option<Fetched>)
    | PublishUrls(id: nat)
    | PublishOrigins(id: nat)
    | Reset

  function Initial(now: real): State {
    State(now, None, map[], {}, None, map[], [], 0, {}, {}, map[])
  }

  predicate Enabled(s: State, e: Event) {
    match e
    case Tick(seconds) => seconds >= 0.0
    case Lookup(id) => s.holder.None? && id !in s.refreshes
    case FetchReturned(id, _) => id in s.refreshes && s.refreshes[id].Fetching?
    case PublishUrls(id) => id in s.refreshes && s.refreshes[id].Publishing?
    case PublishOrigins(id) => id in s.refreshes && s.refreshes[id].HalfPublished?
    case Reset => s.holder.None?
  }

  /** A finished refresh gives the lock back if it ran inline. */
  function Finish(s: State, id: nat): State {
    s.(refreshes := s.refreshes[id := Finished], holder := if s.holder == Some(id) then None else s.holder)
  }

  function Launch(s: State, id: nat): State {
    s.(expires := Some(s.now + CACHE_SECONDS), refreshes := s.refreshes[id := Fetching],
    launches := s.launches + [s.now], launched := s.launched[id := s.now])
  }

  function Step(s: State, e: Event): State {
    if !Enabled(s, e) then s
    else
      match e
      case Tick(seconds) => s.(now := s.now + seconds)
      case Lookup(id) =>
        if s.expires.None? then Launch(s, id).(holder := Some(id), inline := s.inline + 1)
        else if s.now >= s.expires.value then Launch(s, id)
        else s
      case FetchReturned(id, got) =>
        if got.None? then Finish(s, id)
        else
          s.(refreshes := s.refreshes[id := Publishing(got.value)],
          succeeded := s.succeeded + {got.value}, returned := s.returned + {got.value})
      case PublishUrls(id) =>
        var got := s.refreshes[id].got;
        s.(urls := got.urls, refreshes := s.refreshes[id := HalfPublished(got)])
      case PublishOrigins(id) => Finish(s, id).(origins := s.refreshes[id].got.origins)
      case Reset => s.(expires := None, urls := map[], origins := {}, launches := [], inline := 0, succeeded := {})
  }

  predicate Launches(s: State, e: Event) {
    e.Lookup? && Enabled(s, e) && (s.expires.None? || s.now >= s.expires.value)
  }

  function Run(s: State, es: seq<Event>): State
    decreases |es|
  {
    if es == [] then s else Run(Step(s, es[0]), es[1..])
  }

  // ---- Spacing -----------------------------------------------------------------------------------

  predicate Spaced(launches: seq<real>) {
    forall i :: 1 <= i < |launches| ==> launches[i] >= launches[i - 1] + CACHE_SECONDS
  }

  predicate Paced(s: State) {
    && Spaced(s.launches)
    && s.expires == (if s.launches == [] then None else Some(s.launches[|s.launches| - 1] + CACHE_SECONDS))
    && s.inline == (if s.launches == [] then 0 else 1)
  }

  lemma SpacedAppend(launches: seq<real>, now: real)
    requires Spaced(launches) && (launches != [] ==> now >= launches[|launches| - 1] + CACHE_SECONDS)
    ensures Spaced(launches + [now])
  {}

  lemma StepKeepsPaced(s: State, e: Event)
    requires Paced(s)
    ensures Paced(Step(s, e))
  {
    if Launches(s, e) {
      SpacedAppend(s.launches, s.now);
      assert Step(s, e).launches == s.launches + [s.now];
    } else if !e.Reset? {
      assert Step(s, e).launches == s.launches && Step(s, e).inline == s.inline;
    }
  }

  /** A lookup launches inline the first time since a reset, later exactly if a cache period has passed. */
  ghost predicate LaunchesOnTime(s: State, s': State, id: nat) {
    && (s'.holder == Some(id) <==> s.launches == [])
    && (s'.launches == s.launches || s'.launches == s.launches + [s.now])
    && (if s'.launches == s.launches then s' == s else s'.refreshes == s.refreshes[id := Fetching])
    && (s.launches != [] ==>
          (s'.launches != s.launches <==> s.now >= s.launches[|s.launches| - 1] + CACHE_SECONDS))
  }

  lemma LookupIsOnTime(s: State, id: nat)
    requires Paced(s) && Enabled(s, Lookup(id))
    ensures LaunchesOnTime(s, Step(s, Lookup(id)), id)
  {}

  lemma {:induction false} RunKeepsPaced(s: State, es: seq<Event>)
    requires Paced(s)
    ensures Paced(Run(s, es))
    decreases |es|
  {
    if es != [] {
      StepKeepsPaced(s, es[0]);
      RunKeepsPaced(Step(s, es[0]), es[1..]);
    }
  }

  lemma {:induction false} SpacedSpan(launches: seq<real>, i: nat, j: nat)
    requires Spaced(launches) && i <= j < |launches|
    ensures launches[j] - launches[i] >= (j - i) as real * CACHE_SECONDS
  {
    if i < j { SpacedSpan(launches, i, j - 1); }
  }

  /**
   Since the last reset, in every interleaving: exactly one fetch ran inline if any was launched, and any
   n launches in a row span at least (n-1) cache periods.
   */
  lemma FetchesAreSpaced(now: real, es: seq<Event>, i: nat, j: nat)
    requires i <= j < |Run(Initial(now), es).launches|
    ensures var s := Run(Initial(now), es);
            s.inline == 1 && s.launches[j] - s.launches[i] >= (j - i) as real * CACHE_SECONDS
  {
    RunKeepsPaced(Initial(now), es);
    SpacedSpan(Run(Initial(now), es).launches, i, j);
  }

  // ---- Where the published fields come from --------------------------------------------------------

  predicate Carries(r: Refresh) {
    r.Publishing? || r.HalfPublished?
  }

  ghost predicate UrlsFrom(all: set<Fetched>, urls: map<string, string>) {
    urls == map[] || exists f :: f in all && f.urls == urls
  }

  ghost predicate OriginsFrom(all: set<Fetched>, origins: set<string>) {
    origins == {} || exists f :: f in all && f.origins == origins
  }

  /** Each published field is its initial empty value or one of those that `all` holds. */
  ghost predicate Known(s: State, all: set<Fetched>) {
    UrlsFrom(all, s.urls) && OriginsFrom(all, s.origins)
  }

  /** What a refresh still has to store is known too. */
  ghost predicate StoresKnown(r: Refresh, all: set<Fetched>) {
    && (r.Publishing? ==> UrlsFrom(all, r.got.urls) && OriginsFrom(all, r.got.origins))
    && (r.HalfPublished? ==> OriginsFrom(all, r.got.origins))
  }

  ghost predicate Sourced(s: State, all: set<Fetched>) {
    Known(s, all) && forall id :: id in s.refreshes ==> StoresKnown(s.refreshes[id], all)
  }

  lemma MoreIsKnown(f: Fetched, few: set<Fetched>, all: set<Fetched>)
    requires few <= all
    ensures UrlsFrom(few, f.urls) ==> UrlsFrom(all, f.urls)
    ensures OriginsFrom(few, f.origins) ==> OriginsFrom(all, f.origins)
  {}

  lemma SourcedInMore(s: State, few: set<Fetched>, all: set<Fetched>)
    requires Sourced(s, few) && few <= all
    ensures Sourced(s, all)
  {
    MoreIsKnown(Fetched(s.urls, s.origins), few, all);
    forall id | id in s.refreshes && Carries(s.refreshes[id])
      ensures StoresKnown(s.refreshes[id], all)
    {
      MoreIsKnown(s.refreshes[id].got, few, all);
    }
  }

  /** Every step keeps the fields known, a reset included, if what a fetch returns counts as known. */
  lemma StepKeepsSourced(s: State, e: Event, all: set<Fetched>)
    requires Sourced(s, all) && (e.FetchReturned? && e.got.Some? ==> e.got.value in all)
    ensures Sourced(Step(s, e), all)
  {}

  ghost predicate SourcedEver(s: State) {
    Sourced(s, s.returned)
  }

  lemma StepKeepsSourcedEver(s: State, e: Event)
    requires SourcedEver(s)
    ensures SourcedEver(Step(s, e))
  {
    if Enabled(s, e) {
      SourcedInMore(s, s.returned, Step(s, e).returned);
      StepKeepsSourced(s, e, Step(s, e).returned);
    }
  }

  lemma {:induction false} RunKeepsSourcedEver(s: State, es: seq<Event>)
    requires SourcedEver(s)
    ensures SourcedEver(Run(s, es))
    decreases |es|
  {
    if es != [] {
      StepKeepsSourcedEver(s, es[0]);
      RunKeepsSourcedEver(Step(s, es[0]), es[1..]);
    }
  }

  /** In every run, resets included, each published field is empty or what some successful fetch returned. */
  lemma FieldsComeFromFetches(now: real, es: seq<Event>)
    ensures Known(Run(Initial(now), es), Run(Initial(now), es).returned)
  {
    RunKeepsSourcedEver(Initial(now), es);
  }

  /** A refresh that nothing disturbs publishes what it fetched, both fields of it, and then gives the lock back. */
  lemma SuccessfulRefreshPublishes(s: State, id: nat, f: Fetched)
    requires id in s.refreshes && s.refreshes[id] == Fetching
    ensures var s' := Run(s, [FetchReturned(id, Some(f)), PublishUrls(id), PublishOrigins(id)]);
            && s'.urls == f.urls && s'.origins == f.origins
            && s'.refreshes == s.refreshes[id := Finished] && s'.expires == s.expires
            && s'.holder == (if s.holder == Some(id) then None else s.holder)
  {
    RunThree(s, [FetchReturned(id, Some(f)), PublishUrls(id), PublishOrigins(id)]);
  }

  /** A failed one ends with the fields as they were, and with the next fetch still due when it was. */
  lemma FailedRefreshEnds(s: State, id: nat)
    requires id in s.refreshes && s.refreshes[id] == Fetching
    ensures var s' := Step(s, FetchReturned(id, None));
            && s'.urls == s.urls && s'.origins == s.origins && s'.expires == s.expires
            && s'.refreshes == s.refreshes[id := Finished]
            && s'.holder == (if s.holder == Some(id) then None else s.holder)
  {}

  // ---- Resets that race a refresh --------------------------------------------------------------------

  predicate WithoutReset(es: seq<Event>) {
    forall i :: 0 <= i < |es| ==> !es[i].Reset?
  }

  /** Nothing that a refresh has fetched and not yet stored would show. */
  predicate NothingToStore(r: Refresh) {
    && (r.Publishing? ==> r.got.urls == map[] && r.got.origins == {})
    && (r.HalfPublished? ==> r.got.origins == {})
  }

  ghost predicate Settled(s: State) {
    forall id :: id in s.refreshes ==> NothingToStore(s.refreshes[id])
  }

  /** The fields stay within what was fetched since the reset, whatever happens until the next one. */
  ghost predicate ForgetsEarlier(s: State) {
    forall es :: WithoutReset(es) ==> Known(Run(s, es), Run(s, es).succeeded)
  }

  lemma {:induction false} RunKeepsSourcedSince(s: State, es: seq<Event>)
    requires Sourced(s, s.succeeded) && WithoutReset(es)
    ensures Sourced(Run(s, es), Run(s, es).succeeded)
    decreases |es|
  {
    if es != [] {
      var e := es[0];
      assert !e.Reset?;
      SourcedInMore(s, s.succeeded, Step(s, e).succeeded);
      if Enabled(s, e) { StepKeepsSourced(s, e, Step(s, e).succeeded); }
      assert WithoutReset(es[1..]);
      RunKeepsSourcedSince(Step(s, e), es[1..]);
    }
  }

  /** A refresh with something to store shows it after the reset. */
  lemma EarlierFetchShows(s: State, id: nat) returns (es: seq<Event>)
    requires Enabled(s, Reset) && id in s.refreshes && !NothingToStore(s.refreshes[id])
    ensures WithoutReset(es)
    ensures var s' := Run(Step(s, Reset), es); !Known(s', s'.succeeded)
  {
    var s0, r := Step(s, Reset), s.refreshes[id];
    if r.HalfPublished? {
      es := [PublishOrigins(id)];
      RunOne(s0, es[0]);
    } else if r.got.urls != map[] {
      es := [PublishUrls(id)];
      RunOne(s0, es[0]);
    } else {
      es := [PublishUrls(id), PublishOrigins(id)];
      assert es[1..] == [es[1]];
      RunOne(Step(s0, es[0]), es[1]);
    }
  }

  /**
   A reset makes the fields forget every earlier fetch exactly when no refresh has anything left to store:
   none that waits to publish holds urls or origins, and none that is half way holds origins.
   */
  lemma ResetForgetsExactly(s: State)
    requires Enabled(s, Reset)
    ensures ForgetsEarlier(Step(s, Reset)) <==> Settled(s)
  {
    var s0 := Step(s, Reset);
    if Settled(s) {
      forall id | id in s0.refreshes
        ensures StoresKnown(s0.refreshes[id], {})
      {
        assert NothingToStore(s.refreshes[id]);
      }
      forall es | WithoutReset(es)
        ensures Known(Run(s0, es), Run(s0, es).succeeded)
      {
        RunKeepsSourcedSince(s0, es);
      }
    } else {
      var id :| id in s.refreshes && !NothingToStore(s.refreshes[id]);
      var es := EarlierFetchShows(s, id);
    }
  }

  lemma RunOne(s: State, e: Event)
    ensures Run(s, [e]) == Step(s, e)
  {
    assert [e][1..] == [];
  }

  lemma RunThree(s: State, es: seq<Event>)
    requires |es| == 3
    ensures Run(s, es) == Step(Step(Step(s, es[0]), es[1]), es[2])
  {
    var s1 := Step(s, es[0]);
    var s2 := Step(s1, es[1]);
    var es1 := es[1..];
    var es2 := es1[1..];
    assert Run(s2, es2) == Step(s2, es[2]);
    assert Run(s1, es1) == Run(s2, es2);
  }

  lemma RunFour(s: State, es: seq<Event>)
    requires |es| == 4
    ensures Run(s, es) == Step(Step(Step(Step(s, es[0]), es[1]), es[2]), es[3])
  {
    RunThree(Step(s, es[0]), es[1..]);
  }

  lemma {:induction false} RunAppend(s: State, es: seq<Event>, fs: seq<Event>)
    ensures Run(s, es + fs) == Run(Run(s, es), fs)
    decreases |es|
  {
    if es == [] {
      assert [] + fs == fs;
    } else {
      assert (es + fs)[1..] == es[1..] + fs;
      RunAppend(Step(s, es[0]), es[1..], fs);
    }
  }

  /** The start of a process in which the first, inline, fetch fails and a cache period later `id` refreshes. */
  function Opening(id: nat): seq<Event> {
    [Lookup(0), FetchReturned(0, None), Tick(CACHE_SECONDS), Lookup(id)]
  }

  /** Two refreshes under way, the second one a cache period after the first. */
  lemma OpeningRuns(now: real, id: nat)
    requires id != 0
    ensures Run(Initial(now), Opening(id)) ==
            State(now + CACHE_SECONDS, Some(now + CACHE_SECONDS + CACHE_SECONDS), map[], {}, None,
                  map[0 := Finished, id := Fetching], [now, now + CACHE_SECONDS], 1, {}, {},
                  map[0 := now, id := now + CACHE_SECONDS])
  {
    var es := Opening(id);
    RunFour(Initial(now), es);
    var s2 := Step(Step(Initial(now), es[0]), es[1]);
    assert s2.refreshes == map[0 := Finished];
  }

  /** From the start: a reset between a background fetch's return and its publication shows the earlier fetch. */
  lemma StaleAfterRacingReset(now: real, f: Fetched)
    requires f.urls != map[]
    ensures var s := Run(Initial(now), Opening(1) + [FetchReturned(1, Some(f)), Reset, PublishUrls(1)]);
            s.urls == f.urls && s.succeeded == {}
  {
    var es := [FetchReturned(1, Some(f)), Reset, PublishUrls(1)];
    RunAppend(Initial(now), Opening(1), es);
    OpeningRuns(now, 1);
    var s := Run(Initial(now), Opening(1));
    RunThree(s, es);
  }

  /** A slow refresh that a later one overtakes, each having fetched. */
  function Overlap(a: Fetched, b: Fetched): seq<Event> {
    [Tick(CACHE_SECONDS), Lookup(2), FetchReturned(1, Some(a)), FetchReturned(2, Some(b))]
  }

  function Crossing(): seq<Event> {
    [PublishUrls(1), PublishUrls(2), PublishOrigins(2), PublishOrigins(1)]
  }

  lemma OverlapRuns(s: State, a: Fetched, b: Fetched)
    requires s.holder.None? && 1 in s.refreshes && s.refreshes[1] == Fetching && 2 !in s.refreshes
    requires s.expires == Some(s.now + CACHE_SECONDS)
    ensures var s' := Run(s, Overlap(a, b));
            s'.refreshes == s.refreshes[1 := Publishing(a)][2 := Publishing(b)]
  {
    RunFour(s, Overlap(a, b));
  }

  lemma CrossingRuns(s: State, a: Fetched, b: Fetched)
    requires 1 in s.refreshes && s.refreshes[1] == Publishing(a)
    requires 2 in s.refreshes && s.refreshes[2] == Publishing(b)
    ensures Run(s, Crossing()).urls == b.urls && Run(s, Crossing()).origins == a.origins
  {
    RunFour(s, Crossing());
  }

  /** From the start: two overlapping refreshes can leave the two fields from different fetches. */
  lemma FieldsCanComeFromDifferentFetches(now: real, a: Fetched, b: Fetched)
    ensures var s := Run(Initial(now), Opening(1) + (Overlap(a, b) + Crossing()));
            s.urls == b.urls && s.origins == a.origins
  {
    RunAppend(Initial(now), Opening(1), Overlap(a, b) + Crossing());
    OpeningRuns(now, 1);
    var s := Run(Initial(now), Opening(1));
    RunAppend(s, Overlap(a, b), Crossing());
    OverlapRuns(s, a, b);
    CrossingRuns(Run(s, Overlap(a, b)), a, b);
  }

  // ---- When both fields come from one fetch ----------------------------------------------------------

  /** A pair of fields that is empty or that one fetch returned. */
  predicate OneFetch(all: set<Fetched>, urls: map<string, string>, origins: set<string>) {
    (urls == map[] && origins == {}) || Fetched(urls, origins) in all
  }

  predicate Unfinished(s: State, id: nat) {
    id in s.refreshes && s.refreshes[id] != Finished
  }

  predicate HalfWay(s: State, id: nat) {
    id in s.refreshes && s.refreshes[id].HalfPublished?
  }

  ghost predicate Idle(s: State) {
    forall id :: !Unfinished(s, id)
  }

  /** No publication is half way. */
  ghost predicate AtRest(s: State) {
    forall id :: !HalfWay(s, id)
  }

  /**
   A launch joins no other refresh, and a reset meets no half-published one, unless what that one still has
   to store was fetched without urls.
   */
  ghost predicate KeepsApart(s: State, e: Event) {
    && (Launches(s, e) ==> Idle(s))
    && (e.Reset? && Enabled(s, e) ==>
          forall id :: HalfWay(s, id) ==> OneFetch(s.returned, map[], s.refreshes[id].got.origins))
  }

  ghost predicate Apart(s: State, es: seq<Event>)
    decreases |es|
  {
    es != [] ==> KeepsApart(s, es[0]) && Apart(Step(s, es[0]), es[1..])
  }

  /** One refresh at a time, and the pair is whole, or will be once that refresh has stored the origins. */
  ghost predicate Whole(s: State) {
    && (forall a, b :: Unfinished(s, a) && Unfinished(s, b) ==> a == b)
    && (forall id :: id in s.refreshes && s.refreshes[id].Publishing? ==> s.refreshes[id].got in s.returned)
    && (forall id :: HalfWay(s, id) ==> OneFetch(s.returned, s.urls, s.refreshes[id].got.origins))
    && (AtRest(s) ==> OneFetch(s.returned, s.urls, s.origins))
  }

  lemma StepKeepsOne(s: State, e: Event)
    requires Whole(s) && KeepsApart(s, e)
    ensures forall a, b :: Unfinished(Step(s, e), a) && Unfinished(Step(s, e), b) ==> a == b
  {
    forall id | Unfinished(Step(s, e), id)
      ensures Unfinished(s, id) || (Launches(s, e) && id == e.id)
    {}
  }

  lemma StepKeepsHalves(s: State, e: Event, id: nat)
    requires Whole(s) && KeepsApart(s, e) && HalfWay(Step(s, e), id)
    ensures var s' := Step(s, e); OneFetch(s'.returned, s'.urls, s'.refreshes[id].got.origins)
  {
    if Enabled(s, e) && e.PublishUrls? { assert Unfinished(s, e.id); }
    if HalfWay(s, id) { assert Unfinished(s, id); }
  }

  /** The first store leads half way, and the second one starts there. */
  lemma StoresMeetHalfWay(s: State, e: Event)
    requires Enabled(s, e)
    ensures e.PublishUrls? ==> HalfWay(Step(s, e), e.id)
    ensures e.PublishOrigins? ==> HalfWay(s, e.id)
  {}

  lemma StepKeepsPair(s: State, e: Event)
    requires Whole(s) && KeepsApart(s, e) && AtRest(Step(s, e))
    ensures var s' := Step(s, e); OneFetch(s'.returned, s'.urls, s'.origins)
  {
    var s' := Step(s, e);
    if Enabled(s, e) { StoresMeetHalfWay(s, e); }
    if !AtRest(s) {
      var id :| HalfWay(s, id);
      assert !HalfWay(s', id) && e == PublishOrigins(id);
    }
  }

  lemma StepKeepsWhole(s: State, e: Event)
    requires Whole(s) && KeepsApart(s, e)
    ensures Whole(Step(s, e))
  {
    var s' := Step(s, e);
    StepKeepsOne(s, e);
    forall id | HalfWay(s', id)
      ensures OneFetch(s'.returned, s'.urls, s'.refreshes[id].got.origins)
    {
      StepKeepsHalves(s, e, id);
    }
    if AtRest(s') { StepKeepsPair(s, e); }
  }

  lemma {:induction false} RunKeepsWhole(s: State, es: seq<Event>)
    requires Whole(s) && Apart(s, es)
    ensures Whole(Run(s, es))
    decreases |es|
  {
    if es != [] {
      StepKeepsWhole(s, es[0]);
      RunKeepsWhole(Step(s, es[0]), es[1..]);
    }
  }

  /** In every run that keeps refreshes apart, both fields come from one fetch whenever no publication is half way. */
  lemma ApartFetchesStayWhole(now: real, es: seq<Event>)
    requires Apart(Initial(now), es)
    ensures var s := Run(Initial(now), es); AtRest(s) ==> OneFetch(s.returned, s.urls, s.origins)
  {
    RunKeepsWhole(Initial(now), es);
  }

  /** However a run goes on that keeps refreshes apart from here, its fields come from one fetch when at rest. */
  ghost predicate StaysWhole(s: State) {
    forall es :: Apart(s, es) && AtRest(Run(s, es)) ==>
                   var s' := Run(s, es); OneFetch(s'.returned, s'.urls, s'.origins)
  }

  /** The condition is exact, step by step: a step that breaks it can be followed to a mixed pair. */
  lemma StaysWholeExactly(s: State, e: Event)
    requires Whole(s)
    ensures StaysWhole(Step(s, e)) <==> KeepsApart(s, e)
  {
    if KeepsApart(s, e) {
      StepKeepsWhole(s, e);
      forall es | Apart(Step(s, e), es) && AtRest(Run(Step(s, e), es))
        ensures var s' := Run(Step(s, e), es); OneFetch(s'.returned, s'.urls, s'.origins)
      {
        RunKeepsWhole(Step(s, e), es);
      }
    } else if e.Reset? {
      var id :| HalfWay(s, id) && !OneFetch(s.returned, map[], s.refreshes[id].got.origins);
      ResetMixes(s, id);
    } else {
      var id :| Unfinished(s, id);
      var es := LaunchMixes(s, id, e.id);
    }
  }

  predicate NeitherStarts(es: seq<Event>) {
    forall i :: 0 <= i < |es| ==> !es[i].Lookup? && !es[i].Reset?
  }

  lemma {:induction false} NothingStarted(s: State, es: seq<Event>)
    requires NeitherStarts(es)
    ensures Apart(s, es)
    decreases |es|
  {
    if es != [] {
      assert !es[0].Lookup? && !es[0].Reset?;
      assert NeitherStarts(es[1..]);
      NothingStarted(Step(s, es[0]), es[1..]);
    }
  }

  ghost predicate Mixes(s: State, es: seq<Event>) {
    var s' := Run(s, es);
    NeitherStarts(es) && AtRest(s') && !OneFetch(s'.returned, s'.urls, s'.origins)
  }

  /** A reset between the two stores of a publication leaves its origins without their urls. */
  lemma ResetMixes(s: State, id: nat)
    requires Whole(s) && Enabled(s, Reset) && HalfWay(s, id)
    requires !OneFetch(s.returned, map[], s.refreshes[id].got.origins)
    ensures !StaysWhole(Step(s, Reset))
  {
    var es := [PublishOrigins(id)];
    RunOne(Step(s, Reset), es[0]);
    forall other ensures !HalfWay(Run(Step(s, Reset), es), other) {
      if HalfWay(s, other) { assert Unfinished(s, other) && Unfinished(s, id); }
    }
    NothingStarted(Step(s, Reset), es);
  }

  /** Bring an unfinished refresh to the point between its two stores, by a fetch of nothing if need be. */
  function ToHalfWay(r: Refresh, id: nat): seq<Event> {
    match r
    case Fetching => [FetchReturned(id, Some(Fetched(map[], {}))), PublishUrls(id)]
    case Publishing(_) => [PublishUrls(id)]
    case _ => []
  }

  /** What is not yet fetched decides the rest: `returned` may grow by the empty fetch and nothing else. */
  lemma HalfWayReached(s: State, id: nat)
    requires Unfinished(s, id)
    ensures var s' := Run(s, ToHalfWay(s.refreshes[id], id));
            && HalfWay(s', id) && s'.refreshes == s.refreshes[id := s'.refreshes[id]]
            && s'.returned <= s.returned + {Fetched(map[], {})}
  {
    var es := ToHalfWay(s.refreshes[id], id);
    match s.refreshes[id]
    case Fetching =>
      assert es[1..] == [es[1]];
      RunOne(Step(s, es[0]), es[1]);
    case Publishing(_) => RunOne(s, es[0]);
    case HalfPublished(_) =>
  }

  function Overtaking(p: nat, q: nat, b: Fetched): seq<Event> {
    [FetchReturned(q, Some(b)), PublishUrls(q), PublishOrigins(q), PublishOrigins(p)]
  }

  lemma OvertakingEnds(s: State, p: nat, q: nat, b: Fetched)
    requires p != q && HalfWay(s, p) && q in s.refreshes && s.refreshes[q] == Fetching
    ensures var s' := Run(s, Overtaking(p, q, b));
            && s'.urls == b.urls && s'.origins == s.refreshes[p].got.origins
            && s'.returned == s.returned + {b} && s'.refreshes == s.refreshes[q := Finished][p := Finished]
  {
    RunFour(s, Overtaking(p, q, b));
  }

  lemma OvertakenMixes(s: State, p: nat, q: nat, b: Fetched)
    requires p != q && HalfWay(s, p) && q in s.refreshes && s.refreshes[q] == Fetching
    requires forall id :: HalfWay(s, id) ==> id == p
    requires b.urls != map[] && b.origins != s.refreshes[p].got.origins
    requires forall f :: f in s.returned ==> f.urls != b.urls
    ensures Mixes(s, Overtaking(p, q, b))
  {
    OvertakingEnds(s, p, q, b);
    var s' := Run(s, Overtaking(p, q, b));
    forall id ensures !HalfWay(s', id) {
      if HalfWay(s', id) { assert HalfWay(s, id); }
    }
  }

  function Name(n: nat): string {
    seq(n, i => 'a')
  }

  /** Some single-entry map is new to a finite set of fetches, and so are all with a longer name. */
  lemma {:induction false} NewUrls(all: set<Fetched>) returns (n: nat)
    ensures forall m: nat, f :: n <= m && f in all ==> f.urls != map[Name(m) := ""]
    decreases |all|
  {
    n := 0;
    if all != {} {
      var f :| f in all;
      n := NewUrls(all - {f});
      if k: nat :| n <= k && f.urls == map[Name(k) := ""] {
        forall m: nat | k < m ensures f.urls != map[Name(m) := ""] {
          assert |Name(k)| == k && |Name(m)| == m;
          assert Name(k) in f.urls && Name(m) !in map[Name(k) := ""];
        }
        n := k + 1;
      }
    }
  }

  /** A refresh launched beside an unfinished one can overtake it between its two stores. */
  lemma LaunchMixes(s: State, p: nat, q: nat) returns (es: seq<Event>)
    requires Whole(s) && Launches(s, Lookup(q)) && Unfinished(s, p)
    ensures Mixes(Step(s, Lookup(q)), es) && Apart(Step(s, Lookup(q)), es)
  {
    var s1 := Step(s, Lookup(q));
    var half := ToHalfWay(s1.refreshes[p], p);
    HalfWayReached(s1, p);
    var s2 := Run(s1, half);
    var n := NewUrls(s2.returned);
    var b := Fetched(map[Name(n) := ""], if s2.refreshes[p].got.origins == {} then {"b"} else {});
    assert Name(n) in b.urls;
    forall id | HalfWay(s2, id) ensures id == p {
      if id != p { assert Unfinished(s, id); }
    }
    OvertakenMixes(s2, p, q, b);
    es := half + Overtaking(p, q, b);
    RunAppend(s1, half, Overtaking(p, q, b));
    NothingStarted(s1, es);
  }

  /** Every refresh that has not finished was launched less than a cache period ago. */
  ghost predicate InTime(s: State) {
    forall id :: Unfinished(s, id) ==> id in s.launched && s.now < s.launched[id] + CACHE_SECONDS
  }

  /** Every refresh ends within a cache period of its launch, and resets find none under way. */
  ghost predicate Prompt(s: State, es: seq<Event>)
    decreases |es|
  {
    && InTime(s)
    && (es != [] ==> (es[0].Reset? && Enabled(s, es[0]) ==> Idle(s)) && Prompt(Step(s, es[0]), es[1..]))
  }

  /** The next launch is due a cache period after that of the refresh under way. */
  ghost predicate Due(s: State) {
    forall id :: Unfinished(s, id) ==> id in s.launched && s.expires == Some(s.launched[id] + CACHE_SECONDS)
  }

  lemma PromptStep(s: State, e: Event)
    requires Due(s) && InTime(s) && (e.Reset? && Enabled(s, e) ==> Idle(s))
    ensures KeepsApart(s, e) && Due(Step(s, e))
  {
    forall id | HalfWay(s, id) ensures Unfinished(s, id) {}
    forall id | Unfinished(Step(s, e), id)
      ensures Unfinished(s, id) || (Launches(s, e) && id == e.id)
    {}
  }

  lemma {:induction false} PromptIsApart(s: State, es: seq<Event>)
    requires Due(s) && Prompt(s, es)
    ensures Apart(s, es)
    decreases |es|
  {
    if es != [] {
      PromptStep(s, es[0]);
      PromptIsApart(Step(s, es[0]), es[1..]);
    }
  }

  /** Refreshes that end within a cache period of their launch never overlap, so both fields come from one fetch. */
  lemma PromptFetchesStayWhole(now: real, es: seq<Event>)
    requires Prompt(Initial(now), es)
    ensures var s := Run(Initial(now), es); AtRest(s) ==> OneFetch(s.returned, s.urls, s.origins)
  {
    PromptIsApart(Initial(now), es);
    ApartFetchesStayWhole(now, es);
  }

  // ---- Outages ---------------------------------------------------------------------------------------

  predicate Outage(es: seq<Event>) {
    forall i :: 0 <= i < |es| ==> !es[i].Reset? && (es[i].FetchReturned? ==> es[i].got.None?)
  }

  ghost predicate NonePublishing(s: State) {
    forall id :: id in s.refreshes ==> !Carries(s.refreshes[id])
  }

  /** While every fetch fails, both fields keep their last known values, however many refreshes are tried. */
  lemma {:induction false} OutageKeepsFields(s: State, es: seq<Event>)
    requires NonePublishing(s) && Outage(es)
    ensures Run(s, es).urls == s.urls && Run(s, es).origins == s.origins && NonePublishing(Run(s, es))
    decreases |es|
  {
    if es != [] {
      assert !es[0].Reset? && (es[0].FetchReturned? ==> es[0].got.None?);
      assert Outage(es[1..]);
      OutageKeepsFields(Step(s, es[0]), es[1..]);
    }
  }

  // ---- The module's state ----------------------------------------------------------------------------

  class Cache {
    var now: real
    var expires: Option<real>
    var urls: map<string, string>
    var origins: set<string>
    var holder: Option<nat>
    var refreshes: map<nat, Refresh>
    ghost var launches: seq<real>
    ghost var inline: nat
    ghost var succeeded: set<Fetched>
    ghost var returned: set<Fetched>
    ghost var launched: map<nat, real>

    ghost function View(): State
      reads this
    {
      State(now, expires, urls, origins, holder, refreshes, launches, inline, succeeded, returned, launched)
    }

    /** Launches are paced, and whatever is or will be published came from a fetch. */
    ghost predicate Valid()
      reads this
    {
      Paced(View()) && SourcedEver(View())
    }

    constructor (now: real)
      ensures Valid() && View() == Initial(now)
    {
      this.now := now;
      expires, urls, origins, holder, refreshes := None, map[], {}, None, map[];
      launches, inline, succeeded, returned, launched := [], 0, {}, {}, map[];
    }

    /**
     The locked part of `_current`: only the first lookup since a reset refreshes on its own thread, and one
     that launches another refresh comes at least a cache period after the launch before it.
     */
    method Lookup(id: nat)
      requires Valid() && Enabled(View(), Event.Lookup(id))
      modifies this
      ensures Valid() && View() == Step(old(View()), Event.Lookup(id))
      ensures LaunchesOnTime(old(View()), View(), id)
    {
      ghost var before := View();
      if expires.None? {
        expires := Some(now + CACHE_SECONDS);
        launches, inline, launched := launches + [now], inline + 1, launched[id := now];
        holder := Some(id);
        refreshes := refreshes[id := Fetching];
      } else if now >= expires.value {
        expires := Some(now + CACHE_SECONDS);
        launches, launched := launches + [now], launched[id := now];
        refreshes := refreshes[id := Fetching];
      }
      assert View() == Step(before, Event.Lookup(id));
      StepKeepsValid(before, Event.Lookup(id));
      LookupIsOnTime(before, id);
    }

    /** A fetch that fails changes neither field; one that succeeds is still to be published. */
    method FetchReturned(id: nat, got: Option<Fetched>)
      requires Valid() && Enabled(View(), Event.FetchReturned(id, got))
      modifies this
      ensures Valid() && View() == Step(old(View()), Event.FetchReturned(id, got))
      ensures urls == old(urls) && origins == old(origins)
    {
      ghost var before := View();
      if got.None? {
        Release(id);
      } else {
        refreshes := refreshes[id := Publishing(got.value)];
        succeeded, returned := succeeded + {got.value}, returned + {got.value};
      }
      assert View() == Step(before, Event.FetchReturned(id, got));
      StepKeepsValid(before, Event.FetchReturned(id, got));
    }

    method Release(id: nat)
      modifies this`refreshes, this`holder
      ensures View() == Finish(old(View()), id)
    {
      refreshes := refreshes[id := Finished];
      if holder == Some(id) {
        holder := None;
      }
    }

    /** The two stores of a publication: whatever happens between them, each one stores what was fetched. */
    method PublishUrls(id: nat)
      requires Valid() && Enabled(View(), Event.PublishUrls(id))
      modifies this
      ensures Valid() && View() == Step(old(View()), Event.PublishUrls(id))
      ensures UrlsFrom(returned, urls) && origins == old(origins)
    {
      ghost var before := View();
      var got := refreshes[id].got;
      urls := got.urls;
      refreshes := refreshes[id := HalfPublished(got)];
      assert View() == Step(before, Event.PublishUrls(id));
      StepKeepsValid(before, Event.PublishUrls(id));
    }

    method PublishOrigins(id: nat)
      requires Valid() && Enabled(View(), Event.PublishOrigins(id))
      modifies this
      ensures Valid() && View() == Step(old(View()), Event.PublishOrigins(id))
      ensures OriginsFrom(returned, origins) && urls == old(urls) && holder != Some(id)
    {
      ghost var before := View();
      origins := refreshes[id].got.origins;
      Release(id);
      assert View() == Step(before, Event.PublishOrigins(id));
      StepKeepsValid(before, Event.PublishOrigins(id));
    }

    /** Both fields are empty afterwards, and stay clear of earlier fetches exactly if nothing was left to store. */
    method Reset()
      requires Valid() && Enabled(View(), Event.Reset)
      modifies this
      ensures Valid() && View() == Step(old(View()), Event.Reset)
      ensures ForgetsEarlier(View()) <==> old(Settled(View()))
    {
      ghost var before := View();
      expires, urls, origins := None, map[], {};
      launches, inline, succeeded := [], 0, {};
      assert View() == Step(before, Event.Reset);
      StepKeepsValid(before, Event.Reset);
      ResetForgetsExactly(before);
    }
  }

  lemma StepKeepsValid(s: State, e: Event)
    requires Paced(s) && SourcedEver(s)
    ensures Paced(Step(s, e)) && SourcedEver(Step(s, e))
  {
    StepKeepsPaced(s, e);
    StepKeepsSourcedEver(s, e);
  }
}
