/**
 The event filters: the walk along an exception's cause and context links, which may form a cycle; the
 combinator that composes filters; and the rules that pin an event's fingerprint.
 */
module SentryFilters {
  import opened Prelude

  // ---- The exception chain ----------------------------------------------------------------------------

  /** An exception object: its rendered text and its links to other objects. */
  datatype Node = Node(text: string, cause: Option<nat>, context: Option<nat>)

  type Graph = map<nat, Node>

  predicate LinksIn(g: Graph, id: nat)
    requires id in g
  {
    && (g[id].cause.Some? ==> g[id].cause.value in g)
    && (g[id].context.Some? ==> g[id].context.value in g)
  }

  /** Every link leads to an object. */
  ghost predicate Closed(g: Graph) {
    forall id {:trigger LinksIn(g, id)} :: id in g ==> LinksIn(g, id)
  }

  /** The exception a node leads to: its cause, and failing that its context. */
  function Next(g: Graph, id: nat): (next: Option<nat>)
    requires Closed(g) && id in g
    ensures next.Some? ==> next.value in g
  {
    assert LinksIn(g, id);
    if g[id].cause.Some? then g[id].cause else g[id].context
  }

  /** The n-th exception of the chain, which ends or goes on for ever. */
  ghost function ChainAt(g: Graph, start: Option<nat>, n: nat): (id: Option<nat>)
    requires Closed(g) && (start.Some? ==> start.value in g)
    ensures id.Some? ==> id.value in g
  {
    if n == 0 then start
    else
      var before := ChainAt(g, start, n - 1);
      if before.None? then None else Next(g, before.value)
  }

  /** The chain's first objects are `ids`. */
  ghost predicate Follows(g: Graph, start: Option<nat>, ids: seq<nat>)
    requires Closed(g) && (start.Some? ==> start.value in g)
  {
    forall i :: 0 <= i < |ids| ==> ChainAt(g, start, i) == Some(ids[i])
  }

  predicate Distinct(ids: seq<nat>) {
    forall i, j :: 0 <= i < j < |ids| ==> ids[i] != ids[j]
  }

  /** The chain's first objects are `ids`, all different, all in the graph. */
  ghost predicate Walked(g: Graph, start: Option<nat>, ids: seq<nat>)
    requires Closed(g) && (start.Some? ==> start.value in g)
  {
    Follows(g, start, ids) && Distinct(ids) && forall id :: id in ids ==> id in g
  }

  predicate Renders(g: Graph, ids: seq<nat>, out: seq<string>) {
    |out| == |ids| && forall i :: 0 <= i < |ids| ==> ids[i] in g && out[i] == g[ids[i]].text
  }

  lemma WalkedOneMore(g: Graph, start: Option<nat>, ids: seq<nat>, id: nat)
    requires Closed(g) && (start.Some? ==> start.value in g)
    requires Walked(g, start, ids) && ChainAt(g, start, |ids|) == Some(id) && id !in ids
    ensures Walked(g, start, ids + [id])
    ensures id in g && ChainAt(g, start, |ids| + 1) == Next(g, id)
  {
    var more := ids + [id];
    forall i | 0 <= i < |more| ensures ChainAt(g, start, i) == Some(more[i]) {
      if i < |ids| { assert more[i] == ids[i]; }
    }
  }

  lemma RendersOneMore(g: Graph, ids: seq<nat>, out: seq<string>, id: nat)
    requires Renders(g, ids, out) && id in g
    ensures Renders(g, ids + [id], out + [g[id].text])
  {}

  /** The walk ends on every finite graph, at the chain's end or at its first repeated object. */
  method ExceptionChainText(g: Graph, start: Option<nat>) returns (out: seq<string>, ghost ids: seq<nat>)
    requires Closed(g) && (start.Some? ==> start.value in g)
    ensures Walked(g, start, ids) && Renders(g, ids, out)
    ensures var next := ChainAt(g, start, |ids|); next.None? || next.value in ids
  {
    out, ids := [], [];
    var seen: set<nat> := {};
    var current := start;
    while current.Some? && current.value !in seen
      invariant current == ChainAt(g, start, |ids|)
      invariant seen == set id | id in ids
      invariant Walked(g, start, ids) && Renders(g, ids, out)
      decreases g.Keys - seen
    {
      var id := current.value;
      WalkedOneMore(g, start, ids, id);
      RendersOneMore(g, ids, out, id);
      var node := g[id];
      seen := seen + {id};
      out := out + [node.text];
      ids := ids + [id];
      current := if node.cause.Some? then node.cause else node.context;
    }
  }

  /** Each object of the walk is the cause of the one before, or its context if that has no cause. */
  lemma LinkedAlongCauses(g: Graph, start: Option<nat>, ids: seq<nat>, i: nat)
    requires Closed(g) && (start.Some? ==> start.value in g)
    requires Walked(g, start, ids) && i < |ids|
    ensures ids[i] in g && start == Some(ids[0])
    ensures var node := g[ids[i]];
            var next := ChainAt(g, start, i + 1);
            && (i + 1 < |ids| ==> next == Some(ids[i + 1]))
            && (node.cause.Some? ==> next == node.cause)
            && (node.cause.None? ==> next == node.context)
  {
    assert ChainAt(g, start, 0) == Some(ids[0]);
    assert ChainAt(g, start, i) == Some(ids[i]);
    if i + 1 < |ids| { assert ChainAt(g, start, i + 1) == Some(ids[i + 1]); }
  }

  /** The chain's first n objects exist and are pairwise different. */
  ghost predicate RepeatFree(g: Graph, start: Option<nat>, n: nat)
    requires Closed(g) && (start.Some? ==> start.value in g)
  {
    exists ids: seq<nat> :: |ids| == n && Follows(g, start, ids) && Distinct(ids)
  }

  /** What the walk returns is the longest repeat-free prefix of the chain, and no longer than the graph. */
  lemma WalkIsLongestRepeatFree(g: Graph, start: Option<nat>, ids: seq<nat>, n: nat)
    requires Closed(g) && (start.Some? ==> start.value in g)
    requires Walked(g, start, ids)
    requires var next := ChainAt(g, start, |ids|); next.None? || next.value in ids
    ensures RepeatFree(g, start, n) <==> n <= |ids|
    ensures |ids| <= |g|
  {
    DistinctFit(ids, g.Keys);
    if n <= |ids| {
      assert Follows(g, start, ids[..n]) && Distinct(ids[..n]);
    } else {
      forall longer: seq<nat> | |longer| == n && Follows(g, start, longer)
        ensures !Distinct(longer)
      {
        RepeatFoundAgain(g, start, ids, longer);
      }
    }
  }

  lemma RepeatFoundAgain(g: Graph, start: Option<nat>, ids: seq<nat>, longer: seq<nat>)
    requires Closed(g) && (start.Some? ==> start.value in g)
    requires Follows(g, start, ids) && Follows(g, start, longer) && |longer| > |ids|
    requires var next := ChainAt(g, start, |ids|); next.None? || next.value in ids
    ensures !Distinct(longer)
  {
    var k := |ids|;
    assert ChainAt(g, start, k) == Some(longer[k]);
    var i :| 0 <= i < k && ids[i] == longer[k];
    assert ChainAt(g, start, i) == Some(longer[i]) == Some(ids[i]);
  }

  lemma {:induction false} DistinctFit(ids: seq<nat>, all: set<nat>)
    requires Distinct(ids) && forall id :: id in ids ==> id in all
    ensures |ids| <= |all|
    decreases |ids|
  {
    if ids != [] {
      var rest, last := ids[..|ids| - 1], ids[|ids| - 1];
      assert |all - {last}| == |all| - 1;
      DistinctFit(rest, all - {last});
    }
  }

  // ---- Composing filters ----------------------------------------------------------------------------

  /** `text` is every place a message may stand, joined; a fingerprint of [] is none. */
  datatype Event = Event(mapping: bool, text: string, fingerprint: seq<string>)

  /** A filter keeps an event (perhaps another one), drops it, or raises with the event as it left it. */
  datatype Outcome = Keep(event: Event) | Drop | Raise(event: Event)

  type Filter = Event -> Outcome

  function Chain(filters: seq<Filter>, e: Event): (r: Outcome)
    ensures !r.Raise?
  {
    if filters == [] then Keep(e)
    else
      match filters[0](e)
      case Keep(e') => Chain(filters[1..], e')
      case Drop => Drop
      case Raise(e') => Chain(filters[1..], e')
  }

  method RunChain(filters: seq<Filter>, e: Event) returns (r: Outcome)
    ensures r == Chain(filters, e)
  {
    var current := e;
    for i := 0 to |filters|
      invariant Chain(filters, e) == Chain(filters[i..], current)
    {
      assert filters[i..][1..] == filters[i + 1..];
      match filters[i](current) {
        case Raise(event) => current := event;
        case Drop => return Drop;
        case Keep(event) => current := event;
      }
    }
    r := Keep(current);
  }

  /** `events` are what the first filters hand on: each one kept, or left behind by a filter that raised. */
  predicate HandsOn(filters: seq<Filter>, events: seq<Event>) {
    && 1 <= |events| <= |filters| + 1
    && forall i :: 0 <= i < |events| - 1 ==> filters[i](events[i]) in {Keep(events[i + 1]), Raise(events[i + 1])}
  }

  /** A chain passes every filter the event the one before handed on, a raising one included; the first drop ends it. */
  lemma {:induction false} ChainRuns(filters: seq<Filter>, e: Event) returns (events: seq<Event>)
    ensures HandsOn(filters, events) && events[0] == e
    ensures var last := events[|events| - 1];
            || (|events| == |filters| + 1 && Chain(filters, e) == Keep(last))
            || (|events| <= |filters| && filters[|events| - 1](last) == Drop && Chain(filters, e) == Drop)
    decreases |filters|
  {
    events := [e];
    if filters != [] && !filters[0](e).Drop? {
      var rest := ChainRuns(filters[1..], filters[0](e).event);
      events := [e] + rest;
      forall i | 0 <= i < |events| - 1
        ensures filters[i](events[i]) in {Keep(events[i + 1]), Raise(events[i + 1])}
      {
        if i > 0 { assert filters[1..][i - 1] == filters[i] && events[i] == rest[i - 1]; }
      }
    }
  }

  /** Filters as they are written down: chains may be used as filters of other chains. */
  datatype Tree = One(filter: Filter) | Nested(members: seq<Tree>)

  /** The filter a tree builds, by calling `chain` on its members' filters. */
  function Build(t: Tree): Filter
    decreases t, 0
  {
    match t
    case One(f) => f
    case Nested(members) =>
      var filters := BuildAll(members);
      (e: Event) => Chain(filters, e)
  }

  function BuildAll(ts: seq<Tree>): seq<Filter>
    decreases ts, 1
  {
    if ts == [] then [] else [Build(ts[0])] + BuildAll(ts[1..])
  }

  function Flatten(t: Tree): seq<Filter>
    decreases t, 0
  {
    match t
    case One(f) => [f]
    case Nested(members) => FlattenAll(members)
  }

  function FlattenAll(ts: seq<Tree>): seq<Filter>
    decreases ts, 1
  {
    if ts == [] then [] else Flatten(ts[0]) + FlattenAll(ts[1..])
  }

  lemma {:induction false} ChainConcat(fs: seq<Filter>, gs: seq<Filter>, e: Event)
    ensures Chain(fs + gs, e) == if Chain(fs, e).Drop? then Drop else Chain(gs, Chain(fs, e).event)
    decreases |fs|
  {
    if fs == [] {
      assert fs + gs == gs;
    } else {
      assert (fs + gs)[1..] == fs[1..] + gs;
      match fs[0](e)
      case Keep(e') => ChainConcat(fs[1..], gs, e');
      case Drop =>
      case Raise(e') => ChainConcat(fs[1..], gs, e');
    }
  }

  lemma {:induction false} MembersFlatten(ts: seq<Tree>, e: Event)
    ensures Chain(BuildAll(ts), e) == Chain(FlattenAll(ts), e)
    decreases ts, 1
  {
    if ts != [] {
      var first, rest := Build(ts[0]), BuildAll(ts[1..]);
      assert BuildAll(ts) == [first] + rest;
      ChainConcat([first], rest, e);
      ChainConcat(Flatten(ts[0]), FlattenAll(ts[1..]), e);
      FirstFlattens(ts[0], e);
      if !Chain([first], e).Drop? { MembersFlatten(ts[1..], Chain([first], e).event); }
    }
  }

  lemma {:induction false} FirstFlattens(t: Tree, e: Event)
    ensures Chain([Build(t)], e) == Chain(Flatten(t), e)
    decreases t, 0
  {
    assert [Build(t)][1..] == [];
    if t.Nested? {
      MembersFlatten(t.members, e);
      assert Build(t)(e) == Chain(BuildAll(t.members), e);
    }
  }

  /** However chains are nested, and whichever filters raise, the result is that of the flat list. */
  lemma NestedChainsFlatten(ts: seq<Tree>, e: Event)
    ensures Chain(BuildAll(ts), e) == Chain(FlattenAll(ts), e)
  {
    MembersFlatten(ts, e);
  }

  // ---- Fingerprint rules ------------------------------------------------------------------------------

  datatype Rule = Rule(signatures: seq<string>, fingerprint: seq<string>)

  predicate StandsAt(text: string, part: string, i: nat) {
    i + |part| <= |text| && text[i..i + |part|] == part
  }

  predicate Contains(text: string, part: string) {
    exists i :: 0 <= i <= |text| && StandsAt(text, part, i)
  }

  predicate Matches(r: Rule, e: Event) {
    exists s :: s in r.signatures && Contains(e.text, s)
  }

  /** A rule matches when any of its signatures stands anywhere in the event's text. */
  lemma MatchesExactly(r: Rule, e: Event)
    ensures Matches(r, e) <==>
            exists part, before, after :: part in r.signatures && e.text == before + part + after
  {
    if Matches(r, e) {
      var part :| part in r.signatures && Contains(e.text, part);
      var i :| 0 <= i <= |e.text| && StandsAt(e.text, part, i);
      assert e.text == e.text[..i] + part + e.text[i + |part|..];
    }
    if part, before, after :| part in r.signatures && e.text == before + part + after {
      assert StandsAt(e.text, part, |before|);
    }
  }

  function FingerprintMatching(r: Rule): Filter {
    (e: Event) =>
      if !e.mapping || e.fingerprint != [] then Keep(e)
      else if Matches(r, e) then Keep(e.(fingerprint := r.fingerprint))
      else Keep(e)
  }

  function RuleFilters(rules: seq<Rule>): seq<Filter> {
    seq(|rules|, i requires 0 <= i < |rules| => FingerprintMatching(rules[i]))
  }

  /** The index of the first rule that matches and has a fingerprint to give. */
  predicate Decides(rules: seq<Rule>, e: Event, k: nat) {
    && k < |rules| && Matches(rules[k], e) && rules[k].fingerprint != []
    && forall i :: 0 <= i < k ==> !(Matches(rules[i], e) && rules[i].fingerprint != [])
  }

  lemma {:induction false} RulesAgree(rules: seq<Rule>, e: Event)
    ensures Chain(RuleFilters(rules), e).Keep?
    ensures !e.mapping || e.fingerprint != [] ==> Chain(RuleFilters(rules), e) == Keep(e)
    ensures forall k: nat :: e.mapping && e.fingerprint == [] && Decides(rules, e, k) ==>
                               Chain(RuleFilters(rules), e) == Keep(e.(fingerprint := rules[k].fingerprint))
    ensures (forall k: nat :: !Decides(rules, e, k)) ==> Chain(RuleFilters(rules), e) == Keep(e)
    decreases |rules|
  {
    if rules != [] {
      var rest := rules[1..];
      assert RuleFilters(rules)[1..] == RuleFilters(rest);
      assert RuleFilters(rules)[0](e) == FingerprintMatching(rules[0])(e);
      if e.mapping && e.fingerprint == [] && Matches(rules[0], e) && rules[0].fingerprint != [] {
        assert Decides(rules, e, 0);
        RulesAgree(rest, e.(fingerprint := rules[0].fingerprint));
      } else {
        RulesAgree(rest, e);
        forall k: nat | Decides(rules, e, k) && k > 0
          ensures Decides(rest, e, k - 1)
        {
          forall i | 0 <= i < k - 1 ensures !(Matches(rest[i], e) && rest[i].fingerprint != []) {
            assert rest[i] == rules[i + 1];
          }
        }
        forall k: nat | Decides(rest, e, k)
          ensures e.mapping && e.fingerprint == [] ==> Decides(rules, e, k + 1)
        {
          forall i | 0 <= i < k + 1
            ensures e.mapping && e.fingerprint == [] ==> !(Matches(rules[i], e) && rules[i].fingerprint != [])
          {
            if i > 0 { assert rules[i] == rest[i - 1]; }
          }
        }
      }
    }
  }
}
