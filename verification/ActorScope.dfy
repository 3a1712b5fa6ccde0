/**
 Who is making a change: the context variable behind `set_actor`/`reset_actor` and the block managers
 over it. The block managers assign and restore one dynamic binding; the theorems say that this is
 lexical scoping, for every program of nested blocks, saves, exceptions and handlers.
 */
module ActorScope {
  import opened Prelude

  datatype Source = Api | Upload | System | Mobile

  datatype Actor = Actor(userId: Option<int>, name: string, source: Source, reason: string)

  const ANONYMOUS := Actor(None, "", System, "")

  const MAX_REASON_LENGTH: nat := 256

  // ---- Reasons -------------------------------------------------------------------------------

  /** The ASCII characters that Python's `strip` removes. */
  predicate IsSpace(c: char) {
    var code := c as int;
    9 <= code <= 13 || 28 <= code <= 32
  }

  function StripLeft(s: string): string {
    if s != [] && IsSpace(s[0]) then StripLeft(s[1..]) else s
  }

  function StripRight(s: string): string {
    if s != [] && IsSpace(s[|s| - 1]) then StripRight(s[..|s| - 1]) else s
  }

  function Strip(s: string): string {
    StripRight(StripLeft(s))
  }

  /** What is taken off the left is a run of spaces, and what stays does not start with one. */
  lemma {:induction false} StripLeftDrops(s: string)
    ensures var r := StripLeft(s);
            && (r != [] ==> !IsSpace(r[0]))
            && |r| <= |s| && r == s[|s| - |r|..]
            && forall i :: 0 <= i < |s| - |r| ==> IsSpace(s[i])
  {
    if s != [] && IsSpace(s[0]) { StripLeftDrops(s[1..]); }
  }

  lemma {:induction false} StripRightDrops(s: string)
    ensures var r := StripRight(s);
            && (r != [] ==> !IsSpace(r[|r| - 1]))
            && |r| <= |s| && r == s[..|r|]
            && forall i :: |r| <= i < |s| ==> IsSpace(s[i])
  {
    if s != [] && IsSpace(s[|s| - 1]) { StripRightDrops(s[..|s| - 1]); }
  }

  /** `None` stands for every falsy argument. */
  function NormalizeReason(reason: Option<string>): (r: string)
    ensures |r| <= MAX_REASON_LENGTH
  {
    if reason.None? then ""
    else
      var t := Strip(reason.value);
      t[..if |t| <= MAX_REASON_LENGTH then |t| else MAX_REASON_LENGTH]
  }

  const WHITESPACE := {'\t', '\n', '\U{b}', '\U{c}', '\r', '\U{1c}', '\U{1d}', '\U{1e}', '\U{1f}', ' '}

  predicate Blank(s: string) {
    forall i :: 0 <= i < |s| ==> s[i] in WHITESPACE
  }

  lemma {:induction false} StripLeftIs(before: string, rest: string)
    requires Blank(before) && rest != "" && rest[0] !in WHITESPACE
    ensures StripLeft(before + rest) == rest
  {
    if before == "" {
      assert before + rest == rest;
    } else {
      assert (before + rest)[1..] == before[1..] + rest;
      StripLeftIs(before[1..], rest);
    }
  }

  lemma {:induction false} StripRightIs(rest: string, after: string)
    requires Blank(after) && rest != "" && rest[|rest| - 1] !in WHITESPACE
    ensures StripRight(rest + after) == rest
  {
    if after == "" {
      assert rest + after == rest;
    } else {
      assert (rest + after)[..|rest + after| - 1] == rest + after[..|after| - 1];
      StripRightIs(rest, after[..|after| - 1]);
    }
  }

  lemma StripIsCore(before: string, core: string, after: string)
    requires core != "" && core[0] !in WHITESPACE && core[|core| - 1] !in WHITESPACE
    requires Blank(before) && Blank(after)
    ensures Strip(before + core + after) == core
  {
    assert before + core + after == before + (core + after);
    StripLeftIs(before, core + after);
    StripRightIs(core, after);
  }

  lemma {:induction false} BlankStrips(s: string)
    requires Blank(s)
    ensures Strip(s) == ""
  {
    if s != "" { BlankStrips(s[1..]); }
  }

  /** What is stored of a reason: its text without the white space around it, and of that the first 256 characters. */
  lemma NormalizedReason(before: string, core: string, after: string)
    requires core != "" && core[0] !in WHITESPACE && core[|core| - 1] !in WHITESPACE
    requires Blank(before) && Blank(after)
    ensures NormalizeReason(Some(before + core + after)) == if |core| <= 256 then core else core[..256]
    ensures NormalizeReason(Some(before)) == "" && NormalizeReason(None) == ""
  {
    StripIsCore(before, core, after);
    BlankStrips(before);
  }

  predicate Trimmed(s: string) {
    s != [] ==> !IsSpace(s[0]) && !IsSpace(s[|s| - 1])
  }

  lemma StripTrims(s: string)
    ensures Trimmed(Strip(s)) && |Strip(s)| <= |s|
  {
    var l := StripLeft(s);
    StripLeftDrops(s);
    StripRightDrops(l);
    var r := StripRight(l);
    if r != [] { assert r[0] == l[0]; }
  }

  lemma StripFixes(s: string)
    requires Trimmed(s)
    ensures Strip(s) == s
  {}

  /**
   The trim comes before the cut, so a cut that ends at a space leaves untrimmed text in the trail:
   the docstring's promise holds exactly when the cut does not happen or does not end at a space.
   */
  lemma ReasonIsTrimmedExactlyWhen(text: string)
    ensures var t := Strip(text);
            Trimmed(NormalizeReason(Some(text))) <==>
            (|t| <= MAX_REASON_LENGTH || !IsSpace(t[MAX_REASON_LENGTH - 1]))
  {
    StripTrims(text);
    var t := Strip(text);
    if |t| > MAX_REASON_LENGTH { assert t[..MAX_REASON_LENGTH][0] == t[0]; }
  }

  /** Such a text: 255 letters, a space and a letter. */
  function CutAtSpace(): string {
    seq(MAX_REASON_LENGTH - 1, i => 'a') + " a"
  }

  lemma CutLeavesSpace()
    ensures var r := NormalizeReason(Some(CutAtSpace()));
            && |r| == MAX_REASON_LENGTH && IsSpace(r[|r| - 1]) && !Trimmed(r)
            && NormalizeReason(Some(r)) != r
  {
    var t := CutAtSpace();
    assert t[0] == 'a' && t[|t| - 1] == 'a';
    StripFixes(t);
    ReasonIsTrimmedExactlyWhen(t);
    NormalizeIsIdempotentExactlyWhen(t);
  }

  /** Normalizing a stored reason again changes it in exactly the same case. */
  lemma NormalizeIsIdempotentExactlyWhen(text: string)
    ensures var t := Strip(text);
            NormalizeReason(Some(NormalizeReason(Some(text)))) == NormalizeReason(Some(text)) <==>
            (|t| <= MAX_REASON_LENGTH || !IsSpace(t[MAX_REASON_LENGTH - 1]))
  {
    ReasonIsTrimmedExactlyWhen(text);
    var n := NormalizeReason(Some(text));
    if Trimmed(n) {
      StripFixes(n);
    } else {
      StripTrims(n);
      assert Strip(n) != n;
    }
  }

  // ---- The binding ---------------------------------------------------------------------------

  function Bound(binding: Option<Actor>): Actor {
    if binding.Some? then binding.value else ANONYMOUS
  }

  /** What `set_actor` returns: the binding it replaced, and the context it was made in. It restores once. */
  class Token {
    const previous: Option<Actor>
    const context: nat
    var used: bool

    constructor (previous: Option<Actor>, context: nat)
      ensures this.previous == previous && this.context == context && !used
    {
      this.previous, this.context, used := previous, context, false;
    }
  }

  /** The context variable as one context sees it. */
  class ActorBinding {
    const context: nat
    var current: Option<Actor>

    constructor (context: nat)
      ensures current == None && this.context == context
    {
      this.context := context;
      current := None;
    }

    method SetActor(actor: Option<Actor>) returns (token: Token)
      modifies this
      ensures current == actor
      ensures fresh(token) && token.previous == old(current) && token.context == context && !token.used
    {
      token := new Token(current, context);
      current := actor;
    }

    /**
     A used token raises, and nothing changes. One from another context cannot be applied: the binding is
     cleared instead, and the token stays unused.
     */
    method ResetActor(token: Token?) returns (raised: bool)
      modifies this, token
      ensures raised <==> token != null && old(token.used)
      ensures raised ==> current == old(current)
      ensures !raised ==> current == if token != null && token.context == context then token.previous else None
      ensures token != null ==> token.used == (old(token.used) || token.context == context)
    {
      if token != null {
        if token.used {
          return true;
        }
        if token.context == context {
          token.used, current := true, token.previous;
          return false;
        }
      }
      current := None;
      raised := false;
    }

    /** Run a program, with every block's restore in its `finally`. `log` is the saves with their actor. */
    method Exec(p: Program) returns (raised: bool, log: seq<(int, Actor)>)
      modifies this
      ensures current == old(current)
      ensures raised == Raises(p)
      ensures log == Stamp(Bound(old(current)), Saves(p, []))
      decreases p
    {
      match p
      case Skip => raised, log := false, [];
      case Save(key) => raised, log := false, [(key, Bound(current))];
      case Raise => raised, log := true, [];
      case Then(first, second) =>
        raised, log := Exec(first);
        if !raised {
          var rest;
          raised, rest := Exec(second);
          StampConcat(Bound(current), Saves(first, []), Saves(second, []));
          log := log + rest;
        }
      case Rescue(body, handler) =>
        raised, log := Exec(body);
        if raised {
          var rest;
          raised, rest := Exec(handler);
          StampConcat(Bound(current), Saves(body, []), Saves(handler, []));
          log := log + rest;
        }
      case Within(block, body) =>
        var token := SetActor(Some(Enter(block, Bound(current))));
        raised, log := Exec(body);
        var misused := ResetActor(token);
        assert !misused;
        StampThroughBlock(Bound(current), block, body);
    }
  }

  // ---- Programs ------------------------------------------------------------------------------

  /** `ForActor` is `actor_context`, `ForReason` is `reason_context`. */
  datatype Block = ForActor(userId: Option<int>, name: string, source: Source, why: Option<string>)
                 | ForReason(text: string)

  datatype Program =
    | Skip
    | Save(key: int)
    | Raise
    | Then(first: Program, second: Program)
    | Rescue(body: Program, handler: Program)
    | Within(block: Block, inner: Program)

  /** The actor a block binds, given the one bound around it. */
  function Enter(block: Block, outer: Actor): Actor {
    match block
    case ForActor(userId, name, source, why) => Actor(userId, name, source, NormalizeReason(why))
    case ForReason(text) => outer.(reason := NormalizeReason(Some(text)))
  }

  predicate Raises(p: Program) {
    match p
    case Skip => false
    case Save(_) => false
    case Raise => true
    case Then(first, second) => Raises(first) || Raises(second)
    case Rescue(body, handler) => Raises(body) && Raises(handler)
    case Within(_, inner) => Raises(inner)
  }

  /** The saves that happen, each with the blocks that enclose it in the program text, outermost first. */
  function Saves(p: Program, around: seq<Block>): seq<(int, seq<Block>)> {
    match p
    case Skip => []
    case Save(key) => [(key, around)]
    case Raise => []
    case Then(first, second) =>
      Saves(first, around) + if Raises(first) then [] else Saves(second, around)
    case Rescue(body, handler) =>
      Saves(body, around) + if Raises(body) then Saves(handler, around) else []
    case Within(block, inner) => Saves(inner, around + [block])
  }

  /** Identity: the innermost enclosing actor block, whatever reason blocks lie between. */
  function IdentityOf(start: Actor, around: seq<Block>): Actor {
    if around == [] then start
    else
      match around[|around| - 1]
      case ForActor(userId, name, source, _) => Actor(userId, name, source, "")
      case ForReason(_) => IdentityOf(start, around[..|around| - 1])
  }

  /** Reason: the nearest enclosing block of either kind. */
  function ReasonOf(start: Actor, around: seq<Block>): string {
    if around == [] then start.reason
    else
      match around[|around| - 1]
      case ForActor(_, _, _, why) => NormalizeReason(why)
      case ForReason(text) => NormalizeReason(Some(text))
  }

  function ActorOf(start: Actor, around: seq<Block>): Actor {
    IdentityOf(start, around).(reason := ReasonOf(start, around))
  }

  function Stamp(start: Actor, saves: seq<(int, seq<Block>)>): seq<(int, Actor)> {
    seq(|saves|, i requires 0 <= i < |saves| => (saves[i].0, ActorOf(start, saves[i].1)))
  }

  lemma StampConcat(start: Actor, a: seq<(int, seq<Block>)>, b: seq<(int, seq<Block>)>)
    ensures Stamp(start, a + b) == Stamp(start, a) + Stamp(start, b)
  {}

  /** The innermost block acts last. */
  lemma ActorOfInner(start: Actor, around: seq<Block>, inner: Block)
    ensures ActorOf(start, around + [inner]) == Enter(inner, ActorOf(start, around))
  {
    var all := around + [inner];
    assert all[|all| - 1] == inner && all[..|all| - 1] == around;
  }

  /**
   The block entered last decides: an actor block who acts and why, a reason block only why. Outside every
   block, and with nothing bound, the system acts without a name.
   */
  lemma InnermostBlockDecides(start: Actor, around: seq<Block>, inner: Block)
    ensures var outer, now := ActorOf(start, around), ActorOf(start, around + [inner]);
            match inner
            case ForActor(userId, name, source, why) => now == Actor(userId, name, source, NormalizeReason(why))
            case ForReason(text) =>
              now == Actor(outer.userId, outer.name, outer.source, NormalizeReason(Some(text)))
    ensures ActorOf(Bound(None), []) == Actor(None, "", System, "")
  {
    ActorOfInner(start, around, inner);
  }

  lemma {:induction false} ActorThroughBlock(start: Actor, block: Block, around: seq<Block>)
    ensures ActorOf(Enter(block, start), around) == ActorOf(start, [block] + around)
    decreases |around|
  {
    if around == [] {
      ActorOfInner(start, [], block);
      assert [block] + around == [] + [block];
    } else {
      var rest, inner := around[..|around| - 1], around[|around| - 1];
      ActorThroughBlock(start, block, rest);
      ActorOfInner(Enter(block, start), rest, inner);
      ActorOfInner(start, [block] + rest, inner);
      assert around == rest + [inner] && [block] + around == [block] + rest + [inner];
    }
  }

  /** Collecting inside a block is collecting outside it, with the block put in front. */
  lemma {:induction false} SavesShift(p: Program, outer: seq<Block>, around: seq<Block>)
    ensures |Saves(p, outer + around)| == |Saves(p, around)|
    ensures forall i :: 0 <= i < |Saves(p, around)| ==>
                          Saves(p, outer + around)[i] == (Saves(p, around)[i].0, outer + Saves(p, around)[i].1)
    decreases p
  {
    match p
    case Skip =>
    case Save(_) =>
    case Raise =>
    case Then(first, second) => SavesShift(first, outer, around); SavesShift(second, outer, around);
    case Rescue(body, handler) => SavesShift(body, outer, around); SavesShift(handler, outer, around);
    case Within(block, inner) =>
      assert outer + around + [block] == outer + (around + [block]);
      SavesShift(inner, outer, around + [block]);
  }

  lemma StampThroughBlock(start: Actor, block: Block, body: Program)
    ensures Stamp(Enter(block, start), Saves(body, [])) == Stamp(start, Saves(Within(block, body), []))
  {
    assert [] + [block] == [block] && [block] + [] == [block];
    SavesShift(body, [block], []);
    var inside, outside := Saves(body, []), Saves(body, [block]);
    forall i | 0 <= i < |inside|
      ensures ActorOf(Enter(block, start), inside[i].1) == ActorOf(start, outside[i].1)
    {
      ActorThroughBlock(start, block, inside[i].1);
    }
  }

  /** Wrapping a program in reason blocks only never changes who its saves are attributed to. */
  lemma {:induction false} ReasonBlocksKeepIdentity(start: Actor, around: seq<Block>)
    requires forall i :: 0 <= i < |around| ==> around[i].ForReason?
    ensures ActorOf(start, around).(reason := "") == start.(reason := "")
  {
    if around != [] {
      ReasonBlocksKeepIdentity(start, around[..|around| - 1]);
    }
  }
}
