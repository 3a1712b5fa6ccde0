/**
 Flattening a nested error detail into messages. The walk passes a rendered path down; the reference below
 collects each leaf with its raw path of keys and indices first and renders it afterwards, without an
 accumulator.
 */
module ErrorMessages {
  import opened Prelude

  /** A detail: a mapping in document order, a list or tuple, or a leaf with its text (`None` for null). */
  datatype Detail =
    | Mapping(entries: seq<Entry>)
    | Items(items: seq<Detail>)
    | Leaf(text: Option<string>)

  datatype Entry = Entry(key: string, value: Detail)

  predicate IsContainer(d: Detail) {
    d.Mapping? || d.Items?
  }

  predicate IsGeneric(key: string) {
    key == "detail" || key == "message"
  }

  // ---- The walk --------------------------------------------------------------------------------------

  function KeyPath(path: string, key: string): string {
    if IsGeneric(key) then path else if path != "" then path + "." + key else key
  }

  function IndexPath(path: string, index: nat, item: Detail): string {
    if path != "" && IsContainer(item) then path + "[" + Digits(index) + "]" else path
  }

  function Message(path: string, text: string): string {
    if path != "" then path + ": " + text else text
  }

  function Walk(d: Detail, path: string): seq<string>
    decreases d, 0
  {
    match d
    case Mapping(entries) => WalkEntries(entries, path)
    case Items(items) => WalkItems(items, 0, path)
    case Leaf(text) => if text.Some? && text.value != "" then [Message(path, text.value)] else []
  }

  function WalkEntries(entries: seq<Entry>, path: string): seq<string>
    decreases entries, 1
  {
    if entries == [] then []
    else Walk(entries[0].value, KeyPath(path, entries[0].key)) + WalkEntries(entries[1..], path)
  }

  function WalkItems(items: seq<Detail>, index: nat, path: string): seq<string>
    decreases items, 1
  {
    if items == [] then []
    else Walk(items[0], IndexPath(path, index, items[0])) + WalkItems(items[1..], index + 1, path)
  }

  function ConsistentMessages(d: Detail): seq<string> {
    Walk(d, "")
  }

  // ---- The reference: collect, then render -------------------------------------------------------------

  datatype Segment = Key(name: string) | Index(index: nat, container: bool)

  datatype Found = Found(path: seq<Segment>, text: Option<string>)

  /** Every leaf with its path, in document order. */
  function Collect(d: Detail, path: seq<Segment>): seq<Found>
    decreases d, 0
  {
    match d
    case Mapping(entries) => CollectEntries(entries, path)
    case Items(items) => CollectItems(items, 0, path)
    case Leaf(text) => [Found(path, text)]
  }

  function CollectEntries(entries: seq<Entry>, path: seq<Segment>): seq<Found>
    decreases entries, 1
  {
    if entries == [] then []
    else Collect(entries[0].value, path + [Key(entries[0].key)]) + CollectEntries(entries[1..], path)
  }

  function CollectItems(items: seq<Detail>, index: nat, path: seq<Segment>): seq<Found>
    decreases items, 1
  {
    if items == [] then []
    else Collect(items[0], path + [Index(index, IsContainer(items[0]))]) + CollectItems(items[1..], index + 1, path)
  }

  /** How a segment shows once something stands before it. */
  function Suffix(s: Segment): string {
    match s
    case Key(name) => if IsGeneric(name) then "" else "." + name
    case Index(index, container) => if container then "[" + Digits(index) + "]" else ""
  }

  function Suffixes(path: seq<Segment>): string {
    if path == [] then "" else Suffix(path[0]) + Suffixes(path[1..])
  }

  /** A path opens with its first real key; what comes before that key does not show. */
  predicate Opens(s: Segment) {
    s.Key? && !IsGeneric(s.name) && s.name != ""
  }

  function RenderPath(path: seq<Segment>): string {
    if path == [] then ""
    else if Opens(path[0]) then path[0].name + Suffixes(path[1..])
    else RenderPath(path[1..])
  }

  predicate Speaks(f: Found) {
    f.text.Some? && f.text.value != ""
  }

  function Render(found: seq<Found>): seq<string> {
    if found == [] then []
    else
      (if Speaks(found[0]) then [Message(RenderPath(found[0].path), found[0].text.value)] else [])
      + Render(found[1..])
  }

  // ---- They are the same ---------------------------------------------------------------------------------

  lemma {:induction false} RenderConcat(a: seq<Found>, b: seq<Found>)
    ensures Render(a + b) == Render(a) + Render(b)
  {
    if a == [] {
      assert a + b == b;
    } else {
      assert (a + b)[1..] == a[1..] + b;
      RenderConcat(a[1..], b);
    }
  }

  lemma {:induction false} SuffixesAppend(path: seq<Segment>, s: Segment)
    ensures Suffixes(path + [s]) == Suffixes(path) + Suffix(s)
  {
    if path == [] {
      assert path + [s] == [s] && [s][1..] == [];
    } else {
      assert (path + [s])[1..] == path[1..] + [s];
      SuffixesAppend(path[1..], s);
    }
  }

  lemma {:induction false} RenderPathAppend(path: seq<Segment>, s: Segment)
    ensures RenderPath(path + [s]) ==
            if RenderPath(path) != "" then RenderPath(path) + Suffix(s) else if Opens(s) then s.name else ""
  {
    if path == [] {
      assert path + [s] == [s] && [s][1..] == [];
    } else {
      assert (path + [s])[1..] == path[1..] + [s];
      if Opens(path[0]) {
        SuffixesAppend(path[1..], s);
      } else {
        RenderPathAppend(path[1..], s);
      }
    }
  }

  lemma KeyPathRenders(path: seq<Segment>, key: string)
    ensures KeyPath(RenderPath(path), key) == RenderPath(path + [Key(key)])
  {
    RenderPathAppend(path, Key(key));
  }

  lemma IndexPathRenders(path: seq<Segment>, index: nat, item: Detail)
    ensures IndexPath(RenderPath(path), index, item) == RenderPath(path + [Index(index, IsContainer(item))])
  {
    RenderPathAppend(path, Index(index, IsContainer(item)));
  }

  lemma {:induction false} WalkIsCollectThenRender(d: Detail, path: seq<Segment>)
    ensures Walk(d, RenderPath(path)) == Render(Collect(d, path))
    decreases d, 0
  {
    match d
    case Mapping(entries) => EntriesAgree(entries, path);
    case Items(items) => ItemsAgree(items, 0, path);
    case Leaf(text) => assert [Found(path, text)][1..] == [];
  }

  lemma {:induction false} EntriesAgree(entries: seq<Entry>, path: seq<Segment>)
    ensures WalkEntries(entries, RenderPath(path)) == Render(CollectEntries(entries, path))
    decreases entries, 1
  {
    if entries != [] {
      KeyPathRenders(path, entries[0].key);
      WalkIsCollectThenRender(entries[0].value, path + [Key(entries[0].key)]);
      EntriesAgree(entries[1..], path);
      RenderConcat(Collect(entries[0].value, path + [Key(entries[0].key)]), CollectEntries(entries[1..], path));
    }
  }

  lemma {:induction false} ItemsAgree(items: seq<Detail>, index: nat, path: seq<Segment>)
    ensures WalkItems(items, index, RenderPath(path)) == Render(CollectItems(items, index, path))
    decreases items, 1
  {
    if items != [] {
      var here := path + [Index(index, IsContainer(items[0]))];
      IndexPathRenders(path, index, items[0]);
      WalkIsCollectThenRender(items[0], here);
      ItemsAgree(items[1..], index + 1, path);
      RenderConcat(Collect(items[0], here), CollectItems(items[1..], index + 1, path));
    }
  }

  /** For every nested detail, the accumulator walk is collect-then-render. */
  lemma MessagesAreRenderedLeaves(d: Detail)
    ensures ConsistentMessages(d) == Render(Collect(d, []))
  {
    WalkIsCollectThenRender(d, []);
  }

  lemma FirstItem(d: Detail, rest: seq<Detail>, index: nat, path: string)
    ensures WalkItems([d] + rest, index, path) ==
            Walk(d, IndexPath(path, index, d)) + WalkItems(rest, index + 1, path)
  {
    assert ([d] + rest)[1..] == rest;
  }

  lemma FirstEntry(e: Entry, rest: seq<Entry>, path: string)
    ensures WalkEntries([e] + rest, path) == Walk(e.value, KeyPath(path, e.key)) + WalkEntries(rest, path)
  {
    assert ([e] + rest)[1..] == rest;
  }

  lemma OneItem(d: Detail, path: string)
    ensures Walk(Items([d]), path) == Walk(d, IndexPath(path, 0, d))
  {
    FirstItem(d, [], 0, path);
    assert [d] + [] == [d];
  }

  lemma OneEntry(key: string, d: Detail, path: string)
    ensures Walk(Mapping([Entry(key, d)]), path) == Walk(d, KeyPath(path, key))
  {
    FirstEntry(Entry(key, d), [], path);
    assert [Entry(key, d)] + [] == [Entry(key, d)];
  }

  function Names(): Detail {
    Items([Leaf(Some("required")), Leaf(None), Leaf(Some(""))])
  }

  lemma SilentItems(index: nat, path: string)
    ensures WalkItems([Leaf(None), Leaf(Some(""))], index, path) == []
  {
    var absent, empty := Leaf(None), Leaf(Some(""));
    assert [absent, empty] == [absent] + [empty] && [empty] == [empty] + [];
    FirstItem(absent, [empty], index, path);
    FirstItem(empty, [], index + 1, path);
  }

  lemma NameMessages()
    ensures Walk(Names(), "name") == ["name: required"]
  {
    var required, silent := Leaf(Some("required")), [Leaf(None), Leaf(Some(""))];
    assert Names() == Items([required] + silent);
    FirstItem(required, silent, 0, "name");
    SilentItems(1, "name");
    assert Message("name", "required") == "name: required";
  }

  function Nested(): Detail {
    Items([Mapping([Entry("email", Mapping([Entry("message", Leaf(Some("missing")))]))])])
  }

  lemma NestedMessages()
    ensures Walk(Nested(), "") == ["email: missing"]
  {
    var missing := Mapping([Entry("message", Leaf(Some("missing")))]);
    OneItem(Mapping([Entry("email", missing)]), "");
    OneEntry("email", missing, "");
    OneEntry("message", Leaf(Some("missing")), "email");
    assert Message("email", "missing") == "email: missing";
  }

  function Members(): Detail {
    Items([Leaf(Some("few")), Mapping([Entry("email", Leaf(Some("bad")))])])
  }

  lemma MemberPath(d: Detail)
    requires IsContainer(d)
    ensures KeyPath(IndexPath("members", 1, d), "email") == "members[1].email"
  {
    assert Digits(1) == "1" && IndexPath("members", 1, d) == "members[1]";
  }

  lemma MemberMessages()
    ensures Walk(Members(), "members") == ["members: few", "members[1].email: bad"]
  {
    var few, bad := Leaf(Some("few")), Mapping([Entry("email", Leaf(Some("bad")))]);
    assert Members() == Items([few] + ([bad] + []));
    FirstItem(few, [bad] + [], 0, "members");
    FirstItem(bad, [], 1, "members");
    MemberPath(bad);
    OneEntry("email", Leaf(Some("bad")), IndexPath("members", 1, bad));
    assert Message("members", "few") == "members: few";
    assert Message("members[1].email", "bad") == "members[1].email: bad";
  }

  /** A validation error of two fields, one of them a list of records, and a generic key between them. */
  function Sample(): Detail {
    Mapping([Entry("name", Names()), Entry("detail", Nested()), Entry("members", Members())])
  }

  lemma SampleMessages()
    ensures ConsistentMessages(Sample()) ==
            ["name: required", "email: missing", "members: few", "members[1].email: bad"]
  {
    var a, b, c := Entry("name", Names()), Entry("detail", Nested()), Entry("members", Members());
    assert Sample() == Mapping([a] + ([b] + ([c] + [])));
    FirstEntry(a, [b] + ([c] + []), "");
    FirstEntry(b, [c] + [], "");
    FirstEntry(c, [], "");
    NameMessages();
    NestedMessages();
    MemberMessages();
  }

  // ---- One message per speaking leaf -----------------------------------------------------------------------

  function Leaves(d: Detail): nat
    decreases d, 0
  {
    match d
    case Mapping(entries) => EntryLeaves(entries)
    case Items(items) => ItemLeaves(items)
    case Leaf(text) => if text.Some? && text.value != "" then 1 else 0
  }

  function EntryLeaves(entries: seq<Entry>): nat
    decreases entries, 1
  {
    if entries == [] then 0 else Leaves(entries[0].value) + EntryLeaves(entries[1..])
  }

  function ItemLeaves(items: seq<Detail>): nat
    decreases items, 1
  {
    if items == [] then 0 else Leaves(items[0]) + ItemLeaves(items[1..])
  }

  /** Exactly one message per leaf that is neither null nor empty, whatever path leads to it. */
  lemma {:induction false} OneMessagePerLeaf(d: Detail, path: string)
    ensures |Walk(d, path)| == Leaves(d)
    ensures forall m :: m in Walk(d, path) ==> m != ""
    decreases d, 0
  {
    match d
    case Mapping(entries) => OneMessagePerEntryLeaf(entries, path);
    case Items(items) => OneMessagePerItemLeaf(items, 0, path);
    case Leaf(_) =>
  }

  lemma {:induction false} OneMessagePerEntryLeaf(entries: seq<Entry>, path: string)
    ensures |WalkEntries(entries, path)| == EntryLeaves(entries)
    ensures forall m :: m in WalkEntries(entries, path) ==> m != ""
    decreases entries, 1
  {
    if entries != [] {
      OneMessagePerLeaf(entries[0].value, KeyPath(path, entries[0].key));
      OneMessagePerEntryLeaf(entries[1..], path);
    }
  }

  lemma {:induction false} OneMessagePerItemLeaf(items: seq<Detail>, index: nat, path: string)
    ensures |WalkItems(items, index, path)| == ItemLeaves(items)
    ensures forall m :: m in WalkItems(items, index, path) ==> m != ""
    decreases items, 1
  {
    if items != [] {
      OneMessagePerLeaf(items[0], IndexPath(path, index, items[0]));
      OneMessagePerItemLeaf(items[1..], index + 1, path);
    }
  }
}
