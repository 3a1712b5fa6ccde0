/**
 The on-row audit trail: an instance with its current values, the snapshot its next save diffs against,
 the stored row, and the capped trail. `log` is a history variable, every entry ever persisted; the code
 keeps only the last `cap` of them. Saves go through the base model's layer first, so `updated_on` joins a
 partial write before the diff, and `change_history` joins it after.
 */
module ChangeHistory {
  import opened Prelude
  import opened ActorScope

  /** A value as the JSON column stores it; `Num` holds booleans too, as Python's `True == 1` does. */
  datatype Value =
    | Null
    | Num(n: real)
    | Text(text: string)
    | Items(items: seq<Value>)
    | Object(members: map<string, Value>)

  type Values = map<string, Value>

  datatype Change = Change(field: string, before: Value, after: Value)

  datatype Action = Created | Updated | Deleted | Restored

  datatype Entry = Entry(at: int, action: Action, actor: Actor, changes: seq<Change>)

  /** A model class: its columns apart from the trail, its whitelist, its attribute names, its cap. */
  datatype Model = Model(columns: set<string>, tracked: seq<string>, attname: string -> string, cap: int)

  datatype Instance = Instance(adding: bool, values: Values, trail: seq<Entry>, snapshot: Option<Values>)

  datatype Stored = Stored(values: Values, trail: seq<Entry>)

  datatype State = State(inst: Instance, row: Option<Stored>, log: seq<Entry>)

  /** `now` is the clock value the automatic timestamps write. */
  datatype Event =
    | Assign(name: string, value: Value)
    | Save(only: Option<set<string>>, at: int, actor: Actor, now: Value)
    | Reload

  /** The columns Django fills in by itself; a tracked one would change after the diff was taken. */
  const AUTOMATIC := {"updated_on", "created_on", "change_history"}

  ghost predicate WellFormed(m: Model) {
    && "updated_on" in m.columns && "created_on" in m.columns && "change_history" !in m.columns
    && forall f :: f in m.tracked ==> f in m.columns && f !in AUTOMATIC && m.attname(f) !in AUTOMATIC
  }

  // ---- The pure parts ------------------------------------------------------------------------

  const EMPTIES := {Null, Text(""), Items([]), Object(map[])}

  predicate IsEmpty(v: Value) {
    v == Null || v == Text("") || v == Items([]) || v == Object(map[])
  }

  predicate Truthy(v: Value) {
    !IsEmpty(v) && v != Num(0.0)
  }

  /** The whitelist with repeats dropped, as building a dict from it drops them. */
  function Names(fields: seq<string>): (names: seq<string>)
    ensures forall f :: f in names <==> f in fields
    ensures forall i, j :: 0 <= i < j < |names| ==> names[i] != names[j]
  {
    if fields == [] then []
    else
      var names := Names(fields[..|fields| - 1]);
      var last := fields[|fields| - 1];
      if last in names then names else names + [last]
  }

  /** Whether a save limited to `only` writes column `f`. */
  predicate Wanted(m: Model, only: Option<set<string>>, f: string) {
    only.None? || f in only.value || m.attname(f) in only.value
  }

  function TrackedValues(m: Model, values: Values): Values {
    map f | f in m.tracked && f in values :: values[f]
  }

  function CreatedChanges(names: seq<string>, current: Values): seq<Change> {
    if names == [] then []
    else
      var f := names[|names| - 1];
      CreatedChanges(names[..|names| - 1], current) +
      if f in current && !IsEmpty(current[f]) then [Change(f, Null, current[f])] else []
  }

  function Diff(m: Model, names: seq<string>, snapshot: Values, current: Values, only: Option<set<string>>)
    : seq<Change>
  {
    if names == [] then []
    else
      var f := names[|names| - 1];
      Diff(m, names[..|names| - 1], snapshot, current, only) +
      if f in current && f in snapshot && snapshot[f] != current[f] && Wanted(m, only, f)
      then [Change(f, snapshot[f], current[f])] else []
  }

  function ActionFor(changes: seq<Change>): Action {
    if changes == [] then Updated
    else if changes[0].field == "is_deleted" then (if Truthy(changes[0].after) then Deleted else Restored)
    else ActionFor(changes[1..])
  }

  /** Python's `history[-cap:]`, for every cap. */
  function Capped(history: seq<Entry>, cap: int): seq<Entry> {
    if cap == 0 then history
    else if cap > 0 then (if |history| <= cap then history else history[|history| - cap..])
    else if |history| <= -cap then [] else history[-cap..]
  }

  function BuildEntry(m: Model, inst: Instance, only: Option<set<string>>, at: int, actor: Actor): Option<Entry> {
    var current := TrackedValues(m, inst.values);
    if m.tracked == [] then None
    else if inst.adding then Some(Entry(at, Created, actor, CreatedChanges(Names(m.tracked), current)))
    else if inst.snapshot.None? then None
    else
      var changes := Diff(m, Names(m.tracked), inst.snapshot.value, current, only);
      if changes == [] then None else Some(Entry(at, ActionFor(changes), actor, changes))
  }

  // ---- The layers of a save ------------------------------------------------------------------

  function WithUpdatedOn(only: Option<set<string>>): Option<set<string>> {
    if only.None? then None else Some(only.value + {"updated_on"})
  }

  function WithTrail(only: Option<set<string>>, recorded: bool): Option<set<string>> {
    if only.None? || !recorded then only else Some(only.value + {"change_history"})
  }

  function Append(m: Model, inst: Instance, entry: Option<Entry>): Instance {
    if entry.None? then inst else inst.(trail := Capped(inst.trail + [entry.value], m.cap))
  }

  /** The automatic timestamps, set on the instance just before its columns are written. */
  function PreSave(inst: Instance, now: Value): Instance {
    inst.(values := inst.values["updated_on" := now] + if inst.adding then map["created_on" := now] else map[])
  }

  function Write(m: Model, inst: Instance, row: Option<Stored>, only: Option<set<string>>): Stored
    requires only.Some? ==> row.Some?
  {
    if only.None? then Stored(inst.values, inst.trail)
    else Stored(
           map c | c in inst.values && (c in row.value.values || Wanted(m, only, c)) ::
             if Wanted(m, only, c) then inst.values[c] else row.value.values[c],
           if "change_history" in only.value then inst.trail else row.value.trail)
  }

  function Sync(m: Model, inst: Instance, only: Option<set<string>>): Instance {
    var values := TrackedValues(m, inst.values);
    if only.None? then inst.(snapshot := Some(values))
    else
      var baseline := if inst.snapshot.Some? then inst.snapshot.value else map[];
      inst.(snapshot := Some(baseline + map f | f in values && Wanted(m, only, f) :: values[f]))
  }

  predicate NamesColumn(m: Model, n: string) {
    n == "change_history" || n in m.columns || exists c :: c in m.columns && m.attname(c) == n
  }

  /** A save of a new instance names no columns; a partial save names columns that exist. */
  predicate CanSave(m: Model, s: State, only: Option<set<string>>) {
    if s.inst.adding then only.None?
    else s.row.Some? && (only.Some? ==> forall n :: n in only.value ==> NamesColumn(m, n))
  }

  function EntryOf(m: Model, s: State, e: Event): Option<Entry>
    requires e.Save?
  {
    BuildEntry(m, s.inst, WithUpdatedOn(e.only), e.at, e.actor)
  }

  /** The instance as it stands when its columns are written. */
  function Prepared(m: Model, s: State, e: Event): Instance
    requires e.Save?
  {
    PreSave(Append(m, s.inst, EntryOf(m, s, e)), e.now)
  }

  function Saved(m: Model, s: State, e: Event): State
    requires e.Save? && CanSave(m, s, e.only)
  {
    var only := WithUpdatedOn(e.only);
    var entry := EntryOf(m, s, e);
    var inst := Prepared(m, s, e);
    State(
      Sync(m, inst, if s.inst.adding then None else only).(adding := false),
      Some(Write(m, inst, s.row, WithTrail(only, entry.Some?))),
      if entry.Some? then s.log + [entry.value] else s.log)
  }

  /** A full `refresh_from_db`, or a fresh load of the row by `from_db`: both give the same instance. */
  function Loaded(m: Model, row: Stored): Instance {
    Instance(false, row.values, row.trail, Some(TrackedValues(m, row.values)))
  }

  function Step(m: Model, s: State, e: Event): State {
    match e
    case Assign(name, value) =>
      if name in m.columns then s.(inst := s.inst.(values := s.inst.values[name := value])) else s
    case Save(only, _, _, _) => if CanSave(m, s, only) then Saved(m, s, e) else s
    case Reload => if s.row.Some? then s.(inst := Loaded(m, s.row.value)) else s
  }

  function Run(m: Model, s: State, es: seq<Event>): State
    decreases |es|
  {
    if es == [] then s else Run(m, Step(m, s, es[0]), es[1..])
  }

  function New(values: Values): State {
    State(Instance(true, values, [], None), None, [])
  }

  // ---- What the diff records -----------------------------------------------------------------

  lemma {:induction false} DiffMembers(m: Model, names: seq<string>, snapshot: Values, current: Values,
                                       only: Option<set<string>>, c: Change)
    ensures c in Diff(m, names, snapshot, current, only) <==>
            c.field in names && c.field in current && c.field in snapshot && Wanted(m, only, c.field)
            && snapshot[c.field] != current[c.field] && c.before == snapshot[c.field] && c.after == current[c.field]
  {
    if names != [] {
      DiffMembers(m, names[..|names| - 1], snapshot, current, only, c);
      assert names == names[..|names| - 1] + [names[|names| - 1]];
    }
  }

  lemma {:induction false} CreatedMembers(names: seq<string>, current: Values, c: Change)
    ensures c in CreatedChanges(names, current) <==>
            c.field in names && c.field in current && !IsEmpty(current[c.field])
            && c.before == Null && c.after == current[c.field]
  {
    if names != [] {
      CreatedMembers(names[..|names| - 1], current, c);
      assert names == names[..|names| - 1] + [names[|names| - 1]];
    }
  }

  predicate OnePerField(changes: seq<Change>) {
    forall i, j :: 0 <= i < j < |changes| ==> changes[i].field != changes[j].field
  }

  lemma {:induction false} DiffOnePerField(m: Model, names: seq<string>, snapshot: Values, current: Values,
                                           only: Option<set<string>>)
    requires forall i, j :: 0 <= i < j < |names| ==> names[i] != names[j]
    ensures OnePerField(Diff(m, names, snapshot, current, only))
  {
    if names != [] {
      var rest := names[..|names| - 1];
      DiffOnePerField(m, rest, snapshot, current, only);
      forall c | c in Diff(m, rest, snapshot, current, only)
        ensures c.field != names[|names| - 1]
      {
        DiffMembers(m, rest, snapshot, current, only, c);
      }
    }
  }

  /** The whitelist names `f` before it first names `g`. */
  predicate Before(fields: seq<string>, f: string, g: string) {
    exists k :: 0 <= k < |fields| && fields[k] == f && g !in fields[..k + 1]
  }

  /** The changes of an entry stand in the whitelist's order. */
  predicate InOrder(fields: seq<string>, changes: seq<Change>) {
    forall i, j :: 0 <= i < j < |changes| ==> Before(fields, changes[i].field, changes[j].field)
  }

  lemma BeforeInMore(fields: seq<string>, last: string, f: string, g: string)
    ensures Before(fields, f, g) ==> Before(fields + [last], f, g)
    ensures f in fields && last !in fields ==> Before(fields + [last], f, last)
  {
    var more := fields + [last];
    if k :| 0 <= k < |fields| && fields[k] == f && g !in fields[..k + 1] {
      assert more[..k + 1] == fields[..k + 1] && more[k] == f;
    }
    if f in fields && last !in fields {
      var k :| 0 <= k < |fields| && fields[k] == f;
      assert more[..k + 1] == fields[..k + 1] && more[k] == f;
    }
  }

  lemma InOrderAppend(fields: seq<string>, last: string, changes: seq<Change>, more: seq<Change>)
    requires last !in fields && InOrder(fields, changes) && forall c :: c in changes ==> c.field in fields
    requires more == [] || (|more| == 1 && more[0].field == last)
    ensures InOrder(fields + [last], changes + more)
  {
    var all := changes + more;
    forall i, j | 0 <= i < j < |all|
      ensures Before(fields + [last], all[i].field, all[j].field)
    {
      assert all[i] == changes[i];
      BeforeInMore(fields, last, all[i].field, all[j].field);
    }
  }

  lemma {:induction false} DiffInOrder(m: Model, names: seq<string>, snapshot: Values, current: Values,
                                       only: Option<set<string>>)
    requires forall i, j :: 0 <= i < j < |names| ==> names[i] != names[j]
    ensures InOrder(names, Diff(m, names, snapshot, current, only))
  {
    if names != [] {
      var rest, last := names[..|names| - 1], names[|names| - 1];
      DiffInOrder(m, rest, snapshot, current, only);
      var changes := Diff(m, rest, snapshot, current, only);
      forall c | c in changes ensures c.field in rest { DiffMembers(m, rest, snapshot, current, only, c); }
      InOrderAppend(rest, last, changes, Diff(m, names, snapshot, current, only)[|changes|..]);
      assert names == rest + [last];
    }
  }

  lemma {:induction false} CreatedInOrder(names: seq<string>, current: Values)
    requires forall i, j :: 0 <= i < j < |names| ==> names[i] != names[j]
    ensures InOrder(names, CreatedChanges(names, current))
  {
    if names != [] {
      var rest, last := names[..|names| - 1], names[|names| - 1];
      CreatedInOrder(rest, current);
      var changes := CreatedChanges(rest, current);
      forall c | c in changes ensures c.field in rest { CreatedMembers(rest, current, c); }
      InOrderAppend(rest, last, changes, CreatedChanges(names, current)[|changes|..]);
      assert names == rest + [last];
    }
  }

  /** Dropping repeats keeps the order of first mention. */
  lemma {:induction false} NameOrder(fields: seq<string>, f: string, g: string)
    requires Before(Names(fields), f, g)
    ensures Before(fields, f, g)
  {
    if fields != [] {
      var rest, last := fields[..|fields| - 1], fields[|fields| - 1];
      var names := Names(rest);
      assert fields == rest + [last];
      var k :| 0 <= k < |Names(fields)| && Names(fields)[k] == f && g !in Names(fields)[..k + 1];
      if k < |names| {
        assert Names(fields)[..k + 1] == names[..k + 1] && names[k] == f;
        NameOrder(rest, f, g);
        BeforeInMore(rest, last, f, g);
      } else {
        assert Names(fields)[..k + 1] == Names(fields);
        assert g !in fields && fields[|fields| - 1] == f && fields[..|fields|] == fields;
      }
    }
  }

  lemma NamesInOrder(fields: seq<string>, changes: seq<Change>)
    requires InOrder(Names(fields), changes)
    ensures InOrder(fields, changes)
  {
    forall i, j | 0 <= i < j < |changes|
      ensures Before(fields, changes[i].field, changes[j].field)
    {
      NameOrder(fields, changes[i].field, changes[j].field);
    }
  }

  // ---- Replaying the log ---------------------------------------------------------------------

  function Apply(values: Values, changes: seq<Change>): Values {
    if changes == [] then values
    else
      var c := changes[|changes| - 1];
      Apply(values, changes[..|changes| - 1])[c.field := c.after]
  }

  function Replay(log: seq<Entry>): Values {
    if log == [] then map[] else Apply(Replay(log[..|log| - 1]), log[|log| - 1].changes)
  }

  predicate Touches(changes: seq<Change>, f: string) {
    exists c :: c in changes && c.field == f
  }

  /** Applying changes that agree on a field sets it to their value, and leaves a field they skip alone. */
  lemma {:induction false} ApplyAt(values: Values, changes: seq<Change>, f: string, v: Value)
    requires forall c :: c in changes && c.field == f ==> c.after == v
    ensures Touches(changes, f) ==> f in Apply(values, changes) && Apply(values, changes)[f] == v
    ensures !Touches(changes, f) ==>
              (f in Apply(values, changes) <==> f in values) && (f in values ==> Apply(values, changes)[f] == values[f])
  {
    if changes != [] {
      var rest, last := changes[..|changes| - 1], changes[|changes| - 1];
      assert changes == rest + [last];
      ApplyAt(values, rest, f, v);
      if last.field != f && Touches(changes, f) {
        var c :| c in changes && c.field == f;
        assert c in rest;
      }
      if Touches(rest, f) {
        var c :| c in rest && c.field == f;
        assert c in changes;
      }
    }
  }

  /** The replayed value of a tracked field, where an absent one stands for some empty value. */
  predicate Reproduces(replayed: Values, f: string, v: Value) {
    if f in replayed then replayed[f] == v else IsEmpty(v)
  }

  // ---- The invariant -------------------------------------------------------------------------

  /** Instance, snapshot, stored row and trail agree; only unsaved assignments set values and row apart. */
  predicate Consistent(m: Model, s: State) {
    && s.inst.values.Keys == m.columns
    && (s.inst.adding ==> s.row.None? && s.inst.snapshot.None? && s.inst.trail == [] && s.log == [])
    && (!s.inst.adding ==>
          && s.row.Some? && s.row.value.values.Keys == m.columns
          && s.inst.snapshot == Some(TrackedValues(m, s.row.value.values))
          && s.inst.trail == s.row.value.trail)
  }

  predicate Faithful(m: Model, s: State) {
    s.row.Some? ==> forall f :: f in m.tracked && f in s.row.value.values ==>
                                  Reproduces(Replay(s.log), f, s.row.value.values[f])
  }

  /** What a cap leaves of the complete log, said without running it. */
  function Kept(log: seq<Entry>, cap: int): seq<Entry> {
    if cap < 0 then []
    else if cap == 0 || |log| <= cap then log
    else log[|log| - cap..]
  }

  predicate TrailIsKept(m: Model, s: State) {
    && s.inst.trail == Kept(s.log, m.cap)
    && (s.row.Some? ==> s.row.value.trail == Kept(s.log, m.cap))
  }

  lemma PreparedValues(m: Model, s: State, e: Event)
    requires WellFormed(m) && s.inst.values.Keys == m.columns && e.Save?
    ensures Prepared(m, s, e).values.Keys == m.columns
    ensures Prepared(m, s, e).values["updated_on"] == e.now
    ensures forall f :: f in m.columns && f !in AUTOMATIC ==> Prepared(m, s, e).values[f] == s.inst.values[f]
    ensures TrackedValues(m, Prepared(m, s, e).values) == TrackedValues(m, s.inst.values)
  {}

  lemma WrittenColumn(m: Model, inst: Instance, row: Stored, only: set<string>, f: string)
    requires inst.values.Keys == row.values.Keys && f in row.values
    ensures var after := Write(m, inst, Some(row), Some(only));
            after.values.Keys == row.values.Keys &&
            after.values[f] == if Wanted(m, Some(only), f) then inst.values[f] else row.values[f]
  {}

  /** A column is written exactly when the caller asked for it, by name or by attribute name. */
  lemma RequestedColumn(m: Model, s: State, e: Event, f: string)
    requires WellFormed(m) && Consistent(m, s) && e.Save? && CanSave(m, s, e.only)
    requires f in m.columns && f !in AUTOMATIC && m.attname(f) !in AUTOMATIC
    ensures f in Saved(m, s, e).row.value.values
    ensures Saved(m, s, e).row.value.values[f] ==
            if s.inst.adding || e.only.None? || f in e.only.value || m.attname(f) in e.only.value
            then s.inst.values[f] else s.row.value.values[f]
  {
    PreparedValues(m, s, e);
    if e.only.Some? {
      var only := WithTrail(WithUpdatedOn(e.only), EntryOf(m, s, e).Some?).value;
      WrittenColumn(m, Prepared(m, s, e), s.row.value, only, f);
    }
  }

  lemma StampedColumns(m: Model, s: State, e: Event)
    requires WellFormed(m) && Consistent(m, s) && e.Save? && CanSave(m, s, e.only)
    ensures var row := Saved(m, s, e).row.value;
            row.values.Keys == m.columns && row.values["updated_on"] == e.now
  {
    PreparedValues(m, s, e);
    if e.only.Some? {
      var only := WithTrail(WithUpdatedOn(e.only), EntryOf(m, s, e).Some?).value;
      WrittenColumn(m, Prepared(m, s, e), s.row.value, only, "updated_on");
    }
  }

  lemma UpdatedColumn(m: Model, s: State, e: Event, f: string)
    requires WellFormed(m) && Consistent(m, s) && e.Save? && CanSave(m, s, e.only) && !s.inst.adding
    requires f in m.columns && f != "updated_on" && m.attname(f) !in {"updated_on", "change_history"}
    ensures f in Saved(m, s, e).row.value.values
    ensures Saved(m, s, e).row.value.values[f] ==
            if Wanted(m, e.only, f) then s.inst.values[f] else s.row.value.values[f]
    ensures Saved(m, s, e).inst.values[f] == s.inst.values[f]
  {
    PreparedUpdate(m, s, e);
    var written := Prepared(m, s, e);
    if e.only.Some? {
      var only := WithTrail(WithUpdatedOn(e.only), EntryOf(m, s, e).Some?);
      assert Wanted(m, only, f) <==> Wanted(m, e.only, f);
      WrittenColumn(m, written, s.row.value, only.value, f);
    }
  }

  /** An update's automatic timestamp touches the one column. */
  lemma PreparedUpdate(m: Model, s: State, e: Event)
    requires e.Save? && !s.inst.adding
    ensures Prepared(m, s, e).values == s.inst.values["updated_on" := e.now]
  {}

  /** The creating save stores every column of the instance, and stamps both timestamps. */
  lemma CreateWrites(m: Model, s: State, e: Event)
    requires WellFormed(m) && Consistent(m, s) && e.Save? && CanSave(m, s, e.only) && s.inst.adding
    ensures var row := Saved(m, s, e).row.value;
            && row.values == s.inst.values["updated_on" := e.now]["created_on" := e.now]
            && row.trail == (if EntryOf(m, s, e).None? then [] else Capped([EntryOf(m, s, e).value], m.cap))
            && Saved(m, s, e).inst.values == row.values && !Saved(m, s, e).inst.adding
  {
    TrailFollowsRow(m, s, e);
    PreparedNew(m, s, e);
    if EntryOf(m, s, e).Some? { assert s.inst.trail + [EntryOf(m, s, e).value] == [EntryOf(m, s, e).value]; }
  }

  lemma PreparedNew(m: Model, s: State, e: Event)
    requires e.Save? && s.inst.adding
    ensures Prepared(m, s, e).values == s.inst.values["updated_on" := e.now]["created_on" := e.now]
  {}

  /** Re-baselining after a save moves a field's baseline exactly when the save wrote the field. */
  lemma SyncedBaseline(m: Model, inst: Instance, only: Option<set<string>>)
    requires only.Some? ==> inst.snapshot.Some? && inst.snapshot.value.Keys == TrackedValues(m, inst.values).Keys
    ensures var snapshot := Sync(m, inst, only).snapshot;
            snapshot.Some? && snapshot.value.Keys == TrackedValues(m, inst.values).Keys
    ensures forall f :: f in m.tracked && f in inst.values ==>
                          Sync(m, inst, only).snapshot.value[f] ==
                          if Wanted(m, only, f) then inst.values[f] else inst.snapshot.value[f]
  {}

  /** After a save, a field's baseline is its stored value. */
  lemma BaselineIsStored(m: Model, s: State, e: Event, f: string)
    requires WellFormed(m) && Consistent(m, s) && e.Save? && CanSave(m, s, e.only) && f in m.tracked
    ensures var s' := Saved(m, s, e);
            && s'.inst.snapshot.Some? && f in s'.inst.snapshot.value && f in s'.row.value.values
            && s'.inst.snapshot.value[f] == s'.row.value.values[f]
  {
    PreparedValues(m, s, e);
    RequestedColumn(m, s, e, f);
    SyncedBaseline(m, Prepared(m, s, e), if s.inst.adding then None else WithUpdatedOn(e.only));
  }

  lemma SnapshotKeys(m: Model, s: State, e: Event)
    requires WellFormed(m) && Consistent(m, s) && e.Save? && CanSave(m, s, e.only)
    ensures var s' := Saved(m, s, e);
            s'.inst.snapshot.Some? && s'.inst.snapshot.value.Keys == set f | f in m.tracked
  {
    PreparedValues(m, s, e);
    SyncedBaseline(m, Prepared(m, s, e), if s.inst.adding then None else WithUpdatedOn(e.only));
    assert TrackedValues(m, s.inst.values).Keys == set f | f in m.tracked;
  }

  lemma SameTracked(m: Model, snapshot: Values, values: Values)
    requires snapshot.Keys == (set f | f in m.tracked) && snapshot.Keys <= values.Keys
    requires forall f :: f in m.tracked ==> snapshot[f] == values[f]
    ensures snapshot == TrackedValues(m, values)
  {}

  lemma SnapshotFollowsRow(m: Model, s: State, e: Event)
    requires WellFormed(m) && Consistent(m, s) && e.Save? && CanSave(m, s, e.only)
    ensures var s' := Saved(m, s, e); s'.inst.snapshot == Some(TrackedValues(m, s'.row.value.values))
  {
    SnapshotKeys(m, s, e);
    StampedColumns(m, s, e);
    forall f | f in m.tracked { BaselineIsStored(m, s, e, f); }
    var s' := Saved(m, s, e);
    SameTracked(m, s'.inst.snapshot.value, s'.row.value.values);
  }

  lemma TrailFollowsRow(m: Model, s: State, e: Event)
    requires Consistent(m, s) && e.Save? && CanSave(m, s, e.only)
    ensures var s' := Saved(m, s, e); s'.row.value.trail == s'.inst.trail
    ensures var s' := Saved(m, s, e);
            s'.inst.trail == Append(m, s.inst, EntryOf(m, s, e)).trail
  {}

  lemma SaveKeepsConsistent(m: Model, s: State, e: Event)
    requires WellFormed(m) && Consistent(m, s) && e.Save? && CanSave(m, s, e.only)
    ensures Consistent(m, Saved(m, s, e))
  {
    PreparedValues(m, s, e);
    StampedColumns(m, s, e);
    SnapshotFollowsRow(m, s, e);
    TrailFollowsRow(m, s, e);
  }

  // ---- A save records exactly what it changes -------------------------------------------------

  function ChangesOf(entry: Option<Entry>): seq<Change> {
    if entry.Some? then entry.value.changes else []
  }

  lemma LogAfter(m: Model, s: State, e: Event)
    requires e.Save? && CanSave(m, s, e.only)
    ensures Saved(m, s, e).log == if EntryOf(m, s, e).Some? then s.log + [EntryOf(m, s, e).value] else s.log
  {}

  lemma UpdateChanges(m: Model, s: State, e: Event)
    requires Consistent(m, s) && e.Save? && !s.inst.adding
    ensures var changes := Diff(m, Names(m.tracked), s.inst.snapshot.value,
                                TrackedValues(m, s.inst.values), WithUpdatedOn(e.only));
            && ChangesOf(EntryOf(m, s, e)) == changes
            && (EntryOf(m, s, e).None? <==> changes == [])
            && (EntryOf(m, s, e).Some? ==> EntryOf(m, s, e).value == Entry(e.at, ActionFor(changes), e.actor, changes))
  {
    assert Names(m.tracked) == [] <==> m.tracked == [];
  }

  lemma UpdateInOrder(m: Model, s: State, e: Event)
    requires Consistent(m, s) && e.Save? && !s.inst.adding
    ensures OnePerField(ChangesOf(EntryOf(m, s, e))) && InOrder(m.tracked, ChangesOf(EntryOf(m, s, e)))
  {
    UpdateChanges(m, s, e);
    var before, after, only := s.inst.snapshot.value, TrackedValues(m, s.inst.values), WithUpdatedOn(e.only);
    DiffOnePerField(m, Names(m.tracked), before, after, only);
    DiffInOrder(m, Names(m.tracked), before, after, only);
    NamesInOrder(m.tracked, Diff(m, Names(m.tracked), before, after, only));
  }

  predicate IsChange(c: Change, before: Value, after: Value) {
    c.before != c.after && c.before == before && c.after == after
  }

  lemma RecordsWantedEdit(m: Model, s: State, e: Event, c: Change)
    requires WellFormed(m) && Consistent(m, s) && e.Save? && !s.inst.adding
    ensures c in ChangesOf(EntryOf(m, s, e)) <==>
            c.field in m.tracked && Wanted(m, e.only, c.field)
            && IsChange(c, s.row.value.values[c.field], s.inst.values[c.field])
  {
    UpdateChanges(m, s, e);
    DiffMembers(m, Names(m.tracked), s.inst.snapshot.value, TrackedValues(m, s.inst.values), WithUpdatedOn(e.only), c);
    if c.field in m.tracked {
      assert Wanted(m, WithUpdatedOn(e.only), c.field) <==> Wanted(m, e.only, c.field);
      assert s.inst.snapshot.value[c.field] == s.row.value.values[c.field];
    }
  }

  lemma RecordsChange(m: Model, s: State, e: Event, c: Change)
    requires WellFormed(m) && Consistent(m, s) && e.Save? && CanSave(m, s, e.only) && !s.inst.adding
    requires c.field in m.tracked ==> c.field in Saved(m, s, e).row.value.values
    ensures c in ChangesOf(EntryOf(m, s, e)) <==>
            c.field in m.tracked && IsChange(c, s.row.value.values[c.field], Saved(m, s, e).row.value.values[c.field])
  {
    RecordsWantedEdit(m, s, e, c);
    if c.field in m.tracked { RequestedColumn(m, s, e, c.field); }
  }

  /**
   A save of an existing row records a tracked field exactly when it changes the field's stored value,
   with the two stored values, once; it appends an entry exactly when there is such a field.
   */
  lemma SaveRecordsExactly(m: Model, s: State, e: Event)
    requires WellFormed(m) && Consistent(m, s) && e.Save? && CanSave(m, s, e.only) && !s.inst.adding
    ensures Saved(m, s, e).row.value.values.Keys == m.columns
    ensures forall c :: c in ChangesOf(EntryOf(m, s, e)) <==>
                        c.field in m.tracked
                        && IsChange(c, s.row.value.values[c.field], Saved(m, s, e).row.value.values[c.field])
    ensures OnePerField(ChangesOf(EntryOf(m, s, e))) && InOrder(m.tracked, ChangesOf(EntryOf(m, s, e)))
    ensures EntryOf(m, s, e).None? <==>
            forall f :: f in m.tracked ==> Saved(m, s, e).row.value.values[f] == s.row.value.values[f]
    ensures Saved(m, s, e).log == if EntryOf(m, s, e).Some? then s.log + [EntryOf(m, s, e).value] else s.log
  {
    StampedColumns(m, s, e);
    LogAfter(m, s, e);
    UpdateChanges(m, s, e);
    UpdateInOrder(m, s, e);
    forall c
      ensures c in ChangesOf(EntryOf(m, s, e)) <==>
              c.field in m.tracked && IsChange(c, s.row.value.values[c.field], Saved(m, s, e).row.value.values[c.field])
    {
      RecordsChange(m, s, e, c);
    }
    NothingRecordedExactly(m, s.row.value.values, Saved(m, s, e).row.value.values, ChangesOf(EntryOf(m, s, e)));
  }

  /** The changes hold one of field `f` exactly when `before` and `after` differ, and it says so. */
  predicate HoldsChange(changes: seq<Change>, f: string, before: Value, after: Value) {
    && (forall c :: c in changes && c.field == f ==> c.after == after && before != after)
    && (before != after ==> Change(f, before, after) in changes)
  }

  lemma FieldChanges(m: Model, s: State, e: Event, f: string)
    requires WellFormed(m) && Consistent(m, s) && e.Save? && CanSave(m, s, e.only) && !s.inst.adding && f in m.tracked
    ensures f in Saved(m, s, e).row.value.values
    ensures HoldsChange(ChangesOf(EntryOf(m, s, e)), f, s.row.value.values[f], Saved(m, s, e).row.value.values[f])
  {
    RequestedColumn(m, s, e, f);
    var before, after := s.row.value.values[f], Saved(m, s, e).row.value.values[f];
    RecordsChange(m, s, e, Change(f, before, after));
    forall c | c in ChangesOf(EntryOf(m, s, e)) && c.field == f
      ensures c.after == after && before != after
    {
      RecordsChange(m, s, e, c);
    }
  }

  lemma NothingRecordedExactly(m: Model, before: Values, after: Values, changes: seq<Change>)
    requires forall f :: f in m.tracked ==> f in before && f in after
    requires forall c :: c in changes <==>
                         c.field in m.tracked && IsChange(c, before[c.field], after[c.field])
    ensures changes == [] <==> forall f :: f in m.tracked ==> after[f] == before[f]
  {
    if changes == [] {
      forall f | f in m.tracked ensures after[f] == before[f] {
        assert Change(f, before[f], after[f]) !in changes;
      }
    } else {
      assert changes[0] in changes;
    }
  }

  /** An instance that no load or save has given a baseline has nothing to diff against and records nothing. */
  lemma NoBaselineNoEntry(m: Model, inst: Instance, only: Option<set<string>>, at: int, actor: Actor)
    requires !inst.adding && inst.snapshot.None?
    ensures BuildEntry(m, inst, only, at, actor).None?
    ensures only.None? ==> Sync(m, inst, only).snapshot == Some(TrackedValues(m, inst.values))
    ensures only.Some? ==>
              forall f :: f in Sync(m, inst, only).snapshot.value <==>
                          f in m.tracked && f in inst.values && (f in only.value || m.attname(f) in only.value)
  {}

  /** The values a creating save leaves out; zero and false are recorded. */
  lemma EmptyExactly(v: Value)
    ensures IsEmpty(v) <==> v in EMPTIES
    ensures forall n :: !IsEmpty(Num(n))
  {}

  lemma RecordsCreated(m: Model, s: State, e: Event, c: Change)
    requires WellFormed(m) && Consistent(m, s) && e.Save? && CanSave(m, s, e.only) && s.inst.adding
    requires c.field in m.tracked ==> c.field in Saved(m, s, e).row.value.values
    ensures c in ChangesOf(EntryOf(m, s, e)) <==>
            c.field in m.tracked && c.before == Null && !IsEmpty(c.after)
            && c.after == Saved(m, s, e).row.value.values[c.field]
  {
    CreatedMembers(Names(m.tracked), TrackedValues(m, s.inst.values), c);
    if c.field in m.tracked { RequestedColumn(m, s, e, c.field); }
  }

  lemma CreateInOrder(m: Model, s: State, e: Event)
    requires e.Save? && s.inst.adding
    ensures InOrder(m.tracked, ChangesOf(EntryOf(m, s, e)))
  {
    var current := TrackedValues(m, s.inst.values);
    CreatedInOrder(Names(m.tracked), current);
    NamesInOrder(m.tracked, CreatedChanges(Names(m.tracked), current));
  }

  lemma CreateStamps(m: Model, s: State, e: Event)
    requires e.Save? && s.inst.adding
    ensures EntryOf(m, s, e).Some? <==> m.tracked != []
    ensures EntryOf(m, s, e).Some? ==>
              var entry := EntryOf(m, s, e).value;
              entry.action == Created && entry.actor == e.actor && entry.at == e.at
  {}

  /** The changes are those from nothing to a stored value that is not empty. */
  ghost predicate RecordsStored(m: Model, changes: seq<Change>, stored: Values) {
    && stored.Keys == m.columns
    && forall c: Change :: c in changes <==>
                           c.field in m.tracked && c.field in stored && c.before == Null && !IsEmpty(c.after)
                           && c.after == stored[c.field]
  }

  lemma CreateRecordsStored(m: Model, s: State, e: Event)
    requires WellFormed(m) && Consistent(m, s) && e.Save? && CanSave(m, s, e.only) && s.inst.adding
    ensures RecordsStored(m, ChangesOf(EntryOf(m, s, e)), Saved(m, s, e).row.value.values)
  {
    StampedColumns(m, s, e);
    var changes, stored := ChangesOf(EntryOf(m, s, e)), Saved(m, s, e).row.value.values;
    forall c: Change
      ensures c in changes <==>
              c.field in m.tracked && c.field in stored && c.before == Null && !IsEmpty(c.after)
              && c.after == stored[c.field]
    {
      RecordsCreated(m, s, e, c);
    }
  }

  /**
   The save that creates a row records every tracked field that is not empty, from nothing and in the
   whitelist's order, with its time and its actor.
   */
  lemma CreateRecords(m: Model, s: State, e: Event)
    requires WellFormed(m) && Consistent(m, s) && e.Save? && CanSave(m, s, e.only) && s.inst.adding
    ensures EntryOf(m, s, e).Some? <==> m.tracked != []
    ensures EntryOf(m, s, e).Some? ==>
              var entry := EntryOf(m, s, e).value;
              entry.action == Created && entry.actor == e.actor && entry.at == e.at
    ensures RecordsStored(m, ChangesOf(EntryOf(m, s, e)), Saved(m, s, e).row.value.values)
    ensures InOrder(m.tracked, ChangesOf(EntryOf(m, s, e)))
    ensures Saved(m, s, e).log == if EntryOf(m, s, e).Some? then [EntryOf(m, s, e).value] else []
  {
    LogAfter(m, s, e);
    CreateStamps(m, s, e);
    CreateInOrder(m, s, e);
    CreateRecordsStored(m, s, e);
  }

  // ---- Replay, chaining and the cap over every run --------------------------------------------

  /** Each change starts from the value the log so far leaves in its field. */
  predicate Fits(replayed: Values, changes: seq<Change>) {
    forall c :: c in changes ==> Reproduces(replayed, c.field, c.before)
  }

  predicate Chained(log: seq<Entry>) {
    log != [] ==> Chained(log[..|log| - 1]) && Fits(Replay(log[..|log| - 1]), log[|log| - 1].changes)
  }

  predicate Uniform(log: seq<Entry>) {
    forall i :: 0 <= i < |log| ==> SameFieldSameChange(log[i].changes)
  }

  predicate Inv(m: Model, s: State) {
    Consistent(m, s) && Faithful(m, s) && Chained(s.log) && Uniform(s.log)
  }

  lemma CappedAppend(log: seq<Entry>, e: Entry, cap: int)
    ensures Capped(Kept(log, cap) + [e], cap) == Kept(log + [e], cap)
  {}

  lemma ReplayAppend(log: seq<Entry>, e: Entry)
    ensures Replay(log + [e]) == Apply(Replay(log), e.changes)
    ensures Chained(log + [e]) <==> Chained(log) && Fits(Replay(log), e.changes)
  {
    assert (log + [e])[..|log|] == log;
  }

  /** Applying exact changes to a faithful replay gives a faithful replay. */
  lemma ApplyStaysFaithful(replayed: Values, changes: seq<Change>, f: string, before: Value, after: Value)
    requires Reproduces(replayed, f, before) && HoldsChange(changes, f, before, after)
    ensures Reproduces(Apply(replayed, changes), f, after)
  {
    ApplyAt(replayed, changes, f, after);
  }

  /** A field the creating entry leaves out is empty. */
  lemma ApplyCreates(changes: seq<Change>, f: string, after: Value)
    requires forall c :: c in changes && c.field == f ==> c.after == after
    requires !IsEmpty(after) ==> Change(f, Null, after) in changes
    ensures Reproduces(Apply(map[], changes), f, after)
  {
    ApplyAt(map[], changes, f, after);
  }

  lemma UpdateKeepsFaithful(m: Model, s: State, e: Event, f: string)
    requires WellFormed(m) && Inv(m, s) && e.Save? && CanSave(m, s, e.only) && !s.inst.adding && f in m.tracked
    ensures f in Saved(m, s, e).row.value.values
    ensures Reproduces(Apply(Replay(s.log), ChangesOf(EntryOf(m, s, e))), f, Saved(m, s, e).row.value.values[f])
  {
    FieldChanges(m, s, e, f);
    ApplyStaysFaithful(Replay(s.log), ChangesOf(EntryOf(m, s, e)), f,
                       s.row.value.values[f], Saved(m, s, e).row.value.values[f]);
  }

  lemma CreateIsFaithful(m: Model, s: State, e: Event, f: string)
    requires WellFormed(m) && Inv(m, s) && e.Save? && CanSave(m, s, e.only) && s.inst.adding && f in m.tracked
    ensures f in Saved(m, s, e).row.value.values
    ensures Reproduces(Apply(Replay(s.log), ChangesOf(EntryOf(m, s, e))), f, Saved(m, s, e).row.value.values[f])
  {
    RequestedColumn(m, s, e, f);
    var after := Saved(m, s, e).row.value.values[f];
    RecordsCreated(m, s, e, Change(f, Null, after));
    forall c | c in ChangesOf(EntryOf(m, s, e)) && c.field == f ensures c.after == after {
      RecordsCreated(m, s, e, c);
    }
    ApplyCreates(ChangesOf(EntryOf(m, s, e)), f, after);
  }

  lemma SaveKeepsFaithful(m: Model, s: State, e: Event)
    requires WellFormed(m) && Inv(m, s) && e.Save? && CanSave(m, s, e.only)
    ensures Faithful(m, Saved(m, s, e))
  {
    LogAfter(m, s, e);
    if EntryOf(m, s, e).Some? { ReplayAppend(s.log, EntryOf(m, s, e).value); }
    assert Replay(Saved(m, s, e).log) == Apply(Replay(s.log), ChangesOf(EntryOf(m, s, e)));
    forall f | f in m.tracked
      ensures f in Saved(m, s, e).row.value.values
      ensures Reproduces(Replay(Saved(m, s, e).log), f, Saved(m, s, e).row.value.values[f])
    {
      if s.inst.adding { CreateIsFaithful(m, s, e, f); } else { UpdateKeepsFaithful(m, s, e, f); }
    }
  }

  predicate SameFieldSameChange(changes: seq<Change>) {
    forall c, d :: c in changes && d in changes && c.field == d.field ==> c == d
  }

  lemma EntryFits(m: Model, s: State, e: Event)
    requires WellFormed(m) && Inv(m, s) && e.Save? && CanSave(m, s, e.only)
    ensures Fits(Replay(s.log), ChangesOf(EntryOf(m, s, e))) && SameFieldSameChange(ChangesOf(EntryOf(m, s, e)))
  {
    if s.inst.adding { CreateRecords(m, s, e); } else { SaveRecordsExactly(m, s, e); }
  }

  lemma SaveKeepsChained(m: Model, s: State, e: Event)
    requires WellFormed(m) && Inv(m, s) && e.Save? && CanSave(m, s, e.only)
    ensures Chained(Saved(m, s, e).log) && Uniform(Saved(m, s, e).log)
  {
    EntryFits(m, s, e);
    LogAfter(m, s, e);
    if EntryOf(m, s, e).Some? {
      ReplayAppend(s.log, EntryOf(m, s, e).value);
    }
  }

  lemma StepKeepsInv(m: Model, s: State, e: Event)
    requires WellFormed(m) && Inv(m, s)
    ensures Inv(m, Step(m, s, e))
  {
    match e
    case Assign(_, _) =>
    case Save(only, _, _, _) =>
      if CanSave(m, s, only) {
        SaveKeepsConsistent(m, s, e);
        SaveKeepsFaithful(m, s, e);
        SaveKeepsChained(m, s, e);
      }
    case Reload =>
  }

  /** Everything that holds of an instance throughout its life. */
  ghost predicate Sound(m: Model, s: State) {
    WellFormed(m) && Inv(m, s) && TrailIsKept(m, s)
  }

  lemma StepKeepsSound(m: Model, s: State, e: Event)
    requires Sound(m, s)
    ensures Sound(m, Step(m, s, e))
  {
    StepKeepsInv(m, s, e);
    StepKeepsTrail(m, s, e);
  }

  lemma {:induction false} RunKeepsSound(m: Model, s: State, es: seq<Event>)
    requires Sound(m, s)
    ensures Sound(m, Run(m, s, es))
    decreases |es|
  {
    if es != [] {
      StepKeepsSound(m, s, es[0]);
      RunKeepsSound(m, Step(m, s, es[0]), es[1..]);
    }
  }

  lemma NewIsSound(m: Model, values: Values)
    requires WellFormed(m) && values.Keys == m.columns
    ensures Sound(m, New(values))
  {}

  /** Replaying the complete log of any run from creation gives every tracked field's stored value. */
  lemma ReplayReconstructs(m: Model, values: Values, es: seq<Event>, f: string)
    requires WellFormed(m) && values.Keys == m.columns && f in m.tracked
    requires Run(m, New(values), es).row.Some?
    ensures var s := Run(m, New(values), es);
            f in s.row.value.values && Reproduces(Replay(s.log), f, s.row.value.values[f])
  {
    NewIsSound(m, values);
    RunKeepsSound(m, New(values), es);
  }

  /** Event `i` of a run is the save that appended entry `k` of its log, at its time and by its actor. */
  ghost predicate AppendedBy(m: Model, s: State, es: seq<Event>, k: nat, i: nat) {
    && i < |es| && es[i].Save? && k < |Run(m, s, es).log|
    && Run(m, s, es).log[k].at == es[i].at && Run(m, s, es).log[k].actor == es[i].actor
    && |Run(m, s, es[..i]).log| == k && |Run(m, s, es[..i + 1]).log| == k + 1
  }

  lemma StepAppends(m: Model, s: State, e: Event)
    ensures var log := Step(m, s, e).log;
            || log == s.log
            || (e.Save? && |log| == |s.log| + 1 && log[..|s.log|] == s.log
                && log[|s.log|].at == e.at && log[|s.log|].actor == e.actor)
  {}

  lemma {:induction false} RunSnoc(m: Model, s: State, es: seq<Event>, e: Event)
    ensures Run(m, s, es + [e]) == Step(m, Run(m, s, es), e)
    decreases |es|
  {
    if es == [] {
      assert [] + [e] == [e] && [e][1..] == [];
    } else {
      assert (es + [e])[1..] == es[1..] + [e];
      RunSnoc(m, Step(m, s, es[0]), es[1..], e);
    }
  }

  /** In every run, each entry of the log carries the time and the actor of the one save that appended it. */
  lemma {:induction false} EntriesAreStamped(m: Model, s: State, es: seq<Event>, k: nat) returns (i: nat)
    requires s.log == [] && k < |Run(m, s, es).log|
    ensures AppendedBy(m, s, es, k, i)
    decreases |es|
  {
    var rest, e := es[..|es| - 1], es[|es| - 1];
    assert es == rest + [e];
    RunSnoc(m, s, rest, e);
    StepAppends(m, Run(m, s, rest), e);
    if k < |Run(m, s, rest).log| {
      i := EntriesAreStamped(m, s, rest, k);
      assert es[..i] == rest[..i] && es[..i + 1] == rest[..i + 1];
    } else {
      i := |rest|;
      assert es[..i] == rest && es[..i + 1] == es;
    }
  }

  /** A reload brings back what is stored, and with it the trail; nothing is pending afterwards. */
  lemma ReloadRestores(m: Model, s: State)
    requires s.row.Some?
    ensures var s' := Step(m, s, Reload);
            && s'.inst.values == s.row.value.values && s'.inst.trail == s.row.value.trail && !s'.inst.adding
            && s'.row == s.row && s'.log == s.log
    ensures WellFormed(m) && Consistent(m, s) ==>
              forall e: Event :: e.Save? ==> EntryOf(m, Step(m, s, Reload), e).None?
  {
    if WellFormed(m) && Consistent(m, s) {
      forall e: Event | e.Save? ensures EntryOf(m, Step(m, s, Reload), e).None? {
        EntryExactly(m, Step(m, s, Reload), e);
      }
    }
  }

  /** The snapshot is the stored row's tracked values in every state a saved instance can reach. */
  lemma SnapshotIsStored(m: Model, values: Values, es: seq<Event>)
    requires WellFormed(m) && values.Keys == m.columns
    ensures var s := Run(m, New(values), es);
            !s.inst.adding ==> s.row.Some? && s.inst.snapshot == Some(TrackedValues(m, s.row.value.values))
                               && s.inst.trail == s.row.value.trail
  {
    NewIsSound(m, values);
    RunKeepsSound(m, New(values), es);
  }

  lemma StepKeepsTrail(m: Model, s: State, e: Event)
    requires Consistent(m, s) && TrailIsKept(m, s)
    ensures TrailIsKept(m, Step(m, s, e))
  {
    if e.Save? && CanSave(m, s, e.only) {
      TrailFollowsRow(m, s, e);
      LogAfter(m, s, e);
      if EntryOf(m, s, e).Some? { CappedAppend(s.log, EntryOf(m, s, e).value, m.cap); }
    }
  }

  /** For a cap of at least one, the stored trail is always the last `cap` entries of the complete log. */
  lemma TrailIsLastEntries(m: Model, values: Values, es: seq<Event>)
    requires WellFormed(m) && values.Keys == m.columns && m.cap >= 1
    requires Run(m, New(values), es).row.Some?
    ensures var s := Run(m, New(values), es);
            var kept := if |s.log| <= m.cap then |s.log| else m.cap;
            s.row.value.trail == s.log[|s.log| - kept..]
  {
    NewIsSound(m, values);
    RunKeepsSound(m, New(values), es);
  }

  /** A cap of zero keeps the whole log; a negative one cuts each entry off again as it is added. */
  lemma TrailForOtherCaps(m: Model, values: Values, es: seq<Event>)
    requires WellFormed(m) && values.Keys == m.columns && m.cap <= 0
    ensures var s := Run(m, New(values), es);
            && s.inst.trail == (if m.cap == 0 then s.log else [])
            && (s.row.Some? ==> s.row.value.trail == if m.cap == 0 then s.log else [])
  {
    NewIsSound(m, values);
    RunKeepsSound(m, New(values), es);
  }

  /** What a cap is for: the newest entries, the last one at least, `cap` at most, and none dropped before that. */
  predicate WithinCap(cap: int, s: State) {
    s.row.Some? ==>
      var trail := s.row.value.trail;
      && |trail| <= |s.log| && trail == s.log[|s.log| - |trail|..]
      && (s.log != [] ==> 1 <= |trail| <= cap)
      && (|trail| < cap ==> trail == s.log)
  }

  /** Every run keeps the trail within the cap exactly when the cap is at least one or nothing is tracked. */
  lemma CapLimitsExactly(m: Model)
    requires WellFormed(m)
    ensures (forall values: Values, es: seq<Event> :: values.Keys == m.columns ==>
                                                        WithinCap(m.cap, Run(m, New(values), es)))
       <==> m.cap >= 1 || m.tracked == []
  {
    if m.cap >= 1 || m.tracked == [] {
      forall values: Values, es: seq<Event> | values.Keys == m.columns
        ensures WithinCap(m.cap, Run(m, New(values), es))
      {
        NewIsSound(m, values);
        RunKeepsSound(m, New(values), es);
        if m.tracked == [] { NothingTracked(m, New(values), es); }
      }
    } else {
      var values := map c | c in m.columns :: Null;
      FirstSaveBreaksCap(m, values, Event.Save(None, 0, ANONYMOUS, Null));
    }
  }

  /** With another cap, the creating save already leaves one entry too many or none. */
  lemma FirstSaveBreaksCap(m: Model, values: Values, e: Event)
    requires WellFormed(m) && values.Keys == m.columns && e.Save? && e.only.None?
    requires m.cap <= 0 && m.tracked != []
    ensures !WithinCap(m.cap, Run(m, New(values), [e]))
  {
    var s := New(values);
    assert [e][1..] == [];
    assert Run(m, s, [e]) == Saved(m, s, e);
    TrailForOtherCaps(m, values, [e]);
    LogAfter(m, s, e);
  }

  lemma {:induction false} NothingTracked(m: Model, s: State, es: seq<Event>)
    requires m.tracked == []
    ensures Run(m, s, es).log == s.log
    decreases |es|
  {
    if es != [] { NothingTracked(m, Step(m, s, es[0]), es[1..]); }
  }

  lemma {:induction false} LogOrder(log: seq<Entry>, n: nat)
    requires n < |log| && Chained(log)
    ensures Fits(Replay(log[..n]), log[n].changes)
    decreases |log|
  {
    if n < |log| - 1 {
      LogOrder(log[..|log| - 1], n);
      assert log[..|log| - 1][..n] == log[..n];
    }
  }

  lemma {:induction false} UntouchedAfter(log: seq<Entry>, i: nat, j: nat, c: Change)
    requires i < j <= |log| && c in log[i].changes && Uniform(log)
    requires forall k :: i < k < j ==> !Touches(log[k].changes, c.field)
    ensures c.field in Replay(log[..j]) && Replay(log[..j])[c.field] == c.after
    decreases j
  {
    assert log[..j][..j - 1] == log[..j - 1] && log[..j][j - 1] == log[j - 1];
    if j == i + 1 {
      ApplyAt(Replay(log[..i]), log[i].changes, c.field, c.after);
    } else {
      UntouchedAfter(log, i, j - 1, c);
      ApplyAt(Replay(log[..j - 1]), log[j - 1].changes, c.field, c.after);
    }
  }

  lemma {:induction false} UntouchedBefore(log: seq<Entry>, j: nat, f: string)
    requires j <= |log| && forall k :: 0 <= k < j ==> !Touches(log[k].changes, f)
    ensures f !in Replay(log[..j])
    decreases j
  {
    if j > 0 {
      assert log[..j][..j - 1] == log[..j - 1] && log[..j][j - 1] == log[j - 1];
      UntouchedBefore(log, j - 1, f);
      ApplyAt(Replay(log[..j - 1]), log[j - 1].changes, f, Null);
    }
  }

  /** The old value of each change is the new value of the previous change to the same field. */
  lemma ChangesChain(m: Model, values: Values, es: seq<Event>, i: nat, j: nat, c: Change, d: Change)
    requires WellFormed(m) && values.Keys == m.columns
    requires var log := Run(m, New(values), es).log;
             && i < j < |log| && c in log[i].changes && d in log[j].changes && c.field == d.field
             && (forall k :: i < k < j ==> !Touches(log[k].changes, c.field))
    ensures d.before == c.after
  {
    NewIsSound(m, values);
    RunKeepsSound(m, New(values), es);
    var log := Run(m, New(values), es).log;
    LogOrder(log, j);
    UntouchedAfter(log, i, j, c);
  }

  /** The first change to a field starts from an empty value. */
  lemma FirstChangeStartsEmpty(m: Model, values: Values, es: seq<Event>, j: nat, d: Change)
    requires WellFormed(m) && values.Keys == m.columns
    requires var log := Run(m, New(values), es).log;
             && j < |log| && d in log[j].changes
             && (forall k :: 0 <= k < j ==> !Touches(log[k].changes, d.field))
    ensures IsEmpty(d.before)
  {
    NewIsSound(m, values);
    RunKeepsSound(m, New(values), es);
    var log := Run(m, New(values), es).log;
    LogOrder(log, j);
    UntouchedBefore(log, j, d.field);
  }

  // ---- Partial saves and pending edits ---------------------------------------------------------

  /**
   What a save of an existing row leaves in the database: every column but `updated_on` holds the instance's
   value if it was requested, `created_on` among them, and otherwise what it held; `updated_on` is stamped;
   the trail is extended exactly when an entry was added.
   */
  lemma SaveWrites(m: Model, s: State, e: Event, f: string)
    requires WellFormed(m) && Consistent(m, s) && e.Save? && CanSave(m, s, e.only) && !s.inst.adding
    requires f in m.columns && f != "updated_on" && m.attname(f) !in {"updated_on", "change_history"}
    ensures var row := Saved(m, s, e).row.value;
            && row.values.Keys == s.row.value.values.Keys && f in row.values && "updated_on" in row.values
            && (Wanted(m, e.only, f) ==> row.values[f] == s.inst.values[f])
            && (!Wanted(m, e.only, f) ==> row.values[f] == s.row.value.values[f])
            && row.values["updated_on"] == e.now
            && (EntryOf(m, s, e).None? ==> row.trail == s.row.value.trail)
            && (EntryOf(m, s, e).Some? ==> row.trail == Capped(s.row.value.trail + [EntryOf(m, s, e).value], m.cap))
            && Saved(m, s, e).inst.values[f] == s.inst.values[f]
  {
    UpdatedColumn(m, s, e, f);
    StampedColumns(m, s, e);
    TrailFollowsRow(m, s, e);
    PreparedValues(m, s, e);
  }

  /** An event that neither assigns nor persists nor re-reads `f`. */
  predicate LeavesPending(m: Model, e: Event, f: string) {
    match e
    case Assign(name, _) => name != f
    case Save(only, _, _, _) => only.Some? && !Wanted(m, only, f)
    case Reload => false
  }

  predicate Pending(m: Model, s: State, f: string, edited: Value, stored: Value) {
    && Consistent(m, s) && !s.inst.adding && f in m.columns
    && s.inst.values[f] == edited && s.row.value.values[f] == stored
  }

  lemma StepLeavesPending(m: Model, s: State, e: Event, f: string, edited: Value, stored: Value)
    requires WellFormed(m) && f in m.tracked && Pending(m, s, f, edited, stored) && LeavesPending(m, e, f)
    ensures Pending(m, Step(m, s, e), f, edited, stored)
  {
    if e.Save? && CanSave(m, s, e.only) {
      SaveKeepsConsistent(m, s, e);
      SaveWrites(m, s, e, f);
    }
  }

  lemma {:induction false} EditStaysPending(m: Model, s: State, es: seq<Event>, f: string, edited: Value, stored: Value)
    requires WellFormed(m) && f in m.tracked && Pending(m, s, f, edited, stored)
    requires forall i :: 0 <= i < |es| ==> LeavesPending(m, es[i], f)
    ensures Pending(m, Run(m, s, es), f, edited, stored)
    decreases |es|
  {
    if es != [] {
      StepLeavesPending(m, s, es[0], f, edited, stored);
      EditStaysPending(m, Step(m, s, es[0]), es[1..], f, edited, stored);
    }
  }

  /** However long an edit stays out of the partial saves, the save that writes it is the one that records it. */
  lemma PendingEditIsRecordedWhenWritten(m: Model, s: State, es: seq<Event>, e: Event, f: string)
    requires WellFormed(m) && Consistent(m, s) && !s.inst.adding && f in m.tracked
    requires forall i :: 0 <= i < |es| ==> LeavesPending(m, es[i], f)
    requires e.Save? && CanSave(m, Run(m, s, es), e.only) && Wanted(m, e.only, f)
    requires s.inst.values[f] != s.row.value.values[f]
    ensures var mid := Run(m, s, es);
            && Change(f, s.row.value.values[f], s.inst.values[f]) in ChangesOf(EntryOf(m, mid, e))
            && f in Saved(m, mid, e).row.value.values
            && Saved(m, mid, e).row.value.values[f] == s.inst.values[f]
  {
    EditStaysPending(m, s, es, f, s.inst.values[f], s.row.value.values[f]);
    var mid := Run(m, s, es);
    SaveRecordsExactly(m, mid, e);
    SaveWrites(m, mid, e, f);
  }

  // ---- Deleted and restored --------------------------------------------------------------------

  predicate Boolean(v: Value) {
    v == Num(0.0) || v == Num(1.0)
  }

  predicate AssignsBooleans(es: seq<Event>) {
    forall i :: 0 <= i < |es| && es[i].Assign? && es[i].name == "is_deleted" ==> Boolean(es[i].value)
  }

  predicate Flags(e: Entry) {
    e.action == Deleted || e.action == Restored
  }

  /** Each flagged entry is the opposite of the flagged entry before it; the first one leaves `start`. */
  function LastFlag(start: bool, log: seq<Entry>): bool {
    if log == [] then start
    else if Flags(log[|log| - 1]) then log[|log| - 1].action == Deleted
    else LastFlag(start, log[..|log| - 1])
  }

  predicate Alternates(start: bool, log: seq<Entry>) {
    log != [] ==>
      && Alternates(start, log[..|log| - 1])
      && (Flags(log[|log| - 1]) ==> (log[|log| - 1].action == Deleted) != LastFlag(start, log[..|log| - 1]))
  }

  lemma {:induction false} ActionIsFlag(changes: seq<Change>, v: Value)
    requires forall c :: c in changes && c.field == "is_deleted" ==> c.after == v
    ensures ActionFor(changes) == if !Touches(changes, "is_deleted") then Updated
                                  else if Truthy(v) then Deleted else Restored
  {
    if changes != [] {
      if changes[0].field == "is_deleted" {
        assert changes[0] in changes;
      } else {
        ActionIsFlag(changes[1..], v);
        if Touches(changes, "is_deleted") {
          var c :| c in changes && c.field == "is_deleted";
          assert c in changes[1..];
        }
      }
    }
  }

  predicate FlagInv(m: Model, start: bool, s: State) {
    && "is_deleted" in m.tracked && Consistent(m, s) && !s.inst.adding
    && "is_deleted" in m.columns
    && Boolean(s.inst.values["is_deleted"]) && Boolean(s.row.value.values["is_deleted"])
    && Alternates(start, s.log)
    && Truthy(s.row.value.values["is_deleted"]) == LastFlag(start, s.log)
  }

  function FlagAction(before: Value, after: Value): Action {
    if before == after then Updated else if Truthy(after) then Deleted else Restored
  }

  /** The three names, spelled out: what counts as deleted is anything but an empty value, zero and false. */
  lemma FlagActionMeans(before: Value, after: Value)
    ensures FlagAction(before, after) == Deleted <==> before != after && after !in EMPTIES + {Num(0.0)}
    ensures FlagAction(before, after) == Restored <==> before != after && after in EMPTIES + {Num(0.0)}
    ensures FlagAction(before, after) == Updated <==> before == after
  {}

  /** An update is named after the flag exactly when it changes the stored flag, and then after its new value. */
  lemma UpdateAction(m: Model, s: State, e: Event)
    requires WellFormed(m) && Consistent(m, s) && e.Save? && CanSave(m, s, e.only) && !s.inst.adding
    requires "is_deleted" in m.tracked
    ensures "is_deleted" in Saved(m, s, e).row.value.values
    ensures var before, after := s.row.value.values["is_deleted"], Saved(m, s, e).row.value.values["is_deleted"];
            && (EntryOf(m, s, e).Some? ==> EntryOf(m, s, e).value.action == FlagAction(before, after))
            && (EntryOf(m, s, e).None? ==> before == after)
    ensures EntryOf(m, s, e).Some? ==> EntryOf(m, s, e).value.actor == e.actor && EntryOf(m, s, e).value.at == e.at
  {
    FieldChanges(m, s, e, "is_deleted");
    UpdateChanges(m, s, e);
    var before, after := s.row.value.values["is_deleted"], Saved(m, s, e).row.value.values["is_deleted"];
    ChangesNameFlag(ChangesOf(EntryOf(m, s, e)), before, after);
  }

  lemma ChangesNameFlag(changes: seq<Change>, before: Value, after: Value)
    requires HoldsChange(changes, "is_deleted", before, after)
    ensures ActionFor(changes) == FlagAction(before, after)
    ensures changes == [] ==> before == after
  {
    ActionIsFlag(changes, after);
  }

  lemma FlagAppend(start: bool, log: seq<Entry>, e: Entry)
    ensures LastFlag(start, log + [e]) == if Flags(e) then e.action == Deleted else LastFlag(start, log)
    ensures Alternates(start, log + [e]) <==>
            Alternates(start, log) && (Flags(e) ==> (e.action == Deleted) != LastFlag(start, log))
  {
    assert (log + [e])[..|log|] == log;
  }

  lemma NamedEntryAlternates(start: bool, log: seq<Entry>, entry: Entry, before: Value, after: Value)
    requires Boolean(before) && Boolean(after) && Alternates(start, log) && Truthy(before) == LastFlag(start, log)
    requires entry.action == FlagAction(before, after)
    ensures Alternates(start, log + [entry]) && Truthy(after) == LastFlag(start, log + [entry])
  {
    FlagAppend(start, log, entry);
  }

  lemma UpdateKeepsAlternation(m: Model, start: bool, s: State, e: Event)
    requires WellFormed(m) && FlagInv(m, start, s) && e.Save? && CanSave(m, s, e.only)
    requires "is_deleted" in Saved(m, s, e).row.value.values
    requires Boolean(Saved(m, s, e).row.value.values["is_deleted"])
    ensures Alternates(start, Saved(m, s, e).log)
    ensures Truthy(Saved(m, s, e).row.value.values["is_deleted"]) == LastFlag(start, Saved(m, s, e).log)
  {
    UpdateAction(m, s, e);
    LogAfter(m, s, e);
    if EntryOf(m, s, e).Some? {
      NamedEntryAlternates(start, s.log, EntryOf(m, s, e).value,
                           s.row.value.values["is_deleted"], Saved(m, s, e).row.value.values["is_deleted"]);
    }
  }

  lemma UpdateKeepsBooleans(m: Model, start: bool, s: State, e: Event)
    requires WellFormed(m) && FlagInv(m, start, s) && e.Save? && CanSave(m, s, e.only)
    ensures var s' := Saved(m, s, e);
            && "is_deleted" in s'.row.value.values && Boolean(s'.row.value.values["is_deleted"])
            && "is_deleted" in s'.inst.values && Boolean(s'.inst.values["is_deleted"])
  {
    SaveWrites(m, s, e, "is_deleted");
    PreparedValues(m, s, e);
  }

  lemma UpdateKeepsFlagInv(m: Model, start: bool, s: State, e: Event)
    requires WellFormed(m) && FlagInv(m, start, s) && e.Save? && CanSave(m, s, e.only)
    ensures FlagInv(m, start, Saved(m, s, e))
  {
    SaveKeepsConsistent(m, s, e);
    UpdateKeepsBooleans(m, start, s, e);
    UpdateKeepsAlternation(m, start, s, e);
  }

  lemma CreatedIsNoFlag(m: Model, s: State, e: Event, start: bool)
    requires s.inst.adding && s.log == [] && e.Save? && CanSave(m, s, e.only)
    ensures Alternates(start, Saved(m, s, e).log) && LastFlag(start, Saved(m, s, e).log) == start
  {
    LogAfter(m, s, e);
    if EntryOf(m, s, e).Some? {
      FlagAppend(start, [], EntryOf(m, s, e).value);
      assert [] + [EntryOf(m, s, e).value] == [EntryOf(m, s, e).value];
    }
  }

  lemma CreateStartsFlag(m: Model, s: State, e: Event)
    requires WellFormed(m) && Consistent(m, s) && s.inst.adding && "is_deleted" in m.tracked
    requires Boolean(s.inst.values["is_deleted"]) && e.Save? && CanSave(m, s, e.only)
    ensures FlagInv(m, Truthy(s.inst.values["is_deleted"]), Saved(m, s, e))
  {
    SaveKeepsConsistent(m, s, e);
    RequestedColumn(m, s, e, "is_deleted");
    PreparedValues(m, s, e);
    CreatedIsNoFlag(m, s, e, Truthy(s.inst.values["is_deleted"]));
  }

  /** Before the creating save the flag is boolean; afterwards the entries so far alternate from the created value. */
  ghost predicate Alternating(m: Model, s: State) {
    && "is_deleted" in m.tracked && Consistent(m, s) && "is_deleted" in m.columns
    && (s.inst.adding ==> Boolean(s.inst.values["is_deleted"]))
    && (!s.inst.adding ==> exists start :: FlagInv(m, start, s))
  }

  lemma StepKeepsAlternating(m: Model, s: State, e: Event)
    requires WellFormed(m) && Alternating(m, s)
    requires e.Assign? && e.name == "is_deleted" ==> Boolean(e.value)
    ensures Alternating(m, Step(m, s, e))
  {
    if e.Save? && CanSave(m, s, e.only) {
      if s.inst.adding {
        CreateStartsFlag(m, s, e);
      } else {
        var start :| FlagInv(m, start, s);
        UpdateKeepsFlagInv(m, start, s, e);
      }
    } else if !s.inst.adding {
      var start :| FlagInv(m, start, s);
      assert FlagInv(m, start, Step(m, s, e));
    }
  }

  lemma {:induction false} RunKeepsAlternating(m: Model, s: State, es: seq<Event>)
    requires WellFormed(m) && Alternating(m, s) && AssignsBooleans(es)
    ensures Alternating(m, Run(m, s, es))
    decreases |es|
  {
    if es != [] {
      StepKeepsAlternating(m, s, es[0]);
      assert AssignsBooleans(es[1..]);
      RunKeepsAlternating(m, Step(m, s, es[0]), es[1..]);
    }
  }

  /**
   In every run from creation the flagged entries alternate from some created value, and the last of them
   agrees with the stored flag.
   */
  lemma LastFlagIsStored(m: Model, values: Values, es: seq<Event>) returns (start: bool)
    requires WellFormed(m) && values.Keys == m.columns && "is_deleted" in m.tracked
    requires Boolean(values["is_deleted"]) && AssignsBooleans(es)
    requires Run(m, New(values), es).row.Some?
    ensures var s := Run(m, New(values), es);
            && Alternates(start, s.log) && "is_deleted" in s.row.value.values
            && LastFlag(start, s.log) == Truthy(s.row.value.values["is_deleted"])
  {
    RunKeepsAlternating(m, New(values), es);
    start :| FlagInv(m, start, Run(m, New(values), es));
  }

  lemma {:induction false} AlternatePairwise(start: bool, log: seq<Entry>, i: nat, j: nat)
    requires Alternates(start, log) && i < j < |log| && Flags(log[i]) && Flags(log[j])
    requires forall k :: i < k < j ==> !Flags(log[k])
    ensures log[i].action != log[j].action
    decreases |log|
  {
    var rest := log[..|log| - 1];
    if j < |log| - 1 {
      AlternatePairwise(start, rest, i, j);
    } else {
      FlagAt(start, rest, i);
    }
  }

  lemma {:induction false} FlagAt(start: bool, log: seq<Entry>, i: nat)
    requires i < |log| && Flags(log[i]) && forall k :: i < k < |log| ==> !Flags(log[k])
    ensures LastFlag(start, log) == (log[i].action == Deleted)
    decreases |log|
  {
    if i < |log| - 1 { FlagAt(start, log[..|log| - 1], i); }
  }

  /** With a boolean flag, consecutive `deleted` and `restored` entries of a run from creation differ. */
  lemma DeletedAndRestoredAlternate(m: Model, values: Values, es: seq<Event>, i: nat, j: nat)
    requires WellFormed(m) && values.Keys == m.columns && "is_deleted" in m.tracked
    requires Boolean(values["is_deleted"]) && AssignsBooleans(es)
    requires i < j < |Run(m, New(values), es).log|
    requires var log := Run(m, New(values), es).log;
             Flags(log[i]) && Flags(log[j]) && (forall k :: i < k < j ==> !Flags(log[k]))
    ensures var log := Run(m, New(values), es).log; log[i].action != log[j].action
  {
    RunKeepsAlternating(m, New(values), es);
    var s := Run(m, New(values), es);
    var start :| FlagInv(m, start, s);
    AlternatePairwise(start, s.log, i, j);
  }

  // ---- Where the theorems stop -----------------------------------------------------------------

  /** `refresh_from_db(fields=...)`: the named values are re-read, but every tracked field is re-baselined. */
  function PartlyRefreshed(m: Model, s: State, fields: set<string>): State
    requires s.row.Some?
  {
    var values := map c | c in s.inst.values ::
                    if Wanted(m, Some(fields), c) && c in s.row.value.values
                    then s.row.value.values[c] else s.inst.values[c];
    var trail := if "change_history" in fields then s.row.value.trail else s.inst.trail;
    s.(inst := s.inst.(values := values, trail := trail, snapshot := Some(TrackedValues(m, values))))
  }

  /** A partial refresh keeps the baseline honest exactly when no tracked edit is pending outside it. */
  lemma PartialRefreshExactly(m: Model, s: State, fields: set<string>)
    requires WellFormed(m) && Consistent(m, s) && !s.inst.adding
    ensures Consistent(m, PartlyRefreshed(m, s, fields)) <==>
            forall f :: f in m.tracked && !Wanted(m, Some(fields), f) ==> s.inst.values[f] == s.row.value.values[f]
  {
    var s' := PartlyRefreshed(m, s, fields);
    assert s'.inst.values.Keys == m.columns;
    var snapshot, stored := s'.inst.snapshot.value, TrackedValues(m, s.row.value.values);
    assert snapshot.Keys == stored.Keys;
    forall f | f in m.tracked
      ensures snapshot[f] == stored[f] <==> (Wanted(m, Some(fields), f) || s.inst.values[f] == s.row.value.values[f])
    {}
    if snapshot == stored {
      forall f | f in m.tracked && !Wanted(m, Some(fields), f)
        ensures s.inst.values[f] == s.row.value.values[f]
      {
        assert snapshot[f] == stored[f];
      }
    }
  }

  /** Otherwise the absorbed edit is written by the next full save and never recorded. */
  lemma AbsorbedEditIsLost(m: Model, s: State, fields: set<string>, e: Event, f: string)
    requires WellFormed(m) && Consistent(m, s) && !s.inst.adding && f in m.tracked
    requires !Wanted(m, Some(fields), f) && s.inst.values[f] != s.row.value.values[f]
    requires e.Save? && e.only.None?
    ensures var mid := PartlyRefreshed(m, s, fields);
            && CanSave(m, mid, e.only)
            && f in Saved(m, mid, e).row.value.values
            && Saved(m, mid, e).row.value.values[f] == s.inst.values[f] != mid.row.value.values[f]
            && !Touches(ChangesOf(EntryOf(m, mid, e)), f)
  {
    var mid := PartlyRefreshed(m, s, fields);
    assert mid.inst.values.Keys == m.columns;
    PreparedValues(m, mid, e);
    if Touches(ChangesOf(EntryOf(m, mid, e)), f) {
      var c :| c in ChangesOf(EntryOf(m, mid, e)) && c.field == f;
      DiffMembers(m, Names(m.tracked), mid.inst.snapshot.value,
                  TrackedValues(m, mid.inst.values), WithUpdatedOn(e.only), c);
    }
  }

  /** What there is to record: on a new row anything tracked, later an edit of a tracked field the save writes. */
  ghost predicate NothingToRecord(m: Model, s: State, only: Option<set<string>>)
    requires Consistent(m, s) && WellFormed(m)
  {
    if s.inst.adding then m.tracked == []
    else forall f :: f in m.tracked && Wanted(m, only, f) ==> s.inst.values[f] == s.row.value.values[f]
  }

  lemma EntryExactly(m: Model, s: State, e: Event)
    requires WellFormed(m) && Consistent(m, s) && e.Save?
    ensures EntryOf(m, s, e).None? <==> NothingToRecord(m, s, e.only)
  {
    if !s.inst.adding {
      UpdateChanges(m, s, e);
      var changes := ChangesOf(EntryOf(m, s, e));
      if changes != [] {
        assert changes[0] in changes;
        RecordsWantedEdit(m, s, e, changes[0]);
      }
      forall f | f in m.tracked && Wanted(m, e.only, f) && s.inst.values[f] != s.row.value.values[f]
        ensures changes != []
      {
        RecordsWantedEdit(m, s, e, Change(f, s.row.value.values[f], s.inst.values[f]));
      }
    }
  }

  /** A save whose database write raised: the timestamps and the entry are already on the instance. */
  function FailedSave(m: Model, s: State, e: Event): State
    requires e.Save?
  {
    s.(inst := Prepared(m, s, e))
  }

  /** An entry records a change that the log does not end with: no two entries in a row are the same. */
  lemma EntryIsNotLast(m: Model, s: State, e: Event)
    requires Sound(m, s) && e.Save? && EntryOf(m, s, e).Some? && s.log != []
    ensures EntryOf(m, s, e).value != s.log[|s.log| - 1]
  {
    var last, entry := s.log[|s.log| - 1], EntryOf(m, s, e).value;
    UpdateChanges(m, s, e);
    if entry == last {
      var c := entry.changes[0];
      assert c in ChangesOf(EntryOf(m, s, e));
      RecordsWantedEdit(m, s, e, c);
      ApplyAt(Replay(s.log[..|s.log| - 1]), last.changes, c.field, c.after);
    }
  }

  lemma CappedMovesExactly(log: seq<Entry>, e: Entry, cap: int)
    requires log != [] ==> e != log[|log| - 1]
    ensures Capped(Kept(log, cap) + [e], cap) == Kept(log, cap) <==> cap < 0
  {
    var before, after := Kept(log, cap), Capped(Kept(log, cap) + [e], cap);
    if cap >= 0 {
      assert after[|after| - 1] == e;
      assert before != [] ==> before[|before| - 1] == log[|log| - 1];
    }
  }

  /**
   A failed save leaves the instance agreeing with its row exactly when there was nothing to record, or when
   a negative cap cuts every entry off again.
   */
  lemma FailedSaveExactly(m: Model, s: State, e: Event)
    requires Sound(m, s) && e.Save?
    ensures Consistent(m, FailedSave(m, s, e)) <==> NothingToRecord(m, s, e.only) || m.cap < 0
  {
    EntryExactly(m, s, e);
    PreparedValues(m, s, e);
    if EntryOf(m, s, e).Some? {
      if s.log != [] { EntryIsNotLast(m, s, e); }
      CappedMovesExactly(s.log, EntryOf(m, s, e).value, m.cap);
    }
  }

  /** The database write that failed does not change what the next save records. */
  lemma RetryRecordsTheSame(m: Model, s: State, failed: Event, e: Event)
    requires WellFormed(m) && Consistent(m, s) && failed.Save? && e.Save?
    ensures EntryOf(m, FailedSave(m, s, failed), e) == EntryOf(m, s, e)
  {
    PreparedValues(m, s, failed);
  }

  /** The trail ends with `e`, and before it with what `before` ended with. */
  predicate Extends(trail: seq<Entry>, before: seq<Entry>, e: Entry) {
    && |trail| >= 1 && trail[|trail| - 1] == e
    && (before == [] ==> |trail| == 1)
    && (before != [] ==> |trail| >= 2 && trail[|trail| - 2] == before[|before| - 1])
  }

  lemma CappedExtends(before: seq<Entry>, e: Entry, cap: int)
    requires cap >= 2
    ensures Extends(Capped(before + [e], cap), before, e)
  {
    var all := before + [e];
    assert all[|all| - 1] == e;
    if before != [] { assert all[|all| - 2] == before[|before| - 1]; }
  }

  lemma KeptEnds(log: seq<Entry>, cap: int)
    requires cap >= 2
    ensures Kept(log, cap) != [] <==> log != []
    ensures log != [] ==> var kept := Kept(log, cap); kept[|kept| - 1] == log[|log| - 1]
  {}

  lemma TwiceExtended(trail: seq<Entry>, mid: seq<Entry>, before: seq<Entry>, honest: seq<Entry>, a: Entry, b: Entry)
    requires Extends(mid, before, a) && Extends(trail, mid, b) && Extends(honest, before, b)
    requires before != [] ==> before[|before| - 1] != a
    ensures |trail| >= 2 && trail[|trail| - 2] == a && trail[|trail| - 1] == b && trail != honest
  {}

  /** A trail on which the orphan stands before the newest entry, so that it is not what the cap keeps of the log. */
  predicate HoldsOrphan(m: Model, trail: seq<Entry>, orphan: Entry, log: seq<Entry>) {
    && |trail| >= 2 && trail[|trail| - 2] == orphan
    && log != [] && trail[|trail| - 1] == log[|log| - 1]
    && trail != Kept(log, m.cap)
  }

  /** What a save leaves of an instance's trail, in the instance and in the row. */
  lemma TrailAfterFullSave(m: Model, s: State, e: Event)
    requires e.Save? && e.only.None? && CanSave(m, s, None)
    ensures Saved(m, s, e).row.Some? && Saved(m, s, e).row.value.trail == Append(m, s.inst, EntryOf(m, s, e)).trail
  {}

  lemma TrailAfterFailure(m: Model, s: State, e: Event)
    requires e.Save?
    ensures FailedSave(m, s, e).inst.trail == Append(m, s.inst, EntryOf(m, s, e)).trail
    ensures FailedSave(m, s, e).row == s.row && FailedSave(m, s, e).log == s.log
    ensures FailedSave(m, s, e).inst.adding == s.inst.adding
  {}

  /** An unsaved edit is there for the next full save too. */
  lemma StillToRecord(m: Model, s: State, failed: Event, e: Event)
    requires WellFormed(m) && Consistent(m, s) && failed.Save? && e.Save? && e.only.None?
    requires EntryOf(m, s, failed).Some?
    ensures EntryOf(m, s, e).Some? && CanSave(m, FailedSave(m, s, failed), None)
  {
    EntryExactly(m, s, failed);
    EntryExactly(m, s, e);
    TrailAfterFailure(m, s, failed);
  }

  lemma OrphanPrecedes(m: Model, log: seq<Entry>, orphan: Entry, entry: Entry)
    requires m.cap >= 2 && (log != [] ==> orphan != log[|log| - 1])
    ensures HoldsOrphan(m, Capped(Capped(Kept(log, m.cap) + [orphan], m.cap) + [entry], m.cap), orphan, log + [entry])
  {
    var kept := Kept(log, m.cap);
    var mid := Capped(kept + [orphan], m.cap);
    KeptEnds(log, m.cap);
    CappedExtends(kept, orphan, m.cap);
    CappedExtends(mid, entry, m.cap);
    CappedExtends(kept, entry, m.cap);
    CappedAppend(log, entry, m.cap);
    TwiceExtended(Capped(mid + [entry], m.cap), mid, kept, Kept(log + [entry], m.cap), orphan, entry);
  }

  lemma RetriedTrail(m: Model, s: State, failed: Event, e: Event)
    requires WellFormed(m) && Consistent(m, s) && failed.Save? && EntryOf(m, s, failed).Some?
    requires e.Save? && e.only.None?
    ensures var mid, orphan, entry := FailedSave(m, s, failed), EntryOf(m, s, failed), EntryOf(m, s, e);
            && CanSave(m, mid, None) && Saved(m, mid, e).row.Some? && entry.Some?
            && Saved(m, mid, e).row.value.trail ==
               Capped(Capped(s.inst.trail + [orphan.value], m.cap) + [entry.value], m.cap)
            && Saved(m, mid, e).log == s.log + [entry.value]
  {
    var mid := FailedSave(m, s, failed);
    StillToRecord(m, s, failed, e);
    RetryRecordsTheSame(m, s, failed, e);
    TrailAfterFailure(m, s, failed);
    TrailAfterFullSave(m, mid, e);
    LogAfter(m, mid, e);
  }

  /** A failed save and then a full one: the row's trail shows the entry of the failed save. */
  ghost predicate StoresOrphan(m: Model, s: State, failed: Event, e: Event)
    requires failed.Save? && EntryOf(m, s, failed).Some? && e.Save? && e.only.None?
  {
    var mid := FailedSave(m, s, failed);
    && CanSave(m, mid, None) && Saved(m, mid, e).row.Some?
    && HoldsOrphan(m, Saved(m, mid, e).row.value.trail, EntryOf(m, s, failed).value, Saved(m, mid, e).log)
  }

  lemma RetryStoresOrphan(m: Model, s: State, failed: Event, e: Event)
    requires WellFormed(m) && Consistent(m, s) && s.inst.trail == Kept(s.log, m.cap) && m.cap >= 2
    requires failed.Save? && EntryOf(m, s, failed).Some? && e.Save? && e.only.None?
    requires s.log != [] ==> EntryOf(m, s, failed).value != s.log[|s.log| - 1]
    ensures StoresOrphan(m, s, failed, e)
  {
    RetriedTrail(m, s, failed, e);
    OrphanPrecedes(m, s.log, EntryOf(m, s, failed).value, EntryOf(m, s, e).value);
  }

  /**
   What a failed save leaves behind is stored by the instance's next full save, although no save of it ever
   succeeded: the row's trail then shows an entry that the log does not hold there.
   */
  lemma OrphanIsStored(m: Model, s: State, failed: Event, e: Event)
    requires Sound(m, s) && failed.Save? && EntryOf(m, s, failed).Some? && m.cap >= 2
    requires e.Save? && e.only.None?
    ensures StoresOrphan(m, s, failed, e)
  {
    if s.log != [] { EntryIsNotLast(m, s, failed); }
    RetryStoresOrphan(m, s, failed, e);
  }

  // ---- The model instance ----------------------------------------------------------------------

  /** An instance of the mixed model, with the row behind it. */
  class HistoryRow {
    const m: Model
    var adding: bool
    var values: Values
    var trail: seq<Entry>
    var snapshot: Option<Values>
    var row: Option<Stored>
    ghost var log: seq<Entry>

    ghost function View(): State
      reads this
    {
      State(Instance(adding, values, trail, snapshot), row, log)
    }

    ghost predicate Valid()
      reads this
    {
      Sound(m, View())
    }

    constructor (m: Model, values: Values)
      requires WellFormed(m) && values.Keys == m.columns
      ensures Valid() && View() == New(values) && this.m == m
    {
      this.m := m;
      this.values := values;
      adding, trail, snapshot, row, log := true, [], None, None, [];
    }

    /** An edit is pending until a save: nothing of it is stored or recorded. */
    method SetField(name: string, value: Value)
      requires Valid()
      modifies this`values
      ensures Valid() && View() == Step(m, old(View()), Assign(name, value))
      ensures values == if name in m.columns then old(values)[name := value] else old(values)
    {
      if name in m.columns {
        values := values[name := value];
      }
    }

    /** The loop over the whitelist. */
    method HistoryValues() returns (current: Values)
      ensures current == TrackedValues(m, values)
    {
      current := map[];
      for i := 0 to |m.tracked|
        invariant current == map f | f in m.tracked[..i] && f in values :: values[f]
      {
        var f := m.tracked[i];
        assert m.tracked[..i + 1] == m.tracked[..i] + [f];
        if f in values {
          current := current[f := values[f]];
        }
      }
      assert m.tracked[..|m.tracked|] == m.tracked;
    }

    /** The base model's layer: a partial write also stamps the row. */
    method Save(only: Option<set<string>>, at: int, actor: Actor, now: Value)
      requires Valid() && CanSave(m, View(), only)
      modifies this
      ensures Valid() && View() == Saved(m, old(View()), Event.Save(only, at, actor, now))
    {
      ghost var before, e := View(), Event.Save(only, at, actor, now);
      SaveTrail(if only.Some? then Some(only.value + {"updated_on"}) else None, at, actor, now, only);
      assert View() == Step(m, before, e);
      StepKeepsSound(m, before, e);
    }

    /** The trail's layer, then the database write, then the new baseline. */
    method SaveTrail(columns: Option<set<string>>, at: int, actor: Actor, now: Value, ghost only: Option<set<string>>)
      requires CanSave(m, View(), only) && columns == WithUpdatedOn(only)
      modifies this
      ensures View() == Saved(m, old(View()), Event.Save(only, at, actor, now))
    {
      var entry := BuildEntry(m, Instance(adding, values, trail, snapshot), columns, at, actor);
      var written := columns;
      if entry.Some? {
        trail := Capped(trail + [entry.value], m.cap);
        if columns.Some? {
          written := Some(columns.value + {"change_history"});
        }
        log := log + [entry.value];
      }
      var wasAdding := adding;
      values := values["updated_on" := now] + if adding then map["created_on" := now] else map[];
      row := Some(Write(m, Instance(adding, values, trail, snapshot), row, written));
      adding := false;
      SyncSnapshot(if wasAdding then None else columns);
    }

    method SyncSnapshot(only: Option<set<string>>)
      modifies this`snapshot
      ensures snapshot == Sync(m, old(View()).inst, only).snapshot
    {
      var current := HistoryValues();
      if only.None? {
        snapshot := Some(current);
        return;
      }
      var baseline := if snapshot.Some? then snapshot.value else map[];
      snapshot := Some(baseline + map f | f in current && Wanted(m, only, f) :: current[f]);
    }

    method RefreshFromDb()
      requires Valid() && row.Some?
      modifies this
      ensures Valid() && View() == Step(m, old(View()), Reload)
      ensures row == old(row) && values == row.value.values && trail == row.value.trail && !adding
    {
      adding, values, trail := false, row.value.values, row.value.trail;
      var current := HistoryValues();
      snapshot := Some(current);
    }

    /** Flag the row and persist the flag alone. */
    method SoftDelete(at: int, actor: Actor, now: Value)
      requires Valid() && "is_deleted" in m.columns && !adding && row.Some?
      modifies this
      ensures Valid() && View() == Run(m, old(View()), SoftDeletion(at, actor, now))
    {
      ghost var before := View();
      SetField("is_deleted", Num(1.0));
      ghost var mid := View();
      Save(Some({"is_deleted"}), at, actor, now);
      RunSoftDeletion(m, before, at, actor, now);
    }
  }

  function SoftDeletion(at: int, actor: Actor, now: Value): seq<Event> {
    [Assign("is_deleted", Num(1.0)), Event.Save(Some({"is_deleted"}), at, actor, now)]
  }

  lemma RunSoftDeletion(m: Model, s: State, at: int, actor: Actor, now: Value)
    ensures var es := SoftDeletion(at, actor, now);
            Run(m, s, es) == Step(m, Step(m, s, es[0]), es[1])
  {
    var es := SoftDeletion(at, actor, now);
    assert es[1..] == [es[1]] && es[1..][1..] == [];
    assert Run(m, Step(m, s, es[0]), es[1..]) == Run(m, Step(m, Step(m, s, es[0]), es[1]), []);
  }

  /** Soft-deleting a row that is not deleted appends one entry: `deleted`, by the bound actor. */
  lemma SoftDeleteRecordsDeleted(m: Model, s: State, at: int, actor: Actor, now: Value)
    requires WellFormed(m) && Consistent(m, s) && !s.inst.adding && "is_deleted" in m.tracked
    requires s.row.value.values["is_deleted"] == Num(0.0)
    ensures var s' := Run(m, s, SoftDeletion(at, actor, now));
            && s'.row.Some? && "is_deleted" in s'.row.value.values && s'.row.value.values["is_deleted"] == Num(1.0)
            && |s'.log| == |s.log| + 1 && s'.log[..|s.log|] == s.log
            && s'.log[|s.log|].action == Deleted && s'.log[|s.log|].actor == actor
  {
    RunSoftDeletion(m, s, at, actor, now);
    var es := SoftDeletion(at, actor, now);
    var mid := Step(m, s, es[0]);
    FlaggedSaveDeletes(m, mid, es[1]);
    LogAfter(m, mid, es[1]);
    FlagIsWritten(m, mid, es[1]);
  }

  /** Soft-deleting stores the flag and the stamp alone: an edit of another column stays on the instance, unsaved. */
  lemma SoftDeleteLeavesOthers(m: Model, s: State, at: int, actor: Actor, now: Value, f: string)
    requires WellFormed(m) && Consistent(m, s) && !s.inst.adding && "is_deleted" in m.columns
    requires f in m.columns && f !in {"is_deleted", "updated_on"}
    requires m.attname(f) !in {"is_deleted", "updated_on", "change_history"}
    ensures var s' := Run(m, s, SoftDeletion(at, actor, now));
            && s'.row.Some? && s'.row.value.values.Keys == m.columns && s'.inst.values.Keys == m.columns
            && s'.row.value.values[f] == s.row.value.values[f] && s'.inst.values[f] == s.inst.values[f]
  {
    RunSoftDeletion(m, s, at, actor, now);
    var es := SoftDeletion(at, actor, now);
    var mid := Step(m, s, es[0]);
    SaveWrites(m, mid, es[1], f);
    PreparedValues(m, mid, es[1]);
  }

  lemma FlaggedSaveDeletes(m: Model, s: State, e: Event)
    requires WellFormed(m) && Consistent(m, s) && !s.inst.adding && "is_deleted" in m.tracked
    requires s.row.value.values["is_deleted"] == Num(0.0) && s.inst.values["is_deleted"] == Num(1.0)
    requires e.Save? && CanSave(m, s, e.only) && Wanted(m, e.only, "is_deleted")
    ensures EntryOf(m, s, e).Some?
    ensures EntryOf(m, s, e).value.action == Deleted && EntryOf(m, s, e).value.actor == e.actor
  {
    FlagIsWritten(m, s, e);
    UpdateAction(m, s, e);
    SettingDeletes();
  }

  lemma SettingDeletes()
    ensures FlagAction(Num(0.0), Num(1.0)) == Deleted && Num(0.0) != Num(1.0)
  {}

  lemma FlagIsWritten(m: Model, s: State, e: Event)
    requires WellFormed(m) && Consistent(m, s) && "is_deleted" in m.tracked
    requires e.Save? && CanSave(m, s, e.only) && Wanted(m, e.only, "is_deleted")
    ensures "is_deleted" in Saved(m, s, e).row.value.values
    ensures Saved(m, s, e).row.value.values["is_deleted"] == s.inst.values["is_deleted"]
  {
    RequestedColumn(m, s, e, "is_deleted");
  }
}
