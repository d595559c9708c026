/**
 SQLite schemas as far as the migration code depends on them: named objects, what creating and dropping one does,
 and the export, drop and replay of user objects (packages/atlas-db-utils/src/lib.rs, lines 436-551).
 */
module Schema {
  import opened Wrappers
  import opened Collections

  type Name = string

  datatype Kind = Table | Index | Trigger | View

  /** `on` is the table or view an index or trigger belongs to, or the virtual table a shadow table belongs to. */
  datatype Object = Object(kind: Kind, on: Option<Name>, sql: string, shadows: set<Name>, shadow: bool)

  type Schema = map<Name, Object>

  const METADATA: Name := "metadata"
  const SCHEMA_MIGRATIONS: Name := "schema_migrations"
  const PROVENANCE: Name := "atlas_provenance"
  const MIGRATIONS_INDEX: Name := "idx_schema_migrations_version_id"

  predicate IsFrameworkTable(n: Name) {
    n == METADATA || n == SCHEMA_MIGRATIONS || n == PROVENANCE
  }

  /** The framework objects; note that their index is not exempt from dropping. */
  function FrameworkObject(n: Name): Object {
    if n == MIGRATIONS_INDEX then Object(Index, Some(SCHEMA_MIGRATIONS), "framework", {}, false)
    else Object(Table, None, "framework", {}, false)
  }

  function Framework(): Schema {
    map n | n in {METADATA, SCHEMA_MIGRATIONS, PROVENANCE, MIGRATIONS_INDEX} :: FrameworkObject(n)
  }

  ghost predicate FrameworkIntact(s: Schema) {
    forall n :: n in Framework() ==> n in s && s[n] == Framework()[n]
  }

  /** `CREATE ... IF NOT EXISTS` for every framework object. */
  function EnsureFramework(s: Schema): Schema {
    Framework() + s
  }

  /** The shadow table a virtual table brings along. */
  function ShadowOf(owner: Name): Object {
    Object(Table, Some(owner), "shadow", {}, true)
  }

  /** Indexes and triggers hang on something present; virtual tables and their shadows come together. */
  ghost predicate WellFormed(s: Schema) {
    forall n :: n in s ==>
      var o := s[n];
      && (o.kind.Index? || o.kind.Trigger? ==> o.on.Some? && o.on.value in s && !o.shadow && o.shadows == {})
      && (o.kind.Index? ==> s[o.on.value].kind.Table?)
      && (o.kind.Trigger? ==> s[o.on.value].kind.Table? || s[o.on.value].kind.View?)
      && (o.kind.View? ==> o.on.None? && !o.shadow && o.shadows == {})
      && (o.kind.Table? && !o.shadow ==> o.on.None?)
      && (o.shadow ==>
            && o.on.Some? && o == ShadowOf(o.on.value) && o.on.value in s && n in s[o.on.value].shadows
            && s[o.on.value].kind.Table? && !s[o.on.value].shadow)
      && (forall m :: m in o.shadows ==> m in s && s[m] == ShadowOf(n))
      && (IsFrameworkTable(n) ==> o.kind.Table? && !o.shadow && o.shadows == {})
  }

  // ---------------------------------------------------------------- create and drop

  predicate CanCreate(s: Schema, n: Name, o: Object) {
    && n !in s && (forall m :: m in o.shadows ==> m !in s && m != n)
    && (o.kind.Index? ==> o.on.Some? && o.on.value in s && s[o.on.value].kind.Table?)
    && (o.kind.Trigger? ==> o.on.Some? && o.on.value in s && (s[o.on.value].kind.Table? || s[o.on.value].kind.View?))
  }

  function Create(s: Schema, n: Name, o: Object): Schema {
    s[n := o] + map m | m in o.shadows :: ShadowOf(n)
  }

  /** `DROP ... IF EXISTS`: a table or view takes its indexes, triggers and shadow tables with it. */
  function Drop(s: Schema, n: Name): Schema {
    map m | m in s && m != n && !(n in s && s[m].on == Some(n)) :: s[m]
  }

  function DropAll(s: Schema, names: seq<Name>): Schema {
    if names == [] then s else Drop(DropAll(s, names[..|names| - 1]), names[|names| - 1])
  }

  /** Run `CREATE` statements in order; the first failure stops the batch. */
  function Replay(s: Schema, names: seq<Name>, from: Schema): (Schema, bool)
    requires forall n :: n in names ==> n in from
  {
    if names == [] then (s, true) else
    var (t, ok) := Replay(s, names[..|names| - 1], from);
    var n := names[|names| - 1];
    if ok && CanCreate(t, n, from[n]) then (Create(t, n, from[n]), true) else (t, false)
  }

  // ---------------------------------------------------------------- listings of sqlite_master

  /** Names in text order. */
  function Listing(names: set<Name>): (list: seq<Name>)
    ensures NoDuplicates(list) && forall n :: n in list <==> n in names
  {
    LexIsStrictTotal();
    StrictlySortedIsDistinct(LexLess, InOrder(LexLess, names));
    InOrder(LexLess, names)
  }

  function Exported(s: Schema, k: Kind): set<Name> {
    set n | n in s && s[n].kind == k && !IsFrameworkTable(n) && !s[n].shadow
  }

  function Concat(a: seq<Name>, b: seq<Name>, c: seq<Name>, d: seq<Name>): (list: seq<Name>)
    ensures forall n :: n in list <==> n in a || n in b || n in c || n in d
  {
    a + b + c + d
  }

  /** Export order: tables, indexes, triggers, views. */
  function ExportOrder(s: Schema): (list: seq<Name>)
    ensures forall n :: n in list <==> n in s && !IsFrameworkTable(n) && !s[n].shadow
  {
    KindsCover(s);
    Concat(Listing(Exported(s, Table)), Listing(Exported(s, Index)), Listing(Exported(s, Trigger)),
           Listing(Exported(s, View)))
  }

  /** Drop order: triggers, indexes, views, tables. */
  function DropOrder(s: Schema): (list: seq<Name>)
    ensures forall n :: n in list <==> n in s && !IsFrameworkTable(n) && !s[n].shadow
  {
    KindsCover(s);
    Concat(Listing(Exported(s, Trigger)), Listing(Exported(s, Index)), Listing(Exported(s, View)),
           Listing(Exported(s, Table)))
  }

  lemma KindsCover(s: Schema)
    ensures forall n :: n in s && !IsFrameworkTable(n) && !s[n].shadow <==>
              n in Exported(s, Table) || n in Exported(s, Index) || n in Exported(s, Trigger) || n in Exported(s, View)
  {
    forall n | n in s ensures s[n].kind.Table? || s[n].kind.Index? || s[n].kind.Trigger? || s[n].kind.View? {}
  }

  // ---------------------------------------------------------------- dropping leaves the framework tables

  lemma {:induction false} DropAllShrinks(s: Schema, names: seq<Name>, n: Name)
    ensures n in DropAll(s, names) ==> n in s && DropAll(s, names)[n] == s[n] && n !in names
    ensures n in s && s[n].on.None? && n !in names ==> n in DropAll(s, names)
  {
    if names != [] {
      var init, last := names[..|names| - 1], names[|names| - 1];
      assert names == init + [last];
      DropAllShrinks(s, init, n);
      DropAllShrinks(s, init, last);
    }
  }

  /** Whatever names an object also drops what belongs to it. */
  lemma {:induction false} DropAllTakesDependents(s: Schema, names: seq<Name>, n: Name, owner: Name)
    requires n in s && s[n].on == Some(owner) && owner in s && s[owner].on.None? && owner in names
    ensures n !in DropAll(s, names)
  {
    var init, last := names[..|names| - 1], names[|names| - 1];
    assert names == init + [last];
    DropAllShrinks(s, init, n);
    if owner in init {
      DropAllTakesDependents(s, init, n, owner);
    } else {
      DropAllShrinks(s, init, owner);
    }
  }

  function FrameworkTables(s: Schema): Schema {
    map n | n in s && IsFrameworkTable(n) :: s[n]
  }

  /** Dropping user objects leaves exactly the three framework tables: not even their index survives. */
  lemma DropUserObjects(s: Schema)
    requires WellFormed(s)
    ensures DropAll(s, DropOrder(s)) == FrameworkTables(s)
  {
    var names := DropOrder(s);
    forall n
      ensures n in DropAll(s, names) <==> n in FrameworkTables(s)
      ensures n in DropAll(s, names) ==> DropAll(s, names)[n] == s[n]
    {
      DropAllShrinks(s, names, n);
      if n in s && s[n].shadow {
        DropAllTakesDependents(s, names, n, s[n].on.value);
      }
    }
  }

  // ---------------------------------------------------------------- replaying an export

  /** The export's view of a schema: some objects created so far, on top of the framework tables. */
  function Partly(t: Schema, done: set<Name>): Schema {
    map n | n in t && (IsFrameworkTable(n) || n in done || (t[n].shadow && t[n].on.Some? && t[n].on.value in done)) ::
      t[n]
  }

  /** An object can be created once what it hangs on is there. */
  lemma CreateOneMore(t: Schema, done: set<Name>, n: Name)
    requires WellFormed(t) && n in t && n !in done && !IsFrameworkTable(n) && !t[n].shadow
    requires forall m :: m in done ==> m in t && !t[m].shadow
    ensures CanCreate(Partly(t, done), n, t[n]) <==>
            (t[n].kind.Index? || t[n].kind.Trigger? ==> t[n].on.value in Partly(t, done))
    ensures Create(Partly(t, done), n, t[n]) == Partly(t, done + {n})
  {
    var before, after := Partly(t, done), Partly(t, done + {n});
    forall m ensures m in Create(before, n, t[n]) <==> m in after {
      if m in after && m != n && m !in before {
        assert t[m].shadow && t[m].on.value == n;
      }
    }
  }

  /** Replaying names of one kind, when everything that kind hangs on is already there. */
  lemma {:induction false} ReplayKind(s: Schema, t: Schema, done: set<Name>, names: seq<Name>)
    requires WellFormed(t) && NoDuplicates(names) && s == Partly(t, done)
    requires forall m :: m in done ==> m in t && !t[m].shadow && m !in names
    requires forall n :: n in names ==> n in t && !IsFrameworkTable(n) && !t[n].shadow
    requires forall n :: n in names && (t[n].kind.Index? || t[n].kind.Trigger?) ==> t[n].on.value in Partly(t, done)
    ensures Replay(s, names, t) == (Partly(t, done + ToSet(names)), true)
  {
    if names == [] {
      assert done + ToSet(names) == done;
    } else {
      var init, last := names[..|names| - 1], names[|names| - 1];
      assert names == init + [last];
      assert last !in init;
      ReplayKind(s, t, done, init);
      ReplaySnoc(s, t, names);
      NextIsCreated(t, done, done + ToSet(init), last);
      assert done + ToSet(init) + {last} == done + ToSet(names);
    }
  }

  lemma ReplaySnoc(s: Schema, t: Schema, names: seq<Name>)
    requires names != [] && forall n :: n in names ==> n in t
    ensures var init, last := names[..|names| - 1], names[|names| - 1];
            var (r, ok) := Replay(s, init, t);
            Replay(s, names, t) == if ok && CanCreate(r, last, t[last]) then (Create(r, last, t[last]), true)
              else (r, false)
  {}

  lemma NextIsCreated(t: Schema, done: set<Name>, so: set<Name>, n: Name)
    requires WellFormed(t) && n in t && n !in so && !IsFrameworkTable(n) && !t[n].shadow && done <= so
    requires forall m :: m in so ==> m in t && !t[m].shadow
    requires t[n].kind.Index? || t[n].kind.Trigger? ==> t[n].on.value in Partly(t, done)
    ensures CanCreate(Partly(t, so), n, t[n]) && Create(Partly(t, so), n, t[n]) == Partly(t, so + {n})
  {
    CreateOneMore(t, so, n);
  }

  lemma {:induction false} ReplayConcat(s: Schema, a: seq<Name>, b: seq<Name>, t: Schema)
    requires forall n :: n in a + b ==> n in t
    requires forall n :: (n in a ==> n in t) && (n in b ==> n in t)
    ensures Replay(s, a + b, t) ==
            var (mid, ok) := Replay(s, a, t); if ok then Replay(mid, b, t) else (mid, false)
  {
    if b == [] {
      assert a + b == a;
    } else {
      var init := b[..|b| - 1];
      assert (a + b)[..|a + b| - 1] == a + init;
      assert forall n :: n in a + init ==> n in a || n in b;
      ReplayConcat(s, a, init, t);
    }
  }

  ghost predicate NoTriggerOnView(t: Schema) {
    forall n :: n in t && t[n].kind.Trigger? && t[n].on.Some? && t[n].on.value in t ==> !t[t[n].on.value].kind.View?
  }

  /** Create every exported object of one kind. */
  function AddKind(t: Schema, done: set<Name>, k: Kind): set<Name> {
    done + Exported(t, k)
  }

  lemma ReplayOneKind(t: Schema, done: set<Name>, k: Kind)
    requires WellFormed(t)
    requires forall m :: m in done ==> m in t && !t[m].shadow && t[m].kind != k
    requires forall n :: n in Exported(t, k) && (t[n].kind.Index? || t[n].kind.Trigger?) ==>
             t[n].on.value in Partly(t, done)
    ensures Replay(Partly(t, done), Listing(Exported(t, k)), t) == (Partly(t, AddKind(t, done, k)), true)
  {
    ReplayKind(Partly(t, done), t, done, Listing(Exported(t, k)));
    assert ToSet(Listing(Exported(t, k))) == Exported(t, k);
  }

  /** With all tables created, every table of the schema is there: exported, framework or shadow. */
  lemma TablesArePresent(t: Schema, done: set<Name>, n: Name)
    requires WellFormed(t) && Exported(t, Table) <= done && n in t && t[n].kind.Table?
    ensures n in Partly(t, done)
  {
    if t[n].shadow {
      var owner := t[n].on.value;
      assert owner in Exported(t, Table);
    } else if !IsFrameworkTable(n) {
      assert n in Exported(t, Table);
    }
  }

  /** Everything created before the triggers, before the views, and at the end. */
  function BeforeTriggers(t: Schema): set<Name> { AddKind(t, Exported(t, Table), Index) }

  function BeforeViews(t: Schema): set<Name> { AddKind(t, BeforeTriggers(t), Trigger) }

  lemma ReplayTablesAndIndexes(t: Schema)
    requires WellFormed(t)
    ensures Replay(FrameworkTables(t), Listing(Exported(t, Table)) + Listing(Exported(t, Index)), t)
            == (Partly(t, BeforeTriggers(t)), true)
  {
    ReplayTables(t);
    ReplayIndexes(t);
    ReplayConcat(FrameworkTables(t), Listing(Exported(t, Table)), Listing(Exported(t, Index)), t);
  }

  lemma ReplayTables(t: Schema)
    requires WellFormed(t)
    ensures Replay(FrameworkTables(t), Listing(Exported(t, Table)), t) == (Partly(t, Exported(t, Table)), true)
  {
    assert FrameworkTables(t) == Partly(t, {});
    assert AddKind(t, {}, Table) == Exported(t, Table);
    ReplayOneKind(t, {}, Table);
  }

  lemma ReplayIndexes(t: Schema)
    requires WellFormed(t)
    ensures Replay(Partly(t, Exported(t, Table)), Listing(Exported(t, Index)), t) ==
            (Partly(t, BeforeTriggers(t)), true)
  {
    forall n | n in Exported(t, Index) ensures t[n].on.value in Partly(t, Exported(t, Table)) {
      TablesArePresent(t, Exported(t, Table), t[n].on.value);
    }
    ReplayOneKind(t, Exported(t, Table), Index);
  }

  lemma ReplayTriggers(t: Schema)
    requires WellFormed(t) && NoTriggerOnView(t)
    ensures Replay(Partly(t, BeforeTriggers(t)), Listing(Exported(t, Trigger)), t) == (Partly(t, BeforeViews(t)), true)
  {
    forall n | n in Exported(t, Trigger) ensures t[n].on.value in Partly(t, BeforeTriggers(t)) {
      TablesArePresent(t, BeforeTriggers(t), t[n].on.value);
    }
    ReplayOneKind(t, BeforeTriggers(t), Trigger);
  }

  lemma ReplayViews(t: Schema)
    requires WellFormed(t)
    ensures Replay(Partly(t, BeforeViews(t)), Listing(Exported(t, View)), t) == (t, true)
  {
    ReplayOneKind(t, BeforeViews(t), View);
    PartlyAll(t, AddKind(t, BeforeViews(t), View));
  }

  /** The export replays in three stages: tables and indexes, triggers, views. */
  lemma ExportStages(t: Schema)
    ensures var early := Listing(Exported(t, Table)) + Listing(Exported(t, Index));
            var triggers, views := Listing(Exported(t, Trigger)), Listing(Exported(t, View));
            && (forall n :: n in early || n in triggers || n in views ==> n in t)
            && var (s1, ok1) := Replay(FrameworkTables(t), early, t);
            var (s2, ok2) := Replay(s1, triggers, t);
            Replay(FrameworkTables(t), ExportOrder(t), t) ==
            if !ok1 then (s1, false) else if !ok2 then (s2, false) else Replay(s2, views, t)
  {
    var early := Listing(Exported(t, Table)) + Listing(Exported(t, Index));
    var triggers, views := Listing(Exported(t, Trigger)), Listing(Exported(t, View));
    ReplayConcat(FrameworkTables(t), early, triggers, t);
    ReplayConcat(FrameworkTables(t), early + triggers, views, t);
  }

  lemma ReplayLast(s: Schema, t: Schema, names: seq<Name>)
    requires names != [] && (forall n :: n in names ==> n in t) && Replay(s, names, t).1
    ensures var init, last := names[..|names| - 1], names[|names| - 1];
            var (r, ok) := Replay(s, init, t);
            ok && CanCreate(r, last, t[last]) && Replay(s, names, t).0 == Create(r, last, t[last])
  {
    ReplaySnoc(s, t, names);
  }

  /** A replay adds nothing but what it creates and the shadows of that. */
  lemma {:induction false} ReplayAddsOnlyNames(s: Schema, t: Schema, names: seq<Name>, m: Name)
    requires (forall n :: n in names ==> n in t) && m in Replay(s, names, t).0 && m !in s
    ensures m in names || exists n :: n in names && m in t[n].shadows
  {
    if names != [] {
      var init, last := names[..|names| - 1], names[|names| - 1];
      assert names == init + [last];
      ReplaySnoc(s, t, names);
      if m in Replay(s, init, t).0 { ReplayAddsOnlyNames(s, t, init, m); }
    }
  }

  /** Every trigger a successful replay created found what it hangs on. */
  lemma {:induction false} ReplayedTriggersHang(s: Schema, t: Schema, names: seq<Name>, n: Name)
    requires (forall m :: m in names ==> m in t) && Replay(s, names, t).1 && n in names && t[n].kind.Trigger?
    ensures t[n].on.Some? && t[n].on.value in Replay(s, names, t).0
  {
    var init, last := names[..|names| - 1], names[|names| - 1];
    ReplayLast(s, t, names);
    assert names == init + [last];
    if n != last { ReplayedTriggersHang(s, t, init, n); }
  }

  /**
   Exporting a schema and replaying the export on the bare framework tables succeeds IF AND ONLY IF no trigger sits on
   a view, because views come last in the export; and when it succeeds it restores the schema exactly.
   */
  lemma ReplayRestoresIff(t: Schema)
    requires WellFormed(t)
    ensures Replay(FrameworkTables(t), ExportOrder(t), t).1 <==> NoTriggerOnView(t)
    ensures NoTriggerOnView(t) ==> Replay(FrameworkTables(t), ExportOrder(t), t) == (t, true)
  {
    ExportStages(t);
    ReplayTablesAndIndexes(t);
    ReplayViews(t);
    if NoTriggerOnView(t) {
      ReplayTriggers(t);
    } else {
      TriggerOnViewFails(t);
    }
  }

  lemma TriggerOnViewFails(t: Schema)
    requires WellFormed(t) && !NoTriggerOnView(t)
    ensures !Replay(Partly(t, BeforeTriggers(t)), Listing(Exported(t, Trigger)), t).1
  {
    var n :| n in t && t[n].kind.Trigger? && t[t[n].on.value].kind.View?;
    TriggerMissesView(t, n, t[n].on.value, Partly(t, BeforeTriggers(t)), Listing(Exported(t, Trigger)));
  }

  lemma TriggerMissesView(t: Schema, n: Name, view: Name, s: Schema, triggers: seq<Name>)
    requires WellFormed(t) && n in t && t[n].kind.Trigger? && t[n].on == Some(view) && view in t && t[view].kind.View?
    requires s == Partly(t, BeforeTriggers(t)) && triggers == Listing(Exported(t, Trigger))
    ensures !Replay(s, triggers, t).1
  {
    ViewIsNotThere(t, view, BeforeTriggers(t));
    assert n in triggers;
    if Replay(s, triggers, t).1 {
      ReplayedTriggersHang(s, t, triggers, n);
      ReplayAddsOnlyNames(s, t, triggers, view);
    }
  }

  lemma ViewIsNotThere(t: Schema, view: Name, done: set<Name>)
    requires WellFormed(t) && view in t && t[view].kind.View? && forall n :: n in done ==> n in t && !t[n].kind.View?
    ensures view !in Partly(t, done)
  {}

  lemma PartlyAll(t: Schema, done: set<Name>)
    requires WellFormed(t)
    requires Exported(t, Table) <= done && Exported(t, Index) <= done && Exported(t, Trigger) <= done
             && Exported(t, View) <= done
    ensures Partly(t, done) == t
  {
    KindsCover(t);
    forall n | n in t ensures n in Partly(t, done) {
      if t[n].kind.Table? { TablesArePresent(t, done, n); }
    }
  }

  /** A replay keeps what it finds. */
  lemma {:induction false} ReplayKeeps(s: Schema, t: Schema, names: seq<Name>, n: Name)
    requires (forall m :: m in names ==> m in t) && n in s
    ensures n in Replay(s, names, t).0 && Replay(s, names, t).0[n] == s[n]
  {
    if names != [] {
      ReplaySnoc(s, t, names);
      ReplayKeeps(s, t, names[..|names| - 1], n);
    }
  }

  /** A failed replay of an export leaves all tables and indexes, no view, and nothing that is not in the export. */
  lemma FailedReplayLeaves(t: Schema, n: Name)
    requires WellFormed(t) && !NoTriggerOnView(t)
    ensures var s := Replay(FrameworkTables(t), ExportOrder(t), t).0;
            && (n in s ==> n in t && !t[n].kind.View?)
            && (n in t && (t[n].kind.Table? || (t[n].kind.Index? && !IsFrameworkTable(n))) ==> n in s && s[n] == t[n])
  {
    var s1, triggers := Partly(t, BeforeTriggers(t)), Listing(Exported(t, Trigger));
    ExportStages(t);
    ReplayTablesAndIndexes(t);
    TriggerOnViewFails(t);
    var s := Replay(s1, triggers, t).0;
    assert s == Replay(FrameworkTables(t), ExportOrder(t), t).0;
    if n in s1 { ReplayKeeps(s1, t, triggers, n); } else if n in s { ReplayAddsOnlyNames(s1, t, triggers, n); }
    if n in t && t[n].kind.Table? { TablesArePresent(t, BeforeTriggers(t), n); }
    if n in t && t[n].kind.View? { ViewIsNotThere(t, n, BeforeTriggers(t)); }
  }

  lemma FrameworkWithMore(view: Name, trigger: Name)
    requires view != trigger && view !in Framework() && trigger !in Framework()
    ensures var t := Framework()[view := Object(View, None, "", {}, false)]
                                [trigger := Object(Trigger, Some(view), "", {}, false)];
            WellFormed(t) && FrameworkIntact(t)
  {}

  /** Such schemas exist: a view with a trigger on it, for any two names. */
  lemma TriggerOnViewHappens(view: Name, trigger: Name)
    requires view != trigger && view !in Framework() && trigger !in Framework()
    ensures var t := Framework()[view := Object(View, None, "", {}, false)]
                                [trigger := Object(Trigger, Some(view), "", {}, false)];
            WellFormed(t) && FrameworkIntact(t) && !Replay(FrameworkTables(t), ExportOrder(t), t).1
  {
    var t := Framework()[view := Object(View, None, "", {}, false)]
                        [trigger := Object(Trigger, Some(view), "", {}, false)];
    FrameworkWithMore(view, trigger);
    assert !NoTriggerOnView(t) by { assert t[trigger].on.value == view; }
    ReplayRestoresIff(t);
  }
}
