/**
 The schema migration machine (packages/atlas-db-utils/src/lib.rs): step-by-step upgrades, downgrades by rebuilding,
 and an append-only history. A migration script is any function of the schema; it may fail and leave something behind.
 */
module Migrations {
  import opened Wrappers
  import opened Collections
  import opened Schema

  datatype Outcome = Done(schema: Schema) | Broken(leftover: Schema)

  datatype Migration = Migration(version: int, name: string, up: Schema -> Outcome)

  type MigrationSet = seq<Migration>

  datatype Direction = Up | Down

  datatype Entry = Entry(version: int, name: string, direction: Direction)

  /** Schema, recorded version, history and the `user_version` header slot of one database. */
  datatype Db = Db(schema: Schema, version: Option<int>, log: seq<Entry>, userVersion: int)

  function Latest(ms: MigrationSet): int {
    if ms == [] then 0 else ms[|ms| - 1].version
  }

  function Current(db: Db): int {
    if db.version.Some? then db.version.value else 0
  }

  // ---------------------------------------------------------------- the transitions

  /** The migrations an upgrade from `current` to `target` runs, in set order. */
  function Pending(ms: MigrationSet, current: int, target: int): seq<Migration> {
    if ms == [] then [] else
    var m := ms[|ms| - 1];
    Pending(ms[..|ms| - 1], current, target) + (if current < m.version <= target then [m] else [])
  }

  function RunOne(db: Db, m: Migration): (Db, bool) {
    match m.up(db.schema)
    case Broken(s) => (db.(schema := s), false)
    case Done(s) => (db.(schema := s, version := Some(m.version), log := db.log + [Entry(m.version, m.name, Up)]), true)
  }

  /** Run scripts in order; a failing script stops the upgrade where it is. */
  function RunUp(db: Db, ms: seq<Migration>): (Db, bool) {
    if ms == [] then (db, true) else
    var (mid, ok) := RunUp(db, ms[..|ms| - 1]);
    if ok then RunOne(mid, ms[|ms| - 1]) else (mid, false)
  }

  function Entries(ms: seq<Migration>, d: Direction): seq<Entry> {
    seq(|ms|, i requires 0 <= i < |ms| => Entry(ms[i].version, ms[i].name, d))
  }

  function Backfilled(db: Db, ms: MigrationSet): Db {
    if db.log != [] || Current(db) == 0 then db
    else db.(log := Entries(AtMost(ms, Current(db)), Up))
  }

  function AtMost(ms: MigrationSet, v: int): seq<Migration> {
    if ms == [] then [] else
    AtMost(ms[..|ms| - 1], v) + (if ms[|ms| - 1].version <= v then [ms[|ms| - 1]] else [])
  }

  function Find(ms: MigrationSet, v: int): Option<Migration> {
    if ms == [] then None else if ms[0].version == v then Some(ms[0]) else Find(ms[1..], v)
  }

  /** Record the versions left behind, newest first; an undefined version is an error. */
  function LogDown(db: Db, ms: MigrationSet, from: int, target: int): (Db, bool)
    decreases from - target
  {
    if from <= target then (db, true) else
    match Find(ms, from)
    case None => (db, false)
    case Some(m) => LogDown(db.(log := db.log + [Entry(from, m.name, Down)]), ms, from - 1, target)
  }

  function MemoryDb(): Db {
    Db(Framework(), None, [], 0)
  }

  /** Build the target schema in memory, export it, drop all user objects, replay the export. */
  function RebuildDown(db: Db, ms: MigrationSet, current: int, target: int): (Db, bool) {
    var (memory, built) := RunUp(MemoryDb(), Pending(ms, 0, target));
    if !built then (db, false) else
    var (rebuilt, ok) := Replay(DropAll(db.schema, DropOrder(db.schema)), ExportOrder(memory.schema), memory.schema);
    if !ok then (db.(schema := rebuilt), false)
    else LogDown(db.(schema := rebuilt), ms, current, target)
  }

  function Move(db: Db, ms: MigrationSet, current: int, target: int): (Db, bool) {
    if current < target then RunUp(db, Pending(ms, current, target))
    else if current > target then RebuildDown(db, ms, current, target)
    else (db, true)
  }

  /** One call of `migrate_database_to`: the database it leaves, and whether it succeeded. */
  function MigrateTo(db: Db, ms: MigrationSet, target: int): (Db, bool) {
    var ready := db.(schema := EnsureFramework(db.schema));
    if target < 0 || target > Latest(ms) || Current(ready) > Latest(ms) then (ready, false) else
    var (after, ok) := Move(Backfilled(ready, ms), ms, Current(ready), target);
    if ok then (after.(version := Some(target), userVersion := target), true) else (after, false)
  }

  // ---------------------------------------------------------------- the connection

  class Connection {
    var schema: Schema
    var version: Option<int>
    var log: seq<Entry>
    var userVersion: int

    function View(): Db
      reads this
    {
      Db(schema, version, log, userVersion)
    }

    constructor ()
      ensures View() == Db(map[], None, [], 0)
    {
      schema, version, log, userVersion := map[], None, [], 0;
    }

    method ApplyMigration(m: Migration) returns (ok: bool)
      modifies this
      ensures (View(), ok) == RunOne(old(View()), m)
    {
      match m.up(schema)
      case Broken(s) =>
        schema, ok := s, false;
      case Done(s) =>
        schema := s;
        version := Some(m.version);
        log := log + [Entry(m.version, m.name, Up)];
        ok := true;
    }

    method MigrateUp(ms: MigrationSet, current: int, target: int) returns (ok: bool)
      modifies this
      ensures (View(), ok) == RunUp(old(View()), Pending(ms, current, target))
    {
      var todo := Pending(ms, current, target);
      ok := true;
      for i := 0 to |todo|
        invariant (View(), ok) == RunUp(old(View()), todo[..i])
      {
        TakeSnoc(todo, i);
        assert todo[..i + 1][..i] == todo[..i];
        if ok {
          ok := ApplyMigration(todo[i]);
        }
      }
      assert todo[..|todo|] == todo;
    }

    method BackfillHistoryIfMissing(ms: MigrationSet, current: int)
      requires current == Current(View())
      modifies this
      ensures View() == Backfilled(old(View()), ms)
    {
      if |log| > 0 || current == 0 {
        return;
      }
      for i := 0 to |ms|
        invariant View() == old(View()).(log := Entries(AtMost(ms[..i], current), Up))
      {
        TakeSnoc(ms, i);
        assert ms[..i + 1][..i] == ms[..i];
        if ms[i].version <= current {
          EntriesSnoc(AtMost(ms[..i], current), ms[i], Up);
          log := log + [Entry(ms[i].version, ms[i].name, Up)];
        }
      }
      assert ms[..|ms|] == ms;
    }

    method RebuildDownTo(ms: MigrationSet, current: int, target: int) returns (ok: bool)
      modifies this
      ensures (View(), ok) == RebuildDown(old(View()), ms, current, target)
    {
      var memory := new Connection();
      memory.schema := EnsureFramework(memory.schema);
      assert memory.schema == Framework();
      var built := memory.MigrateUp(ms, 0, target);
      if !built {
        return false;
      }
      var ddl := ExportOrder(memory.schema);
      DropUser();
      ok := Recreate(ddl, memory.schema);
      if !ok {
        return;
      }
      ok := RecordDown(ms, current, target);
    }

    method DropUser()
      modifies this`schema
      ensures schema == DropAll(old(schema), DropOrder(old(schema)))
    {
      DropNames(DropOrder(schema));
    }

    method DropNames(names: seq<Name>)
      modifies this`schema
      ensures schema == DropAll(old(schema), names)
    {
      for i := 0 to |names|
        invariant schema == DropAll(old(schema), names[..i])
      {
        TakeSnoc(names, i);
        assert names[..i + 1][..i] == names[..i];
        schema := Drop(schema, names[i]);
      }
      assert names[..|names|] == names;
    }

    method Recreate(names: seq<Name>, from: Schema) returns (ok: bool)
      requires forall n :: n in names ==> n in from
      modifies this`schema
      ensures (schema, ok) == Replay(old(schema), names, from)
    {
      ok := true;
      for i := 0 to |names|
        invariant (schema, ok) == Replay(old(schema), names[..i], from)
      {
        TakeSnoc(names, i);
        assert names[..i + 1][..i] == names[..i];
        if ok {
          if CanCreate(schema, names[i], from[names[i]]) {
            schema := Create(schema, names[i], from[names[i]]);
          } else {
            ok := false;
          }
        }
      }
      assert names[..|names|] == names;
    }

    method RecordDown(ms: MigrationSet, current: int, target: int) returns (ok: bool)
      modifies this`log
      ensures (View(), ok) == LogDown(old(View()), ms, current, target)
    {
      ok := true;
      var v := current;
      while v > target && ok
        invariant ok ==> LogDown(old(View()), ms, current, target) == LogDown(View(), ms, v, target)
        invariant !ok ==> LogDown(old(View()), ms, current, target) == (View(), false)
        decreases v - target, ok
      {
        match Find(ms, v)
        case None => ok := false;
        case Some(m) =>
          log := log + [Entry(v, m.name, Down)];
          v := v - 1;
      }
    }

    method MigrateDatabaseTo(ms: MigrationSet, target: int) returns (ok: bool)
      modifies this
      ensures (View(), ok) == MigrateTo(old(View()), ms, target)
    {
      schema := EnsureFramework(schema);
      if target < 0 || target > Latest(ms) {
        return false;
      }
      var current := if version.Some? then version.value else 0;
      if current > Latest(ms) {
        return false;
      }
      BackfillHistoryIfMissing(ms, current);
      ok := true;
      if current < target {
        ok := MigrateUp(ms, current, target);
      } else if current > target {
        ok := RebuildDownTo(ms, current, target);
      }
      if ok {
        userVersion := target;
        version := Some(target);
      }
    }
  }

  lemma EntriesSnoc(ms: seq<Migration>, m: Migration, d: Direction)
    ensures Entries(ms + [m], d) == Entries(ms, d) + [Entry(m.version, m.name, d)]
  {}

  // ---------------------------------------------------------------- what the sets must satisfy

  /** Versions are 1, 2, 3, ... in order, as in all three stores. */
  ghost predicate Contiguous(ms: MigrationSet) {
    forall i :: 0 <= i < |ms| ==> ms[i].version == i + 1
  }

  /** Scripts turn well-formed schemas into well-formed ones and leave the framework objects alone. */
  ghost predicate Sound(ms: MigrationSet) {
    forall i, s :: 0 <= i < |ms| && WellFormed(s) && FrameworkIntact(s) && ms[i].up(s).Done? ==>
      WellFormed(ms[i].up(s).schema) && FrameworkIntact(ms[i].up(s).schema)
  }

  /** A failing script leaves the schema as it was. */
  ghost predicate Atomic(ms: MigrationSet) {
    forall i, s :: 0 <= i < |ms| && ms[i].up(s).Broken? ==> ms[i].up(s).leftover == s
  }

  /** Reference: the schema a fresh database has after scripts 1 to `n`, if they all succeed. */
  function FreshSchema(ms: MigrationSet, n: nat): Option<Schema>
    requires n <= |ms|
  {
    if n == 0 then Some(Framework()) else
    match FreshSchema(ms, n - 1)
    case None => None
    case Some(s) => match ms[n - 1].up(s) case Done(t) => Some(t) case Broken(_) => None
  }

  /** No version's schema puts a trigger on a view, so every version can be exported. */
  ghost predicate Exportable(ms: MigrationSet) {
    forall n :: 0 <= n <= |ms| && FreshSchema(ms, n).Some? ==> NoTriggerOnView(FreshSchema(ms, n).value)
  }

  ghost predicate Admissible(ms: MigrationSet) {
    Contiguous(ms) && Sound(ms) && Atomic(ms) && Exportable(ms)
  }

  // ---------------------------------------------------------------- the history as a stack

  function UpTo(v: nat): seq<int> {
    seq(v, i => i + 1)
  }

  /** Upgrades push their version, downgrades must pop exactly it. */
  function StackReplay(log: seq<Entry>): Option<seq<int>> {
    if log == [] then Some([]) else
    var e := log[|log| - 1];
    match StackReplay(log[..|log| - 1])
    case None => None
    case Some(stack) =>
      if e.direction.Up? then Some(stack + [e.version])
      else if stack != [] && stack[|stack| - 1] == e.version then Some(stack[..|stack| - 1])
      else None
  }

  lemma {:induction false} PushAll(log: seq<Entry>, ms: MigrationSet, from: nat, to: nat)
    requires Contiguous(ms) && from <= to <= |ms| && StackReplay(log) == Some(UpTo(from))
    ensures StackReplay(log + Entries(ms[from..to], Up)) == Some(UpTo(to))
  {
    if from == to {
      assert log + Entries(ms[from..to], Up) == log;
    } else {
      PushAll(log, ms, from, to - 1);
      assert ms[from..to] == ms[from..to - 1] + [ms[to - 1]];
      var before, after := log + Entries(ms[from..to - 1], Up), log + Entries(ms[from..to], Up);
      assert after == before + [Entry(to, ms[to - 1].name, Up)];
      assert UpTo(to) == UpTo(to - 1) + [to];
    }
  }

  lemma {:induction false} FindContiguous(ms: MigrationSet, v: int, skipped: nat)
    requires forall i :: 0 <= i < |ms| ==> ms[i].version == skipped + i + 1
    ensures skipped < v <= skipped + |ms| ==> Find(ms, v) == Some(ms[v - skipped - 1])
    ensures Find(ms, v).Some? ==> exists m :: m in ms && m.version == v
  {
    if ms != [] && ms[0].version != v {
      FindContiguous(ms[1..], v, skipped + 1);
    }
  }

  /** A downgrade of a contiguous set pops down to the target and never fails. */
  lemma {:induction false} PopDown(db: Db, ms: MigrationSet, from: nat, target: nat)
    requires Contiguous(ms) && target <= from <= |ms| && StackReplay(db.log) == Some(UpTo(from))
    ensures var (after, ok) := LogDown(db, ms, from, target);
            ok && after == db.(log := after.log) && db.log <= after.log && StackReplay(after.log) == Some(UpTo(target))
    decreases from
  {
    if from > target {
      FindContiguous(ms, from, 0);
      var e := Entry(from, ms[from - 1].name, Down);
      var next := db.(log := db.log + [e]);
      assert next.log[..|next.log| - 1] == db.log;
      assert UpTo(from)[..from - 1] == UpTo(from - 1);
      PopDown(next, ms, from - 1, target);
    }
  }

  // ---------------------------------------------------------------- upgrades

  lemma PendingOneMore(ms: MigrationSet, current: int, target: int, n: nat)
    requires 0 < n <= |ms|
    ensures Pending(ms[..n], current, target) ==
            Pending(ms[..n - 1], current, target) + if current < ms[n - 1].version <= target then [ms[n - 1]] else []
  {
    assert ms[..n][..n - 1] == ms[..n - 1];
  }

  lemma SliceOneMore(ms: MigrationSet, current: nat, target: nat, n: nat)
    requires current <= target && 0 < n <= |ms|
    ensures ms[Min(current, n)..Min(target, n)] ==
            ms[Min(current, n - 1)..Min(target, n - 1)] + if current < n <= target then [ms[n - 1]] else []
  {}

  lemma {:induction false} PendingIsSlice(ms: MigrationSet, current: nat, target: nat, n: nat)
    requires Contiguous(ms) && current <= target && n <= |ms|
    ensures Pending(ms[..n], current, target) == ms[Min(current, n)..Min(target, n)]
  {
    if n > 0 {
      PendingIsSlice(ms, current, target, n - 1);
      PendingOneMore(ms, current, target, n);
      SliceOneMore(ms, current, target, n);
    }
  }

  lemma {:induction false} AtMostIsSlice(ms: MigrationSet, v: nat, n: nat)
    requires Contiguous(ms) && n <= |ms|
    ensures AtMost(ms[..n], v) == ms[..Min(v, n)]
  {
    if n > 0 {
      AtMostIsSlice(ms, v, n - 1);
      assert ms[..n][..n - 1] == ms[..n - 1];
    }
  }

  lemma PendingSlice(ms: MigrationSet, current: nat, target: nat)
    requires Contiguous(ms) && current <= target <= |ms|
    ensures Pending(ms, current, target) == ms[current..target] && AtMost(ms, current) == ms[..current]
  {
    PendingIsSlice(ms, current, target, |ms|);
    AtMostIsSlice(ms, current, |ms|);
    assert ms[..|ms|] == ms;
  }

  lemma FrameworkIsSound()
    ensures WellFormed(Framework()) && FrameworkIntact(Framework())
  {}

  lemma {:induction false} FreshIsSound(ms: MigrationSet, n: nat)
    requires Sound(ms) && n <= |ms| && FreshSchema(ms, n).Some?
    ensures WellFormed(FreshSchema(ms, n).value) && FrameworkIntact(FreshSchema(ms, n).value)
  {
    if n == 0 {
      FrameworkIsSound();
    } else {
      FreshIsSound(ms, n - 1);
    }
  }

  /** Once a version cannot be reached, no later one can. */
  lemma {:induction false} FreshIsMonotone(ms: MigrationSet, k: nat, n: nat)
    requires k <= n <= |ms| && FreshSchema(ms, n).Some?
    ensures FreshSchema(ms, k).Some?
  {
    if k < n {
      FreshIsMonotone(ms, k, n - 1);
    }
  }

  /** The database an upgrade has produced once it stands at version `k`. */
  function UpgradedTo(db: Db, ms: MigrationSet, from: nat, k: nat): Db
    requires from <= k <= |ms| && FreshSchema(ms, k).Some?
  {
    Db(FreshSchema(ms, k).value, if k > from then Some(k) else db.version, db.log + Entries(ms[from..k], Up),
       db.userVersion)
  }

  ghost predicate StopsAt(ms: MigrationSet, k: nat) {
    k < |ms| && FreshSchema(ms, k).Some? && FreshSchema(ms, k + 1).None?
  }

  /** An upgrade follows the reference: it reaches the target, or stops before the first script that fails. */
  lemma {:induction false} UpgradeFollowsReference(db: Db, ms: MigrationSet, from: nat, to: nat)
    requires Contiguous(ms) && Atomic(ms) && from <= to <= |ms| && FreshSchema(ms, from) == Some(db.schema)
    ensures RunUp(db, ms[from..to]).1 <==> FreshSchema(ms, to).Some?
    ensures FreshSchema(ms, to).Some? ==> RunUp(db, ms[from..to]).0 == UpgradedTo(db, ms, from, to)
    ensures FreshSchema(ms, to).None? ==>
              exists k :: from <= k < to && StopsAt(ms, k) && RunUp(db, ms[from..to]).0 == UpgradedTo(db, ms, from, k)
  {
    if from == to {
      assert ms[from..to] == [] && db.log + Entries([], Up) == db.log;
    } else {
      UpgradeFollowsReference(db, ms, from, to - 1);
      RunUpSnoc(db, ms, from, to);
      if FreshSchema(ms, to - 1).Some? {
        LastScript(db, ms, from, to);
        assert FreshSchema(ms, to).None? ==> StopsAt(ms, to - 1);
      }
    }
  }

  lemma RunUpSnoc(db: Db, ms: MigrationSet, from: nat, to: nat)
    requires from < to <= |ms|
    ensures var (mid, ok) := RunUp(db, ms[from..to - 1]);
            RunUp(db, ms[from..to]) == if ok then RunOne(mid, ms[to - 1]) else (mid, false)
  {
    assert ms[from..to][..to - from - 1] == ms[from..to - 1];
  }

  /** The last script of an upgrade, run from the reference schema before it. */
  lemma LastScript(db: Db, ms: MigrationSet, from: nat, to: nat)
    requires Contiguous(ms) && Atomic(ms) && from < to <= |ms| && FreshSchema(ms, to - 1).Some?
    ensures var (after, ok) := RunOne(UpgradedTo(db, ms, from, to - 1), ms[to - 1]);
            && (ok <==> FreshSchema(ms, to).Some?)
            && (ok ==> after == UpgradedTo(db, ms, from, to))
            && (!ok ==> after == UpgradedTo(db, ms, from, to - 1))
  {
    assert ms[from..to] == ms[from..to - 1] + [ms[to - 1]];
    EntriesSnoc(ms[from..to - 1], ms[to - 1], Up);
  }

  // ---------------------------------------------------------------- the whole-run invariant

  /**
   What every call keeps: the schema is the reference schema of the recorded version, and the history, once there
   is one, replays to that version. An empty history with a recorded version is a database from before histories.
   */
  ghost predicate Good(ms: MigrationSet, db: Db) {
    && 0 <= Current(db) <= |ms|
    && FreshSchema(ms, Current(db)) == Some(EnsureFramework(db.schema))
    && (db.log == [] || StackReplay(db.log) == Some(UpTo(Current(db))))
  }

  /** A database standing at a version in every respect. */
  ghost predicate StandsAt(ms: MigrationSet, db: Db, v: nat) {
    && v <= |ms| && FreshSchema(ms, v) == Some(db.schema)
    && Current(db) == v && StackReplay(db.log) == Some(UpTo(v)) && FrameworkIntact(db.schema)
  }

  lemma EnsureIsIdle(s: Schema)
    requires FrameworkIntact(s)
    ensures EnsureFramework(s) == s
  {}

  lemma StandsIsGood(ms: MigrationSet, db: Db, v: nat)
    requires StandsAt(ms, db, v)
    ensures Good(ms, db)
  {
    EnsureIsIdle(db.schema);
  }

  /** After the framework tables and the history are in place, the database stands at its version. */
  lemma ReadyStands(ms: MigrationSet, db: Db)
    requires Admissible(ms) && Good(ms, db)
    ensures StandsAt(ms, Backfilled(db.(schema := EnsureFramework(db.schema)), ms), Current(db))
    ensures db.log <= Backfilled(db.(schema := EnsureFramework(db.schema)), ms).log
    ensures Backfilled(db.(schema := EnsureFramework(db.schema)), ms).userVersion == db.userVersion
  {
    var v := Current(db);
    FreshIsSound(ms, v);
    if db.log == [] {
      PendingSlice(ms, v, v);
      assert UpTo(0) == [];
      PushAll([], ms, 0, v);
      assert ms[0..v] == ms[..v] && [] + Entries(ms[..v], Up) == Entries(ms[..v], Up);
    }
  }

  lemma UpgradeStands(ms: MigrationSet, db: Db, from: nat, to: nat)
    requires Admissible(ms) && StandsAt(ms, db, from) && from < to <= |ms|
    ensures var (after, ok) := RunUp(db, Pending(ms, from, to));
            && (ok <==> FreshSchema(ms, to).Some?) && db.log <= after.log
            && (ok ==> StandsAt(ms, after, to))
            && (!ok ==> exists k :: from <= k < to && StopsAt(ms, k) && StandsAt(ms, after, k))
  {
    PendingSlice(ms, from, to);
    UpgradeFollowsReference(db, ms, from, to);
    if FreshSchema(ms, to).Some? {
      UpgradedStands(ms, db, from, to);
    } else {
      var k :| from <= k < to && StopsAt(ms, k) && RunUp(db, ms[from..to]).0 == UpgradedTo(db, ms, from, k);
      UpgradedStands(ms, db, from, k);
    }
  }

  lemma UpgradedStands(ms: MigrationSet, db: Db, from: nat, k: nat)
    requires Admissible(ms) && StandsAt(ms, db, from) && from <= k <= |ms| && FreshSchema(ms, k).Some?
    ensures StandsAt(ms, UpgradedTo(db, ms, from, k), k) && db.log <= UpgradedTo(db, ms, from, k).log
  {
    FreshIsSound(ms, k);
    PushAll(db.log, ms, from, k);
  }

  lemma DowngradeStands(ms: MigrationSet, db: Db, from: nat, to: nat)
    requires Admissible(ms) && StandsAt(ms, db, from) && to < from
    ensures var (after, ok) := RebuildDown(db, ms, from, to);
            ok && db.log <= after.log && after.userVersion == db.userVersion
            && StandsAt(ms, after.(version := Some(to)), to)
  {
    FreshIsMonotone(ms, to, from);
    FreshIsSound(ms, to);
    FreshIsSound(ms, from);
    PendingSlice(ms, 0, to);
    UpgradeFollowsReference(MemoryDb(), ms, 0, to);
    var target := FreshSchema(ms, to).value;
    DropUserObjects(db.schema);
    SameFrameworkTables(db.schema, target);
    ReplayRestoresIff(target);
    PopDown(db.(schema := target), ms, from, to);
  }

  lemma SameFrameworkTables(s: Schema, t: Schema)
    requires FrameworkIntact(s) && FrameworkIntact(t)
    ensures FrameworkTables(s) == FrameworkTables(t)
  {
    assert forall n :: IsFrameworkTable(n) ==> n in Framework();
  }

  /**
   Every call on a good database leaves a good database and only appends to the history. It succeeds exactly when the
   target is in range and every script up to it works, and then schema, recorded version, `user_version` and history
   all say the target; the framework tables and their index are there.
   */
  lemma CallKeepsGood(ms: MigrationSet, db: Db, target: int)
    requires Admissible(ms) && Good(ms, db)
    ensures var (after, ok) := MigrateTo(db, ms, target);
            && Good(ms, after) && db.log <= after.log
            && (ok <==> 0 <= target <= |ms| && FreshSchema(ms, target).Some?)
            && (ok ==> StandsAt(ms, after, target) && after.version == Some(target) && after.userVersion == target)
  {
    var ready := db.(schema := EnsureFramework(db.schema));
    var v := Current(db);
    FreshIsSound(ms, v);
    EnsureIsIdle(ready.schema);
    ReadyStands(ms, db);
    var based := Backfilled(ready, ms);
    if 0 <= target <= |ms| {
      if v < target {
        UpgradeStands(ms, based, v, target);
        var (after, ok) := RunUp(based, Pending(ms, v, target));
        if !ok {
          var k :| v <= k < target && StopsAt(ms, k) && StandsAt(ms, after, k);
          StandsIsGood(ms, after, k);
        } else {
          StandsIsGood(ms, after, target);
        }
      } else if v > target {
        DowngradeStands(ms, based, v, target);
        FreshIsMonotone(ms, target, v);
        StandsIsGood(ms, RebuildDown(based, ms, v, target).0.(version := Some(target)), target);
      } else {
        StandsIsGood(ms, based, v);
      }
    }
  }

  /** A target out of range, or a database newer than the set, is refused with nothing but the framework touched. */
  lemma RefusedCallOnlyEnsures(ms: MigrationSet, db: Db, target: int)
    requires var latest := if ms == [] then 0 else ms[|ms| - 1].version;
             target < 0 || target > latest || (db.version.Some? && db.version.value > latest)
    ensures var (after, ok) := MigrateTo(db, ms, target);
            !ok && after == db.(schema := after.schema)
            && forall n :: (n in db.schema ==> n in after.schema && after.schema[n] == db.schema[n])
                           && (n in after.schema <==> n in db.schema || n in Framework())
  {}

  /** Entries for the versions from one down to another, newest first. */
  function LeftBehind(ms: MigrationSet, from: nat, target: nat): (log: seq<Entry>)
    requires target <= from <= |ms|
    ensures |log| == from - target
    ensures forall i :: 0 <= i < |log| ==> log[i] == Entry(from - i, ms[from - i - 1].name, Down)
  {
    seq(from - target, i requires 0 <= i < from - target => Entry(from - i, ms[from - i - 1].name, Down))
  }

  /** A downgrade adds one entry for each version it leaves, newest first, with the name of its migration. */
  lemma {:induction false} DowngradeLogs(db: Db, ms: MigrationSet, from: nat, target: nat)
    requires Contiguous(ms) && target <= from <= |ms|
    ensures LogDown(db, ms, from, target).0.log == db.log + LeftBehind(ms, from, target)
    decreases from
  {
    if from > target {
      var e := Entry(from, ms[from - 1].name, Down);
      FindContiguous(ms, from, 0);
      DowngradeLogs(db.(log := db.log + [e]), ms, from - 1, target);
      assert LeftBehind(ms, from, target) == [e] + LeftBehind(ms, from - 1, target);
      assert db.log + [e] + LeftBehind(ms, from - 1, target) == db.log + LeftBehind(ms, from, target);
    } else {
      assert db.log + [] == db.log;
    }
  }

  lemma EntriesAre(ms: seq<Migration>, d: Direction, i: nat)
    requires i < |ms|
    ensures |Entries(ms, d)| == |ms| && Entries(ms, d)[i] == Entry(ms[i].version, ms[i].name, d)
  {}

  /** An upgrade adds one entry for each script it ran; a missing history first gets those of the versions reached. */
  lemma UpgradeLogs(db: Db, ms: MigrationSet, target: nat)
    requires Admissible(ms) && Good(ms, db) && Current(db) < target <= |ms| && MigrateTo(db, ms, target).1
    ensures MigrateTo(db, ms, target).0.log ==
            db.log + Entries(ms[if db.log == [] then 0 else Current(db)..target], Up)
  {
    var v := Current(db);
    var ready := db.(schema := EnsureFramework(db.schema));
    ReadyStands(ms, db);
    UpgradeAppends(Backfilled(ready, ms), ms, v, target);
    PendingSlice(ms, v, target);
    if db.log == [] {
      assert ms[..v] + ms[v..target] == ms[0..target];
      EntriesAppend(ms[..v], ms[v..target], Up);
      assert [] + Entries(ms[0..target], Up) == Entries(ms[0..target], Up);
    }
  }

  lemma EntriesAppend(a: seq<Migration>, b: seq<Migration>, d: Direction)
    ensures Entries(a + b, d) == Entries(a, d) + Entries(b, d)
  {}

  lemma UpgradeAppends(db: Db, ms: MigrationSet, v: nat, target: nat)
    requires Admissible(ms) && StandsAt(ms, db, v) && v < target <= |ms| && RunUp(db, Pending(ms, v, target)).1
    ensures RunUp(db, Pending(ms, v, target)).0.log == db.log + Entries(ms[v..target], Up)
  {
    PendingSlice(ms, v, target);
    UpgradeFollowsReference(db, ms, v, target);
  }

  /** The schema some scripts make of another, if none of them fails. */
  function Chain(s: Schema, ms: seq<Migration>): Option<Schema> {
    if ms == [] then Some(s) else
    match Chain(s, ms[..|ms| - 1])
    case None => None
    case Some(mid) => match ms[|ms| - 1].up(mid) case Done(t) => Some(t) case Broken(_) => None
  }

  /** A database after these scripts, with the schema `s`. */
  ghost predicate HasRun(db: Db, ms: seq<Migration>, s: Schema, after: Db) {
    after == Db(s, if ms == [] then db.version else Some(ms[|ms| - 1].version), db.log + Entries(ms, Up),
                db.userVersion)
  }

  /** The script at `k` is the first to fail; what it leaves behind stays, at the version before it. */
  ghost predicate FailsAt(db: Db, ms: seq<Migration>, k: nat, after: Db) {
    && k < |ms| && Chain(db.schema, ms[..k]).Some?
    && var outcome := ms[k].up(Chain(db.schema, ms[..k]).value);
    outcome.Broken? && HasRun(db, ms[..k], outcome.leftover, after)
  }

  /** An upgrade with any scripts, from any database: every script ran, or one failed and left the database behind. */
  lemma {:induction false} UpgradeIs(db: Db, ms: seq<Migration>)
    ensures var (after, ok) := RunUp(db, ms);
            && (ok <==> Chain(db.schema, ms).Some?)
            && (ok ==> HasRun(db, ms, Chain(db.schema, ms).value, after))
            && (!ok ==> exists k: nat :: FailsAt(db, ms, k, after))
  {
    if ms == [] {
      assert db.log + [] == db.log;
    } else {
      var n := |ms| - 1;
      var (mid, ok) := RunUp(db, ms[..n]);
      UpgradeIs(db, ms[..n]);
      EntriesSnoc(ms[..n], ms[n], Up);
      assert ms == ms[..n] + [ms[n]];
      if !ok {
        var k: nat :| FailsAt(db, ms[..n], k, mid);
        assert ms[..n][..k] == ms[..k];
        assert FailsAt(db, ms, k, mid);
      } else if ms[n].up(mid.schema).Broken? {
        assert FailsAt(db, ms, n, RunUp(db, ms).0);
      }
    }
  }

  // ---------------------------------------------------------------- whole runs

  /** The database after a sequence of calls, whatever each of them returned. */
  function RunCalls(ms: MigrationSet, db: Db, targets: seq<int>): Db {
    if targets == [] then db else MigrateTo(RunCalls(ms, db, targets[..|targets| - 1]), ms, targets[|targets| - 1]).0
  }

  lemma {:induction false} RunKeepsGood(ms: MigrationSet, db: Db, targets: seq<int>)
    requires Admissible(ms) && Good(ms, db)
    ensures Good(ms, RunCalls(ms, db, targets)) && db.log <= RunCalls(ms, db, targets).log
  {
    if targets != [] {
      var init := targets[..|targets| - 1];
      RunKeepsGood(ms, db, init);
      CallKeepsGood(ms, RunCalls(ms, db, init), targets[|targets| - 1]);
    }
  }

  lemma EmptyIsGood(ms: MigrationSet)
    ensures Good(ms, Db(map[], None, [], 0))
  {
    assert Framework() + map[] == Framework();
  }

  /**
   Path independence: two databases, each empty or from before histories or reached by earlier runs, taken through
   any two call sequences that end with a successful call for the same version, agree on the whole schema, the
   recorded version, `user_version` and the replay of their histories, and carry the framework objects.
   */
  lemma PathIndependence(ms: MigrationSet, a: Db, b: Db, pathA: seq<int>, pathB: seq<int>, target: int)
    requires Admissible(ms) && Good(ms, a) && Good(ms, b)
    requires MigrateTo(RunCalls(ms, a, pathA), ms, target).1
    ensures MigrateTo(RunCalls(ms, b, pathB), ms, target).1
    ensures var x := MigrateTo(RunCalls(ms, a, pathA), ms, target).0;
            var y := MigrateTo(RunCalls(ms, b, pathB), ms, target).0;
            && 0 <= target <= |ms| && FreshSchema(ms, target) == Some(x.schema) && x.schema == y.schema
            && FrameworkIntact(x.schema)
            && x.version == y.version == Some(target) && x.userVersion == y.userVersion == target
            && StackReplay(x.log) == StackReplay(y.log) == Some(UpTo(target))
  {
    RunKeepsGood(ms, a, pathA);
    RunKeepsGood(ms, b, pathB);
    CallKeepsGood(ms, RunCalls(ms, a, pathA), target);
    CallKeepsGood(ms, RunCalls(ms, b, pathB), target);
  }

  /**
   An interrupted upgrade is resumable. If script `k + 1` is the first to fail, the database stands at `k` in every
   respect; and a later retry, with any repaired set that still knows version `k`, that succeeds runs exactly the
   scripts after `k`: the history grows by those entries and nothing else.
   */
  lemma FailedUpgradeResumes(ms: MigrationSet, db: Db, target: int, k: nat, repaired: MigrationSet)
    requires Admissible(ms) && Good(ms, db) && Current(db) <= k < target <= |ms| && StopsAt(ms, k)
    requires Admissible(repaired) && target <= |repaired| && FreshSchema(repaired, k) == FreshSchema(ms, k)
    ensures var (stopped, ok) := MigrateTo(db, ms, target);
            && !ok && StandsAt(ms, stopped, k)
            && var (after, again) := MigrateTo(stopped, repaired, target);
            again ==> after.log == stopped.log + Entries(repaired[k..target], Up) && StandsAt(repaired, after, target)
  {
    UpgradeStopsBefore(ms, db, target, k);
    RetryRunsTheRest(repaired, MigrateTo(db, ms, target).0, k, target);
  }

  lemma UpgradeStopsBefore(ms: MigrationSet, db: Db, target: int, k: nat)
    requires Admissible(ms) && Good(ms, db) && Current(db) <= k < target <= |ms| && StopsAt(ms, k)
    ensures !MigrateTo(db, ms, target).1 && StandsAt(ms, MigrateTo(db, ms, target).0, k)
  {
    var v := Current(db);
    ReadyStands(ms, db);
    var based := Backfilled(db.(schema := EnsureFramework(db.schema)), ms);
    NothingBeyondStop(ms, k, target);
    UpgradeStands(ms, based, v, target);
    var stopped := RunUp(based, Pending(ms, v, target)).0;
    assert MigrateTo(db, ms, target).0 == stopped;
    var j :| v <= j < target && StopsAt(ms, j) && StandsAt(ms, stopped, j);
    StopIsUnique(ms, j, k);
  }

  lemma NothingBeyondStop(ms: MigrationSet, k: nat, n: nat)
    requires StopsAt(ms, k) && k < n <= |ms|
    ensures FreshSchema(ms, n).None?
  {
    if FreshSchema(ms, n).Some? {
      FreshIsMonotone(ms, k + 1, n);
    }
  }

  lemma StopIsUnique(ms: MigrationSet, j: nat, k: nat)
    requires StopsAt(ms, j) && StopsAt(ms, k)
    ensures j == k
  {
    if j < k {
      NothingBeyondStop(ms, j, k);
    } else if k < j {
      NothingBeyondStop(ms, k, j);
    }
  }

  /** A call on a database standing at `k` runs exactly the scripts after `k`. */
  lemma RetryRunsTheRest(ms: MigrationSet, db: Db, k: nat, target: nat)
    requires Admissible(ms) && k < target <= |ms|
    requires FreshSchema(ms, k) == Some(db.schema) && Current(db) == k
    requires StackReplay(db.log) == Some(UpTo(k)) && FrameworkIntact(db.schema)
    ensures var (after, again) := MigrateTo(db, ms, target);
            again ==> after.log == db.log + Entries(ms[k..target], Up) && StandsAt(ms, after, target)
  {
    EnsureIsIdle(db.schema);
    assert db.log != [] || k == 0 by { if db.log == [] { assert |UpTo(k)| == 0; } }
    PendingSlice(ms, k, target);
    UpgradeFollowsReference(db, ms, k, target);
    UpgradeStands(ms, db, k, target);
  }

  // ---------------------------------------------------------------- gaps

  /** Every version to be left behind is defined. */
  ghost predicate Defined(ms: MigrationSet, target: int, from: int) {
    forall v :: target < v <= from ==> Find(ms, v).Some?
  }

  /** Logging a downgrade succeeds exactly when every version left behind is defined; it touches only the history. */
  lemma {:induction false} LogDownSucceedsIff(db: Db, ms: MigrationSet, from: int, target: int)
    ensures LogDown(db, ms, from, target).1 <==> Defined(ms, target, from)
    ensures LogDown(db, ms, from, target).0 == db.(log := LogDown(db, ms, from, target).0.log)
    decreases from - target
  {
    if from > target && Find(ms, from).Some? {
      var next := db.(log := db.log + [Entry(from, Find(ms, from).value.name, Down)]);
      LogDownSucceedsIff(next, ms, from - 1, target);
    }
  }

  lemma {:induction false} PendingAreMembers(ms: MigrationSet, current: int, target: int, m: Migration)
    requires m in Pending(ms, current, target)
    ensures m in ms
  {
    if m in Pending(ms[..|ms| - 1], current, target) { PendingAreMembers(ms[..|ms| - 1], current, target, m); }
  }

  lemma {:induction false} ScriptsKeepSound(ms: MigrationSet, db: Db, run: seq<Migration>)
    requires Sound(ms) && (forall m :: m in run ==> m in ms) && WellFormed(db.schema) && FrameworkIntact(db.schema)
    ensures RunUp(db, run).1 ==> WellFormed(RunUp(db, run).0.schema) && FrameworkIntact(RunUp(db, run).0.schema)
  {
    if run != [] {
      ScriptsKeepSound(ms, db, run[..|run| - 1]);
      var m := run[|run| - 1];
      assert m in run;
      var i :| 0 <= i < |ms| && ms[i] == m;
    }
  }

  /** The schema the scripts up to `target` build in memory, if they all succeed. */
  function Rebuilt(ms: MigrationSet, target: int): Option<Schema> {
    var (memory, built) := RunUp(MemoryDb(), Pending(ms, 0, target));
    if built then Some(memory.schema) else None
  }

  lemma RebuiltIsSound(ms: MigrationSet, target: int)
    requires Sound(ms) && Rebuilt(ms, target).Some?
    ensures WellFormed(Rebuilt(ms, target).value) && FrameworkIntact(Rebuilt(ms, target).value)
  {
    FrameworkIsSound();
    forall m | m in Pending(ms, 0, target) ensures m in ms { PendingAreMembers(ms, 0, target, m); }
    ScriptsKeepSound(ms, MemoryDb(), Pending(ms, 0, target));
  }

  /**
   Contiguity is more than a downgrade needs. With any versions, it succeeds IF AND ONLY IF the scripts up to the target
   work in memory, their schema has no trigger on a view, and every version left behind is defined. If only the last
   fails, the schema has been replaced all the same.
   */
  lemma DowngradeSucceedsIff(ms: MigrationSet, db: Db, current: int, target: int)
    requires Sound(ms) && WellFormed(db.schema) && FrameworkIntact(db.schema)
    ensures var (after, ok) := RebuildDown(db, ms, current, target);
            && (ok <==>
                  && Rebuilt(ms, target).Some? && NoTriggerOnView(Rebuilt(ms, target).value)
                  && Defined(ms, target, current))
            && (Rebuilt(ms, target).Some? && NoTriggerOnView(Rebuilt(ms, target).value) ==>
                  after.schema == Rebuilt(ms, target).value && after.version == db.version
                    && after.userVersion == db.userVersion)
  {
    if Rebuilt(ms, target).Some? {
      var t := Rebuilt(ms, target).value;
      RebuiltIsSound(ms, target);
      DropUserObjects(db.schema);
      SameFrameworkTables(db.schema, t);
      ReplayRestoresIff(t);
      LogDownSucceedsIff(db.(schema := t), ms, current, target);
    }
  }

  /**
   A downgrade whose scripts fail in memory touches nothing; one whose export cannot be replayed leaves the tables and
   indexes of the target, no view and nothing of the schema it had, at the version and history it had.
   */
  lemma FailedDowngradeLeaves(ms: MigrationSet, db: Db, current: int, target: int, n: Name)
    requires Sound(ms) && WellFormed(db.schema) && FrameworkIntact(db.schema)
    ensures var after := RebuildDown(db, ms, current, target).0;
            && (Rebuilt(ms, target).None? ==> after == db)
            && (Rebuilt(ms, target).Some? && !NoTriggerOnView(Rebuilt(ms, target).value) ==>
                  var t := Rebuilt(ms, target).value;
                  && after == db.(schema := after.schema)
                  && (n in after.schema ==> n in t && !t[n].kind.View?)
                  && (n in t && (t[n].kind.Table? || (t[n].kind.Index? && !IsFrameworkTable(n))) ==>
                        n in after.schema && after.schema[n] == t[n]))
  {
    if Rebuilt(ms, target).Some? {
      var t := Rebuilt(ms, target).value;
      RebuiltIsSound(ms, target);
      DropUserObjects(db.schema);
      SameFrameworkTables(db.schema, t);
      ReplayRestoresIff(t);
      if !NoTriggerOnView(t) { FailedReplayLeaves(t, n); }
    }
  }

  /**
   With an undefined version between target and current, a downgrade fails only after the schema was already rebuilt, so
   the recorded version no longer describes the schema.
   */
  lemma GapLeavesVersionBehind(ms: MigrationSet, db: Db, target: int)
    requires Sound(ms) && WellFormed(db.schema) && FrameworkIntact(db.schema)
    requires 0 <= target < Current(db) <= Latest(ms) && !Defined(ms, target, Current(db))
    requires Rebuilt(ms, target).Some? && NoTriggerOnView(Rebuilt(ms, target).value)
    ensures var (after, ok) := MigrateTo(db, ms, target);
            !ok && after.version == db.version && Current(after) != target && after.schema == Rebuilt(ms, target).value
  {
    EnsureIsIdle(db.schema);
    DowngradeSucceedsIff(ms, Backfilled(db, ms), Current(db), target);
  }

  // A set with versions 1 and 3, the latter creating a table.

  function UserTable(): Object {
    Object(Table, None, "user", {}, false)
  }

  function AddTable(s: Schema, n: Name): Outcome {
    if IsFrameworkTable(n) || n in s then Broken(s) else Done(s[n := UserTable()])
  }

  function WithGap(n: Name): MigrationSet {
    [Migration(1, "one", s => Done(s)), Migration(3, "three", s => AddTable(s, n))]
  }

  lemma WithGapIsSound(n: Name)
    ensures Sound(WithGap(n))
  {
    forall s: Schema | WellFormed(s) && FrameworkIntact(s) && AddTable(s, n).Done?
      ensures WellFormed(AddTable(s, n).schema) && FrameworkIntact(AddTable(s, n).schema)
    {
      AddedTableIsSound(s, n);
    }
  }

  lemma AddedTableIsSound(s: Schema, n: Name)
    requires WellFormed(s) && FrameworkIntact(s) && !IsFrameworkTable(n) && n !in s
    ensures WellFormed(s[n := UserTable()]) && FrameworkIntact(s[n := UserTable()])
  {
    var t := s[n := UserTable()];
    forall m | m in s ensures t[m] == s[m] && (s[m].on.Some? ==> s[m].on.value != n || s[m].on.value in s) {}
  }

  lemma WithGapRebuilds(n: Name)
    ensures Rebuilt(WithGap(n), 1) == Some(Framework())
  {
    var ms := WithGap(n);
    assert ms[..1][..0] == [];
    assert Pending(ms[..0], 0, 1) == [];
    assert Pending(ms[..1], 0, 1) == [ms[0]];
    assert Pending(ms, 0, 1) == [ms[0]];
    assert [ms[0]][..0] == [];
    assert RunUp(MemoryDb(), [ms[0]]) == RunOne(MemoryDb(), ms[0]);
  }

  /** It happens: a database at version 3 asked for version 1 loses the table and still says 3. */
  lemma GapHappens(n: Name, log: seq<Entry>)
    requires n !in Framework()
    ensures var db := Db(Framework()[n := UserTable()], Some(3), log, 3);
            var (after, ok) := MigrateTo(db, WithGap(n), 1);
            !ok && after.version == Some(3) && n !in after.schema
  {
    var db := Db(Framework()[n := UserTable()], Some(3), log, 3);
    FrameworkIsSound();
    AddedTableIsSound(Framework(), n);
    WithGapIsSound(n);
    WithGapRebuilds(n);
    assert Find(WithGap(n), 2).None? by {
      assert WithGap(n)[1..][1..] == [];
      assert Find(WithGap(n)[1..], 2).None?;
    }
    assert !Defined(WithGap(n), 1, 3);
    assert NoTriggerOnView(Framework());
    GapLeavesVersionBehind(WithGap(n), db, 1);
  }
}
