/**
 An incremental update refines a full build: when it does, exactly, and what any number of partial runs before a
 clean one leave behind.
 */
module IncrementalRefinement {
  import opened Wrappers
  import opened Collections
  import opened GraphStore
  import opened Worktree
  import opened UpdateGraph
  import BuildGraph

  // ---------------------------------------------------------------- well-formed change batches

  predicate IsMove(c: Change) {
    c.kind.Renamed? && c.oldPath.Some?
  }

  /** Paths are named once, and a rename source is named nowhere else. */
  ghost predicate Distinct(changes: seq<Change>) {
    && (forall i, j :: 0 <= i < j < |changes| ==> changes[i].path != changes[j].path)
    && (forall i, j :: 0 <= i < |changes| && 0 <= j < |changes| && IsMove(changes[i]) ==>
          && changes[i].oldPath.value != changes[j].path
          && (i != j && IsMove(changes[j]) ==> changes[i].oldPath.value != changes[j].oldPath.value))
  }

  ghost predicate Touches(changes: seq<Change>, p: Path) {
    exists c :: c in changes && (c.path == p || (IsMove(c) && c.oldPath.value == p))
  }

  predicate UnderAny(dirs: seq<Path>, p: Path) {
    exists d :: d in dirs && Under(d, p)
  }

  ghost predicate IsTarget(plan: Plan, p: Path) {
    exists r :: r in plan.renames && r.1 == p
  }

  ghost predicate IsSource(plan: Plan, p: Path) {
    exists r :: r in plan.renames && r.0 == p
  }

  // ---------------------------------------------------------------- alignment

  /**
   At a path the batch mentions: a supported planned path is one a full build would index, an unsupported one has no
   slice left over; a moved file is indexable exactly if no deleted path is above it; a removed path is not indexable.
   */
  ghost predicate TouchedAligned(env: Env, rows: Rows, plan: Plan, p: Path) {
    if p in plan.parses then
      if env.supports(p) then Indexed(env, p) else (env.repo, p) in rows ==> UnderAny(plan.deletes, p)
    else if IsTarget(plan, p) then Indexed(env, p) <==> !UnderAny(plan.deletes, p)
    else !Indexed(env, p)
  }

  /**
   At any other path: what the table keeps there is what a full build would index, at its hash unless it is reparsed.
   */
  ghost predicate UntouchedAligned(env: Env, rows: Rows, plan: Plan, refreshed: set<Path>, p: Path) {
    var kept := (env.repo, p) in rows && !UnderAny(plan.deletes, p);
    && (kept <==> Indexed(env, p))
    && (kept && Indexed(env, p) && p !in refreshed ==> rows[(env.repo, p)].hash == env.tree[p].hash)
  }

  ghost predicate AlignedAt(env: Env, rows: Rows, changes: seq<Change>, refreshed: set<Path>, p: Path) {
    var plan := Classify(env, rows, changes);
    if Touches(changes, p) then TouchedAligned(env, rows, plan, p) else UntouchedAligned(env, rows, plan, refreshed, p)
  }

  /** What a caller can check before a run that reparses the files `refreshed` outside the batch. */
  ghost predicate Aligned(env: Env, rows: Rows, changes: seq<Change>, refreshed: set<Path>) {
    forall p :: !IsSynthetic(p) ==> AlignedAt(env, rows, changes, refreshed, p)
  }

  // ---------------------------------------------------------------- what classification produces

  predicate Moves(env: Env, rows: Rows, c: Change) {
    IsMove(c) && Stable(env, rows, c.oldPath.value, c.path)
  }

  predicate Reparses(env: Env, rows: Rows, c: Change) {
    !c.kind.Deleted? && !Moves(env, rows, c)
  }

  predicate Deletes(env: Env, rows: Rows, c: Change, p: Path) {
    (c.kind.Deleted? && c.path == p) || (IsMove(c) && !Moves(env, rows, c) && c.oldPath.value == p)
  }

  ghost predicate WillDelete(env: Env, rows: Rows, changes: seq<Change>, p: Path) {
    exists c :: c in changes && Deletes(env, rows, c, p)
  }

  ghost predicate WillReparse(env: Env, rows: Rows, changes: seq<Change>, p: Path) {
    exists c :: c in changes && Reparses(env, rows, c) && c.path == p
  }

  ghost predicate WillMove(env: Env, rows: Rows, changes: seq<Change>, r: (Path, Path)) {
    exists c :: c in changes && Moves(env, rows, c) && c.oldPath.value == r.0 && c.path == r.1
  }

  /** The plan holds exactly what some change asks for. */
  lemma {:induction false} PlanMembers(env: Env, rows: Rows, changes: seq<Change>, p: Path, r: (Path, Path))
    ensures p in Classify(env, rows, changes).deletes <==> WillDelete(env, rows, changes, p)
    ensures p in Classify(env, rows, changes).parses <==> WillReparse(env, rows, changes, p)
    ensures r in Classify(env, rows, changes).renames <==> WillMove(env, rows, changes, r)
  {
    if changes != [] {
      var init, c := changes[..|changes| - 1], changes[|changes| - 1];
      PlanMembers(env, rows, init, p, r);
      SnocMembers(env, rows, init, c, p, r);
      ClassifyOneMembers(env, rows, Classify(env, rows, init), c, p, r);
      assert changes == init + [c];
    }
  }

  lemma ClassifyOneMembers(env: Env, rows: Rows, plan: Plan, c: Change, p: Path, r: (Path, Path))
    ensures var next := ClassifyOne(env, rows, plan, c);
            && (p in next.deletes <==> p in plan.deletes || Deletes(env, rows, c, p))
            && (p in next.parses <==> p in plan.parses || (Reparses(env, rows, c) && c.path == p))
            && (r in next.renames <==>
                r in plan.renames || (Moves(env, rows, c) && c.oldPath.value == r.0 && c.path == r.1))
  {}

  lemma SnocMembers(env: Env, rows: Rows, init: seq<Change>, c: Change, p: Path, r: (Path, Path))
    ensures WillDelete(env, rows, init + [c], p) <==> WillDelete(env, rows, init, p) || Deletes(env, rows, c, p)
    ensures WillReparse(env, rows, init + [c], p) <==>
            WillReparse(env, rows, init, p) || (Reparses(env, rows, c) && c.path == p)
    ensures WillMove(env, rows, init + [c], r) <==>
            WillMove(env, rows, init, r) || (Moves(env, rows, c) && c.oldPath.value == r.0 && c.path == r.1)
  {
    assert forall e :: e in init + [c] <==> e in init || e == c;
  }

  // ---------------------------------------------------------------- moving rows

  /** Renames that cannot interfere: no path is used twice. */
  ghost predicate Separate(renames: seq<(Path, Path)>) {
    && (forall i :: 0 <= i < |renames| ==> renames[i].0 != renames[i].1)
    && (forall i, j :: 0 <= i < j < |renames| ==>
          && renames[i].0 != renames[j].0 && renames[i].1 != renames[j].1
          && renames[i].0 != renames[j].1 && renames[i].1 != renames[j].0)
  }

  lemma {:induction false} PlanIsSeparate(env: Env, rows: Rows, changes: seq<Change>)
    requires Distinct(changes)
    ensures Separate(Classify(env, rows, changes).renames)
  {
    if changes != [] {
      var n := |changes| - 1;
      var init, c := changes[..n], changes[n];
      PlanIsSeparate(env, rows, init);
      var before := Classify(env, rows, init).renames;
      if Moves(env, rows, c) {
        forall i | 0 <= i < |before|
          ensures before[i].0 != c.oldPath.value && before[i].1 != c.path
          ensures before[i].0 != c.path && before[i].1 != c.oldPath.value
        {
          PlanMembers(env, rows, init, "", before[i]);
          var e :| e in init && Moves(env, rows, e) && e.oldPath.value == before[i].0 && e.path == before[i].1;
          var j :| 0 <= j < n && init[j] == e;
          assert changes[j] == e;
        }
      }
    }
  }

  function FactsAt(rows: Rows, repo: Repo, p: Path): set<string> {
    if (repo, p) in rows then rows[(repo, p)].facts else {}
  }

  /** One move, seen at one path. */
  lemma RenameRowAt(env: Env, rows: Rows, src: Path, dst: Path, p: Path)
    requires src != dst && (env.repo, src) in rows
    ensures var after := SetOwner(RenameRow(rows, env.repo, src, dst), env.repo, dst, env.owner(dst));
            && (p == dst ==>
                  && (env.repo, p) in after && after[(env.repo, p)].hash == rows[(env.repo, src)].hash
                  && after[(env.repo, p)].owner == env.owner(p)
                  && after[(env.repo, p)].facts == rows[(env.repo, src)].facts + FactsAt(rows, env.repo, dst))
            && (p == src ==> (env.repo, p) !in after)
            && (p != src && p != dst ==>
                  && ((env.repo, p) in after <==> (env.repo, p) in rows)
                  && ((env.repo, p) in rows ==> after[(env.repo, p)] == rows[(env.repo, p)]))
  {}

  /**
   After non-interfering moves: targets hold their source's hash and facts under their own owner, sources are gone, the
   rest is as before.
   */
  lemma {:induction false} RenameAllAt(env: Env, rows: Rows, renames: seq<(Path, Path)>, p: Path)
    requires Separate(renames)
    requires forall r :: r in renames ==> (env.repo, r.0) in rows
    ensures var after := RenameAll(env, rows, renames);
            && (forall r :: r in renames && r.1 == p ==>
                  && (env.repo, p) in after && after[(env.repo, p)].hash == rows[(env.repo, r.0)].hash
                  && after[(env.repo, p)].owner == env.owner(p)
                  && after[(env.repo, p)].facts == rows[(env.repo, r.0)].facts + FactsAt(rows, env.repo, p))
            && (forall r :: r in renames && r.0 == p ==> (env.repo, p) !in after)
            && ((forall r :: r in renames ==> r.0 != p && r.1 != p) ==>
                  && ((env.repo, p) in after <==> (env.repo, p) in rows)
                  && ((env.repo, p) in rows ==> after[(env.repo, p)] == rows[(env.repo, p)]))
  {
    if renames != [] {
      var n := |renames| - 1;
      var init := renames[..n];
      var (src, dst) := renames[n];
      assert forall r :: r in renames <==> r in init || r == (src, dst) by { assert renames == init + [renames[n]]; }
      assert forall r :: r in init ==> r.0 != src && r.1 != src && r.0 != dst && r.1 != dst;
      RenameAllAt(env, rows, init, p);
      RenameAllAt(env, rows, init, src);
      RenameAllAt(env, rows, init, dst);
      RenameRowAt(env, RenameAll(env, rows, init), src, dst, p);
    }
  }

  // ---------------------------------------------------------------- one path through the moves

  lemma ChangesIdentify(changes: seq<Change>, c: Change, e: Change)
    requires Distinct(changes) && c in changes && e in changes
    ensures c.path == e.path ==> c == e
    ensures IsMove(c) ==> c.oldPath.value != e.path
    ensures IsMove(c) && IsMove(e) && c.oldPath.value == e.oldPath.value ==> c == e
  {
    var i :| 0 <= i < |changes| && changes[i] == c;
    var j :| 0 <= j < |changes| && changes[j] == e;
    assert i < j || i == j || j < i;
  }

  lemma TargetIsMoved(env: Env, rows: Rows, changes: seq<Change>, p: Path)
    ensures var plan := Classify(env, rows, changes);
            && (IsTarget(plan, p) <==> exists c :: c in changes && Moves(env, rows, c) && c.path == p)
            && (IsSource(plan, p) <==> exists c :: c in changes && Moves(env, rows, c) && c.oldPath.value == p)
  {
    var plan := Classify(env, rows, changes);
    forall r ensures r in plan.renames <==> WillMove(env, rows, changes, r) { PlanMembers(env, rows, changes, p, r); }
    if IsTarget(plan, p) {
      var r :| r in plan.renames && r.1 == p;
      assert WillMove(env, rows, changes, r);
    }
    if IsSource(plan, p) {
      var r :| r in plan.renames && r.0 == p;
      assert WillMove(env, rows, changes, r);
    }
    forall c | c in changes && Moves(env, rows, c)
      ensures (c.path == p ==> IsTarget(plan, p)) && (c.oldPath.value == p ==> IsSource(plan, p))
    {
      var r := (c.oldPath.value, c.path);
      assert WillMove(env, rows, changes, r);
      assert r in plan.renames;
    }
  }

  /** A path has at most one role in the plan. */
  lemma RolesAreExclusive(env: Env, rows: Rows, changes: seq<Change>, p: Path)
    requires Distinct(changes)
    ensures var plan := Classify(env, rows, changes);
            && (p in plan.parses ==> p !in plan.deletes && !IsTarget(plan, p) && !IsSource(plan, p))
            && (IsTarget(plan, p) ==> p !in plan.deletes && !IsSource(plan, p))
            && (p in plan.parses || p in plan.deletes || IsTarget(plan, p) || IsSource(plan, p)
                <==> Touches(changes, p))
  {
    PlanMembers(env, rows, changes, p, (p, p));
    TargetIsMoved(env, rows, changes, p);
    forall c, e | c in changes && e in changes
      ensures c.path == e.path ==> c == e
      ensures IsMove(c) ==> c.oldPath.value != e.path
      ensures IsMove(c) && IsMove(e) && c.oldPath.value == e.oldPath.value ==> c == e
    {
      ChangesIdentify(changes, c, e);
    }
  }

  lemma DoomedAt(rows: Rows, repo: Repo, requested: seq<Path>, p: Path)
    ensures p in Doomed(rows, repo, ToSet(requested)) <==>
            (repo, p) in rows && (p in requested || UnderAny(requested, p))
  {
    if (repo, p) in rows {
      var k := (repo, p);
      assert k.0 == repo && k.1 == p;
    }
  }

  /** Presence and hash of one path after the moves of a run. */
  lemma AfterMovesAt(env: Env, rows: Rows, changes: seq<Change>, p: Path)
    requires Distinct(changes)
    ensures var plan := Classify(env, rows, changes);
            var after := AfterMoves(env, rows, plan);
            && (IsSource(plan, p) || p in plan.deletes ==> (env.repo, p) !in after)
            && (IsTarget(plan, p) ==>
                  && p in env.tree
                  && ((env.repo, p) in after <==> !UnderAny(plan.deletes, p))
                  && ((env.repo, p) in after ==> after[(env.repo, p)].hash == env.tree[p].hash))
            && (p in plan.parses || !Touches(changes, p) ==>
                  && ((env.repo, p) in after <==> (env.repo, p) in rows && !UnderAny(plan.deletes, p))
                  && ((env.repo, p) in after ==> after[(env.repo, p)].hash == rows[(env.repo, p)].hash))
  {
    var plan := Classify(env, rows, changes);
    var moved := RenameAll(env, rows, plan.renames);
    RolesAreExclusive(env, rows, changes, p);
    PlanIsSeparate(env, rows, changes);
    forall r | r in plan.renames
      ensures (env.repo, r.0) in rows && r.1 in env.tree && rows[(env.repo, r.0)].hash == env.tree[r.1].hash
    {
      PlanMembers(env, rows, changes, p, r);
    }
    RenameAllAt(env, rows, plan.renames, p);
    DoomedAt(moved, env.repo, plan.deletes, p);
  }

  /** A run, seen at one real path. */
  lemma RanAt(env: Env, changes: seq<Change>, before: Rows, after: Rows, n: nat, parsed: set<Path>, p: Path)
    requires EnvOk(env) && !IsSynthetic(p) && Ran(env, changes, before, after, n, parsed)
    ensures var moved := AfterMoves(env, before, Classify(env, before, changes[..n]));
            && ((env.repo, p) in after <==> p in parsed || (env.repo, p) in moved)
            && (p in parsed ==> after[(env.repo, p)].hash == env.tree[p].hash)
            && (p !in parsed && (env.repo, p) in moved ==> after[(env.repo, p)].hash == moved[(env.repo, p)].hash)
  {}

  // ---------------------------------------------------------------- incremental equals full

  ghost predicate AgreesAt(env: Env, after: Rows, p: Path) {
    && (p in Inventory(after, env.repo) <==> p in FullBuild(env))
    && (p in FullBuild(env) && p in Inventory(after, env.repo) ==> Inventory(after, env.repo)[p] == FullBuild(env)[p])
  }

  lemma AgreesEverywhere(env: Env, after: Rows)
    ensures Inventory(after, env.repo) == FullBuild(env) <==> forall p :: AgreesAt(env, after, p)
  {
    var a, b := Inventory(after, env.repo), FullBuild(env);
    if forall p :: AgreesAt(env, after, p) {
      forall p ensures p in a <==> p in b { assert AgreesAt(env, after, p); }
      forall p | p in a ensures a[p] == b[p] { assert AgreesAt(env, after, p); }
    }
  }

  /** Told before the run: whether a complete run leaves a slice at this path. */
  ghost predicate Holds(env: Env, rows: Rows, changes: seq<Change>, p: Path) {
    var plan := Classify(env, rows, changes);
    if p in plan.parses then env.supports(p) || ((env.repo, p) in rows && !UnderAny(plan.deletes, p))
    else if IsTarget(plan, p) then !UnderAny(plan.deletes, p)
    else !Touches(changes, p) && (env.repo, p) in rows && !UnderAny(plan.deletes, p)
  }

  /** And it does; new, moved and reparsed files are at their current hash, others at their old one. */
  lemma CompleteRows(env: Env, changes: seq<Change>, before: Rows, after: Rows, parsed: set<Path>, p: Path)
    requires EnvOk(env) && Distinct(changes) && !IsSynthetic(p)
    requires Ran(env, changes, before, after, |changes|, parsed)
    requires Complete(env, changes, before, |changes|, parsed)
    ensures var plan := Classify(env, before, changes);
            && ((env.repo, p) in after <==> Holds(env, before, changes, p))
            && ((p in plan.parses && env.supports(p)) || IsTarget(plan, p) ==>
                  && p in env.tree && env.tree[p].hashOk
                  && ((env.repo, p) in after ==> after[(env.repo, p)].hash == env.tree[p].hash))
            && ((env.repo, p) in after && ((p in plan.parses && !env.supports(p)) || !Touches(changes, p)) ==>
                  && (env.repo, p) in before
                  && after[(env.repo, p)].hash == if p in parsed then env.tree[p].hash else before[(env.repo, p)].hash)
  {
    assert changes[..|changes|] == changes;
    RanAt(env, changes, before, after, |changes|, parsed, p);
    RolesAreExclusive(env, before, changes, p);
    AfterMovesAt(env, before, changes, p);
    TargetIsMoved(env, before, changes, p);
  }

  /** At each path a complete run agrees with a full build exactly when the path is aligned. */
  lemma CompleteRunAt(env: Env, changes: seq<Change>, before: Rows, after: Rows, parsed: set<Path>, p: Path)
    requires EnvOk(env) && Distinct(changes) && !IsSynthetic(p)
    requires Ran(env, changes, before, after, |changes|, parsed)
    requires Complete(env, changes, before, |changes|, parsed)
    ensures AgreesAt(env, after, p) <==> AlignedAt(env, before, changes, parsed, p)
  {
    InventoryAt(after, env.repo, p);
    CompleteRows(env, changes, before, after, parsed, p);
    RolesAreExclusive(env, before, changes, p);
  }

  /**
   Incremental equals full. From any table, over any batch that names each path once, a complete run leaves exactly the
   inventory of a full build of the checkout IF AND ONLY IF the batch is aligned with the table and the checkout.
   */
  lemma IncrementalEqualsFull(env: Env, changes: seq<Change>, before: Rows, after: Rows, parsed: set<Path>)
    requires EnvOk(env) && Distinct(changes)
    requires Ran(env, changes, before, after, |changes|, parsed)
    requires Complete(env, changes, before, |changes|, parsed)
    ensures Inventory(after, env.repo) == FullBuild(env) <==> Aligned(env, before, changes, parsed)
  {
    AgreesEverywhere(env, after);
    forall p
      ensures IsSynthetic(p) ==> AgreesAt(env, after, p)
      ensures !IsSynthetic(p) ==> (AgreesAt(env, after, p) <==> AlignedAt(env, before, changes, parsed, p))
    {
      InventoryAt(after, env.repo, p);
      if !IsSynthetic(p) {
        CompleteRunAt(env, changes, before, after, parsed, p);
      }
    }
  }

  /** Only reparsed files outside the batch matter to alignment. */
  lemma SameAlignment(env: Env, rows: Rows, changes: seq<Change>, a: set<Path>, b: set<Path>)
    requires forall p :: !Touches(changes, p) ==> (p in a <==> p in b)
    ensures Aligned(env, rows, changes, a) <==> Aligned(env, rows, changes, b)
  {
    forall p ensures AlignedAt(env, rows, changes, a, p) <==> AlignedAt(env, rows, changes, b, p) {}
  }

  /**
   The same about the code: update one store and build another, whatever both held. If both runs are clean, the two hold
   the same inventory if and only if the batch was aligned, counting as reparsed the dependents of the moved table.
   */
  method UpdateAgreesWithBuild(updated: Store, built: Store, env: Env, changes: seq<Change>, listing: seq<Path>,
                               opts: Options, buildOpts: BuildGraph.Options, faults: Faults, buildFaults: Faults)
    returns (u: Result<Summary>, b: Result<BuildGraph.Summary>)
    requires updated != built && opts.batchSize > 0 && buildOpts.batchSize > 0 && !opts.dryRun && !buildOpts.dryRun
    requires DependentsAreIndexed(opts.dependents, env.repo) && env.tree.Keys <= ToSet(listing)
    requires EnvOk(env) && Distinct(changes)
    modifies updated, built
    ensures u.Ok? && u.value.IsClean() && b.Ok? && b.value.IsClean() ==>
              (Inventory(updated.rows, env.repo) == Inventory(built.rows, env.repo) <==>
               Aligned(env, old(updated.rows), changes, DependentsOf(env, old(updated.rows), changes, opts)))
  {
    var run, buildRun;
    u, run := Update(updated, env, changes, opts, faults);
    b, buildRun := BuildGraph.Build(built, env, listing, buildOpts, buildFaults);
    if u.Ok? && u.value.IsClean() {
      IncrementalEqualsFull(env, changes, old(updated.rows), updated.rows, run.Parsed());
      ExactIsAligned(env, old(updated.rows), changes, opts, run.Parsed());
    }
  }

  lemma ExactIsAligned(env: Env, rows: Rows, changes: seq<Change>, opts: Options, parsed: set<Path>)
    requires Distinct(changes) && IsExact(env, rows, changes, opts, parsed)
    ensures Aligned(env, rows, changes, parsed) <==> Aligned(env, rows, changes, DependentsOf(env, rows, changes, opts))
  {
    forall p | !Touches(changes, p) ensures p in parsed <==> p in DependentsOf(env, rows, changes, opts) {
      RolesAreExclusive(env, rows, changes, p);
    }
    SameAlignment(env, rows, changes, parsed, DependentsOf(env, rows, changes, opts));
  }

  // ---------------------------------------------------------------- the condition is not idle

  /**
   A file moved unchanged to a place below a path the same batch removes is lost: the removal of the path also
   removes what was just moved below it, although a full build would index the file.
   */
  lemma MoveBelowRemovedPathIsLost(env: Env, changes: seq<Change>, before: Rows, after: Rows, parsed: set<Path>,
      c: Change, d: Path)
    requires EnvOk(env) && Distinct(changes)
    requires Ran(env, changes, before, after, |changes|, parsed)
    requires Complete(env, changes, before, |changes|, parsed)
    requires c in changes && Moves(env, before, c) && Indexed(env, c.path)
    requires WillDelete(env, before, changes, d) && Under(d, c.path)
    ensures !Aligned(env, before, changes, parsed)
    ensures c.path in FullBuild(env) && c.path !in Inventory(after, env.repo)
  {
    var plan := Classify(env, before, changes);
    PlanMembers(env, before, changes, d, (d, d));
    TargetIsMoved(env, before, changes, c.path);
    RolesAreExclusive(env, before, changes, c.path);
    assert UnderAny(plan.deletes, c.path);
    assert !AlignedAt(env, before, changes, parsed, c.path);
    CompleteRows(env, changes, before, after, parsed, c.path);
    InventoryAt(after, env.repo, c.path);
  }

  /** A file the batch does not mention and the table does not have, such as a new untracked one, is missed. */
  lemma UntrackedFileIsMissed(env: Env, changes: seq<Change>, before: Rows, after: Rows, parsed: set<Path>, p: Path)
    requires EnvOk(env) && Distinct(changes)
    requires Ran(env, changes, before, after, |changes|, parsed)
    requires Complete(env, changes, before, |changes|, parsed)
    requires !Touches(changes, p) && (env.repo, p) !in before && Indexed(env, p)
    ensures !Aligned(env, before, changes, parsed)
    ensures p in FullBuild(env) && p !in Inventory(after, env.repo)
  {
    assert !AlignedAt(env, before, changes, parsed, p);
    RolesAreExclusive(env, before, changes, p);
    CompleteRows(env, changes, before, after, parsed, p);
    InventoryAt(after, env.repo, p);
  }

  /** A file the batch does not mention is lost when the batch removes a path above it, such as its old namesake. */
  lemma FileBelowRemovedPathIsLost(env: Env, changes: seq<Change>, before: Rows, after: Rows, parsed: set<Path>,
      p: Path, d: Path)
    requires EnvOk(env) && Distinct(changes)
    requires Ran(env, changes, before, after, |changes|, parsed)
    requires Complete(env, changes, before, |changes|, parsed)
    requires !Touches(changes, p) && Indexed(env, p) && WillDelete(env, before, changes, d) && Under(d, p)
    ensures !Aligned(env, before, changes, parsed)
    ensures p in FullBuild(env) && p !in Inventory(after, env.repo)
  {
    PlanMembers(env, before, changes, d, (d, d));
    assert UnderAny(Classify(env, before, changes).deletes, p);
    assert !AlignedAt(env, before, changes, parsed, p);
    RolesAreExclusive(env, before, changes, p);
    CompleteRows(env, changes, before, after, parsed, p);
    InventoryAt(after, env.repo, p);
  }

  /** Content indexed once and then reverted, so that no diff against the synced commit shows it, stays. */
  lemma RevertedEditIsKept(env: Env, changes: seq<Change>, before: Rows, after: Rows, parsed: set<Path>, p: Path)
    requires EnvOk(env) && Distinct(changes)
    requires Ran(env, changes, before, after, |changes|, parsed)
    requires Complete(env, changes, before, |changes|, parsed)
    requires !Touches(changes, p) && Indexed(env, p) && p !in parsed
    requires (env.repo, p) in before && before[(env.repo, p)].hash != env.tree[p].hash
    ensures !Aligned(env, before, changes, parsed)
    ensures p in FullBuild(env)
    ensures p in Inventory(after, env.repo) ==> Inventory(after, env.repo)[p] != FullBuild(env)[p]
  {
    assert !AlignedAt(env, before, changes, parsed, p);
    RolesAreExclusive(env, before, changes, p);
    CompleteRows(env, changes, before, after, parsed, p);
    InventoryAt(after, env.repo, p);
  }

  // ---------------------------------------------------------------- inputs

  /** A checkout in which everything is supported, nothing but owner graphs ignored and every file readable text. */
  function PlainCheckout(tree: map<Path, Hash>): Env {
    Env("r", map p | p in tree :: WorkFile(tree[p], 1, true, false, true, true, true),
        p => true, p => IsSynthetic(p), p => None, (p, h) => {}, map[], None)
  }

  function PlainRow(h: Hash): Slice {
    Slice(h, None, {})
  }

  /** Delete file `a`, move file `x` to `ab`. */
  function DeleteAndMove(a: Path, x: Path, ab: Path): (changes: seq<Change>)
    ensures |changes| == 2 && changes[0] == Change(a, Deleted, None) && changes[1] == Change(ab, Renamed, Some(x))
  {
    [Change(a, Deleted, None), Change(ab, Renamed, Some(x))]
  }

  function TwoRows(a: Path, x: Path, h: Hash): Rows {
    map[("r", a) := PlainRow(h), ("r", x) := PlainRow(h)]
  }

  lemma DeleteAndMoveIsPlanned(a: Path, x: Path, ab: Path, h: Hash)
    requires a != x && a != ab && x != ab && !IsSynthetic(ab)
    ensures var env, changes := PlainCheckout(map[ab := h]), DeleteAndMove(a, x, ab);
            && Distinct(changes) && EnvOk(env) && Indexed(env, ab)
            && changes[1] in changes && Moves(env, TwoRows(a, x, h), changes[1])
            && WillDelete(env, TwoRows(a, x, h), changes, a)
  {
    var env, changes := PlainCheckout(map[ab := h]), DeleteAndMove(a, x, ab);
    assert changes[0] in changes && changes[1] in changes;
    assert Deletes(env, TwoRows(a, x, h), changes[0], a);
  }

  /** It happens: with both files indexed, delete file `a` and move file `x` to `a/b`. */
  lemma MoveBelowRemovedPathHappens(a: Path, x: Path, ab: Path, h: Hash, after: Rows, parsed: set<Path>)
    requires a != x && !Under(a, x) && Under(a, ab) && !IsSynthetic(ab)
    requires Ran(PlainCheckout(map[ab := h]), DeleteAndMove(a, x, ab), TwoRows(a, x, h), after, 2, parsed)
    requires Complete(PlainCheckout(map[ab := h]), DeleteAndMove(a, x, ab), TwoRows(a, x, h), 2, parsed)
    ensures ab in FullBuild(PlainCheckout(map[ab := h])) && ab !in Inventory(after, "r")
  {
    SelfIsNotUnder(a);
    DeleteAndMoveIsPlanned(a, x, ab, h);
    MoveBelowRemovedPathIsLost(PlainCheckout(map[ab := h]), DeleteAndMove(a, x, ab), TwoRows(a, x, h), after, parsed,
                               DeleteAndMove(a, x, ab)[1], a);
  }

  lemma SelfIsNotUnder(p: Path)
    ensures !Under(p, p)
  {}

  /** It happens: a new untracked file, an empty diff, an empty table. */
  lemma UntrackedFileHappens(p: Path, h: Hash, after: Rows, parsed: set<Path>)
    requires !IsSynthetic(p)
    requires Ran(PlainCheckout(map[p := h]), [], map[], after, 0, parsed)
    requires Complete(PlainCheckout(map[p := h]), [], map[], 0, parsed)
    ensures p in FullBuild(PlainCheckout(map[p := h])) && p !in Inventory(after, "r")
  {
    UntrackedFileIsMissed(PlainCheckout(map[p := h]), [], map[], after, parsed, p);
  }

  function OneDeletion(a: Path): (changes: seq<Change>)
    ensures |changes| == 1 && changes[0] == Change(a, Deleted, None)
  {
    [Change(a, Deleted, None)]
  }

  function OneRow(p: Path, h: Hash): Rows {
    map[("r", p) := PlainRow(h)]
  }

  lemma DeletionIsPlanned(a: Path, ab: Path, h: Hash)
    requires Under(a, ab) && !IsSynthetic(ab)
    ensures var env := PlainCheckout(map[ab := h]);
            && EnvOk(env) && Distinct(OneDeletion(a)) && Indexed(env, ab) && !Touches(OneDeletion(a), ab)
            && WillDelete(env, OneRow(ab, h), OneDeletion(a), a)
  {
    var env, changes := PlainCheckout(map[ab := h]), OneDeletion(a);
    SelfIsNotUnder(a);
    assert changes[0] in changes && Deletes(env, OneRow(ab, h), changes[0], a);
  }

  /**
   It happens: tracked file `a` gives way to an untracked `a/b`, which is indexed; the next diff says `a` is deleted.
   */
  lemma FileBelowRemovedPathHappens(a: Path, ab: Path, h: Hash, after: Rows, parsed: set<Path>)
    requires Under(a, ab) && !IsSynthetic(ab)
    requires Ran(PlainCheckout(map[ab := h]), OneDeletion(a), OneRow(ab, h), after, 1, parsed)
    requires Complete(PlainCheckout(map[ab := h]), OneDeletion(a), OneRow(ab, h), 1, parsed)
    ensures ab in FullBuild(PlainCheckout(map[ab := h])) && ab !in Inventory(after, "r")
  {
    DeletionIsPlanned(a, ab, h);
    FileBelowRemovedPathIsLost(PlainCheckout(map[ab := h]), OneDeletion(a), OneRow(ab, h), after, parsed, ab, a);
  }

  // ---------------------------------------------------------------- histories of runs

  datatype RepoState = RepoState(rows: Rows, ref: Option<string>)

  /** One run of a history: the changes it reached, the files it parsed, and whether it aborted before writing. */
  datatype Leg = Leg(reached: nat, parsed: set<Path>, aborted: bool)

  ghost predicate Went(env: Env, changes: seq<Change>, before: Rows, after: Rows, leg: Leg) {
    && leg.reached <= |changes|
    && if leg.aborted then after == AfterMoves(env, before, Classify(env, before, changes[..leg.reached]))
       else Ran(env, changes, before, after, leg.reached, leg.parsed)
  }

  /** Runs from state to state, each over the diff against the same ref. */
  ghost predicate History(env: Env, diff: Option<string> -> seq<Change>, states: seq<RepoState>, legs: seq<Leg>) {
    && |states| == |legs| + 1
    && forall i :: 0 <= i < |legs| ==>
         Went(env, diff(states[0].ref), states[i].rows, states[i + 1].rows, legs[i])
  }

  /** The last run reached every change and parsed every supported planned file. */
  ghost predicate EndsComplete(env: Env, changes: seq<Change>, states: seq<RepoState>, legs: seq<Leg>) {
    && |states| == |legs| + 1 && legs != []
    && var leg := legs[|legs| - 1];
    && !leg.aborted && leg.reached == |changes|
    && Complete(env, changes, states[|legs| - 1].rows, |changes|, leg.parsed)
  }

  /** What `Update` does is a leg: degraded and aborted runs keep the ref, clean ones are complete. */
  method UpdateWorkingTree(store: Store, env: Env, diff: Option<string> -> seq<Change>, opts: Options, faults: Faults)
    returns (result: Result<Summary>, ghost leg: Leg)
    requires opts.batchSize > 0 && !opts.dryRun && DependentsAreIndexed(opts.dependents, env.repo)
    modifies store
    ensures var s, t := StateOf(env.repo, old(store.rows), old(store.refs)), StateOf(env.repo, store.rows, store.refs);
            && Went(env, diff(s.ref), s.rows, t.rows, leg)
            && (result.Err? || result.value.IsDegraded() ==> t.ref == s.ref)
            && (result.Ok? && result.value.IsClean() ==>
                  && !leg.aborted && leg.reached == |diff(s.ref)|
                  && Complete(env, diff(s.ref), s.rows, |diff(s.ref)|, leg.parsed))
  {
    var ref := if env.repo in store.refs then Some(store.refs[env.repo]) else None;
    var run;
    result, run := Update(store, env, diff(ref), opts, faults);
    leg := Leg(run.reached, if result.Err? then {} else run.Parsed(), result.Err?);
  }

  function StateOf(repo: Repo, rows: Rows, refs: map<Repo, string>): RepoState {
    RepoState(rows, if repo in refs then Some(refs[repo]) else None)
  }

  /** The run removes a path above `p`. */
  ghost predicate Removes(env: Env, changes: seq<Change>, rows: Rows, leg: Leg, p: Path)
    requires leg.reached <= |changes|
  {
    UnderAny(Classify(env, rows, changes[..leg.reached]).deletes, p)
  }

  /** One run, however short, at a path the batch does not mention. */
  lemma LegAt(env: Env, changes: seq<Change>, before: Rows, after: Rows, leg: Leg, p: Path)
    requires EnvOk(env) && Distinct(changes) && Went(env, changes, before, after, leg)
    requires !Touches(changes, p) && !IsSynthetic(p)
    ensures Becomes(env, before, after, !Removes(env, changes, before, leg, p), !leg.aborted && p in leg.parsed, p)
  {
    var prefix := changes[..leg.reached];
    assert forall c :: c in prefix ==> c in changes;
    assert !Touches(prefix, p);
    AfterMovesAt(env, before, prefix, p);
    RolesAreExclusive(env, before, prefix, p);
    if !leg.aborted { RanAt(env, changes, before, after, leg.reached, leg.parsed, p); }
  }

  ghost predicate NeverRemoved(env: Env, changes: seq<Change>, states: seq<RepoState>, legs: seq<Leg>, p: Path)
    requires |states| == |legs| + 1
  {
    forall i :: 0 <= i < |legs| ==> legs[i].reached <= |changes| && !Removes(env, changes, states[i].rows, legs[i], p)
  }

  ghost predicate Reparsed(legs: seq<Leg>, p: Path) {
    exists i :: 0 <= i < |legs| && !legs[i].aborted && p in legs[i].parsed
  }

  /** What becomes of a path: whether it is kept, and whether it ends at its current hash or the one it had. */
  ghost predicate Becomes(env: Env, first: Rows, last: Rows, kept: bool, reparsed: bool, p: Path) {
    && ((env.repo, p) in last <==> (env.repo, p) in first && kept)
    && ((env.repo, p) in last && (env.repo, p) in first ==>
          if reparsed then p in env.tree && last[(env.repo, p)].hash == env.tree[p].hash
          else last[(env.repo, p)].hash == first[(env.repo, p)].hash)
  }

  lemma BecomesOn(env: Env, first: Rows, mid: Rows, last: Rows, k: bool, r: bool, k': bool, r': bool, p: Path)
    requires Becomes(env, first, mid, k, r, p) && Becomes(env, mid, last, k', r', p)
    ensures Becomes(env, first, last, k && k', r || r', p)
  {}

  lemma HistoryPrefix(env: Env, diff: Option<string> -> seq<Change>, states: seq<RepoState>, legs: seq<Leg>)
    requires legs != [] && History(env, diff, states, legs)
    ensures History(env, diff, states[..|legs|], legs[..|legs| - 1])
    ensures var n := |legs| - 1; Went(env, diff(states[0].ref), states[n].rows, states[n + 1].rows, legs[n])
  {
    var n := |legs| - 1;
    forall i | 0 <= i < n
      ensures Went(env, diff(states[0].ref), states[..|legs|][i].rows, states[..|legs|][i + 1].rows, legs[..n][i])
    {
      assert Went(env, diff(states[0].ref), states[i].rows, states[i + 1].rows, legs[i]);
    }
  }

  /** A whole history at a path the batch does not mention, told from its first table. */
  lemma {:induction false} HistoryAt(env: Env, diff: Option<string> -> seq<Change>, states: seq<RepoState>,
      legs: seq<Leg>, p: Path)
    requires EnvOk(env) && History(env, diff, states, legs) && Distinct(diff(states[0].ref))
    requires !Touches(diff(states[0].ref), p) && !IsSynthetic(p)
    ensures Becomes(env, states[0].rows, states[|legs|].rows, NeverRemoved(env, diff(states[0].ref), states, legs, p),
                    Reparsed(legs, p), p)
    decreases |legs|
  {
    if legs != [] {
      var n := |legs| - 1;
      var changes, before, leg := diff(states[0].ref), states[n].rows, legs[n];
      HistoryPrefix(env, diff, states, legs);
      HistoryAt(env, diff, states[..|legs|], legs[..n], p);
      LegAt(env, changes, before, states[n + 1].rows, leg, p);
      RemovedOneMore(env, changes, states, legs, p);
      ReparsedOneMore(legs, p);
      BecomesOn(env, states[0].rows, before, states[n + 1].rows,
                NeverRemoved(env, changes, states[..|legs|], legs[..n], p), Reparsed(legs[..n], p),
                !Removes(env, changes, before, leg, p), !leg.aborted && p in leg.parsed, p);
    }
  }

  lemma RemovedOneMore(env: Env, changes: seq<Change>, states: seq<RepoState>, legs: seq<Leg>, p: Path)
    requires |states| == |legs| + 1 && legs != [] && legs[|legs| - 1].reached <= |changes|
    ensures var n := |legs| - 1;
            NeverRemoved(env, changes, states, legs, p) <==>
            NeverRemoved(env, changes, states[..|legs|], legs[..n], p)
              && !Removes(env, changes, states[n].rows, legs[n], p)
  {
    var n := |legs| - 1;
    assert forall i :: 0 <= i < n ==> legs[..n][i] == legs[i] && states[..|legs|][i] == states[i];
  }

  lemma ReparsedOneMore(legs: seq<Leg>, p: Path)
    requires legs != []
    ensures var n := |legs| - 1;
            Reparsed(legs, p) <==> Reparsed(legs[..n], p) || (!legs[n].aborted && p in legs[n].parsed)
  {
    var n := |legs| - 1;
    assert forall i :: 0 <= i < n ==> legs[..n][i] == legs[i];
    if Reparsed(legs[..n], p) {
      var i :| 0 <= i < n && !legs[..n][i].aborted && p in legs[..n][i].parsed;
      assert !legs[i].aborted && p in legs[i].parsed;
    }
  }

  // ---------------------------------------------------------------- convergence

  /** Alignment of a path over a whole history: at a mentioned path with the table the last run found. */
  ghost predicate AlignedOver(env: Env, changes: seq<Change>, states: seq<RepoState>, legs: seq<Leg>, p: Path)
    requires |states| == |legs| + 1 && legs != []
  {
    var first, found := states[0].rows, states[|legs| - 1].rows;
    if Touches(changes, p) then TouchedAligned(env, found, Classify(env, found, changes), p)
    else
      var kept := (env.repo, p) in first && NeverRemoved(env, changes, states, legs, p);
      && (kept <==> Indexed(env, p))
      && (kept && Indexed(env, p) && !Reparsed(legs, p) ==> first[(env.repo, p)].hash == env.tree[p].hash)
  }

  lemma HistoryAgreesAt(env: Env, diff: Option<string> -> seq<Change>, states: seq<RepoState>, legs: seq<Leg>, p: Path)
    requires EnvOk(env) && History(env, diff, states, legs) && Distinct(diff(states[0].ref)) && !IsSynthetic(p)
    requires EndsComplete(env, diff(states[0].ref), states, legs)
    ensures AgreesAt(env, states[|legs|].rows, p) <==> AlignedOver(env, diff(states[0].ref), states, legs, p)
  {
    var changes, n := diff(states[0].ref), |legs| - 1;
    InventoryAt(states[|legs|].rows, env.repo, p);
    if Touches(changes, p) {
      assert Went(env, changes, states[n].rows, states[n + 1].rows, legs[n]);
      CompleteRunAt(env, changes, states[n].rows, states[n + 1].rows, legs[n].parsed, p);
    } else {
      HistoryAt(env, diff, states, legs, p);
    }
  }

  /**
   Convergence. From any table let any number of runs go by, each cut off or aborted anywhere, then a complete one. The
   result is the full build's inventory IF AND ONLY IF every path is aligned over the history: outside the batch, what
   the first table has and no run removes is what a full build would index, at its hash or reparsed by some run.
   */
  lemma ConvergesIffAligned(env: Env, diff: Option<string> -> seq<Change>, states: seq<RepoState>, legs: seq<Leg>)
    requires EnvOk(env) && History(env, diff, states, legs) && Distinct(diff(states[0].ref))
    requires EndsComplete(env, diff(states[0].ref), states, legs)
    ensures Inventory(states[|legs|].rows, env.repo) == FullBuild(env) <==>
            forall p :: !IsSynthetic(p) ==> AlignedOver(env, diff(states[0].ref), states, legs, p)
  {
    var after := states[|legs|].rows;
    AgreesEverywhere(env, after);
    forall p
      ensures IsSynthetic(p) ==> AgreesAt(env, after, p)
      ensures !IsSynthetic(p) ==> (AgreesAt(env, after, p) <==> AlignedOver(env, diff(states[0].ref), states, legs, p))
    {
      InventoryAt(after, env.repo, p);
      if !IsSynthetic(p) { HistoryAgreesAt(env, diff, states, legs, p); }
    }
  }

  ghost predicate IsRemoved(changes: seq<Change>, d: Path) {
    exists c :: c in changes && ((c.kind.Deleted? && c.path == d) || (IsMove(c) && c.oldPath.value == d))
  }

  /**
   A condition on the batch and the checkout: supported new paths are indexable, removed ones are not, no move leads out
   of support, and nothing indexable lies below a removed path.
   */
  ghost predicate Benign(env: Env, changes: seq<Change>) {
    && (forall c :: c in changes ==>
          && (!c.kind.Deleted? && env.supports(c.path) ==> Indexed(env, c.path))
          && (IsMove(c) ==> !IsSynthetic(c.oldPath.value) && (env.supports(c.oldPath.value) ==> env.supports(c.path))))
    && (forall d :: IsRemoved(changes, d) ==> !Indexed(env, d))
    && (forall d, p :: IsRemoved(changes, d) && Indexed(env, p) ==> !Under(d, p))
  }

  /** Outside the batch the table already is what a full build of the checkout would leave. */
  ghost predicate Settled(env: Env, rows: Rows, changes: seq<Change>) {
    forall p :: !Touches(changes, p) && !IsSynthetic(p) ==>
      && ((env.repo, p) in rows <==> Indexed(env, p))
      && ((env.repo, p) in rows && Indexed(env, p) ==> rows[(env.repo, p)].hash == env.tree[p].hash)
  }

  ghost predicate OnlySupported(env: Env, rows: Rows) {
    forall p :: (env.repo, p) in rows && !IsSynthetic(p) ==> env.supports(p)
  }

  /** A full build of an earlier checkout is settled if the batch mentions every path that differs for indexing. */
  lemma FullBuildIsSettled(base: Env, env: Env, rows: Rows, changes: seq<Change>)
    requires base.repo == env.repo && Inventory(rows, base.repo) == FullBuild(base)
    requires forall p :: !Touches(changes, p) && !IsSynthetic(p) ==>
               (Indexed(base, p) <==> Indexed(env, p)) && (Indexed(env, p) ==> base.tree[p].hash == env.tree[p].hash)
    ensures Settled(env, rows, changes)
    ensures (forall p :: base.supports(p) ==> env.supports(p)) ==> OnlySupported(env, rows)
  {
    forall p | !IsSynthetic(p)
      ensures (env.repo, p) in rows <==> Indexed(base, p)
      ensures (env.repo, p) in rows ==> rows[(env.repo, p)].hash == base.tree[p].hash
    {
      InventoryAt(rows, base.repo, p);
      assert p in Inventory(rows, base.repo) <==> p in FullBuild(base);
    }
  }

  lemma DeletesAreRemoved(env: Env, rows: Rows, changes: seq<Change>, n: nat, d: Path)
    requires n <= |changes| && d in Classify(env, rows, changes[..n]).deletes
    ensures IsRemoved(changes, d)
  {
    PlanMembers(env, rows, changes[..n], d, (d, d));
    var c :| c in changes[..n] && Deletes(env, rows, c, d);
    assert c in changes;
  }

  lemma NothingIndexableIsRemoved(env: Env, changes: seq<Change>, rows: Rows, leg: Leg, p: Path)
    requires Benign(env, changes) && leg.reached <= |changes| && Indexed(env, p)
    ensures !Removes(env, changes, rows, leg, p)
  {
    forall d | d in Classify(env, rows, changes[..leg.reached]).deletes ensures !Under(d, p) {
      DeletesAreRemoved(env, rows, changes, leg.reached, d);
    }
  }

  lemma BenignIsAligned(env: Env, rows: Rows, changes: seq<Change>, refreshed: set<Path>)
    requires Distinct(changes) && Benign(env, changes) && Settled(env, rows, changes) && OnlySupported(env, rows)
    ensures Aligned(env, rows, changes, refreshed)
  {
    forall p | !IsSynthetic(p) ensures AlignedAt(env, rows, changes, refreshed, p) {
      BenignAt(env, rows, changes, refreshed, p);
    }
  }

  lemma BenignAt(env: Env, rows: Rows, changes: seq<Change>, refreshed: set<Path>, p: Path)
    requires Distinct(changes) && Benign(env, changes) && OnlySupported(env, rows) && !IsSynthetic(p)
    requires Settled(env, rows, changes) || Touches(changes, p)
    ensures AlignedAt(env, rows, changes, refreshed, p)
  {
    var plan := Classify(env, rows, changes);
    assert changes[..|changes|] == changes;
    PlanMembers(env, rows, changes, p, (p, p));
    TargetIsMoved(env, rows, changes, p);
    RolesAreExclusive(env, rows, changes, p);
    if Indexed(env, p) { NothingIndexableIsRemoved(env, changes, rows, Leg(|changes|, {}, false), p); }
    if IsSource(plan, p) || p in plan.deletes { RemovedRoles(env, rows, changes, p); }
  }

  lemma RemovedRoles(env: Env, rows: Rows, changes: seq<Change>, p: Path)
    requires var plan := Classify(env, rows, changes); IsSource(plan, p) || p in plan.deletes
    ensures IsRemoved(changes, p)
  {
    assert changes[..|changes|] == changes;
    TargetIsMoved(env, rows, changes, p);
    if p in Classify(env, rows, changes).deletes { DeletesAreRemoved(env, rows, changes, |changes|, p); }
  }

  lemma MovesKeepSupported(env: Env, rows: Rows, changes: seq<Change>, n: nat)
    requires Distinct(changes) && Benign(env, changes) && OnlySupported(env, rows) && n <= |changes|
    ensures OnlySupported(env, AfterMoves(env, rows, Classify(env, rows, changes[..n])))
  {
    var prefix := changes[..n];
    var plan := Classify(env, rows, prefix);
    assert forall c :: c in prefix ==> c in changes;
    forall p | (env.repo, p) in AfterMoves(env, rows, plan) && !IsSynthetic(p) ensures env.supports(p) {
      AfterMovesAt(env, rows, prefix, p);
      RolesAreExclusive(env, rows, prefix, p);
      TargetIsMoved(env, rows, prefix, p);
    }
  }

  lemma LegKeepsSupported(env: Env, changes: seq<Change>, before: Rows, after: Rows, leg: Leg)
    requires EnvOk(env) && Distinct(changes) && Benign(env, changes) && OnlySupported(env, before)
    requires Went(env, changes, before, after, leg)
    ensures OnlySupported(env, after)
  {
    MovesKeepSupported(env, before, changes, leg.reached);
    if !leg.aborted {
      forall p | (env.repo, p) in after && !IsSynthetic(p) ensures env.supports(p) {
        RanAt(env, changes, before, after, leg.reached, leg.parsed, p);
      }
    }
  }

  lemma {:induction false} HistoryKeepsSupported(env: Env, diff: Option<string> -> seq<Change>, states: seq<RepoState>,
      legs: seq<Leg>)
    requires EnvOk(env) && History(env, diff, states, legs) && Distinct(diff(states[0].ref))
    requires Benign(env, diff(states[0].ref)) && OnlySupported(env, states[0].rows)
    ensures OnlySupported(env, states[|legs|].rows)
    decreases |legs|
  {
    if legs != [] {
      var n := |legs| - 1;
      HistoryPrefix(env, diff, states, legs);
      HistoryKeepsSupported(env, diff, states[..|legs|], legs[..n]);
      LegKeepsSupported(env, diff(states[0].ref), states[n].rows, states[n + 1].rows, legs[n]);
    }
  }

  /**
   So over a benign batch, from a table that is settled outside it and holds supported files only, every history of
   partial and aborted runs that ends with a complete one ends at the full build.
   */
  lemma Converges(env: Env, diff: Option<string> -> seq<Change>, states: seq<RepoState>, legs: seq<Leg>)
    requires EnvOk(env) && History(env, diff, states, legs) && Distinct(diff(states[0].ref))
    requires EndsComplete(env, diff(states[0].ref), states, legs)
    requires Benign(env, diff(states[0].ref)) && Settled(env, states[0].rows, diff(states[0].ref))
    requires OnlySupported(env, states[0].rows)
    ensures Inventory(states[|legs|].rows, env.repo) == FullBuild(env)
  {
    var changes, n := diff(states[0].ref), |legs| - 1;
    HistoryPrefix(env, diff, states, legs);
    HistoryKeepsSupported(env, diff, states[..|legs|], legs[..n]);
    forall p | !IsSynthetic(p) ensures AlignedOver(env, changes, states, legs, p) {
      if Touches(changes, p) {
        BenignAt(env, states[n].rows, changes, {}, p);
      } else if Indexed(env, p) {
        forall i | 0 <= i < |legs|
          ensures legs[i].reached <= |changes| && !Removes(env, changes, states[i].rows, legs[i], p)
        {
          assert Went(env, changes, states[i].rows, states[i + 1].rows, legs[i]);
          NothingIndexableIsRemoved(env, changes, states[i].rows, legs[i], p);
        }
      }
    }
    ConvergesIffAligned(env, diff, states, legs);
  }
}
