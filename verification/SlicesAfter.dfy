/**
 What an update plans and what it leaves at each path, slice by slice: hash, owner and facts
 (packages/atlas-engine/src/update.rs and packages/atlas-store-sqlite/src/store/mutation.rs).
 */
module SlicesAfter {
  import opened Wrappers
  import opened Collections
  import opened GraphStore
  import opened Worktree
  import opened UpdateGraph
  import opened IncrementalRefinement
  import BuildGraph

  // ---------------------------------------------------------------- the plan

  /** The stored slice of the old name has the hash the new name has on disk, and the owner it belongs to. */
  predicate CanMove(env: Env, rows: Rows, src: Path, dst: Path) {
    && (env.repo, src) in rows && dst in env.tree && env.tree[dst].hashOk
    && rows[(env.repo, src)].hash == env.tree[dst].hash && rows[(env.repo, src)].owner == env.owner(dst)
  }

  predicate IsMoved(env: Env, rows: Rows, c: Change) {
    c.kind == Renamed && c.oldPath.Some? && CanMove(env, rows, c.oldPath.value, c.path)
  }

  predicate IsParsed(env: Env, rows: Rows, c: Change) {
    c.kind != Deleted && !IsMoved(env, rows, c)
  }

  predicate IsRemoval(env: Env, rows: Rows, c: Change) {
    c.kind == Deleted || (c.kind == Renamed && c.oldPath.Some? && !IsMoved(env, rows, c))
  }

  function RemovedPath(c: Change): Path {
    if c.kind == Renamed && c.oldPath.Some? then c.oldPath.value else c.path
  }

  function ParsedOne(env: Env, rows: Rows, c: Change): seq<Path> {
    if IsParsed(env, rows, c) then [c.path] else []
  }

  function RemovedOne(env: Env, rows: Rows, c: Change): seq<Path> {
    if IsRemoval(env, rows, c) then [RemovedPath(c)] else []
  }

  function MovedOne(env: Env, rows: Rows, c: Change): seq<(Path, Path)> {
    if IsMoved(env, rows, c) then [(c.oldPath.value, c.path)] else []
  }

  /** What the changes ask for, in their order. */
  function Parsed(env: Env, rows: Rows, changes: seq<Change>): seq<Path> {
    if changes == [] then [] else
    Parsed(env, rows, changes[..|changes| - 1]) + ParsedOne(env, rows, changes[|changes| - 1])
  }

  function Removals(env: Env, rows: Rows, changes: seq<Change>): seq<Path> {
    if changes == [] then [] else
    Removals(env, rows, changes[..|changes| - 1]) + RemovedOne(env, rows, changes[|changes| - 1])
  }

  function MovedPairs(env: Env, rows: Rows, changes: seq<Change>): seq<(Path, Path)> {
    if changes == [] then [] else
    MovedPairs(env, rows, changes[..|changes| - 1]) + MovedOne(env, rows, changes[|changes| - 1])
  }

  lemma PlanOneMore(env: Env, rows: Rows, plan: Plan, c: Change)
    ensures ClassifyOne(env, rows, plan, c) ==
            Plan(plan.deletes + RemovedOne(env, rows, c), plan.parses + ParsedOne(env, rows, c),
                 plan.renames + MovedOne(env, rows, c))
  {
    assert plan.deletes + [] == plan.deletes && plan.parses + [] == plan.parses && plan.renames + [] == plan.renames;
  }

  /**
   The plan, in the order of the changes: a rename is moved exactly when the stored slice of the old name has the hash
   and the owner of the new one; otherwise the old name is removed and the new one parsed; deletions are removed and
   everything else is parsed.
   */
  lemma {:induction false} PlanIs(env: Env, rows: Rows, changes: seq<Change>)
    ensures Classify(env, rows, changes) ==
            Plan(Removals(env, rows, changes), Parsed(env, rows, changes), MovedPairs(env, rows, changes))
  {
    if changes != [] {
      var init, c := changes[..|changes| - 1], changes[|changes| - 1];
      PlanIs(env, rows, init);
      PlanOneMore(env, rows, Classify(env, rows, init), c);
    }
  }

  lemma {:induction false} PairsAreMoves(env: Env, rows: Rows, changes: seq<Change>, src: Path, dst: Path)
    ensures (src, dst) in MovedPairs(env, rows, changes) <==>
            CanMove(env, rows, src, dst) && Change(dst, Renamed, Some(src)) in changes
  {
    if changes != [] {
      var init, c := changes[..|changes| - 1], changes[|changes| - 1];
      PairsAreMoves(env, rows, init, src, dst);
      assert changes == init + [c];
    }
  }

  lemma {:induction false} ParsedAndRemoved(env: Env, rows: Rows, changes: seq<Change>, c: Change)
    requires c in changes
    ensures IsParsed(env, rows, c) ==> c.path in Parsed(env, rows, changes)
    ensures IsRemoval(env, rows, c) ==> RemovedPath(c) in Removals(env, rows, changes)
  {
    var init := changes[..|changes| - 1];
    assert changes == init + [changes[|changes| - 1]];
    if c in init { ParsedAndRemoved(env, rows, init, c); }
  }

  /** Which renames are moved, for every batch: those, and of the others both ends are dealt with. */
  lemma RenameIsMovedIff(env: Env, rows: Rows, changes: seq<Change>, src: Path, dst: Path)
    requires Change(dst, Renamed, Some(src)) in changes
    ensures var plan := Classify(env, rows, changes);
            var stable := && (env.repo, src) in rows && dst in env.tree && env.tree[dst].hashOk
                          && rows[(env.repo, src)].hash == env.tree[dst].hash
                          && rows[(env.repo, src)].owner == env.owner(dst);
            && ((src, dst) in plan.renames <==> stable)
            && (!stable ==> src in plan.deletes && dst in plan.parses)
  {
    PlanIs(env, rows, changes);
    PairsAreMoves(env, rows, changes, src, dst);
    ParsedAndRemoved(env, rows, changes, Change(dst, Renamed, Some(src)));
  }

  // ---------------------------------------------------------------- slices after a run

  /** The slice parsing yields now. */
  predicate IsFresh(env: Env, p: Path, s: Slice) {
    p in env.tree && s.hash == env.tree[p].hash && s.owner == env.owner(p) && s.facts == env.parse(p, env.tree[p].hash)
  }

  /** The slice of the old name under the new one, with its owner and what the new name already had. */
  ghost predicate IsMovedSlice(env: Env, rows: Rows, src: Path, p: Path, s: Slice) {
    && (env.repo, src) in rows && s.hash == rows[(env.repo, src)].hash && s.owner == env.owner(p)
    && s.facts == rows[(env.repo, src)].facts + if (env.repo, p) in rows then rows[(env.repo, p)].facts else {}
  }

  ghost predicate IsNamed(plan: Plan, p: Path) {
    p in plan.deletes || exists r :: r in plan.renames && (r.0 == p || r.1 == p)
  }

  /** The moves and deletions of a run, seen at one path. */
  lemma MovedSliceAt(env: Env, rows: Rows, changes: seq<Change>, p: Path)
    requires Distinct(changes)
    ensures var plan := Classify(env, rows, changes);
            var moved, k := AfterMoves(env, rows, plan), (env.repo, p);
            && (forall src :: (src, p) in plan.renames ==>
                  && (k in moved <==> !UnderAny(plan.deletes, p))
                  && (k in moved ==> IsMovedSlice(env, rows, src, p, moved[k])))
            && (p in plan.deletes || (exists dst :: (p, dst) in plan.renames) ==> k !in moved)
            && (!IsNamed(plan, p) ==>
                  && (k in moved <==> k in rows && !UnderAny(plan.deletes, p))
                  && (k in moved && k in rows ==> moved[k] == rows[k]))
  {
    var plan := Classify(env, rows, changes);
    var moved := RenameAll(env, rows, plan.renames);
    RolesAreExclusive(env, rows, changes, p);
    PlanIsSeparate(env, rows, changes);
    forall r | r in plan.renames ensures (env.repo, r.0) in rows { PlanMembers(env, rows, changes, p, r); }
    RenameAllAt(env, rows, plan.renames, p);
    DoomedAt(moved, env.repo, plan.deletes, p);
    forall src | (src, p) in plan.renames ensures IsTarget(plan, p) && (src, p).1 == p {}
    forall dst | (p, dst) in plan.renames ensures IsSource(plan, p) && (p, dst).0 == p {}
  }

  /**
   What any run, cut off anywhere, leaves at a real path: a parsed file is fresh; a moved one keeps its facts under its
   new owner unless a removal is above it; what no change names is exactly as before unless a removal is above it; the
   rest is gone.
   */
  lemma SliceAfterRun(env: Env, changes: seq<Change>, before: Rows, after: Rows, n: nat, parsed: set<Path>, p: Path)
    requires EnvOk(env) && !IsSynthetic(p) && Ran(env, changes, before, after, n, parsed) && Distinct(changes[..n])
    ensures var plan, k := Classify(env, before, changes[..n]), (env.repo, p);
            && (p in parsed ==> k in after && IsFresh(env, p, after[k]))
            && (p !in parsed ==>
                  && (forall src :: (src, p) in plan.renames ==>
                        && (k in after <==> !UnderAny(plan.deletes, p))
                        && (k in after ==> IsMovedSlice(env, before, src, p, after[k])))
                  && (p in plan.deletes || (exists dst :: (p, dst) in plan.renames) ==> k !in after)
                  && (!IsNamed(plan, p) ==>
                        && (k in after <==> k in before && !UnderAny(plan.deletes, p))
                        && (k in after && k in before ==> after[k] == before[k])))
  {
    MovedSliceAt(env, before, changes[..n], p);
    WrittenSliceAt(env, AfterMoves(env, before, Classify(env, before, changes[..n])), parsed, p);
  }

  /** Writing and rebuilding the owner graphs, seen at one real path. */
  lemma WrittenSliceAt(env: Env, rows: Rows, parsed: set<Path>, p: Path)
    requires EnvOk(env) && !IsSynthetic(p) && parsed <= env.tree.Keys
    ensures var after, k := Refreshed(env, Written(env, rows, parsed)), (env.repo, p);
            && (p in parsed ==> k in after && IsFresh(env, p, after[k]))
            && (p !in parsed ==> (k in after <==> k in rows) && (k in after && k in rows ==> after[k] == rows[k]))
  {}

  /** The slices a run reports as deleted: those a removal names or lies above, once the renames are done. */
  lemma DeletionsAre(env: Env, rows: Rows, plan: Plan, dryRun: bool, gone: set<Path>)
    requires var moved := if dryRun then rows else RenameAll(env, rows, plan.renames);
             forall p :: p in gone <==> (env.repo, p) in moved && (p in plan.deletes || UnderAny(plan.deletes, p))
    ensures Deletions(env, rows, plan, dryRun) == |gone|
  {
    var moved := if dryRun then rows else RenameAll(env, rows, plan.renames);
    forall p ensures p in gone <==> p in Doomed(moved, env.repo, ToSet(plan.deletes)) {
      DoomedAt(moved, env.repo, plan.deletes, p);
    }
    assert gone == Doomed(moved, env.repo, ToSet(plan.deletes));
  }

  /** Owner graphs are exactly those just built, whatever was there. */
  lemma OwnerGraphsAre(env: Env, rows: Rows, p: Path)
    requires EnvOk(env) && IsSynthetic(p)
    ensures var after, k := Refreshed(env, rows), (env.repo, p);
            (k in after <==> p in env.synthetic) && (p in env.synthetic ==> k in after && after[k] == env.synthetic[p])
  {}

  lemma RefreshedOthers(env: Env, rows: Rows, k: Key)
    requires k.0 != env.repo
    ensures k in Refreshed(env, rows) <==> k in rows
    ensures k in rows ==> Refreshed(env, rows)[k] == rows[k]
  {}

  lemma {:induction false} MovesKeepOthers(env: Env, rows: Rows, renames: seq<(Path, Path)>)
    ensures OtherReposUnchanged(rows, RenameAll(env, rows, renames), env.repo)
  {
    if renames != [] { MovesKeepOthers(env, rows, renames[..|renames| - 1]); }
  }

  /** A run leaves owner graphs just built, and every other repository alone. */
  lemma RunKeepsOthers(env: Env, changes: seq<Change>, before: Rows, after: Rows, n: nat, parsed: set<Path>)
    requires EnvOk(env) && Ran(env, changes, before, after, n, parsed)
    ensures OtherReposUnchanged(before, after, env.repo)
    ensures forall p :: IsSynthetic(p) ==>
              && ((env.repo, p) in after <==> p in env.synthetic)
              && (p in env.synthetic ==> (env.repo, p) in after && after[(env.repo, p)] == env.synthetic[p])
  {
    var plan := Classify(env, before, changes[..n]);
    MovesKeepOthers(env, before, plan.renames);
    var written := Written(env, AfterMoves(env, before, plan), parsed);
    forall k: Key | k.0 != env.repo ensures (k in after <==> k in before) && (k in before ==> after[k] == before[k]) {
      RefreshedOthers(env, written, k);
    }
    forall p | IsSynthetic(p)
      ensures (env.repo, p) in after <==> p in env.synthetic
      ensures p in env.synthetic ==> (env.repo, p) in after && after[(env.repo, p)] == env.synthetic[p]
    {
      OwnerGraphsAre(env, written, p);
    }
  }

  /** A build leaves the parsed files fresh, its owner graphs, and nothing else of its repository. */
  lemma SliceAfterBuild(env: Env, rows: Rows, parsed: set<Path>, p: Path)
    requires EnvOk(env) && parsed <= env.tree.Keys
    ensures var after, k := BuildGraph.Built(env, rows, parsed), (env.repo, p);
            if IsSynthetic(p) then
              (k in after <==> p in env.synthetic)
                && (k in after && p in env.synthetic ==> after[k] == env.synthetic[p])
            else (k in after <==> p in parsed) && (k in after ==> IsFresh(env, p, after[k]))
  {
    var cleared := BuildGraph.Cleared(env, rows);
    if IsSynthetic(p) {
      OwnerGraphsAre(env, Written(env, cleared, parsed), p);
    } else {
      WrittenSliceAt(env, cleared, parsed, p);
    }
  }

  /**
   A file renamed into another owner is not moved: after a complete run it has the facts parsing yields under its new
   name and its new owner, and the old name is gone.
   */
  lemma RenameAcrossOwnersIsParsed(env: Env, changes: seq<Change>, before: Rows, after: Rows, parsed: set<Path>,
                                   src: Path, dst: Path)
    requires EnvOk(env) && Distinct(changes) && !IsSynthetic(src) && !IsSynthetic(dst) && env.supports(dst)
    requires Ran(env, changes, before, after, |changes|, parsed)
    requires Complete(env, changes, before, |changes|, parsed)
    requires Change(dst, Renamed, Some(src)) in changes
    requires (env.repo, src) in before ==> before[(env.repo, src)].owner != env.owner(dst)
    ensures (env.repo, dst) in after && IsFresh(env, dst, after[(env.repo, dst)])
    ensures src in parsed || (env.repo, src) !in after
  {
    assert changes[..|changes|] == changes;
    RenameIsMovedIff(env, before, changes, src, dst);
    SliceAfterRun(env, changes, before, after, |changes|, parsed, dst);
    SliceAfterRun(env, changes, before, after, |changes|, parsed, src);
  }
}
