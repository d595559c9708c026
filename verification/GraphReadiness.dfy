/**
 The staleness detector (packages/atlas-agent-events/src/graph_readiness.rs) and its agreement with the updater.

 The detector's store reads are not scoped to a repository: `order` is the order in which rows of different
 repositories with the same path are met.
 */
module GraphReadiness {
  import opened Wrappers
  import opened Collections
  import opened GraphStore
  import opened Worktree
  import opened UpdateGraph
  import opened IncrementalRefinement

  function FileHash(rows: Rows, order: seq<Repo>, p: Path): Option<Hash> {
    if order == [] then None
    else if (order[0], p) in rows then Some(rows[(order[0], p)].hash)
    else FileHash(rows, order[1..], p)
  }

  predicate HasGraphFacts(rows: Rows, p: Path) {
    exists k :: k in rows && k.1 == p && rows[k].facts != {}
  }

  predicate ContainsFileState(rows: Rows, order: seq<Repo>, p: Path) {
    FileHash(rows, order, p).Some? || HasGraphFacts(rows, p)
  }

  predicate Hashable(env: Env, p: Path) {
    p in env.tree && env.tree[p].hashOk
  }

  predicate MatchesWorktree(env: Env, rows: Rows, order: seq<Repo>, p: Path) {
    if Hashable(env, p) then FileHash(rows, order, p) == Some(env.tree[p].hash)
    else !ContainsFileState(rows, order, p)
  }

  predicate CanAffectFacts(env: Env, rows: Rows, c: Change) {
    || env.supports(c.path)
    || (c.oldPath.Some? && env.supports(c.oldPath.value))
    || HasGraphFacts(rows, c.path)
    || (c.oldPath.Some? && HasGraphFacts(rows, c.oldPath.value))
  }

  predicate IsPending(env: Env, rows: Rows, order: seq<Repo>, c: Change) {
    CanAffectFacts(env, rows, c) &&
    match c.kind
    case Added => !MatchesWorktree(env, rows, order, c.path)
    case Modified => !MatchesWorktree(env, rows, order, c.path)
    case Deleted => ContainsFileState(rows, order, c.path)
    case _ =>
      || !MatchesWorktree(env, rows, order, c.path)
      || (c.oldPath.Some? && ContainsFileState(rows, order, c.oldPath.value))
  }

  /** The reported paths: both ends of every pending change, sorted, without duplicates. */
  method PendingPaths(env: Env, rows: Rows, order: seq<Repo>, changes: seq<Change>) returns (paths: seq<Path>)
    ensures StrictlySorted(LexLess, paths)
    ensures forall p :: p in paths <==>
              exists c :: c in changes && IsPending(env, rows, order, c) && (c.path == p || c.oldPath == Some(p))
  {
    var found: seq<Path> := [];
    for i := 0 to |changes|
      invariant forall p :: p in found <==>
                  exists c :: c in changes[..i] && IsPending(env, rows, order, c)
                    && (c.path == p || c.oldPath == Some(p))
    {
      var c := changes[i];
      TakeSnoc(changes, i);
      assert forall e :: e in changes[..i + 1] <==> e in changes[..i] || e == c;
      if IsPending(env, rows, order, c) {
        found := found + [c.path] + (if c.oldPath.Some? then [c.oldPath.value] else []);
      }
    }
    assert changes[..|changes|] == changes;
    LexIsStrictTotal();
    SortDistinctCorrect(LexLess, found);
    paths := SortDistinct(LexLess, found);
  }

  // ---------------------------------------------------------------- reading one repository's rows

  /** No other repository has a slice at this path, and the scan meets this repository. */
  ghost predicate OwnsPath(rows: Rows, order: seq<Repo>, repo: Repo, p: Path) {
    repo in order && forall k :: k in rows && k.1 == p ==> k.0 == repo
  }

  lemma {:induction false} FileHashOfOwner(rows: Rows, order: seq<Repo>, repo: Repo, p: Path)
    requires OwnsPath(rows, order, repo, p)
    ensures FileHash(rows, order, p) == if (repo, p) in rows then Some(rows[(repo, p)].hash) else None
  {
    if order[0] != repo {
      var k := (order[0], p);
      assert k.1 == p;
      FileHashOfOwner(rows, order[1..], repo, p);
    } else if (repo, p) !in rows {
      NoRowNoHash(rows, order, p, repo);
    }
  }

  lemma {:induction false} NoRowNoHash(rows: Rows, order: seq<Repo>, p: Path, repo: Repo)
    requires forall k :: k in rows && k.1 == p ==> k.0 == repo
    requires (repo, p) !in rows
    ensures FileHash(rows, order, p).None?
  {
    if order != [] {
      var k := (order[0], p);
      assert k.1 == p;
      NoRowNoHash(rows, order[1..], p, repo);
    }
  }

  /** At a path owned by this repository the detector sees exactly this repository's slice. */
  lemma DetectorSees(env: Env, rows: Rows, order: seq<Repo>, p: Path)
    requires OwnsPath(rows, order, env.repo, p)
    ensures ContainsFileState(rows, order, p) <==> (env.repo, p) in rows
    ensures HasGraphFacts(rows, p) ==> (env.repo, p) in rows
    ensures MatchesWorktree(env, rows, order, p) <==>
            if Hashable(env, p) then (env.repo, p) in rows && rows[(env.repo, p)].hash == env.tree[p].hash
            else (env.repo, p) !in rows
  {
    FileHashOfOwner(rows, order, env.repo, p);
    if HasGraphFacts(rows, p) {
      var k :| k in rows && k.1 == p && rows[k].facts != {};
      assert k == (env.repo, p);
    }
  }

  /** What the detector reads at a path: a slice of a repository the scan meets, or facts of any. */
  lemma {:induction false} DetectorReads(rows: Rows, order: seq<Repo>, p: Path)
    ensures ContainsFileState(rows, order, p) <==>
            || (exists r :: r in order && (r, p) in rows)
            || exists k :: k in rows && k.1 == p && rows[k].facts != {}
  {
    if order != [] {
      DetectorReads(rows, order[1..], p);
      if FileHash(rows, order[1..], p).Some? { StoredSomewhere(rows, order[1..], p); }
      if r :| r in order && r != order[0] && (r, p) in rows { StoredIsSeen(rows, order[1..], r, p); }
    }
  }

  lemma {:induction false} StoredSomewhere(rows: Rows, order: seq<Repo>, p: Path)
    requires FileHash(rows, order, p).Some?
    ensures exists r :: r in order && (r, p) in rows
  {
    if (order[0], p) !in rows { StoredSomewhere(rows, order[1..], p); }
  }

  /** A file that cannot be hashed matches exactly when nothing is read at its path. */
  lemma UnhashableMatchesIff(env: Env, rows: Rows, order: seq<Repo>, p: Path)
    requires !Hashable(env, p)
    ensures MatchesWorktree(env, rows, order, p) <==>
            (forall r :: r in order ==> (r, p) !in rows) && forall k :: k in rows && k.1 == p ==> rows[k].facts == {}
  {
    DetectorReads(rows, order, p);
  }

  // ---------------------------------------------------------------- detector against updater

  /** Facts a complete run leaves at an unsupported path: its own if kept, those of a slice moved there. */
  ghost predicate FactsRemain(env: Env, before: Rows, changes: seq<Change>, p: Path) {
    && Holds(env, before, changes, p)
    && (|| FactsAt(before, env.repo, p) != {}
        || exists r :: r in Classify(env, before, changes).renames && r.1 == p && FactsAt(before, env.repo, r.0) != {})
  }

  /** The path still matters to the graph after the run: by its name, or by facts that remain there. */
  ghost predicate StillMatters(env: Env, before: Rows, changes: seq<Change>, p: Path) {
    env.supports(p) || FactsRemain(env, before, changes, p)
  }

  /** The new path of a change does not end as the file on disk would give it. */
  ghost predicate EndsOutOfDate(env: Env, before: Rows, changes: seq<Change>, p: Path) {
    if !Hashable(env, p) then Holds(env, before, changes, p)
    else
      || !Holds(env, before, changes, p)
      || (&& p in Classify(env, before, changes).parses && !env.supports(p)
          && (env.repo, p) in before && before[(env.repo, p)].hash != env.tree[p].hash)
  }

  /** What a complete run leaves pending, told before the run, whatever the table. */
  ghost predicate StaysPending(env: Env, before: Rows, changes: seq<Change>, c: Change) {
    && !c.kind.Deleted?
    && (|| StillMatters(env, before, changes, c.path)
        || (c.oldPath.Some? && StillMatters(env, before, changes, c.oldPath.value)))
    && (|| EndsOutOfDate(env, before, changes, c.path)
        || (c.kind.Copied? && c.oldPath.Some? && Holds(env, before, changes, c.oldPath.value)))
  }

  /** The same where the table holds supported files only, kind by kind. */
  ghost predicate StaysPendingByKind(env: Env, before: Rows, changes: seq<Change>, c: Change) {
    c.oldPath.Some? &&
    var o := c.oldPath.value;
    match c.kind
    case Renamed =>
      if Stable(env, before, o, c.path) then UnderAny(Classify(env, before, changes).deletes, c.path)
                                             && (env.supports(c.path) || env.supports(o))
      else env.supports(o) && !env.supports(c.path) && Hashable(env, c.path)
    case Copied =>
      && (env.supports(c.path) || StillMatters(env, before, changes, o))
      && (Holds(env, before, changes, o) || (!env.supports(c.path) && Hashable(env, c.path)))
    case Deleted => false
    case _ => StillMatters(env, before, changes, o) && !env.supports(c.path) && Hashable(env, c.path)
  }

  ghost predicate RealPaths(c: Change) {
    !IsSynthetic(c.path) && (c.oldPath.Some? ==> !IsSynthetic(c.oldPath.value))
  }

  ghost predicate OwnsBoth(rows: Rows, order: seq<Repo>, repo: Repo, c: Change) {
    OwnsPath(rows, order, repo, c.path) && (c.oldPath.Some? ==> OwnsPath(rows, order, repo, c.oldPath.value))
  }

  /** A rename source is gone after a complete run. */
  lemma SourceIsGone(env: Env, changes: seq<Change>, before: Rows, c: Change)
    requires Distinct(changes) && c in changes && IsMove(c)
    ensures !Holds(env, before, changes, c.oldPath.value)
  {
    var p := c.oldPath.value;
    PlanMembers(env, before, changes, p, (p, p));
    TargetIsMoved(env, before, changes, p);
    RolesAreExclusive(env, before, changes, p);
  }

  lemma DeletedIsGone(env: Env, changes: seq<Change>, before: Rows, c: Change)
    requires Distinct(changes) && c in changes && c.kind.Deleted?
    ensures !Holds(env, before, changes, c.path)
  {
    PlanMembers(env, before, changes, c.path, (c.path, c.path));
    TargetIsMoved(env, before, changes, c.path);
    RolesAreExclusive(env, before, changes, c.path);
  }

  /** Facts at an unsupported path after a run are kept or moved ones. */
  lemma FactsAfter(env: Env, changes: seq<Change>, before: Rows, after: Rows, parsed: set<Path>, p: Path)
    requires EnvOk(env) && Distinct(changes) && !IsSynthetic(p) && !env.supports(p)
    requires Ran(env, changes, before, after, |changes|, parsed)
    ensures FactsAt(after, env.repo, p) != {} <==> FactsRemain(env, before, changes, p)
  {
    assert changes[..|changes|] == changes;
    RanFactsAt(env, changes, before, after, parsed, p);
    MovedFactsAt(env, before, changes, p);
  }

  lemma RanFactsAt(env: Env, changes: seq<Change>, before: Rows, after: Rows, parsed: set<Path>, p: Path)
    requires EnvOk(env) && !IsSynthetic(p) && !env.supports(p) && Ran(env, changes, before, after, |changes|, parsed)
    ensures FactsAt(after, env.repo, p) ==
            FactsAt(AfterMoves(env, before, Classify(env, before, changes[..|changes|])), env.repo, p)
  {}

  lemma MovedFactsAt(env: Env, before: Rows, changes: seq<Change>, p: Path)
    requires Distinct(changes) && !IsSynthetic(p) && !env.supports(p)
    ensures FactsAt(AfterMoves(env, before, Classify(env, before, changes)), env.repo, p) != {} <==>
            FactsRemain(env, before, changes, p)
  {
    var plan := Classify(env, before, changes);
    var moved := RenameAll(env, before, plan.renames);
    PlanIsSeparate(env, before, changes);
    forall r | r in plan.renames ensures (env.repo, r.0) in before { PlanMembers(env, before, changes, p, r); }
    RenameAllAt(env, before, plan.renames, p);
    DoomedAt(moved, env.repo, plan.deletes, p);
    RolesAreExclusive(env, before, changes, p);
    if IsTarget(plan, p) {
      var r :| r in plan.renames && r.1 == p;
      OneMoveThere(env, before, changes, r, p);
    }
  }

  /** At most one slice is moved to a path. */
  lemma OneMoveThere(env: Env, before: Rows, changes: seq<Change>, r: (Path, Path), p: Path)
    requires Distinct(changes) && r in Classify(env, before, changes).renames && r.1 == p
    ensures forall q :: q in Classify(env, before, changes).renames && q.1 == p ==> q == r
  {
    PlanIsSeparate(env, before, changes);
    var renames := Classify(env, before, changes).renames;
    forall q | q in renames && q.1 == p ensures q == r {
      var i :| 0 <= i < |renames| && renames[i] == r;
      var j :| 0 <= j < |renames| && renames[j] == q;
      assert i < j || i == j || j < i;
    }
  }

  lemma FactsAreSeen(rows: Rows, order: seq<Repo>, repo: Repo, p: Path)
    requires OwnsPath(rows, order, repo, p)
    ensures HasGraphFacts(rows, p) <==> FactsAt(rows, repo, p) != {}
  {
    if FactsAt(rows, repo, p) != {} {
      var k := (repo, p);
      assert k in rows && k.1 == p && rows[k].facts != {};
    }
  }

  /** Whether a path is there and matters after a complete run, told before it. */
  lemma PathAfter(env: Env, changes: seq<Change>, before: Rows, after: Rows, parsed: set<Path>, order: seq<Repo>,
      p: Path)
    requires EnvOk(env) && Distinct(changes) && !IsSynthetic(p)
    requires Ran(env, changes, before, after, |changes|, parsed)
    requires Complete(env, changes, before, |changes|, parsed)
    requires OwnsPath(after, order, env.repo, p)
    ensures (env.repo, p) in after <==> Holds(env, before, changes, p)
    ensures env.supports(p) || HasGraphFacts(after, p) <==> StillMatters(env, before, changes, p)
  {
    CompleteRows(env, changes, before, after, parsed, p);
    FactsAreSeen(after, order, env.repo, p);
    if !env.supports(p) { FactsAfter(env, changes, before, after, parsed, p); }
  }

  lemma NewPathAfter(env: Env, changes: seq<Change>, before: Rows, after: Rows, parsed: set<Path>, c: Change)
    requires EnvOk(env) && Distinct(changes) && c in changes && !IsSynthetic(c.path)
    requires Ran(env, changes, before, after, |changes|, parsed)
    requires Complete(env, changes, before, |changes|, parsed)
    ensures !c.kind.Deleted? ==> (OutOfDate(env, after, c.path) <==> EndsOutOfDate(env, before, changes, c.path))
  {
    var p := c.path;
    CompleteRows(env, changes, before, after, parsed, p);
    PlanMembers(env, before, changes, p, (p, p));
    TargetIsMoved(env, before, changes, p);
    RolesAreExclusive(env, before, changes, p);
    UnsupportedIsNotParsed(env, changes, before, after, parsed, p);
  }

  lemma UnsupportedIsNotParsed(env: Env, changes: seq<Change>, before: Rows, after: Rows, parsed: set<Path>, p: Path)
    requires Ran(env, changes, before, after, |changes|, parsed)
    ensures !env.supports(p) ==> p !in parsed
  {}

  /**
   After a complete run, from any table and over any batch that names each path once, a change is still reported as
   pending IF AND ONLY IF it was to stay so: it still matters, and its new path does not end as on disk, or it is a copy
   whose source the run leaves indexed; all told from the table before the run.
   */
  lemma PendingAfterRunIff(env: Env, changes: seq<Change>, before: Rows, after: Rows, parsed: set<Path>,
      order: seq<Repo>, c: Change)
    requires EnvOk(env) && Distinct(changes)
    requires Ran(env, changes, before, after, |changes|, parsed)
    requires Complete(env, changes, before, |changes|, parsed)
    requires c in changes && RealPaths(c) && OwnsBoth(after, order, env.repo, c)
    ensures IsPending(env, after, order, c) <==> StaysPending(env, before, changes, c)
  {
    NewPathAfter(env, changes, before, after, parsed, c);
    PathAfter(env, changes, before, after, parsed, order, c.path);
    PendingByRows(env, after, order, c);
    if c.kind.Deleted? { DeletedIsGone(env, changes, before, c); }
    if c.oldPath.Some? {
      PathAfter(env, changes, before, after, parsed, order, c.oldPath.value);
      if IsMove(c) { SourceIsGone(env, changes, before, c); }
    }
  }

  /**
   Where the table holds supported files only and planned supported files can be hashed, what stays pending is a stable
   move below a removed path, a reparsed change from a supported to an unsupported name, or a copy whose source is kept.
   */
  lemma PendingKinds(env: Env, before: Rows, changes: seq<Change>, c: Change)
    requires Distinct(changes) && OnlySupported(env, before) && c in changes && RealPaths(c)
    requires !c.kind.Deleted? && env.supports(c.path) ==> Hashable(env, c.path)
    ensures StaysPending(env, before, changes, c) <==> StaysPendingByKind(env, before, changes, c)
  {
    var p := c.path;
    PlanMembers(env, before, changes, p, (p, p));
    TargetIsMoved(env, before, changes, p);
    RolesAreExclusive(env, before, changes, p);
    if IsMove(c) { SourceIsGone(env, changes, before, c); }
  }

  /** A copy of a supported name stays pending as long as the run leaves its source indexed. */
  lemma CopyStaysPending(env: Env, changes: seq<Change>, before: Rows, after: Rows, parsed: set<Path>, order: seq<Repo>,
                         c: Change)
    requires EnvOk(env) && Distinct(changes)
    requires Ran(env, changes, before, after, |changes|, parsed)
    requires Complete(env, changes, before, |changes|, parsed)
    requires c.kind.Copied? && c.oldPath.Some? && env.supports(c.path) && env.repo in order
    requires !IsSynthetic(c.oldPath.value) && Holds(env, before, changes, c.oldPath.value)
    ensures IsPending(env, after, order, c)
  {
    CompleteRows(env, changes, before, after, parsed, c.oldPath.value);
    StoredIsSeen(after, order, env.repo, c.oldPath.value);
  }

  lemma {:induction false} StoredIsSeen(rows: Rows, order: seq<Repo>, repo: Repo, p: Path)
    requires repo in order && (repo, p) in rows
    ensures FileHash(rows, order, p).Some?
  {
    if order[0] != repo { StoredIsSeen(rows, order[1..], repo, p); }
  }

  /** The slice at `p` is not what the file on disk would give. */
  predicate OutOfDate(env: Env, rows: Rows, p: Path) {
    if Hashable(env, p) then (env.repo, p) !in rows || rows[(env.repo, p)].hash != env.tree[p].hash
    else (env.repo, p) in rows
  }

  /** The detector's verdict in terms of this repository's slices alone. */
  lemma PendingByRows(env: Env, rows: Rows, order: seq<Repo>, c: Change)
    requires OwnsBoth(rows, order, env.repo, c)
    ensures IsPending(env, rows, order, c) <==>
            CanAffectFacts(env, rows, c) &&
            if c.kind.Deleted? then (env.repo, c.path) in rows
            else
              || OutOfDate(env, rows, c.path)
              || ((c.kind.Renamed? || c.kind.Copied?) && c.oldPath.Some? && (env.repo, c.oldPath.value) in rows)
    ensures HasGraphFacts(rows, c.path) ==> (env.repo, c.path) in rows
    ensures c.oldPath.Some? && HasGraphFacts(rows, c.oldPath.value) ==> (env.repo, c.oldPath.value) in rows
  {
    DetectorSees(env, rows, order, c.path);
    if c.oldPath.Some? {
      DetectorSees(env, rows, order, c.oldPath.value);
    }
  }

  /** So after a complete run over a benign batch, in which only renames carry an old path, nothing is pending. */
  lemma DetectorAgreesWithUpdater(env: Env, changes: seq<Change>, before: Rows, after: Rows, parsed: set<Path>,
                                  order: seq<Repo>, c: Change)
    requires EnvOk(env) && Distinct(changes) && Benign(env, changes) && OnlySupported(env, before)
    requires Ran(env, changes, before, after, |changes|, parsed)
    requires Complete(env, changes, before, |changes|, parsed)
    requires c in changes && (c.oldPath.Some? ==> c.kind.Renamed?) && RealPaths(c)
             && OwnsBoth(after, order, env.repo, c)
    ensures !IsPending(env, after, order, c)
  {
    PendingAfterRunIff(env, changes, before, after, parsed, order, c);
    NewPathIsHashable(env, changes, before, after, parsed, c);
    PendingKinds(env, before, changes, c);
    BenignIsNotPending(env, before, changes, c);
  }

  lemma NewPathIsHashable(env: Env, changes: seq<Change>, before: Rows, after: Rows, parsed: set<Path>, c: Change)
    requires EnvOk(env) && Distinct(changes) && c in changes && !IsSynthetic(c.path)
    requires Ran(env, changes, before, after, |changes|, parsed)
    requires Complete(env, changes, before, |changes|, parsed)
    ensures !c.kind.Deleted? && env.supports(c.path) ==> Hashable(env, c.path)
  {
    CompleteRows(env, changes, before, after, parsed, c.path);
    PlanMembers(env, before, changes, c.path, (c.path, c.path));
    TargetIsMoved(env, before, changes, c.path);
  }

  lemma BenignIsNotPending(env: Env, before: Rows, changes: seq<Change>, c: Change)
    requires Benign(env, changes) && OnlySupported(env, before) && c in changes && (c.oldPath.Some? ==> c.kind.Renamed?)
    ensures !StaysPendingByKind(env, before, changes, c)
  {
    if IsMove(c) && Stable(env, before, c.oldPath.value, c.path) {
      assert (env.repo, c.oldPath.value) in before;
      assert changes[..|changes|] == changes;
      NothingIndexableIsRemoved(env, changes, before, Leg(|changes|, {}, false), c.path);
    }
  }

  /** Position of the first repository in the scan that stores the path. */
  ghost predicate FirstHolder(rows: Rows, order: seq<Repo>, p: Path, i: int) {
    0 <= i < |order| && (order[i], p) in rows && forall j :: 0 <= j < i ==> (order[j], p) !in rows
  }

  lemma {:induction false} FileHashIsFirst(rows: Rows, order: seq<Repo>, p: Path, h: Hash)
    ensures FileHash(rows, order, p) == Some(h) <==>
            exists i :: FirstHolder(rows, order, p, i) && rows[(order[i], p)].hash == h
  {
    if order != [] {
      if (order[0], p) in rows {
        assert FirstHolder(rows, order, p, 0);
      } else {
        var rest := order[1..];
        FileHashIsFirst(rows, rest, p, h);
        forall i ensures FirstHolder(rows, rest, p, i) <==> FirstHolder(rows, order, p, i + 1) {
          assert forall j :: 0 <= j < |rest| ==> rest[j] == order[j + 1];
        }
        if i :| FirstHolder(rows, order, p, i) && rows[(order[i], p)].hash == h {
          assert FirstHolder(rows, rest, p, i - 1);
        }
        if i :| FirstHolder(rows, rest, p, i) && rows[(rest[i], p)].hash == h {
          assert FirstHolder(rows, order, p, i + 1);
        }
      }
    }
  }

  /**
   Scoping matters: an edited file counts as done exactly when the first repository that stores it has its current
   hash.
   */
  lemma EditIsPendingIff(env: Env, rows: Rows, order: seq<Repo>, p: Path)
    requires env.supports(p) && Hashable(env, p)
    ensures IsPending(env, rows, order, Change(p, Modified, None)) <==>
            !exists i :: FirstHolder(rows, order, p, i) && rows[(order[i], p)].hash == env.tree[p].hash
  {
    FileHashIsFirst(rows, order, p, env.tree[p].hash);
  }

  /** So a foreign slice met first with another hash keeps the edit pending for good. */
  lemma ForeignSliceKeepsPending(env: Env, rows: Rows, foreign: Repo, rest: seq<Repo>, p: Path)
    requires env.supports(p) && Hashable(env, p)
    requires (foreign, p) in rows && rows[(foreign, p)].hash != env.tree[p].hash
    ensures IsPending(env, rows, [foreign] + rest, Change(p, Modified, None))
  {}
}
