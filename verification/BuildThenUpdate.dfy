/**
 Builds followed by updates. A degraded build has already cleared the repository and keeps the old ref, so that a later
 update diffs against it again (packages/atlas-engine/src/build.rs, end of `build_graph`); and a build of a checkout
 with uncommitted content moves the ref to a commit that does not describe it.
 */
module BuildThenUpdate {
  import opened Wrappers
  import opened Collections
  import opened Budget
  import opened BuildBudget
  import opened GraphStore
  import opened Worktree
  import opened UpdateGraph
  import opened IncrementalRefinement
  import opened SyncedRef
  import BuildGraph

  // ---------------------------------------------------------------- updates after a build

  lemma BuiltAt(env: Env, rows: Rows, parsed: set<Path>, p: Path)
    requires EnvOk(env) && parsed <= env.tree.Keys && (forall q :: q in parsed ==> Indexed(env, q)) && !IsSynthetic(p)
    ensures var after := BuildGraph.Built(env, rows, parsed);
            && ((env.repo, p) in after <==> p in parsed)
            && (p in parsed ==> after[(env.repo, p)].hash == env.tree[p].hash)
  {
    BuildGraph.BuiltInventory(env, rows, parsed);
    InventoryAt(BuildGraph.Built(env, rows, parsed), env.repo, p);
  }

  /**
   A build of the checkout that parsed only some files, then any history of updates that ends with a complete one: the
   result is the full inventory IF AND ONLY IF mentioned paths are aligned with the table the last run found, and every
   other indexable file was parsed by the build and never removed. No update makes up for what the build left out.
   */
  lemma BuildThenUpdatesConvergeIff(env: Env, rows: Rows, parsed: set<Path>, diff: Option<string> -> seq<Change>,
                                    states: seq<RepoState>, legs: seq<Leg>)
    requires EnvOk(env) && parsed <= env.tree.Keys && forall p :: p in parsed ==> Indexed(env, p)
    requires History(env, diff, states, legs) && states[0].rows == BuildGraph.Built(env, rows, parsed)
    requires Distinct(diff(states[0].ref)) && EndsComplete(env, diff(states[0].ref), states, legs)
    ensures var changes, found := diff(states[0].ref), states[|legs| - 1].rows;
            Inventory(states[|legs|].rows, env.repo) == FullBuild(env) <==>
            forall p :: !IsSynthetic(p) ==>
              if Touches(changes, p) then TouchedAligned(env, found, Classify(env, found, changes), p)
              else Indexed(env, p) ==> p in parsed && NeverRemoved(env, changes, states, legs, p)
  {
    var changes, found := diff(states[0].ref), states[|legs| - 1].rows;
    ConvergesIffAligned(env, diff, states, legs);
    forall p | !IsSynthetic(p)
      ensures AlignedOver(env, changes, states, legs, p) <==>
              if Touches(changes, p) then TouchedAligned(env, found, Classify(env, found, changes), p)
              else Indexed(env, p) ==> p in parsed && NeverRemoved(env, changes, states, legs, p)
    {
      BuiltAt(env, rows, parsed, p);
    }
  }

  // ---------------------------------------------------------------- a capped build

  /** Without interference a build parses nothing beyond the longest prefix of the scan that its limits admit. */
  lemma BuildParsesPrefixOnly(env: Env, listing: seq<Path>, opts: BuildGraph.Options, faults: Faults)
    requires opts.batchSize > 0
    requires BuildGraph.Undisturbed(env, BuildGraph.Scan(env, listing, opts.limits.maxFileBytes), opts.limits,
             faults.clock)
    ensures var files := BuildGraph.Scan(env, listing, opts.limits.maxFileBytes);
            var t := BuildGraph.Scanned(env, listing, opts.limits);
            forall p :: p in BuildGraph.RecordBuild(env, listing, map[], opts, faults).Parsed() ==>
              p in files[..AcceptPrefix(t, BuildGraph.Sizes(env, files))]
  {
    var files := BuildGraph.Scan(env, listing, opts.limits.maxFileBytes);
    var t := BuildGraph.Scanned(env, listing, opts.limits);
    var r := BuildGraph.RecordBuild(env, listing, map[], opts, faults);
    BuildGraph.ScannedIsSound(env, listing, opts.limits);
    BuildGraph.CandidatesArePrefix(env, BuildGraph.NoneOffered(t), files, faults.clock, opts.failFast);
    assert r.accepted.candidates == files[..AcceptPrefix(t, BuildGraph.Sizes(env, files))];
    BuildGraph.AcceptedIsSound(env, listing, map[], opts, faults.clock);
    BuildGraph.NoProgress(env, r.accepted.tracker, r.accepted.candidates);
    if !r.accepted.failed {
      BuildGraph.RoundsAreSound(env, r.accepted.tracker, BuildGraph.NothingParsedYet(r.accepted.tracker),
                                r.accepted.candidates, opts, faults);
    }
  }

  /** At most one file per run; no other limit is in reach. */
  const ONE_FILE: Limits := Limits(1, U64_MAX, U64_MAX, U64_MAX, 10_000, U64_MAX)

  const CAPPED: BuildGraph.Options := BuildGraph.Options(ONE_FILE, 1, false, false)

  function TwoFiles(p: Path, q: Path, h: Hash, head: string): Env {
    PlainCheckout(map[p := h, q := h]).(head := Some(head))
  }

  lemma ScanOfTwo(p: Path, q: Path, h: Hash, head: string)
    requires p != q && !IsSynthetic(p) && !IsSynthetic(q)
    ensures BuildGraph.Scan(TwoFiles(p, q, h, head), [p, q], U64_MAX) == [p, q]
    ensures BuildGraph.Sizes(TwoFiles(p, q, h, head), [p, q]) == [1, 1]
  {
    var env := TwoFiles(p, q, h, head);
    assert [p, q][..1] == [p] && [p][..0] == [];
    assert BuildGraph.Scan(env, [], U64_MAX) == [];
    assert BuildGraph.Scan(env, [p], U64_MAX) == [p];
  }

  lemma OneFileFits(t: TrackerState)
    requires t.limits == ONE_FILE && t.counters.filesAccepted == 0 && t.counters.bytesAccepted == 0
    ensures AcceptPrefix(t, [1, 1]) == 1
  {
    var (t1, d1) := OnAccept(t, 1);
    assert [1, 1][1..] == [1];
    assert AcceptPrefix(t1, [1]) == 0;
  }

  lemma NothingLarge(env: Env, listing: seq<Path>)
    ensures BuildGraph.LargeFiles(env, listing, U64_MAX) == []
  {
    var max: u64 := U64_MAX;
    FilterNone((p: Path) => BuildGraph.OverSize(env, p, max), listing);
  }

  /** The build leaves the second file out. */
  lemma CappedBuildLeavesOut(p: Path, q: Path, h: Hash, head: string)
    requires p != q && !IsSynthetic(p) && !IsSynthetic(q)
    ensures q !in BuildGraph.RecordBuild(TwoFiles(p, q, h, head), [p, q], map[], CAPPED, NO_FAULTS).Parsed()
  {
    var env := TwoFiles(p, q, h, head);
    ScanOfTwo(p, q, h, head);
    NothingLarge(env, [p, q]);
    OneFileFits(BuildGraph.Scanned(env, [p, q], ONE_FILE));
    BuildParsesPrefixOnly(env, [p, q], CAPPED, NO_FAULTS);
    assert [p, q][..1] == [p];
  }

  /** A build that leaves out a file it could have indexed is degraded. */
  lemma LeavingOutIsDegraded(env: Env, listing: seq<Path>, opts: BuildGraph.Options, faults: Faults,
      s: BuildGraph.Summary, q: Path)
    requires opts.batchSize > 0 && env.tree.Keys <= ToSet(listing) && BuildGraph.AllHashable(env) && Indexed(env, q)
    requires BuildGraph.IsSummaryOf(s, BuildGraph.RecordBuild(env, listing, map[], opts, faults), opts, faults)
    requires q !in BuildGraph.RecordBuild(env, listing, map[], opts, faults).Parsed()
    ensures s.IsDegraded()
  {
    if !s.budget.partial {
      BuildGraph.UnflaggedBuildIsCompleteIff(env, listing, opts, faults, s.budget);
    }
  }

  /**
   It happens: a build capped at one of two files is degraded and keeps the old ref; nothing has changed since, so the
   next update is clean, moves the ref, and the second file is still missing.
   */
  method DegradedBuildIsNotRepaired(store: Store, p: Path, q: Path, h: Hash, head: string)
    returns (b: Result<BuildGraph.Summary>, u: Result<Summary>)
    requires p != q && !IsSynthetic(p) && !IsSynthetic(q)
    modifies store
    ensures b.Ok? && b.value.IsDegraded() && u.Ok? && u.value.IsClean()
    ensures store.refs == old(store.refs)["r" := head]
    ensures q in FullBuild(TwoFiles(p, q, h, head)) && q !in Inventory(store.rows, "r")
  {
    b := BuildCapped(store, p, q, h, head);
    u := IdleRun(store, TwoFiles(p, q, h, head), ONE_BY_ONE, NO_FAULTS);
  }

  method BuildCapped(store: Store, p: Path, q: Path, h: Hash, head: string) returns (b: Result<BuildGraph.Summary>)
    requires p != q && !IsSynthetic(p) && !IsSynthetic(q)
    modifies store
    ensures b.Ok? && b.value.IsDegraded() && store.refs == old(store.refs) && q !in Inventory(store.rows, "r")
  {
    var env := TwoFiles(p, q, h, head);
    var run;
    BuildGraph.RecordIsSound(env, [p, q], map[], CAPPED, NO_FAULTS);
    CappedBuildLeavesOut(p, q, h, head);
    b, run := BuildGraph.Build(store, env, [p, q], CAPPED, NO_FAULTS);
    LeavingOutIsDegraded(env, [p, q], CAPPED, NO_FAULTS, b.value, q);
  }

  // ---------------------------------------------------------------- a build of uncommitted content

  const UNCAPPED: BuildGraph.Options := BuildGraph.Options(STRICT, 1, false, false)

  lemma ScanOfOne(p: Path, h: Hash, bytes: u64, head: string)
    requires !IsSynthetic(p)
    ensures BuildGraph.Scan(OneFile(p, h, bytes, true, head), [p], U64_MAX) == [p]
  {
    assert [p][..0] == [];
    assert BuildGraph.Scan(OneFile(p, h, bytes, true, head), [], U64_MAX) == [];
  }

  lemma AcceptOfOne(env: Env, t: TrackerState, p: Path)
    requires p in env.tree && env.tree[p].statOk && env.tree[p].hashOk && t.limits == STRICT
    requires t.counters.filesAccepted == 0 && t.reports == []
    ensures var a := BuildGraph.OfferAll(env, BuildGraph.NoneOffered(t), [p], map[], NO_FAULTS.clock, false);
            a.candidates == [p] && a.errors == 0 && !a.failed && a.tracker.reports == [] && a.tracker.limits == STRICT
  {
    var start := BuildGraph.NoneOffered(t);
    var next := BuildGraph.OfferNext(env, start, p, map[], NO_FAULTS.clock, false);
    BuildGraph.NextIsAcceptance(env, start, p, NO_FAULTS.clock, false);
    assert [p][1..] == [] && [] + [p] == [p];
    assert BuildGraph.OfferAll(env, next, [], map[], NO_FAULTS.clock, false) == next;
  }

  lemma RoundOfOne(env: Env, t: TrackerState, p: Path)
    requires Readable(env, p) && env.supports(p) && t.limits == STRICT && t.reports == []
    ensures var pr := BuildGraph.AllRounds(env, BuildGraph.NothingParsedYet(t), [p], UNCAPPED, NO_FAULTS);
            pr.parsed == [p] && pr.errors == 0 && pr.chunkFailures == 0 && pr.phase.Running? && pr.tracker.reports == []
  {
    NoTimeStop(t, 0);
    var start := BuildGraph.NothingParsedYet(t);
    var b := ParseOne(env, NoFiles(t, 0), p, false, false);
    assert [p][0..1] == [p] && [p][1..] == [] && [] + [p] == [p];
    assert ParseFiles(env, b, [], false, false) == b;
    assert ParseFiles(env, NoFiles(t, 0), [p], false, false) == b;
    var next := BuildGraph.OneRound(env, start, [p], UNCAPPED, NO_FAULTS);
    assert next.next == 1;
    assert BuildGraph.AllRounds(env, next, [p], UNCAPPED, NO_FAULTS) == next;
  }

  /** The build parsed these files without error or report. */
  ghost predicate CleanRecorded(env: Env, listing: seq<Path>, opts: BuildGraph.Options, faults: Faults,
      parsed: seq<Path>) {
    opts.batchSize > 0 &&
    var r := BuildGraph.RecordBuild(env, listing, map[], opts, faults);
    && !r.Failed() && r.Errors() == 0 && r.progress.parsed == parsed && r.progress.chunkFailures == 0
    && r.progress.tracker.reports == []
  }

  method CleanBuild(store: Store, env: Env, listing: seq<Path>, opts: BuildGraph.Options, faults: Faults,
                    ghost parsed: seq<Path>)
    returns (b: Result<BuildGraph.Summary>)
    requires EnvOk(env) && CleanRecorded(env, listing, opts, faults, parsed) && !opts.dryRun && !faults.reconcileFails
    requires ToSet(parsed) <= env.tree.Keys && env.head.Some?
    modifies store
    ensures b.Ok? && b.value.IsClean() && store.refs == old(store.refs)[env.repo := env.head.value]
    ensures Inventory(store.rows, env.repo) == map p | p in ToSet(parsed) :: env.tree[p].hash
  {
    var run;
    b, run := BuildGraph.Build(store, env, listing, opts, faults);
  }

  lemma BuildOfOne(p: Path, h: Hash, bytes: u64, head: string)
    requires !IsSynthetic(p)
    ensures CleanRecorded(OneFile(p, h, bytes, true, head), [p], UNCAPPED, NO_FAULTS, [p])
  {
    var env := OneFile(p, h, bytes, true, head);
    ScanOfOne(p, h, bytes, head);
    NothingLarge(env, [p]);
    var t := BuildGraph.Scanned(env, [p], STRICT);
    AcceptOfOne(env, t, p);
    RoundOfOne(env, BuildGraph.AcceptFrom(env, [p], map[], UNCAPPED, NO_FAULTS.clock).tracker, p);
  }

  /** A clean build of one file. */
  method BuildOne(store: Store, p: Path, h: Hash, bytes: u64, head: string) returns (b: Result<BuildGraph.Summary>)
    requires !IsSynthetic(p)
    modifies store
    ensures b.Ok? && b.value.IsClean() && store.refs == old(store.refs)["r" := head]
    ensures Inventory(store.rows, "r") == map[p := h]
  {
    BuildOfOne(p, h, bytes, head);
    assert ToSet([p]) == {p};
    b := CleanBuild(store, OneFile(p, h, bytes, true, head), [p], UNCAPPED, NO_FAULTS, [p]);
  }

  /**
   It happens: a file is built with an uncommitted edit, which moves the ref; the edit is reverted, so the diff against
   the ref is empty; the next update is clean and the edited content stays.
   */
  method RevertedEditIsForgotten(store: Store, p: Path, edited: Hash, committed: Hash, bytes: u64, head: string)
    returns (b: Result<BuildGraph.Summary>, u: Result<Summary>)
    requires !IsSynthetic(p) && edited != committed
    modifies store
    ensures b.Ok? && b.value.IsClean() && u.Ok? && u.value.IsClean() && store.refs == old(store.refs)["r" := head]
    ensures Inventory(store.rows, "r") == map[p := edited] != FullBuild(OneFile(p, committed, bytes, true, head))
  {
    b := BuildOne(store, p, edited, bytes, head);
    u := IdleRun(store, OneFile(p, committed, bytes, true, head), ONE_BY_ONE, NO_FAULTS);
    assert FullBuild(OneFile(p, committed, bytes, true, head))[p] == committed;
  }
}
