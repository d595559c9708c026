/**
 Where whole builds and updates end (packages/atlas-engine/src/build.rs and update.rs): what the scan finds, how far
 the changes are read, which files are let in, and that nothing is parsed or written past the file that blocks a run.
 */
module RunEnds {
  import opened Wrappers
  import opened Collections
  import opened Budget
  import opened BuildBudget
  import opened GraphStore
  import opened Worktree
  import opened StopPoints
  import opened Admission
  import BuildGraph
  import UpdateGraph

  // ---------------------------------------------------------------- the build

  /** The scan keeps the listed order and every listed path that is a supported, visible, openable regular text file. */
  lemma {:induction false} ScanIs(env: Env, listing: seq<Path>, maxBytes: u64, wanted: Path -> bool)
    requires forall p :: wanted(p) <==>
               && p in env.tree && env.supports(p) && !env.ignored(p) && env.tree[p].bytes <= maxBytes
               && env.tree[p].statOk && env.tree[p].regular && env.tree[p].readOk && !env.tree[p].binary
    ensures BuildGraph.Scan(env, listing, maxBytes) == Filter(wanted, listing)
  {
    if listing != [] {
      var n := |listing| - 1;
      ScanIs(env, listing[..n], maxBytes, wanted);
      FilterSnoc(wanted, listing, n);
      assert listing[..n + 1] == listing;
      assert forall s: seq<Path> :: s + [] == s;
    }
  }

  /** And it counts the visible unsupported paths, and the supported regular files that are too large. */
  lemma ScanCounts(env: Env, listing: seq<Path>, maxBytes: u64, strange: Path -> bool, large: Path -> bool)
    requires forall p :: strange(p) <==> !env.ignored(p) && !env.supports(p)
    requires forall p :: large(p) <==>
               && p in env.tree && !env.ignored(p) && env.supports(p)
               && env.tree[p].statOk && env.tree[p].regular && env.tree[p].bytes > maxBytes
    ensures var f := BuildGraph.FoundIn(env, listing, maxBytes);
            && f.files == BuildGraph.Scan(env, listing, maxBytes)
            && f.unsupported == |Filter(strange, listing)| && f.overSize == |Filter(large, listing)|
  {
    SameFilter((p: Path) => !env.ignored(p) && !env.supports(p), strange, listing);
    SameFilter((p: Path) => BuildGraph.OverSize(env, p, maxBytes), large, listing);
  }

  /** The tracker after the scan: what was found and what was too large are counted, and nothing else. */
  lemma StartIsReady(env: Env, listing: seq<Path>, opts: BuildGraph.Options)
    ensures var t, found := BuildGraph.Scanned(env, listing, opts.limits),
                            BuildGraph.FoundIn(env, listing, opts.limits.maxFileBytes);
            && t.counters.filesDiscovered == |found.files| && t.counters.filesSkippedByByteBudget == found.overSize
            && t.limits == opts.limits && t.counters.parseFailures == 0 && t.counters.filesAccepted == 0
            && t.counters.bytesAccepted == 0 && Consistent(t) && !HasBlocked(t)
  {
    BuildGraph.ScannedIsSound(env, listing, opts.limits);
  }

  /** The rule of a build: failures counted from nought. */
  function BuildRule(opts: BuildGraph.Options): Rule {
    Rule(opts.limits, 0, 0, opts.failFast, false)
  }

  /**
   A build lets in what the scan offers, up to the first file that is late or finds no room; of those it hands over the
   files up to the first that ends the loop, or as far as time allows.
   */
  lemma BuildStops(env: Env, listing: seq<Path>, stored: map<Path, Hash>, opts: BuildGraph.Options, faults: Faults)
    requires opts.batchSize > 0
    ensures var r := BuildGraph.RecordBuild(env, listing, stored, opts, faults);
            var found := BuildGraph.FoundIn(env, listing, opts.limits.maxFileBytes);
            && OfferedSomewhere(env, BuildGraph.Scanned(env, listing, opts.limits), stored,
                                BuildGraph.Scan(env, listing, opts.limits.maxFileBytes), faults.clock, opts.failFast,
                                r.accepted)
            && RuleOf(NoFiles(r.accepted.tracker, 0), opts.failFast, false) == BuildRule(opts)
            && r.scanned == |found.files| + found.unsupported + found.overSize && r.unsupported == found.unsupported
            && !HasBlocked(r.accepted.tracker)
            && (r.accepted.failed ==> r.progress == BuildGraph.NothingParsedYet(r.accepted.tracker))
            && (!r.accepted.failed ==>
                  RoundsComeTo(env, BuildGraph.NothingParsedYet(r.accepted.tracker), r.accepted.candidates, opts,
                    faults,
                               r.progress))
  {
    var t := BuildGraph.Scanned(env, listing, opts.limits);
    var files := BuildGraph.Scan(env, listing, opts.limits.maxFileBytes);
    var a := BuildGraph.AcceptFrom(env, listing, stored, opts, faults.clock);
    StartIsReady(env, listing, opts);
    BuildGraph.ScanMembers(env, listing, opts.limits.maxFileBytes);
    OfferStops(env, t, stored, files, faults.clock, opts.failFast);
    BuildGraph.AcceptedIsSound(env, listing, stored, opts, faults.clock);
    AcceptedIsReady(env, t, stored, files, opts, faults.clock, a);
    if !a.failed {
      assert a.candidates[0..] == a.candidates;
      RoundsStop(env, BuildGraph.NothingParsedYet(a.tracker), a.candidates, opts, faults);
    }
  }

  lemma AcceptedIsReady(env: Env, t: TrackerState, stored: map<Path, Hash>, files: seq<Path>, opts: BuildGraph.Options,
                        clock: Clock, a: BuildGraph.Acceptance)
    requires OfferedSomewhere(env, t, stored, files, clock, opts.failFast, a) && Consistent(a.tracker)
    requires t.limits == opts.limits && t.counters.parseFailures == 0
    ensures RuleOf(NoFiles(a.tracker, 0), opts.failFast, false) == BuildRule(opts)
    ensures Ready(BatchOf(BuildGraph.NothingParsedYet(a.tracker)))
  {}

  /** A run blocked: some file is one failure too many, the first to end the loop, and all that is kept is before it. */
  ghost predicate BlockedBefore(env: Env, rule: Rule, files: seq<Path>, parsed: seq<Path>) {
    exists j: nat ::
      && BlocksAt(env, rule, files, j) && (forall i :: 0 < i < j ==> !EndsAt(env, rule, files, i))
      && parsed <= GoodFiles(env, files[..j - 1])
  }

  lemma BadIsLast(env: Env, files: seq<Path>, j: nat)
    requires 0 < j <= |files| && !Readable(env, files[j - 1])
    ensures GoodFiles(env, files[..j]) == GoodFiles(env, files[..j - 1])
  {
    FilterSnoc((p: Path) => Readable(env, p) && env.supports(p), files, j - 1);
  }

  lemma StoppedIsBlocked(env: Env, b: Batch, files: seq<Path>, failFast: bool, clock: Clock, phase: nat, batchSize: nat,
                         r: Batch, parsed: seq<Path>)
    requires StoppedSomewhere(env, b, files, failFast, false, clock, phase, 0, batchSize, r)
    requires b.parsed == [] && !HasBlocked(b.tracker) && HasBlocked(r.tracker) && parsed <= r.parsed
    ensures BlockedBefore(env, RuleOf(b, failFast, false), files, parsed)
  {
    var j: nat :| StoppedAt(env, b, files, failFast, false, clock, phase, 0, batchSize, j, r);
    BadIsLast(env, files, j);
    assert [] + GoodFiles(env, files[..j]) == GoodFiles(env, files[..j]);
  }

  /** Nothing past the file that blocks a build is parsed or written, in its batch or in any later one. */
  lemma BlockEndsBuild(env: Env, listing: seq<Path>, stored: map<Path, Hash>, opts: BuildGraph.Options, faults: Faults)
    requires opts.batchSize > 0
    requires HasBlocked(BuildGraph.RecordBuild(env, listing, stored, opts, faults).progress.tracker)
    ensures var r := BuildGraph.RecordBuild(env, listing, stored, opts, faults);
            BlockedBefore(env, BuildRule(opts), r.accepted.candidates, r.progress.parsed)
  {
    var r := BuildGraph.RecordBuild(env, listing, stored, opts, faults);
    BuildStops(env, listing, stored, opts, faults);
    var pr := BuildGraph.NothingParsedYet(r.accepted.tracker);
    var b :| ComesTo(r.progress, opts.batchSize, b)
             && StoppedSomewhere(env, BatchOf(pr), r.accepted.candidates, opts.failFast, false, faults.clock, 1, 0,
                                 opts.batchSize, b);
    StoppedIsBlocked(env, BatchOf(pr), r.accepted.candidates, opts.failFast, faults.clock, 1, opts.batchSize, b,
                     r.progress.parsed);
  }

  /** What a dry run compares with: the stored paths of this repository, each with its hash. */
  lemma StoredHashesAre(rows: Rows, repo: Repo, p: Path)
    ensures p in BuildGraph.StoredHashes(rows, repo) <==> (repo, p) in rows
    ensures (repo, p) in rows ==> BuildGraph.StoredHashes(rows, repo)[p] == rows[(repo, p)].hash
  {}

  // ---------------------------------------------------------------- the update

  /** Changes are read in order up to the first whose clock reading is late. */
  lemma {:induction false} ReadsInTime(t: TrackerState, i: nat, n: nat, clock: Clock)
    requires i <= n
    ensures var (t', k) := UpdateGraph.InTime(t, i, n, clock);
            && i <= k <= n && (forall j :: i <= j < k ==> clock(0, j) <= t.limits.maxWallTimeMs)
            && (k < n ==> clock(0, k) > t.limits.maxWallTimeMs)
            && t'.limits == t.limits && t'.counters == t.counters.(stopReason := t'.counters.stopReason)
    decreases n - i
  {
    if i < n {
      TimeSays(t, clock(0, i));
      if clock(0, i) <= t.limits.maxWallTimeMs { ReadsInTime(t, i + 1, n, clock); }
    }
  }

  ghost predicate Splits(env: Env, paths: seq<Path>, supported: seq<Path>, unsupported: nat) {
    && (forall keep: Path -> bool :: (forall p :: keep(p) <==> env.supports(p)) ==> supported == Filter(keep, paths))
    && |supported| + unsupported == |paths|
  }

  lemma {:induction false} CountsAdd(p: Path -> bool, q: Path -> bool, paths: seq<Path>)
    requires forall x :: p(x) <==> !q(x)
    ensures |Filter(p, paths)| + |Filter(q, paths)| == |paths|
  {
    if paths != [] { CountsAdd(p, q, paths[1..]); }
  }

  lemma SupportedSplits(env: Env, paths: seq<Path>)
    ensures Splits(env, paths, UpdateGraph.Supported(env, paths), |UpdateGraph.Unsupported(env, paths)|)
  {
    var yes, no := (p: Path) => env.supports(p), (p: Path) => !env.supports(p);
    CountsAdd(yes, no, paths);
    forall keep: Path -> bool | forall p :: keep(p) <==> env.supports(p)
      ensures UpdateGraph.Supported(env, paths) == Filter(keep, paths)
    {
      SameFilter(yes, keep, paths);
    }
  }

  /**
   One phase of an update: the supported paths, in order; those of them let in; those of these handed to the parser. A
   file that fails fast ends it.
   */
  ghost predicate PhaseIs(env: Env, t: TrackerState, paths: seq<Path>, opts: UpdateGraph.Options, clock: Clock,
                          phase: nat, attempted: nat, halt: bool, c: UpdateGraph.Choice, d: Batch, b: Batch)
  {
    && ChosenSomewhere(env, t, UpdateGraph.Supported(env, paths), opts.failFast, c)
    && (c.failed ==> d == NoFiles(c.tracker, attempted) && b.failed)
    && (!c.failed ==>
          && b.failed == d.failed
          && StoppedSomewhere(env, NoFiles(c.tracker, attempted), c.files, opts.failFast, halt, clock, phase, 0,
                              opts.batchSize, d))
    && b.parsed == d.parsed && b.errors == c.errors + d.errors && b.attempted == d.attempted && b.tracker == d.tracker
    && b.blocked == (d.blocked || halt)
    && b.unsupported == |UpdateGraph.Unsupported(env, paths)| + d.unsupported
    && b.tracker.counters.parseFailures <= b.attempted && b.tracker.limits == t.limits
  }

  lemma ChosenIsReady(env: Env, t: TrackerState, paths: seq<Path>, failFast: bool, c: UpdateGraph.Choice,
      attempted: nat)
    requires ChosenSomewhere(env, t, paths, failFast, c) && Consistent(c.tracker)
    requires t.counters.parseFailures <= attempted
    ensures Ready(NoFiles(c.tracker, attempted)) && c.tracker.limits == t.limits
    ensures c.tracker.counters.parseFailures == t.counters.parseFailures
  {}

  lemma PhaseStops(env: Env, t: TrackerState, paths: seq<Path>, opts: UpdateGraph.Options, clock: Clock, phase: nat,
                   attempted: nat, halt: bool)
    returns (c: UpdateGraph.Choice, d: Batch)
    requires opts.batchSize > 0 && Consistent(t) && t.counters.parseFailures <= attempted
    ensures PhaseIs(env, t, paths, opts, clock, phase, attempted, halt, c, d,
                    UpdateGraph.Phase(env, t, paths, opts, clock, phase, attempted, halt))
    ensures Consistent(c.tracker) && (HasBlocked(c.tracker) ==> HasBlocked(t))
  {
    var supported := UpdateGraph.Supported(env, paths);
    var start := UpdateGraph.Choice([], 0, false, false, t);
    c := UpdateGraph.ChooseAll(env, start, supported, opts.failFast);
    UpdateGraph.NothingChosen(env, t);
    UpdateGraph.ChooseAllIsSound(env, t, [], start, supported, opts.failFast);
    assert [] + supported == supported;
    ChooseStops(env, t, supported, opts.failFast);
    ChosenIsReady(env, t, supported, opts.failFast, c, attempted);
    if c.failed {
      d := NoFiles(c.tracker, attempted);
    } else {
      d := UpdateGraph.ParseInBatches(env, NoFiles(c.tracker, attempted), c.files, opts, clock, phase, 0, halt);
      BatchesStop(env, NoFiles(c.tracker, attempted), c.files, opts, clock, phase, 0, halt);
    }
  }

  /** The dependents of the moved table that are not planned, in order. */
  lemma {:induction false} WithoutIs(xs: seq<Path>, drop: set<Path>, keep: Path -> bool)
    requires forall p :: keep(p) <==> p !in drop
    ensures UpdateGraph.Without(xs, drop) == Filter(keep, xs)
  {
    if xs != [] { WithoutIs(xs[1..], drop, keep); }
  }

  /**
   A whole update: it reads the changes that are in time, then its two phases end as each phase does, the second after
   the first's failures and files, and under the block it may have met.
   */
  lemma UpdateStops(env: Env, rows: Rows, changes: seq<UpdateGraph.Change>, opts: UpdateGraph.Options, clock: Clock)
    returns (t: TrackerState, c1: UpdateGraph.Choice, d1: Batch, c2: UpdateGraph.Choice, d2: Batch)
    requires opts.batchSize > 0
    ensures var r := UpdateGraph.Record(env, rows, changes, opts, clock);
            && r.reached <= |changes| && r.plan == UpdateGraph.Classify(env, rows, changes[..r.reached])
            && (forall i :: 0 <= i < r.reached ==> clock(0, i) <= opts.limits.maxWallTimeMs)
            && (r.reached < |changes| ==> clock(0, r.reached) > opts.limits.maxWallTimeMs)
            && t.limits == opts.limits && t.counters.parseFailures == 0 && !HasBlocked(t)
            && t.counters.filesDiscovered == |changes| && t.counters.filesAccepted == t.counters.bytesAccepted == 0
            && !HasBlocked(c1.tracker) && (HasBlocked(c2.tracker) ==> HasBlocked(r.first.tracker))
            && PhaseIs(env, t, r.plan.parses, opts, clock, 1, 0, false, c1, d1, r.first)
            && (r.first.failed ==> r.second == NoFiles(r.first.tracker, r.first.attempted))
            && (!r.first.failed ==>
                  PhaseIs(env, r.first.tracker, Others(env, rows, r.plan, opts), opts, clock, 2, r.first.attempted,
                          r.first.blocked, c2, d2, r.second))
  {
    var start := UpdateGraph.Discovered(opts.limits, |changes|);
    var (t', n) := UpdateGraph.InTime(start, 0, |changes|, clock);
    t := t';
    var plan := UpdateGraph.Classify(env, rows, changes[..n]);
    ReadsInTime(start, 0, |changes|, clock);
    UpdateGraph.InTimeIsSound(start, 0, |changes|, clock);
    c1, d1 := PhaseStops(env, t, plan.parses, opts, clock, 1, 0, false);
    UpdateGraph.PhaseIsSound(env, t, plan.parses, opts, clock, 1, 0, false);
    var first := UpdateGraph.Phase(env, t, plan.parses, opts, clock, 1, 0, false);
    c2, d2 := c1, d1;
    if !first.failed {
      c2, d2 := PhaseStops(env, first.tracker, Others(env, rows, plan, opts), opts, clock, 2, first.attempted,
                           first.blocked);
    }
  }

  /** The dependents of the moved table that are not planned. */
  function Others(env: Env, rows: Rows, plan: UpdateGraph.Plan, opts: UpdateGraph.Options): seq<Path> {
    UpdateGraph.Without(opts.dependents(UpdateGraph.MovedTable(env, rows, plan, opts.dryRun)), ToSet(plan.parses))
  }

  /** A phase without an earlier block is blocked exactly if it left a blocked report, and then ends as a build does. */
  lemma PhaseIsBlocked(env: Env, t: TrackerState, paths: seq<Path>, opts: UpdateGraph.Options, clock: Clock, phase: nat,
                       attempted: nat, c: UpdateGraph.Choice, d: Batch, b: Batch)
    requires PhaseIs(env, t, paths, opts, clock, phase, attempted, false, c, d, b) && !HasBlocked(c.tracker)
    requires !c.failed ==> RuleOf(NoFiles(c.tracker, attempted), opts.failFast, false).limits == t.limits
    ensures b.blocked <==> HasBlocked(b.tracker)
    ensures b.blocked ==>
              BlockedBefore(env, RuleOf(NoFiles(c.tracker, attempted), opts.failFast, false), c.files, b.parsed)
  {
    if !c.failed {
      var j: nat :| StoppedAt(env, NoFiles(c.tracker, attempted), c.files, opts.failFast, false, clock, phase, 0,
                              opts.batchSize, j, d);
      if HasBlocked(b.tracker) {
        StoppedIsBlocked(env, NoFiles(c.tracker, attempted), c.files, opts.failFast, clock, phase, opts.batchSize, d,
                         b.parsed);
      }
    }
  }

  /** Under an earlier block a phase hands over at most its first file. */
  lemma PhaseUnderBlock(env: Env, t: TrackerState, paths: seq<Path>, opts: UpdateGraph.Options, clock: Clock,
      phase: nat,
                        attempted: nat, c: UpdateGraph.Choice, d: Batch, b: Batch)
    requires PhaseIs(env, t, paths, opts, clock, phase, attempted, true, c, d, b)
    ensures b.blocked && b.attempted <= attempted + 1
    ensures b.parsed == [] || (c.files != [] && b.parsed == [c.files[0]])
  {
    if !c.failed {
      var j: nat :| StoppedAt(env, NoFiles(c.tracker, attempted), c.files, opts.failFast, true, clock, phase, 0,
                              opts.batchSize, j, d);
      var rule := RuleOf(NoFiles(c.tracker, attempted), opts.failFast, true);
      assert j <= 1 by { if j > 1 { assert EndsAt(env, rule, c.files, 1); } }
      if j == 1 {
        assert c.files[..1] == [c.files[0]];
        FilesOfOne(env, c.files[0]);
      }
    }
  }

  /**
   Nothing past the file that blocks an update is parsed: in the phase that is blocked nothing after it, and if that is
   the first, nothing in the second but its first file.
   */
  lemma BlockEndsUpdate(env: Env, rows: Rows, changes: seq<UpdateGraph.Change>, opts: UpdateGraph.Options, clock: Clock)
    returns (first: seq<Path>, second: seq<Path>)
    requires opts.batchSize > 0
    ensures var r := UpdateGraph.Record(env, rows, changes, opts, clock);
            && (forall p :: p in first ==> p in r.plan.parses)
            && (forall p :: p in second ==> p in Others(env, rows, r.plan, opts))
            && (r.first.blocked <==> HasBlocked(r.first.tracker))
            && (r.first.blocked ==>
                  && BlockedBefore(env, Rule(opts.limits, 0, 0, opts.failFast, false), first, r.first.parsed)
                  && (r.second.parsed == [] || (second != [] && r.second.parsed == [second[0]])))
            && (!r.first.blocked && HasBlocked(r.second.tracker) ==>
                  BlockedBefore(env, Rule(opts.limits, r.first.tracker.counters.parseFailures, r.first.attempted,
                                          opts.failFast, false), second, r.second.parsed))
  {
    var r := UpdateGraph.Record(env, rows, changes, opts, clock);
    var t, c1, d1, c2, d2 := UpdateStops(env, rows, changes, opts, clock);
    first, second := c1.files, if r.first.failed then [] else c2.files;
    ChosenAreOffered(env, t, r.plan.parses, opts.failFast, c1);
    PhaseIsBlocked(env, t, r.plan.parses, opts, clock, 1, 0, c1, d1, r.first);
    if !r.first.failed {
      ChosenAreOffered(env, r.first.tracker, Others(env, rows, r.plan, opts), opts.failFast, c2);
      if r.first.blocked {
        PhaseUnderBlock(env, r.first.tracker, Others(env, rows, r.plan, opts), opts, clock, 2, r.first.attempted, c2,
          d2,
                        r.second);
      } else {
        PhaseIsBlocked(env, r.first.tracker, Others(env, rows, r.plan, opts), opts, clock, 2, r.first.attempted, c2, d2,
                       r.second);
      }
    }
  }

  lemma ChosenAreOffered(env: Env, t: TrackerState, paths: seq<Path>, failFast: bool, c: UpdateGraph.Choice)
    requires ChosenSomewhere(env, t, UpdateGraph.Supported(env, paths), failFast, c)
    ensures forall p :: p in c.files ==> p in paths
    ensures c.tracker.limits == t.limits && c.tracker.counters.parseFailures == t.counters.parseFailures
  {}
}
