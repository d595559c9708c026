/**
 Incremental update (packages/atlas-engine/src/update.rs): classify the changes, move hash-stable renames, delete
 stale slices, parse changed and dependent files within the budget, write them, decide whether the ref advances.
 */
module UpdateGraph {
  import opened Wrappers
  import opened Collections
  import opened Budget
  import opened BuildBudget
  import opened GraphStore
  import opened Worktree

  datatype ChangeType = Added | Modified | Deleted | Renamed | Copied

  datatype Change = Change(path: Path, kind: ChangeType, oldPath: Option<Path>)

  datatype Options = Options(
    limits: Limits, batchSize: nat, dryRun: bool, failFast: bool, dependents: Rows -> seq<Path>)

  datatype Summary = Summary(
    deleted: nat, renamed: nat, parsed: nat, skippedUnsupported: nat, parseErrors: nat,
    chunkUpsertFailures: nat, reconcileFailures: nat, counters: Counters, budget: Report)
  {
    predicate IsDegraded() {
      budget.partial || chunkUpsertFailures > 0 || reconcileFailures > 0
    }

    /** No partial report, no block, no unreadable file, no collaborator failure. */
    predicate IsClean() {
      !budget.hit && parseErrors == 0 && chunkUpsertFailures == 0 && reconcileFailures == 0
    }
  }

  // ---------------------------------------------------------------- classification

  datatype Plan = Plan(deletes: seq<Path>, parses: seq<Path>, renames: seq<(Path, Path)>)

  /** The old slice has the new file's hash and owner, so it can be moved instead of reparsed. */
  predicate Stable(env: Env, rows: Rows, src: Path, dst: Path) {
    && dst in env.tree && env.tree[dst].hashOk && (env.repo, src) in rows
    && rows[(env.repo, src)].hash == env.tree[dst].hash
    && rows[(env.repo, src)].owner == env.owner(dst)
  }

  function ClassifyOne(env: Env, rows: Rows, plan: Plan, c: Change): Plan {
    match c.kind
    case Deleted => plan.(deletes := plan.deletes + [c.path])
    case Renamed =>
      if c.oldPath.None? then plan.(parses := plan.parses + [c.path])
      else if Stable(env, rows, c.oldPath.value, c.path) then
        plan.(renames := plan.renames + [(c.oldPath.value, c.path)])
      else plan.(deletes := plan.deletes + [c.oldPath.value], parses := plan.parses + [c.path])
    case _ => plan.(parses := plan.parses + [c.path])
  }

  function Classify(env: Env, rows: Rows, changes: seq<Change>): Plan {
    if changes == [] then Plan([], [], [])
    else ClassifyOne(env, rows, Classify(env, rows, changes[..|changes| - 1]), changes[|changes| - 1])
  }

  method ClassifyChange(store: Store, env: Env, plan: Plan, c: Change) returns (next: Plan)
    ensures next == ClassifyOne(env, store.rows, plan, c)
  {
    var deletes, parses, renames := plan.deletes, plan.parses, plan.renames;
    match c.kind {
      case Deleted => deletes := deletes + [c.path];
      case Renamed =>
        if c.oldPath.Some? && Stable(env, store.rows, c.oldPath.value, c.path) {
          renames := renames + [(c.oldPath.value, c.path)];
        } else {
          if c.oldPath.Some? {
            deletes := deletes + [c.oldPath.value];
          }
          parses := parses + [c.path];
        }
      case _ => parses := parses + [c.path];
    }
    next := Plan(deletes, parses, renames);
  }

  /** How many of `n` changes are reached before the clock runs out, from change `i` on, and the tracker then. */
  function InTime(t: TrackerState, i: nat, n: nat, clock: Clock): (r: (TrackerState, nat))
    requires i <= n
    ensures i <= r.1 <= n
    decreases n - i
  {
    if i == n then (t, n)
    else
      var (t', d) := OnTime(t, clock(0, i));
      if d.Degraded? then (t', i) else InTime(t', i + 1, n, clock)
  }

  /** A time stop leaves a partial report; without one every change is reached. */
  lemma {:induction false} InTimeIsSound(t: TrackerState, i: nat, n: nat, clock: Clock)
    requires i <= n && Consistent(t)
    ensures var (t', k) := InTime(t, i, n, clock);
            && i <= k <= n && Consistent(t') && t.reports <= t'.reports && t'.limits == t.limits
            && (HasBlocked(t') ==> HasBlocked(t)) && (t'.reports == [] ==> k == n)
    decreases n - i
  {
    if i < n {
      var (t', d) := OnTime(t, clock(0, i));
      StepKeepsConsistent(t, TimeCheck(clock(0, i)));
      if !d.Degraded? { InTimeIsSound(t', i + 1, n, clock); }
    }
  }

  /** Classify changes in order until the clock runs out. */
  method ClassifyChanges(store: Store, tracker: BuildBudgetTracker, env: Env, changes: seq<Change>, clock: Clock)
    returns (plan: Plan, n: nat)
    modifies tracker, tracker.manager
    ensures n <= |changes| && plan == Classify(env, store.rows, changes[..n])
    ensures (tracker.View(), n) == InTime(old(tracker.View()), 0, |changes|, clock)
  {
    plan, n := Plan([], [], []), 0;
    while n < |changes|
      invariant n <= |changes| && plan == Classify(env, store.rows, changes[..n])
      invariant InTime(tracker.View(), n, |changes|, clock) == InTime(old(tracker.View()), 0, |changes|, clock)
    {
      var d := tracker.MaybeStopForTime(clock(0, n));
      if d.Degraded? {
        return;
      }
      TakeSnoc(changes, n);
      assert changes[..n + 1][..n] == changes[..n];
      plan := ClassifyChange(store, env, plan, changes[n]);
      n := n + 1;
    }
  }

  // ---------------------------------------------------------------- moving and deleting

  function RenameAll(env: Env, rows: Rows, renames: seq<(Path, Path)>): Rows {
    if renames == [] then rows else
    var (src, dst) := renames[|renames| - 1];
    SetOwner(RenameRow(RenameAll(env, rows, renames[..|renames| - 1]), env.repo, src, dst), env.repo, dst,
      env.owner(dst))
  }

  method ApplyRenames(store: Store, env: Env, renames: seq<(Path, Path)>)
    modifies store`rows
    ensures store.rows == RenameAll(env, old(store.rows), renames)
  {
    for i := 0 to |renames|
      invariant store.rows == RenameAll(env, old(store.rows), renames[..i])
    {
      var (src, dst) := renames[i];
      TakeSnoc(renames, i);
      assert renames[..i + 1][..i] == renames[..i];
      store.RenameFileGraph(env.repo, src, dst);
      store.UpsertFileOwner(env.repo, dst, env.owner(dst));
    }
    assert renames[..|renames|] == renames;
  }

  /** The table after the stable renames and then the deletions. */
  function AfterMoves(env: Env, rows: Rows, plan: Plan): Rows {
    var moved := RenameAll(env, rows, plan.renames);
    moved - KeysOf(env.repo, Doomed(moved, env.repo, ToSet(plan.deletes)))
  }

  /** Number of slices the deletions find; a dry run looks at the table without the renames. */
  function Deletions(env: Env, rows: Rows, plan: Plan, dryRun: bool): nat {
    |Doomed(if dryRun then rows else RenameAll(env, rows, plan.renames), env.repo, ToSet(plan.deletes))|
  }

  /** The table after a whole run that parsed the given files. */
  function Updated(env: Env, rows: Rows, plan: Plan, parsed: set<Path>): Rows
    requires parsed <= env.tree.Keys
  {
    Refreshed(env, Written(env, AfterMoves(env, rows, plan), parsed))
  }

  /** Only present, supported files are parsed: planned ones, or dependents the store knows. */
  ghost predicate Parsable(env: Env, rows: Rows, plan: Plan, parsed: set<Path>) {
    forall p :: p in parsed ==>
      Readable(env, p) && env.supports(p) && (p in plan.parses || (env.repo, p) in AfterMoves(env, rows, plan))
  }

  /** Dependents come from the node rows of this repository. */
  ghost predicate DependentsAreIndexed(dependents: Rows -> seq<Path>, repo: Repo) {
    forall rows: Rows, p :: p in dependents(rows) ==> (repo, p) in rows
  }

  // ---------------------------------------------------------------- choosing files

  datatype Verdict = Take | TooLarge | OutOfBudget

  /** Size check and acceptance of one file. */
  function Offer(t: TrackerState, bytes: u64): (TrackerState, Verdict) {
    if bytes > t.limits.maxFileBytes then (OnSkip(t, bytes), TooLarge)
    else
      var (t', d) := OnAccept(t, bytes);
      (t', if d.Continue? then Take else OutOfBudget)
  }

  method OfferBytes(tracker: BuildBudgetTracker, bytes: u64) returns (v: Verdict)
    modifies tracker, tracker.manager
    ensures (tracker.View(), v) == Offer(old(tracker.View()), bytes)
  {
    if bytes > tracker.limits.maxFileBytes {
      tracker.NoteSkippedByFileBytes(bytes);
      return TooLarge;
    }
    var d := tracker.TryAcceptFile(bytes);
    v := if d.Continue? then Take else OutOfBudget;
  }

  lemma OfferIsSound(t: TrackerState, bytes: u64)
    requires Consistent(t)
    ensures var (t', v) := Offer(t, bytes);
            && Consistent(t') && t.reports <= t'.reports && t'.limits == t.limits
            && (HasBlocked(t') ==> HasBlocked(t)) && (!v.Take? ==> t'.reports != [])
  {
    StepKeepsConsistent(t, SkipFileBytes(bytes));
    AcceptIsSound(t, bytes);
  }

  /** Files chosen so far. */
  datatype Choice = Choice(files: seq<Path>, errors: nat, stopped: bool, failed: bool, tracker: TrackerState)
  {
    predicate Over() {
      stopped || failed
    }
  }

  predicate Statable(env: Env, p: Path) {
    p in env.tree && env.tree[p].statOk
  }

  /** One more supported file: stat, size, budget. */
  function Choose(env: Env, c: Choice, p: Path, failFast: bool): Choice {
    if !Statable(env, p) then c.(errors := c.errors + 1, failed := failFast)
    else
      var (t', v) := Offer(c.tracker, env.tree[p].bytes);
      match v
      case Take => c.(files := c.files + [p], tracker := t')
      case TooLarge => c.(tracker := t')
      case OutOfBudget => c.(stopped := true, tracker := t')
  }

  /** Stat each file, drop the over-large ones, accept the rest while the budget lasts. */
  function ChooseAll(env: Env, c: Choice, paths: seq<Path>, failFast: bool): Choice
    decreases |paths|
  {
    if paths == [] || c.Over() then c else ChooseAll(env, Choose(env, c, paths[0], failFast), paths[1..], failFast)
  }

  method AcceptFiles(tracker: BuildBudgetTracker, env: Env, paths: seq<Path>, failFast: bool) returns (c: Choice)
    modifies tracker, tracker.manager
    ensures c == ChooseAll(env, Choice([], 0, false, false, old(tracker.View())), paths, failFast)
    ensures tracker.View() == c.tracker
  {
    c := Choice([], 0, false, false, tracker.View());
    ghost var start := c;
    assert paths[0..] == paths;
    var i := 0;
    while i < |paths| && !c.Over()
      invariant 0 <= i <= |paths| && tracker.View() == c.tracker
      invariant ChooseAll(env, c, paths[i..], failFast) == ChooseAll(env, start, paths, failFast)
    {
      DropCons(paths, i);
      c := ChooseNext(tracker, env, c, paths[i], failFast);
      i := i + 1;
    }
  }

  method ChooseNext(tracker: BuildBudgetTracker, env: Env, c: Choice, p: Path, failFast: bool) returns (next: Choice)
    requires tracker.View() == c.tracker
    modifies tracker, tracker.manager
    ensures next == Choose(env, c, p, failFast) && tracker.View() == next.tracker
  {
    if !Statable(env, p) {
      return c.(errors := c.errors + 1, failed := failFast);
    }
    var v := OfferBytes(tracker, env.tree[p].bytes);
    next := c.(tracker := tracker.View());
    match v
    case Take => next := next.(files := c.files + [p]);
    case TooLarge =>
    case OutOfBudget => next := next.(stopped := true);
  }

  /** What choosing keeps; it passes over a file only with an error or a report. */
  ghost predicate Choosing(env: Env, t: TrackerState, seen: seq<Path>, c: Choice) {
    && Consistent(c.tracker) && t.reports <= c.tracker.reports && c.tracker.limits == t.limits
    && (HasBlocked(c.tracker) ==> HasBlocked(t))
    && (forall p :: p in c.files ==> p in seen && Statable(env, p))
    && (c.tracker.reports == [] && c.errors == 0 ==> !c.Over() && forall p :: p in seen ==> p in c.files)
    && (c.errors > 0 ==> exists p :: p in seen && !Statable(env, p))
    && (c.failed ==> c.errors > 0)
  }

  lemma ChooseIsSound(env: Env, t: TrackerState, seen: seq<Path>, c: Choice, p: Path, failFast: bool)
    requires Choosing(env, t, seen, c) && !c.Over()
    ensures Choosing(env, t, seen + [p], Choose(env, c, p, failFast))
  {
    if Statable(env, p) { OfferIsSound(c.tracker, env.tree[p].bytes); }
    assert p in seen + [p];
  }

  lemma {:induction false} ChooseAllIsSound(env: Env, t: TrackerState, seen: seq<Path>, c: Choice, paths: seq<Path>,
      failFast: bool)
    requires Choosing(env, t, seen, c)
    ensures Choosing(env, t, seen + paths, ChooseAll(env, c, paths, failFast))
    decreases |paths|
  {
    if paths == [] {
      assert seen + paths == seen;
    } else if !c.Over() {
      ChooseIsSound(env, t, seen, c, paths[0], failFast);
      ChooseAllIsSound(env, t, seen + [paths[0]], Choose(env, c, paths[0], failFast), paths[1..], failFast);
      assert seen + [paths[0]] + paths[1..] == seen + paths;
    }
  }

  // ---------------------------------------------------------------- parsing

  function FirstBatch(files: seq<Path>, batchSize: nat): (k: nat)
    ensures k <= |files| && (files != [] && batchSize > 0 ==> k > 0)
  {
    if batchSize < |files| then batchSize else |files|
  }

  /** Batch by batch, checking the clock of this phase before each; a time stop ends the phase. */
  function ParseInBatches(env: Env, b: Batch, files: seq<Path>, opts: Options, clock: Clock, phase: nat, round: nat,
      halt: bool): Batch
    requires opts.batchSize > 0
    decreases |files|
  {
    if files == [] || b.Over() then b
    else
      var (t, d) := OnTime(b.tracker, clock(phase, round));
      if d.Degraded? then b.(tracker := t)
      else
        var k := FirstBatch(files, opts.batchSize);
        ParseInBatches(env, ParseFiles(env, b, files[..k], opts.failFast, halt), files[k..], opts, clock, phase,
          round + 1, halt)
  }

  lemma StopIsSound(env: Env, t: TrackerState, seen: seq<Path>, more: seq<Path>, b: Batch, t': TrackerState, halt: bool)
    requires Parsing(env, t, seen, halt, b)
    requires Consistent(t') && b.tracker.reports <= t'.reports && t'.limits == b.tracker.limits && t'.reports != []
    requires HasBlocked(t') ==> HasBlocked(b.tracker)
    ensures Parsing(env, t, seen + more, halt, b.(tracker := t'))
  {}

  lemma {:induction false} BatchesAreSound(env: Env, t: TrackerState, seen: seq<Path>, b: Batch, files: seq<Path>,
      opts: Options, clock: Clock, phase: nat, round: nat, halt: bool)
    requires opts.batchSize > 0 && Parsing(env, t, seen, halt, b)
    ensures Parsing(env, t, seen + files, halt, ParseInBatches(env, b, files, opts, clock, phase, round, halt))
    decreases |files|
  {
    if files == [] || b.Over() {
      MoreSeen(env, t, seen, files, halt, b);
    } else {
      var (t', d) := OnTime(b.tracker, clock(phase, round));
      TimeIsSound(b.tracker, clock(phase, round));
      if d.Degraded? {
        StopIsSound(env, t, seen, files, b, t', halt);
      } else {
        var k := FirstBatch(files, opts.batchSize);
        ParseFilesIsSound(env, t, seen, b, files[..k], opts.failFast, halt);
        BatchesAreSound(env, t, seen + files[..k], ParseFiles(env, b, files[..k], opts.failFast, halt), files[k..],
          opts, clock, phase, round + 1, halt);
        assert seen + files[..k] + files[k..] == seen + files;
      }
    }
  }

  /** Parse accepted files batch by batch; nothing is written until every phase has parsed. */
  method ParseBatches(tracker: BuildBudgetTracker, env: Env, start: Batch, files: seq<Path>, opts: Options,
      clock: Clock, phase: nat, halt: bool)
    returns (b: Batch)
    requires opts.batchSize > 0 && tracker.View() == start.tracker
    modifies tracker, tracker.manager
    ensures b == ParseInBatches(env, start, files, opts, clock, phase, 0, halt) && tracker.View() == b.tracker
  {
    b := start;
    var next, round := 0, 0;
    assert files[0..] == files;
    while next < |files| && !b.Over()
      invariant 0 <= next <= |files| && tracker.View() == b.tracker
      invariant ParseInBatches(env, b, files[next..], opts, clock, phase, round, halt) ==
                ParseInBatches(env, start, files, opts, clock, phase, 0, halt)
      decreases |files| - next
    {
      var d := tracker.MaybeStopForTime(clock(phase, round));
      if d.Degraded? {
        return b.(tracker := tracker.View());
      }
      var end := next + FirstBatch(files[next..], opts.batchSize);
      assert files[next..][..end - next] == files[next..end] && files[next..][end - next..] == files[end..];
      b := ParseBatch(tracker, env, b, files[next..end], opts.failFast, halt);
      next, round := end, round + 1;
    }
  }

  function Supported(env: Env, paths: seq<Path>): seq<Path> {
    Filter((p: Path) => env.supports(p), paths)
  }

  function Unsupported(env: Env, paths: seq<Path>): seq<Path> {
    Filter((p: Path) => !env.supports(p), paths)
  }

  /** One parse phase: set unsupported paths aside, choose files within the budget, then parse them. */
  function Phase(env: Env, t: TrackerState, paths: seq<Path>, opts: Options, clock: Clock, phase: nat, attempted: nat,
      halt: bool): Batch
    requires opts.batchSize > 0
  {
    var c := ChooseAll(env, Choice([], 0, false, false, t), Supported(env, paths), opts.failFast);
    var b := if c.failed then NoFiles(c.tracker, attempted).(failed := true)
             else ParseInBatches(env, NoFiles(c.tracker, attempted), c.files, opts, clock, phase, 0, halt);
    b.(unsupported := |Unsupported(env, paths)| + b.unsupported, errors := c.errors + b.errors,
       blocked := b.blocked || halt)
  }

  method ParsePhase(tracker: BuildBudgetTracker, env: Env, paths: seq<Path>, opts: Options, clock: Clock, phase: nat,
                    attempted: nat, halt: bool)
    returns (b: Batch)
    requires opts.batchSize > 0
    modifies tracker, tracker.manager
    ensures b == Phase(env, old(tracker.View()), paths, opts, clock, phase, attempted, halt)
            && tracker.View() == b.tracker
  {
    var unsupported := |Unsupported(env, paths)|;
    var c := AcceptFiles(tracker, env, Supported(env, paths), opts.failFast);
    if c.failed {
      b := NoFiles(c.tracker, attempted).(failed := true);
    } else {
      b := ParseBatches(tracker, env, NoFiles(c.tracker, attempted), c.files, opts, clock, phase, halt);
    }
    b := b.(unsupported := unsupported + b.unsupported, errors := c.errors + b.errors, blocked := b.blocked || halt);
  }

  /**
   What a phase keeps; a supported file is missed only with an error or a report, an error only by a file out of
   reach.
   */
  ghost predicate Phased(env: Env, t: TrackerState, paths: seq<Path>, halt: bool, b: Batch) {
    && Consistent(b.tracker) && t.reports <= b.tracker.reports
    && (forall p :: p in b.parsed ==> p in paths && Accessible(env, p) && env.supports(p))
    && (b.failed ==> b.errors > 0)
    && (b.errors == 0 && !halt ==> !b.blocked)
    && (b.errors == 0 ==> HasBlocked(b.tracker) ==> HasBlocked(t))
    && (b.tracker.reports == [] && b.errors == 0 && !halt ==>
          forall p :: p in paths && env.supports(p) ==> p in b.parsed)
    && (b.errors > 0 ==> exists p :: p in paths && env.supports(p) && !Accessible(env, p))
  }

  lemma NothingChosen(env: Env, t: TrackerState)
    requires Consistent(t)
    ensures Choosing(env, t, [], Choice([], 0, false, false, t))
  {}

  lemma ChosenThenParsed(env: Env, t: TrackerState, paths: seq<Path>, c: Choice, b: Batch, halt: bool, unsupported: nat)
    requires Choosing(env, t, Supported(env, paths), c) && !c.failed && Parsing(env, c.tracker, c.files, halt, b)
    ensures Phased(env, t, paths, halt,
                   b.(unsupported := unsupported + b.unsupported, errors := c.errors + b.errors,
                      blocked := b.blocked || halt))
  {}

  lemma ChoosingFailed(env: Env, t: TrackerState, paths: seq<Path>, c: Choice, b: Batch, halt: bool)
    requires Choosing(env, t, Supported(env, paths), c) && c.failed
    requires b.parsed == [] && b.errors == c.errors && b.tracker == c.tracker && b.blocked == halt
    ensures Phased(env, t, paths, halt, b)
  {}

  lemma PhaseIsSound(env: Env, t: TrackerState, paths: seq<Path>, opts: Options, clock: Clock, phase: nat,
      attempted: nat, halt: bool)
    requires opts.batchSize > 0 && Consistent(t)
    ensures Phased(env, t, paths, halt, Phase(env, t, paths, opts, clock, phase, attempted, halt))
  {
    var supported := Supported(env, paths);
    var c := ChooseAll(env, Choice([], 0, false, false, t), supported, opts.failFast);
    NothingChosen(env, t);
    ChooseAllIsSound(env, t, [], Choice([], 0, false, false, t), supported, opts.failFast);
    assert [] + supported == supported;
    if c.failed {
      ChoosingFailed(env, t, paths, c, Phase(env, t, paths, opts, clock, phase, attempted, halt), halt);
    } else {
      NothingParsed(env, c.tracker, attempted, halt);
      BatchesAreSound(env, c.tracker, [], NoFiles(c.tracker, attempted), c.files, opts, clock, phase, 0, halt);
      assert [] + c.files == c.files;
      ChosenThenParsed(env, t, paths, c,
        ParseInBatches(env, NoFiles(c.tracker, attempted), c.files, opts, clock, phase, 0, halt),
                       halt, |Unsupported(env, paths)|);
    }
  }

  /** Phase 1 parses the planned files; phase 2 their dependents in the table, minus the planned files. */
  function BothPhases(env: Env, t: TrackerState, plan: Plan, rows: Rows, opts: Options, clock: Clock): (Batch, Batch)
    requires opts.batchSize > 0
  {
    var first := Phase(env, t, plan.parses, opts, clock, 1, 0, false);
    if first.failed then (first, NoFiles(first.tracker, first.attempted))
    else (first, Phase(env, first.tracker, Without(opts.dependents(rows), ToSet(plan.parses)), opts, clock, 2,
      first.attempted, first.blocked))
  }

  method ParseChangedThenDependents(tracker: BuildBudgetTracker, env: Env, plan: Plan, rows: Rows, opts: Options,
      clock: Clock)
    returns (first: Batch, second: Batch)
    requires opts.batchSize > 0
    modifies tracker, tracker.manager
    ensures (first, second) == BothPhases(env, old(tracker.View()), plan, rows, opts, clock)
            && tracker.View() == second.tracker
  {
    first := ParsePhase(tracker, env, plan.parses, opts, clock, 1, 0, false);
    if first.failed {
      second := NoFiles(first.tracker, first.attempted);
      return;
    }
    var dependents := Without(opts.dependents(rows), ToSet(plan.parses));
    second := ParsePhase(tracker, env, dependents, opts, clock, 2, first.attempted, first.blocked);
  }

  function Without(xs: seq<Path>, drop: set<Path>): (ys: seq<Path>)
    ensures forall p :: p in ys <==> p in xs && p !in drop
  {
    if xs == [] then [] else
    (if xs[0] in drop then [] else [xs[0]]) + Without(xs[1..], drop)
  }

  /** Failed chunk writes among the batches of `left` files, from batch `round` on. */
  function ChunkFailures(left: nat, batchSize: nat, round: nat, fails: nat -> bool): nat
    requires batchSize > 0
    decreases left
  {
    if left == 0 then 0
    else (if fails(round) then 1 else 0)
         + ChunkFailures(if batchSize < left then left - batchSize else 0, batchSize, round + 1, fails)
  }

  function Upto(from: nat, n: nat): seq<nat>
    decreases n
  {
    if n == 0 then [] else [from] + Upto(from + 1, n - 1)
  }

  /** One batch fewer for one batch of files fewer. */
  lemma BatchesLeft(left: nat, batchSize: nat, n: nat)
    requires batchSize > 0 && left <= n * batchSize < left + batchSize
    ensures n == 0 <==> left == 0
    ensures left > 0 ==> var rest := if batchSize < left then left - batchSize else 0;
                         rest <= (n - 1) * batchSize < rest + batchSize
  {
    if n == 0 {
      assert n * batchSize == 0;
    } else {
      ProductGrows(1, n, batchSize);
      assert (n - 1) * batchSize == n * batchSize - batchSize;
      if n >= 2 { ProductGrows(2, n, batchSize); }
    }
  }

  /** The failed chunk writes are those of the batches there are: as many as it takes for `left` files. */
  lemma {:induction false} ChunkFailuresCount(left: nat, batchSize: nat, round: nat, fails: nat -> bool, n: nat)
    requires batchSize > 0 && left <= n * batchSize < left + batchSize
    ensures ChunkFailures(left, batchSize, round, fails) == |Filter(fails, Upto(round, n))|
    decreases left
  {
    BatchesLeft(left, batchSize, n);
    if left > 0 {
      ChunkFailuresCount(if batchSize < left then left - batchSize else 0, batchSize, round + 1, fails, n - 1);
    }
  }

  lemma NothingWritten(env: Env, rows: Rows, all: seq<Path>)
    ensures Written(env, rows, ToSet(all[..0])) == rows && all[..|all|] == all
  {}

  /** Write the files from `next` to `end` after those before. */
  method WriteNext(store: Store, env: Env, all: seq<Path>, next: nat, end: nat, ghost base: Rows)
    requires next <= end <= |all| && ToSet(all) <= env.tree.Keys
    requires store.rows == Written(env, base, ToSet(all[..next]))
    modifies store`rows
    ensures store.rows == Written(env, base, ToSet(all[..end]))
  {
    WriteBatch(store, env, all[next..end]);
    WrittenTwice(env, base, ToSet(all[..next]), ToSet(all[next..end]));
    assert all[..end] == all[..next] + all[next..end];
    assert ToSet(all[..end]) == ToSet(all[..next]) + ToSet(all[next..end]);
  }

  method WriteAll(store: Store, env: Env, all: seq<Path>, batchSize: nat, chunkFails: nat -> bool)
      returns (chunkFailures: nat)
    requires batchSize > 0 && ToSet(all) <= env.tree.Keys
    modifies store`rows
    ensures store.rows == Written(env, old(store.rows), ToSet(all))
    ensures chunkFailures == ChunkFailures(|all|, batchSize, 0, chunkFails)
  {
    chunkFailures := 0;
    var next, round := 0, 0;
    NothingWritten(env, store.rows, all);
    while next < |all|
      invariant 0 <= next <= |all|
      invariant store.rows == Written(env, old(store.rows), ToSet(all[..next]))
      invariant chunkFailures + ChunkFailures(|all| - next, batchSize, round, chunkFails) ==
                ChunkFailures(|all|, batchSize, 0, chunkFails)
    {
      var end := if next + batchSize < |all| then next + batchSize else |all|;
      WriteNext(store, env, all, next, end, old(store.rows));
      if chunkFails(round) {
        chunkFailures := chunkFailures + 1;
      }
      next, round := end, round + 1;
    }
  }

  method Persist(store: Store, env: Env, all: seq<Path>, opts: Options, faults: Faults)
    returns (chunkFailures: nat, reconcileFailures: nat)
    requires opts.batchSize > 0 && ToSet(all) <= env.tree.Keys
    modifies store`rows
    ensures store.rows == if opts.dryRun then old(store.rows)
                          else Refreshed(env, Written(env, old(store.rows), ToSet(all)))
    ensures chunkFailures == if opts.dryRun then 0 else ChunkFailures(|all|, opts.batchSize, 0, faults.chunkFails)
    ensures reconcileFailures == if all != [] && !opts.dryRun && faults.reconcileFails then 1 else 0
  {
    chunkFailures, reconcileFailures := 0, 0;
    if !opts.dryRun {
      chunkFailures := WriteAll(store, env, all, opts.batchSize, faults.chunkFails);
      RefreshOwnerGraphs(store, env);
      reconcileFailures := if all != [] && faults.reconcileFails then 1 else 0;
    }
  }

  // ---------------------------------------------------------------- a whole run

  /** How far a run got: changes classified, the plan of those, and both parse phases. */
  datatype RunRecord = RunRecord(reached: nat, plan: Plan, first: Batch, second: Batch)
  {
    predicate Failed() {
      first.failed || second.failed
    }

    function Parsed(): set<Path> {
      ToSet(first.parsed) + ToSet(second.parsed)
    }

    function Errors(): nat {
      first.errors + second.errors
    }
  }

  function Record(env: Env, rows: Rows, changes: seq<Change>, opts: Options, clock: Clock): (r: RunRecord)
    requires opts.batchSize > 0
  {
    var (t, n) := InTime(Discovered(opts.limits, |changes|), 0, |changes|, clock);
    var plan := Classify(env, rows, changes[..n]);
    var (first, second) := BothPhases(env, t, plan, MovedTable(env, rows, plan, opts.dryRun), opts, clock);
    RunRecord(n, plan, first, second)
  }

  function Discovered(limits: Limits, n: nat): TrackerState {
    Step(Start(limits), SetDiscovered(n)).0
  }

  /** The run stopped after `n` changes and parsed the files `parsed`. */
  ghost predicate Ran(env: Env, changes: seq<Change>, before: Rows, after: Rows, n: nat, parsed: set<Path>) {
    && n <= |changes| && parsed <= env.tree.Keys
    && var plan := Classify(env, before, changes[..n]);
    && Parsable(env, before, plan, parsed)
    && after == Updated(env, before, plan, parsed)
  }

  /** A run that classified every change and parsed every supported planned file. */
  ghost predicate Complete(env: Env, changes: seq<Change>, before: Rows, n: nat, parsed: set<Path>) {
    && n == |changes|
    && forall p :: p in Classify(env, before, changes).parses && env.supports(p) ==> p in parsed
  }

  // ---------------------------------------------------------------- what a run has reached

  lemma {:induction false} PrefixPlansLess(env: Env, rows: Rows, changes: seq<Change>, n: nat, p: Path)
    requires n <= |changes| && p in Classify(env, rows, changes[..n]).parses
    ensures p in Classify(env, rows, changes).parses
    decreases |changes|
  {
    if n < |changes| {
      var init := changes[..|changes| - 1];
      assert init[..n] == changes[..n];
      PrefixPlansLess(env, rows, init, n, p);
    } else {
      assert changes[..n] == changes;
    }
  }

  /** Every supported planned file can be statted, hashed and read. */
  ghost predicate PlannedAccessible(env: Env, rows: Rows, changes: seq<Change>) {
    forall p :: p in Classify(env, rows, changes).parses && env.supports(p) ==> Accessible(env, p)
  }

  /** So can every supported dependent that the table has after the moves. */
  ghost predicate DependentsAccessible(env: Env, dependents: Rows -> seq<Path>, moved: Rows) {
    forall p :: p in dependents(moved) && env.supports(p) ==> Accessible(env, p)
  }

  /** The table whose dependents a run looks up. */
  function MovedTable(env: Env, rows: Rows, plan: Plan, dryRun: bool): Rows {
    if dryRun then rows else AfterMoves(env, rows, plan)
  }

  /** The dependents a clean run reparses, told before it. */
  function DependentsOf(env: Env, rows: Rows, changes: seq<Change>, opts: Options): set<Path> {
    ToSet(Supported(env, opts.dependents(MovedTable(env, rows, Classify(env, rows, changes), opts.dryRun))))
  }

  /** Both phases together, from a tracker without reports. */
  ghost predicate Recorded(env: Env, t: TrackerState, plan: Plan, rows: Rows, dependents: Rows -> seq<Path>,
      first: Batch, second: Batch)
  {
    && Consistent(second.tracker) && t.reports <= second.tracker.reports
    && (forall p :: p in ToSet(first.parsed) + ToSet(second.parsed) ==>
          Accessible(env, p) && env.supports(p) && (p in plan.parses || p in dependents(rows)))
    && (second.tracker.reports == [] && first.errors == 0 ==>
          forall p :: p in plan.parses && env.supports(p) ==> p in first.parsed)
    && (second.tracker.reports == [] && first.errors + second.errors == 0 ==>
          forall p :: p in dependents(rows) && env.supports(p) ==> p in first.parsed || p in second.parsed)
    && (first.errors > 0 ==> exists p :: p in plan.parses && env.supports(p) && !Accessible(env, p))
    && (second.errors > 0 ==> exists p :: p in dependents(rows) && env.supports(p) && !Accessible(env, p))
    && (first.errors + second.errors == 0 && HasBlocked(second.tracker) ==> HasBlocked(t))
  }

  lemma PhasesAreSound(env: Env, t: TrackerState, plan: Plan, rows: Rows, opts: Options, clock: Clock)
    requires opts.batchSize > 0 && Consistent(t)
    ensures var (first, second) := BothPhases(env, t, plan, rows, opts, clock);
            Recorded(env, t, plan, rows, opts.dependents, first, second)
  {
    var first := Phase(env, t, plan.parses, opts, clock, 1, 0, false);
    PhaseIsSound(env, t, plan.parses, opts, clock, 1, 0, false);
    if !first.failed {
      var dependents := Without(opts.dependents(rows), ToSet(plan.parses));
      var second := Phase(env, first.tracker, dependents, opts, clock, 2, first.attempted, first.blocked);
      PhaseIsSound(env, first.tracker, dependents, opts, clock, 2, first.attempted, first.blocked);
      Combine(env, t, plan, rows, opts.dependents, first, second, dependents);
    }
  }

  lemma Combine(env: Env, t: TrackerState, plan: Plan, rows: Rows, dependents: Rows -> seq<Path>, first: Batch,
      second: Batch, others: seq<Path>)
    requires Phased(env, t, plan.parses, false, first) && Phased(env, first.tracker, others, first.blocked, second)
    requires forall p :: p in others <==> p in dependents(rows) && p !in plan.parses
    ensures Recorded(env, t, plan, rows, dependents, first, second)
  {}

  /** What a run has reached, told from its record. */
  lemma RecordIsSound(env: Env, rows: Rows, changes: seq<Change>, opts: Options, clock: Clock)
    requires opts.batchSize > 0
    ensures var r := Record(env, rows, changes, opts, clock);
            && r.reached <= |changes| && r.plan == Classify(env, rows, changes[..r.reached])
            && Recorded(env, Start(opts.limits), r.plan, MovedTable(env, rows, r.plan, opts.dryRun), opts.dependents,
                        r.first, r.second)
            && (r.second.tracker.reports == [] ==> r.reached == |changes|)
  {
    var start := Discovered(opts.limits, |changes|);
    var (t, n) := InTime(start, 0, |changes|, clock);
    InTimeIsSound(start, 0, |changes|, clock);
    var plan := Classify(env, rows, changes[..n]);
    PhasesAreSound(env, t, plan, MovedTable(env, rows, plan, opts.dryRun), opts, clock);
  }

  /**
   A run without reports or errors reached every change and parsed exactly the supported planned files and
   dependents.
   */
  lemma CleanIsComplete(env: Env, rows: Rows, changes: seq<Change>, opts: Options, clock: Clock)
    requires opts.batchSize > 0
    ensures var r := Record(env, rows, changes, opts, clock);
            r.second.tracker.reports == [] && r.Errors() == 0 ==>
              Complete(env, changes, rows, r.reached, r.Parsed()) && IsExact(env, rows, changes, opts, r.Parsed())
  {
    RecordIsSound(env, rows, changes, opts, clock);
    assert changes[..|changes|] == changes;
  }

  /** The supported planned files and dependents, no more and no fewer. */
  ghost predicate IsExact(env: Env, rows: Rows, changes: seq<Change>, opts: Options, parsed: set<Path>) {
    forall p :: p in parsed <==>
                  (p in Classify(env, rows, changes).parses && env.supports(p))
                    || p in DependentsOf(env, rows, changes, opts)
  }

  /**
   The synced ref moves whenever the summary is not partial. If the dependents it looks up can be read, a run that is
   not partial was complete IF AND ONLY IF every supported planned file can be statted, hashed and read.
   */
  lemma UnflaggedRunIsCompleteIff(env: Env, rows: Rows, changes: seq<Change>, opts: Options, clock: Clock,
      report: Report)
    requires opts.batchSize > 0
    requires var r := Record(env, rows, changes, opts, clock);
             DependentsAccessible(env, opts.dependents, MovedTable(env, rows, r.plan, opts.dryRun))
    requires IsSummary(Record(env, rows, changes, opts, clock).second.tracker, report) && !report.partial
    ensures var r := Record(env, rows, changes, opts, clock);
            Complete(env, changes, rows, r.reached, r.Parsed()) <==> PlannedAccessible(env, rows, changes)
  {
    var r := Record(env, rows, changes, opts, clock);
    RecordIsSound(env, rows, changes, opts, clock);
    if PlannedAccessible(env, rows, changes) {
      forall p | p in r.plan.parses && env.supports(p) ensures Accessible(env, p) {
        PrefixPlansLess(env, rows, changes, r.reached, p);
      }
      assert r.Errors() == 0;
      SummaryClassifies(r.second.tracker, report);
      CleanIsComplete(env, rows, changes, opts, clock);
    }
  }

  /** Whatever moves the ref, a planned file out of reach is not parsed. */
  lemma OutOfReachIsMissed(env: Env, rows: Rows, changes: seq<Change>, opts: Options, clock: Clock, p: Path)
    requires opts.batchSize > 0 && p in Classify(env, rows, changes).parses && env.supports(p) && !Accessible(env, p)
    ensures var r := Record(env, rows, changes, opts, clock);
            p !in r.Parsed() && !Complete(env, changes, rows, r.reached, r.Parsed())
  {
    RecordIsSound(env, rows, changes, opts, clock);
  }

  // ---------------------------------------------------------------- the code

  /** The summary of a run, from its record, the number of slices deleted and the failures of collaborators. */
  ghost predicate IsSummaryOf(s: Summary, r: RunRecord, deleted: nat, opts: Options, faults: Faults)
    requires opts.batchSize > 0
  {
    && s.chunkUpsertFailures == (if opts.dryRun then 0
       else ChunkFailures(s.parsed, opts.batchSize, 0, faults.chunkFails))
    && s.reconcileFailures == (if s.parsed > 0 && !opts.dryRun && faults.reconcileFails then 1 else 0)
    && s.deleted == deleted && s.renamed == |r.plan.renames| && s.parsed == |r.first.parsed| + |r.second.parsed|
    && s.skippedUnsupported == r.first.unsupported + r.second.unsupported && s.parseErrors == r.Errors()
    && s.counters == r.second.tracker.counters && IsSummary(r.second.tracker, s.budget)
  }

  /**
   An update run is its record: how far it got, what it parsed, what it reports. The table it leaves is the old one
   with stable renames moved, deletions applied, and the parsed files written; an aborted run leaves the moves. A clean
   run was complete. The ref moves unless the summary is degraded, and then the run was complete exactly when every
   supported planned file can be read (dependents that cannot may block the run and so hide that time ran out).
   */
  method Update(store: Store, env: Env, changes: seq<Change>, opts: Options, faults: Faults)
    returns (result: Result<Summary>, run: RunRecord)
    requires opts.batchSize > 0 && DependentsAreIndexed(opts.dependents, env.repo)
    modifies store
    ensures run == Record(env, old(store.rows), changes, opts, faults.clock) && (result.Err? <==> run.Failed())
    ensures result.Ok? ==>
            IsSummaryOf(result.value, run, Deletions(env, old(store.rows), run.plan, opts.dryRun), opts, faults)
    ensures opts.dryRun ==> store.rows == old(store.rows) && store.refs == old(store.refs)
    ensures !opts.dryRun && result.Err? ==>
              run.reached <= |changes| && store.refs == old(store.refs) &&
              store.rows == AfterMoves(env, old(store.rows), Classify(env, old(store.rows), changes[..run.reached]))
    ensures !opts.dryRun && result.Ok? ==>
              && Ran(env, changes, old(store.rows), store.rows, run.reached, run.Parsed())
              && (result.value.IsClean() ==>
                    && Complete(env, changes, old(store.rows), run.reached, run.Parsed())
                    && IsExact(env, old(store.rows), changes, opts, run.Parsed()))
              && store.refs == (if !result.value.budget.partial && result.value.chunkUpsertFailures == 0
                                   && result.value.reconcileFailures == 0 && env.head.Some?
                                then old(store.refs)[env.repo := env.head.value] else old(store.refs))
              && (!result.value.IsDegraded() &&
                  DependentsAccessible(env, opts.dependents, AfterMoves(env, old(store.rows), run.plan)) ==>
                    (Complete(env, changes, old(store.rows), run.reached, run.Parsed()) <==>
                     PlannedAccessible(env, old(store.rows), changes)))
  {
    result, run := RunPhases(store, env, changes, opts, faults);
    if result.Ok? && !opts.dryRun && !result.value.IsDegraded() &&
       DependentsAccessible(env, opts.dependents, AfterMoves(env, old(store.rows), run.plan))
    {
      UnflaggedRunIsCompleteIff(env, old(store.rows), changes, opts, faults.clock, result.value.budget);
    }
    if result.Ok? && !opts.dryRun && !result.value.IsDegraded() && env.head.Some? {
      store.refs := store.refs[env.repo := env.head.value];
    }
  }

  method RunPhases(store: Store, env: Env, changes: seq<Change>, opts: Options, faults: Faults)
    returns (result: Result<Summary>, run: RunRecord)
    requires opts.batchSize > 0 && DependentsAreIndexed(opts.dependents, env.repo)
    modifies store`rows
    ensures run == Record(env, old(store.rows), changes, opts, faults.clock) && (result.Err? <==> run.Failed())
    ensures result.Ok? ==>
            IsSummaryOf(result.value, run, Deletions(env, old(store.rows), run.plan, opts.dryRun), opts, faults)
    ensures opts.dryRun ==> store.rows == old(store.rows)
    ensures !opts.dryRun && result.Err? ==>
              run.reached <= |changes| &&
              store.rows == AfterMoves(env, old(store.rows), Classify(env, old(store.rows), changes[..run.reached]))
    ensures !opts.dryRun && result.Ok? ==>
              && Ran(env, changes, old(store.rows), store.rows, run.reached, run.Parsed())
              && (result.value.IsClean() ==>
                    && Complete(env, changes, old(store.rows), run.reached, run.Parsed())
                    && IsExact(env, old(store.rows), changes, opts, run.Parsed()))
  {
    var tracker := new BuildBudgetTracker(opts.limits);
    var deleted;
    run, deleted := MoveAndParse(store, tracker, env, changes, opts, faults.clock);
    RecordIsSound(env, old(store.rows), changes, opts, faults.clock);
    if run.Failed() {
      return Err("fail-fast"), run;
    }
    CleanIsComplete(env, old(store.rows), changes, opts, faults.clock);
    var summary := WriteAndReport(store, tracker, env, run, deleted, opts, faults);
    result := Ok(summary);
  }

  /** Everything after parsing: write, refresh, resolve calls, report. */
  method WriteAndReport(store: Store, tracker: BuildBudgetTracker, env: Env, run: RunRecord, deleted: nat,
      opts: Options, faults: Faults)
    returns (summary: Summary)
    requires opts.batchSize > 0 && tracker.View() == run.second.tracker && Consistent(tracker.View())
    requires run.Parsed() <= env.tree.Keys
    modifies store`rows
    ensures IsSummaryOf(summary, run, deleted, opts, faults)
    ensures summary.IsClean() ==> run.second.tracker.reports == [] && run.Errors() == 0
    ensures store.rows == if opts.dryRun then old(store.rows)
            else Refreshed(env, Written(env, old(store.rows), run.Parsed()))
  {
    var all := run.first.parsed + run.second.parsed;
    assert ToSet(all) == run.Parsed();
    var chunkFailures, reconcileFailures := Persist(store, env, all, opts, faults);
    var counters, report := tracker.Finish();
    SummaryClassifies(tracker.View(), report);
    summary := Summary(deleted, |run.plan.renames|, |all|, run.first.unsupported + run.second.unsupported, run.Errors(),
                       chunkFailures, reconcileFailures, counters, report);
  }

  /** Everything before writing: classify, move, delete, parse. */
  method MoveAndParse(store: Store, tracker: BuildBudgetTracker, env: Env, changes: seq<Change>, opts: Options,
      clock: Clock)
    returns (run: RunRecord, deleted: nat)
    requires opts.batchSize > 0 && tracker.View() == Start(opts.limits)
    modifies store`rows, tracker, tracker.manager
    ensures run == Record(env, old(store.rows), changes, opts, clock) && tracker.View() == run.second.tracker
    ensures deleted == Deletions(env, old(store.rows), run.plan, opts.dryRun)
    ensures store.rows == if opts.dryRun then old(store.rows) else AfterMoves(env, old(store.rows), run.plan)
  {
    tracker.SetFilesDiscovered(|changes|);
    var plan, n := ClassifyChanges(store, tracker, env, changes, clock);
    deleted := Move(store, env, plan, opts.dryRun);
    var first, second := ParseChangedThenDependents(tracker, env, plan, store.rows, opts, clock);
    run := RunRecord(n, plan, first, second);
  }

  /** Stable renames first, then deletions; a dry run only counts what it would delete. */
  method Move(store: Store, env: Env, plan: Plan, dryRun: bool) returns (deleted: nat)
    modifies store`rows
    ensures deleted == Deletions(env, old(store.rows), plan, dryRun)
    ensures store.rows == if dryRun then old(store.rows) else AfterMoves(env, old(store.rows), plan)
  {
    if dryRun {
      var existing := store.ExistingFileGraphDeletions(env.repo, plan.deletes);
      deleted := |existing|;
    } else {
      ApplyRenames(store, env, plan.renames);
      deleted := store.DeleteExistingFileGraphs(env.repo, plan.deletes);
    }
  }
}
