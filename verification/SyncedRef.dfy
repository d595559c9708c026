/**
 When the synced ref says more than the table: a run that skipped a file it could not read still moves the ref
 (packages/atlas-engine/src/update.rs, end of `update_graph`), and no later diff names the file again.
 */
module SyncedRef {
  import opened Wrappers
  import opened Collections
  import opened Budget
  import opened BuildBudget
  import opened GraphStore
  import opened Worktree
  import opened UpdateGraph
  import opened IncrementalRefinement

  /** No limit is in reach, but the first parse failure blocks. */
  const STRICT: Limits := Limits(U64_MAX, U64_MAX, U64_MAX, 0, 10_000, U64_MAX)

  const ONE_BY_ONE: Options := Options(STRICT, 1, false, false, rows => [])

  const NO_FAULTS: Faults := Faults((phase, i) => 0, i => false, false)

  /** A checkout of one file, which can be listed and opened; whether it can be hashed is `hashOk`. */
  function OneFile(p: Path, h: Hash, bytes: u64, hashOk: bool, head: string): Env {
    PlainCheckout(map[]).(tree := map[p := WorkFile(h, bytes, true, false, true, hashOk, true)], head := Some(head))
  }

  lemma NoTimeStop(t: TrackerState, elapsedMs: u64)
    requires t.limits == STRICT
    ensures OnTime(t, elapsedMs) == (t, Continue)
  {}

  lemma EmptyPhase(env: Env, t: TrackerState, opts: Options, clock: Clock, phase: nat, attempted: nat, halt: bool)
    requires opts.batchSize > 0
    ensures Phase(env, t, [], opts, clock, phase, attempted, halt) == NoFiles(t, attempted).(blocked := halt)
  {
    assert Supported(env, []) == [] && Unsupported(env, []) == [];
  }

  lemma ChooseOne(env: Env, t: TrackerState, p: Path)
    requires Statable(env, p) && t.limits == STRICT && t.counters.filesAccepted < U64_MAX
    ensures var t' := OnAccept(t, env.tree[p].bytes).0;
            && ChooseAll(env, Choice([], 0, false, false, t), [p], false) == Choice([p], 0, false, false, t')
            && t'.reports == t.reports && t'.limits == t.limits && t'.counters.parseFailures == t.counters.parseFailures
  {
    var c := Choice([], 0, false, false, t);
    var next := Choose(env, c, p, false);
    assert [] + [p] == [p];
    assert [p][1..] == [];
    assert ChooseAll(env, next, [], false) == next;
  }

  /** The one file fails and blocks. */
  lemma ParseUnreadable(env: Env, t: TrackerState, p: Path, clock: Clock)
    requires !Readable(env, p) && t.limits == STRICT && t.reports == []
    ensures var b := ParseInBatches(env, NoFiles(t, 0), [p], ONE_BY_ONE, clock, 1, 0, false);
            && b.parsed == [] && b.errors == 1 && b.blocked && !b.failed
            && |b.tracker.reports| == 1 && b.tracker.reports[0].status.Blocked? && !b.tracker.reports[0].partial
  {
    NoTimeStop(t, clock(1, 0));
    var start := NoFiles(t, 0);
    var b := ParseOne(env, start, p, false, false);
    assert [p][..1] == [p] && [p][1..] == [];
    assert ParseFiles(env, start, [p], false, false) == b;
    assert ParseInBatches(env, b, [], ONE_BY_ONE, clock, 1, 1, false) == b;
  }

  lemma UnreadablePhase(env: Env, t: TrackerState, p: Path, clock: Clock)
    requires env.supports(p) && Statable(env, p) && !Readable(env, p)
    requires t.limits == STRICT && t.reports == [] && t.counters.filesAccepted == 0
    ensures var b := Phase(env, t, [p], ONE_BY_ONE, clock, 1, 0, false);
            && b.parsed == [] && b.errors == 1 && b.blocked && !b.failed
            && |b.tracker.reports| == 1 && b.tracker.reports[0].status.Blocked? && !b.tracker.reports[0].partial
  {
    FilterAll((q: Path) => env.supports(q), [p]);
    ChooseOne(env, t, p);
    ParseUnreadable(env, OnAccept(t, env.tree[p].bytes).0, p, clock);
  }

  /** Nothing was parsed, and the one report blocks. */
  ghost predicate BlockedRecord(env: Env, rows: Rows, changes: seq<Change>, opts: Options, clock: Clock) {
    opts.batchSize > 0 &&
    var r := Record(env, rows, changes, opts, clock);
    && !r.Failed() && r.first.parsed == [] && r.second.parsed == [] && r.Errors() == 1
    && |r.second.tracker.reports| == 1 && r.second.tracker.reports[0].status.Blocked?
    && !r.second.tracker.reports[0].partial
  }

  /** Nothing was parsed and nothing reported. */
  ghost predicate IdleRecorded(env: Env, rows: Rows, changes: seq<Change>, opts: Options, clock: Clock) {
    opts.batchSize > 0 &&
    var r := Record(env, rows, changes, opts, clock);
    !r.Failed() && r.first.parsed == [] && r.second.parsed == [] && r.Errors() == 0 && r.second.tracker.reports == []
  }

  /** The record of an update that finds one new file it cannot hash. */
  lemma UnreadableRecord(p: Path, h: Hash, bytes: u64, head: string)
    ensures BlockedRecord(OneFile(p, h, bytes, false, head), map[], [Change(p, Added, None)], ONE_BY_ONE,
            NO_FAULTS.clock)
  {
    var env, changes := OneFile(p, h, bytes, false, head), [Change(p, Added, None)];
    var start := Discovered(STRICT, 1);
    NoTimeStop(start, 0);
    assert InTime(start, 0, 1, NO_FAULTS.clock) == (start, 1);
    assert changes[..1] == changes && changes[..0] == [];
    assert Classify(env, map[], changes).parses == [p];
    UnreadablePhase(env, start, p, NO_FAULTS.clock);
    var first := Phase(env, start, [p], ONE_BY_ONE, NO_FAULTS.clock, 1, 0, false);
    EmptyPhase(env, first.tracker, ONE_BY_ONE, NO_FAULTS.clock, 2, first.attempted, first.blocked);
  }

  /** The record of an update over an empty diff. */
  lemma IdleRecord(env: Env, rows: Rows, opts: Options, clock: Clock)
    requires opts.batchSize > 0 && forall r: Rows :: opts.dependents(r) == []
    ensures IdleRecorded(env, rows, [], opts, clock)
  {
    var t := Discovered(opts.limits, 0);
    assert Classify(env, rows, [][..0]).parses == [];
    EmptyPhase(env, t, opts, clock, 1, 0, false);
    EmptyPhase(env, t, opts, clock, 2, 0, false);
  }

  /** A run over an empty diff adds nothing: what a table misses it goes on missing. */
  lemma EmptyDiffAddsNothing(env: Env, before: Rows, after: Rows, n: nat, parsed: set<Path>, p: Path)
    requires EnvOk(env) && !IsSynthetic(p) && Ran(env, [], before, after, n, parsed) && (env.repo, p) !in before
    ensures (env.repo, p) !in after
  {
    RanAt(env, [], before, after, n, parsed, p);
    AfterMovesAt(env, before, [], p);
  }

  /** A run over an empty diff that reparses nothing leaves the inventory as it is, whatever the checkout. */
  lemma EmptyDiffKeepsInventory(env: Env, before: Rows, after: Rows, n: nat)
    requires EnvOk(env) && Ran(env, [], before, after, n, {})
    ensures Inventory(after, env.repo) == Inventory(before, env.repo)
  {
    forall p
      ensures p in Inventory(after, env.repo) <==> p in Inventory(before, env.repo)
      ensures p in Inventory(after, env.repo) && p in Inventory(before, env.repo) ==>
                Inventory(after, env.repo)[p] == Inventory(before, env.repo)[p]
    {
      InventoryAt(before, env.repo, p);
      InventoryAt(after, env.repo, p);
      if !IsSynthetic(p) {
        RanAt(env, [], before, after, n, {}, p);
        AfterMovesAt(env, before, [], p);
      }
    }
  }

  lemma OneReportIsSummary(t: TrackerState, r: Report)
    requires |t.reports| == 1 && IsSummary(t, r)
    ensures r == t.reports[0]
  {}

  /** A run blocked before it parsed anything moves the ref. */
  method BlockedRun(store: Store, env: Env, changes: seq<Change>, opts: Options, faults: Faults)
    returns (result: Result<Summary>, ghost reached: nat)
    requires BlockedRecord(env, store.rows, changes, opts, faults.clock) && !opts.dryRun && env.head.Some?
    requires DependentsAreIndexed(opts.dependents, env.repo)
    modifies store
    ensures result.Ok? && result.value.budget.status.Blocked? && result.value.parseErrors == 1
    ensures store.refs == old(store.refs)[env.repo := env.head.value]
    ensures Ran(env, changes, old(store.rows), store.rows, reached, {})
  {
    var run;
    result, run := Update(store, env, changes, opts, faults);
    OneReportIsSummary(run.second.tracker, result.value.budget);
    reached := run.reached;
    assert run.Parsed() == {};
  }

  /** A run over an empty diff without dependents is clean, moves the ref and changes no file. */
  method IdleRun(store: Store, env: Env, opts: Options, faults: Faults) returns (result: Result<Summary>)
    requires opts.batchSize > 0 && !opts.dryRun && env.head.Some? && forall r: Rows :: opts.dependents(r) == []
    requires EnvOk(env)
    modifies store
    ensures result.Ok? && result.value.IsClean()
    ensures store.refs == old(store.refs)[env.repo := env.head.value]
    ensures Inventory(store.rows, env.repo) == Inventory(old(store.rows), env.repo)
  {
    var run;
    IdleRecord(env, store.rows, opts, faults.clock);
    result, run := Update(store, env, [], opts, faults);
    assert run.Parsed() == {};
    EmptyDiffKeepsInventory(env, old(store.rows), store.rows, run.reached);
  }

  /** A new file that cannot be hashed. */
  method MeetUnreadable(store: Store, p: Path, h: Hash, bytes: u64, head: string) returns (result: Result<Summary>)
    requires !IsSynthetic(p) && store.rows == map[]
    modifies store
    ensures result.Ok? && result.value.budget.status.Blocked? && result.value.parseErrors == 1
    ensures store.refs == old(store.refs)["r" := head] && ("r", p) !in store.rows
  {
    ghost var n;
    UnreadableRecord(p, h, bytes, head);
    result, n := BlockedRun(store, OneFile(p, h, bytes, false, head), [Change(p, Added, None)], ONE_BY_ONE, NO_FAULTS);
    OutOfReachIsMissedHere(p, h, bytes, head, store.rows, n);
  }

  lemma OneFileIsIndexed(p: Path, h: Hash, bytes: u64, head: string)
    requires !IsSynthetic(p)
    ensures p in FullBuild(OneFile(p, h, bytes, true, head)) && EnvOk(OneFile(p, h, bytes, true, head))
  {}

  /**
   It happens, for every name and content: a new file cannot be hashed, the run is blocked, the ref moves all the same.
   Once the file can be hashed the diff is empty, the next run is clean, and the file is still missing.
   */
  method UnreadableFileIsForgotten(p: Path, h: Hash, bytes: u64, head: string)
    returns (store: Store, first: Result<Summary>, second: Result<Summary>)
    requires !IsSynthetic(p)
    ensures first.Ok? && first.value.budget.status.Blocked? && first.value.parseErrors == 1
    ensures second.Ok? && second.value.IsClean()
    ensures store.refs == map["r" := head]
    ensures p in FullBuild(OneFile(p, h, bytes, true, head)) && p !in Inventory(store.rows, "r")
  {
    store := new Store();
    first := MeetUnreadable(store, p, h, bytes, head);
    InventoryAt(store.rows, "r", p);
    OneFileIsIndexed(p, h, bytes, head);
    second := IdleRun(store, OneFile(p, h, bytes, true, head), ONE_BY_ONE, NO_FAULTS);
  }

  lemma OutOfReachIsMissedHere(p: Path, h: Hash, bytes: u64, head: string, after: Rows, n: nat)
    requires !IsSynthetic(p)
    requires Ran(OneFile(p, h, bytes, false, head), [Change(p, Added, None)], map[], after, n, {})
    ensures ("r", p) !in after
  {
    var env, changes := OneFile(p, h, bytes, false, head), [Change(p, Added, None)];
    RanAt(env, changes, map[], after, n, {}, p);
    var prefix := changes[..n];
    assert Distinct(prefix);
    AfterMovesAt(env, map[], prefix, p);
    RolesAreExclusive(env, map[], prefix, p);
    TargetIsMoved(env, map[], prefix, p);
  }

  // ---------------------------------------------------------------- an unreadable dependent

  /** Files over ten bytes are skipped, and the first parse failure blocks. */
  const SMALL_FILES: Limits := Limits(U64_MAX, U64_MAX, 10, 0, 10_000, U64_MAX)

  /**
   File `big` is over the size limit, `small` is not, and `locked`, a dependent once it is stored, cannot be hashed.
   */
  function ThreeFiles(big: Path, small: Path, locked: Path, h: Hash, head: string): Env {
    PlainCheckout(map[]).(
      tree := map[big := WorkFile(h, 11, true, false, true, true, true),
                  small := WorkFile(h, 1, true, false, true, true, true),
                  locked := WorkFile(h, 1, true, false, true, false, true)],
      head := Some(head))
  }

  function WithDependent(locked: Path): Options {
    Options(SMALL_FILES, 1, false, false, (rows: Rows) => if ("r", locked) in rows then [locked] else [])
  }

  function TwoEdits(big: Path, small: Path): (changes: seq<Change>)
    ensures |changes| == 2 && changes[0] == Change(big, Modified, None) && changes[1] == Change(small, Modified, None)
  {
    [Change(big, Modified, None), Change(small, Modified, None)]
  }

  lemma SkipThenTake(env: Env, t: TrackerState, big: Path, small: Path)
    requires Statable(env, big) && Statable(env, small) && env.tree[big].bytes == 11 && env.tree[small].bytes == 1
    requires t.limits == SMALL_FILES && t.counters.filesAccepted == 0
    ensures var c := ChooseAll(env, Choice([], 0, false, false, t), [big, small], false);
            c.files == [small] && c.errors == 0 && !c.failed && c.tracker.limits == SMALL_FILES
              && c.tracker.counters.filesAccepted == 1
  {
    var c := Choice([], 0, false, false, t);
    var c1 := Choose(env, c, big, false);
    var c2 := Choose(env, c1, small, false);
    assert c1.files == [] && c1.tracker == OnSkip(t, 11);
    assert [big, small][1..] == [small] && [small][1..] == [] && [] + [small] == [small];
    assert ChooseAll(env, c2, [], false) == c2;
    assert ChooseAll(env, c1, [small], false) == c2;
  }

  lemma InTimeForSmall(t: TrackerState, elapsedMs: u64)
    requires t.limits == SMALL_FILES
    ensures OnTime(t, elapsedMs) == (t, Continue)
  {}

  /** One file in one batch. */
  lemma ParseSingle(env: Env, b: Batch, p: Path, opts: Options, clock: Clock, phase: nat)
    requires opts.batchSize == 1 && !opts.failFast && b.tracker.limits == SMALL_FILES && !b.Over()
    ensures ParseInBatches(env, b, [p], opts, clock, phase, 0, false) == ParseOne(env, b, p, false, false)
  {
    InTimeForSmall(b.tracker, clock(phase, 0));
    var one := ParseOne(env, b, p, false, false);
    assert [p][..1] == [p] && [p][1..] == [];
    assert ParseFiles(env, one, [], false, false) == one;
    assert ParseFiles(env, b, [p], false, false) == one;
    assert ParseInBatches(env, one, [], opts, clock, phase, 1, false) == one;
  }

  lemma FirstFailureBlocks(t: TrackerState, attempted: nat)
    requires Consistent(t) && t.limits == SMALL_FILES
    ensures var (t', d) := OnFailure(t, attempted); d.Blocked? && Consistent(t') && HasBlocked(t')
  {
    StepKeepsConsistent(t, ParseFailure(attempted));
  }

  lemma EditsPhase(env: Env, t: TrackerState, big: Path, small: Path, opts: Options, clock: Clock)
    requires Statable(env, big) && Statable(env, small) && env.tree[big].bytes == 11 && env.tree[small].bytes == 1
    requires Readable(env, small) && env.supports(big) && env.supports(small)
    requires t.limits == SMALL_FILES && t.counters.filesAccepted == 0 && Consistent(t)
    requires opts.batchSize == 1 && !opts.failFast
    ensures var b := Phase(env, t, [big, small], opts, clock, 1, 0, false);
            && b.parsed == [small] && b.errors == 0 && !b.blocked && !b.failed
            && b.tracker.limits == SMALL_FILES && b.tracker.counters.filesAccepted == 1 && Consistent(b.tracker)
  {
    FilterAll((q: Path) => env.supports(q), [big, small]);
    SkipThenTake(env, t, big, small);
    var c := ChooseAll(env, Choice([], 0, false, false, t), [big, small], false);
    ParseSingle(env, NoFiles(c.tracker, 0), small, opts, clock, 1);
    PhaseIsSound(env, t, [big, small], opts, clock, 1, 0, false);
    assert [] + [small] == [small];
  }

  lemma TakeOne(env: Env, t: TrackerState, p: Path)
    requires Statable(env, p) && env.tree[p].bytes == 1 && t.limits == SMALL_FILES && t.counters.filesAccepted == 1
    ensures var c := ChooseAll(env, Choice([], 0, false, false, t), [p], false);
            c.files == [p] && c.errors == 0 && !c.failed && c.tracker.limits == SMALL_FILES
  {
    var c := Choice([], 0, false, false, t);
    var next := Choose(env, c, p, false);
    assert [p][1..] == [] && [] + [p] == [p];
    assert ChooseAll(env, next, [], false) == next;
  }

  lemma LockedPhase(env: Env, t: TrackerState, p: Path, opts: Options, clock: Clock, attempted: nat)
    requires Statable(env, p) && env.tree[p].bytes == 1 && !Readable(env, p) && env.supports(p)
    requires t.limits == SMALL_FILES && t.counters.filesAccepted == 1 && Consistent(t)
    requires opts.batchSize == 1 && !opts.failFast
    ensures var b := Phase(env, t, [p], opts, clock, 2, attempted, false);
            b.parsed == [] && b.errors == 1 && !b.failed && Consistent(b.tracker) && HasBlocked(b.tracker)
  {
    FilterAll((q: Path) => env.supports(q), [p]);
    TakeOne(env, t, p);
    var c := ChooseAll(env, Choice([], 0, false, false, t), [p], false);
    NothingChosen(env, t);
    ChooseAllIsSound(env, t, [], Choice([], 0, false, false, t), [p], false);
    ParseSingle(env, NoFiles(c.tracker, attempted), p, opts, clock, 2);
    FirstFailureBlocks(c.tracker, attempted + 1);
  }

  /** Everything planned is accessible, yet the run misses a planned file and its summary is blocked, not partial. */
  ghost predicate HiddenRecord(env: Env, rows: Rows, changes: seq<Change>, opts: Options, clock: Clock, p: Path) {
    opts.batchSize > 0 &&
    var r := Record(env, rows, changes, opts, clock);
    && !r.Failed() && p !in r.Parsed() && r.second.errors == 1 && HasBlocked(r.second.tracker)
    && p in r.plan.parses && r.reached == |changes|
  }

  lemma HiddenHappens(big: Path, small: Path, locked: Path, h: Hash, head: string)
    requires big != small && big != locked && small != locked
    ensures HiddenRecord(ThreeFiles(big, small, locked, h, head), OneRow(locked, h), TwoEdits(big, small),
                         WithDependent(locked), NO_FAULTS.clock, big)
  {
    var env, rows, changes := ThreeFiles(big, small, locked, h, head), OneRow(locked, h), TwoEdits(big, small);
    var opts, clock := WithDependent(locked), NO_FAULTS.clock;
    var start := Discovered(SMALL_FILES, 2);
    InTimeForSmall(start, 0);
    assert InTime(start, 2, 2, clock) == (start, 2) && InTime(start, 1, 2, clock) == (start, 2);
    assert InTime(start, 0, 2, clock) == (start, 2);
    PlanOfTwo(env, rows, big, small);
    var plan := Classify(env, rows, changes);
    assert changes[..2] == changes;
    EditsPhase(env, start, big, small, opts, clock);
    var first := Phase(env, start, [big, small], opts, clock, 1, 0, false);
    NothingMoves(env, rows, plan);
    assert Without([locked], {big, small}) == [locked] by { assert [locked][1..] == []; }
    assert ToSet([big, small]) == {big, small};
    LockedPhase(env, first.tracker, locked, opts, clock, first.attempted);
  }

  lemma PlanOfTwo(env: Env, rows: Rows, big: Path, small: Path)
    ensures Classify(env, rows, TwoEdits(big, small)) == Plan([], [big, small], [])
  {
    var changes := TwoEdits(big, small);
    assert changes[..1][..0] == [] && changes[..1] == [changes[0]];
    assert Classify(env, rows, changes[..1]) == Plan([], [big], []);
    assert [big] + [small] == [big, small];
  }

  lemma NothingMoves(env: Env, rows: Rows, plan: Plan)
    requires plan.deletes == [] && plan.renames == []
    ensures AfterMoves(env, rows, plan) == rows
  {
    assert Doomed(rows, env.repo, ToSet([])) == {};
  }

  /** A blocked run that missed a planned file moves the ref. */
  method HiddenRun(store: Store, env: Env, changes: seq<Change>, opts: Options, faults: Faults, ghost p: Path)
    returns (result: Result<Summary>, ghost parsed: set<Path>)
    requires HiddenRecord(env, store.rows, changes, opts, faults.clock, p) && !opts.dryRun && env.head.Some?
    requires DependentsAreIndexed(opts.dependents, env.repo) && (forall i :: !faults.chunkFails(i))
             && !faults.reconcileFails
    modifies store
    ensures result.Ok? && result.value.budget.status.Blocked? && !result.value.IsDegraded()
    ensures store.refs == old(store.refs)[env.repo := env.head.value]
    ensures Ran(env, changes, old(store.rows), store.rows, |changes|, parsed) && p !in parsed
  {
    var run;
    RecordIsSound(env, store.rows, changes, opts, faults.clock);
    result, run := Update(store, env, changes, opts, faults);
    SummaryClassifies(run.second.tracker, result.value.budget);
    NoChunkFails(result.value.parsed, opts.batchSize, 0, faults.chunkFails);
    parsed := run.Parsed();
  }

  lemma {:induction false} NoChunkFails(left: nat, batchSize: nat, round: nat, fails: nat -> bool)
    requires batchSize > 0 && forall i :: !fails(i)
    ensures ChunkFailures(left, batchSize, round, fails) == 0
    decreases left
  {
    if left > 0 { NoChunkFails(if batchSize < left then left - batchSize else 0, batchSize, round + 1, fails); }
  }

  /**
   It happens: two edited files, both accessible, one over the size limit. The other one's dependent cannot be hashed,
   which blocks the run and hides the partial report of the skip: the ref moves and the large file is missing.
   */
  method SkippedFileIsHidden(store: Store, big: Path, small: Path, locked: Path, h: Hash, head: string)
    returns (result: Result<Summary>)
    requires big != small && big != locked && small != locked && !IsSynthetic(big) && store.rows == OneRow(locked, h)
    modifies store
    ensures result.Ok? && result.value.budget.status.Blocked? && store.refs == old(store.refs)["r" := head]
    ensures PlannedAccessible(ThreeFiles(big, small, locked, h, head), OneRow(locked, h), TwoEdits(big, small))
    ensures big in FullBuild(ThreeFiles(big, small, locked, h, head)) && big !in Inventory(store.rows, "r")
  {
    HiddenHappens(big, small, locked, h, head);
    ThreeFilesFacts(big, small, locked, h, head);
    result := HiddenLoss(store, ThreeFiles(big, small, locked, h, head), big, small, WithDependent(locked), NO_FAULTS);
  }

  lemma ThreeFilesFacts(big: Path, small: Path, locked: Path, h: Hash, head: string)
    requires big != small && big != locked && small != locked && !IsSynthetic(big)
    ensures var env := ThreeFiles(big, small, locked, h, head);
            && EnvOk(env) && big in FullBuild(env) && env.head == Some(head)
            && PlannedAccessible(env, OneRow(locked, h), TwoEdits(big, small))
            && DependentsAreIndexed(WithDependent(locked).dependents, "r")
  {
    PlanOfTwo(ThreeFiles(big, small, locked, h, head), OneRow(locked, h), big, small);
  }

  method HiddenLoss(store: Store, env: Env, big: Path, small: Path, opts: Options, faults: Faults)
    returns (result: Result<Summary>)
    requires EnvOk(env) && big != small && !IsSynthetic(big) && (env.repo, big) !in store.rows
    requires HiddenRecord(env, store.rows, TwoEdits(big, small), opts, faults.clock, big) && !opts.dryRun
             && env.head.Some?
    requires DependentsAreIndexed(opts.dependents, env.repo) && (forall i :: !faults.chunkFails(i))
             && !faults.reconcileFails
    modifies store
    ensures result.Ok? && result.value.budget.status.Blocked?
            && store.refs == old(store.refs)[env.repo := env.head.value]
    ensures big !in Inventory(store.rows, env.repo)
  {
    ghost var parsed;
    result, parsed := HiddenRun(store, env, TwoEdits(big, small), opts, faults, big);
    HiddenIsMissing(env, old(store.rows), store.rows, big, small, parsed);
  }

  lemma HiddenIsMissing(env: Env, before: Rows, after: Rows, big: Path, small: Path, parsed: set<Path>)
    requires EnvOk(env) && big != small && !IsSynthetic(big) && (env.repo, big) !in before && big !in parsed
    requires Ran(env, TwoEdits(big, small), before, after, 2, parsed)
    ensures big !in Inventory(after, env.repo)
  {
    var changes := TwoEdits(big, small);
    assert changes[..2] == changes;
    PlanOfTwo(env, before, big, small);
    NothingMoves(env, before, Classify(env, before, changes));
    RanAt(env, changes, before, after, 2, parsed, big);
    InventoryAt(after, env.repo, big);
  }
}
