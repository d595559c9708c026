/**
 Where the loops of a build or update stop, told from the files alone: the budgets, the clock and the first failure
 that is one too many (packages/atlas-engine/src/build.rs and update.rs).
 */
module StopPoints {
  import opened Wrappers
  import opened Collections
  import opened Budget
  import opened BuildBudget
  import opened GraphStore
  import opened Worktree
  import BuildGraph
  import UpdateGraph

  // ---------------------------------------------------------------- parsing

  function GoodFiles(env: Env, files: seq<Path>): seq<Path> {
    Filter((p: Path) => Readable(env, p) && env.supports(p), files)
  }

  function BadFiles(env: Env, files: seq<Path>): seq<Path> {
    Filter((p: Path) => !Readable(env, p), files)
  }

  function OtherFiles(env: Env, files: seq<Path>): seq<Path> {
    Filter((p: Path) => Readable(env, p) && !env.supports(p), files)
  }

  lemma FilesAppend(env: Env, a: seq<Path>, b: seq<Path>)
    ensures GoodFiles(env, a + b) == GoodFiles(env, a) + GoodFiles(env, b)
    ensures BadFiles(env, a + b) == BadFiles(env, a) + BadFiles(env, b)
    ensures OtherFiles(env, a + b) == OtherFiles(env, a) + OtherFiles(env, b)
  {
    FilterAppend((p: Path) => Readable(env, p) && env.supports(p), a, b);
    FilterAppend((p: Path) => !Readable(env, p), a, b);
    FilterAppend((p: Path) => Readable(env, p) && !env.supports(p), a, b);
  }

  lemma FilesOfOne(env: Env, p: Path)
    ensures GoodFiles(env, [p]) == if Readable(env, p) && env.supports(p) then [p] else []
    ensures BadFiles(env, [p]) == if Readable(env, p) then [] else [p]
    ensures OtherFiles(env, [p]) == if Readable(env, p) && !env.supports(p) then [p] else []
  {
    FilterOne((q: Path) => Readable(env, q) && env.supports(q), p);
    FilterOne((q: Path) => !Readable(env, q), p);
    FilterOne((q: Path) => Readable(env, q) && !env.supports(q), p);
  }

  /** What a parse loop starts from: failures and files so far, and whether a failure or an earlier block ends it. */
  datatype Rule = Rule(limits: Limits, failures: nat, attempted: nat, failFast: bool, halt: bool)

  function RuleOf(b: Batch, failFast: bool, halt: bool): Rule {
    Rule(b.tracker.limits, b.tracker.counters.parseFailures, b.attempted, failFast, halt)
  }

  /** The `i`-th file cannot be read, and its failure is one too many. */
  ghost predicate BlocksAt(env: Env, rule: Rule, files: seq<Path>, i: nat) {
    && 0 < i <= |files| && !Readable(env, files[i - 1])
    && Blocks(rule.limits, rule.failures + |BadFiles(env, files[..i])|, rule.attempted + i)
  }

  /** The loop ends with the `i`-th file. */
  ghost predicate EndsAt(env: Env, rule: Rule, files: seq<Path>, i: nat) {
    && 0 < i <= |files|
    && (rule.halt || (rule.failFast && !Readable(env, files[i - 1])) || BlocksAt(env, rule, files, i))
  }

  /** Handling these files parses the readable supported ones and counts the others. */
  ghost predicate Tallied(env: Env, b: Batch, files: seq<Path>, r: Batch) {
    && r.parsed == b.parsed + GoodFiles(env, files) && r.errors == b.errors + |BadFiles(env, files)|
    && r.unsupported == b.unsupported + |OtherFiles(env, files)| && r.attempted == b.attempted + |files|
    && r.tracker.limits == b.tracker.limits
    && r.tracker.counters.parseFailures == b.tracker.counters.parseFailures + |BadFiles(env, files)|
  }

  /** A failure that is one too many leaves a blocked report, and the loop is over exactly when a file ends it. */
  ghost predicate Flagged(env: Env, b: Batch, files: seq<Path>, failFast: bool, halt: bool, j: nat, r: Batch) {
    var rule := RuleOf(b, failFast, halt);
    && Consistent(r.tracker) && (HasBlocked(r.tracker) <==> HasBlocked(b.tracker) || BlocksAt(env, rule, files, j))
    && (r.Over() <==> EndsAt(env, rule, files, j)) && (r.blocked <==> (halt && j > 0) || BlocksAt(env, rule, files, j))
    && (r.failed <==> failFast && 0 < j <= |files| && !Readable(env, files[j - 1]))
  }

  /** `r` is what handling exactly the first `j` files makes of `b`; none before the last of them ends the loop. */
  ghost predicate Handled(env: Env, b: Batch, files: seq<Path>, failFast: bool, halt: bool, j: nat, r: Batch) {
    && j <= |files| && (forall i :: 0 < i < j ==> !EndsAt(env, RuleOf(b, failFast, halt), files, i))
    && Tallied(env, b, files[..j], r) && Flagged(env, b, files, failFast, halt, j, r)
  }

  /** Parsing may begin: nothing has ended it, and no more files failed than were handed over. */
  ghost predicate Ready(b: Batch) {
    !b.Over() && Consistent(b.tracker) && b.tracker.counters.parseFailures <= b.attempted
  }

  lemma HandledNone(env: Env, b: Batch, files: seq<Path>, failFast: bool, halt: bool)
    requires Ready(b)
    ensures Handled(env, b, files, failFast, halt, 0, b)
  {
    assert files[..0] == [] && b.parsed + [] == b.parsed;
  }

  lemma HandledOne(env: Env, b: Batch, p: Path, failFast: bool, halt: bool)
    requires Ready(b)
    ensures Handled(env, b, [p], failFast, halt, 1, ParseOne(env, b, p, failFast, halt))
    ensures ParseOne(env, b, p, failFast, halt).tracker.counters.parseFailures <= b.attempted + 1
  {
    FilesOfOne(env, p);
    if Readable(env, p) {
      OneReadIsHandled(env, b, p, failFast, halt);
    } else {
      OneFailedIsHandled(env, b, p, failFast, halt);
    }
  }

  lemma OneReadIsHandled(env: Env, b: Batch, p: Path, failFast: bool, halt: bool)
    requires Ready(b) && Readable(env, p)
    ensures Handled(env, b, [p], failFast, halt, 1, ParseOne(env, b, p, failFast, halt))
  {
    assert [p][..1] == [p];
    FilesOfOne(env, p);
    assert b.parsed + [] == b.parsed;
  }

  lemma OneFailedIsHandled(env: Env, b: Batch, p: Path, failFast: bool, halt: bool)
    requires Ready(b) && !Readable(env, p)
    ensures Handled(env, b, [p], failFast, halt, 1, ParseOne(env, b, p, failFast, halt))
    ensures ParseOne(env, b, p, failFast, halt).tracker.counters.parseFailures <= b.attempted + 1
  {
    assert [p][..1] == [p];
    FilesOfOne(env, p);
    FailureBlocksIff(b.tracker, b.attempted + 1);
    StepKeepsConsistent(b.tracker, ParseFailure(b.attempted + 1));
    assert b.parsed + [] == b.parsed;
  }

  /** What happens within the first files does not depend on those after them. */
  lemma EndsWithin(env: Env, rule: Rule, a: seq<Path>, c: seq<Path>, i: nat)
    requires i <= |a|
    ensures EndsAt(env, rule, a + c, i) <==> EndsAt(env, rule, a, i)
    ensures BlocksAt(env, rule, a + c, i) <==> BlocksAt(env, rule, a, i)
  {
    assert (a + c)[..i] == a[..i];
  }

  lemma HandledMore(env: Env, b: Batch, a: seq<Path>, c: seq<Path>, failFast: bool, halt: bool, j: nat, r: Batch)
    requires Handled(env, b, a, failFast, halt, j, r)
    ensures Handled(env, b, a + c, failFast, halt, j, r)
  {
    assert (a + c)[..j] == a[..j];
    forall i: nat | i <= j
      ensures EndsAt(env, RuleOf(b, failFast, halt), a + c, i) <==> EndsAt(env, RuleOf(b, failFast, halt), a, i)
      ensures BlocksAt(env, RuleOf(b, failFast, halt), a + c, i) <==> BlocksAt(env, RuleOf(b, failFast, halt), a, i)
    {
      EndsWithin(env, RuleOf(b, failFast, halt), a, c, i);
    }
  }

  /** After the first files, the loop goes on as from there. */
  lemma EndsAfter(env: Env, rule: Rule, a: seq<Path>, c: seq<Path>, i: nat)
    requires 0 < i <= |c|
    ensures var later := rule.(failures := rule.failures + |BadFiles(env, a)|, attempted := rule.attempted + |a|);
            && (EndsAt(env, rule, a + c, |a| + i) <==> EndsAt(env, later, c, i))
            && (BlocksAt(env, rule, a + c, |a| + i) <==> BlocksAt(env, later, c, i))
  {
    assert (a + c)[..|a| + i] == a + c[..i];
    FilesAppend(env, a, c[..i]);
  }

  lemma TalliedOn(env: Env, b: Batch, a: seq<Path>, mid: Batch, c: seq<Path>, r: Batch)
    requires Tallied(env, b, a, mid) && Tallied(env, mid, c, r)
    ensures Tallied(env, b, a + c, r)
  {
    FilesAppend(env, a, c);
  }

  lemma FlaggedOn(env: Env, b: Batch, a: seq<Path>, c: seq<Path>, failFast: bool, halt: bool, mid: Batch, j: nat,
                  r: Batch)
    requires Tallied(env, b, a, mid) && Flagged(env, b, a, failFast, halt, |a|, mid) && !mid.Over()
    requires j <= |c| && Flagged(env, mid, c, failFast, halt, j, r)
    ensures Flagged(env, b, a + c, failFast, halt, |a| + j, r)
  {
    EndsOn(env, RuleOf(b, failFast, halt), a, c, j);
    assert j > 0 ==> (a + c)[|a| + j - 1] == c[j - 1];
    assert j == 0 && a != [] ==> (a + c)[|a| - 1] == a[|a| - 1];
  }

  lemma HandledOn(env: Env, b: Batch, a: seq<Path>, c: seq<Path>, failFast: bool, halt: bool, mid: Batch, j: nat,
                  r: Batch)
    requires Handled(env, b, a, failFast, halt, |a|, mid) && !mid.Over() && Handled(env, mid, c, failFast, halt, j, r)
    ensures Handled(env, b, a + c, failFast, halt, |a| + j, r)
  {
    assert a[..|a|] == a;
    assert Tallied(env, b, (a + c)[..|a| + j], r) by {
      assert (a + c)[..|a| + j] == a + c[..j];
      TalliedOn(env, b, a, mid, c[..j], r);
    }
    assert Flagged(env, b, a + c, failFast, halt, |a| + j, r) by {
      FlaggedOn(env, b, a, c, failFast, halt, mid, j, r);
    }
    assert forall i :: 0 < i < |a| + j ==> !EndsAt(env, RuleOf(b, failFast, halt), a + c, i) by {
      NotYet(env, RuleOf(b, failFast, halt), RuleOf(mid, failFast, halt), a, c, j);
    }
  }

  lemma EndsOn(env: Env, rule: Rule, a: seq<Path>, c: seq<Path>, j: nat)
    requires j <= |c|
    ensures var later := rule.(failures := rule.failures + |BadFiles(env, a)|, attempted := rule.attempted + |a|);
            && (EndsAt(env, rule, a + c, |a| + j) <==>
                  if j == 0 then EndsAt(env, rule, a, |a|) else EndsAt(env, later, c, j))
            && (BlocksAt(env, rule, a + c, |a| + j) <==>
                  if j == 0 then BlocksAt(env, rule, a, |a|) else BlocksAt(env, later, c, j))
  {
    if j > 0 { EndsAfter(env, rule, a, c, j); } else { EndsWithin(env, rule, a, c, |a|); }
  }

  lemma NotYet(env: Env, rule: Rule, later: Rule, a: seq<Path>, c: seq<Path>, j: nat)
    requires later == rule.(failures := rule.failures + |BadFiles(env, a)|, attempted := rule.attempted + |a|)
    requires j <= |c| && (forall i :: 0 < i <= |a| ==> !EndsAt(env, rule, a, i))
    requires forall i :: 0 < i < j ==> !EndsAt(env, later, c, i)
    ensures forall i :: 0 < i < |a| + j ==> !EndsAt(env, rule, a + c, i)
  {
    forall i | 0 < i < |a| + j ensures !EndsAt(env, rule, a + c, i) {
      if i <= |a| {
        EndsWithin(env, rule, a, c, i);
      } else {
        EndsAfter(env, rule, a, c, i - |a|);
        assert |a| + (i - |a|) == i;
      }
    }
  }

  /** Some first files were handled: all of them, unless the last of those ends the loop. */
  ghost predicate Stopped(env: Env, b: Batch, files: seq<Path>, failFast: bool, halt: bool, r: Batch) {
    && r.tracker.counters.parseFailures <= r.attempted
    && exists j: nat :: Handled(env, b, files, failFast, halt, j, r) && (j == |files| || r.Over())
  }

  lemma FirstStops(env: Env, b: Batch, p: Path, rest: seq<Path>, failFast: bool, halt: bool)
    requires Ready(b) && ParseOne(env, b, p, failFast, halt).Over()
    ensures Stopped(env, b, [p] + rest, failFast, halt, ParseOne(env, b, p, failFast, halt))
  {
    var next := ParseOne(env, b, p, failFast, halt);
    HandledOne(env, b, p, failFast, halt);
    HandledMore(env, b, [p], rest, failFast, halt, 1, next);
  }

  lemma FilesGoOn(env: Env, b: Batch, a: seq<Path>, rest: seq<Path>, failFast: bool, halt: bool, mid: Batch, r: Batch)
    requires Handled(env, b, a, failFast, halt, |a|, mid) && !mid.Over()
    requires Stopped(env, mid, rest, failFast, halt, r)
    ensures Stopped(env, b, a + rest, failFast, halt, r)
  {
    var j: nat :| Handled(env, mid, rest, failFast, halt, j, r) && (j == |rest| || r.Over());
    HandledOn(env, b, a, rest, failFast, halt, mid, j, r);
  }

  /**
   A parse loop handles the files up to and including the first that ends it: one that cannot be read and is one too
   many or fails fast, or any file once a block was recorded; without such a file it handles all.
   */
  lemma {:induction false} ParseFilesStop(env: Env, b: Batch, files: seq<Path>, failFast: bool, halt: bool)
    requires Ready(b)
    ensures Stopped(env, b, files, failFast, halt, ParseFiles(env, b, files, failFast, halt))
    decreases |files|
  {
    if files == [] {
      HandledNone(env, b, files, failFast, halt);
    } else {
      var p, rest := files[0], files[1..];
      var next := ParseOne(env, b, p, failFast, halt);
      assert files == [p] + rest;
      if next.Over() {
        assert ParseFiles(env, next, rest, failFast, halt) == next;
        FirstStops(env, b, p, rest, failFast, halt);
      } else {
        HandledOne(env, b, p, failFast, halt);
        ParseFilesStop(env, next, rest, failFast, halt);
        FilesGoOn(env, b, [p], rest, failFast, halt, next, ParseFiles(env, next, rest, failFast, halt));
      }
    }
  }

  // ---------------------------------------------------------------- batches and the clock

  function BatchStart(batchSize: nat, k: nat): nat {
    k * batchSize
  }

  /** Time is up before the batch that starts at `j`. */
  ghost predicate LateAt(clock: Clock, phase: nat, round: nat, limit: u64, batchSize: nat, j: nat) {
    exists k: nat :: j == BatchStart(batchSize, k) && clock(phase, round + k) > limit
  }

  /** Every batch that starts before `j` starts in time. */
  ghost predicate InTimeBefore(clock: Clock, phase: nat, round: nat, limit: u64, batchSize: nat, j: nat) {
    forall k: nat :: BatchStart(batchSize, k) < j ==> clock(phase, round + k) <= limit
  }

  lemma FirstBatchInTime(clock: Clock, phase: nat, round: nat, limit: u64, batchSize: nat, j: nat)
    requires batchSize > 0 && j <= batchSize && clock(phase, round) <= limit
    ensures InTimeBefore(clock, phase, round, limit, batchSize, j)
  {
    forall k: nat | BatchStart(batchSize, k) < j ensures clock(phase, round + k) <= limit {
      LaterBatch(batchSize, k);
    }
  }

  lemma LaterBatch(batchSize: nat, k: nat)
    ensures k > 0 ==> BatchStart(batchSize, k) >= batchSize
  {
    if k > 0 { ProductGrows(1, k, batchSize); }
  }

  /** Times of the batches after the first. */
  lemma NextBatches(clock: Clock, phase: nat, round: nat, limit: u64, batchSize: nat, j: nat)
    requires batchSize > 0 && clock(phase, round) <= limit
    requires InTimeBefore(clock, phase, round + 1, limit, batchSize, j)
    ensures InTimeBefore(clock, phase, round, limit, batchSize, batchSize + j)
    ensures LateAt(clock, phase, round + 1, limit, batchSize, j) ==>
              LateAt(clock, phase, round, limit, batchSize, batchSize + j)
  {
    forall k: nat | BatchStart(batchSize, k) < batchSize + j ensures clock(phase, round + k) <= limit {
      if k > 0 {
        assert BatchStart(batchSize, k) == batchSize + BatchStart(batchSize, k - 1);
        assert clock(phase, round + 1 + (k - 1)) <= limit;
      }
    }
    if k: nat :| j == BatchStart(batchSize, k) && clock(phase, round + 1 + k) > limit {
      assert BatchStart(batchSize, k + 1) == batchSize + j;
      assert clock(phase, round + (k + 1)) > limit;
    }
  }

  /** The first `j` files were handled, in time; the last of them ends the loop, or time is up, or there are no more. */
  ghost predicate StoppedAt(env: Env, b: Batch, files: seq<Path>, failFast: bool, halt: bool, clock: Clock, phase: nat,
                            round: nat, batchSize: nat, j: nat, r: Batch)
  {
    var limit := b.tracker.limits.maxWallTimeMs;
    && r.tracker.counters.parseFailures <= r.attempted && Handled(env, b, files, failFast, halt, j, r)
    && InTimeBefore(clock, phase, round, limit, batchSize, j)
    && (j == |files| || r.Over() || LateAt(clock, phase, round, limit, batchSize, j))
  }

  ghost predicate StoppedSomewhere(env: Env, b: Batch, files: seq<Path>, failFast: bool, halt: bool, clock: Clock,
                                   phase: nat, round: nat, batchSize: nat, r: Batch)
  {
    exists j: nat :: StoppedAt(env, b, files, failFast, halt, clock, phase, round, batchSize, j, r)
  }

  lemma LateIsHandled(env: Env, b: Batch, files: seq<Path>, failFast: bool, halt: bool, elapsedMs: u64)
    requires Ready(b) && elapsedMs > b.tracker.limits.maxWallTimeMs
    ensures Handled(env, b, files, failFast, halt, 0, b.(tracker := OnTime(b.tracker, elapsedMs).0))
  {
    HandledNone(env, b, files, failFast, halt);
    StepKeepsConsistent(b.tracker, TimeCheck(elapsedMs));
  }

  lemma NoBatch(env: Env, b: Batch, files: seq<Path>, failFast: bool, halt: bool, clock: Clock, phase: nat, round: nat,
                batchSize: nat)
    requires Ready(b)
    ensures files == [] ==> StoppedSomewhere(env, b, files, failFast, halt, clock, phase, round, batchSize, b)
    ensures clock(phase, round) > b.tracker.limits.maxWallTimeMs ==>
              StoppedSomewhere(env, b, files, failFast, halt, clock, phase, round, batchSize,
                               b.(tracker := OnTime(b.tracker, clock(phase, round)).0))
  {
    HandledNone(env, b, files, failFast, halt);
    if files == [] { assert StoppedAt(env, b, files, failFast, halt, clock, phase, round, batchSize, 0, b); }
    if clock(phase, round) > b.tracker.limits.maxWallTimeMs {
      LateIsHandled(env, b, files, failFast, halt, clock(phase, round));
      assert BatchStart(batchSize, 0) == 0 && clock(phase, round + 0) > b.tracker.limits.maxWallTimeMs;
      assert StoppedAt(env, b, files, failFast, halt, clock, phase, round, batchSize, 0,
                       b.(tracker := OnTime(b.tracker, clock(phase, round)).0));
    }
  }

  /** A batch that ends the loop, or is the last. */
  lemma LastBatch(env: Env, b: Batch, batch: seq<Path>, rest: seq<Path>, failFast: bool, halt: bool, clock: Clock,
                  phase: nat, round: nat, batchSize: nat, r: Batch)
    requires batchSize > 0 && |batch| <= batchSize && clock(phase, round) <= b.tracker.limits.maxWallTimeMs
    requires Stopped(env, b, batch, failFast, halt, r) && (r.Over() || rest == [])
    ensures StoppedSomewhere(env, b, batch + rest, failFast, halt, clock, phase, round, batchSize, r)
  {
    var j: nat :| Handled(env, b, batch, failFast, halt, j, r) && (j == |batch| || r.Over());
    HandledMore(env, b, batch, rest, failFast, halt, j, r);
    FirstBatchInTime(clock, phase, round, b.tracker.limits.maxWallTimeMs, batchSize, j);
    assert StoppedAt(env, b, batch + rest, failFast, halt, clock, phase, round, batchSize, j, r);
  }

  lemma WholeBatch(env: Env, b: Batch, batch: seq<Path>, failFast: bool, halt: bool, r: Batch)
    requires Stopped(env, b, batch, failFast, halt, r) && !r.Over()
    ensures Handled(env, b, batch, failFast, halt, |batch|, r)
  {}

  lemma MoreBatches(env: Env, b: Batch, batch: seq<Path>, rest: seq<Path>, failFast: bool, halt: bool, clock: Clock,
                    phase: nat, round: nat, batchSize: nat, mid: Batch, r: Batch)
    requires batchSize > 0 && |batch| == batchSize && clock(phase, round) <= b.tracker.limits.maxWallTimeMs
    requires Handled(env, b, batch, failFast, halt, |batch|, mid) && !mid.Over()
    requires StoppedSomewhere(env, mid, rest, failFast, halt, clock, phase, round + 1, batchSize, r)
    ensures StoppedSomewhere(env, b, batch + rest, failFast, halt, clock, phase, round, batchSize, r)
  {
    var j: nat :| StoppedAt(env, mid, rest, failFast, halt, clock, phase, round + 1, batchSize, j, r);
    HandledOn(env, b, batch, rest, failFast, halt, mid, j, r);
    NextBatches(clock, phase, round, b.tracker.limits.maxWallTimeMs, batchSize, j);
    assert StoppedAt(env, b, batch + rest, failFast, halt, clock, phase, round, batchSize, |batch| + j, r);
  }

  /** One batch of an update, and those after it. */
  lemma BatchUnfolds(env: Env, b: Batch, files: seq<Path>, opts: UpdateGraph.Options, clock: Clock, phase: nat,
                     round: nat, halt: bool)
    requires opts.batchSize > 0 && files != [] && !b.Over()
    ensures var r := UpdateGraph.ParseInBatches(env, b, files, opts, clock, phase, round, halt);
            var k := UpdateGraph.FirstBatch(files, opts.batchSize);
            if clock(phase, round) > b.tracker.limits.maxWallTimeMs then
              r == b.(tracker := OnTime(b.tracker, clock(phase, round)).0)
            else
              var mid := ParseFiles(env, b, files[..k], opts.failFast, halt);
              r == UpdateGraph.ParseInBatches(env, mid, files[k..], opts, clock, phase, round + 1, halt)
  {
    TimeSays(b.tracker, clock(phase, round));
  }

  lemma NoMoreBatches(env: Env, b: Batch, files: seq<Path>, opts: UpdateGraph.Options, clock: Clock, phase: nat,
                      round: nat, halt: bool)
    requires opts.batchSize > 0 && (files == [] || b.Over())
    ensures UpdateGraph.ParseInBatches(env, b, files, opts, clock, phase, round, halt) == b
  {}

  lemma BatchSizes(files: seq<Path>, batchSize: nat)
    requires batchSize > 0 && files != []
    ensures var k := UpdateGraph.FirstBatch(files, batchSize);
            k <= batchSize && (k < |files| ==> k == batchSize) && files == files[..k] + files[k..]
  {}

  /** Batching does not show: the update's batches stop where one loop over all files would, or when time is up. */
  lemma {:induction false} BatchesStop(env: Env, b: Batch, files: seq<Path>, opts: UpdateGraph.Options, clock: Clock,
                                       phase: nat, round: nat, halt: bool)
    requires opts.batchSize > 0 && Ready(b)
    ensures StoppedSomewhere(env, b, files, opts.failFast, halt, clock, phase, round, opts.batchSize,
                             UpdateGraph.ParseInBatches(env, b, files, opts, clock, phase, round, halt))
    decreases |files|
  {
    NoBatch(env, b, files, opts.failFast, halt, clock, phase, round, opts.batchSize);
    if files == [] {
      NoMoreBatches(env, b, files, opts, clock, phase, round, halt);
    } else {
      BatchUnfolds(env, b, files, opts, clock, phase, round, halt);
      if clock(phase, round) <= b.tracker.limits.maxWallTimeMs {
        FullBatch(env, b, files, opts, clock, phase, round, halt);
        var k := UpdateGraph.FirstBatch(files, opts.batchSize);
        var mid := ParseFiles(env, b, files[..k], opts.failFast, halt);
        if !mid.Over() && files[k..] != [] {
          BatchesStop(env, mid, files[k..], opts, clock, phase, round + 1, halt);
          MoreBatches(env, b, files[..k], files[k..], opts.failFast, halt, clock, phase, round, opts.batchSize, mid,
                      UpdateGraph.ParseInBatches(env, mid, files[k..], opts, clock, phase, round + 1, halt));
        } else {
          NoMoreBatches(env, mid, files[k..], opts, clock, phase, round + 1, halt);
        }
      }
    }
  }

  lemma FullBatch(env: Env, b: Batch, files: seq<Path>, opts: UpdateGraph.Options, clock: Clock, phase: nat, round: nat,
                  halt: bool)
    requires opts.batchSize > 0 && Ready(b) && files != [] && clock(phase, round) <= b.tracker.limits.maxWallTimeMs
    ensures var k := UpdateGraph.FirstBatch(files, opts.batchSize);
            var mid := ParseFiles(env, b, files[..k], opts.failFast, halt);
            && files == files[..k] + files[k..] && (k < |files| ==> k == opts.batchSize)
            && if mid.Over() || k == |files| then
                 StoppedSomewhere(env, b, files, opts.failFast, halt, clock, phase, round, opts.batchSize, mid)
               else Handled(env, b, files[..k], opts.failFast, halt, k, mid) && Ready(mid)
  {
    BatchSizes(files, opts.batchSize);
    var k := UpdateGraph.FirstBatch(files, opts.batchSize);
    var mid := ParseFiles(env, b, files[..k], opts.failFast, halt);
    ParseFilesStop(env, b, files[..k], opts.failFast, halt);
    if mid.Over() || k == |files| {
      LastBatch(env, b, files[..k], files[k..], opts.failFast, halt, clock, phase, round, opts.batchSize, mid);
    } else {
      WholeBatch(env, b, files[..k], opts.failFast, halt, mid);
    }
  }

  // ---------------------------------------------------------------- the rounds of a build

  /** A build's progress as one long batch. */
  function BatchOf(pr: BuildGraph.Progress): Batch {
    Batch(pr.parsed, pr.next, pr.unsupported, pr.errors, false, false, pr.tracker)
  }

  function OnTop(pr: BuildGraph.Progress, b: Batch): Batch {
    b.(parsed := pr.parsed + b.parsed, unsupported := pr.unsupported + b.unsupported, errors := pr.errors + b.errors)
  }

  lemma Rebased(env: Env, pr: BuildGraph.Progress, files: seq<Path>, failFast: bool, b: Batch)
    requires Stopped(env, NoFiles(pr.tracker, pr.next), files, failFast, false, b)
    ensures Stopped(env, BatchOf(pr), files, failFast, false, OnTop(pr, b))
  {
    var j: nat :| Handled(env, NoFiles(pr.tracker, pr.next), files, failFast, false, j, b)
      && (j == |files| || b.Over());
    assert [] + GoodFiles(env, files[..j]) == GoodFiles(env, files[..j]);
    assert Handled(env, BatchOf(pr), files, failFast, false, j, OnTop(pr, b));
  }

  /** The rounds come to this batch; one that fails fast is counted and reported but not kept. */
  ghost predicate ComesTo(pr: BuildGraph.Progress, batchSize: nat, b: Batch) {
    && pr.tracker == b.tracker && pr.errors == b.errors && (pr.phase.Failed? <==> b.failed)
    && (!b.failed ==> pr.parsed == b.parsed && pr.unsupported == b.unsupported && (b.blocked ==> pr.phase.Halted?))
    && (b.failed ==> pr.parsed <= b.parsed && |b.parsed| <= |pr.parsed| + batchSize)
  }

  /** Batches of these files whose parsed files could not all be indexed for text search. */
  function FailedChunks(env: Env, files: seq<Path>, batchSize: nat, round: nat, fails: nat -> bool): nat
    requires batchSize > 0
    decreases |files|
  {
    if files == [] then 0
    else if |files| <= batchSize then (if GoodFiles(env, files) != [] && fails(round) then 1 else 0)
    else (if GoodFiles(env, files[..batchSize]) != [] && fails(round) then 1 else 0)
         + FailedChunks(env, files[batchSize..], batchSize, round + 1, fails)
  }

  /** The files handled between this progress and `b`, by what each batch of them adds to the failed chunk writes. */
  ghost predicate CountsChunks(env: Env, pr: BuildGraph.Progress, rest: seq<Path>, opts: BuildGraph.Options,
                               faults: Faults, r: BuildGraph.Progress, b: Batch)
    requires opts.batchSize > 0
  {
    && pr.next <= b.attempted <= pr.next + |rest|
    && (!b.failed ==> r.chunkFailures == pr.chunkFailures + if opts.dryRun then 0 else
          FailedChunks(env, rest[..b.attempted - pr.next], opts.batchSize, pr.round, faults.chunkFails))
  }

  /** From this progress, the rounds over the remaining candidates come to `r`. */
  ghost predicate RoundsComeTo(env: Env, pr: BuildGraph.Progress, rest: seq<Path>, opts: BuildGraph.Options,
                               faults: Faults, r: BuildGraph.Progress)
    requires opts.batchSize > 0
  {
    exists b ::
      && ComesTo(r, opts.batchSize, b) && CountsChunks(env, pr, rest, opts, faults, r, b)
      && StoppedSomewhere(env, BatchOf(pr), rest, opts.failFast, false, faults.clock, 1, pr.round, opts.batchSize, b)
  }

  lemma NoRound(env: Env, pr: BuildGraph.Progress, candidates: seq<Path>, opts: BuildGraph.Options, faults: Faults)
    requires opts.batchSize > 0 && pr.phase.Running? && Ready(BatchOf(pr)) && pr.next <= |candidates|
    requires pr.next == |candidates| || faults.clock(1, pr.round) > pr.tracker.limits.maxWallTimeMs
    ensures RoundsComeTo(env, pr, candidates[pr.next..], opts, faults,
                         BuildGraph.AllRounds(env, pr, candidates, opts, faults))
  {
    var rest, r := candidates[pr.next..], BuildGraph.AllRounds(env, pr, candidates, opts, faults);
    NoBatch(env, BatchOf(pr), rest, opts.failFast, false, faults.clock, 1, pr.round, opts.batchSize);
    if pr.next == |candidates| {
      RoundsAreOver(env, pr, candidates, opts, faults);
      assert ComesTo(r, opts.batchSize, BatchOf(pr)) && CountsChunks(env, pr, rest, opts, faults, r, BatchOf(pr));
    } else {
      var late := OnTime(pr.tracker, faults.clock(1, pr.round)).0;
      LateRound(env, pr, candidates, opts, faults);
      assert ComesTo(r, opts.batchSize, BatchOf(pr).(tracker := late))
             && CountsChunks(env, pr, rest, opts, faults, r, BatchOf(pr).(tracker := late));
    }
  }

  lemma LateRound(env: Env, pr: BuildGraph.Progress, candidates: seq<Path>, opts: BuildGraph.Options, faults: Faults)
    requires opts.batchSize > 0 && pr.phase.Running? && pr.next < |candidates|
    requires faults.clock(1, pr.round) > pr.tracker.limits.maxWallTimeMs
    ensures BuildGraph.AllRounds(env, pr, candidates, opts, faults) ==
            pr.(phase := BuildGraph.Halted, tracker := OnTime(pr.tracker, faults.clock(1, pr.round)).0)
  {
    TimeSays(pr.tracker, faults.clock(1, pr.round));
    var next := BuildGraph.OneRound(env, pr, candidates, opts, faults);
    assert next == pr.(phase := BuildGraph.Halted, tracker := OnTime(pr.tracker, faults.clock(1, pr.round)).0);
    RoundsAreOver(env, next, candidates, opts, faults);
  }

  /** A round in time: its batch, and the progress it makes. */
  lemma RoundIs(env: Env, pr: BuildGraph.Progress, candidates: seq<Path>, opts: BuildGraph.Options, faults: Faults)
    requires opts.batchSize > 0 && pr.phase.Running? && pr.next < |candidates|
    requires faults.clock(1, pr.round) <= pr.tracker.limits.maxWallTimeMs
    ensures var end := BuildGraph.NextEnd(candidates, pr.next, opts.batchSize);
            var b := ParseFiles(env, NoFiles(pr.tracker, pr.next), candidates[pr.next..end], opts.failFast, false);
            var next := BuildGraph.OneRound(env, pr, candidates, opts, faults);
            && BuildGraph.AllRounds(env, pr, candidates, opts, faults) ==
               BuildGraph.AllRounds(env, next, candidates, opts, faults)
            && next.tracker == b.tracker && next.errors == pr.errors + b.errors
            && (b.failed ==> next.phase.Failed? && next.parsed == pr.parsed)
            && (!b.failed ==>
                  && BatchOf(next) == OnTop(pr, b).(attempted := end, blocked := false)
                  && next.chunkFailures == pr.chunkFailures +
                     (if !opts.dryRun && b.parsed != [] && faults.chunkFails(pr.round) then 1 else 0)
                  && next.round == pr.round + 1 && next.phase == if b.blocked then BuildGraph.Halted
                     else BuildGraph.Running)
  {
    TimeSays(pr.tracker, faults.clock(1, pr.round));
  }

  lemma RoundsAreOver(env: Env, pr: BuildGraph.Progress, candidates: seq<Path>, opts: BuildGraph.Options,
      faults: Faults)
    requires opts.batchSize > 0 && (pr.next == |candidates| || !pr.phase.Running?)
    ensures BuildGraph.AllRounds(env, pr, candidates, opts, faults) == pr
  {}

  lemma RoundSizes(candidates: seq<Path>, next: nat, batchSize: nat)
    requires batchSize > 0 && next < |candidates|
    ensures var end := BuildGraph.NextEnd(candidates, next, batchSize);
            && candidates[next..] == candidates[next..end] + candidates[end..]
            && |candidates[next..end]| <= batchSize && (end < |candidates| ==> |candidates[next..end]| == batchSize)
  {}

  lemma BatchIsShort(env: Env, b: Batch, files: seq<Path>, failFast: bool, r: Batch)
    requires Stopped(env, b, files, failFast, false, r)
    ensures b.parsed <= r.parsed && |r.parsed| <= |b.parsed| + |files|
    ensures !r.Over() ==> r.attempted == b.attempted + |files|
    ensures b.attempted <= r.attempted <= b.attempted + |files|
    ensures r.parsed == b.parsed + GoodFiles(env, files[..r.attempted - b.attempted])
  {
    var j: nat :| Handled(env, b, files, failFast, false, j, r) && (j == |files| || r.Over());
    FilterIsShort((p: Path) => Readable(env, p) && env.supports(p), files[..j]);
  }

  lemma LastChunks(env: Env, pr: BuildGraph.Progress, batch: seq<Path>, rest: seq<Path>, opts: BuildGraph.Options,
                   faults: Faults, b: Batch, r: BuildGraph.Progress)
    requires opts.batchSize > 0 && |batch| <= opts.batchSize && pr.next <= b.attempted <= pr.next + |batch|
    requires b.parsed == GoodFiles(env, batch[..b.attempted - pr.next])
    requires !b.failed ==> r.chunkFailures == pr.chunkFailures +
                           if !opts.dryRun && b.parsed != [] && faults.chunkFails(pr.round) then 1 else 0
    ensures CountsChunks(env, pr, batch + rest, opts, faults, r, OnTop(pr, b))
  {
    assert (batch + rest)[..b.attempted - pr.next] == batch[..b.attempted - pr.next];
  }

  lemma MoreChunks(env: Env, pr: BuildGraph.Progress, next: BuildGraph.Progress, batch: seq<Path>, rest: seq<Path>,
                   opts: BuildGraph.Options, faults: Faults, r: BuildGraph.Progress, c: Batch)
    requires |batch| == opts.batchSize > 0 && next.round == pr.round + 1 && next.next == pr.next + |batch|
    requires next.chunkFailures == pr.chunkFailures +
             if !opts.dryRun && GoodFiles(env, batch) != [] && faults.chunkFails(pr.round) then 1 else 0
    requires CountsChunks(env, next, rest, opts, faults, r, c)
    ensures CountsChunks(env, pr, batch + rest, opts, faults, r, c)
  {
    var k := c.attempted - next.next;
    var handled := (batch + rest)[..c.attempted - pr.next];
    assert handled == batch + rest[..k];
    if k == 0 {
      assert handled == batch && FailedChunks(env, rest[..k], opts.batchSize, next.round, faults.chunkFails) == 0;
    } else {
      assert handled[..opts.batchSize] == batch && handled[opts.batchSize..] == rest[..k];
    }
  }

  lemma LastStops(env: Env, pr: BuildGraph.Progress, batch: seq<Path>, rest: seq<Path>, opts: BuildGraph.Options,
                  faults: Faults, b: Batch)
    requires opts.batchSize > 0 && Ready(BatchOf(pr)) && |batch| <= opts.batchSize
    requires faults.clock(1, pr.round) <= pr.tracker.limits.maxWallTimeMs
    requires b == ParseFiles(env, NoFiles(pr.tracker, pr.next), batch, opts.failFast, false) && (b.Over() || rest == [])
    ensures StoppedSomewhere(env, BatchOf(pr), batch + rest, opts.failFast, false, faults.clock, 1, pr.round,
                             opts.batchSize, OnTop(pr, b))
    ensures pr.next <= b.attempted <= pr.next + |batch| && b.parsed == GoodFiles(env, batch[..b.attempted - pr.next])
    ensures |b.parsed| <= opts.batchSize
  {
    OneBatchStops(env, pr, batch, opts.failFast, b);
    LastBatch(env, BatchOf(pr), batch, rest, opts.failFast, false, faults.clock, 1, pr.round, opts.batchSize,
              OnTop(pr, b));
  }

  lemma OneBatchStops(env: Env, pr: BuildGraph.Progress, batch: seq<Path>, failFast: bool, b: Batch)
    requires Ready(BatchOf(pr)) && b == ParseFiles(env, NoFiles(pr.tracker, pr.next), batch, failFast, false)
    ensures Stopped(env, BatchOf(pr), batch, failFast, false, OnTop(pr, b))
    ensures pr.next <= b.attempted <= pr.next + |batch| && b.parsed == GoodFiles(env, batch[..b.attempted - pr.next])
    ensures |b.parsed| <= |batch|
  {
    ParseFilesStop(env, NoFiles(pr.tracker, pr.next), batch, failFast, false);
    Rebased(env, pr, batch, failFast, b);
    BatchIsShort(env, NoFiles(pr.tracker, pr.next), batch, failFast, b);
  }

  /** A round that ends the loop. */
  lemma LastRound(env: Env, pr: BuildGraph.Progress, candidates: seq<Path>, opts: BuildGraph.Options, faults: Faults)
    requires opts.batchSize > 0 && pr.phase.Running? && Ready(BatchOf(pr)) && pr.next < |candidates|
    requires faults.clock(1, pr.round) <= pr.tracker.limits.maxWallTimeMs
    requires var next := BuildGraph.OneRound(env, pr, candidates, opts, faults);
             !next.phase.Running? || next.next == |candidates|
    ensures RoundsComeTo(env, pr, candidates[pr.next..], opts, faults,
                         BuildGraph.AllRounds(env, pr, candidates, opts, faults))
  {
    var end := BuildGraph.NextEnd(candidates, pr.next, opts.batchSize);
    var batch, rest := candidates[pr.next..end], candidates[end..];
    var b := ParseFiles(env, NoFiles(pr.tracker, pr.next), batch, opts.failFast, false);
    var next := BuildGraph.OneRound(env, pr, candidates, opts, faults);
    RoundIs(env, pr, candidates, opts, faults);
    RoundsAreOver(env, next, candidates, opts, faults);
    RoundSizes(candidates, pr.next, opts.batchSize);
    LastStops(env, pr, batch, rest, opts, faults, b);
    LastChunks(env, pr, batch, rest, opts, faults, b, next);
    assert ComesTo(next, opts.batchSize, OnTop(pr, b));
  }

  /** A round after which the loop goes on has handled its whole batch. */
  lemma NextRound(env: Env, pr: BuildGraph.Progress, candidates: seq<Path>, opts: BuildGraph.Options, faults: Faults)
    requires opts.batchSize > 0 && pr.phase.Running? && Ready(BatchOf(pr)) && pr.next < |candidates|
    requires faults.clock(1, pr.round) <= pr.tracker.limits.maxWallTimeMs
    requires BuildGraph.OneRound(env, pr, candidates, opts, faults).phase.Running?
    ensures var next := BuildGraph.OneRound(env, pr, candidates, opts, faults);
            && next.next == BuildGraph.NextEnd(candidates, pr.next, opts.batchSize)
            && next.round == pr.round + 1 && Ready(BatchOf(next))
            && var batch := candidates[pr.next..next.next];
               && Handled(env, BatchOf(pr), batch, opts.failFast, false, |batch|, BatchOf(next))
               && next.chunkFailures == pr.chunkFailures +
                  (if !opts.dryRun && GoodFiles(env, batch) != [] && faults.chunkFails(pr.round) then 1 else 0)
  {
    var end := BuildGraph.NextEnd(candidates, pr.next, opts.batchSize);
    var batch := candidates[pr.next..end];
    var b := ParseFiles(env, NoFiles(pr.tracker, pr.next), batch, opts.failFast, false);
    RoundIs(env, pr, candidates, opts, faults);
    ParseFilesStop(env, NoFiles(pr.tracker, pr.next), batch, opts.failFast, false);
    Rebased(env, pr, batch, opts.failFast, b);
    WholeIsReady(env, BatchOf(pr), batch, opts.failFast, OnTop(pr, b));
    BatchIsShort(env, NoFiles(pr.tracker, pr.next), batch, opts.failFast, b);
    assert batch[..|batch|] == batch;
  }

  lemma WholeIsReady(env: Env, b: Batch, batch: seq<Path>, failFast: bool, r: Batch)
    requires Stopped(env, b, batch, failFast, false, r) && !r.Over()
    ensures Handled(env, b, batch, failFast, false, |batch|, r) && Ready(r) && r.attempted == b.attempted + |batch|
  {
    WholeBatch(env, b, batch, failFast, false, r);
    BatchIsShort(env, b, batch, failFast, r);
  }

  lemma RoundsGoOn(env: Env, pr: BuildGraph.Progress, next: BuildGraph.Progress, batch: seq<Path>, rest: seq<Path>,
                   opts: BuildGraph.Options, faults: Faults, r: BuildGraph.Progress)
    requires |batch| == opts.batchSize > 0 && next.round == pr.round + 1
    requires faults.clock(1, pr.round) <= pr.tracker.limits.maxWallTimeMs
    requires Handled(env, BatchOf(pr), batch, opts.failFast, false, |batch|, BatchOf(next))
    requires next.next == pr.next + |batch| && next.chunkFailures == pr.chunkFailures +
             if !opts.dryRun && GoodFiles(env, batch) != [] && faults.chunkFails(pr.round) then 1 else 0
    requires RoundsComeTo(env, next, rest, opts, faults, r)
    ensures RoundsComeTo(env, pr, batch + rest, opts, faults, r)
  {
    var c :| ComesTo(r, opts.batchSize, c) && CountsChunks(env, next, rest, opts, faults, r, c)
             && StoppedSomewhere(env, BatchOf(next), rest, opts.failFast, false, faults.clock, 1, next.round,
                                 opts.batchSize, c);
    MoreBatches(env, BatchOf(pr), batch, rest, opts.failFast, false, faults.clock, 1, pr.round, opts.batchSize,
                BatchOf(next), c);
    MoreChunks(env, pr, next, batch, rest, opts, faults, r, c);
  }

  /** Nor does it in a build: the rounds stop where one loop over all candidates would, or when time is up. */
  lemma {:induction false} RoundsStop(env: Env, pr: BuildGraph.Progress, candidates: seq<Path>,
      opts: BuildGraph.Options,
                                      faults: Faults)
    requires opts.batchSize > 0 && pr.phase.Running? && Ready(BatchOf(pr)) && pr.next <= |candidates|
    ensures RoundsComeTo(env, pr, candidates[pr.next..], opts, faults,
                         BuildGraph.AllRounds(env, pr, candidates, opts, faults))
    decreases |candidates| - pr.next
  {
    if pr.next == |candidates| || faults.clock(1, pr.round) > pr.tracker.limits.maxWallTimeMs {
      NoRound(env, pr, candidates, opts, faults);
    } else {
      var next := BuildGraph.OneRound(env, pr, candidates, opts, faults);
      if !next.phase.Running? {
        LastRound(env, pr, candidates, opts, faults);
      } else {
        NextRound(env, pr, candidates, opts, faults);
        if next.next == |candidates| {
          LastRound(env, pr, candidates, opts, faults);
        } else {
          RoundsStop(env, next, candidates, opts, faults);
          RoundAndMore(env, pr, next, candidates, candidates[pr.next..next.next], opts, faults,
                       BuildGraph.AllRounds(env, next, candidates, opts, faults));
          RoundUnfolds(env, pr, candidates, opts, faults);
        }
      }
    }
  }

  lemma RoundUnfolds(env: Env, pr: BuildGraph.Progress, candidates: seq<Path>, opts: BuildGraph.Options, faults: Faults)
    requires opts.batchSize > 0 && pr.phase.Running? && pr.next < |candidates|
    ensures BuildGraph.AllRounds(env, pr, candidates, opts, faults) ==
            BuildGraph.AllRounds(env, BuildGraph.OneRound(env, pr, candidates, opts, faults), candidates, opts, faults)
  {}

  lemma RoundAndMore(env: Env, pr: BuildGraph.Progress, next: BuildGraph.Progress, candidates: seq<Path>,
                     batch: seq<Path>, opts: BuildGraph.Options, faults: Faults, r: BuildGraph.Progress)
    requires opts.batchSize > 0 && pr.next < |candidates| && next.round == pr.round + 1
    requires faults.clock(1, pr.round) <= pr.tracker.limits.maxWallTimeMs
    requires next.next == BuildGraph.NextEnd(candidates, pr.next, opts.batchSize) < |candidates|
    requires batch == candidates[pr.next..next.next]
    requires Handled(env, BatchOf(pr), batch, opts.failFast, false, |batch|, BatchOf(next))
    requires next.chunkFailures == pr.chunkFailures +
             if !opts.dryRun && GoodFiles(env, batch) != [] && faults.chunkFails(pr.round) then 1 else 0
    requires RoundsComeTo(env, next, candidates[next.next..], opts, faults, r)
    ensures RoundsComeTo(env, pr, candidates[pr.next..], opts, faults, r)
  {
    var rest := candidates[next.next..];
    assert candidates[pr.next..] == batch + rest && |batch| == opts.batchSize by {
      RoundSizes(candidates, pr.next, opts.batchSize);
    }
    RoundsGoOn(env, pr, next, batch, rest, opts, faults, r);
  }
}
