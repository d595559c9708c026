/**
 Budget accounting of one build or update run (packages/atlas-engine/src/build_budget.rs).

 The tracker is an object updated across the phases of a run. `TrackerState` is its value and
 `Step` what one call does to it, so whole call sequences can be reasoned about.
 */
module BuildBudget {
  import opened Wrappers
  import opened Budget

  const U64_MAX: nat := 0xFFFF_FFFF_FFFF_FFFF

  /** Byte counts and limits are 64-bit and unsigned; additions on them saturate. */
  type u64 = x: int | 0 <= x <= U64_MAX

  function SaturatingAdd(a: u64, b: u64): u64 {
    if a + b > U64_MAX then U64_MAX else a + b
  }

  datatype Decision = Continue | Degraded | Blocked

  datatype Limits = Limits(
    maxFilesPerRun: u64, maxTotalBytesPerRun: u64, maxFileBytes: u64,
    maxParseFailures: u64, maxParseFailureRatioBps: u64, maxWallTimeMs: u64)

  datatype Counters = Counters(
    filesDiscovered: nat, filesAccepted: nat, filesSkippedByByteBudget: nat,
    bytesAccepted: u64, bytesSkipped: u64, parseFailures: nat, stopReason: Option<string>)

  const NO_COUNTERS: Counters := Counters(0, 0, 0, 0, 0, 0, None)

  // The build/update rules of the default policy.
  const FILES_PER_RUN: LimitRule := LimitRule(10_000, 50_000, Partial, false)
  const TOTAL_BYTES: LimitRule := LimitRule(64 * 1024 * 1024, 512 * 1024 * 1024, Partial, false)
  const FILE_BYTES: LimitRule := LimitRule(10 * 1024 * 1024, 64 * 1024 * 1024, Partial, false)
  const PARSE_FAILURES: LimitRule := LimitRule(100, 10_000, FailClosed, false)
  const PARSE_FAILURE_RATIO: LimitRule := LimitRule(2_500, 10_000, FailClosed, false)
  const WALL_TIME: LimitRule := LimitRule(30_000, 300_000, Partial, false)

  datatype TrackerState = TrackerState(limits: Limits, counters: Counters, reports: seq<Report>)

  /** One call on the tracker. */
  datatype Op =
    | SetDiscovered(count: nat)
    | SkipFileBytes(bytes: u64)
    | ScanSkips(count: nat)
    | TimeCheck(elapsedMs: u64)
    | Accept(bytes: u64)
    | ParseFailure(attempted: nat)

  function FirstReason(c: Counters, reason: string): Option<string> {
    if c.stopReason.Some? then c.stopReason else Some(reason)
  }

  /** Failed files per ten thousand attempted, narrowed to 64 bits as the source casts it. */
  function FailureRatioBps(failures: nat, attempted: nat): nat {
    if attempted == 0 then 0 else (failures * 10_000 / attempted) % (U64_MAX + 1)
  }

  /** A report joins the run and the counters take their new value. */
  function Reported(t: TrackerState, c: Counters, reports: seq<Report>): TrackerState {
    TrackerState(t.limits, c, t.reports + reports)
  }

  function OnSkip(t: TrackerState, bytes: u64): TrackerState {
    var c := t.counters;
    Reported(t,
             c.(filesSkippedByByteBudget := c.filesSkippedByByteBudget + 1,
                bytesSkipped := SaturatingAdd(c.bytesSkipped, bytes),
                stopReason := FirstReason(c, "max_file_bytes")),
             UsageReports(FILE_BYTES, "build_update.max_file_bytes", t.limits.maxFileBytes, bytes, true))
  }

  function OnScanSkips(t: TrackerState, n: nat): TrackerState {
    var c := t.counters;
    if n == 0 then t
    else Reported(t,
                  c.(filesSkippedByByteBudget := c.filesSkippedByByteBudget + n,
                     stopReason := FirstReason(c, "max_file_bytes")),
                  UsageReports(FILE_BYTES, "build_update.max_file_bytes", t.limits.maxFileBytes,
                               t.limits.maxFileBytes + 1, true))
  }

  function OnTime(t: TrackerState, elapsedMs: u64): (TrackerState, Decision) {
    if elapsedMs <= t.limits.maxWallTimeMs then (t, Continue)
    else (Reported(t, t.counters.(stopReason := Some("max_wall_time_ms")),
                   UsageReports(WALL_TIME, "build_update.max_wall_time_ms", t.limits.maxWallTimeMs, elapsedMs, true)),
          Degraded)
  }

  function OnAccept(t: TrackerState, bytes: u64): (TrackerState, Decision) {
    var c := t.counters;
    var next := SaturatingAdd(c.bytesAccepted, bytes);
    if c.filesAccepted >= t.limits.maxFilesPerRun then
      (Reported(t, c.(stopReason := Some("max_files_per_run")),
                UsageReports(FILES_PER_RUN, "build_update.max_files_per_run", t.limits.maxFilesPerRun,
                             c.filesAccepted + 1, true)),
       Degraded)
    else if next > t.limits.maxTotalBytesPerRun then
      (Reported(t,
                c.(filesSkippedByByteBudget := c.filesSkippedByByteBudget + 1,
                   bytesSkipped := SaturatingAdd(c.bytesSkipped, bytes),
                   stopReason := Some("max_total_bytes_per_run")),
                UsageReports(TOTAL_BYTES, "build_update.max_total_bytes_per_run", t.limits.maxTotalBytesPerRun, next,
                             true)),
       Degraded)
    else (t.(counters := c.(filesAccepted := c.filesAccepted + 1, bytesAccepted := next)), Continue)
  }

  function OnFailure(t: TrackerState, attempted: nat): (TrackerState, Decision) {
    var c := t.counters.(parseFailures := t.counters.parseFailures + 1);
    var ratio := FailureRatioBps(c.parseFailures, attempted);
    if c.parseFailures > t.limits.maxParseFailures then
      (Reported(t, c.(stopReason := Some("max_parse_failures")),
                UsageReports(PARSE_FAILURES, "build_update.max_parse_failures", t.limits.maxParseFailures,
                             c.parseFailures, false)),
       Decision.Blocked)
    else if ratio > t.limits.maxParseFailureRatioBps then
      (Reported(t, c.(stopReason := Some("max_parse_failure_ratio")),
                UsageReports(PARSE_FAILURE_RATIO, "build_update.max_parse_failure_ratio",
                             t.limits.maxParseFailureRatioBps, ratio, false)),
       Decision.Blocked)
    else (t.(counters := c), Continue)
  }

  /** What one call does to the tracker and answers. */
  function Step(t: TrackerState, op: Op): (TrackerState, Decision) {
    match op
    case SetDiscovered(n) => (t.(counters := t.counters.(filesDiscovered := n)), Continue)
    case SkipFileBytes(bytes) => (OnSkip(t, bytes), Continue)
    case ScanSkips(n) => (OnScanSkips(t, n), Continue)
    case TimeCheck(elapsed) => OnTime(t, elapsed)
    case Accept(bytes) => OnAccept(t, bytes)
    case ParseFailure(attempted) => OnFailure(t, attempted)
  }

  function Start(limits: Limits): TrackerState {
    TrackerState(limits, NO_COUNTERS, [])
  }

  /** State after a whole call sequence, and the decisions handed out on the way. */
  function Run(t: TrackerState, ops: seq<Op>): TrackerState {
    if ops == [] then t else Step(Run(t, ops[..|ops| - 1]), ops[|ops| - 1]).0
  }

  function DecisionAt(t: TrackerState, ops: seq<Op>, i: nat): Decision
    requires i < |ops|
  {
    Step(Run(t, ops[..i]), ops[i]).1
  }

  /** What a summary may return for this tracker: the last of its worst reports, or "within budget". */
  ghost predicate IsSummary(t: TrackerState, r: Report) {
    if t.reports == [] then
      r.status == WithinBudget && !r.hit && !r.partial && r.safeToAnswer
    else
      exists i :: LastWorstAt(t.reports, i) && r == t.reports[i]
  }

  class BuildBudgetTracker {
    const manager: BudgetManager
    const limits: Limits
    var counters: Counters

    function View(): TrackerState
      reads this, manager
    {
      TrackerState(limits, counters, manager.reports)
    }

    constructor (limits: Limits)
      ensures View() == Start(limits) && fresh(manager)
    {
      this.limits := limits;
      counters := NO_COUNTERS;
      manager := new BudgetManager();
    }

    method SetFilesDiscovered(count: nat)
      modifies this, manager
      ensures View() == Step(old(View()), SetDiscovered(count)).0
    {
      counters := counters.(filesDiscovered := count);
    }

    method NoteSkippedByFileBytes(bytes: u64)
      modifies this, manager
      ensures View() == OnSkip(old(View()), bytes)
    {
      counters := counters.(filesSkippedByByteBudget := counters.filesSkippedByByteBudget + 1);
      counters := counters.(bytesSkipped := SaturatingAdd(counters.bytesSkipped, bytes));
      if counters.stopReason.None? {
        counters := counters.(stopReason := Some("max_file_bytes"));
      }
      manager.RecordUsage(FILE_BYTES, "build_update.max_file_bytes", limits.maxFileBytes, bytes, true);
    }

    method NoteScannedFileByteSkips(count: nat)
      modifies this, manager
      ensures View() == OnScanSkips(old(View()), count)
    {
      if count == 0 {
        return;
      }
      counters := counters.(filesSkippedByByteBudget := counters.filesSkippedByByteBudget + count);
      if counters.stopReason.None? {
        counters := counters.(stopReason := Some("max_file_bytes"));
      }
      manager.RecordUsage(FILE_BYTES, "build_update.max_file_bytes", limits.maxFileBytes,
                          limits.maxFileBytes + 1, true);
    }

    method MaybeStopForTime(elapsedMs: u64) returns (d: Decision)
      modifies this, manager
      ensures (View(), d) == OnTime(old(View()), elapsedMs)
    {
      if elapsedMs <= limits.maxWallTimeMs {
        return Continue;
      }
      counters := counters.(stopReason := Some("max_wall_time_ms"));
      manager.RecordUsage(WALL_TIME, "build_update.max_wall_time_ms", limits.maxWallTimeMs, elapsedMs, true);
      d := Degraded;
    }

    method TryAcceptFile(bytes: u64) returns (d: Decision)
      modifies this, manager
      ensures (View(), d) == OnAccept(old(View()), bytes)
    {
      if counters.filesAccepted >= limits.maxFilesPerRun {
        counters := counters.(stopReason := Some("max_files_per_run"));
        manager.RecordUsage(FILES_PER_RUN, "build_update.max_files_per_run", limits.maxFilesPerRun,
                            counters.filesAccepted + 1, true);
        return Degraded;
      }
      var next := SaturatingAdd(counters.bytesAccepted, bytes);
      if next > limits.maxTotalBytesPerRun {
        counters := counters.(filesSkippedByByteBudget := counters.filesSkippedByByteBudget + 1);
        counters := counters.(bytesSkipped := SaturatingAdd(counters.bytesSkipped, bytes));
        counters := counters.(stopReason := Some("max_total_bytes_per_run"));
        manager.RecordUsage(TOTAL_BYTES, "build_update.max_total_bytes_per_run", limits.maxTotalBytesPerRun,
                            next, true);
        return Degraded;
      }
      counters := counters.(filesAccepted := counters.filesAccepted + 1);
      counters := counters.(bytesAccepted := next);
      d := Continue;
    }

    method NoteParseFailure(attempted: nat) returns (d: Decision)
      modifies this, manager
      ensures (View(), d) == OnFailure(old(View()), attempted)
    {
      counters := counters.(parseFailures := counters.parseFailures + 1);
      if counters.parseFailures > limits.maxParseFailures {
        counters := counters.(stopReason := Some("max_parse_failures"));
        manager.RecordUsage(PARSE_FAILURES, "build_update.max_parse_failures", limits.maxParseFailures,
                            counters.parseFailures, false);
        return Decision.Blocked;
      }
      var ratio := FailureRatioBps(counters.parseFailures, attempted);
      if ratio > limits.maxParseFailureRatioBps {
        counters := counters.(stopReason := Some("max_parse_failure_ratio"));
        manager.RecordUsage(PARSE_FAILURE_RATIO, "build_update.max_parse_failure_ratio",
                            limits.maxParseFailureRatioBps, ratio, false);
        return Decision.Blocked;
      }
      d := Continue;
    }

    method Finish() returns (c: Counters, report: Report)
      ensures c == counters
      ensures IsSummary(View(), report)
      ensures View().reports == [] ==>
                report == WithinBudgetReport("build_update", Max(c.filesAccepted, 1),
                                             Max(Max(c.parseFailures, c.filesSkippedByByteBudget), c.filesAccepted))
    {
      c := counters;
      var observed := Max(Max(c.parseFailures, c.filesSkippedByByteBudget), c.filesAccepted);
      report := manager.Summary("build_update", Max(c.filesAccepted, 1), observed);
    }
  }

  function Max(a: nat, b: nat): nat {
    if a < b then b else a
  }

  // ---------------------------------------------------------------- report faithfulness

  ghost predicate HasPartial(t: TrackerState) {
    exists i :: 0 <= i < |t.reports| && t.reports[i].status.PartialResult?
  }

  ghost predicate HasBlocked(t: TrackerState) {
    exists i :: 0 <= i < |t.reports| && t.reports[i].status.Blocked?
  }

  /** What every reachable tracker satisfies. */
  ghost predicate Consistent(t: TrackerState) {
    && (t.counters.stopReason.Some? <==> t.reports != [])
    && forall i :: 0 <= i < |t.reports| ==> IsStop(t.reports[i])
  }

  /** A report the tracker may append: an unsafe hit that is partial or blocked and says so. */
  predicate IsStop(r: Report) {
    r.hit && !r.safeToAnswer && (r.status.PartialResult? || r.status.Blocked?)
      && (r.partial <==> r.status.PartialResult?)
  }

  lemma AppendKeepsConsistent(t: TrackerState, c: Counters, r: Report)
    requires Consistent(t) && IsStop(r) && c.stopReason.Some?
    ensures var t' := TrackerState(t.limits, c, t.reports + [r]);
            && Consistent(t')
            && (HasBlocked(t') <==> HasBlocked(t) || r.status.Blocked?)
            && (HasPartial(t') <==> HasPartial(t) || r.status.PartialResult?)
  {
    var t' := TrackerState(t.limits, c, t.reports + [r]);
    assert t'.reports[|t.reports|] == r;
    assert forall i :: 0 <= i < |t.reports| ==> t'.reports[i] == t.reports[i];
  }

  /** What a call appends, if anything: one report, which is blocked exactly when the decision is. */
  lemma StepAppends(t: TrackerState, op: Op)
    ensures var (t', d) := Step(t, op);
            && t'.limits == t.limits
            && (t'.reports == t.reports ==> t'.counters.stopReason == t.counters.stopReason && d.Continue?)
            && (t'.reports != t.reports ==>
                  && |t'.reports| == |t.reports| + 1 && t'.reports == t.reports + [t'.reports[|t.reports|]]
                  && IsStop(t'.reports[|t.reports|]) && t'.counters.stopReason.Some?
                  && (t'.reports[|t.reports|].status.Blocked? <==> d.Blocked?))
  {}

  lemma StepKeepsConsistent(t: TrackerState, op: Op)
    requires Consistent(t)
    ensures Consistent(Step(t, op).0)
    ensures HasBlocked(Step(t, op).0) <==> HasBlocked(t) || Step(t, op).1.Blocked?
    ensures t.reports <= Step(t, op).0.reports && Step(t, op).0.limits == t.limits
    ensures Step(t, op).0.reports == t.reports || HasBlocked(Step(t, op).0) || HasPartial(Step(t, op).0)
    ensures op.ParseFailure? ==> (HasPartial(Step(t, op).0) <==> HasPartial(t))
  {
    StepAppends(t, op);
    var (t', d) := Step(t, op);
    if t'.reports != t.reports {
      AppendKeepsConsistent(t, t'.counters, t'.reports[|t.reports|]);
    }
  }

  lemma OnlyParseFailuresBlock(t: TrackerState, op: Op)
    ensures Step(t, op).1.Blocked? ==> op.ParseFailure?
  {}

  lemma {:induction false} RunIsConsistent(limits: Limits, ops: seq<Op>)
    ensures Consistent(Run(Start(limits), ops))
    ensures HasBlocked(Run(Start(limits), ops)) <==>
            exists i :: 0 <= i < |ops| && DecisionAt(Start(limits), ops, i).Blocked?
  {
    var s := Start(limits);
    if ops != [] {
      var n := |ops| - 1;
      RunIsConsistent(limits, ops[..n]);
      StepKeepsConsistent(Run(s, ops[..n]), ops[n]);
      BlockedOneMore(s, ops);
    }
  }

  lemma BlockedOneMore(s: TrackerState, ops: seq<Op>)
    requires ops != []
    ensures var n := |ops| - 1;
            (exists i :: 0 <= i < |ops| && DecisionAt(s, ops, i).Blocked?) <==>
            (exists i :: 0 <= i < n && DecisionAt(s, ops[..n], i).Blocked?) || Step(Run(s, ops[..n]), ops[n]).1.Blocked?
  {
    var n := |ops| - 1;
    assert DecisionAt(s, ops, n) == Step(Run(s, ops[..n]), ops[n]).1;
    forall i | 0 <= i < n ensures DecisionAt(s, ops[..n], i) == DecisionAt(s, ops, i) {
      assert ops[..n][..i] == ops[..i];
    }
  }

  lemma SummaryClassifies(t: TrackerState, r: Report)
    requires Consistent(t) && IsSummary(t, r)
    ensures t.counters.stopReason.Some? <==> r.hit
    ensures r.hit <==> !r.safeToAnswer
    ensures r.hit <==> r.partial || r.status.Blocked?
    ensures r.status.Blocked? <==> HasBlocked(t)
    ensures r.partial <==> HasPartial(t) && !HasBlocked(t)
  {
    if t.reports != [] {
      var i :| LastWorstAt(t.reports, i) && r == t.reports[i];
      if HasBlocked(t) {
        var j :| 0 <= j < |t.reports| && t.reports[j].status.Blocked?;
        assert !t.reports[j].IsWorseThan(t.reports[i]);
      }
    }
  }

  /**
   Faithful reporting over every run: a stop reason is recorded iff the final report is a hit iff it is unsafe
   to answer; it is Blocked iff some parse failure was answered Blocked; and the `partial` flag, which alone
   keeps the synced ref back, is raised iff something was cut short and NOTHING blocked.
   */
  lemma BudgetReportIsFaithful(limits: Limits, ops: seq<Op>, r: Report)
    requires IsSummary(Run(Start(limits), ops), r)
    ensures var t := Run(Start(limits), ops);
            && (t.counters.stopReason.Some? <==> r.hit)
            && (r.hit <==> !r.safeToAnswer)
            && (r.status.Blocked? <==>
                exists i :: 0 <= i < |ops| && ops[i].ParseFailure? && DecisionAt(Start(limits), ops, i).Blocked?)
            && (r.partial <==> HasPartial(t) && !HasBlocked(t))
  {
    RunIsConsistent(limits, ops);
    SummaryClassifies(Run(Start(limits), ops), r);
    forall i | 0 <= i < |ops|
      ensures DecisionAt(Start(limits), ops, i).Blocked? ==> ops[i].ParseFailure?
    {
      OnlyParseFailuresBlock(Run(Start(limits), ops[..i]), ops[i]);
    }
  }

  /** A block hides an earlier cut: the run below ran out of time, yet its summary is not partial. */
  lemma BlockHidesPartial(limits: Limits, r: Report)
    requires limits.maxWallTimeMs < U64_MAX && limits.maxParseFailures == 0
    requires IsSummary(Run(Start(limits), [TimeCheck(U64_MAX), ParseFailure(1)]), r)
    ensures HasPartial(Run(Start(limits), [TimeCheck(U64_MAX), ParseFailure(1)]))
    ensures r.status.Blocked? && !r.partial
  {
    var ops := [TimeCheck(U64_MAX), ParseFailure(1)];
    assert ops[..1] == [ops[0]] && ops[..1][..0] == [];
    var one := Run(Start(limits), ops[..1]);
    assert Run(Start(limits), ops[..1][..|ops[..1]| - 1]) == Start(limits);
    assert one == Step(Start(limits), ops[0]).0;
    var two := Run(Start(limits), ops);
    assert two.reports[0].status.PartialResult? && two.reports[1].status.Blocked?;
    RunIsConsistent(limits, ops);
    SummaryClassifies(two, r);
  }

  // ---------------------------------------------------------------- what each call answers and reports

  /** Failure number `f` of `n` files handed to the parser is one too many, by number or by share. */
  ghost predicate Blocks(limits: Limits, f: nat, n: nat) {
    f > limits.maxParseFailures || f * 10_000 >= (limits.maxParseFailureRatioBps + 1) * n
  }

  lemma DivideAbove(a: nat, n: nat, k: nat)
    requires n > 0
    ensures a / n > k <==> a >= (k + 1) * n
  {
    var q, r := a / n, a % n;
    assert a == q * n + r && 0 <= r < n;
    if q > k { ProductGrows(k + 1, q, n); } else { ProductGrows(q, k, n); }
    assert (k + 1) * n == k * n + n;
  }

  lemma ProductGrows(a: nat, b: nat, n: nat)
    requires a <= b
    ensures a * n <= b * n
  {}

  /** While no more files fail than are attempted, the narrowing cast changes nothing. */
  lemma RatioIsExact(f: nat, n: nat)
    requires 0 < f <= n
    ensures FailureRatioBps(f, n) == f * 10_000 / n
  {
    DivideAbove(f * 10_000, n, 10_000);
    ProductGrows(f, n, 10_000);
    assert 10_001 * n > n * 10_000;
  }

  /** The tracker gives this reason for stopping, and its last report names the limit, its value and what was seen. */
  ghost predicate Stops(t: TrackerState, reason: string, name: string, value: nat, observed: nat) {
    && t.counters.stopReason == Some(reason) && t.reports != []
    && var r := t.reports[|t.reports| - 1];
    r.name == name && r.limit == value && r.observed == observed
  }

  /**
   A parse failure is counted; it blocks exactly when the failures exceed their number, or their share of the files
   handed to the parser in ten-thousandths, rounded down, exceeds its limit.
   */
  lemma FailureBlocksIff(t: TrackerState, n: nat)
    requires t.counters.parseFailures < n
    ensures var (t', d) := OnFailure(t, n);
            var f := t.counters.parseFailures + 1;
            && t'.counters == t.counters.(parseFailures := f, stopReason := t'.counters.stopReason)
            && d == (if Blocks(t.limits, f, n) then Decision.Blocked else Continue)
  {
    var f := t.counters.parseFailures + 1;
    RatioIsExact(f, n);
    DivideAbove(f * 10_000, n, t.limits.maxParseFailureRatioBps);
  }

  /** And the report names the limit that was met, the number before the share. */
  lemma FailureSays(t: TrackerState, n: nat)
    requires t.counters.parseFailures < n
    ensures var (t', d) := OnFailure(t, n);
            var f, limits := t.counters.parseFailures + 1, t.limits;
            if f > limits.maxParseFailures then
              Stops(t', "max_parse_failures", "build_update.max_parse_failures", limits.maxParseFailures, f)
            else d.Blocked? ==>
              Stops(t', "max_parse_failure_ratio", "build_update.max_parse_failure_ratio",
                    limits.maxParseFailureRatioBps, f * 10_000 / n)
  {
    RatioIsExact(t.counters.parseFailures + 1, n);
  }

  /** Time stops a run exactly above its limit. */
  lemma TimeSays(t: TrackerState, elapsedMs: u64)
    ensures var (t', d) := OnTime(t, elapsedMs);
            if elapsedMs > t.limits.maxWallTimeMs then
              && d == Degraded
              && Stops(t', "max_wall_time_ms", "build_update.max_wall_time_ms", t.limits.maxWallTimeMs, elapsedMs)
            else d == Continue && t' == t
  {}

  /** The number of files stops a run before their bytes do. */
  lemma AcceptSays(t: TrackerState, bytes: u64)
    ensures var (t', d) := OnAccept(t, bytes);
            var c, limits := t.counters, t.limits;
            var total := if c.bytesAccepted + bytes > U64_MAX then U64_MAX else c.bytesAccepted + bytes;
            if c.filesAccepted >= limits.maxFilesPerRun then
              && d == Degraded
              && Stops(t', "max_files_per_run", "build_update.max_files_per_run", limits.maxFilesPerRun,
                       c.filesAccepted + 1)
            else if total > limits.maxTotalBytesPerRun then
              && d == Degraded
              && Stops(t', "max_total_bytes_per_run", "build_update.max_total_bytes_per_run",
                       limits.maxTotalBytesPerRun, total)
            else d == Continue
  {}

  // ---------------------------------------------------------------- the other counters

  /** Sizes of the files one call turns away for their bytes; files the scan skipped count without a size. */
  ghost function TurnedAway(t: TrackerState, op: Op): seq<u64> {
    match op
    case SkipFileBytes(bytes) => [bytes]
    case Accept(bytes) =>
      if t.counters.filesAccepted < t.limits.maxFilesPerRun && Step(t, op).1.Degraded? then [bytes] else []
    case _ => []
  }

  ghost function SkippedSizes(t: TrackerState, ops: seq<Op>): seq<u64> {
    if ops == [] then [] else
    var init := ops[..|ops| - 1];
    SkippedSizes(t, init) + TurnedAway(Run(t, init), ops[|ops| - 1])
  }

  ghost function ScannedSkips(ops: seq<Op>): nat {
    if ops == [] then 0
    else ScannedSkips(ops[..|ops| - 1]) + match ops[|ops| - 1] case ScanSkips(n) => n case _ => 0
  }

  ghost function Failures(ops: seq<Op>): nat {
    if ops == [] then 0 else Failures(ops[..|ops| - 1]) + if ops[|ops| - 1].ParseFailure? then 1 else 0
  }

  /** The discovered files are those last announced. */
  ghost function Announced(ops: seq<Op>): nat {
    if ops == [] then 0
    else match ops[|ops| - 1] case SetDiscovered(n) => n case _ => Announced(ops[..|ops| - 1])
  }

  lemma SumMore(sizes: seq<u64>, x: u64)
    ensures Sum(sizes + [x]) == Sum(sizes) + x
  {
    assert (sizes + [x])[..|sizes|] == sizes;
  }

  ghost predicate Counted(c: Counters, skipped: seq<u64>, scanned: nat, failures: nat, announced: nat) {
    && c.filesSkippedByByteBudget == |skipped| + scanned
    && c.bytesSkipped == (if Sum(skipped) > U64_MAX then U64_MAX else Sum(skipped))
    && c.parseFailures == failures && c.filesDiscovered == announced
  }

  lemma StepCounts(t: TrackerState, op: Op, skipped: seq<u64>, scanned: nat, failures: nat, announced: nat)
    requires Counted(t.counters, skipped, scanned, failures, announced)
    ensures Counted(Step(t, op).0.counters, skipped + TurnedAway(t, op),
                    scanned + if op.ScanSkips? then op.count else 0, failures + if op.ParseFailure? then 1 else 0,
                    if op.SetDiscovered? then op.count else announced)
  {
    if TurnedAway(t, op) != [] {
      SumMore(skipped, TurnedAway(t, op)[0]);
    } else {
      assert skipped + [] == skipped;
    }
  }

  /** Over every call sequence: skipped files and bytes, failures and discovered files are counted exactly. */
  lemma {:induction false} CountersAreExact(limits: Limits, ops: seq<Op>)
    ensures Counted(Run(Start(limits), ops).counters, SkippedSizes(Start(limits), ops), ScannedSkips(ops),
                    Failures(ops), Announced(ops))
  {
    if ops != [] {
      var init := ops[..|ops| - 1];
      CountersAreExact(limits, init);
      StepCounts(Run(Start(limits), init), ops[|ops| - 1], SkippedSizes(Start(limits), init), ScannedSkips(init),
                 Failures(init), Announced(init));
    }
  }

  /** A skipped file is reported with its size, files skipped by the scan with one byte over the limit. */
  lemma SkipSays(t: TrackerState, bytes: u64, n: nat)
    ensures var r := OnSkip(t, bytes).reports;
            && |r| == |t.reports| + 1
            && Says(r[|t.reports|], PartialResult, "build_update.max_file_bytes", t.limits.maxFileBytes, bytes, false)
    ensures var r := OnScanSkips(t, n).reports;
            if n == 0 then OnScanSkips(t, n) == t
            else
              && |r| == |t.reports| + 1
              && Says(r[|t.reports|], PartialResult, "build_update.max_file_bytes", t.limits.maxFileBytes,
                      t.limits.maxFileBytes + 1, false)
  {}

  /** A size skip gives the reason only where there is none yet; every other stop gives its own. */
  lemma ReasonIs(t: TrackerState, op: Op)
    ensures var reason := Step(t, op).0.counters.stopReason;
            match op
            case SkipFileBytes(_) =>
              reason == if t.counters.stopReason.None? then Some("max_file_bytes") else t.counters.stopReason
            case ScanSkips(n) =>
              reason == if t.counters.stopReason.None? && n > 0 then Some("max_file_bytes") else t.counters.stopReason
            case _ => Step(t, op).1.Continue? ==> reason == t.counters.stopReason
  {}

  // ---------------------------------------------------------------- acceptance is exact

  function Sum(sizes: seq<u64>): nat {
    if sizes == [] then 0 else Sum(sizes[..|sizes| - 1]) + sizes[|sizes| - 1]
  }

  /** The size one call lets in, if any. */
  function Taken(t: TrackerState, op: Op): seq<u64> {
    if op.Accept? && Step(t, op).1.Continue? then [op.bytes] else []
  }

  /** Sizes of the files accepted along a call sequence. */
  function AcceptedSizes(t: TrackerState, ops: seq<Op>): seq<u64> {
    if ops == [] then [] else
    var init := ops[..|ops| - 1];
    AcceptedSizes(t, init) + Taken(Run(t, init), ops[|ops| - 1])
  }

  /** The counters describe exactly the accepted files; the byte sum is cut off at the 64-bit maximum. */
  ghost predicate Exact(t: TrackerState, limits: Limits, sizes: seq<u64>) {
    && t.limits == limits
    && t.counters.filesAccepted == |sizes| <= limits.maxFilesPerRun
    && t.counters.bytesAccepted <= limits.maxTotalBytesPerRun
    && t.counters.bytesAccepted == (if Sum(sizes) > U64_MAX then U64_MAX else Sum(sizes))
  }

  lemma StepIsExact(t: TrackerState, limits: Limits, sizes: seq<u64>, op: Op)
    requires Exact(t, limits, sizes)
    ensures Exact(Step(t, op).0, limits, sizes + Taken(t, op))
  {
    if op.Accept? && Step(t, op).1.Continue? {
      var after := sizes + [op.bytes];
      assert after[..|after| - 1] == sizes;
      assert Sum(after) == Sum(sizes) + op.bytes;
    } else {
      assert sizes + [] == sizes;
    }
  }

  /** Over every call sequence the accepted files and bytes stay within the limits and are counted exactly. */
  lemma {:induction false} AcceptanceIsExact(limits: Limits, ops: seq<Op>)
    ensures Exact(Run(Start(limits), ops), limits, AcceptedSizes(Start(limits), ops))
  {
    if ops != [] {
      var init := ops[..|ops| - 1];
      AcceptanceIsExact(limits, init);
      StepIsExact(Run(Start(limits), init), limits, AcceptedSizes(Start(limits), init), ops[|ops| - 1]);
    }
  }

  /** Below the 64-bit maximum the counter never saturates; at the maximum two large files make it inexact. */
  lemma BytesAreExactBelowMaximum(limits: Limits, ops: seq<Op>)
    ensures limits.maxTotalBytesPerRun < U64_MAX ==>
              Run(Start(limits), ops).counters.bytesAccepted == Sum(AcceptedSizes(Start(limits), ops))
    ensures limits.maxTotalBytesPerRun == U64_MAX && limits.maxFilesPerRun >= 2 ==>
              var two := [Accept(U64_MAX), Accept(1)];
              Run(Start(limits), two).counters.bytesAccepted < Sum(AcceptedSizes(Start(limits), two))
  {
    AcceptanceIsExact(limits, ops);
    if limits.maxTotalBytesPerRun == U64_MAX && limits.maxFilesPerRun >= 2 {
      var s := Start(limits);
      var two := [Accept(U64_MAX), Accept(1)];
      assert two[..1] == [Accept(U64_MAX)] && two[..1][..0] == [];
      assert Run(s, two[..1]) == Step(s, Accept(U64_MAX)).0;
      assert AcceptedSizes(s, two[..1]) == [U64_MAX];
      assert AcceptedSizes(s, two) == [U64_MAX, 1];
      assert [U64_MAX, 1][..1] == [U64_MAX];
    }
  }

  // ---------------------------------------------------------------- acceptance is maximal

  /** Offering files in order and stopping at the first refusal: how many get in. */
  function AcceptPrefix(t: TrackerState, sizes: seq<u64>): (k: nat)
    ensures k <= |sizes|
    decreases |sizes|
  {
    if sizes == [] || Step(t, Accept(sizes[0])).1.Degraded? then 0
    else 1 + AcceptPrefix(Step(t, Accept(sizes[0])).0, sizes[1..])
  }

  ghost predicate Fits(t: TrackerState, sizes: seq<u64>, j: nat)
    requires j <= |sizes|
  {
    && t.counters.filesAccepted + j <= t.limits.maxFilesPerRun
    && t.counters.bytesAccepted + Sum(sizes[..j]) <= t.limits.maxTotalBytesPerRun
  }

  lemma {:induction false} SumFront(sizes: seq<u64>)
    requires sizes != []
    ensures Sum(sizes) == sizes[0] + Sum(sizes[1..])
  {
    if |sizes| > 1 {
      SumFront(sizes[..|sizes| - 1]);
      assert sizes[1..][..|sizes| - 2] == sizes[..|sizes| - 1][1..];
    }
  }

  /** The accepted prefix is the longest one that fits: a prefix fits iff it is no longer than it. */
  lemma {:induction false} AcceptPrefixIsLongest(t: TrackerState, sizes: seq<u64>, j: nat)
    requires t.limits.maxTotalBytesPerRun < U64_MAX
    requires t.counters.filesAccepted <= t.limits.maxFilesPerRun
    requires t.counters.bytesAccepted <= t.limits.maxTotalBytesPerRun
    requires j <= |sizes|
    ensures Fits(t, sizes, j) <==> j <= AcceptPrefix(t, sizes)
    decreases |sizes|
  {
    if j > 0 {
      var s := sizes[..j];
      SumFront(s);
      assert s[1..] == sizes[1..][..j - 1];
      var (t1, d) := Step(t, Accept(sizes[0]));
      if d.Continue? {
        AcceptPrefixIsLongest(t1, sizes[1..], j - 1);
      }
    }
  }
}
