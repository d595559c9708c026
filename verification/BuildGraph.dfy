/**
 Full build (packages/atlas-engine/src/build.rs): clear this repository's slices, scan the checkout, accept files
 within the budget, parse and write in batches, rebuild owner graphs, record the synced ref.
 */
module BuildGraph {
  import opened Wrappers
  import opened Collections
  import opened Budget
  import opened BuildBudget
  import opened GraphStore
  import opened Worktree

  datatype Options = Options(limits: Limits, batchSize: nat, dryRun: bool, failFast: bool)

  datatype Summary = Summary(
    scanned: nat, skippedUnsupported: nat, skippedUnchanged: nat, parsed: nat, parseErrors: nat,
    chunkUpsertFailures: nat, reconcileFailures: nat, counters: Counters, budget: Report)
  {
    predicate IsDegraded() {
      budget.partial || chunkUpsertFailures > 0 || reconcileFailures > 0
    }

    /** Nothing was cut short, blocked, unreadable or left unindexed by a collaborator. */
    predicate IsClean() {
      !budget.hit && parseErrors == 0 && chunkUpsertFailures == 0 && reconcileFailures == 0
    }
  }

  /** The paths the scan hands to the build, in listing order. */
  function Scan(env: Env, listing: seq<Path>, maxBytes: u64): seq<Path> {
    if listing == [] then [] else
    var p := listing[|listing| - 1];
    Scan(env, listing[..|listing| - 1], maxBytes) +
    (if Indexed(env, p) && env.tree[p].bytes <= maxBytes then [p] else [])
  }

  lemma {:induction false} ScanMembers(env: Env, listing: seq<Path>, maxBytes: u64)
    ensures forall p :: p in Scan(env, listing, maxBytes) <==>
                        p in listing && Indexed(env, p) && env.tree[p].bytes <= maxBytes
  {
    if listing != [] {
      var init := listing[..|listing| - 1];
      ScanMembers(env, init, maxBytes);
      assert listing == init + [listing[|listing| - 1]];
    }
  }

  predicate OverSize(env: Env, p: Path, maxBytes: u64) {
    && p in env.tree && !env.ignored(p) && env.supports(p)
    && env.tree[p].statOk && env.tree[p].regular && env.tree[p].bytes > maxBytes
  }

  function LargeFiles(env: Env, listing: seq<Path>, maxBytes: u64): seq<Path> {
    Filter((p: Path) => OverSize(env, p, maxBytes), listing)
  }

  function UnsupportedFiles(env: Env, listing: seq<Path>): seq<Path> {
    Filter((p: Path) => !env.ignored(p) && !env.supports(p), listing)
  }

  /** The outcome of the scan so far. */
  datatype Found = Found(files: seq<Path>, unsupported: nat, overSize: nat)

  function FoundIn(env: Env, listing: seq<Path>, maxBytes: u64): Found {
    Found(Scan(env, listing, maxBytes), |UnsupportedFiles(env, listing)|, |LargeFiles(env, listing, maxBytes)|)
  }

  /** One more path; ignored paths, links, binaries and unopenable files drop out silently. */
  function LookAt(env: Env, f: Found, p: Path, maxBytes: u64): Found {
    if env.ignored(p) then f
    else if !env.supports(p) then f.(unsupported := f.unsupported + 1)
    else if p !in env.tree || !env.tree[p].statOk || !env.tree[p].regular then f
    else if env.tree[p].bytes > maxBytes then f.(overSize := f.overSize + 1)
    else if env.tree[p].readOk && !env.tree[p].binary then f.(files := f.files + [p])
    else f
  }

  lemma ScanOneMore(env: Env, listing: seq<Path>, maxBytes: u64, p: Path)
    ensures Scan(env, listing + [p], maxBytes) ==
            Scan(env, listing, maxBytes) + if Indexed(env, p) && env.tree[p].bytes <= maxBytes then [p] else []
  {
    assert (listing + [p])[..|listing|] == listing;
  }

  lemma {:induction false} CountOneMore(q: Path -> bool, listing: seq<Path>, p: Path)
    ensures |Filter(q, listing + [p])| == |Filter(q, listing)| + if q(p) then 1 else 0
  {
    FilterAppend(q, listing, [p]);
    assert Filter(q, [p][1..]) == [];
  }

  /** Looking at the paths one by one finds what the filters say. */
  lemma FoundOneMore(env: Env, listing: seq<Path>, maxBytes: u64, p: Path)
    ensures FoundIn(env, listing + [p], maxBytes) == LookAt(env, FoundIn(env, listing, maxBytes), p, maxBytes)
  {
    ScanOneMore(env, listing, maxBytes, p);
    CountOneMore((q: Path) => OverSize(env, q, maxBytes), listing, p);
    CountOneMore((q: Path) => !env.ignored(q) && !env.supports(q), listing, p);
    var found := Scan(env, listing, maxBytes);
    assert found + [] == found;
  }

  method CollectSupportedFiles(env: Env, listing: seq<Path>, maxBytes: u64) returns (f: Found)
    ensures f == FoundIn(env, listing, maxBytes)
  {
    f := Found([], 0, 0);
    for i := 0 to |listing|
      invariant f == FoundIn(env, listing[..i], maxBytes)
    {
      TakeSnoc(listing, i);
      FoundOneMore(env, listing[..i], maxBytes, listing[i]);
      f := LookAt(env, f, listing[i], maxBytes);
    }
    assert listing[..|listing|] == listing;
  }

  function Sizes(env: Env, ps: seq<Path>): (sizes: seq<u64>)
    requires forall p :: p in ps ==> p in env.tree
    ensures |sizes| == |ps| && forall i :: 0 <= i < |ps| ==> sizes[i] == env.tree[ps[i]].bytes
  {
    if ps == [] then [] else [env.tree[ps[0]].bytes] + Sizes(env, ps[1..])
  }

  /** Nothing stops the acceptance loop but the file and byte limits. */
  ghost predicate Undisturbed(env: Env, files: seq<Path>, limits: Limits, clock: Clock) {
    && (forall i :: clock(0, i) <= limits.maxWallTimeMs)
    && (forall p :: p in files ==> p in env.tree && env.tree[p].statOk && env.tree[p].hashOk)
  }

  datatype Offer = Stopped | Unreadable | AlreadyStored | Accepted

  /** One round of the acceptance loop: clock, stat, budget, hash, comparison with the stored hash, in that order. */
  function OfferOf(env: Env, t: TrackerState, p: Path, stored: map<Path, Hash>, elapsedMs: u64): (TrackerState, Offer)
    requires p in env.tree
  {
    var (t1, d1) := OnTime(t, elapsedMs);
    if d1.Degraded? then (t1, Stopped)
    else if !env.tree[p].statOk then (t1, Unreadable)
    else
      var (t2, d2) := OnAccept(t1, env.tree[p].bytes);
      if d2.Degraded? then (t2, Stopped)
      else if !env.tree[p].hashOk then (t2, Unreadable)
      else if p in stored && stored[p] == env.tree[p].hash then (t2, AlreadyStored)
      else (t2, Accepted)
  }

  method OfferFile(tracker: BuildBudgetTracker, env: Env, p: Path, stored: map<Path, Hash>, elapsedMs: u64)
      returns (o: Offer)
    requires p in env.tree
    modifies tracker, tracker.manager
    ensures (tracker.View(), o) == OfferOf(env, old(tracker.View()), p, stored, elapsedMs)
  {
    var d := tracker.MaybeStopForTime(elapsedMs);
    if d.Degraded? {
      return Stopped;
    }
    if !env.tree[p].statOk {
      return Unreadable;
    }
    d := tracker.TryAcceptFile(env.tree[p].bytes);
    if d.Degraded? {
      return Stopped;
    }
    if !env.tree[p].hashOk {
      return Unreadable;
    }
    o := if p in stored && stored[p] == env.tree[p].hash then AlreadyStored else Accepted;
  }

  lemma OfferIsSound(env: Env, t: TrackerState, p: Path, stored: map<Path, Hash>, elapsedMs: u64)
    requires p in env.tree && Consistent(t)
    ensures var (t', o) := OfferOf(env, t, p, stored, elapsedMs);
            && Consistent(t') && t.reports <= t'.reports && t'.limits == t.limits && (HasBlocked(t') ==> HasBlocked(t))
            && (o.Stopped? ==> t'.reports != []) && (o.AlreadyStored? ==> p in stored)
            && (o.Unreadable? ==> !env.tree[p].statOk || !env.tree[p].hashOk)
            && (o.Accepted? ==> env.tree[p].statOk && env.tree[p].hashOk)
  {
    TimeIsSound(t, elapsedMs);
    AcceptIsSound(t, env.tree[p].bytes);
  }

  /** In time, with a file that can be statted and hashed and is not stored, only the file and byte limits matter. */
  lemma OfferIsAcceptance(env: Env, t: TrackerState, p: Path, elapsedMs: u64)
    requires p in env.tree && elapsedMs <= t.limits.maxWallTimeMs && env.tree[p].statOk && env.tree[p].hashOk
    ensures var (t', d) := OnAccept(t, env.tree[p].bytes);
            OfferOf(env, t, p, map[], elapsedMs) == (t', if d.Degraded? then Stopped else Accepted)
  {}

  /** The acceptance loop so far. */
  datatype Acceptance = Acceptance(
    candidates: seq<Path>, same: nat, errors: nat, tick: nat, stopped: bool, failed: bool, tracker: TrackerState)
  {
    predicate Over() {
      stopped || failed
    }
  }

  function NoneOffered(t: TrackerState): Acceptance {
    Acceptance([], 0, 0, 0, false, false, t)
  }

  function OfferNext(env: Env, a: Acceptance, p: Path, stored: map<Path, Hash>, clock: Clock,
      failFast: bool): Acceptance
    requires p in env.tree
  {
    var (t, o) := OfferOf(env, a.tracker, p, stored, clock(0, a.tick));
    var next := a.(tick := a.tick + 1, tracker := t);
    match o
    case Stopped => next.(stopped := true)
    case Unreadable => next.(errors := a.errors + 1, failed := failFast)
    case AlreadyStored => next.(same := a.same + 1)
    case Accepted => next.(candidates := a.candidates + [p])
  }

  /** Files in order until the budget refuses one or, failing fast, one cannot be read. */
  function OfferAll(env: Env, a: Acceptance, files: seq<Path>, stored: map<Path, Hash>, clock: Clock,
      failFast: bool): Acceptance
    requires forall p :: p in files ==> p in env.tree
    decreases |files|
  {
    if files == [] || a.Over() then a
    else OfferAll(env, OfferNext(env, a, files[0], stored, clock, failFast), files[1..], stored, clock, failFast)
  }

  /** What acceptance keeps; with nothing stored it passes over a file only with an error or a report. */
  ghost predicate Offering(env: Env, t: TrackerState, stored: map<Path, Hash>, seen: seq<Path>, a: Acceptance) {
    && Consistent(a.tracker) && t.reports <= a.tracker.reports && a.tracker.limits == t.limits
    && (HasBlocked(a.tracker) ==> HasBlocked(t))
    && (forall p :: p in a.candidates ==> p in seen && p in env.tree && env.tree[p].statOk && env.tree[p].hashOk)
    && (a.failed ==> a.errors > 0)
    && (stored == map[] ==> a.same == 0)
    && (stored == map[] && a.tracker.reports == [] && a.errors == 0 ==> a.candidates == seen)
    && (a.errors > 0 ==> exists p :: p in seen && p in env.tree && (!env.tree[p].statOk || !env.tree[p].hashOk))
  }

  lemma OfferNextIsSound(env: Env, t: TrackerState, stored: map<Path, Hash>, seen: seq<Path>, a: Acceptance, p: Path,
                         clock: Clock, failFast: bool)
    requires Offering(env, t, stored, seen, a) && !a.Over() && p in env.tree
    ensures Offering(env, t, stored, seen + [p], OfferNext(env, a, p, stored, clock, failFast))
  {
    OfferIsSound(env, a.tracker, p, stored, clock(0, a.tick));
    assert p in seen + [p];
  }

  lemma OfferingOver(env: Env, t: TrackerState, stored: map<Path, Hash>, seen: seq<Path>, more: seq<Path>,
      a: Acceptance)
    requires Offering(env, t, stored, seen, a) && (more == [] || (a.Over() && (a.stopped ==> a.tracker.reports != [])))
    ensures Offering(env, t, stored, seen + more, a)
  {
    if more == [] { assert seen + more == seen; }
  }

  lemma {:induction false} OfferAllIsSound(env: Env, t: TrackerState, stored: map<Path, Hash>, seen: seq<Path>,
      a: Acceptance, files: seq<Path>, clock: Clock, failFast: bool)
    requires Offering(env, t, stored, seen, a) && (a.stopped ==> a.tracker.reports != [])
    requires forall p :: p in files ==> p in env.tree
    ensures Offering(env, t, stored, seen + files, OfferAll(env, a, files, stored, clock, failFast))
    decreases |files|
  {
    if files == [] || a.Over() {
      OfferingOver(env, t, stored, seen, files, a);
    } else {
      OfferNextIsSound(env, t, stored, seen, a, files[0], clock, failFast);
      OfferIsSound(env, a.tracker, files[0], stored, clock(0, a.tick));
      OfferAllIsSound(env, t, stored, seen + [files[0]], OfferNext(env, a, files[0], stored, clock, failFast),
        files[1..], clock, failFast);
      assert seen + [files[0]] + files[1..] == seen + files;
    }
  }

  /** Without interference the candidates are exactly the longest prefix the limits admit. */
  lemma {:induction false} CandidatesArePrefix(env: Env, a: Acceptance, files: seq<Path>, clock: Clock, failFast: bool)
    requires Undisturbed(env, files, a.tracker.limits, clock) && !a.Over()
    ensures OfferAll(env, a, files, map[], clock, failFast).candidates ==
            a.candidates + files[..AcceptPrefix(a.tracker, Sizes(env, files))]
    decreases |files|
  {
    if files != [] {
      var p, rest := files[0], files[1..];
      var (t, d) := OnAccept(a.tracker, env.tree[p].bytes);
      var next := OfferNext(env, a, p, map[], clock, failFast);
      NextIsAcceptance(env, a, p, clock, failFast);
      PrefixCons(a.tracker, env.tree[p].bytes, Sizes(env, rest));
      assert Sizes(env, files) == [env.tree[p].bytes] + Sizes(env, rest);
      if d.Degraded? {
        assert OfferAll(env, next, rest, map[], clock, failFast) == next;
      } else {
        CandidatesArePrefix(env, next, rest, clock, failFast);
        PrefixJoins(a.candidates, files, AcceptPrefix(t, Sizes(env, rest)));
      }
    }
  }

  lemma PrefixJoins(front: seq<Path>, files: seq<Path>, k: nat)
    requires k < |files|
    ensures front + [files[0]] + files[1..][..k] == front + files[..k + 1]
  {}

  lemma NextIsAcceptance(env: Env, a: Acceptance, p: Path, clock: Clock, failFast: bool)
    requires p in env.tree && clock(0, a.tick) <= a.tracker.limits.maxWallTimeMs && env.tree[p].statOk
             && env.tree[p].hashOk
    ensures var (t, d) := OnAccept(a.tracker, env.tree[p].bytes);
            var next := a.(tick := a.tick + 1, tracker := t);
            OfferNext(env, a, p, map[], clock, failFast) ==
            if d.Degraded? then next.(stopped := true) else next.(candidates := a.candidates + [p])
  {
    OfferIsAcceptance(env, a.tracker, p, clock(0, a.tick));
  }

  lemma PrefixCons(t: TrackerState, bytes: u64, rest: seq<u64>)
    ensures var (t', d) := OnAccept(t, bytes);
            && t'.limits == t.limits
            && AcceptPrefix(t, [bytes] + rest) == if d.Degraded? then 0 else 1 + AcceptPrefix(t', rest)
  {
    assert ([bytes] + rest)[1..] == rest;
  }

  /** Accept files in order until the budget refuses one; files already stored with the same hash are skipped. */
  method AcceptCandidates(tracker: BuildBudgetTracker, env: Env, files: seq<Path>, stored: map<Path, Hash>,
      clock: Clock, failFast: bool)
    returns (a: Acceptance)
    requires forall p :: p in files ==> p in env.tree
    modifies tracker, tracker.manager
    ensures a == OfferAll(env, NoneOffered(old(tracker.View())), files, stored, clock, failFast)
    ensures tracker.View() == a.tracker
    ensures stored == map[] && Undisturbed(env, files, tracker.limits, clock) ==>
              a.candidates == files[..AcceptPrefix(old(tracker.View()), Sizes(env, files))]
  {
    a := NoneOffered(tracker.View());
    ghost var start := a;
    assert files[0..] == files;
    var i := 0;
    while i < |files| && !a.Over()
      invariant 0 <= i <= |files| && tracker.View() == a.tracker
      invariant OfferAll(env, a, files[i..], stored, clock, failFast) ==
                OfferAll(env, start, files, stored, clock, failFast)
    {
      DropCons(files, i);
      a := OfferOne(tracker, env, a, files[i], stored, clock, failFast);
      i := i + 1;
    }
    if Undisturbed(env, files, start.tracker.limits, clock) {
      CandidatesArePrefix(env, start, files, clock, failFast);
    }
  }

  method OfferOne(tracker: BuildBudgetTracker, env: Env, a: Acceptance, p: Path, stored: map<Path, Hash>, clock: Clock,
                  failFast: bool)
    returns (next: Acceptance)
    requires p in env.tree && tracker.View() == a.tracker
    modifies tracker, tracker.manager
    ensures next == OfferNext(env, a, p, stored, clock, failFast) && tracker.View() == next.tracker
  {
    var o := OfferFile(tracker, env, p, stored, clock(0, a.tick));
    next := a.(tick := a.tick + 1, tracker := tracker.View());
    match o
    case Stopped => next := next.(stopped := true);
    case Unreadable => next := next.(errors := a.errors + 1, failed := failFast);
    case AlreadyStored => next := next.(same := a.same + 1);
    case Accepted => next := next.(candidates := a.candidates + [p]);
  }

  // ---------------------------------------------------------------- parse and write

  datatype Phase = Running | Halted | Failed

  /** How far the parse-and-write loop has come. */
  datatype Progress = Progress(
    next: nat, round: nat, phase: Phase, parsed: seq<Path>, unsupported: nat, errors: nat, chunkFailures: nat,
    tracker: TrackerState)

  function NothingParsedYet(t: TrackerState): Progress {
    Progress(0, 0, Running, [], 0, 0, 0, t)
  }

  /** Progress after one more batch; a batch that fails fast is not written. */
  function Advance(pr: Progress, end: nat, b: Batch, chunkFailed: bool): Progress {
    if b.failed then pr.(phase := Failed, errors := pr.errors + b.errors, tracker := b.tracker)
    else Progress(end, pr.round + 1, if b.blocked then Halted else Running, pr.parsed + b.parsed,
                  pr.unsupported + b.unsupported, pr.errors + b.errors, pr.chunkFailures + if chunkFailed then 1 else 0,
                  b.tracker)
  }

  function NextEnd(candidates: seq<Path>, next: nat, batchSize: nat): (end: nat)
    requires next < |candidates| && batchSize > 0
    ensures next < end <= |candidates|
  {
    if next + batchSize < |candidates| then next + batchSize else |candidates|
  }

  function OneRound(env: Env, pr: Progress, candidates: seq<Path>, opts: Options, faults: Faults): Progress
    requires opts.batchSize > 0 && pr.next < |candidates|
  {
    var (t, d) := OnTime(pr.tracker, faults.clock(1, pr.round));
    if d.Degraded? then pr.(phase := Halted, tracker := t)
    else
      var end := NextEnd(candidates, pr.next, opts.batchSize);
      var b := ParseFiles(env, NoFiles(t, pr.next), candidates[pr.next..end], opts.failFast, false);
      Advance(pr, end, b, !opts.dryRun && b.parsed != [] && faults.chunkFails(pr.round))
  }

  /** Batch by batch, checking the clock before each, until the budget halts or a failure aborts the loop. */
  function AllRounds(env: Env, pr: Progress, candidates: seq<Path>, opts: Options, faults: Faults): Progress
    requires opts.batchSize > 0
    decreases pr.phase.Running?, |candidates| - pr.next
  {
    if pr.next >= |candidates| || !pr.phase.Running? then pr
    else AllRounds(env, OneRound(env, pr, candidates, opts, faults), candidates, opts, faults)
  }

  /** What the loop keeps; it misses a candidate only with an error or a report. */
  ghost predicate Progressing(env: Env, t: TrackerState, candidates: seq<Path>, pr: Progress) {
    && pr.next <= |candidates|
    && Consistent(pr.tracker) && t.reports <= pr.tracker.reports
    && (forall p :: p in pr.parsed ==> p in candidates && Readable(env, p) && env.supports(p))
    && (pr.errors == 0 ==> !pr.phase.Failed? && (HasBlocked(pr.tracker) ==> HasBlocked(t)))
    && (pr.tracker.reports == [] && pr.errors == 0 ==>
          pr.phase.Running? && forall p :: p in candidates[..pr.next] && env.supports(p) ==> p in pr.parsed)
    && (pr.errors > 0 ==> exists p :: p in candidates && !Readable(env, p))
  }

  lemma AdvanceIsSound(env: Env, t: TrackerState, candidates: seq<Path>, pr: Progress, end: nat, b: Batch,
      chunkFailed: bool)
    requires Progressing(env, t, candidates, pr) && pr.phase.Running? && pr.next <= end <= |candidates|
    requires Parsing(env, pr.tracker, candidates[pr.next..end], false, b)
    ensures Progressing(env, t, candidates, Advance(pr, end, b, chunkFailed))
  {
    assert candidates[..end] == candidates[..pr.next] + candidates[pr.next..end];
  }

  lemma RoundIsSound(env: Env, t: TrackerState, pr: Progress, candidates: seq<Path>, opts: Options, faults: Faults)
    requires opts.batchSize > 0 && pr.next < |candidates| && pr.phase.Running? && Progressing(env, t, candidates, pr)
    ensures Progressing(env, t, candidates, OneRound(env, pr, candidates, opts, faults))
  {
    TimeIsSound(pr.tracker, faults.clock(1, pr.round));
    var end := NextEnd(candidates, pr.next, opts.batchSize);
    var batch := candidates[pr.next..end];
    var b := ParseFiles(env, NoFiles(pr.tracker, pr.next), batch, opts.failFast, false);
    NothingParsed(env, pr.tracker, pr.next, false);
    ParseFilesIsSound(env, pr.tracker, [], NoFiles(pr.tracker, pr.next), batch, opts.failFast, false);
    assert [] + batch == batch;
    AdvanceIsSound(env, t, candidates, pr, end, b, !opts.dryRun && b.parsed != [] && faults.chunkFails(pr.round));
  }

  lemma {:induction false} RoundsAreSound(env: Env, t: TrackerState, pr: Progress, candidates: seq<Path>, opts: Options,
                                          faults: Faults)
    requires opts.batchSize > 0 && Progressing(env, t, candidates, pr)
    ensures Progressing(env, t, candidates, AllRounds(env, pr, candidates, opts, faults))
    ensures AllRounds(env, pr, candidates, opts, faults).phase.Running? ==>
              AllRounds(env, pr, candidates, opts, faults).next == |candidates|
    decreases pr.phase.Running?, |candidates| - pr.next
  {
    if pr.next < |candidates| && pr.phase.Running? {
      RoundIsSound(env, t, pr, candidates, opts, faults);
      RoundsAreSound(env, t, OneRound(env, pr, candidates, opts, faults), candidates, opts, faults);
    }
  }

  /** Persist one more batch on top of those already written. */
  method AppendBatch(store: Store, env: Env, parsed: seq<Path>, more: seq<Path>, dryRun: bool, ghost base: Rows)
    requires ToSet(parsed) <= env.tree.Keys && ToSet(more) <= env.tree.Keys
    requires store.rows == if dryRun then base else Written(env, base, ToSet(parsed))
    modifies store`rows
    ensures store.rows == if dryRun then base else Written(env, base, ToSet(parsed + more))
  {
    assert ToSet(parsed + more) == ToSet(parsed) + ToSet(more);
    if !dryRun {
      WriteBatch(store, env, more);
      WrittenTwice(env, base, ToSet(parsed), ToSet(more));
    }
  }

  /** One batch: check the clock, parse, persist. */
  method ParseRound(store: Store, tracker: BuildBudgetTracker, env: Env, candidates: seq<Path>, opts: Options,
                    faults: Faults, pr: Progress, ghost t: TrackerState, ghost base: Rows)
    returns (after: Progress)
    requires opts.batchSize > 0 && pr.next < |candidates| && pr.phase.Running?
    requires tracker.View() == pr.tracker && Progressing(env, t, candidates, pr)
    requires store.rows == if opts.dryRun then base else Written(env, base, ToSet(pr.parsed))
    modifies store`rows, tracker, tracker.manager
    ensures after == OneRound(env, pr, candidates, opts, faults) && tracker.View() == after.tracker
    ensures Progressing(env, t, candidates, after) && ToSet(after.parsed) <= env.tree.Keys
    ensures store.rows == if opts.dryRun then base else Written(env, base, ToSet(after.parsed))
  {
    RoundIsSound(env, t, pr, candidates, opts, faults);
    var d := tracker.MaybeStopForTime(faults.clock(1, pr.round));
    if d.Degraded? {
      return pr.(phase := Halted, tracker := tracker.View());
    }
    var end := NextEnd(candidates, pr.next, opts.batchSize);
    var b := ParseBatch(tracker, env, NoFiles(tracker.View(), pr.next), candidates[pr.next..end], opts.failFast, false);
    after := Advance(pr, end, b, !opts.dryRun && b.parsed != [] && faults.chunkFails(pr.round));
    if !b.failed {
      assert forall p :: p in b.parsed ==> p in after.parsed;
      AppendBatch(store, env, pr.parsed, b.parsed, opts.dryRun, base);
    }
  }

  /** Parse candidates batch by batch and persist each batch before the next one starts. */
  method ParseAndWrite(store: Store, tracker: BuildBudgetTracker, env: Env, candidates: seq<Path>, opts: Options,
      faults: Faults)
    returns (pr: Progress)
    requires opts.batchSize > 0 && Consistent(tracker.View())
    modifies store`rows, tracker, tracker.manager
    ensures pr == AllRounds(env, NothingParsedYet(old(tracker.View())), candidates, opts, faults)
    ensures tracker.View() == pr.tracker && ToSet(pr.parsed) <= env.tree.Keys
    ensures store.rows == if opts.dryRun then old(store.rows) else Written(env, old(store.rows), ToSet(pr.parsed))
  {
    pr := NothingParsedYet(tracker.View());
    ghost var t, start := tracker.View(), pr;
    assert Written(env, store.rows, {}) == store.rows;
    while pr.next < |candidates| && pr.phase.Running?
      invariant tracker.View() == pr.tracker && Progressing(env, t, candidates, pr) && ToSet(pr.parsed) <= env.tree.Keys
      invariant store.rows == if opts.dryRun then old(store.rows) else Written(env, old(store.rows), ToSet(pr.parsed))
      invariant AllRounds(env, pr, candidates, opts, faults) == AllRounds(env, start, candidates, opts, faults)
      decreases pr.phase.Running?, |candidates| - pr.next
    {
      pr := ParseRound(store, tracker, env, candidates, opts, faults, pr, t, old(store.rows));
    }
  }

  // ---------------------------------------------------------------- what a build leaves

  /** Everything a build leaves in the table: other repositories, the parsed files, the owner graphs. */
  function Built(env: Env, rows: Rows, parsed: set<Path>): Rows
    requires parsed <= env.tree.Keys
  {
    Refreshed(env, Written(env, Cleared(env, rows), parsed))
  }

  function Cleared(env: Env, rows: Rows): Rows {
    rows - KeysOf(env.repo, PathsOf(rows, env.repo))
  }

  lemma BuiltInventory(env: Env, rows: Rows, parsed: set<Path>)
    requires EnvOk(env) && parsed <= env.tree.Keys
    requires forall p :: p in parsed ==> Indexed(env, p)
    ensures Inventory(Built(env, rows, parsed), env.repo) == map p | p in parsed :: env.tree[p].hash
    ensures OtherReposUnchanged(rows, Built(env, rows, parsed), env.repo)
    ensures (forall p :: Indexed(env, p) ==> p in parsed) ==>
              Inventory(Built(env, rows, parsed), env.repo) == FullBuild(env)
  {
    var written := Written(env, Cleared(env, rows), parsed);
    WrittenInventory(env, rows, parsed);
    RefreshKeepsInventory(env, written);
    UnchangedOn(rows, written, Refreshed(env, written), env.repo);
    if forall p :: Indexed(env, p) ==> p in parsed { AllParsedIsFull(env, parsed); }
  }

  lemma UnchangedOn(a: Rows, b: Rows, c: Rows, repo: Repo)
    requires OtherReposUnchanged(a, b, repo) && OtherReposUnchanged(b, c, repo)
    ensures OtherReposUnchanged(a, c, repo)
  {}

  lemma AllParsedIsFull(env: Env, parsed: set<Path>)
    requires parsed <= env.tree.Keys && forall p :: Indexed(env, p) <==> p in parsed
    ensures (map p | p in parsed :: env.tree[p].hash) == FullBuild(env)
  {
    forall p ensures p in parsed <==> p in FullBuild(env) {}
  }

  lemma WrittenAt(env: Env, rows: Rows, parsed: set<Path>, k: Key)
    requires parsed <= env.tree.Keys
    ensures var written := Written(env, Cleared(env, rows), parsed);
            && (k.0 == env.repo ==>
                  && (k in written <==> k.1 in parsed)
                  && (k.1 in parsed ==> written[k].hash == env.tree[k.1].hash))
            && (k.0 != env.repo ==> (k in written <==> k in rows) && (k in rows ==> written[k] == rows[k]))
  {}

  lemma WrittenInventory(env: Env, rows: Rows, parsed: set<Path>)
    requires parsed <= env.tree.Keys && forall p :: p in parsed ==> !IsSynthetic(p)
    ensures Inventory(Written(env, Cleared(env, rows), parsed), env.repo) == map p | p in parsed :: env.tree[p].hash
    ensures OtherReposUnchanged(rows, Written(env, Cleared(env, rows), parsed), env.repo)
  {
    var written := Written(env, Cleared(env, rows), parsed);
    forall p
      ensures p in Inventory(written, env.repo) <==> p in parsed
      ensures p in parsed && p in Inventory(written, env.repo) ==> Inventory(written, env.repo)[p] == env.tree[p].hash
    {
      InventoryAt(written, env.repo, p);
      WrittenAt(env, rows, parsed, (env.repo, p));
    }
    forall k: Key | k.0 != env.repo ensures (k in written <==> k in rows) && (k in rows ==> written[k] == rows[k]) {
      WrittenAt(env, rows, parsed, k);
    }
  }

  // ---------------------------------------------------------------- a whole build

  /** How far a build got: the scan, the acceptance loop, the parse-and-write loop. */
  datatype BuildRun = BuildRun(scanned: nat, unsupported: nat, accepted: Acceptance, progress: Progress)
  {
    predicate Failed() {
      accepted.failed || progress.phase.Failed?
    }

    function Errors(): nat {
      accepted.errors + progress.errors
    }

    function Parsed(): set<Path> {
      ToSet(progress.parsed)
    }
  }

  /** The tracker once the scan is reported. */
  function Scanned(env: Env, listing: seq<Path>, limits: Limits): TrackerState {
    OnScanSkips(Step(Start(limits), SetDiscovered(|Scan(env, listing, limits.maxFileBytes)|)).0,
                |LargeFiles(env, listing, limits.maxFileBytes)|)
  }

  /** Scan and acceptance of a build. */
  function AcceptFrom(env: Env, listing: seq<Path>, stored: map<Path, Hash>, opts: Options, clock: Clock): Acceptance {
    ScanMembers(env, listing, opts.limits.maxFileBytes);
    OfferAll(env, NoneOffered(Scanned(env, listing, opts.limits)), Scan(env, listing, opts.limits.maxFileBytes), stored,
             clock, opts.failFast)
  }

  /** The rest of a build, from what was accepted. */
  function RunFrom(env: Env, found: Found, a: Acceptance, opts: Options, faults: Faults): BuildRun
    requires opts.batchSize > 0
  {
    var start := NothingParsedYet(a.tracker);
    BuildRun(|found.files| + found.unsupported + found.overSize, found.unsupported, a,
             if a.failed then start else AllRounds(env, start, a.candidates, opts, faults))
  }

  function RecordBuild(env: Env, listing: seq<Path>, stored: map<Path, Hash>, opts: Options, faults: Faults): BuildRun
    requires opts.batchSize > 0
  {
    RunFrom(env, FoundIn(env, listing, opts.limits.maxFileBytes), AcceptFrom(env, listing, stored, opts, faults.clock),
      opts, faults)
  }

  /** Every file a full build would index can be hashed. */
  ghost predicate AllHashable(env: Env) {
    forall p :: Indexed(env, p) ==> env.tree[p].hashOk
  }

  lemma ScannedIsSound(env: Env, listing: seq<Path>, limits: Limits)
    ensures var t := Scanned(env, listing, limits);
            && Consistent(t) && !HasBlocked(t) && t.limits == limits
            && (t.reports == [] ==> forall p :: p in listing ==> !OverSize(env, p, limits.maxFileBytes))
  {
    var first := Step(Start(limits), SetDiscovered(|Scan(env, listing, limits.maxFileBytes)|)).0;
    var large := LargeFiles(env, listing, limits.maxFileBytes);
    StepKeepsConsistent(first, ScanSkips(|large|));
    forall p | p in listing && OverSize(env, p, limits.maxFileBytes) ensures |large| > 0 { assert p in large; }
  }

  lemma NothingOffered(env: Env, t: TrackerState, stored: map<Path, Hash>)
    requires Consistent(t)
    ensures Offering(env, t, stored, [], NoneOffered(t))
  {}

  lemma NoProgress(env: Env, t: TrackerState, candidates: seq<Path>)
    requires Consistent(t)
    ensures Progressing(env, t, candidates, NothingParsedYet(t))
  {}

  /** What a build has reached, from its two loops. */
  ghost predicate Reached(env: Env, files: seq<Path>, stored: map<Path, Hash>, r: BuildRun) {
    && Consistent(r.progress.tracker)
    && (forall p :: p in r.progress.parsed ==> p in files && Readable(env, p))
    && (r.Errors() == 0 ==> !r.Failed() && !HasBlocked(r.progress.tracker))
    && (r.Errors() > 0 ==> exists p :: p in files && !Accessible(env, p))
    && (stored == map[] ==> r.accepted.same == 0)
    && (stored == map[] && r.progress.tracker.reports == [] && r.Errors() == 0 ==>
          forall p :: p in files && env.supports(p) ==> p in r.progress.parsed)
  }

  lemma LoopsReach(env: Env, t: TrackerState, files: seq<Path>, stored: map<Path, Hash>, r: BuildRun)
    requires !HasBlocked(t) && Offering(env, t, stored, files, r.accepted)
    requires Progressing(env, r.accepted.tracker, r.accepted.candidates, r.progress)
    requires r.accepted.failed || (r.progress.phase.Running? ==> r.progress.next == |r.accepted.candidates|)
    ensures Reached(env, files, stored, r)
  {
    if r.progress.phase.Running? && !r.accepted.failed {
      assert r.accepted.candidates[..r.progress.next] == r.accepted.candidates;
    }
  }

  lemma AcceptedIsSound(env: Env, listing: seq<Path>, stored: map<Path, Hash>, opts: Options, clock: Clock)
    ensures Offering(env, Scanned(env, listing, opts.limits), stored, Scan(env, listing, opts.limits.maxFileBytes),
                     AcceptFrom(env, listing, stored, opts, clock))
    ensures Consistent(AcceptFrom(env, listing, stored, opts, clock).tracker)
  {
    var files, t := Scan(env, listing, opts.limits.maxFileBytes), Scanned(env, listing, opts.limits);
    ScanMembers(env, listing, opts.limits.maxFileBytes);
    ScannedIsSound(env, listing, opts.limits);
    NothingOffered(env, t, stored);
    OfferAllIsSound(env, t, stored, [], NoneOffered(t), files, clock, opts.failFast);
    assert [] + files == files;
  }

  lemma RecordReaches(env: Env, listing: seq<Path>, stored: map<Path, Hash>, opts: Options, faults: Faults)
    requires opts.batchSize > 0
    ensures var r := RecordBuild(env, listing, stored, opts, faults);
            && Reached(env, Scan(env, listing, opts.limits.maxFileBytes), stored, r)
            && Scanned(env, listing, opts.limits).reports <= r.progress.tracker.reports
  {
    var r := RecordBuild(env, listing, stored, opts, faults);
    ScannedIsSound(env, listing, opts.limits);
    AcceptedIsSound(env, listing, stored, opts, faults.clock);
    NoProgress(env, r.accepted.tracker, r.accepted.candidates);
    if !r.accepted.failed {
      RoundsAreSound(env, r.accepted.tracker, NothingParsedYet(r.accepted.tracker), r.accepted.candidates, opts,
        faults);
    }
    LoopsReach(env, Scanned(env, listing, opts.limits), Scan(env, listing, opts.limits.maxFileBytes), stored, r);
  }

  /** A build parses only indexable listed files; without reports or errors it parses them all. */
  lemma RecordIsSound(env: Env, listing: seq<Path>, stored: map<Path, Hash>, opts: Options, faults: Faults)
    requires opts.batchSize > 0
    ensures var r := RecordBuild(env, listing, stored, opts, faults);
            && Consistent(r.progress.tracker)
            && (forall p :: p in r.progress.parsed ==> p in listing && Indexed(env, p) && env.tree[p].hashOk)
            && (r.Errors() == 0 ==> !r.Failed() && !HasBlocked(r.progress.tracker))
            && (AllHashable(env) ==> r.Errors() == 0)
            && (stored == map[] ==> r.accepted.same == 0)
            && (stored == map[] && r.progress.tracker.reports == [] && r.Errors() == 0 ==>
                  forall p :: p in listing && Indexed(env, p) ==> p in r.progress.parsed)
  {
    RecordReaches(env, listing, stored, opts, faults);
    ScanMembers(env, listing, opts.limits.maxFileBytes);
    ScannedIsSound(env, listing, opts.limits);
  }

  /**
   A build whose report is not partial, so that only failures of collaborators could hold the ref back, indexed every
   file IF AND ONLY IF every file it should index can be hashed.
   */
  lemma UnflaggedBuildIsCompleteIff(env: Env, listing: seq<Path>, opts: Options, faults: Faults, report: Report)
    requires opts.batchSize > 0 && env.tree.Keys <= ToSet(listing)
    requires IsSummary(RecordBuild(env, listing, map[], opts, faults).progress.tracker, report) && !report.partial
    ensures (forall p :: Indexed(env, p) ==> p in RecordBuild(env, listing, map[], opts, faults).Parsed()) <==>
            AllHashable(env)
  {
    var r := RecordBuild(env, listing, map[], opts, faults);
    RecordIsSound(env, listing, map[], opts, faults);
    if AllHashable(env) {
      SummaryClassifies(r.progress.tracker, report);
    } else {
      var p :| Indexed(env, p) && !env.tree[p].hashOk;
      assert p !in r.Parsed();
    }
  }

  // ---------------------------------------------------------------- the code

  /** The summary of a build, from its record and the failures of collaborators. */
  ghost predicate IsSummaryOf(s: Summary, r: BuildRun, opts: Options, faults: Faults) {
    && s.scanned == r.scanned && s.skippedUnsupported == r.unsupported + r.progress.unsupported
    && s.skippedUnchanged == r.accepted.same && s.parsed == |r.progress.parsed| && s.parseErrors == r.Errors()
    && s.chunkUpsertFailures == r.progress.chunkFailures
    && s.reconcileFailures == (if s.parsed > 0 && !opts.dryRun && faults.reconcileFails then 1 else 0)
    && s.counters == r.progress.tracker.counters && IsSummary(r.progress.tracker, s.budget)
  }

  function StoredHashes(rows: Rows, repo: Repo): map<Path, Hash> {
    map p | p in PathsOf(rows, repo) :: rows[(repo, p)].hash
  }

  /** Scan and accept within the budget, from a fresh tracker. */
  method PlanBuild(tracker: BuildBudgetTracker, env: Env, listing: seq<Path>, stored: map<Path, Hash>, opts: Options,
                   clock: Clock)
    returns (a: Acceptance, found: Found)
    requires tracker.View() == Start(opts.limits)
    modifies tracker, tracker.manager
    ensures a == AcceptFrom(env, listing, stored, opts, clock)
            && found == FoundIn(env, listing, opts.limits.maxFileBytes)
    ensures tracker.View() == a.tracker && Consistent(a.tracker)
  {
    found := CollectSupportedFiles(env, listing, opts.limits.maxFileBytes);
    ScanMembers(env, listing, opts.limits.maxFileBytes);
    tracker.SetFilesDiscovered(|found.files|);
    tracker.NoteScannedFileByteSkips(found.overSize);
    a := AcceptCandidates(tracker, env, found.files, stored, clock, opts.failFast);
    AcceptedIsSound(env, listing, stored, opts, clock);
  }

  /** Forget this repository unless it is a dry run, then read the stored hashes. */
  method ClearThenRead(store: Store, env: Env, dryRun: bool) returns (stored: map<Path, Hash>)
    modifies store`rows
    ensures store.rows == if dryRun then old(store.rows) else Cleared(env, old(store.rows))
    ensures stored == if dryRun then StoredHashes(old(store.rows), env.repo) else map[]
  {
    if !dryRun {
      store.DeleteAll(env.repo, PathsOf(store.rows, env.repo));
      ClearedIsEmpty(env, old(store.rows));
    }
    stored := StoredHashes(store.rows, env.repo);
  }

  lemma ClearedIsEmpty(env: Env, rows: Rows)
    ensures PathsOf(Cleared(env, rows), env.repo) == {}
  {}

  /** Everything up to the owner graphs: clear, scan, accept, parse and write. */
  method ScanAndWrite(store: Store, tracker: BuildBudgetTracker, env: Env, listing: seq<Path>, opts: Options,
      faults: Faults)
    returns (run: BuildRun)
    requires opts.batchSize > 0 && tracker.View() == Start(opts.limits)
    modifies store`rows, tracker, tracker.manager
    ensures run == RecordBuild(env, listing,
              if opts.dryRun then StoredHashes(old(store.rows), env.repo) else map[], opts, faults)
    ensures tracker.View() == run.progress.tracker && run.Parsed() <= env.tree.Keys
    ensures store.rows == if opts.dryRun then old(store.rows)
            else Written(env, Cleared(env, old(store.rows)), run.Parsed())
  {
    var stored := ClearThenRead(store, env, opts.dryRun);
    var a, found := PlanBuild(tracker, env, listing, stored, opts, faults.clock);
    run := BuildRun(|found.files| + found.unsupported + found.overSize, found.unsupported, a,
      NothingParsedYet(a.tracker));
    assert run.Parsed() == {};
    assert Written(env, store.rows, {}) == store.rows;
    if !a.failed {
      var pr := ParseAndWrite(store, tracker, env, a.candidates, opts, faults);
      run := run.(progress := pr);
    }
  }

  /** Owner graphs and the report. */
  method RefreshAndReport(store: Store, tracker: BuildBudgetTracker, env: Env, run: BuildRun, opts: Options,
      faults: Faults)
    returns (summary: Summary)
    requires tracker.View() == run.progress.tracker
    modifies store`rows
    ensures IsSummaryOf(summary, run, opts, faults)
    ensures store.rows == if opts.dryRun then old(store.rows) else Refreshed(env, old(store.rows))
  {
    if !opts.dryRun {
      RefreshOwnerGraphs(store, env);
    }
    var reconcileFailures := if run.progress.parsed != [] && !opts.dryRun && faults.reconcileFails then 1 else 0;
    var counters, report := tracker.Finish();
    summary := Summary(run.scanned, run.unsupported + run.progress.unsupported, run.accepted.same,
      |run.progress.parsed|, run.Errors(), run.progress.chunkFailures, reconcileFailures, counters, report);
  }

  /**
   A full build forgets the past: it is its record, which does not depend on what the store held, and the table holds
   exactly the files it parsed, at their current hashes, besides other repositories' rows and the owner graphs. The ref
   moves unless the summary is degraded.
   */
  method RunBuild(store: Store, env: Env, listing: seq<Path>, opts: Options, faults: Faults)
    returns (result: Result<Summary>, run: BuildRun)
    requires opts.batchSize > 0
    modifies store
    ensures run == RecordBuild(env, listing,
              if opts.dryRun then StoredHashes(old(store.rows), env.repo) else map[], opts, faults)
    ensures run.Parsed() <= env.tree.Keys && (result.Err? <==> run.Failed())
    ensures result.Ok? ==> IsSummaryOf(result.value, run, opts, faults)
    ensures opts.dryRun ==> store.rows == old(store.rows)
    ensures !opts.dryRun && result.Err? ==> store.rows == Written(env, Cleared(env, old(store.rows)), run.Parsed())
    ensures !opts.dryRun && result.Ok? ==> store.rows == Built(env, old(store.rows), run.Parsed())
    ensures store.refs == if result.Ok? && !opts.dryRun && !result.value.IsDegraded() && env.head.Some?
                          then old(store.refs)[env.repo := env.head.value] else old(store.refs)
  {
    var tracker := new BuildBudgetTracker(opts.limits);
    run := ScanAndWrite(store, tracker, env, listing, opts, faults);
    if run.Failed() {
      return Err("fail-fast"), run;
    }
    var summary := RefreshAndReport(store, tracker, env, run, opts, faults);
    if !opts.dryRun && !summary.IsDegraded() && env.head.Some? {
      store.refs := store.refs[env.repo := env.head.value];
    }
    result := Ok(summary);
  }

  /** What a summary says about the inventory its build left. */
  lemma BuildLeaves(env: Env, rows: Rows, listing: seq<Path>, opts: Options, faults: Faults, s: Summary)
    requires EnvOk(env) && opts.batchSize > 0 && !opts.dryRun
    requires IsSummaryOf(s, RecordBuild(env, listing, map[], opts, faults), opts, faults)
    ensures var r := RecordBuild(env, listing, map[], opts, faults);
            && r.Parsed() <= env.tree.Keys && s.skippedUnchanged == 0
            && Inventory(Built(env, rows, r.Parsed()), env.repo) == (map p | p in r.Parsed() :: env.tree[p].hash)
            && OtherReposUnchanged(rows, Built(env, rows, r.Parsed()), env.repo)
            && (env.tree.Keys <= ToSet(listing) && s.IsClean() ==>
                  Inventory(Built(env, rows, r.Parsed()), env.repo) == FullBuild(env))
            && (env.tree.Keys <= ToSet(listing) && !s.IsDegraded() ==>
                  (Inventory(Built(env, rows, r.Parsed()), env.repo) == FullBuild(env) <==> AllHashable(env)))
  {
    var r := RecordBuild(env, listing, map[], opts, faults);
    RecordIsSound(env, listing, map[], opts, faults);
    SummaryClassifies(r.progress.tracker, s.budget);
    BuiltInventory(env, rows, r.Parsed());
    BuiltFullIff(env, rows, r.Parsed());
    if env.tree.Keys <= ToSet(listing) && !s.IsDegraded() {
      UnflaggedBuildIsCompleteIff(env, listing, opts, faults, s.budget);
    }
  }

  lemma BuiltFullIff(env: Env, rows: Rows, parsed: set<Path>)
    requires EnvOk(env) && parsed <= env.tree.Keys && forall p :: p in parsed ==> Indexed(env, p)
    ensures Inventory(Built(env, rows, parsed), env.repo) == FullBuild(env) <==>
            forall p :: Indexed(env, p) ==> p in parsed
  {
    BuiltInventory(env, rows, parsed);
    var left := Inventory(Built(env, rows, parsed), env.repo);
    if left == FullBuild(env) {
      forall p | Indexed(env, p) ensures p in parsed { assert p in FullBuild(env) && p in left; }
    }
  }

  /**
   From any store a build that is not a dry run skips nothing as already stored, leaves this repository with exactly the
   files it parsed, at their current hashes, and leaves every other repository alone. A clean build indexes exactly what
   the checkout holds; a build that is not degraded does exactly when every such file can be hashed.
   */
  method Build(store: Store, env: Env, listing: seq<Path>, opts: Options, faults: Faults)
    returns (result: Result<Summary>, run: BuildRun)
    requires EnvOk(env) && opts.batchSize > 0
    modifies store
    ensures run == RecordBuild(env, listing,
              if opts.dryRun then StoredHashes(old(store.rows), env.repo) else map[], opts, faults)
    ensures run.Parsed() <= env.tree.Keys && (result.Err? <==> run.Failed())
    ensures result.Ok? ==> IsSummaryOf(result.value, run, opts, faults)
    ensures OtherReposUnchanged(old(store.rows), store.rows, env.repo)
    ensures opts.dryRun ==> store.rows == old(store.rows)
    ensures store.refs == if result.Ok? && !opts.dryRun && !result.value.budget.partial
                             && result.value.chunkUpsertFailures == 0 && result.value.reconcileFailures == 0
                             && env.head.Some?
                          then old(store.refs)[env.repo := env.head.value] else old(store.refs)
    ensures result.Ok? && !opts.dryRun ==>
              var s := result.value;
              && s.skippedUnchanged == 0 && store.rows == Built(env, old(store.rows), run.Parsed())
              && Inventory(store.rows, env.repo) == (map p | p in run.Parsed() :: env.tree[p].hash)
              && (env.tree.Keys <= ToSet(listing) && s.IsClean() ==> Inventory(store.rows, env.repo) == FullBuild(env))
              && (env.tree.Keys <= ToSet(listing) && !s.IsDegraded() ==>
                    (Inventory(store.rows, env.repo) == FullBuild(env) <==> AllHashable(env)))
  {
    result, run := RunBuild(store, env, listing, opts, faults);
    if !opts.dryRun {
      if result.Err? {
        RecordIsSound(env, listing, map[], opts, faults);
        WrittenInventory(env, old(store.rows), run.Parsed());
      } else {
        BuildLeaves(env, old(store.rows), listing, opts, faults, result.value);
      }
    }
  }
}
