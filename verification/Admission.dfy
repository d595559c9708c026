/**
 Which files a build or an update lets in, told from the files alone (packages/atlas-engine/src/build.rs and update.rs):
 the clock, the size limit, the number and the bytes of the files before, stat and hash failures.
 */
module Admission {
  import opened Wrappers
  import opened Collections
  import opened Budget
  import opened BuildBudget
  import opened GraphStore
  import opened Worktree
  import BuildGraph
  import UpdateGraph

  // ---------------------------------------------------------------- room in the budget

  function Size(env: Env, p: Path): nat {
    if p in env.tree then env.tree[p].bytes else 0
  }

  function Bytes(env: Env, ps: seq<Path>): nat {
    if ps == [] then 0 else Bytes(env, ps[..|ps| - 1]) + Size(env, ps[|ps| - 1])
  }

  lemma BytesSnoc(env: Env, ps: seq<Path>, p: Path)
    ensures Bytes(env, ps + [p]) == Bytes(env, ps) + Size(env, p)
  {
    assert (ps + [p])[..|ps|] == ps;
  }

  /** A sum of sizes as a 64-bit counter that stops at its maximum shows it. */
  function Shown(n: nat): nat {
    if n > U64_MAX then U64_MAX else n
  }

  /** After these files, there is room for one more: by number, and by bytes as the counter shows them. */
  ghost predicate HasRoom(env: Env, t: TrackerState, before: seq<Path>, p: Path) {
    && t.counters.filesAccepted + |before| < t.limits.maxFilesPerRun
    && Shown(t.counters.bytesAccepted + Bytes(env, before) + Size(env, p)) <= t.limits.maxTotalBytesPerRun
  }

  /** From tracker `t` on, exactly these files were let in. */
  ghost predicate LetIn(env: Env, t: TrackerState, files: seq<Path>, t': TrackerState) {
    && t'.limits == t.limits && t'.counters.parseFailures == t.counters.parseFailures
    && t'.counters.filesAccepted == t.counters.filesAccepted + |files|
    && t'.counters.bytesAccepted == Shown(t.counters.bytesAccepted + Bytes(env, files))
  }

  /** The budget lets a file in exactly when there is room for it. */
  lemma AcceptIsRoom(env: Env, t: TrackerState, files: seq<Path>, now: TrackerState, p: Path)
    requires LetIn(env, t, files, now) && p in env.tree
    ensures var (t', d) := OnAccept(now, env.tree[p].bytes);
            && (d == if HasRoom(env, t, files, p) then Continue else Degraded)
            && LetIn(env, t, if d == Continue then files + [p] else files, t')
  {
    BytesSnoc(env, files, p);
  }

  lemma TimeLetsNoneIn(env: Env, t: TrackerState, files: seq<Path>, now: TrackerState, elapsedMs: u64)
    requires LetIn(env, t, files, now)
    ensures LetIn(env, t, files, OnTime(now, elapsedMs).0)
    ensures OnTime(now, elapsedMs).1 == if elapsedMs > t.limits.maxWallTimeMs then Degraded else Continue
  {}

  lemma NoneLetIn(env: Env, t: TrackerState)
    ensures LetIn(env, t, [], t)
  {}

  // ---------------------------------------------------------------- the update

  predicate CanStat(env: Env, p: Path) {
    p in env.tree && env.tree[p].statOk
  }

  /** The file can be statted and is no larger than a file may be. */
  predicate IsSized(env: Env, limits: Limits, p: Path) {
    p in env.tree && env.tree[p].statOk && env.tree[p].bytes <= limits.maxFileBytes
  }

  function SizedFiles(env: Env, limits: Limits, paths: seq<Path>): seq<Path> {
    Filter((p: Path) => IsSized(env, limits, p), paths)
  }

  function LostFiles(env: Env, paths: seq<Path>): seq<Path> {
    Filter((p: Path) => !CanStat(env, p), paths)
  }

  lemma SizedSnoc(env: Env, limits: Limits, paths: seq<Path>, m: nat)
    requires m < |paths|
    ensures var sized, lost := SizedFiles(env, limits, paths[..m]), LostFiles(env, paths[..m]);
            && SizedFiles(env, limits, paths[..m + 1]) ==
               (if IsSized(env, limits, paths[m]) then sized + [paths[m]] else sized)
            && LostFiles(env, paths[..m + 1]) == (if CanStat(env, paths[m]) then lost else lost + [paths[m]])
  {
    FilterSnoc((p: Path) => IsSized(env, limits, p), paths, m);
    FilterSnoc((p: Path) => !CanStat(env, p), paths, m);
  }

  /** Every sized file among the first `m` found room; failing fast, all but the last of them can be statted. */
  ghost predicate RoomFor(env: Env, t: TrackerState, paths: seq<Path>, failFast: bool, m: nat) {
    && m <= |paths|
    && (forall i :: 0 <= i < m ==> FindsRoom(env, t, paths, i))
    && (failFast ==> forall i :: 0 <= i < m - 1 ==> CanStat(env, paths[i]))
  }

  /** These paths were looked at: the sized ones are chosen, those that cannot be statted are errors. */
  ghost predicate Chosen(env: Env, t: TrackerState, paths: seq<Path>, c: UpdateGraph.Choice) {
    && c.files == SizedFiles(env, t.limits, paths) && c.errors == |LostFiles(env, paths)|
    && LetIn(env, t, c.files, c.tracker)
  }

  /** The sized path at `m`, if it is one, finds room after those before it. */
  ghost predicate FindsRoom(env: Env, t: TrackerState, paths: seq<Path>, m: nat)
    requires m < |paths|
  {
    IsSized(env, t.limits, paths[m]) ==> HasRoom(env, t, SizedFiles(env, t.limits, paths[..m]), paths[m])
  }

  lemma ChosenMore(env: Env, t: TrackerState, paths: seq<Path>, failFast: bool, m: nat, c: UpdateGraph.Choice)
    requires m < |paths| && Chosen(env, t, paths[..m], c) && !c.Over()
    ensures var next := UpdateGraph.Choose(env, c, paths[m], failFast);
            if FindsRoom(env, t, paths, m) then
              && Chosen(env, t, paths[..m + 1], next) && !next.stopped
              && (next.failed <==> failFast && !CanStat(env, paths[m]))
            else Chosen(env, t, paths[..m], next) && next.stopped && !next.failed
  {
    var p := paths[m];
    SizedSnoc(env, t.limits, paths, m);
    if CanStat(env, p) {
      if env.tree[p].bytes > t.limits.maxFileBytes {
        SkipLetsNoneIn(env, t, c.files, c.tracker, env.tree[p].bytes);
      } else {
        AcceptIsRoom(env, t, c.files, c.tracker, p);
      }
    }
  }

  /** The first `m` paths were looked at: the sized ones are chosen, the others that cannot be statted are errors. */
  ghost predicate ChosenFrom(env: Env, t: TrackerState, paths: seq<Path>, failFast: bool, m: nat,
      c: UpdateGraph.Choice) {
    && RoomFor(env, t, paths, failFast, m)
    && Chosen(env, t, paths[..m], c)
    && (c.failed <==> failFast && m > 0 && !CanStat(env, paths[m - 1]))
    && (c.stopped ==> m < |paths| && !FindsRoom(env, t, paths, m))
  }

  lemma SkipLetsNoneIn(env: Env, t: TrackerState, files: seq<Path>, now: TrackerState, bytes: u64)
    requires LetIn(env, t, files, now)
    ensures LetIn(env, t, files, OnSkip(now, bytes))
  {}

  /** One more path: it is chosen, passed over, or refused. */
  lemma ChooseOneMore(env: Env, t: TrackerState, paths: seq<Path>, failFast: bool, m: nat, c: UpdateGraph.Choice)
    requires ChosenFrom(env, t, paths, failFast, m, c) && !c.Over() && m < |paths|
    ensures var next := UpdateGraph.Choose(env, c, paths[m], failFast);
            ChosenFrom(env, t, paths, failFast, if next.stopped then m else m + 1, next)
  {
    ChosenMore(env, t, paths, failFast, m, c);
    if FindsRoom(env, t, paths, m) { RoomForMore(env, t, paths, failFast, m); }
  }

  lemma RoomForMore(env: Env, t: TrackerState, paths: seq<Path>, failFast: bool, m: nat)
    requires RoomFor(env, t, paths, failFast, m) && m < |paths| && FindsRoom(env, t, paths, m)
    requires failFast && m > 0 ==> CanStat(env, paths[m - 1])
    ensures RoomFor(env, t, paths, failFast, m + 1)
  {}

  lemma {:induction false} ChooseRest(env: Env, t: TrackerState, paths: seq<Path>, failFast: bool, m: nat,
                                      c: UpdateGraph.Choice)
    requires ChosenFrom(env, t, paths, failFast, m, c) && !c.Over()
    ensures ChosenSomewhere(env, t, paths, failFast, UpdateGraph.ChooseAll(env, c, paths[m..], failFast))
    decreases |paths| - m
  {
    if m < |paths| {
      var next := UpdateGraph.Choose(env, c, paths[m], failFast);
      DropCons(paths, m);
      ChooseOneMore(env, t, paths, failFast, m, c);
      assert UpdateGraph.ChooseAll(env, c, paths[m..], failFast) ==
             UpdateGraph.ChooseAll(env, next, paths[m + 1..], failFast);
      if next.Over() {
        assert UpdateGraph.ChooseAll(env, next, paths[m + 1..], failFast) == next;
      } else {
        ChooseRest(env, t, paths, failFast, m + 1, next);
      }
    }
  }

  /** Some first paths were looked at, all of them unless one found no room or, failing fast, could not be statted. */
  ghost predicate ChosenSomewhere(env: Env, t: TrackerState, paths: seq<Path>, failFast: bool, c: UpdateGraph.Choice) {
    exists m: nat :: ChosenFrom(env, t, paths, failFast, m, c) && (m == |paths| || c.Over())
  }

  /** What an update chooses from its supported paths, from a fresh choice. */
  lemma ChooseStops(env: Env, t: TrackerState, paths: seq<Path>, failFast: bool)
    ensures ChosenSomewhere(env, t, paths, failFast,
                            UpdateGraph.ChooseAll(env, UpdateGraph.Choice([], 0, false, false, t), paths, failFast))
  {
    assert paths[..0] == [] && paths[0..] == paths;
    NoneLetIn(env, t);
    ChooseRest(env, t, paths, failFast, 0, UpdateGraph.Choice([], 0, false, false, t));
  }

  // ---------------------------------------------------------------- the build

  /** The file is stored with the hash it has. */
  predicate IsSame(env: Env, stored: map<Path, Hash>, p: Path) {
    p in env.tree && p in stored && stored[p] == env.tree[p].hash
  }

  predicate CanHash(env: Env, p: Path) {
    CanStat(env, p) && env.tree[p].hashOk
  }

  function StatFiles(env: Env, files: seq<Path>): seq<Path> {
    Filter((p: Path) => CanStat(env, p), files)
  }

  function NewFiles(env: Env, stored: map<Path, Hash>, files: seq<Path>): seq<Path> {
    Filter((p: Path) => CanHash(env, p) && !IsSame(env, stored, p), files)
  }

  function SameFiles(env: Env, stored: map<Path, Hash>, files: seq<Path>): seq<Path> {
    Filter((p: Path) => CanHash(env, p) && IsSame(env, stored, p), files)
  }

  function UnhashedFiles(env: Env, files: seq<Path>): seq<Path> {
    Filter((p: Path) => !CanHash(env, p), files)
  }

  lemma StatSnoc(env: Env, files: seq<Path>, m: nat)
    requires m < |files|
    ensures var statted, unhashed := StatFiles(env, files[..m]), UnhashedFiles(env, files[..m]);
            && StatFiles(env, files[..m + 1]) == (if CanStat(env, files[m]) then statted + [files[m]] else statted)
            && UnhashedFiles(env, files[..m + 1]) ==
               (if CanHash(env, files[m]) then unhashed else unhashed + [files[m]])
  {
    FilterSnoc((p: Path) => CanStat(env, p), files, m);
    FilterSnoc((p: Path) => !CanHash(env, p), files, m);
  }

  lemma NewSnoc(env: Env, stored: map<Path, Hash>, files: seq<Path>, m: nat)
    requires m < |files|
    ensures var p, novel, same := files[m], NewFiles(env, stored, files[..m]), SameFiles(env, stored, files[..m]);
            && NewFiles(env, stored, files[..m + 1]) ==
               (if CanHash(env, p) && !IsSame(env, stored, p) then novel + [p] else novel)
            && SameFiles(env, stored, files[..m + 1]) ==
               (if CanHash(env, p) && IsSame(env, stored, p) then same + [p] else same)
  {
    FilterSnoc((p: Path) => CanHash(env, p) && !IsSame(env, stored, p), files, m);
    FilterSnoc((p: Path) => CanHash(env, p) && IsSame(env, stored, p), files, m);
  }

  /** The file is offered in time and, if it can be statted, there is room after those before it. */
  ghost predicate IsAdmitted(env: Env, t: TrackerState, files: seq<Path>, clock: Clock, i: nat)
    requires i < |files|
  {
    && clock(0, i) <= t.limits.maxWallTimeMs
    && (CanStat(env, files[i]) ==> HasRoom(env, t, StatFiles(env, files[..i]), files[i]))
  }

  /** The first `m` files were admitted; failing fast, all but the last of them can be hashed. */
  ghost predicate AllAdmitted(env: Env, t: TrackerState, files: seq<Path>, clock: Clock, failFast: bool, m: nat) {
    && m <= |files| && (forall i :: 0 <= i < m ==> IsAdmitted(env, t, files, clock, i))
    && (failFast ==> forall i :: 0 <= i < m - 1 ==> CanHash(env, files[i]))
  }

  /** These files were offered: the new ones are candidates, the others are counted, as are those let in. */
  ghost predicate Offered(env: Env, t: TrackerState, stored: map<Path, Hash>, files: seq<Path>,
      a: BuildGraph.Acceptance)
  {
    && a.candidates == NewFiles(env, stored, files) && a.same == |SameFiles(env, stored, files)|
    && a.errors == |UnhashedFiles(env, files)| && LetIn(env, t, StatFiles(env, files), a.tracker)
  }

  lemma OfferedMore(env: Env, t: TrackerState, stored: map<Path, Hash>, files: seq<Path>, clock: Clock, failFast: bool,
                    m: nat, a: BuildGraph.Acceptance)
    requires m < |files| && files[m] in env.tree && Offered(env, t, stored, files[..m], a) && a.tick == m && !a.Over()
    ensures var next := BuildGraph.OfferNext(env, a, files[m], stored, clock, failFast);
            if IsAdmitted(env, t, files, clock, m) then
              && Offered(env, t, stored, files[..m + 1], next) && !next.stopped && next.tick == m + 1
              && (next.failed <==> failFast && !CanHash(env, files[m]))
            else Offered(env, t, stored, files[..m], next) && next.stopped && !next.failed
  {
    OfferIs(env, t, StatFiles(env, files[..m]), a.tracker, files[m], stored, clock(0, m));
    StatSnoc(env, files, m);
    NewSnoc(env, stored, files, m);
  }

  /**
   The first `m` files were offered: those that can be hashed and are not stored as they are became candidates. A file
   counts against the budget as soon as it can be statted.
   */
  ghost predicate OfferedFrom(env: Env, t: TrackerState, stored: map<Path, Hash>, files: seq<Path>, clock: Clock,
                              failFast: bool, m: nat, a: BuildGraph.Acceptance)
  {
    && AllAdmitted(env, t, files, clock, failFast, m) && Offered(env, t, stored, files[..m], a)
    && (a.failed <==> failFast && m > 0 && !CanHash(env, files[m - 1]))
    && (a.stopped ==> m < |files| && !IsAdmitted(env, t, files, clock, m))
    && (!a.stopped ==> a.tick == m)
  }

  lemma OfferIs(env: Env, t: TrackerState, before: seq<Path>, now: TrackerState, p: Path, stored: map<Path, Hash>,
                elapsedMs: u64)
    requires LetIn(env, t, before, now) && p in env.tree
    ensures var (t', o) := BuildGraph.OfferOf(env, now, p, stored, elapsedMs);
            var admitted := elapsedMs <= t.limits.maxWallTimeMs && (CanStat(env, p) ==> HasRoom(env, t, before, p));
            && (o.Stopped? <==> !admitted) && (o.Unreadable? <==> admitted && !CanHash(env, p))
            && (o.AlreadyStored? <==> admitted && CanHash(env, p) && IsSame(env, stored, p))
            && LetIn(env, t, if admitted && CanStat(env, p) then before + [p] else before, t')
  {
    TimeLetsNoneIn(env, t, before, now, elapsedMs);
    AcceptIsRoom(env, t, before, OnTime(now, elapsedMs).0, p);
  }

  lemma OfferOneMore(env: Env, t: TrackerState, stored: map<Path, Hash>, files: seq<Path>, clock: Clock, failFast: bool,
                     m: nat, a: BuildGraph.Acceptance)
    requires OfferedFrom(env, t, stored, files, clock, failFast, m, a) && !a.Over() && m < |files|
             && files[m] in env.tree
    ensures var next := BuildGraph.OfferNext(env, a, files[m], stored, clock, failFast);
            OfferedFrom(env, t, stored, files, clock, failFast, if next.stopped then m else m + 1, next)
  {
    OfferedMore(env, t, stored, files, clock, failFast, m, a);
    if IsAdmitted(env, t, files, clock, m) { OneMoreAdmitted(env, t, files, clock, failFast, m); }
  }

  lemma OneMoreAdmitted(env: Env, t: TrackerState, files: seq<Path>, clock: Clock, failFast: bool, m: nat)
    requires AllAdmitted(env, t, files, clock, failFast, m) && m < |files| && IsAdmitted(env, t, files, clock, m)
    requires failFast && m > 0 ==> CanHash(env, files[m - 1])
    ensures AllAdmitted(env, t, files, clock, failFast, m + 1)
  {}

  /** Some first files were offered, all of them unless one was not admitted or, failing fast, could not be hashed. */
  ghost predicate OfferedSomewhere(env: Env, t: TrackerState, stored: map<Path, Hash>, files: seq<Path>, clock: Clock,
                                   failFast: bool, a: BuildGraph.Acceptance)
  {
    exists m: nat :: OfferedFrom(env, t, stored, files, clock, failFast, m, a) && (m == |files| || a.Over())
  }

  lemma {:induction false} OfferRest(env: Env, t: TrackerState, stored: map<Path, Hash>, files: seq<Path>, clock: Clock,
                                     failFast: bool, m: nat, a: BuildGraph.Acceptance)
    requires OfferedFrom(env, t, stored, files, clock, failFast, m, a) && !a.Over()
    requires forall p :: p in files ==> p in env.tree
    ensures OfferedSomewhere(env, t, stored, files, clock, failFast,
                             BuildGraph.OfferAll(env, a, files[m..], stored, clock, failFast))
    decreases |files| - m
  {
    if m < |files| {
      var next := BuildGraph.OfferNext(env, a, files[m], stored, clock, failFast);
      DropCons(files, m);
      OfferOneMore(env, t, stored, files, clock, failFast, m, a);
      assert BuildGraph.OfferAll(env, a, files[m..], stored, clock, failFast) ==
             BuildGraph.OfferAll(env, next, files[m + 1..], stored, clock, failFast);
      if next.Over() {
        assert BuildGraph.OfferAll(env, next, files[m + 1..], stored, clock, failFast) == next;
      } else {
        OfferRest(env, t, stored, files, clock, failFast, m + 1, next);
      }
    }
  }

  /** What a build accepts from its scan, whatever is stored and whatever goes wrong. */
  lemma OfferStops(env: Env, t: TrackerState, stored: map<Path, Hash>, files: seq<Path>, clock: Clock, failFast: bool)
    requires forall p :: p in files ==> p in env.tree
    ensures OfferedSomewhere(env, t, stored, files, clock, failFast,
                             BuildGraph.OfferAll(env, BuildGraph.NoneOffered(t), files, stored, clock, failFast))
  {
    assert files[..0] == [] && files[0..] == files;
    NoneLetIn(env, t);
    OfferRest(env, t, stored, files, clock, failFast, 0, BuildGraph.NoneOffered(t));
  }
}
