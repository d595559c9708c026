/**
 What a build or update run can observe outside the store: the checkout, the parser registry, package owners,
 the clock and the failures of collaborators. Each is a parameter of the model.

 File content appears only through its hash, which is taken to identify it.
 */
module Worktree {
  import opened Wrappers
  import opened BuildBudget
  import opened GraphStore
  import opened Collections

  /** One file on disk, with the outcome each kind of access to it has. */
  datatype WorkFile = WorkFile(
    hash: Hash, bytes: u64, regular: bool, binary: bool, statOk: bool, hashOk: bool, readOk: bool)

  datatype Env = Env(
    repo: Repo,
    tree: map<Path, WorkFile>,
    supports: Path -> bool,
    ignored: Path -> bool,
    owner: Path -> Option<string>,
    parse: (Path, Hash) -> set<string>,
    synthetic: map<Path, Slice>,
    head: Option<string>)

  /** Elapsed time at each clock reading of each phase of a run, and which collaborators fail. */
  datatype Faults = Faults(clock: Clock, chunkFails: nat -> bool, reconcileFails: bool)

  type Clock = (nat, nat) -> u64

  /** Owner graphs live under the synthetic prefix, which the scanner's default patterns ignore. */
  ghost predicate EnvOk(env: Env) {
    && (forall p :: p in env.synthetic ==> IsSynthetic(p))
    && (forall p :: IsSynthetic(p) ==> env.ignored(p))
  }

  /** A full build indexes this path: supported, not ignored, an openable regular text file. */
  predicate Indexed(env: Env, p: Path) {
    && p in env.tree && env.supports(p) && !env.ignored(p)
    && env.tree[p].statOk && env.tree[p].regular && env.tree[p].readOk && !env.tree[p].binary
  }

  /** The file can be hashed and read. */
  predicate Readable(env: Env, p: Path) {
    p in env.tree && env.tree[p].hashOk && env.tree[p].readOk
  }

  /** Stat, hash and read all succeed. */
  predicate Accessible(env: Env, p: Path) {
    Readable(env, p) && env.tree[p].statOk
  }

  /** The inventory a complete build of this checkout has. */
  function FullBuild(env: Env): map<Path, Hash> {
    map p | p in env.tree && Indexed(env, p) :: env.tree[p].hash
  }

  /** The slice parsing a present file yields. */
  function FreshSlice(env: Env, p: Path): Slice
    requires p in env.tree
  {
    Slice(env.tree[p].hash, env.owner(p), env.parse(p, env.tree[p].hash))
  }

  /** The table after the given present files were parsed and written. */
  function Written(env: Env, rows: Rows, ps: set<Path>): Rows
    requires ps <= env.tree.Keys
  {
    rows + Parses(env, ps)
  }

  function Parses(env: Env, ps: set<Path>): Rows
    requires ps <= env.tree.Keys
  {
    map k | k in KeysOf(env.repo, ps) :: FreshSlice(env, k.1)
  }

  lemma WrittenTwice(env: Env, rows: Rows, a: set<Path>, b: set<Path>)
    requires a <= env.tree.Keys && b <= env.tree.Keys
    ensures Written(env, Written(env, rows, a), b) == Written(env, rows, a + b)
  {
    assert Parses(env, a) + Parses(env, b) == Parses(env, a + b);
    MapPlusAssoc(rows, Parses(env, a), Parses(env, b));
  }

  /** The table after the owner graphs were rebuilt. */
  function Refreshed(env: Env, rows: Rows): Rows {
    (rows - (set k | k in rows && k.0 == env.repo && IsSynthetic(k.1)))
    + map k | k in KeysOf(env.repo, env.synthetic.Keys) :: env.synthetic[k.1]
  }

  lemma RefreshKeepsInventory(env: Env, rows: Rows)
    requires EnvOk(env)
    ensures Inventory(Refreshed(env, rows), env.repo) == Inventory(rows, env.repo)
    ensures OtherReposUnchanged(rows, Refreshed(env, rows), env.repo)
  {
    var after := Refreshed(env, rows);
    forall p | !IsSynthetic(p)
      ensures (env.repo, p) in after <==> (env.repo, p) in rows
      ensures (env.repo, p) in rows ==> after[(env.repo, p)] == rows[(env.repo, p)]
      ensures p in PathsOf(after, env.repo) <==> p in PathsOf(rows, env.repo)
    {}
  }

  /** Inventories agree when they agree path by path. */
  lemma InventoryAt(rows: Rows, repo: Repo, p: Path)
    ensures p in Inventory(rows, repo) <==> (repo, p) in rows && !IsSynthetic(p)
    ensures p in Inventory(rows, repo) ==> Inventory(rows, repo)[p] == rows[(repo, p)].hash
  {}

  // ---------------------------------------------------------------- steps shared by build and update

  /** Files parsed so far; `attempted` counts every file handed to the parser in this run. */
  datatype Batch = Batch(
    parsed: seq<Path>, attempted: nat, unsupported: nat, errors: nat, blocked: bool, failed: bool,
    tracker: TrackerState)
  {
    predicate Over() {
      blocked || failed
    }
  }

  function NoFiles(t: TrackerState, attempted: nat): Batch {
    Batch([], attempted, 0, 0, false, false, t)
  }

  /**
   One more file: a file that cannot be hashed or read is a parse failure. `halt` is a block recorded before: it is
   looked at after each file, so it still lets one file through.
   */
  function ParseOne(env: Env, b: Batch, p: Path, failFast: bool, halt: bool): Batch {
    var next := b.(attempted := b.attempted + 1, blocked := halt);
    if !Readable(env, p) then
      var (t, d) := OnFailure(b.tracker, next.attempted);
      next.(errors := b.errors + 1, blocked := d.Blocked? || halt, failed := failFast, tracker := t)
    else if env.supports(p) then next.(parsed := b.parsed + [p])
    else next.(unsupported := b.unsupported + 1)
  }

  /** Files in order until one blocks the run or, failing fast, aborts it. */
  function ParseFiles(env: Env, b: Batch, files: seq<Path>, failFast: bool, halt: bool): Batch
    decreases |files|
  {
    if files == [] || b.Over() then b
    else ParseFiles(env, ParseOne(env, b, files[0], failFast, halt), files[1..], failFast, halt)
  }

  /** What parsing keeps from tracker `t` on, and what it misses only with an error. */
  ghost predicate Parsing(env: Env, t: TrackerState, seen: seq<Path>, halt: bool, b: Batch) {
    && Consistent(b.tracker) && t.reports <= b.tracker.reports && b.tracker.limits == t.limits
    && (forall p :: p in b.parsed ==> p in seen && Readable(env, p) && env.supports(p))
    && (b.failed ==> b.errors > 0)
    && (b.errors == 0 && !halt ==> !b.blocked)
    && (b.errors == 0 ==> HasBlocked(b.tracker) ==> HasBlocked(t))
    && (b.tracker.reports == [] && b.errors == 0 && !halt ==>
          forall p :: p in seen && env.supports(p) ==> p in b.parsed)
    && (b.errors > 0 ==> exists p :: p in seen && !Readable(env, p))
  }

  lemma FailureIsSound(t: TrackerState, attempted: nat)
    requires Consistent(t)
    ensures var t' := OnFailure(t, attempted).0; Consistent(t') && t.reports <= t'.reports && t'.limits == t.limits
  {
    StepKeepsConsistent(t, ParseFailure(attempted));
  }

  lemma AcceptIsSound(t: TrackerState, bytes: u64)
    requires Consistent(t)
    ensures var (t', d) := OnAccept(t, bytes);
            && Consistent(t') && t.reports <= t'.reports && t'.limits == t.limits
            && (HasBlocked(t') ==> HasBlocked(t)) && (d.Degraded? ==> t'.reports != []) && !d.Blocked?
  {
    StepKeepsConsistent(t, Accept(bytes));
  }

  /** One more file that failed, whatever the tracker made of it. */
  lemma OneFailed(env: Env, t: TrackerState, seen: seq<Path>, b: Batch, p: Path, halt: bool, next: Batch)
    requires Parsing(env, t, seen, halt, b) && !Readable(env, p)
    requires next.parsed == b.parsed && next.errors == b.errors + 1
    requires Consistent(next.tracker) && b.tracker.reports <= next.tracker.reports
             && next.tracker.limits == b.tracker.limits
    ensures Parsing(env, t, seen + [p], halt, next)
  {
    assert p in seen + [p];
  }

  /** One more file that was parsed or set aside. */
  lemma OneRead(env: Env, t: TrackerState, seen: seq<Path>, b: Batch, p: Path, halt: bool, next: Batch)
    requires Parsing(env, t, seen, halt, b) && !b.Over() && Readable(env, p)
    requires next.parsed == (if env.supports(p) then b.parsed + [p] else b.parsed)
    requires next.errors == b.errors && next.tracker == b.tracker && next.blocked == halt && !next.failed
    ensures Parsing(env, t, seen + [p], halt, next)
  {}

  lemma ParseOneIsSound(env: Env, t: TrackerState, seen: seq<Path>, b: Batch, p: Path, failFast: bool, halt: bool)
    requires Parsing(env, t, seen, halt, b) && !b.Over()
    ensures Parsing(env, t, seen + [p], halt, ParseOne(env, b, p, failFast, halt))
  {
    if Readable(env, p) {
      OneRead(env, t, seen, b, p, halt, ParseOne(env, b, p, failFast, halt));
    } else {
      FailureIsSound(b.tracker, b.attempted + 1);
      OneFailed(env, t, seen, b, p, halt, ParseOne(env, b, p, failFast, halt));
    }
  }

  lemma NothingParsed(env: Env, t: TrackerState, attempted: nat, halt: bool)
    requires Consistent(t)
    ensures Parsing(env, t, [], halt, NoFiles(t, attempted))
  {}

  lemma TimeIsSound(t: TrackerState, elapsedMs: u64)
    requires Consistent(t)
    ensures var (t', d) := OnTime(t, elapsedMs);
            && Consistent(t') && t.reports <= t'.reports && t'.limits == t.limits
            && (HasBlocked(t') ==> HasBlocked(t)) && (d.Degraded? ==> t'.reports != []) && (!d.Degraded? ==> t' == t)
  {
    StepKeepsConsistent(t, TimeCheck(elapsedMs));
  }

  lemma MoreSeen(env: Env, t: TrackerState, seen: seq<Path>, more: seq<Path>, halt: bool, b: Batch)
    requires Parsing(env, t, seen, halt, b) && (b.Over() || more == [])
    ensures Parsing(env, t, seen + more, halt, b)
  {}

  lemma {:induction false} ParseFilesIsSound(env: Env, t: TrackerState, seen: seq<Path>, b: Batch, files: seq<Path>,
                                             failFast: bool, halt: bool)
    requires Parsing(env, t, seen, halt, b)
    ensures Parsing(env, t, seen + files, halt, ParseFiles(env, b, files, failFast, halt))
    decreases |files|
  {
    if files == [] || b.Over() {
      MoreSeen(env, t, seen, files, halt, b);
    } else {
      ParseOneIsSound(env, t, seen, b, files[0], failFast, halt);
      ParseFilesIsSound(env, t, seen + [files[0]], ParseOne(env, b, files[0], failFast, halt), files[1..], failFast,
        halt);
      assert seen + [files[0]] + files[1..] == seen + files;
    }
  }

  /** Read and parse one more batch. */
  method ParseBatch(tracker: BuildBudgetTracker, env: Env, start: Batch, files: seq<Path>, failFast: bool, halt: bool)
    returns (b: Batch)
    requires tracker.View() == start.tracker
    modifies tracker, tracker.manager
    ensures b == ParseFiles(env, start, files, failFast, halt) && tracker.View() == b.tracker
  {
    b := start;
    assert files[0..] == files;
    var i := 0;
    while i < |files| && !b.Over()
      invariant 0 <= i <= |files| && b.tracker == tracker.View()
      invariant ParseFiles(env, b, files[i..], failFast, halt) == ParseFiles(env, start, files, failFast, halt)
    {
      DropCons(files, i);
      b := ParseNext(tracker, env, b, files[i], failFast, halt);
      i := i + 1;
    }
  }

  method ParseNext(tracker: BuildBudgetTracker, env: Env, b: Batch, p: Path, failFast: bool, halt: bool)
      returns (next: Batch)
    requires tracker.View() == b.tracker
    modifies tracker, tracker.manager
    ensures next == ParseOne(env, b, p, failFast, halt) && tracker.View() == next.tracker
  {
    next := b.(attempted := b.attempted + 1, blocked := halt);
    if !Readable(env, p) {
      var d := tracker.NoteParseFailure(next.attempted);
      next := next.(errors := b.errors + 1, blocked := d.Blocked? || halt,
                    failed := failFast, tracker := tracker.View());
    } else if env.supports(p) {
      next := next.(parsed := b.parsed + [p]);
    } else {
      next := next.(unsupported := b.unsupported + 1);
    }
  }

  /** The slice a replacement stores: fresh content under the owner recorded before, if any. */
  function Reparsed(env: Env, rows: Rows, p: Path): Slice
    requires p in env.tree
  {
    Slice(env.tree[p].hash, if (env.repo, p) in rows then rows[(env.repo, p)].owner else None,
          env.parse(p, env.tree[p].hash))
  }

  /** The table once the slices are replaced but no owner is stamped yet. */
  function Replaced(env: Env, rows: Rows, ps: set<Path>): Rows
    requires ps <= env.tree.Keys
  {
    rows + ReparsedRows(env, rows, ps)
  }

  function ReparsedRows(env: Env, rows: Rows, ps: set<Path>): Rows
    requires ps <= env.tree.Keys
  {
    map k | k in KeysOf(env.repo, ps) :: Reparsed(env, rows, k.1)
  }

  function Owned(env: Env, rows: Rows, ps: set<Path>): Rows {
    map k | k in rows :: if k.0 == env.repo && k.1 in ps then rows[k].(owner := env.owner(k.1)) else rows[k]
  }

  lemma ReplacedOneMore(env: Env, rows: Rows, ps: set<Path>, p: Path)
    requires ps + {p} <= env.tree.Keys
    ensures ReplaceRow(Replaced(env, rows, ps), env.repo, p, env.tree[p].hash, env.parse(p, env.tree[p].hash))
            == Replaced(env, rows, ps + {p})
  {
    var some := Replaced(env, rows, ps);
    var slice := Reparsed(env, rows, p);
    assert Reparsed(env, some, p) == slice;
    assert ReparsedRows(env, rows, ps + {p}) == ReparsedRows(env, rows, ps)[(env.repo, p) := slice];
    MapPlusUpdate(rows, ReparsedRows(env, rows, ps), (env.repo, p), slice);
  }

  method ReplaceFiles(store: Store, env: Env, parsed: seq<Path>)
    requires ToSet(parsed) <= env.tree.Keys
    modifies store`rows
    ensures store.rows == Replaced(env, old(store.rows), ToSet(parsed))
  {
    for i := 0 to |parsed|
      invariant store.rows == Replaced(env, old(store.rows), ToSet(parsed[..i]))
    {
      var p := parsed[i];
      assert ToSet(parsed[..i + 1]) == ToSet(parsed[..i]) + {p};
      ReplacedOneMore(env, old(store.rows), ToSet(parsed[..i]), p);
      store.ReplaceFile(env.repo, p, env.tree[p].hash, env.parse(p, env.tree[p].hash));
    }
    assert parsed[..|parsed|] == parsed;
  }

  method StampOwners(store: Store, env: Env, parsed: seq<Path>)
    modifies store`rows
    ensures store.rows == Owned(env, old(store.rows), ToSet(parsed))
  {
    for i := 0 to |parsed|
      invariant store.rows == Owned(env, old(store.rows), ToSet(parsed[..i]))
    {
      var p := parsed[i];
      assert ToSet(parsed[..i + 1]) == ToSet(parsed[..i]) + {p};
      store.UpsertFileOwner(env.repo, p, env.owner(p));
    }
    assert parsed[..|parsed|] == parsed;
  }

  /** Persist parsed files: replace every slice, then stamp every owner. */
  method WriteBatch(store: Store, env: Env, parsed: seq<Path>)
    requires ToSet(parsed) <= env.tree.Keys
    modifies store`rows
    ensures store.rows == Written(env, old(store.rows), ToSet(parsed))
  {
    ReplaceFiles(store, env, parsed);
    StampOwners(store, env, parsed);
  }

  method RefreshOwnerGraphs(store: Store, env: Env)
    modifies store`rows
    ensures store.rows == Refreshed(env, old(store.rows))
  {
    var stale := set k | k in store.rows && k.0 == env.repo && IsSynthetic(k.1) :: k.1;
    store.DeleteAll(env.repo, stale);
    assert forall p :: p in stale <==> (env.repo, p) in old(store.rows) && IsSynthetic(p);
    assert KeysOf(env.repo, stale) == set k | k in old(store.rows) && k.0 == env.repo && IsSynthetic(k.1);
    store.rows := store.rows + map k | k in KeysOf(env.repo, env.synthetic.Keys) :: env.synthetic[k.1];
  }
}
