/**
 The graph store as a table of file slices keyed by repository and path
 (packages/atlas-store-sqlite/src/store/mutation.rs, file_scan.rs; packages/atlas-engine/src/update_files.rs).

 A slice stands for a `files` row together with the node rows of that file, which the store always writes,
 moves and deletes in one transaction. Graph facts are the qualified names of those nodes.
 */
module GraphStore {
  import opened Wrappers
  import opened Collections

  type Repo = string
  type Path = string
  type Hash = string

  datatype Slice = Slice(hash: Hash, owner: Option<string>, facts: set<string>)

  type Key = (Repo, Path)
  type Rows = map<Key, Slice>

  const SYNTHETIC_PREFIX := ".atlas/synthetic/owners/"

  predicate IsSynthetic(p: Path) {
    SYNTHETIC_PREFIX <= p
  }

  /** `p` lies strictly below directory `dir`. */
  predicate Under(dir: Path, p: Path) {
    dir + "/" <= p
  }

  /** How the store scans a directory: by the half-open text range from `dir/` to `dir0`. */
  predicate InDirRange(dir: Path, p: Path) {
    LexAtMost(dir + "/", p) && LexLess(p, dir + "0")
  }

  /** The range scan returns exactly the descendants of the directory, for every directory name and path. */
  lemma {:induction false} DirRangeIsSubtree(dir: Path, p: Path)
    ensures InDirRange(dir, p) <==> Under(dir, p)
  {
    if dir == "" {
      assert dir + "/" == "/" && dir + "0" == "0";
      if p != "" {
        assert LexLess(p, "/") <==> p[0] < '/' || (p[0] == '/' && LexLess(p[1..], "/"[1..]));
        assert LexLess(p, "0") <==> p[0] < '0' || (p[0] == '0' && LexLess(p[1..], "0"[1..]));
      }
    } else if p != "" && p[0] == dir[0] {
      DirRangeIsSubtree(dir[1..], p[1..]);
      assert (dir + "/")[1..] == dir[1..] + "/" && (dir + "0")[1..] == dir[1..] + "0";
      assert p == [p[0]] + p[1..];
      assert dir + "/" == [dir[0]] + (dir[1..] + "/");
      if Under(dir[1..], p[1..]) {
        assert p[..|dir| + 1] == [p[0]] + p[1..][..|dir|];
      }
    }
  }

  // ---------------------------------------------------------------- effects on the table

  function RenameRow(rows: Rows, repo: Repo, src: Path, dst: Path): Rows {
    if src == dst || (repo, src) !in rows then rows
    else
      var moved := rows[(repo, src)];
      var merged := if (repo, dst) in rows then moved.facts + rows[(repo, dst)].facts else moved.facts;
      (rows - {(repo, src)})[(repo, dst) := moved.(facts := merged)]
  }

  function SetOwner(rows: Rows, repo: Repo, p: Path, owner: Option<string>): Rows {
    if (repo, p) in rows then rows[(repo, p) := rows[(repo, p)].(owner := owner)] else rows
  }

  function ReplaceRow(rows: Rows, repo: Repo, p: Path, hash: Hash, facts: set<string>): Rows {
    rows[(repo, p) := Slice(hash, if (repo, p) in rows then rows[(repo, p)].owner else None, facts)]
  }

  function KeysOf(repo: Repo, ps: set<Path>): (keys: set<Key>)
    ensures forall k: Key :: k in keys <==> k.0 == repo && k.1 in ps
  {
    set p | p in ps :: (repo, p)
  }

  /** Paths indexed for one repository. */
  function PathsOf(rows: Rows, repo: Repo): (ps: set<Path>)
    ensures forall p :: p in ps <==> (repo, p) in rows
  {
    var keys := set k | k in rows && k.0 == repo;
    assert forall p :: (repo, p) in rows <==> (repo, p) in keys;
    set k | k in keys :: k.1
  }

  /** What a deletion request touches: each named path and everything indexed below it. */
  function Doomed(rows: Rows, repo: Repo, requested: set<Path>): set<Path> {
    set k | k in rows && k.0 == repo && (k.1 in requested || exists d :: d in requested && Under(d, k.1)) :: k.1
  }

  /** The repository's file inventory: real paths and the hash each was indexed with. */
  function Inventory(rows: Rows, repo: Repo): map<Path, Hash> {
    map p | p in PathsOf(rows, repo) && !IsSynthetic(p) :: rows[(repo, p)].hash
  }

  ghost predicate OtherReposUnchanged(before: Rows, after: Rows, repo: Repo) {
    forall k: Key :: k.0 != repo ==> (k in after <==> k in before) && (k in before ==> after[k] == before[k])
  }

  class Store {
    var rows: Rows
    var refs: map<Repo, string>

    constructor ()
      ensures rows == map[] && refs == map[]
    {
      rows, refs := map[], map[];
    }

    method RenameFileGraph(repo: Repo, src: Path, dst: Path)
      modifies this`rows
      ensures rows == RenameRow(old(rows), repo, src, dst)
    {
      if src == dst || (repo, src) !in rows {
        return;
      }
      var moved := rows[(repo, src)];
      var facts := moved.facts;
      if (repo, dst) in rows {
        facts := facts + rows[(repo, dst)].facts;
      }
      rows := rows - {(repo, src)};
      rows := rows[(repo, dst) := Slice(moved.hash, moved.owner, facts)];
    }

    method UpsertFileOwner(repo: Repo, p: Path, owner: Option<string>)
      modifies this`rows
      ensures rows == SetOwner(old(rows), repo, p, owner)
    {
      if (repo, p) in rows {
        rows := rows[(repo, p) := rows[(repo, p)].(owner := owner)];
      }
    }

    method ReplaceFile(repo: Repo, p: Path, hash: Hash, facts: set<string>)
      modifies this`rows
      ensures rows == ReplaceRow(old(rows), repo, p, hash, facts)
    {
      var owner := if (repo, p) in rows then rows[(repo, p)].owner else None;
      rows := rows[(repo, p) := Slice(hash, owner, facts)];
    }

    method DeleteFileGraph(repo: Repo, p: Path)
      modifies this`rows
      ensures rows == old(rows) - {(repo, p)}
    {
      rows := rows - {(repo, p)};
    }

    method PathsUnderDir(repo: Repo, dir: Path) returns (ps: set<Path>)
      ensures ps == set k | k in rows && k.0 == repo && Under(dir, k.1) :: k.1
    {
      forall k | k in rows ensures InDirRange(dir, k.1) <==> Under(dir, k.1) {
        DirRangeIsSubtree(dir, k.1);
      }
      ps := set k | k in rows && k.0 == repo && InDirRange(dir, k.1) :: k.1;
    }

    /** Slices a deletion request still finds, each path standing for itself and for a deleted directory. */
    method ExistingFileGraphDeletions(repo: Repo, requested: seq<Path>) returns (existing: set<Path>)
      ensures existing == Doomed(rows, repo, ToSet(requested))
    {
      existing := {};
      for i := 0 to |requested|
        invariant existing == Doomed(rows, repo, ToSet(requested[..i]))
      {
        var p := requested[i];
        assert requested[..i + 1] == requested[..i] + [p];
        if (repo, p) in rows {
          existing := existing + {p};
        }
        var below := PathsUnderDir(repo, p);
        existing := existing + below;
      }
      assert requested[..|requested|] == requested;
    }

    /** Delete every slice the request still finds; the count is the number of slices removed. */
    method DeleteExistingFileGraphs(repo: Repo, requested: seq<Path>) returns (count: nat)
      modifies this`rows
      ensures var doomed := Doomed(old(rows), repo, ToSet(requested));
              rows == old(rows) - KeysOf(repo, doomed) && count == |doomed|
    {
      var existing := ExistingFileGraphDeletions(repo, requested);
      DeleteAll(repo, existing);
      count := |existing|;
    }

    method DeleteAll(repo: Repo, ps: set<Path>)
      modifies this`rows
      ensures rows == old(rows) - KeysOf(repo, ps)
    {
      var todo := ps;
      while todo != {}
        invariant todo <= ps
        invariant rows == old(rows) - KeysOf(repo, ps - todo)
        decreases |todo|
      {
        var p :| p in todo;
        DeleteFileGraph(repo, p);
        assert KeysOf(repo, ps - (todo - {p})) == KeysOf(repo, ps - todo) + {(repo, p)};
        todo := todo - {p};
      }
      assert ps - todo == ps;
    }
  }
}
