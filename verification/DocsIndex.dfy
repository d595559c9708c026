/**
 Lookup indexes of the docs view (packages/atlas-docs/src/model.rs, `DocsView::new`): edges grouped by file, source
 and target, and cross-file dependency edges grouped by the file of either end.
 */
module DocsIndex {
  import opened Wrappers
  import opened Collections
  import opened Sorting

  datatype Node = Node(qualifiedName: string, path: string)

  datatype Edge = Edge(kind: string, source: string, target: string, path: string, line: Option<nat>)

  const SYNTHETIC_PREFIX := ".atlas/synthetic/"

  predicate Synthetic(path: string) {
    |SYNTHETIC_PREFIX| <= |path| && path[..|SYNTHETIC_PREFIX|] == SYNTHETIC_PREFIX
  }

  type Index = map<string, seq<Edge>>

  function At(index: Index, k: string): seq<Edge> {
    if k in index then index[k] else []
  }

  function Push(index: Index, k: string, e: Edge): Index {
    index[k := At(index, k) + [e]]
  }

  // ---------------------------------------------------------------- sorting

  type Rank = (string, string)

  predicate RankLess(a: Rank, b: Rank) {
    LexLess(a.0, b.0) || (a.0 == b.0 && LexLess(a.1, b.1))
  }

  lemma RankIsStrictTotal()
    ensures StrictTotal(RankLess)
  {
    forall x, y, z: Rank | RankLess(x, y) && RankLess(y, z) ensures RankLess(x, z) {
      if LexLess(x.0, y.0) && LexLess(y.0, z.0) { LexTransitive(x.0, y.0, z.0); }
      if LexLess(x.1, y.1) && LexLess(y.1, z.1) { LexTransitive(x.1, y.1, z.1); }
    }
    forall x, y: Rank ensures !RankLess(x, x) && (RankLess(x, y) || x == y || RankLess(y, x)) {
      LexTrichotomy(x.0, y.0);
      LexTrichotomy(x.1, y.1);
    }
  }

  function ByTarget(e: Edge): Rank {
    (e.target, e.kind)
  }

  function BySource(e: Edge): Rank {
    (e.source, e.kind)
  }

  function SortEdges(rank: Edge -> Rank, edges: seq<Edge>): seq<Edge> {
    StableSort(rank, RankLess, edges)
  }

  // ---------------------------------------------------------------- keys

  /** First node of that name outside synthetic files. */
  function NodeOf(nodes: seq<Node>, name: string): (n: Option<Node>)
    ensures n.Some? ==> n.value in nodes && n.value.qualifiedName == name && !Synthetic(n.value.path)
    ensures n.None? ==> forall m :: m in nodes && m.qualifiedName == name ==> Synthetic(m.path)
  {
    if nodes == [] then None
    else if !Synthetic(nodes[0].path) && nodes[0].qualifiedName == name then Some(nodes[0])
    else NodeOf(nodes[1..], name)
  }

  /** A dependency between two resolvable symbols of different files, other than containment. */
  predicate CrossFile(nodes: seq<Node>, e: Edge) {
    && e.kind != "contains" && !Synthetic(e.path)
    && NodeOf(nodes, e.source).Some? && NodeOf(nodes, e.target).Some?
    && NodeOf(nodes, e.source).value.path != NodeOf(nodes, e.target).value.path
  }

  function FileKey(e: Edge): Option<string> {
    if Synthetic(e.path) then None else Some(e.path)
  }

  function SourceKey(e: Edge): Option<string> {
    if Synthetic(e.path) then None else Some(e.source)
  }

  function TargetKey(e: Edge): Option<string> {
    if Synthetic(e.path) then None else Some(e.target)
  }

  function OutKey(nodes: seq<Node>): (key: Edge -> Option<string>)
    ensures forall e :: key(e) == if CrossFile(nodes, e) then Some(NodeOf(nodes, e.source).value.path) else None
  {
    (e: Edge) => if CrossFile(nodes, e) then Some(NodeOf(nodes, e.source).value.path) else None
  }

  function InKey(nodes: seq<Node>): (key: Edge -> Option<string>)
    ensures forall e :: key(e) == if CrossFile(nodes, e) then Some(NodeOf(nodes, e.target).value.path) else None
  {
    (e: Edge) => if CrossFile(nodes, e) then Some(NodeOf(nodes, e.target).value.path) else None
  }

  /** The naive lookup: filter all edges. */
  function Matching(key: Edge -> Option<string>, k: string, edges: seq<Edge>): seq<Edge> {
    Filter((e: Edge) => key(e) == Some(k), edges)
  }

  function Keyed(key: Edge -> Option<string>, edges: seq<Edge>): seq<Edge> {
    Filter((e: Edge) => key(e).Some?, edges)
  }

  // ---------------------------------------------------------------- grouping

  function PushKeyed(index: Index, key: Option<string>, e: Edge): Index {
    match key case None => index case Some(k) => Push(index, k, e)
  }

  /** Edges grouped in one pass. */
  function Group(key: Edge -> Option<string>, edges: seq<Edge>): Index {
    if edges == [] then map[]
    else
      var e := edges[|edges| - 1];
      PushKeyed(Group(key, edges[..|edges| - 1]), key(e), e)
  }

  lemma GroupSnoc(key: Edge -> Option<string>, edges: seq<Edge>, i: nat)
    requires i < |edges|
    ensures Group(key, edges[..i + 1]) == PushKeyed(Group(key, edges[..i]), key(edges[i]), edges[i])
  {
    assert edges[..i + 1][..i] == edges[..i];
  }

  /** A grouped lookup is the filter over all edges, in order. */
  lemma {:induction false} GroupIsFilter(key: Edge -> Option<string>, edges: seq<Edge>, k: string)
    ensures At(Group(key, edges), k) == Matching(key, k, edges)
    ensures k in Group(key, edges) <==> Matching(key, k, edges) != []
  {
    if edges != [] {
      var init, e := edges[..|edges| - 1], edges[|edges| - 1];
      GroupIsFilter(key, init, k);
      assert edges == init + [e];
      MatchingSnoc(key, k, init, e);
    }
  }

  lemma MatchingSnoc(key: Edge -> Option<string>, k: string, edges: seq<Edge>, e: Edge)
    ensures Matching(key, k, edges + [e]) == Matching(key, k, edges) + if key(e) == Some(k) then [e] else []
  {
    var p := (x: Edge) => key(x) == Some(k);
    FilterAppend(p, edges, [e]);
    assert Filter(p, [e][1..]) == [];
  }

  // ---------------------------------------------------------------- totals

  ghost function Total(index: Index): nat {
    if index == map[] then 0
    else
      var k :| k in index;
      |index[k]| + Total(index - {k})
  }

  lemma {:induction false} TotalWithout(index: Index, k: string)
    requires k in index
    ensures Total(index) == |index[k]| + Total(index - {k})
    decreases |index|
  {
    var j :| j in index && Total(index) == |index[j]| + Total(index - {j});
    if j != k {
      TotalWithout(index - {j}, k);
      TotalWithout(index - {k}, j);
      assert index - {j} - {k} == index - {k} - {j};
    }
  }

  lemma TotalPush(index: Index, k: string, e: Edge)
    ensures Total(Push(index, k, e)) == Total(index) + 1
  {
    var after := Push(index, k, e);
    TotalWithout(after, k);
    assert after - {k} == index - {k};
    if k in index { TotalWithout(index, k); } else { assert index - {k} == index; }
  }

  lemma {:induction false} GroupTotal(key: Edge -> Option<string>, edges: seq<Edge>)
    ensures Total(Group(key, edges)) == |Keyed(key, edges)|
  {
    if edges != [] {
      var init, e := edges[..|edges| - 1], edges[|edges| - 1];
      GroupTotal(key, init);
      assert edges == init + [e];
      var p := (x: Edge) => key(x).Some?;
      FilterAppend(p, init, [e]);
      assert Filter(p, [e][1..]) == [];
      if key(e).Some? { TotalPush(Group(key, init), key(e).value, e); }
    }
  }

  function SortAll(rank: Edge -> Rank, index: Index): Index {
    map k | k in index :: SortEdges(rank, index[k])
  }

  lemma SortKeepsLength(rank: Edge -> Rank, edges: seq<Edge>)
    ensures |SortEdges(rank, edges)| == |edges|
  {
    RankIsStrictTotal();
    StableSortCorrect(rank, RankLess, edges);
    assert |multiset(SortEdges(rank, edges))| == |multiset(edges)|;
  }

  lemma {:induction false} SortedTotal(rank: Edge -> Rank, index: Index)
    ensures Total(SortAll(rank, index)) == Total(index)
    decreases |index|
  {
    if index != map[] {
      var k :| k in index;
      var sorted := SortAll(rank, index);
      TotalWithout(index, k);
      TotalWithout(sorted, k);
      SortKeepsLength(rank, index[k]);
      SortedTotal(rank, index - {k});
      assert sorted - {k} == SortAll(rank, index - {k});
    }
  }

  // ---------------------------------------------------------------- the code

  datatype View = View(nodeByName: map<string, Node>, byFile: Index, bySource: Index, byTarget: Index, outByFile: Index,
                       inByFile: Index)

  /** The view a data set determines. */
  ghost predicate IsViewOf(v: View, nodes: seq<Node>, edges: seq<Edge>) {
    && Names(v.nodeByName, nodes)
    && v.byFile == Group(FileKey, edges) && v.bySource == Group(SourceKey, edges)
    && v.byTarget == Group(TargetKey, edges)
    && v.outByFile == SortAll(ByTarget, Group(OutKey(nodes), edges))
    && v.inByFile == SortAll(BySource, Group(InKey(nodes), edges))
  }

  ghost predicate Names(byName: map<string, Node>, nodes: seq<Node>) {
    forall name :: (name in byName <==> NodeOf(nodes, name).Some?) &&
                   (name in byName ==> NodeOf(nodes, name) == Some(byName[name]))
  }

  lemma {:induction false} NodeOfSnoc(nodes: seq<Node>, n: Node, name: string)
    ensures NodeOf(nodes + [n], name) ==
            if NodeOf(nodes, name).Some? then NodeOf(nodes, name)
            else if !Synthetic(n.path) && n.qualifiedName == name then Some(n) else None
  {
    if nodes != [] {
      assert (nodes + [n])[1..] == nodes[1..] + [n];
      NodeOfSnoc(nodes[1..], n, name);
    }
  }

  /** The first node of a name wins. */
  method IndexNodes(nodes: seq<Node>) returns (byName: map<string, Node>)
    ensures Names(byName, nodes)
  {
    byName := map[];
    for i := 0 to |nodes|
      invariant Names(byName, nodes[..i])
    {
      TakeSnoc(nodes, i);
      var n, was := nodes[i], byName;
      forall name ensures NodeOf(nodes[..i + 1], name) ==
                          if NodeOf(nodes[..i], name).Some? then NodeOf(nodes[..i], name)
                          else if !Synthetic(n.path) && n.qualifiedName == name then Some(n) else None
      {
        NodeOfSnoc(nodes[..i], n, name);
      }
      if !Synthetic(n.path) && n.qualifiedName !in byName {
        byName := byName[n.qualifiedName := n];
      }
    }
    assert nodes[..|nodes|] == nodes;
  }

  method IndexEdges(edges: seq<Edge>) returns (byFile: Index, bySource: Index, byTarget: Index)
    ensures byFile == Group(FileKey, edges) && bySource == Group(SourceKey, edges)
            && byTarget == Group(TargetKey, edges)
  {
    byFile, bySource, byTarget := map[], map[], map[];
    for i := 0 to |edges|
      invariant byFile == Group(FileKey, edges[..i])
      invariant bySource == Group(SourceKey, edges[..i])
      invariant byTarget == Group(TargetKey, edges[..i])
    {
      GroupSnoc(FileKey, edges, i);
      GroupSnoc(SourceKey, edges, i);
      GroupSnoc(TargetKey, edges, i);
      var e := edges[i];
      if Synthetic(e.path) {
        continue;
      }
      byFile := Push(byFile, e.path, e);
      bySource := Push(bySource, e.source, e);
      byTarget := Push(byTarget, e.target, e);
    }
    assert edges[..|edges|] == edges;
  }

  method IndexCrossFile(nodes: seq<Node>, byName: map<string, Node>, edges: seq<Edge>)
    returns (outByFile: Index, inByFile: Index)
    requires Names(byName, nodes)
    ensures outByFile == SortAll(ByTarget, Group(OutKey(nodes), edges))
    ensures inByFile == SortAll(BySource, Group(InKey(nodes), edges))
  {
    outByFile, inByFile := map[], map[];
    for i := 0 to |edges|
      invariant outByFile == Group(OutKey(nodes), edges[..i])
      invariant inByFile == Group(InKey(nodes), edges[..i])
    {
      GroupSnoc(OutKey(nodes), edges, i);
      GroupSnoc(InKey(nodes), edges, i);
      var e := edges[i];
      if e.kind == "contains" || Synthetic(e.path) || e.source !in byName || e.target !in byName {
        continue;
      }
      if byName[e.source].path != byName[e.target].path {
        outByFile := Push(outByFile, byName[e.source].path, e);
        inByFile := Push(inByFile, byName[e.target].path, e);
      }
    }
    assert edges[..|edges|] == edges;
    outByFile := SortAll(ByTarget, outByFile);
    inByFile := SortAll(BySource, inByFile);
  }

  method NewDocsView(nodes: seq<Node>, edges: seq<Edge>) returns (v: View)
    ensures IsViewOf(v, nodes, edges)
  {
    var byName := IndexNodes(nodes);
    var byFile, bySource, byTarget := IndexEdges(edges);
    var outByFile, inByFile := IndexCrossFile(nodes, byName, edges);
    v := View(byName, byFile, bySource, byTarget, outByFile, inByFile);
  }

  function OutboundEdges(v: View, name: string): seq<Edge> {
    if name in v.bySource then SortEdges(ByTarget, v.bySource[name]) else []
  }

  function InboundEdges(v: View, name: string): seq<Edge> {
    if name in v.byTarget then SortEdges(BySource, v.byTarget[name]) else []
  }

  // ---------------------------------------------------------------- lookups are naive filters, sorted

  /** A permutation in rank order that keeps the order of equally ranked edges. */
  ghost predicate SortedPermutation(rank: Edge -> Rank, result: seq<Edge>, edges: seq<Edge>) {
    && multiset(result) == multiset(edges)
    && SortedBy(rank, RankLess, result)
    && forall k :: OfRank(rank, k, result) == OfRank(rank, k, edges)
  }

  lemma SortIsPermutation(rank: Edge -> Rank, edges: seq<Edge>)
    ensures SortedPermutation(rank, SortEdges(rank, edges), edges)
  {
    RankIsStrictTotal();
    StableSortCorrect(rank, RankLess, edges);
  }

  /** Per-symbol lookups. */
  lemma SymbolLookups(v: View, nodes: seq<Node>, edges: seq<Edge>, name: string)
    requires IsViewOf(v, nodes, edges)
    ensures SortedPermutation(ByTarget, OutboundEdges(v, name), Matching(SourceKey, name, edges))
    ensures SortedPermutation(BySource, InboundEdges(v, name), Matching(TargetKey, name, edges))
  {
    GroupIsFilter(SourceKey, edges, name);
    GroupIsFilter(TargetKey, edges, name);
    SortIsPermutation(ByTarget, Matching(SourceKey, name, edges));
    SortIsPermutation(BySource, Matching(TargetKey, name, edges));
  }

  /** Per-file lookups. */
  lemma FileLookups(v: View, nodes: seq<Node>, edges: seq<Edge>, path: string)
    requires IsViewOf(v, nodes, edges)
    ensures At(v.byFile, path) == Matching(FileKey, path, edges)
    ensures SortedPermutation(ByTarget, At(v.outByFile, path), Matching(OutKey(nodes), path, edges))
    ensures SortedPermutation(BySource, At(v.inByFile, path), Matching(InKey(nodes), path, edges))
  {
    GroupIsFilter(FileKey, edges, path);
    GroupIsFilter(OutKey(nodes), edges, path);
    GroupIsFilter(InKey(nodes), edges, path);
    SortIsPermutation(ByTarget, Matching(OutKey(nodes), path, edges));
    SortIsPermutation(BySource, Matching(InKey(nodes), path, edges));
  }

  // ---------------------------------------------------------------- lookups in the terms of the edges

  /** In order of the text `first` gives, then of the edge kind. */
  ghost predicate Ordered(first: Edge -> string, edges: seq<Edge>) {
    forall i, j :: 0 <= i < j < |edges| ==>
      || LexLess(first(edges[i]), first(edges[j]))
      || (first(edges[i]) == first(edges[j]) && LexAtMost(edges[i].kind, edges[j].kind))
  }

  /** The rank an order by `first` and then kind compares. */
  function Ranked(first: Edge -> string): (rank: Edge -> Rank)
    ensures forall e :: rank(e) == (first(e), e.kind)
  {
    (e: Edge) => (first(e), e.kind)
  }

  /** `found` are all occurrences of the edges that `wanted` describes, in that order; ties stay in input order. */
  ghost predicate Finds(found: seq<Edge>, edges: seq<Edge>, wanted: Edge -> bool, first: Edge -> string) {
    && Ordered(first, found)
    && (forall e :: multiset(found)[e] == if wanted(e) then multiset(edges)[e] else 0)
    && (forall k :: OfRank(Ranked(first), k, found) == OfRank(Ranked(first), k, Filter(wanted, edges)))
  }

  lemma MatchingIs(key: Edge -> Option<string>, k: string, wanted: Edge -> bool, edges: seq<Edge>)
    requires forall e :: wanted(e) <==> key(e) == Some(k)
    ensures Matching(key, k, edges) == Filter(wanted, edges)
  {
    SameFilter((e: Edge) => key(e) == Some(k), wanted, edges);
  }

  lemma {:induction false} SameRank(rank: Edge -> Rank, rank': Edge -> Rank, r: Rank, edges: seq<Edge>)
    requires forall e :: rank(e) == rank'(e)
    ensures OfRank(rank, r, edges) == OfRank(rank', r, edges)
  {
    if edges != [] { SameRank(rank, rank', r, edges[1..]); }
  }

  /** A lookup sorted by a rank finds what its key describes. */
  lemma KeyedFinds(rank: Edge -> Rank, first: Edge -> string, key: Edge -> Option<string>, k: string,
                   wanted: Edge -> bool, found: seq<Edge>, edges: seq<Edge>)
    requires forall e :: rank(e) == (first(e), e.kind)
    requires forall e :: wanted(e) <==> key(e) == Some(k)
    requires SortedPermutation(rank, found, Matching(key, k, edges))
    ensures Finds(found, edges, wanted, first)
  {
    MatchingIs(key, k, wanted, edges);
    KeptInOrder(rank, first, found);
    forall e ensures multiset(found)[e] == if wanted(e) then multiset(edges)[e] else 0 {
      FilterCounts(wanted, edges, e);
    }
    forall r ensures OfRank(Ranked(first), r, found) == OfRank(Ranked(first), r, Filter(wanted, edges)) {
      SameRank(rank, Ranked(first), r, found);
      SameRank(rank, Ranked(first), r, Filter(wanted, edges));
    }
  }

  lemma KeptInOrder(rank: Edge -> Rank, first: Edge -> string, found: seq<Edge>)
    requires SortedBy(rank, RankLess, found) && forall e :: rank(e) == (first(e), e.kind)
    ensures Ordered(first, found)
  {
    forall i, j | 0 <= i < j < |found|
      ensures || LexLess(first(found[i]), first(found[j]))
              || (first(found[i]) == first(found[j]) && LexAtMost(found[i].kind, found[j].kind))
    {
      assert !RankLess(rank(found[j]), rank(found[i]));
      LexTrichotomy(first(found[i]), first(found[j]));
    }
  }

  /** The file has a name below the directory of generated owner graphs. */
  predicate Generated(path: string) {
    ".atlas/synthetic/" <= path
  }

  /** Outgoing edges of a symbol, by target and then kind. */
  lemma OutboundEdgesAre(v: View, nodes: seq<Node>, edges: seq<Edge>, name: string, wanted: Edge -> bool)
    requires IsViewOf(v, nodes, edges) && forall e :: wanted(e) <==> e.source == name && !Generated(e.path)
    ensures Finds(OutboundEdges(v, name), edges, wanted, (e: Edge) => e.target)
  {
    SymbolLookups(v, nodes, edges, name);
    KeyedFinds(ByTarget, (e: Edge) => e.target, SourceKey, name, wanted, OutboundEdges(v, name), edges);
  }

  /** Incoming edges of a symbol, by source and then kind. */
  lemma InboundEdgesAre(v: View, nodes: seq<Node>, edges: seq<Edge>, name: string, wanted: Edge -> bool)
    requires IsViewOf(v, nodes, edges) && forall e :: wanted(e) <==> e.target == name && !Generated(e.path)
    ensures Finds(InboundEdges(v, name), edges, wanted, (e: Edge) => e.source)
  {
    SymbolLookups(v, nodes, edges, name);
    KeyedFinds(BySource, (e: Edge) => e.source, TargetKey, name, wanted, InboundEdges(v, name), edges);
  }

  /** The first node of that name outside generated files is in this file. */
  ghost predicate LivesIn(nodes: seq<Node>, name: string, path: string) {
    exists i :: 0 <= i < |nodes| && FirstNamed(nodes, name, i) && nodes[i].path == path
  }

  ghost predicate FirstNamed(nodes: seq<Node>, name: string, i: nat) {
    && i < |nodes| && nodes[i].qualifiedName == name && !Generated(nodes[i].path)
    && forall j :: 0 <= j < i && nodes[j].qualifiedName == name ==> Generated(nodes[j].path)
  }

  lemma {:induction false} NodeOfIsFirst(nodes: seq<Node>, name: string)
    ensures NodeOf(nodes, name).Some? ==>
              exists i :: 0 <= i < |nodes| && FirstNamed(nodes, name, i) && nodes[i] == NodeOf(nodes, name).value
  {
    if nodes != [] {
      if !Synthetic(nodes[0].path) && nodes[0].qualifiedName == name {
        assert FirstNamed(nodes, name, 0);
      } else if NodeOf(nodes, name).Some? {
        NodeOfIsFirst(nodes[1..], name);
        var i :| 0 <= i < |nodes[1..]| && FirstNamed(nodes[1..], name, i) && nodes[1..][i] == NodeOf(nodes, name).value;
        assert forall j :: 0 < j < |nodes| ==> nodes[j] == nodes[1..][j - 1];
        assert FirstNamed(nodes, name, i + 1);
      }
    }
  }

  lemma LivesInIff(nodes: seq<Node>, name: string, path: string)
    ensures LivesIn(nodes, name, path) <==> NodeOf(nodes, name).Some? && NodeOf(nodes, name).value.path == path
  {
    NodeOfIsFirst(nodes, name);
    if LivesIn(nodes, name, path) {
      var i :| 0 <= i < |nodes| && FirstNamed(nodes, name, i) && nodes[i].path == path;
      assert nodes[i] in nodes;
      var j :| 0 <= j < |nodes| && FirstNamed(nodes, name, j) && nodes[j] == NodeOf(nodes, name).value;
      assert i == j;
    }
  }

  /** A dependency from one file to another: not containment, not generated, both ends known and in these files. */
  ghost predicate Depends(nodes: seq<Node>, e: Edge, source: string, target: string) {
    && e.kind != "contains" && !Generated(e.path) && source != target
    && LivesIn(nodes, e.source, source) && LivesIn(nodes, e.target, target)
  }

  lemma CrossFileDepends(nodes: seq<Node>, e: Edge, path: string)
    ensures OutKey(nodes)(e) == Some(path) <==> exists other :: Depends(nodes, e, path, other)
    ensures InKey(nodes)(e) == Some(path) <==> exists other :: Depends(nodes, e, other, path)
  {
    forall p
      ensures LivesIn(nodes, e.source, p) <==> NodeOf(nodes, e.source).Some? && NodeOf(nodes, e.source).value.path == p
    {
      LivesInIff(nodes, e.source, p);
    }
    forall p
      ensures LivesIn(nodes, e.target, p) <==> NodeOf(nodes, e.target).Some? && NodeOf(nodes, e.target).value.path == p
    {
      LivesInIff(nodes, e.target, p);
    }
    if CrossFile(nodes, e) {
      assert Depends(nodes, e, NodeOf(nodes, e.source).value.path, NodeOf(nodes, e.target).value.path);
    }
  }

  /** The edges found in a file, in input order. */
  lemma FileEdgesAre(v: View, nodes: seq<Node>, edges: seq<Edge>, path: string, wanted: Edge -> bool)
    requires IsViewOf(v, nodes, edges) && forall e :: wanted(e) <==> e.path == path && !Generated(e.path)
    ensures At(v.byFile, path) == Filter(wanted, edges)
  {
    FileLookups(v, nodes, edges, path);
    MatchingIs(FileKey, path, wanted, edges);
  }

  /** Dependencies of a file on others, by target; and of others on it, by source. */
  lemma FileDependenciesAre(v: View, nodes: seq<Node>, edges: seq<Edge>, path: string, wanted: Edge -> bool)
    requires IsViewOf(v, nodes, edges) && forall e :: wanted(e) <==> exists other :: Depends(nodes, e, path, other)
    ensures Finds(At(v.outByFile, path), edges, wanted, (e: Edge) => e.target)
  {
    FileLookups(v, nodes, edges, path);
    forall e ensures wanted(e) <==> OutKey(nodes)(e) == Some(path) { CrossFileDepends(nodes, e, path); }
    KeyedFinds(ByTarget, (e: Edge) => e.target, OutKey(nodes), path, wanted, At(v.outByFile, path), edges);
  }

  lemma FileDependentsAre(v: View, nodes: seq<Node>, edges: seq<Edge>, path: string, wanted: Edge -> bool)
    requires IsViewOf(v, nodes, edges) && forall e :: wanted(e) <==> exists other :: Depends(nodes, e, other, path)
    ensures Finds(At(v.inByFile, path), edges, wanted, (e: Edge) => e.source)
  {
    FileLookups(v, nodes, edges, path);
    forall e ensures wanted(e) <==> InKey(nodes)(e) == Some(path) { CrossFileDepends(nodes, e, path); }
    KeyedFinds(BySource, (e: Edge) => e.source, InKey(nodes), path, wanted, At(v.inByFile, path), edges);
  }

  /** Every dependency leaves one file and enters one file: both totals count the cross-file edges. */
  lemma TotalsAgree(v: View, nodes: seq<Node>, edges: seq<Edge>)
    requires IsViewOf(v, nodes, edges)
    ensures Total(v.outByFile) == Total(v.inByFile) == |Filter((e: Edge) => CrossFile(nodes, e), edges)|
  {
    GroupTotal(OutKey(nodes), edges);
    GroupTotal(InKey(nodes), edges);
    SortedTotal(ByTarget, Group(OutKey(nodes), edges));
    SortedTotal(BySource, Group(InKey(nodes), edges));
    var cross := (e: Edge) => CrossFile(nodes, e);
    SameFilter((e: Edge) => OutKey(nodes)(e).Some?, cross, edges);
    SameFilter((e: Edge) => InKey(nodes)(e).Some?, cross, edges);
  }

  /** Two edge lists agree on each group of edges of the same rank. */
  ghost predicate AgreeOnTies(rank: Edge -> Rank, xs: seq<Edge>, ys: seq<Edge>) {
    forall k :: OfRank(rank, k, xs) == OfRank(rank, k, ys)
  }

  lemma SortedEqualIff(rank: Edge -> Rank, xs: seq<Edge>, ys: seq<Edge>, sx: seq<Edge>, sy: seq<Edge>)
    requires SortedPermutation(rank, sx, xs) && SortedPermutation(rank, sy, ys)
    ensures sx == sy <==> AgreeOnTies(rank, xs, ys)
  {
    if AgreeOnTies(rank, xs, ys) {
      RankIsStrictTotal();
      forall k ensures OfRank(rank, k, sx) == OfRank(rank, k, sy) {
        assert OfRank(rank, k, xs) == OfRank(rank, k, ys);
      }
      SortedByUnique(rank, RankLess, sx, sy);
    }
    if sx == sy {
      forall k ensures OfRank(rank, k, xs) == OfRank(rank, k, ys) {
        assert OfRank(rank, k, sx) == OfRank(rank, k, sy);
      }
    }
  }

  /**
   A symbol lookup is independent of the order the edges came in exactly when that order agrees on each group of
   edges with the same other end and kind.
   */
  lemma LookupIgnoresOrderIff(v: View, v': View, nodes: seq<Node>, edges: seq<Edge>, edges': seq<Edge>, name: string)
    requires IsViewOf(v, nodes, edges) && IsViewOf(v', nodes, edges')
    ensures OutboundEdges(v, name) == OutboundEdges(v', name) <==>
            AgreeOnTies(ByTarget, Matching(SourceKey, name, edges), Matching(SourceKey, name, edges'))
    ensures InboundEdges(v, name) == InboundEdges(v', name) <==>
            AgreeOnTies(BySource, Matching(TargetKey, name, edges), Matching(TargetKey, name, edges'))
  {
    SymbolLookups(v, nodes, edges, name);
    SymbolLookups(v', nodes, edges', name);
    SortedEqualIff(ByTarget, Matching(SourceKey, name, edges), Matching(SourceKey, name, edges'),
                   OutboundEdges(v, name), OutboundEdges(v', name));
    SortedEqualIff(BySource, Matching(TargetKey, name, edges), Matching(TargetKey, name, edges'),
                   InboundEdges(v, name), InboundEdges(v', name));
  }

  /** The same for per-file lookups; edges by file keep the input order outright. */
  lemma FileLookupIgnoresOrderIff(v: View, v': View, nodes: seq<Node>, edges: seq<Edge>, edges': seq<Edge>,
      path: string)
    requires IsViewOf(v, nodes, edges) && IsViewOf(v', nodes, edges')
    ensures At(v.byFile, path) == At(v'.byFile, path) <==>
            Matching(FileKey, path, edges) == Matching(FileKey, path, edges')
    ensures At(v.outByFile, path) == At(v'.outByFile, path) <==>
            AgreeOnTies(ByTarget, Matching(OutKey(nodes), path, edges), Matching(OutKey(nodes), path, edges'))
    ensures At(v.inByFile, path) == At(v'.inByFile, path) <==>
            AgreeOnTies(BySource, Matching(InKey(nodes), path, edges), Matching(InKey(nodes), path, edges'))
  {
    FileLookups(v, nodes, edges, path);
    FileLookups(v', nodes, edges', path);
    SortedEqualIff(ByTarget, Matching(OutKey(nodes), path, edges), Matching(OutKey(nodes), path, edges'),
                   At(v.outByFile, path), At(v'.outByFile, path));
    SortedEqualIff(BySource, Matching(InKey(nodes), path, edges), Matching(InKey(nodes), path, edges'),
                   At(v.inByFile, path), At(v'.inByFile, path));
  }

  /** Edges that tie in target and kind come out in the order they came in, so that order shows. */
  lemma TiesShowInputOrder(v: View, v': View, nodes: seq<Node>, e: Edge, f: Edge)
    requires e != f && e.source == f.source && ByTarget(e) == ByTarget(f) && !Synthetic(e.path) && !Synthetic(f.path)
    requires IsViewOf(v, nodes, [e, f]) && IsViewOf(v', nodes, [f, e])
    ensures OutboundEdges(v, e.source) != OutboundEdges(v', e.source)
  {
    LookupIgnoresOrderIff(v, v', nodes, [e, f], [f, e], e.source);
    BothMatch(e, f);
    BothMatch(f, e);
    assert OfRank(ByTarget, ByTarget(e), Matching(SourceKey, e.source, [e, f])) !=
           OfRank(ByTarget, ByTarget(e), Matching(SourceKey, e.source, [f, e]));
  }

  lemma BothMatch(e: Edge, f: Edge)
    requires e.source == f.source && ByTarget(e) == ByTarget(f) && !Synthetic(e.path) && !Synthetic(f.path)
    ensures OfRank(ByTarget, ByTarget(e), Matching(SourceKey, e.source, [e, f])) == [e, f]
  {
    AllMatch(SourceKey, e.source, [e, f]);
    AllOfRank(ByTarget, ByTarget(e), [e, f]);
  }

  lemma AllMatch(key: Edge -> Option<string>, k: string, edges: seq<Edge>)
    requires forall x :: x in edges ==> key(x) == Some(k)
    ensures Matching(key, k, edges) == edges
  {
    FilterAll((x: Edge) => key(x) == Some(k), edges);
  }
}
