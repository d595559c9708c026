/**
 Dependency diagrams (packages/atlas-docs/src/export.rs, `export_diagram` and `aggregate_edges`): sort and cap the
 labels, aggregate raw edges by endpoint and kind, cap them, and report what was left out.
 */
module DiagramExport {
  import opened Wrappers
  import opened Collections

  type Label = string

  datatype RawEdge = RawEdge(source: Label, target: Label, kind: string)

  /** An aggregated edge between two node ids. */
  datatype Key = Key(source: nat, target: nat, kind: string)

  datatype AggEdge = AggEdge(key: Key, count: nat)

  datatype Diagram = Diagram(labels: seq<Label>, edges: seq<AggEdge>, omittedNodes: nat, omittedEdges: int)

  predicate KeyLess(a: Key, b: Key) {
    || a.source < b.source
    || (a.source == b.source && (a.target < b.target || (a.target == b.target && LexLess(a.kind, b.kind))))
  }

  lemma KeyIsStrictTotal()
    ensures StrictTotal(KeyLess)
  {
    LexIsStrictTotal();
    forall x, y, z: Key | KeyLess(x, y) && KeyLess(y, z) ensures KeyLess(x, z) {
      if x.source == y.source == z.source && x.target == y.target == z.target { LexTransitive(x.kind, y.kind, z.kind); }
    }
    forall x, y: Key ensures !KeyLess(x, x) && (KeyLess(x, y) || x == y || KeyLess(y, x)) {
      LexTrichotomy(x.kind, y.kind);
    }
  }

  // ---------------------------------------------------------------- specification

  /** Position of a label among the kept ones. */
  function IndexOf(nodes: seq<Label>, l: Label): (i: Option<nat>)
    ensures i.Some? <==> l in nodes
    ensures i.Some? ==> i.value < |nodes| && nodes[i.value] == l
  {
    if nodes == [] then None
    else if nodes[0] == l then Some(0)
    else match IndexOf(nodes[1..], l) case None => None case Some(j) => Some(j + 1)
  }

  /** The aggregate a raw edge falls into; none for an endpoint outside the kept labels or a self-loop. */
  function KeyOf(nodes: seq<Label>, e: RawEdge): Option<Key> {
    var s, t := IndexOf(nodes, e.source), IndexOf(nodes, e.target);
    if s.None? || t.None? || s.value == t.value then None else Some(Key(s.value, t.value, e.kind))
  }

  function RawOf(nodes: seq<Label>, k: Key): RawEdge
    requires k.source < |nodes| && k.target < |nodes|
  {
    RawEdge(nodes[k.source], nodes[k.target], k.kind)
  }

  function Keys(nodes: seq<Label>, edges: set<RawEdge>): set<Key> {
    set e | e in edges && KeyOf(nodes, e).Some? :: KeyOf(nodes, e).value
  }

  /** Node ids are positions of distinct labels, so an aggregate stands for exactly one kind of raw edge. */
  lemma KeyIsRaw(nodes: seq<Label>, e: RawEdge, k: Key)
    requires NoDuplicates(nodes)
    ensures KeyOf(nodes, e) == Some(k) <==>
            k.source < |nodes| && k.target < |nodes| && k.source != k.target && RawOf(nodes, k) == e
  {}

  /** Aggregated edges in key order, each with the number of raw edges it stands for. */
  function Aggregated(nodes: seq<Label>, edges: multiset<RawEdge>): seq<AggEdge>
    requires NoDuplicates(nodes)
  {
    Weighted(nodes, edges, SortedKeys(Keys(nodes, set e | e in edges)))
  }

  function SortedKeys(keys: set<Key>): (list: seq<Key>)
    ensures NoDuplicates(list) && StrictlySorted(KeyLess, list) && forall k :: k in list <==> k in keys
  {
    KeyIsStrictTotal();
    StrictlySortedIsDistinct(KeyLess, InOrder(KeyLess, keys));
    InOrder(KeyLess, keys)
  }

  function Weighted(nodes: seq<Label>, edges: multiset<RawEdge>, keys: seq<Key>): (agg: seq<AggEdge>)
    ensures |agg| == |keys|
    ensures forall i :: 0 <= i < |keys| ==> agg[i].key == keys[i]
  {
    seq(|keys|, i requires 0 <= i < |keys| =>
      AggEdge(keys[i], Weight(nodes, edges, keys[i])))
  }

  function Take<T>(xs: seq<T>, n: nat): seq<T> {
    if n < |xs| then xs[..n] else xs
  }

  function Total(edges: seq<AggEdge>): nat {
    if edges == [] then 0 else Total(edges[..|edges| - 1]) + edges[|edges| - 1].count
  }

  function SortedLabels(labels: seq<Label>): seq<Label> {
    SortDistinct(LexLess, labels)
  }

  lemma SortedLabelsCorrect(labels: seq<Label>)
    ensures StrictlySorted(LexLess, SortedLabels(labels)) && NoDuplicates(SortedLabels(labels))
    ensures forall l :: l in SortedLabels(labels) <==> l in labels
  {
    LexIsStrictTotal();
    SortDistinctCorrect(LexLess, labels);
    StrictlySortedIsDistinct(LexLess, SortedLabels(labels));
  }

  // ---------------------------------------------------------------- the code

  /** Number of raw edges an aggregate stands for. */
  function Weight(nodes: seq<Label>, edges: multiset<RawEdge>, k: Key): nat {
    if k.source < |nodes| && k.target < |nodes| && k.source != k.target then edges[RawOf(nodes, k)] else 0
  }

  /** The groups are exactly the aggregates some edge falls into, each with its weight. */
  ghost predicate Counts(grouped: map<Key, nat>, nodes: seq<Label>, edges: multiset<RawEdge>) {
    forall k :: (k in grouped <==> Weight(nodes, edges, k) > 0)
      && (k in grouped ==> grouped[k] == Weight(nodes, edges, k))
  }

  lemma WeightOneMore(nodes: seq<Label>, edges: multiset<RawEdge>, e: RawEdge, k: Key)
    requires NoDuplicates(nodes)
    ensures Weight(nodes, edges + multiset{e}, k) ==
            Weight(nodes, edges, k) + if KeyOf(nodes, e) == Some(k) then 1 else 0
  {
    KeyIsRaw(nodes, e, k);
  }

  lemma WeightIsKey(nodes: seq<Label>, edges: multiset<RawEdge>, k: Key)
    requires NoDuplicates(nodes)
    ensures k in Keys(nodes, set e | e in edges) <==> Weight(nodes, edges, k) > 0
  {
    if k in Keys(nodes, set e | e in edges) {
      var e :| e in edges && KeyOf(nodes, e) == Some(k);
      KeyIsRaw(nodes, e, k);
    }
    if Weight(nodes, edges, k) > 0 {
      KeyIsRaw(nodes, RawOf(nodes, k), k);
      assert RawOf(nodes, k) in edges;
    }
  }

  function Bump(grouped: map<Key, nat>, key: Option<Key>): map<Key, nat> {
    if key.None? then grouped else grouped[key.value := (if key.value in grouped then grouped[key.value] else 0) + 1]
  }

  lemma CountsOneMore(grouped: map<Key, nat>, nodes: seq<Label>, before: multiset<RawEdge>, e: RawEdge)
    requires NoDuplicates(nodes) && Counts(grouped, nodes, before)
    ensures Counts(Bump(grouped, KeyOf(nodes, e)), nodes, before + multiset{e})
  {
    var key := KeyOf(nodes, e);
    var after := Bump(grouped, key);
    forall k
      ensures k in after <==> Weight(nodes, before + multiset{e}, k) > 0
      ensures k in after ==> after[k] == Weight(nodes, before + multiset{e}, k)
    {
      WeightOneMore(nodes, before, e, k);
      assert k in grouped <==> Weight(nodes, before, k) > 0;
    }
  }

  function ListGroups(grouped: map<Key, nat>): seq<AggEdge> {
    var keys := SortedKeys(grouped.Keys);
    seq(|keys|, i requires 0 <= i < |keys| => AggEdge(keys[i], grouped[keys[i]]))
  }

  lemma GroupsAreKeys(grouped: map<Key, nat>, nodes: seq<Label>, edges: multiset<RawEdge>)
    requires NoDuplicates(nodes) && Counts(grouped, nodes, edges)
    ensures grouped.Keys == Keys(nodes, set e | e in edges)
  {
    forall k ensures k in grouped.Keys <==> k in Keys(nodes, set e | e in edges) {
      WeightIsKey(nodes, edges, k);
      assert k in grouped <==> Weight(nodes, edges, k) > 0;
    }
  }

  /** Listing correct groups in key order gives the aggregated edges. */
  lemma ListedGroups(grouped: map<Key, nat>, nodes: seq<Label>, edges: multiset<RawEdge>)
    requires NoDuplicates(nodes) && Counts(grouped, nodes, edges)
    ensures ListGroups(grouped) == Aggregated(nodes, edges)
  {
    GroupsAreKeys(grouped, nodes, edges);
    WeightedGroups(grouped, nodes, edges, SortedKeys(grouped.Keys));
  }

  lemma WeightedGroups(grouped: map<Key, nat>, nodes: seq<Label>, edges: multiset<RawEdge>, keys: seq<Key>)
    requires Counts(grouped, nodes, edges) && forall k :: k in keys ==> k in grouped
    ensures forall i :: 0 <= i < |keys| ==>
            keys[i] in grouped && AggEdge(keys[i], grouped[keys[i]]) == Weighted(nodes, edges, keys)[i]
  {}

  /** Count raw edges per aggregate, then list the aggregates in key order. */
  method AggregateEdges(edges: seq<RawEdge>, nodes: seq<Label>) returns (agg: seq<AggEdge>)
    requires NoDuplicates(nodes)
    ensures agg == Aggregated(nodes, multiset(edges))
  {
    var grouped: map<Key, nat> := map[];
    for i := 0 to |edges|
      invariant Counts(grouped, nodes, multiset(edges[..i]))
    {
      TakeSnoc(edges, i);
      CountsOneMore(grouped, nodes, multiset(edges[..i]), edges[i]);
      grouped := Bump(grouped, KeyOf(nodes, edges[i]));
    }
    assert edges[..|edges|] == edges;
    ListedGroups(grouped, nodes, multiset(edges));
    agg := ListGroups(grouped);
  }

  /** The aggregates that fit the cap; they stand for no more raw edges than there are. */
  method RenderedEdges(edges: seq<RawEdge>, nodes: seq<Label>, maxEdges: nat) returns (agg: seq<AggEdge>)
    requires NoDuplicates(nodes)
    ensures agg == Take(Aggregated(nodes, multiset(edges)), maxEdges) && Total(agg) <= |edges|
  {
    agg := AggregateEdges(edges, nodes);
    if |agg| > maxEdges {
      agg := agg[..maxEdges];
    }
    RenderedFits(nodes, multiset(edges), maxEdges);
  }

  /** Sort, deduplicate and cap the labels; aggregate and cap the edges; report the rest as omitted. */
  method ExportDiagram(labels: seq<Label>, edges: seq<RawEdge>, maxNodes: nat, maxEdges: nat) returns (d: Diagram)
    ensures d == Export(labels, multiset(edges), maxNodes, maxEdges)
  {
    var total := |SortedLabels(labels)|;
    var nodes := KeptLabels(labels, maxNodes);
    var agg := RenderedEdges(edges, nodes, maxEdges);
    var rendered := SumCounts(agg);
    d := Diagram(nodes, agg, total - |nodes|, if |edges| >= rendered then |edges| - rendered else 0);
  }

  method SumCounts(agg: seq<AggEdge>) returns (sum: nat)
    ensures sum == Total(agg)
  {
    sum := 0;
    for i := 0 to |agg|
      invariant sum == Total(agg[..i])
    {
      TakeSnoc(agg, i);
      assert agg[..i + 1][..i] == agg[..i];
      sum := sum + agg[i].count;
    }
    assert agg[..|agg|] == agg;
  }

  function KeptLabels(labels: seq<Label>, maxNodes: nat): (nodes: seq<Label>)
    ensures NoDuplicates(nodes) && |nodes| <= |SortedLabels(labels)|
  {
    SortedLabelsCorrect(labels);
    Take(SortedLabels(labels), maxNodes)
  }

  /** The diagram as a function of the labels and the multiset of raw edges. */
  function Export(labels: seq<Label>, edges: multiset<RawEdge>, maxNodes: nat, maxEdges: nat): Diagram {
    var nodes := KeptLabels(labels, maxNodes);
    var rendered := Take(Aggregated(nodes, edges), maxEdges);
    Diagram(nodes, rendered, |SortedLabels(labels)| - |nodes|, |edges| - Total(rendered))
  }

  // ---------------------------------------------------------------- conservation

  /** Distinct aggregates stand for distinct raw edges, so their counts never exceed the raw total. */
  lemma {:induction false} WeightedFits(nodes: seq<Label>, edges: multiset<RawEdge>, keys: seq<Key>)
    requires NoDuplicates(nodes) && NoDuplicates(keys)
    requires forall k :: k in keys ==> k.source < |nodes| && k.target < |nodes|
    ensures Total(Weighted(nodes, edges, keys)) <= |edges|
  {
    if keys != [] {
      var init, last := keys[..|keys| - 1], keys[|keys| - 1];
      var raw := RawOf(nodes, last);
      var rest := edges[raw := 0];
      assert edges == rest[raw := edges[raw]];
      WeightedFits(nodes, rest, init);
      forall i | 0 <= i < |init| ensures rest[RawOf(nodes, init[i])] == edges[RawOf(nodes, init[i])] {
        assert init[i] != last;
        assert RawOf(nodes, init[i]) != raw;
      }
      assert Weighted(nodes, edges, keys)[..|init|] == Weighted(nodes, rest, init);
    }
  }

  lemma RenderedFits(nodes: seq<Label>, edges: multiset<RawEdge>, maxEdges: nat)
    requires NoDuplicates(nodes)
    ensures Total(Take(Aggregated(nodes, edges), maxEdges)) <= |edges|
  {
    var keys := SortedKeys(Keys(nodes, set e | e in edges));
    var taken := Take(keys, maxEdges);
    forall k | k in taken ensures k.source < |nodes| && k.target < |nodes| {
      assert k in keys;
      var e :| e in edges && KeyOf(nodes, e) == Some(k);
    }
    assert Take(Aggregated(nodes, edges), maxEdges) == Weighted(nodes, edges, taken);
    WeightedFits(nodes, edges, taken);
  }

  /**
   Conservation: every raw edge is either counted in exactly one rendered edge or reported as omitted, and every
   distinct label is either kept or reported as omitted.
   */
  lemma NothingIsLost(labels: seq<Label>, edges: multiset<RawEdge>, maxNodes: nat, maxEdges: nat)
    ensures var d := Export(labels, edges, maxNodes, maxEdges);
            && Total(d.edges) + d.omittedEdges == |edges| && d.omittedEdges >= 0
            && |d.labels| + d.omittedNodes == |ToSet(labels)|
            && |d.labels| <= maxNodes && |d.edges| <= maxEdges && (d.omittedNodes > 0 ==> |d.labels| == maxNodes)
  {
    var nodes := KeptLabels(labels, maxNodes);
    RenderedFits(nodes, edges, maxEdges);
    SortedLabelsCorrect(labels);
    DistinctCount(SortedLabels(labels));
    assert ToSet(SortedLabels(labels)) == ToSet(labels);
  }

  lemma {:induction false} DistinctCount<T(!new)>(xs: seq<T>)
    requires NoDuplicates(xs)
    ensures |ToSet(xs)| == |xs|
  {
    if xs != [] {
      DistinctCount(xs[1..]);
      assert ToSet(xs) == ToSet(xs[1..]) + {xs[0]};
      assert xs[0] !in xs[1..];
    }
  }

  lemma AggregateIsExact(nodes: seq<Label>, edges: multiset<RawEdge>, i: nat)
    requires NoDuplicates(nodes) && i < |Aggregated(nodes, edges)|
    ensures var k := Aggregated(nodes, edges)[i].key;
            && k.source < |nodes| && k.target < |nodes| && k.source != k.target
            && Aggregated(nodes, edges)[i].count == edges[RawOf(nodes, k)] > 0
  {
    var keys := SortedKeys(Keys(nodes, set e | e in edges));
    assert keys[i] in keys;
    WeightIsKey(nodes, edges, keys[i]);
  }

  /**
   Each rendered edge names two different kept labels by their position in text order, and its count is the exact
   number of raw edges between them of that kind.
   */
  lemma RenderedEdgesAreExact(labels: seq<Label>, edges: multiset<RawEdge>, maxNodes: nat, maxEdges: nat, i: nat)
    requires i < |Export(labels, edges, maxNodes, maxEdges).edges|
    ensures var d := Export(labels, edges, maxNodes, maxEdges);
            var k := d.edges[i].key;
            && k.source < |d.labels| && k.target < |d.labels| && k.source != k.target
            && d.edges[i].count == edges[RawEdge(d.labels[k.source], d.labels[k.target], k.kind)] > 0
  {
    AggregateIsExact(KeptLabels(labels, maxNodes), edges, i);
  }

  /** Kept labels are the first ones in text order, and rendered edges come in strictly increasing key order. */
  lemma DiagramIsSorted(labels: seq<Label>, edges: multiset<RawEdge>, maxNodes: nat, maxEdges: nat)
    ensures var d := Export(labels, edges, maxNodes, maxEdges);
            && StrictlySorted(LexLess, d.labels)
            && (forall i, j :: 0 <= i < j < |d.edges| ==>
                  var k, l := d.edges[i].key, d.edges[j].key;
                  || k.source < l.source
                  || (k.source == l.source
                      && (k.target < l.target || (k.target == l.target && LexLess(k.kind, l.kind)))))
            && (forall l :: l in labels && l !in d.labels ==> forall m :: m in d.labels ==> LexLess(m, l))
  {
    SortedLabelsCorrect(labels);
    var sorted, nodes := SortedLabels(labels), KeptLabels(labels, maxNodes);
    forall l, m | l in labels && l !in nodes && m in nodes ensures LexLess(m, l) {
      var i :| 0 <= i < |sorted| && sorted[i] == l;
      var j :| 0 <= j < |nodes| && nodes[j] == m;
    }
  }

  /** The key names the kept labels at both ends of the raw edge, and its kind. */
  ghost predicate IsEdgeOf(d: Diagram, k: Key, e: RawEdge) {
    && k.source < |d.labels| && k.target < |d.labels| && k.kind == e.kind
    && d.labels[k.source] == e.source && d.labels[k.target] == e.target
  }

  lemma DrawnKeys(nodes: seq<Label>, edges: multiset<RawEdge>, maxEdges: nat)
    requires NoDuplicates(nodes)
    ensures var keys, drawn := SortedKeys(Keys(nodes, set x | x in edges)), Take(Aggregated(nodes, edges), maxEdges);
            && |drawn| == (if maxEdges < |keys| then maxEdges else |keys|)
            && forall j :: 0 <= j < |drawn| ==> drawn[j].key == keys[j]
  {}

  lemma CutComesLater(d: Diagram, keys: seq<Key>, i: nat, maxEdges: nat, e: RawEdge)
    requires StrictlySorted(KeyLess, keys) && maxEdges == |d.edges| <= i < |keys| && NoDuplicates(d.labels)
    requires forall j :: 0 <= j < |d.edges| ==> d.edges[j].key == keys[j]
    requires IsEdgeOf(d, keys[i], e)
    ensures forall l :: IsEdgeOf(d, l, e) ==> forall j :: 0 <= j < |d.edges| ==> KeyLess(d.edges[j].key, l)
  {
    forall l | IsEdgeOf(d, l, e) ensures l == keys[i] {}
  }

  /** Nothing drawable is dropped unless the edge cap cuts it, and then it comes after everything drawn. */
  lemma DrawableEdgesAreDrawn(labels: seq<Label>, edges: multiset<RawEdge>, maxNodes: nat, maxEdges: nat, e: RawEdge)
    requires e in edges && e.source != e.target
    requires e.source in KeptLabels(labels, maxNodes) && e.target in KeptLabels(labels, maxNodes)
    ensures var d := Export(labels, edges, maxNodes, maxEdges);
            || (exists i :: 0 <= i < |d.edges| && IsEdgeOf(d, d.edges[i].key, e))
            || (|d.edges| == maxEdges && forall k :: IsEdgeOf(d, k, e) ==>
                  forall i :: 0 <= i < |d.edges| ==> KeyLess(d.edges[i].key, k))
  {
    var d := Export(labels, edges, maxNodes, maxEdges);
    var keys := SortedKeys(Keys(d.labels, set x | x in edges));
    var k := KeyOf(d.labels, e).value;
    KeyIsRaw(d.labels, e, k);
    assert k in keys;
    var i :| 0 <= i < |keys| && keys[i] == k;
    DrawnKeys(d.labels, edges, maxEdges);
    if i < |d.edges| {
      assert d.edges[i].key == k && IsEdgeOf(d, k, e);
    } else {
      CutComesLater(d, keys, i, maxEdges, e);
    }
  }

  /** Determinism: the order of labels and of raw edges, and repeated labels, change nothing. */
  lemma OrderDoesNotMatter(labels: seq<Label>, labels': seq<Label>, edges: seq<RawEdge>, edges': seq<RawEdge>,
                           maxNodes: nat, maxEdges: nat)
    requires ToSet(labels) == ToSet(labels') && multiset(edges) == multiset(edges')
    ensures Export(labels, multiset(edges), maxNodes, maxEdges) == Export(labels', multiset(edges'), maxNodes, maxEdges)
  {
    SortedLabelsCorrect(labels);
    SortedLabelsCorrect(labels');
    LexIsStrictTotal();
    forall l ensures l in SortedLabels(labels) <==> l in SortedLabels(labels') {
      assert l in ToSet(labels) <==> l in ToSet(labels');
    }
    StrictlySortedUnique(LexLess, SortedLabels(labels), SortedLabels(labels'));
  }
}
