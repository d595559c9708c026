/**
 Late call-target resolution (packages/atlas-engine/src/call_resolution.rs, `reconcile_call_targets` and the
 resolvers it calls). Edges of the given files are rewritten once their target can be determined; two memo tables
 are shared by all files of one pass.
 */
module CallResolution {
  import opened Wrappers
  import opened Collections

  type Path = string

  datatype BindingKind = Wildcard | Named | From | ModuleName | Namespace | PackageName | DefaultName | OtherKind

  datatype Binding = Binding(source: string, local: string, imported: Option<string>, kind: BindingKind, level: nat)

  datatype NodeKind = FileNode | ImportNode(bindings: seq<Binding>) | OtherNode

  /** A graph node; `repo` is its optional repository label and `receiver` the type a method belongs to. */
  datatype Node = Node(kind: NodeKind, qualifiedName: string, path: Path, language: string, repo: Option<string>,
                       receiver: Option<string>)

  datatype EdgeKind = Calls | OtherEdge(name: string)

  datatype Tier = SameFile | Imports | SamePackage | OtherTier(name: string)

  datatype Field = CalleeName | ReceiverText | ReceiverType | SourceRepo | TargetRepo | Reason | TierLabel | Unresolved
                 | AllowedRepos | OtherField(name: string)

  datatype Value = Text(text: string) | TierText(tier: Tier) | Flag(flag: bool) | Names(names: set<string>)
                 | Opaque(json: string)

  /** `extra` is absent when the stored JSON is not an object. */
  datatype Edge = Edge(kind: EdgeKind, source: string, target: string, path: Path, line: Option<nat>, confidence: real,
                       tier: Option<Tier>, extra: Option<map<Field, Value>>)

  datatype Meta = Meta(callee: string, receiverText: Option<string>, receiverType: Option<string>)

  /**
   What a pass reads and never writes: the node rows, owner rows and import resolution, which stands for the file
   system and the resolver configuration. `options` lists candidate file sets with the name to look for.
   */
  datatype World = World(
    repo: string,
    allowed: set<string>,
    nodesOf: Path -> seq<Node>,
    callables: (string, string) -> seq<Node>,
    ownerOf: Path -> Option<string>,
    options: (Path, string, Binding, string) -> Option<seq<(set<Path>, string)>>,
    hintOf: string -> Option<string>,
    parentOf: Path -> Option<Path>)

  datatype Context = Context(path: Path, language: string, bindings: seq<Binding>)

  datatype Tables = Tables(candidates: map<(string, string), seq<Node>>, owners: map<Path, Option<string>>)

  datatype Target = Target(node: Node, tier: Tier)

  // ---------------------------------------------------------------- reading edges and nodes

  function TextOf(extra: map<Field, Value>, f: Field): Option<string> {
    if f in extra && extra[f].Text? then Some(extra[f].text) else None
  }

  function NonEmpty(t: Option<string>): Option<string> {
    if t == Some("") then None else t
  }

  function MetaOf(e: Edge): Option<Meta> {
    if e.extra.None? then None
    else match TextOf(e.extra.value, CalleeName)
         case None => None
         case Some(callee) => Some(Meta(callee, NonEmpty(TextOf(e.extra.value, ReceiverText)),
                                        NonEmpty(TextOf(e.extra.value, ReceiverType))))
  }

  /** Edges the pass looks at: calls with a callee name, not already resolved within their file. */
  predicate Eligible(e: Edge) {
    e.kind == Calls && MetaOf(e).Some? && e.tier != Some(SameFile)
  }

  function LanguageOf(nodes: seq<Node>): string
    requires nodes != []
  {
    var files := Filter((n: Node) => n.kind == FileNode, nodes);
    if files != [] then files[0].language else nodes[0].language
  }

  function BindingsOf(nodes: seq<Node>): seq<Binding> {
    if nodes == [] then []
    else (if nodes[0].kind.ImportNode? then nodes[0].kind.bindings else []) + BindingsOf(nodes[1..])
  }

  predicate Permitted(w: World, n: Node) {
    n.repo.Some? ==> n.repo.value in w.allowed
  }

  function PermittedOf(w: World, nodes: seq<Node>): seq<Node> {
    Filter((n: Node) => Permitted(w, n), nodes)
  }

  function InFiles(files: set<Path>, nodes: seq<Node>): seq<Node> {
    Filter((n: Node) => n.path in files, nodes)
  }

  function Unique(nodes: seq<Node>): Option<Node> {
    if |nodes| == 1 then Some(nodes[0]) else None
  }

  predicate SameDir(w: World, path: Path, n: Node) {
    w.parentOf(n.path) == Some(match w.parentOf(path) case Some(d) => d case None => "")
  }

  function ReceiverHint(w: World, meta: Meta): Option<string> {
    if meta.receiverType.Some? then meta.receiverType
    else if meta.receiverText.Some? then w.hintOf(meta.receiverText.value)
    else None
  }

  function OfReceiver(receiver: string, nodes: seq<Node>): seq<Node> {
    Filter((n: Node) => n.receiver == Some(receiver), nodes)
  }

  /** Methods of the hinted receiver, if there are any; otherwise every candidate. */
  function Narrow(w: World, meta: Meta, candidates: seq<Node>): seq<Node> {
    match ReceiverHint(w, meta)
    case None => candidates
    case Some(hint) =>
      var same := OfReceiver(hint, candidates);
      if same != [] then same else candidates
  }

  function SymbolName(b: Binding, meta: Meta): Option<string> {
    if meta.receiverText.Some? then Some(meta.callee)
    else match b.kind
         case Wildcard => Some(meta.callee)
         case ModuleName => None
         case Namespace => None
         case PackageName => None
         case DefaultName => None
         case _ => Some(match b.imported case Some(name) => name case None => b.local)
  }

  function MatchingBindings(bindings: seq<Binding>, meta: Meta): seq<Binding> {
    match meta.receiverText
    case Some(receiver) => Filter((b: Binding) => b.local == receiver, bindings)
    case None => Filter((b: Binding) => b.local == meta.callee || b.kind == Wildcard, bindings)
  }

  function WithFields(extra: Option<map<Field, Value>>, more: map<Field, Value>): Option<map<Field, Value>> {
    Some((match extra case Some(m) => m case None => map[]) + more)
  }

  function Annotate(w: World, e: Edge, t: Target): Edge {
    var repo := match t.node.repo case Some(r) => r case None => w.repo;
    e.(target := t.node.qualifiedName, tier := Some(t.tier), confidence := if t.tier == Imports then 0.75 else 0.65,
       extra := WithFields(e.extra, map[SourceRepo := Text(w.repo), TargetRepo := Text(repo),
                                        Reason := Text(if repo == w.repo then "import" else "dependency"),
                                        TierLabel := TierText(t.tier)]))
  }

  predicate External(b: Binding, meta: Meta) {
    && (b.source == "" || b.source[0] != '.')
    && (b.local == meta.callee || meta.receiverText == Some(b.local) || b.kind == Wildcard)
  }

  function MarkUnresolved(w: World, ctx: Context, e: Edge, meta: Meta): Edge {
    if (exists b :: b in ctx.bindings && External(b, meta)) && |w.allowed| > 1 then
      e.(extra := WithFields(e.extra, map[SourceRepo := Text(w.repo), Reason := Text("import"),
                                          TierLabel := Text("unresolved_cross_repo"), Unresolved := Flag(true),
                                          AllowedRepos := Names(w.allowed)]))
    else e
  }

  // ---------------------------------------------------------------- resolution with the memo tables

  /** A miss stores the unfiltered query and answers with the permitted nodes; a hit answers with what is stored. */
  function Candidates(w: World, t: Tables, language: string, name: string): (seq<Node>, Tables) {
    var key := (language, name);
    if key in t.candidates then (t.candidates[key], t)
    else (PermittedOf(w, w.callables(language, name)),
          t.(candidates := t.candidates[key := w.callables(language, name)]))
  }

  function OwnerId(w: World, t: Tables, path: Path): (Option<string>, Tables) {
    if path in t.owners then (t.owners[path], t)
    else (w.ownerOf(path), t.(owners := t.owners[path := w.ownerOf(path)]))
  }

  /** Candidates in other files of the given owner. */
  function OwnedBy(w: World, t: Tables, path: Path, owner: string, nodes: seq<Node>): (seq<Node>, Tables)
    decreases |nodes|
  {
    if nodes == [] then ([], t)
    else if nodes[0].path == path then OwnedBy(w, t, path, owner, nodes[1..])
    else
      var (o, t1) := OwnerId(w, t, nodes[0].path);
      var (rest, t2) := OwnedBy(w, t1, path, owner, nodes[1..]);
      ((if o == Some(owner) then [nodes[0]] else []) + rest, t2)
  }

  function UniqueOrSameDir(w: World, path: Path, owned: seq<Node>): Option<Node> {
    if Unique(owned).Some? then Unique(owned) else Unique(Filter((n: Node) => SameDir(w, path, n), owned))
  }

  function SameDirOnly(w: World, path: Path, nodes: seq<Node>): Option<Node> {
    Unique(Filter((n: Node) => n.path != path && SameDir(w, path, n), nodes))
  }

  function ResolveSamePackage(w: World, t: Tables, ctx: Context, meta: Meta): (Option<Target>, Tables) {
    var (all, t1) := Candidates(w, t, ctx.language, meta.callee);
    var nodes := Narrow(w, meta, all);
    var (owner, t2) := OwnerId(w, t1, ctx.path);
    if owner.Some? then
      var (owned, t3) := OwnedBy(w, t2, ctx.path, owner.value, nodes);
      (InTier(UniqueOrSameDir(w, ctx.path, owned), SamePackage), t3)
    else (InTier(SameDirOnly(w, ctx.path, nodes), SamePackage), t2)
  }

  function InTier(n: Option<Node>, tier: Tier): Option<Target> {
    match n case None => None case Some(node) => Some(Target(node, tier))
  }

  function TryOptions(w: World, t: Tables, language: string, options: seq<(set<Path>, string)>):
      (Option<Target>, Tables)
    decreases |options|
  {
    if options == [] then (None, t)
    else
      var (all, t1) := Candidates(w, t, language, options[0].1);
      var hit := Unique(InFiles(options[0].0, all));
      if hit.Some? then (InTier(hit, Imports), t1) else TryOptions(w, t1, language, options[1..])
  }

  function ResolveImports(w: World, t: Tables, ctx: Context, meta: Meta, bindings: seq<Binding>):
      (Option<Target>, Tables)
    decreases |bindings|
  {
    if bindings == [] then (None, t)
    else match SymbolName(bindings[0], meta)
      case None => (None, t)
      case Some(name) =>
        match w.options(ctx.path, ctx.language, bindings[0], name)
        case None => (None, t)
        case Some(options) =>
          var (hit, t1) := TryOptions(w, t, ctx.language, options);
          if hit.Some? then (hit, t1) else ResolveImports(w, t1, ctx, meta, bindings[1..])
  }

  function Resolve(w: World, t: Tables, ctx: Context, meta: Meta): (Option<Target>, Tables) {
    var (hit, t1) := ResolveImports(w, t, ctx, meta, MatchingBindings(ctx.bindings, meta));
    if hit.Some? then (hit, t1) else ResolveSamePackage(w, t1, ctx, meta)
  }

  // ---------------------------------------------------------------- rewriting one file and a list of files

  datatype Edit = Edit(edges: seq<Edge>, changed: bool, tables: Tables)

  /** What becomes of an edge whose resolution is known, and whether that counts as a change. */
  function Apply(w: World, ctx: Context, e: Edge, hit: Option<Target>): (Edge, bool)
    requires MetaOf(e).Some?
  {
    match hit
    case None => (MarkUnresolved(w, ctx, e, MetaOf(e).value), false)
    case Some(t) => if e.target == t.node.qualifiedName && e.tier == Some(t.tier) then (e, false)
      else (Annotate(w, e, t), true)
  }

  datatype Step = Step(edge: Edge, changed: bool, tables: Tables)

  function EditEdge(w: World, t: Tables, ctx: Context, e: Edge): Step {
    if !Eligible(e) then Step(e, false, t)
    else
      var (hit, t1) := Resolve(w, t, ctx, MetaOf(e).value);
      var (e', changed) := Apply(w, ctx, e, hit);
      Step(e', changed, t1)
  }

  function EditEdges(w: World, t: Tables, ctx: Context, edges: seq<Edge>): (r: Edit)
    ensures |r.edges| == |edges|
    decreases |edges|
  {
    if edges == [] then Edit([], false, t)
    else
      var first := EditEdge(w, t, ctx, edges[0]);
      var rest := EditEdges(w, first.tables, ctx, edges[1..]);
      Edit([first.edge] + rest.edges, first.changed || rest.changed, rest.tables)
  }

  type Rows = map<(string, Path), seq<Edge>>

  function EdgesAt(rows: Rows, key: (string, Path)): seq<Edge> {
    if key in rows then rows[key] else []
  }

  /** A pass between two files. */
  datatype Pass = Pass(rows: Rows, tables: Tables, seen: set<Path>, touched: nat)

  function Start(rows: Rows): Pass {
    Pass(rows, Tables(map[], map[]), {}, 0)
  }

  /** Files without nodes, or whose language is unknown, are passed over. */
  function ContextOf(w: World, path: Path): Option<Context> {
    var nodes := w.nodesOf(path);
    if nodes == [] || LanguageOf(nodes) == "" then None else Some(Context(path, LanguageOf(nodes), BindingsOf(nodes)))
  }

  function EditFile(w: World, p: Pass, path: Path): Pass {
    if path in p.seen then p
    else match ContextOf(w, path)
      case None => p.(seen := p.seen + {path})
      case Some(ctx) =>
        var r := EditEdges(w, p.tables, ctx, EdgesAt(p.rows, (w.repo, path)));
        Pass(if r.changed then p.rows[(w.repo, path) := r.edges] else p.rows, r.tables, p.seen + {path},
             p.touched + if r.changed then 1 else 0)
  }

  function Run(w: World, p: Pass, files: seq<Path>): Pass
    decreases |files|
  {
    if files == [] then p else Run(w, EditFile(w, p, files[0]), files[1..])
  }

  // ---------------------------------------------------------------- the code

  class MemoTables {
    var candidates: map<(string, string), seq<Node>>
    var owners: map<Path, Option<string>>

    ghost function Contents(): Tables
      reads this
    {
      Tables(candidates, owners)
    }

    constructor ()
      ensures Contents() == Tables(map[], map[])
    {
      candidates, owners := map[], map[];
    }

    method CallableCandidates(w: World, language: string, name: string) returns (nodes: seq<Node>)
      modifies this
      ensures (nodes, Contents()) == Candidates(w, old(Contents()), language, name)
    {
      var key := (language, name);
      if key in candidates {
        return candidates[key];
      }
      nodes := w.callables(language, name);
      candidates := candidates[key := nodes];
      nodes := PermittedOf(w, nodes);
    }

    method CachedOwnerId(w: World, path: Path) returns (owner: Option<string>)
      modifies this
      ensures (owner, Contents()) == OwnerId(w, old(Contents()), path)
    {
      if path in owners {
        return owners[path];
      }
      owner := w.ownerOf(path);
      owners := owners[path := owner];
    }

    method SameOwnerMatches(w: World, path: Path, owner: string, nodes: seq<Node>) returns (owned: seq<Node>)
      modifies this
      ensures (owned, Contents()) == OwnedBy(w, old(Contents()), path, owner, nodes)
    {
      owned := [];
      assert nodes[0..] == nodes;
      for i := 0 to |nodes|
        invariant OwnedUpTo(w, old(Contents()), path, owner, nodes, i, owned, Contents())
      {
        OwnedGoesOn(w, old(Contents()), path, owner, nodes, i, owned, Contents());
        if nodes[i].path != path {
          var o := CachedOwnerId(w, nodes[i].path);
          if o == Some(owner) {
            owned := owned + [nodes[i]];
          }
        }
      }
      assert owned + [] == owned;
    }

    method ResolveSamePackageTarget(w: World, ctx: Context, meta: Meta) returns (hit: Option<Target>)
      modifies this
      ensures (hit, Contents()) == ResolveSamePackage(w, old(Contents()), ctx, meta)
    {
      var nodes := CallableCandidates(w, ctx.language, meta.callee);
      nodes := Narrow(w, meta, nodes);
      var owner := CachedOwnerId(w, ctx.path);
      if owner.Some? {
        var owned := SameOwnerMatches(w, ctx.path, owner.value, nodes);
        return InTier(UniqueOrSameDir(w, ctx.path, owned), SamePackage);
      }
      hit := InTier(SameDirOnly(w, ctx.path, nodes), SamePackage);
    }

    method TryResolutionOptions(w: World, language: string, options: seq<(set<Path>, string)>)
        returns (hit: Option<Target>)
      modifies this
      ensures (hit, Contents()) == TryOptions(w, old(Contents()), language, options)
    {
      hit := None;
      for i := 0 to |options|
        invariant TryOptions(w, old(Contents()), language, options) == TryOptions(w, Contents(), language, options[i..])
        invariant hit.None?
      {
        DropCons(options, i);
        var nodes := CallableCandidates(w, language, options[i].1);
        var node := Unique(InFiles(options[i].0, nodes));
        if node.Some? {
          return InTier(node, Imports);
        }
      }
    }

    method ResolveImportTarget(w: World, ctx: Context, meta: Meta) returns (hit: Option<Target>)
      modifies this
      ensures (hit, Contents()) == ResolveImports(w, old(Contents()), ctx, meta, MatchingBindings(ctx.bindings, meta))
    {
      var bindings := MatchingBindings(ctx.bindings, meta);
      hit := None;
      for i := 0 to |bindings|
        invariant ResolveImports(w, old(Contents()), ctx, meta, bindings) ==
                  ResolveImports(w, Contents(), ctx, meta, bindings[i..])
        invariant hit.None?
      {
        DropCons(bindings, i);
        var name := SymbolName(bindings[i], meta);
        if name.None? {
          return None;
        }
        var options := w.options(ctx.path, ctx.language, bindings[i], name.value);
        if options.None? {
          return None;
        }
        hit := TryResolutionOptions(w, ctx.language, options.value);
        if hit.Some? {
          return;
        }
      }
    }

    method ResolveCall(w: World, ctx: Context, meta: Meta) returns (hit: Option<Target>)
      modifies this
      ensures (hit, Contents()) == Resolve(w, old(Contents()), ctx, meta)
    {
      hit := ResolveImportTarget(w, ctx, meta);
      if hit.None? {
        hit := ResolveSamePackageTarget(w, ctx, meta);
      }
    }

    method EditCall(w: World, ctx: Context, e: Edge) returns (e': Edge, changed: bool)
      modifies this
      ensures Step(e', changed, Contents()) == EditEdge(w, old(Contents()), ctx, e)
    {
      if !Eligible(e) {
        return e, false;
      }
      var hit := ResolveCall(w, ctx, MetaOf(e).value);
      var (edited, c) := Apply(w, ctx, e, hit);
      return edited, c;
    }

    method EditFileEdges(w: World, ctx: Context, edges: seq<Edge>) returns (out: seq<Edge>, changed: bool)
      modifies this
      ensures Edit(out, changed, Contents()) == EditEdges(w, old(Contents()), ctx, edges)
    {
      out, changed := [], false;
      NoneEdited(w, Contents(), ctx, edges);
      for i := 0 to |edges|
        invariant EditedFrom(w, old(Contents()), ctx, edges, i, out, changed, Contents())
      {
        OneMoreEdited(w, old(Contents()), ctx, edges, i, out, changed, Contents());
        var e, c := EditCall(w, ctx, edges[i]);
        out, changed := out + [e], changed || c;
      }
      AllEdited(w, old(Contents()), ctx, edges, out, changed, Contents());
    }
  }

  /** The first `i` edges are done; editing the rest from the current tables completes the file. */
  ghost predicate EditedFrom(w: World, t: Tables, ctx: Context, edges: seq<Edge>, i: nat, out: seq<Edge>, changed: bool,
                             now: Tables)
    requires i <= |edges|
  {
    var rest := EditEdges(w, now, ctx, edges[i..]);
    EditEdges(w, t, ctx, edges) == Edit(out + rest.edges, changed || rest.changed, rest.tables)
  }

  lemma NoneEdited(w: World, t: Tables, ctx: Context, edges: seq<Edge>)
    ensures EditedFrom(w, t, ctx, edges, 0, [], false, t)
  {
    assert edges[0..] == edges;
  }

  lemma OneMoreEdited(w: World, t: Tables, ctx: Context, edges: seq<Edge>, i: nat, out: seq<Edge>, changed: bool,
      now: Tables)
    requires i < |edges| && EditedFrom(w, t, ctx, edges, i, out, changed, now)
    ensures var first := EditEdge(w, now, ctx, edges[i]);
            EditedFrom(w, t, ctx, edges, i + 1, out + [first.edge], changed || first.changed, first.tables)
  {
    DropCons(edges, i);
  }

  lemma AllEdited(w: World, t: Tables, ctx: Context, edges: seq<Edge>, out: seq<Edge>, changed: bool, now: Tables)
    requires EditedFrom(w, t, ctx, edges, |edges|, out, changed, now)
    ensures EditEdges(w, t, ctx, edges) == Edit(out, changed, now)
  {}

  /** The first `i` candidates gave `owned`; the rest completes the matches from the current tables. */
  ghost predicate OwnedUpTo(w: World, t: Tables, path: Path, owner: string, nodes: seq<Node>, i: nat, owned: seq<Node>,
      now: Tables)
    requires i <= |nodes|
  {
    var (rest, last) := OwnedBy(w, now, path, owner, nodes[i..]);
    OwnedBy(w, t, path, owner, nodes).0 == owned + rest && OwnedBy(w, t, path, owner, nodes).1 == last
  }

  lemma OwnedGoesOn(w: World, t: Tables, path: Path, owner: string, nodes: seq<Node>, i: nat, owned: seq<Node>,
      now: Tables)
    requires i < |nodes| && OwnedUpTo(w, t, path, owner, nodes, i, owned, now)
    ensures var (o, next) := OwnerId(w, now, nodes[i].path);
            if nodes[i].path == path then OwnedUpTo(w, t, path, owner, nodes, i + 1, owned, now)
            else OwnedUpTo(w, t, path, owner, nodes, i + 1,
              if o == Some(owner) then owned + [nodes[i]] else owned, next)
  {
    DropCons(nodes, i);
  }

  class EdgeStore {
    var rows: Rows

    /** Rewrites the edges of one file if any of them changed. */
    method ReconcileFile(w: World, memo: MemoTables, ctx: Context) returns (changed: bool)
      modifies this, memo
      ensures var r := EditEdges(w, old(memo.Contents()), ctx, EdgesAt(old(rows), (w.repo, ctx.path)));
              && changed == r.changed && memo.Contents() == r.tables
              && rows == if changed then old(rows)[(w.repo, ctx.path) := r.edges] else old(rows)
    {
      var edges;
      edges, changed := memo.EditFileEdges(w, ctx, EdgesAt(rows, (w.repo, ctx.path)));
      if changed {
        rows := rows[(w.repo, ctx.path) := edges];
      }
    }

    /** One file of a pass; a file already seen is passed over. */
    method Visit(w: World, memo: MemoTables, seen: set<Path>, ghost touched: nat, path: Path)
      returns (seen': set<Path>, changed: bool)
      modifies this, memo
      ensures Pass(rows, memo.Contents(), seen', touched + if changed then 1 else 0) ==
              EditFile(w, Pass(old(rows), old(memo.Contents()), seen, touched), path)
    {
      if path in seen {
        return seen, false;
      }
      seen' := seen + {path};
      changed := false;
      var ctx := ContextOf(w, path);
      if ctx.Some? {
        changed := ReconcileFile(w, memo, ctx.value);
      }
    }

    /** Visits each listed file once; answers with the number of files rewritten. */
    method ReconcileCallTargets(w: World, files: seq<Path>) returns (touched: nat)
      modifies this
      ensures rows == Run(w, Start(old(rows)), files).rows
      ensures touched == Run(w, Start(old(rows)), files).touched
    {
      touched := 0;
      var seen: set<Path> := {};
      var memo := new MemoTables();
      assert files[0..] == files;
      for i := 0 to |files|
        invariant fresh(memo)
        invariant Run(w, Start(old(rows)), files) == Run(w, Pass(rows, memo.Contents(), seen, touched), files[i..])
      {
        DropCons(files, i);
        var changed;
        seen, changed := Visit(w, memo, seen, touched, files[i]);
        touched := touched + if changed then 1 else 0;
      }
    }
  }

  // ---------------------------------------------------------------- frame

  /** What rewriting keeps of an edge. */
  predicate SameCall(e: Edge, f: Edge) {
    && f.kind == e.kind && f.source == e.source && f.path == e.path && f.line == e.line
    && MetaOf(f) == MetaOf(e) && Eligible(f) == Eligible(e)
    && (!Eligible(e) ==> f == e)
  }

  lemma ResolvedTier(w: World, t: Tables, ctx: Context, meta: Meta)
    ensures var hit := Resolve(w, t, ctx, meta).0; hit.Some? ==> hit.value.tier in {Imports, SamePackage}
  {
    ImportTier(w, t, ctx, meta, MatchingBindings(ctx.bindings, meta));
  }

  lemma {:induction false} OptionTier(w: World, t: Tables, language: string, options: seq<(set<Path>, string)>)
    ensures var hit := TryOptions(w, t, language, options).0; hit.Some? ==> hit.value.tier == Imports
    decreases |options|
  {
    if options != [] {
      OptionTier(w, Candidates(w, t, language, options[0].1).1, language, options[1..]);
    }
  }

  lemma {:induction false} ImportTier(w: World, t: Tables, ctx: Context, meta: Meta, bindings: seq<Binding>)
    ensures var hit := ResolveImports(w, t, ctx, meta, bindings).0; hit.Some? ==> hit.value.tier == Imports
    decreases |bindings|
  {
    if bindings != [] {
      var name := SymbolName(bindings[0], meta);
      if name.Some? && w.options(ctx.path, ctx.language, bindings[0], name.value).Some? {
        var options := w.options(ctx.path, ctx.language, bindings[0], name.value).value;
        OptionTier(w, t, ctx.language, options);
        ImportTier(w, TryOptions(w, t, ctx.language, options).1, ctx, meta, bindings[1..]);
      }
    }
  }

  lemma AnnotationKeepsMeta(w: World, ctx: Context, e: Edge, t: Target)
    requires MetaOf(e).Some?
    ensures MetaOf(Annotate(w, e, t)) == MetaOf(e)
    ensures MetaOf(MarkUnresolved(w, ctx, e, MetaOf(e).value)) == MetaOf(e)
  {}

  lemma ApplyKeepsCall(w: World, ctx: Context, e: Edge, hit: Option<Target>)
    requires Eligible(e) && (hit.Some? ==> hit.value.tier in {Imports, SamePackage})
    ensures SameCall(e, Apply(w, ctx, e, hit).0)
  {
    if hit.Some? { AnnotationKeepsMeta(w, ctx, e, hit.value); }
    assert MetaOf(MarkUnresolved(w, ctx, e, MetaOf(e).value)) == MetaOf(e);
  }

  lemma EditKeepsCall(w: World, t: Tables, ctx: Context, e: Edge)
    ensures SameCall(e, EditEdge(w, t, ctx, e).edge)
  {
    if Eligible(e) {
      ResolvedTier(w, t, ctx, MetaOf(e).value);
      ApplyKeepsCall(w, ctx, e, Resolve(w, t, ctx, MetaOf(e).value).0);
    }
  }

  /**
   Editing keeps number, order, kind, source, file, line and call data of every edge, and all of an ineligible one.
   */
  lemma {:induction false} EditKeepsCalls(w: World, t: Tables, ctx: Context, edges: seq<Edge>, i: nat)
    requires i < |edges|
    ensures SameCall(edges[i], EditEdges(w, t, ctx, edges).edges[i])
    decreases |edges|
  {
    EditKeepsCall(w, t, ctx, edges[0]);
    if i > 0 {
      EditKeepsCalls(w, EditEdge(w, t, ctx, edges[0]).tables, ctx, edges[1..], i - 1);
    }
  }

  /**
   Whatever the files, a pass keeps every row's edges in number, order and kind, and other repositories' rows whole.
   */
  lemma {:induction false} PassKeepsCalls(w: World, p: Pass, files: seq<Path>, key: (string, Path))
    ensures var before, after := EdgesAt(p.rows, key), EdgesAt(Run(w, p, files).rows, key);
            && |after| == |before|
            && (forall i :: 0 <= i < |before| ==> SameCall(before[i], after[i]))
            && (key.0 != w.repo || key.1 !in files ==> after == before)
    decreases |files|
  {
    if files != [] {
      FileKeepsCalls(w, p, files[0], key);
      PassKeepsCalls(w, EditFile(w, p, files[0]), files[1..], key);
    }
  }

  lemma FileKeepsCalls(w: World, p: Pass, path: Path, key: (string, Path))
    ensures var before, after := EdgesAt(p.rows, key), EdgesAt(EditFile(w, p, path).rows, key);
            && |after| == |before|
            && (forall i :: 0 <= i < |before| ==> SameCall(before[i], after[i]))
            && (key.0 != w.repo || key.1 != path ==> after == before)
  {
    var before := EdgesAt(p.rows, key);
    if ContextOf(w, path).Some? {
      forall i | 0 <= i < |before|
        ensures SameCall(before[i], EditEdges(w, p.tables, ContextOf(w, path).value, before).edges[i])
      {
        EditKeepsCalls(w, p.tables, ContextOf(w, path).value, before, i);
      }
    }
  }

  // ---------------------------------------------------------------- idempotence

  lemma MarkAgain(w: World, ctx: Context, e: Edge, meta: Meta)
    ensures MarkUnresolved(w, ctx, MarkUnresolved(w, ctx, e, meta), meta) == MarkUnresolved(w, ctx, e, meta)
  {
    var m := MarkUnresolved(w, ctx, e, meta);
    if m != e {
      assert MarkUnresolved(w, ctx, m, meta).extra.value == m.extra.value;
    }
  }

  lemma ApplyAgain(w: World, ctx: Context, e: Edge, hit: Option<Target>)
    requires Eligible(e) && (hit.Some? ==> hit.value.tier in {Imports, SamePackage})
    requires MetaOf(Apply(w, ctx, e, hit).0) == MetaOf(e)
    ensures Apply(w, ctx, Apply(w, ctx, e, hit).0, hit) == (Apply(w, ctx, e, hit).0, false)
  {
    MarkAgain(w, ctx, e, MetaOf(e).value);
  }

  lemma EdgeAgain(w: World, t: Tables, ctx: Context, e: Edge)
    ensures var r := EditEdge(w, t, ctx, e); EditEdge(w, t, ctx, r.edge) == Step(r.edge, false, r.tables)
  {
    EditKeepsCall(w, t, ctx, e);
    if Eligible(e) {
      ResolvedTier(w, t, ctx, MetaOf(e).value);
      ApplyAgain(w, ctx, e, Resolve(w, t, ctx, MetaOf(e).value).0);
    }
  }

  /** With the same tables, editing edited edges changes nothing and consults the tables in the same way. */
  lemma {:induction false} EditAgain(w: World, t: Tables, ctx: Context, edges: seq<Edge>)
    ensures var r := EditEdges(w, t, ctx, edges); EditEdges(w, t, ctx, r.edges) == Edit(r.edges, false, r.tables)
    decreases |edges|
  {
    if edges != [] {
      var first, r := EditEdge(w, t, ctx, edges[0]), EditEdges(w, t, ctx, edges);
      EdgeAgain(w, t, ctx, edges[0]);
      EditAgain(w, first.tables, ctx, edges[1..]);
      assert r.edges[1..] == EditEdges(w, first.tables, ctx, edges[1..]).edges;
    }
  }

  lemma {:induction false} SeenIsSettled(w: World, p: Pass, files: seq<Path>, path: Path)
    requires path in p.seen
    ensures EdgesAt(Run(w, p, files).rows, (w.repo, path)) == EdgesAt(p.rows, (w.repo, path))
    decreases |files|
  {
    if files != [] {
      SeenIsSettled(w, EditFile(w, p, files[0]), files[1..], path);
    }
  }

  /** A file of the second pass sees the first pass's tables and finds nothing to change. */
  lemma FileAgain(w: World, p: Pass, q: Pass, path: Path)
    requires q.tables == p.tables && q.seen == p.seen
    requires path in p.seen || EdgesAt(q.rows, (w.repo, path)) == EdgesAt(EditFile(w, p, path).rows, (w.repo, path))
    ensures var p', q' := EditFile(w, p, path), EditFile(w, q, path);
            q' == q.(tables := p'.tables, seen := p'.seen)
  {
    if path !in p.seen && ContextOf(w, path).Some? {
      EditAgain(w, p.tables, ContextOf(w, path).value, EdgesAt(p.rows, (w.repo, path)));
    }
  }

  lemma {:induction false} PassAgain(w: World, p: Pass, q: Pass, files: seq<Path>)
    requires q.tables == p.tables && q.seen == p.seen && q.rows == Run(w, p, files).rows
    ensures Run(w, q, files).rows == q.rows && Run(w, q, files).touched == q.touched
    decreases |files|
  {
    if files != [] {
      var p' := EditFile(w, p, files[0]);
      SeenIsSettled(w, p', files[1..], files[0]);
      FileAgain(w, p, q, files[0]);
      PassAgain(w, p', EditFile(w, q, files[0]), files[1..]);
    }
  }

  /** A second pass over the same files in the same order rewrites no file. */
  lemma ReconcileIsIdempotent(w: World, rows: Rows, files: seq<Path>)
    ensures var once := Run(w, Start(rows), files).rows;
            Run(w, Start(once), files).rows == once && Run(w, Start(once), files).touched == 0
  {
    PassAgain(w, Start(rows), Start(Run(w, Start(rows), files).rows), files);
  }

  // ---------------------------------------------------------------- resolution without tables

  function DirectCandidates(w: World, language: string, name: string): seq<Node> {
    PermittedOf(w, w.callables(language, name))
  }

  function DirectOwned(w: World, path: Path, owner: string, nodes: seq<Node>): seq<Node> {
    Filter((n: Node) => n.path != path && w.ownerOf(n.path) == Some(owner), nodes)
  }

  function DirectSamePackage(w: World, ctx: Context, meta: Meta): Option<Target> {
    var nodes := Narrow(w, meta, DirectCandidates(w, ctx.language, meta.callee));
    match w.ownerOf(ctx.path)
    case Some(owner) => InTier(UniqueOrSameDir(w, ctx.path, DirectOwned(w, ctx.path, owner, nodes)), SamePackage)
    case None => InTier(SameDirOnly(w, ctx.path, nodes), SamePackage)
  }

  function DirectOptions(w: World, language: string, options: seq<(set<Path>, string)>): Option<Target> {
    if options == [] then None
    else
      var hit := Unique(InFiles(options[0].0, DirectCandidates(w, language, options[0].1)));
      if hit.Some? then InTier(hit, Imports) else DirectOptions(w, language, options[1..])
  }

  function DirectImports(w: World, ctx: Context, meta: Meta, bindings: seq<Binding>): Option<Target> {
    if bindings == [] then None
    else match SymbolName(bindings[0], meta)
      case None => None
      case Some(name) =>
        match w.options(ctx.path, ctx.language, bindings[0], name)
        case None => None
        case Some(options) =>
          var hit := DirectOptions(w, ctx.language, options);
          if hit.Some? then hit else DirectImports(w, ctx, meta, bindings[1..])
  }

  function DirectResolve(w: World, ctx: Context, meta: Meta): Option<Target> {
    var hit := DirectImports(w, ctx, meta, MatchingBindings(ctx.bindings, meta));
    if hit.Some? then hit else DirectSamePackage(w, ctx, meta)
  }

  function DirectEdge(w: World, ctx: Context, e: Edge): (Edge, bool) {
    if Eligible(e) then Apply(w, ctx, e, DirectResolve(w, ctx, MetaOf(e).value)) else (e, false)
  }

  function DirectEdits(w: World, ctx: Context, edges: seq<Edge>): (r: seq<Edge>)
    ensures |r| == |edges|
    ensures forall i :: 0 <= i < |edges| ==> r[i] == DirectEdge(w, ctx, edges[i]).0
  {
    if edges == [] then [] else [DirectEdge(w, ctx, edges[0]).0] + DirectEdits(w, ctx, edges[1..])
  }

  /** A file's edges after a pass, from its own edges alone: all edits, or none if no target or tier changes. */
  ghost function DirectFile(w: World, path: Path, edges: seq<Edge>): seq<Edge> {
    match ContextOf(w, path)
    case None => edges
    case Some(ctx) =>
      if exists e :: e in edges && DirectEdge(w, ctx, e).1 then DirectEdits(w, ctx, edges) else edges
  }

  // ---------------------------------------------------------------- the tables are transparent

  ghost predicate AllPermitted(w: World) {
    forall language, name, n :: n in w.callables(language, name) ==> Permitted(w, n)
  }

  /** The tables hold what the store answers. */
  ghost predicate Faithful(w: World, t: Tables) {
    && (forall k :: k in t.candidates ==> t.candidates[k] == w.callables(k.0, k.1))
    && (forall p :: p in t.owners ==> t.owners[p] == w.ownerOf(p))
  }

  lemma CandidatesAreDirect(w: World, t: Tables, language: string, name: string)
    requires AllPermitted(w) && Faithful(w, t)
    ensures Candidates(w, t, language, name).0 == DirectCandidates(w, language, name)
    ensures Faithful(w, Candidates(w, t, language, name).1)
  {
    FilterAll((n: Node) => Permitted(w, n), w.callables(language, name));
  }

  lemma {:induction false} OwnedIsDirect(w: World, t: Tables, path: Path, owner: string, nodes: seq<Node>)
    requires Faithful(w, t)
    ensures OwnedBy(w, t, path, owner, nodes).0 == DirectOwned(w, path, owner, nodes)
    ensures Faithful(w, OwnedBy(w, t, path, owner, nodes).1)
    decreases |nodes|
  {
    if nodes != [] {
      var t1 := if nodes[0].path == path then t else OwnerId(w, t, nodes[0].path).1;
      OwnedIsDirect(w, t1, path, owner, nodes[1..]);
    }
  }

  lemma SamePackageIsDirect(w: World, t: Tables, ctx: Context, meta: Meta)
    requires AllPermitted(w) && Faithful(w, t)
    ensures ResolveSamePackage(w, t, ctx, meta).0 == DirectSamePackage(w, ctx, meta)
    ensures Faithful(w, ResolveSamePackage(w, t, ctx, meta).1)
  {
    CandidatesAreDirect(w, t, ctx.language, meta.callee);
    var (all, t1) := Candidates(w, t, ctx.language, meta.callee);
    var (owner, t2) := OwnerId(w, t1, ctx.path);
    if owner.Some? { OwnedIsDirect(w, t2, ctx.path, owner.value, Narrow(w, meta, all)); }
  }

  lemma {:induction false} OptionsAreDirect(w: World, t: Tables, language: string, options: seq<(set<Path>, string)>)
    requires AllPermitted(w) && Faithful(w, t)
    ensures TryOptions(w, t, language, options).0 == DirectOptions(w, language, options)
    ensures Faithful(w, TryOptions(w, t, language, options).1)
    decreases |options|
  {
    if options != [] {
      CandidatesAreDirect(w, t, language, options[0].1);
      OptionsAreDirect(w, Candidates(w, t, language, options[0].1).1, language, options[1..]);
    }
  }

  lemma {:induction false} ImportsAreDirect(w: World, t: Tables, ctx: Context, meta: Meta, bindings: seq<Binding>)
    requires AllPermitted(w) && Faithful(w, t)
    ensures ResolveImports(w, t, ctx, meta, bindings).0 == DirectImports(w, ctx, meta, bindings)
    ensures Faithful(w, ResolveImports(w, t, ctx, meta, bindings).1)
    decreases |bindings|
  {
    if bindings != [] {
      var name := SymbolName(bindings[0], meta);
      if name.Some? && w.options(ctx.path, ctx.language, bindings[0], name.value).Some? {
        var options := w.options(ctx.path, ctx.language, bindings[0], name.value).value;
        OptionsAreDirect(w, t, ctx.language, options);
        ImportsAreDirect(w, TryOptions(w, t, ctx.language, options).1, ctx, meta, bindings[1..]);
      }
    }
  }

  lemma ResolveIsDirect(w: World, t: Tables, ctx: Context, meta: Meta)
    requires AllPermitted(w) && Faithful(w, t)
    ensures Resolve(w, t, ctx, meta).0 == DirectResolve(w, ctx, meta)
    ensures Faithful(w, Resolve(w, t, ctx, meta).1)
  {
    var bindings := MatchingBindings(ctx.bindings, meta);
    ImportsAreDirect(w, t, ctx, meta, bindings);
    SamePackageIsDirect(w, ResolveImports(w, t, ctx, meta, bindings).1, ctx, meta);
  }

  lemma EdgeIsDirect(w: World, t: Tables, ctx: Context, e: Edge)
    requires AllPermitted(w) && Faithful(w, t)
    ensures var r := EditEdge(w, t, ctx, e); (r.edge, r.changed) == DirectEdge(w, ctx, e) && Faithful(w, r.tables)
  {
    if Eligible(e) { ResolveIsDirect(w, t, ctx, MetaOf(e).value); }
  }

  lemma {:induction false} EditsAreDirect(w: World, t: Tables, ctx: Context, edges: seq<Edge>)
    requires AllPermitted(w) && Faithful(w, t)
    ensures var r := EditEdges(w, t, ctx, edges);
            && r.edges == DirectEdits(w, ctx, edges) && Faithful(w, r.tables)
            && (r.changed <==> exists e :: e in edges && DirectEdge(w, ctx, e).1)
    decreases |edges|
  {
    if edges != [] {
      EdgeIsDirect(w, t, ctx, edges[0]);
      EditsAreDirect(w, EditEdge(w, t, ctx, edges[0]).tables, ctx, edges[1..]);
      assert edges == [edges[0]] + edges[1..];
    }
  }

  lemma FileIsDirect(w: World, p: Pass, path: Path)
    requires AllPermitted(w) && Faithful(w, p.tables)
    ensures var p' := EditFile(w, p, path);
            && Faithful(w, p'.tables)
            && (path !in p.seen ==>
                  EdgesAt(p'.rows, (w.repo, path)) == DirectFile(w, path, EdgesAt(p.rows, (w.repo, path))))
  {
    if ContextOf(w, path).Some? {
      EditsAreDirect(w, p.tables, ContextOf(w, path).value, EdgesAt(p.rows, (w.repo, path)));
    }
  }

  /**
   When every callable node is unlabelled or in an allowed repository, a pass through the shared tables leaves each
   listed file exactly as querying the store for that file alone would.
   */
  lemma {:induction false} TablesAreTransparent(w: World, p: Pass, files: seq<Path>, path: Path)
    requires AllPermitted(w) && Faithful(w, p.tables)
    ensures EdgesAt(Run(w, p, files).rows, (w.repo, path)) ==
            if path in files && path !in p.seen then DirectFile(w, path, EdgesAt(p.rows, (w.repo, path)))
            else EdgesAt(p.rows, (w.repo, path))
    decreases |files|
  {
    if files != [] {
      var p' := EditFile(w, p, files[0]);
      FileIsDirect(w, p, files[0]);
      TablesAreTransparent(w, p', files[1..], path);
      FileKeepsCalls(w, p, files[0], (w.repo, path));
    }
  }

  /** So the order of the files does not matter. */
  lemma FileOrderDoesNotMatter(w: World, rows: Rows, files: seq<Path>, files': seq<Path>, path: Path)
    requires AllPermitted(w) && ToSet(files) == ToSet(files')
    ensures EdgesAt(Run(w, Start(rows), files).rows, (w.repo, path)) ==
            EdgesAt(Run(w, Start(rows), files').rows, (w.repo, path))
  {
    TablesAreTransparent(w, Start(rows), files, path);
    TablesAreTransparent(w, Start(rows), files', path);
    assert path in ToSet(files) <==> path in ToSet(files');
  }

  /** A candidate query answers the same from every faithful table exactly when the condition above holds. */
  lemma CandidateCacheIsTransparentIff(w: World)
    ensures (forall t, language, name :: Faithful(w, t) ==>
               Candidates(w, t, language, name).0 == DirectCandidates(w, language, name))
            <==> AllPermitted(w)
  {
    if AllPermitted(w) {
      forall t, language, name | Faithful(w, t)
        ensures Candidates(w, t, language, name).0 == DirectCandidates(w, language, name)
      {
        CandidatesAreDirect(w, t, language, name);
      }
    } else {
      var language, name, n :| n in w.callables(language, name) && !Permitted(w, n);
      var t := Tables(map[(language, name) := w.callables(language, name)], map[]);
      assert Faithful(w, t);
      assert n in Candidates(w, t, language, name).0;
      assert n !in DirectCandidates(w, language, name);
    }
  }

  // ---------------------------------------------------------------- what a resolved target is

  /** What a call looks for through a binding: the callee under its receiver or a wildcard, or the imported name. */
  ghost predicate Asks(b: Binding, meta: Meta, name: string) {
    match meta.receiverText
    case Some(receiver) => b.local == receiver && name == meta.callee
    case None =>
      || (b.kind == Wildcard && name == meta.callee)
      || (b.local == meta.callee && (b.kind == Named || b.kind == From || b.kind == OtherKind)
          && name == if b.imported.Some? then b.imported.value else b.local)
  }

  /** The call names a binding that stands for no symbol. */
  ghost predicate GivesUp(b: Binding, meta: Meta) {
    && meta.receiverText.None? && b.local == meta.callee
    && (b.kind == ModuleName || b.kind == Namespace || b.kind == PackageName || b.kind == DefaultName)
  }

  /** These are the bindings a call is about, and what it looks for through each. */
  lemma MatchingIff(bindings: seq<Binding>, meta: Meta, b: Binding)
    ensures b in MatchingBindings(bindings, meta) <==>
            b in bindings && ((exists name :: Asks(b, meta, name)) || GivesUp(b, meta))
    ensures b in MatchingBindings(bindings, meta) ==>
              forall name :: SymbolName(b, meta) == Some(name) <==> Asks(b, meta, name)
  {
    if b.kind == Wildcard { assert meta.receiverText.None? ==> Asks(b, meta, meta.callee); }
    var imported := if b.imported.Some? then b.imported.value else b.local;
    assert meta.receiverText.None? && b.local == meta.callee ==>
             GivesUp(b, meta) || Asks(b, meta, meta.callee) || Asks(b, meta, imported);
    assert meta.receiverText == Some(b.local) ==> Asks(b, meta, meta.callee);
  }

  /** The only permitted callable of that name in one option of a binding through which the call looks for something. */
  ghost predicate IsImported(w: World, ctx: Context, meta: Meta, n: Node) {
    exists b, name, options: seq<(set<Path>, string)>, i: nat ::
      && b in ctx.bindings && Asks(b, meta, name)
      && w.options(ctx.path, ctx.language, b, name) == Some(options) && i < |options|
      && OnlyOne(InFiles(options[i].0, DirectCandidates(w, ctx.language, options[i].1)), n)
  }

  ghost predicate OnlyOne(nodes: seq<Node>, n: Node) {
    nodes == [n]
  }

  lemma {:induction false} OptionIsImported(w: World, language: string, options: seq<(set<Path>, string)>)
    requires DirectOptions(w, language, options).Some?
    ensures exists i: nat :: i < |options| &&
              OnlyOne(InFiles(options[i].0, DirectCandidates(w, language, options[i].1)),
                DirectOptions(w, language, options).value.node)
    ensures DirectOptions(w, language, options).value.tier == Imports
  {
    var nodes := InFiles(options[0].0, DirectCandidates(w, language, options[0].1));
    if Unique(nodes).None? {
      OptionIsImported(w, language, options[1..]);
      var j: nat :| j < |options[1..]| &&
        OnlyOne(InFiles(options[1..][j].0, DirectCandidates(w, language, options[1..][j].1)),
          DirectOptions(w, language, options).value.node);
      assert options[1..][j] == options[j + 1];
    } else {
      assert OnlyOne(nodes, nodes[0]);
    }
  }

  lemma {:induction false} ImportIsImported(w: World, ctx: Context, meta: Meta, bindings: seq<Binding>)
    requires forall b :: b in bindings ==> b in MatchingBindings(ctx.bindings, meta)
    requires DirectImports(w, ctx, meta, bindings).Some?
    ensures IsImported(w, ctx, meta, DirectImports(w, ctx, meta, bindings).value.node)
    ensures DirectImports(w, ctx, meta, bindings).value.tier == Imports
  {
    var b, name := bindings[0], SymbolName(bindings[0], meta).value;
    var options := w.options(ctx.path, ctx.language, b, name).value;
    assert b in bindings;
    MatchingIff(ctx.bindings, meta, b);
    if DirectOptions(w, ctx.language, options).Some? {
      OptionIsImported(w, ctx.language, options);
    } else {
      ImportIsImported(w, ctx, meta, bindings[1..]);
    }
  }

  /** A package neighbour: in another file of the caller's owner, or of its directory when the caller has no owner. */
  predicate IsNeighbour(w: World, path: Path, n: Node) {
    n.path != path && match w.ownerOf(path)
                      case Some(owner) => w.ownerOf(n.path) == Some(owner)
                      case None => SameDir(w, path, n)
  }

  /**
   From faithful tables, when every callable is permitted, a target is unambiguous. By import it is the only one a
   matching binding can mean; otherwise it is a package neighbour with the callee's name, and no other such neighbour
   could be meant: none at all, or none in the caller's directory while the target is.
   */
  lemma TargetsAreUnambiguous(w: World, t: Tables, ctx: Context, meta: Meta)
    requires Faithful(w, t) && AllPermitted(w) && Resolve(w, t, ctx, meta).0.Some?
    ensures var hit := Resolve(w, t, ctx, meta).0.value;
            var nodes := Narrow(w, meta, w.callables(ctx.language, meta.callee));
            && Permitted(w, hit.node)
            && (hit.tier == Imports ==> IsImported(w, ctx, meta, hit.node))
            && (hit.tier != Imports ==>
                  && hit.tier == SamePackage && hit.node in nodes && IsNeighbour(w, ctx.path, hit.node)
                  && forall m ::
                       && m in nodes && IsNeighbour(w, ctx.path, m)
                       && (SameDir(w, ctx.path, hit.node) ==> SameDir(w, ctx.path, m)) ==>
                       m == hit.node)
  {
    ResolveIsDirect(w, t, ctx, meta);
    FilterAll((n: Node) => Permitted(w, n), w.callables(ctx.language, meta.callee));
    var bindings := MatchingBindings(ctx.bindings, meta);
    if DirectImports(w, ctx, meta, bindings).Some? {
      ImportIsImported(w, ctx, meta, bindings);
      ImportedIsPermitted(w, ctx, meta, DirectImports(w, ctx, meta, bindings).value.node);
    } else {
      NeighbourIsUnambiguous(w, ctx, meta);
    }
  }

  lemma ImportedIsPermitted(w: World, ctx: Context, meta: Meta, n: Node)
    requires IsImported(w, ctx, meta, n)
    ensures Permitted(w, n)
  {
    var b, name, options: seq<(set<Path>, string)>, i: nat :|
      && b in ctx.bindings && Asks(b, meta, name)
      && w.options(ctx.path, ctx.language, b, name) == Some(options) && i < |options|
      && OnlyOne(InFiles(options[i].0, DirectCandidates(w, ctx.language, options[i].1)), n);
    assert n in InFiles(options[i].0, DirectCandidates(w, ctx.language, options[i].1));
  }

  lemma OwnedNeighbours(w: World, path: Path, owner: string, nodes: seq<Node>, m: Node)
    requires w.ownerOf(path) == Some(owner)
    ensures m in DirectOwned(w, path, owner, nodes) <==> m in nodes && IsNeighbour(w, path, m)
  {}

  lemma OwnedPick(w: World, path: Path, owner: string, nodes: seq<Node>, n: Node)
    requires w.ownerOf(path) == Some(owner) && UniqueOrSameDir(w, path, DirectOwned(w, path, owner, nodes)) == Some(n)
    ensures n in nodes && IsNeighbour(w, path, n)
    ensures forall m :: m in nodes && IsNeighbour(w, path, m) && (SameDir(w, path, n) ==> SameDir(w, path, m)) ==>
            m == n
  {
    OwnedNeighbours(w, path, owner, nodes, n);
    forall m | m in nodes && IsNeighbour(w, path, m) && (SameDir(w, path, n) ==> SameDir(w, path, m)) ensures m == n {
      OwnedNeighbours(w, path, owner, nodes, m);
    }
  }

  lemma NearPick(w: World, path: Path, nodes: seq<Node>, n: Node)
    requires w.ownerOf(path).None? && SameDirOnly(w, path, nodes) == Some(n)
    ensures n in nodes && IsNeighbour(w, path, n)
    ensures forall m :: m in nodes && IsNeighbour(w, path, m) ==> m == n
  {}

  lemma NeighbourIsUnambiguous(w: World, ctx: Context, meta: Meta)
    requires DirectSamePackage(w, ctx, meta).Some?
    ensures var t := DirectSamePackage(w, ctx, meta).value;
            var nodes := Narrow(w, meta, DirectCandidates(w, ctx.language, meta.callee));
            && t.tier == SamePackage && t.node in nodes && IsNeighbour(w, ctx.path, t.node)
            && forall m ::
                 && m in nodes && IsNeighbour(w, ctx.path, m)
                 && (SameDir(w, ctx.path, t.node) ==> SameDir(w, ctx.path, m)) ==>
                 m == t.node
  {
    var node := DirectSamePackage(w, ctx, meta).value.node;
    var nodes := Narrow(w, meta, DirectCandidates(w, ctx.language, meta.callee));
    if w.ownerOf(ctx.path).Some? {
      OwnedPick(w, ctx.path, w.ownerOf(ctx.path).value, nodes, node);
    } else {
      NearPick(w, ctx.path, nodes, node);
    }
  }

  // ---------------------------------------------------------------- when targets stay permitted

  /** A forbidden callable that is alone in its file, among all of its name or among those of its receiver. */
  ghost predicate Exposed(w: World, language: string, name: string, n: Node) {
    && !Permitted(w, n)
    && var all := w.callables(language, name);
    || OnlyOne(InFiles({n.path}, all), n)
    || (n.receiver.Some? && OnlyOne(InFiles({n.path}, OfReceiver(n.receiver.value, all)), n))
  }

  ghost predicate NoneExposed(w: World) {
    forall language, name, n :: !Exposed(w, language, name, n)
  }

  function ByFile(keep: Path -> bool, nodes: seq<Node>): seq<Node> {
    Filter((n: Node) => keep(n.path), nodes)
  }

  lemma InFilesCons(path: Path, n: Node, nodes: seq<Node>)
    ensures InFiles({path}, [n] + nodes) == (if n.path == path then [n] else []) + InFiles({path}, nodes)
  {
    assert ([n] + nodes)[1..] == nodes;
  }

  lemma ByFileCons(keep: Path -> bool, n: Node, nodes: seq<Node>)
    ensures ByFile(keep, [n] + nodes) == if keep(n.path) then [n] + ByFile(keep, nodes) else ByFile(keep, nodes)
  {
    assert ([n] + nodes)[1..] == nodes;
  }

  /** Selecting by file does not touch the other candidates of a file that is kept. */
  lemma {:induction false} SameFileIsKept(keep: Path -> bool, nodes: seq<Node>, path: Path)
    requires keep(path)
    ensures InFiles({path}, ByFile(keep, nodes)) == InFiles({path}, nodes)
  {
    if nodes != [] {
      var n, rest := nodes[0], nodes[1..];
      assert nodes == [n] + rest;
      SameFileIsKept(keep, rest, path);
      ByFileCons(keep, n, rest);
      InFilesCons(path, n, rest);
      if keep(n.path) { InFilesCons(path, n, ByFile(keep, rest)); }
    }
  }

  lemma AloneInFile(keep: Path -> bool, nodes: seq<Node>, n: Node)
    requires ByFile(keep, nodes) == [n]
    ensures OnlyOne(InFiles({n.path}, nodes), n)
  {
    assert n in ByFile(keep, nodes);
    SameFileIsKept(keep, nodes, n.path);
    InFilesCons(n.path, n, []);
    assert [n] + [] == [n];
  }

  /** A permitted callable of some name. */
  ghost predicate Legitimate(w: World, n: Node) {
    Permitted(w, n) && exists language, name :: n in w.callables(language, name)
  }

  /** What a query may answer with: everything of the name from a table, or the permitted ones. */
  lemma CandidatesAre(w: World, t: Tables, language: string, name: string)
    requires Faithful(w, t)
    ensures var (nodes, t') := Candidates(w, t, language, name);
            && Faithful(w, t') && (forall n :: n in nodes ==> n in w.callables(language, name))
            && (nodes == w.callables(language, name) || forall n :: n in nodes ==> Permitted(w, n))
  {}

  lemma PickIsUnexposed(w: World, language: string, name: string, keep: Path -> bool, n: Node)
    requires NoneExposed(w) && ByFile(keep, w.callables(language, name)) == [n]
    ensures Permitted(w, n)
  {
    AloneInFile(keep, w.callables(language, name), n);
    assert !Exposed(w, language, name, n);
  }

  lemma {:induction false} OptionsStayPermitted(w: World, t: Tables, language: string,
      options: seq<(set<Path>, string)>)
    requires NoneExposed(w) && Faithful(w, t)
    ensures var (hit, t') := TryOptions(w, t, language, options);
            Faithful(w, t') && (hit.Some? ==> Legitimate(w, hit.value.node))
    decreases |options|
  {
    if options != [] {
      CandidatesAre(w, t, language, options[0].1);
      var (all, t1) := Candidates(w, t, language, options[0].1);
      OptionsStayPermitted(w, t1, language, options[1..]);
      var picked := InFiles(options[0].0, all);
      if |picked| == 1 { OptionPickIsPermitted(w, language, options[0].1, options[0].0, all, picked[0]); }
    }
  }

  lemma OptionPickIsPermitted(w: World, language: string, name: string, files: set<Path>, all: seq<Node>, n: Node)
    requires NoneExposed(w) && (all == w.callables(language, name) || forall m :: m in all ==> Permitted(w, m))
    requires forall m :: m in all ==> m in w.callables(language, name)
    requires |InFiles(files, all)| == 1 && n == InFiles(files, all)[0]
    ensures Legitimate(w, n)
  {
    assert n in InFiles(files, all);
    if all == w.callables(language, name) {
      var keep := (p: Path) => p in files;
      SameFilter((m: Node) => m.path in files, (m: Node) => keep(m.path), all);
      assert InFiles(files, all) == [n];
      PickIsUnexposed(w, language, name, keep, n);
    }
  }

  lemma {:induction false} ImportsStayPermitted(w: World, t: Tables, ctx: Context, meta: Meta, bindings: seq<Binding>)
    requires NoneExposed(w) && Faithful(w, t)
    ensures var (hit, t') := ResolveImports(w, t, ctx, meta, bindings);
            Faithful(w, t') && (hit.Some? ==> Legitimate(w, hit.value.node))
    decreases |bindings|
  {
    if bindings != [] {
      var name := SymbolName(bindings[0], meta);
      if name.Some? && w.options(ctx.path, ctx.language, bindings[0], name.value).Some? {
        var options := w.options(ctx.path, ctx.language, bindings[0], name.value).value;
        OptionsStayPermitted(w, t, ctx.language, options);
        ImportsStayPermitted(w, TryOptions(w, t, ctx.language, options).1, ctx, meta, bindings[1..]);
      }
    }
  }

  lemma PackagePickIsPermitted(w: World, language: string, meta: Meta, all: seq<Node>, keep: Path -> bool, n: Node)
    requires NoneExposed(w) && (all == w.callables(language, meta.callee) || forall m :: m in all ==> Permitted(w, m))
    requires forall m :: m in all ==> m in w.callables(language, meta.callee)
    requires ByFile(keep, Narrow(w, meta, all)) == [n]
    ensures Legitimate(w, n)
  {
    var nodes := Narrow(w, meta, all);
    assert n in ByFile(keep, nodes);
    if all == w.callables(language, meta.callee) {
      AloneInFile(keep, nodes, n);
      assert !Exposed(w, language, meta.callee, n);
    }
  }

  lemma {:induction false} FilterTwice(p: Node -> bool, q: Node -> bool, nodes: seq<Node>)
    ensures Filter(q, Filter(p, nodes)) == Filter((n: Node) => p(n) && q(n), nodes)
  {
    if nodes != [] {
      FilterTwice(p, q, nodes[1..]);
      var kept := Filter(p, nodes[1..]);
      assert ([nodes[0]] + kept)[1..] == kept && [] + kept == kept;
    }
  }

  /** A package pick is a selection by file. */
  lemma OwnedPickIsByFile(w: World, path: Path, owner: string, nodes: seq<Node>, n: Node) returns (keep: Path -> bool)
    requires UniqueOrSameDir(w, path, DirectOwned(w, path, owner, nodes)) == Some(n)
    ensures ByFile(keep, nodes) == [n]
  {
    var owned := DirectOwned(w, path, owner, nodes);
    var mine := (p: Path) => p != path && w.ownerOf(p) == Some(owner);
    var own := (m: Node) => m.path != path && w.ownerOf(m.path) == Some(owner);
    if |owned| == 1 {
      keep := mine;
      SameFilter(own, (m: Node) => keep(m.path), nodes);
    } else {
      var near := (m: Node) => SameDir(w, path, m);
      var home := Some(match w.parentOf(path) case Some(d) => d case None => "");
      keep := (p: Path) => p != path && w.ownerOf(p) == Some(owner) && w.parentOf(p) == home;
      FilterTwice(own, near, nodes);
      SameFilter((m: Node) => own(m) && near(m), (m: Node) => keep(m.path), nodes);
    }
  }

  lemma NearPickIsByFile(w: World, path: Path, nodes: seq<Node>, n: Node) returns (keep: Path -> bool)
    requires SameDirOnly(w, path, nodes) == Some(n)
    ensures ByFile(keep, nodes) == [n]
  {
    var home := Some(match w.parentOf(path) case Some(d) => d case None => "");
    keep := (p: Path) => p != path && w.parentOf(p) == home;
    SameFilter((m: Node) => m.path != path && SameDir(w, path, m), (m: Node) => keep(m.path), nodes);
  }

  lemma PackageStaysPermitted(w: World, t: Tables, ctx: Context, meta: Meta)
    requires NoneExposed(w) && Faithful(w, t)
    ensures var (hit, t') := ResolveSamePackage(w, t, ctx, meta);
            Faithful(w, t') && (hit.Some? ==> Legitimate(w, hit.value.node))
  {
    CandidatesAre(w, t, ctx.language, meta.callee);
    var (all, t1) := Candidates(w, t, ctx.language, meta.callee);
    var nodes := Narrow(w, meta, all);
    var (owner, t2) := OwnerId(w, t1, ctx.path);
    var hit := ResolveSamePackage(w, t, ctx, meta).0;
    if owner.Some? {
      OwnedIsDirect(w, t2, ctx.path, owner.value, nodes);
      if hit.Some? {
        var keep := OwnedPickIsByFile(w, ctx.path, owner.value, nodes, hit.value.node);
        PackagePickIsPermitted(w, ctx.language, meta, all, keep, hit.value.node);
      }
    } else if hit.Some? {
      var keep := NearPickIsByFile(w, ctx.path, nodes, hit.value.node);
      PackagePickIsPermitted(w, ctx.language, meta, all, keep, hit.value.node);
    }
  }

  lemma TargetsStayPermitted(w: World, t: Tables, ctx: Context, meta: Meta)
    requires NoneExposed(w) && Faithful(w, t)
    ensures var (hit, t') := Resolve(w, t, ctx, meta);
            Faithful(w, t') && (hit.Some? ==> Legitimate(w, hit.value.node))
  {
    var bindings := MatchingBindings(ctx.bindings, meta);
    ImportsStayPermitted(w, t, ctx, meta, bindings);
    PackageStaysPermitted(w, ResolveImports(w, t, ctx, meta, bindings).1, ctx, meta);
  }

  /** An edge keeps its target or gets a legitimate one. */
  ghost predicate Sound(w: World, e: Edge, f: Edge) {
    f.target == e.target || exists n :: Legitimate(w, n) && f.target == n.qualifiedName
  }

  lemma EdgeStaysSound(w: World, t: Tables, ctx: Context, e: Edge)
    requires NoneExposed(w) && Faithful(w, t)
    ensures Sound(w, e, EditEdge(w, t, ctx, e).edge) && Faithful(w, EditEdge(w, t, ctx, e).tables)
  {
    if Eligible(e) { TargetsStayPermitted(w, t, ctx, MetaOf(e).value); }
  }

  lemma {:induction false} EdgesStaySound(w: World, t: Tables, ctx: Context, edges: seq<Edge>)
    requires NoneExposed(w) && Faithful(w, t)
    ensures var r := EditEdges(w, t, ctx, edges);
            Faithful(w, r.tables) && forall i :: 0 <= i < |edges| ==> Sound(w, edges[i], r.edges[i])
    decreases |edges|
  {
    if edges != [] {
      EdgeStaysSound(w, t, ctx, edges[0]);
      EdgesStaySound(w, EditEdge(w, t, ctx, edges[0]).tables, ctx, edges[1..]);
    }
  }

  lemma FileStaysSound(w: World, p: Pass, path: Path, key: (string, Path))
    requires NoneExposed(w) && Faithful(w, p.tables)
    ensures var before, after := EdgesAt(p.rows, key), EdgesAt(EditFile(w, p, path).rows, key);
            && Faithful(w, EditFile(w, p, path).tables) && |after| == |before|
            && forall i :: 0 <= i < |before| ==> Sound(w, before[i], after[i])
  {
    if ContextOf(w, path).Some? {
      EdgesStaySound(w, p.tables, ContextOf(w, path).value, EdgesAt(p.rows, (w.repo, path)));
    }
  }

  /** Every target a whole pass writes is a permitted callable, if no forbidden one is exposed. */
  lemma {:induction false} WrittenTargetsArePermitted(w: World, p: Pass, files: seq<Path>, key: (string, Path))
    requires NoneExposed(w) && Faithful(w, p.tables)
    ensures var before, after := EdgesAt(p.rows, key), EdgesAt(Run(w, p, files).rows, key);
            |after| == |before| && forall i :: 0 <= i < |before| ==> Sound(w, before[i], after[i])
    decreases |files|
  {
    if files != [] {
      FileStaysSound(w, p, files[0], key);
      WrittenTargetsArePermitted(w, EditFile(w, p, files[0]), files[1..], key);
    }
  }

  /** A repository whose imports all lead to one file and one name. */
  function ImportingOnly(w: World, path: Path, name: string): World {
    w.(options := (p: Path, l: string, b: Binding, m: string) => Some([({path}, name)]))
  }

  /** A repository in which only two files share an owner. */
  function OwningOnly(w: World, a: Path, b: Path): World {
    w.(ownerOf := (p: Path) => if p == a || p == b then Some("") else None)
  }

  function FullTable(w: World, language: string, name: string): Tables {
    Tables(map[(language, name) := w.callables(language, name)], map[])
  }

  lemma ExposedByImport(w: World, language: string, name: string, n: Node)
    requires OnlyOne(InFiles({n.path}, w.callables(language, name)), n)
    ensures var w' := ImportingOnly(w, n.path, name);
            var ctx, meta := Context("", language, [Binding("", "", None, Wildcard, 0)]), Meta(name, None, None);
            Resolve(w', FullTable(w, language, name), ctx, meta).0 == Some(Target(n, Imports))
  {
    var w' := ImportingOnly(w, n.path, name);
    var b := Binding("", "", None, Wildcard, 0);
    var ctx, meta := Context("", language, [b]), Meta(name, None, None);
    FilterAll((x: Binding) => x.local == meta.callee || x.kind == Wildcard, [b]);
    assert MatchingBindings(ctx.bindings, meta) == [b];
    var t, options := FullTable(w, language, name), [({n.path}, name)];
    assert TryOptions(w', t, language, options).0 == Some(Target(n, Imports));
  }

  lemma ExposedByReceiver(w: World, language: string, name: string, n: Node)
    requires n.receiver.Some?
    requires OnlyOne(InFiles({n.path}, OfReceiver(n.receiver.value, w.callables(language, name))), n)
    ensures var home := n.path + "/";
            var ctx, meta := Context(home, language, []), Meta(name, None, n.receiver);
            Resolve(OwningOnly(w, home, n.path), FullTable(w, language, name), ctx, meta).0 ==
              Some(Target(n, SamePackage))
  {
    var home := n.path + "/";
    var w' := OwningOnly(w, home, n.path);
    var ctx, meta := Context(home, language, []), Meta(name, None, n.receiver);
    var t, all := FullTable(w, language, name), w.callables(language, name);
    assert MatchingBindings(ctx.bindings, meta) == [];
    assert ResolveImports(w', t, ctx, meta, []) == (None, t);
    var nodes := OfReceiver(n.receiver.value, all);
    assert n in InFiles({n.path}, nodes);
    assert Narrow(w', meta, all) == nodes;
    var t2 := OwnerId(w', t, home).1;
    OwnedIsDirect(w', t2, home, "", nodes);
    OwnedAreInFile(w, home, n.path, nodes);
    assert OwnedBy(w', t2, home, "", nodes).0 == [n];
  }

  lemma OwnedAreInFile(w: World, path: Path, other: Path, nodes: seq<Node>)
    requires path != other
    ensures DirectOwned(OwningOnly(w, path, other), path, "", nodes) == InFiles({other}, nodes)
  {
    var w', owner, files := OwningOnly(w, path, other), "", {other};
    SameFilter((n: Node) => n.path != path && w'.ownerOf(n.path) == Some(owner), (n: Node) => n.path in files, nodes);
  }

  /** Resolution in any repository with these callables and allowed repositories, whatever else holds there. */
  ghost predicate AlwaysPermitted(w: World) {
    forall w': World, t, ctx, meta ::
      (w'.callables == w.callables && w'.allowed == w.allowed && Faithful(w', t)
        && Resolve(w', t, ctx, meta).0.Some?) ==>
        Permitted(w', Resolve(w', t, ctx, meta).0.value.node)
  }

  /**
   Every target is permitted, in every repository with these callables and from every faithful table, IF AND ONLY IF no
   forbidden callable is alone in its file.
   */
  lemma TargetsArePermittedIff(w: World)
    ensures AlwaysPermitted(w) <==> NoneExposed(w)
  {
    if NoneExposed(w) {
      forall w': World, t, ctx, meta | w'.callables == w.callables && w'.allowed == w.allowed && Faithful(w', t) &&
        Resolve(w', t, ctx, meta).0.Some? ensures Permitted(w', Resolve(w', t, ctx, meta).0.value.node)
      {
        SameExposure(w, w');
        TargetsStayPermitted(w', t, ctx, meta);
      }
    } else {
      var language, name, n :| Exposed(w, language, name, n);
      ExposedIsWritten(w, language, name, n);
    }
  }

  lemma SameExposure(w: World, w': World)
    requires NoneExposed(w) && w'.callables == w.callables && w'.allowed == w.allowed
    ensures NoneExposed(w')
  {
    forall language, name, n ensures !Exposed(w', language, name, n) { assert !Exposed(w, language, name, n); }
  }

  lemma ExposedIsWritten(w: World, language: string, name: string, n: Node)
    requires Exposed(w, language, name, n)
    ensures !AlwaysPermitted(w)
  {
    var t := FullTable(w, language, name);
    if OnlyOne(InFiles({n.path}, w.callables(language, name)), n) {
      var w' := ImportingOnly(w, n.path, name);
      assert Faithful(w', t) && !Permitted(w', n);
      ExposedByImport(w, language, name, n);
    } else {
      var home := n.path + "/";
      var w' := OwningOnly(w, home, n.path);
      assert Faithful(w', t) && !Permitted(w', n);
      ExposedByReceiver(w, language, name, n);
    }
  }

  // ---------------------------------------------------------------- without the conditions

  /** All files in one directory, without owners or imports, and the same callables for every name. */
  function Village(callables: seq<Node>): World {
    World("r", {"r"}, p => [Node(FileNode, p, p, "l", None, None)], (l, n) => callables, p => None,
      (p, l, b, n) => None, t => None, p => Some(""))
  }

  const CALL: Edge := Edge(Calls, "caller", "unknown", "", None, 0.0, None, Some(map[CalleeName := Text("f")]))
  const OWN: Node := Node(OtherNode, "own", "c", "l", None, None)
  const FOREIGN: Node := Node(OtherNode, "foreign", "d", "l", Some("s"), None)

  /** The callable a file's call resolves to: the table has all of them, a first query only the permitted ones. */
  function Pick(callables: seq<Node>, t: Tables, path: Path): Option<Node> {
    SameDirOnly(Village(callables), path,
                if ("l", "f") in t.candidates then callables else PermittedOf(Village(callables), callables))
  }

  lemma VillageResolve(callables: seq<Node>, t: Tables, path: Path)
    requires Faithful(Village(callables), t)
    ensures var (hit, t') := ResolveSamePackage(Village(callables), t, Context(path, "l", []), Meta("f", None, None));
            && hit == InTier(Pick(callables, t, path), SamePackage)
            && ("l", "f") in t'.candidates && Faithful(Village(callables), t')
  {}

  lemma VillageEdge(callables: seq<Node>, t: Tables, path: Path)
    requires Faithful(Village(callables), t)
    ensures var r := EditEdge(Village(callables), t, Context(path, "l", []), CALL);
            && ("l", "f") in r.tables.candidates && Faithful(Village(callables), r.tables)
            && r.edge.target == (match Pick(callables, t, path) case None => "unknown" case Some(n) => n.qualifiedName)
            && (!r.changed ==> r.edge.target == CALL.target)
  {
    var w, ctx, meta := Village(callables), Context(path, "l", []), Meta("f", None, None);
    assert MetaOf(CALL) == Some(meta);
    assert ResolveImports(w, t, ctx, meta, []) == (None, t);
    VillageResolve(callables, t, path);
  }

  lemma EditOne(w: World, t: Tables, ctx: Context, e: Edge)
    ensures var r := EditEdge(w, t, ctx, e); EditEdges(w, t, ctx, [e]) == Edit([r.edge], r.changed, r.tables)
  {
    var r := EditEdge(w, t, ctx, e);
    assert EditEdges(w, r.tables, ctx, [e][1..]) == Edit([], false, r.tables);
  }

  lemma RunTwo(w: World, p: Pass, x: Path, y: Path)
    ensures Run(w, p, [x, y]) == EditFile(w, EditFile(w, p, x), y)
  {
    assert [x, y][1..] == [y];
    assert Run(w, EditFile(w, p, x), [y]) == EditFile(w, EditFile(w, p, x), y);
  }

  lemma VillageContext(callables: seq<Node>, path: Path)
    ensures ContextOf(Village(callables), path) == Some(Context(path, "l", []))
  {
    assert BindingsOf(Village(callables).nodesOf(path)) == [];
  }

  ghost predicate CallsTo(rows: Rows, path: Path, target: string) {
    EdgesAt(rows, ("r", path)) != [] && EdgesAt(rows, ("r", path))[0].target == target
  }

  lemma VillageFile(callables: seq<Node>, p: Pass, path: Path)
    requires path !in p.seen && Faithful(Village(callables), p.tables) && EdgesAt(p.rows, ("r", path)) == [CALL]
    ensures var p' := EditFile(Village(callables), p, path);
            && Faithful(Village(callables), p'.tables) && ("l", "f") in p'.tables.candidates
            && p'.seen == p.seen + {path}
            && CallsTo(p'.rows, path,
                 match Pick(callables, p.tables, path) case None => "unknown" case Some(n) => n.qualifiedName)
  {
    VillageEdge(callables, p.tables, path);
    VillageContext(callables, path);
    EditOne(Village(callables), p.tables, Context(path, "l", []), CALL);
  }

  /** Two files with one call each: the second finds the table filled by the first. */
  lemma TwoFiles(callables: seq<Node>, x: Path, y: Path, rows: Rows)
    requires x != y && EdgesAt(rows, ("r", x)) == [CALL] && EdgesAt(rows, ("r", y)) == [CALL]
    ensures var last := Run(Village(callables), Start(rows), [x, y]).rows;
            var first, second := SameDirOnly(Village(callables), x, PermittedOf(Village(callables), callables)),
                                 SameDirOnly(Village(callables), y, callables);
            && CallsTo(last, x, match first case None => "unknown" case Some(n) => n.qualifiedName)
            && CallsTo(last, y, match second case None => "unknown" case Some(n) => n.qualifiedName)
  {
    var w := Village(callables);
    var p := EditFile(w, Start(rows), x);
    VillageFile(callables, Start(rows), x);
    FileKeepsCalls(w, Start(rows), x, ("r", y));
    VillageFile(callables, p, y);
    FileKeepsCalls(w, p, y, ("r", x));
    RunTwo(w, Start(rows), x, y);
  }

  lemma PicksAmongTwo(path: Path)
    requires path !in {"c", "d"}
    ensures var w := Village([OWN, FOREIGN]);
            SameDirOnly(w, path, PermittedOf(w, [OWN, FOREIGN])) == Some(OWN)
              && SameDirOnly(w, path, [OWN, FOREIGN]) == None
  {
    var w, all := Village([OWN, FOREIGN]), [OWN, FOREIGN];
    assert all[1..] == [FOREIGN];
    assert PermittedOf(w, [FOREIGN][1..]) == [];
    assert PermittedOf(w, [FOREIGN]) == [];
    assert PermittedOf(w, all) == [OWN];
    PickNear(w, path, [OWN]);
    PickNear(w, path, all);
  }

  lemma PickNear(w: World, path: Path, nodes: seq<Node>)
    requires forall n :: n in nodes ==> n.path != path && SameDir(w, path, n)
    ensures SameDirOnly(w, path, nodes) == Unique(nodes)
  {
    FilterAll((n: Node) => n.path != path && SameDir(w, path, n), nodes);
  }

  /** Whichever of two files comes first gets its call resolved; the other does not. */
  lemma PassDependsOnOrder(x: Path, y: Path)
    requires x != y && x !in {"c", "d"} && y !in {"c", "d"}
    ensures var rows := map[("r", x) := [CALL], ("r", y) := [CALL]];
            && CallsTo(Run(Village([OWN, FOREIGN]), Start(rows), [x, y]).rows, x, "own")
            && CallsTo(Run(Village([OWN, FOREIGN]), Start(rows), [y, x]).rows, x, "unknown")
  {
    var rows := map[("r", x) := [CALL], ("r", y) := [CALL]];
    TwoFiles([OWN, FOREIGN], x, y, rows);
    TwoFiles([OWN, FOREIGN], y, x, rows);
    PicksAmongTwo(x);
    PicksAmongTwo(y);
  }

  /**
   A pass writes a target in a repository that is not allowed: the first file fills the table, the second takes it.
   */
  lemma ForbiddenTargetIsWritten(x: Path, y: Path)
    requires x != y && y != "d"
    ensures var rows := map[("r", x) := [CALL], ("r", y) := [CALL]];
            && CallsTo(Run(Village([FOREIGN]), Start(rows), [x, y]).rows, y, "foreign")
            && !Permitted(Village([FOREIGN]), FOREIGN)
            && DirectResolve(Village([FOREIGN]), Context(y, "l", []), Meta("f", None, None)).None?
  {
    var rows, w := map[("r", x) := [CALL], ("r", y) := [CALL]], Village([FOREIGN]);
    TwoFiles([FOREIGN], x, y, rows);
    PickNear(w, y, [FOREIGN]);
    assert PermittedOf(w, [FOREIGN][1..]) == [];
    assert PermittedOf(w, [FOREIGN]) == [];
  }
}
