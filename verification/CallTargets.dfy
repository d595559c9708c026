/**
 Which target a call gets, in the terms of the imports and nodes alone, and what that makes of its edge
 (packages/atlas-engine/src/call_resolution.rs): every import that can be followed is, and nothing else is written.
 */
module CallTargets {
  import opened Wrappers
  import opened Collections
  import opened CallResolution

  // ---------------------------------------------------------------- one of its kind

  /** Exactly one position of the list holds a wanted node, and it holds this one. */
  ghost predicate Alone(nodes: seq<Node>, wanted: Node -> bool, n: Node) {
    exists i :: 0 <= i < |nodes| && nodes[i] == n && wanted(n) && OthersUnwanted(nodes, wanted, i)
  }

  ghost predicate OthersUnwanted(nodes: seq<Node>, wanted: Node -> bool, i: int) {
    forall j :: 0 <= j < |nodes| && j != i ==> !wanted(nodes[j])
  }

  lemma OthersShift(n: Node, rest: seq<Node>, wanted: Node -> bool, i: int)
    requires i >= -1
    ensures OthersUnwanted([n] + rest, wanted, i + 1) <==> (i == -1 || !wanted(n)) && OthersUnwanted(rest, wanted, i)
  {
    var nodes := [n] + rest;
    assert nodes[0] == n && forall j :: 0 <= j < |rest| ==> rest[j] == nodes[j + 1];
    if OthersUnwanted(nodes, wanted, i + 1) {
      forall j | 0 <= j < |rest| && j != i ensures !wanted(rest[j]) { assert !wanted(nodes[j + 1]); }
    }
    if (i == -1 || !wanted(n)) && OthersUnwanted(rest, wanted, i) {
      forall j | 0 <= j < |nodes| && j != i + 1 ensures !wanted(nodes[j]) {
        if j > 0 { assert nodes[j] == rest[j - 1]; }
      }
    }
  }

  lemma NoneCons(n: Node, rest: seq<Node>, wanted: Node -> bool)
    ensures OthersUnwanted([n] + rest, wanted, -1) <==> !wanted(n) && OthersUnwanted(rest, wanted, -1)
  {
    var nodes := [n] + rest;
    OthersShift(n, rest, wanted, -1);
    assert nodes[0] == n;
    if !wanted(n) && OthersUnwanted(rest, wanted, -1) {
      forall j | 0 <= j < |nodes| ensures !wanted(nodes[j]) { assert j != 0 ==> !wanted(nodes[j]); }
    }
  }

  lemma AloneFirst(n: Node, rest: seq<Node>, wanted: Node -> bool, m: Node)
    requires wanted(n)
    ensures Alone([n] + rest, wanted, m) <==> n == m && OthersUnwanted(rest, wanted, -1)
  {
    var nodes := [n] + rest;
    OthersShift(n, rest, wanted, -1);
    assert nodes[0] == n;
    if Alone(nodes, wanted, m) {
      var i :| 0 <= i < |nodes| && nodes[i] == m && wanted(m) && OthersUnwanted(nodes, wanted, i);
      assert i == 0;
    }
  }

  lemma AloneLater(n: Node, rest: seq<Node>, wanted: Node -> bool, m: Node)
    requires !wanted(n)
    ensures Alone([n] + rest, wanted, m) <==> Alone(rest, wanted, m)
  {
    var nodes := [n] + rest;
    if Alone(nodes, wanted, m) {
      var i :| 0 <= i < |nodes| && nodes[i] == m && wanted(m) && OthersUnwanted(nodes, wanted, i);
      OthersShift(n, rest, wanted, i - 1);
      assert rest[i - 1] == m;
    }
    if Alone(rest, wanted, m) {
      var i :| 0 <= i < |rest| && rest[i] == m && wanted(m) && OthersUnwanted(rest, wanted, i);
      OthersShift(n, rest, wanted, i);
      assert nodes[i + 1] == m;
    }
  }

  lemma {:induction false} NoneKept(nodes: seq<Node>, wanted: Node -> bool)
    ensures Filter(wanted, nodes) == [] <==> OthersUnwanted(nodes, wanted, -1)
  {
    if nodes != [] {
      NoneKept(nodes[1..], wanted);
      NoneCons(nodes[0], nodes[1..], wanted);
      assert nodes == [nodes[0]] + nodes[1..];
    }
  }

  lemma {:induction false} UniqueIff(nodes: seq<Node>, wanted: Node -> bool, n: Node)
    ensures Unique(Filter(wanted, nodes)) == Some(n) <==> Alone(nodes, wanted, n)
  {
    if nodes != [] {
      assert nodes == [nodes[0]] + nodes[1..];
      UniqueIff(nodes[1..], wanted, n);
      NoneKept(nodes[1..], wanted);
      if wanted(nodes[0]) {
        AloneFirst(nodes[0], nodes[1..], wanted, n);
      } else {
        AloneLater(nodes[0], nodes[1..], wanted, n);
      }
    }
  }

  // ---------------------------------------------------------------- imports

  /** Exactly one callable of the option's name is in its files and in an allowed repository, if it names one. */
  ghost predicate Hits(w: World, language: string, option: (set<Path>, string), n: Node) {
    Alone(w.callables(language, option.1),
          (m: Node) => m.path in option.0 && (m.repo.Some? ==> m.repo.value in w.allowed), n)
  }

  lemma HitIff(w: World, language: string, option: (set<Path>, string), n: Node)
    ensures Unique(InFiles(option.0, DirectCandidates(w, language, option.1))) == Some(n) <==>
            Hits(w, language, option, n)
  {
    var both := (m: Node) => m.path in option.0 && (m.repo.Some? ==> m.repo.value in w.allowed);
    FilterBoth((m: Node) => m.path in option.0, (m: Node) => Permitted(w, m), both, w.callables(language, option.1));
    UniqueIff(w.callables(language, option.1), both, n);
  }

  /** The option at `k` is the first that hits. */
  ghost predicate FirstHit(w: World, language: string, options: seq<(set<Path>, string)>, k: nat, n: Node) {
    && k < |options| && Hits(w, language, options[k], n)
    && forall j, m :: 0 <= j < k ==> !Hits(w, language, options[j], m)
  }

  ghost predicate SomeHit(w: World, language: string, options: seq<(set<Path>, string)>, n: Node) {
    exists k: nat :: FirstHit(w, language, options, k, n)
  }

  lemma FirstHitCons(w: World, language: string, options: seq<(set<Path>, string)>, n: Node)
    requires options != []
    ensures SomeHit(w, language, options, n) <==>
            || Hits(w, language, options[0], n)
            || ((forall m :: !Hits(w, language, options[0], m)) && SomeHit(w, language, options[1..], n))
  {
    var rest := options[1..];
    if SomeHit(w, language, options, n) {
      var k: nat :| FirstHit(w, language, options, k, n);
      if k > 0 {
        forall j, m | 0 <= j < k - 1 ensures !Hits(w, language, rest[j], m) { assert rest[j] == options[j + 1]; }
        assert FirstHit(w, language, rest, k - 1, n);
      }
    }
    if Hits(w, language, options[0], n) { assert FirstHit(w, language, options, 0, n); }
    if (forall m :: !Hits(w, language, options[0], m)) && SomeHit(w, language, rest, n) {
      var k: nat :| FirstHit(w, language, rest, k, n);
      forall j, m | 0 <= j < k + 1 ensures !Hits(w, language, options[j], m) {
        if j > 0 { assert options[j] == rest[j - 1]; }
      }
      assert FirstHit(w, language, options, k + 1, n);
    }
  }

  lemma {:induction false} OptionsIff(w: World, language: string, options: seq<(set<Path>, string)>, n: Node)
    ensures DirectOptions(w, language, options) == Some(Target(n, Imports)) <==> SomeHit(w, language, options, n)
    ensures DirectOptions(w, language, options).Some? ==> DirectOptions(w, language, options).value.tier == Imports
  {
    if options != [] {
      var hit := Unique(InFiles(options[0].0, DirectCandidates(w, language, options[0].1)));
      OptionsIff(w, language, options[1..], n);
      FirstHitCons(w, language, options, n);
      forall m ensures hit == Some(m) <==> Hits(w, language, options[0], m) { HitIff(w, language, options[0], m); }
      if hit.Some? { assert Hits(w, language, options[0], hit.value); }
    }
  }

  /** Through this binding the call finds the node. */
  ghost predicate Finds(w: World, ctx: Context, meta: Meta, b: Binding, n: Node) {
    exists name :: Asks(b, meta, name) && FindsAs(w, ctx, b, name, n)
  }

  ghost predicate FindsAs(w: World, ctx: Context, b: Binding, name: string, n: Node) {
    var options := w.options(ctx.path, ctx.language, b, name);
    options.Some? && SomeHit(w, ctx.language, options.value, n)
  }

  /** The call is not about this binding, or the import can be followed and leads to no single callable. */
  ghost predicate PassesOver(w: World, ctx: Context, meta: Meta, b: Binding) {
    if GivesUp(b, meta) then false
    else forall name :: Asks(b, meta, name) ==>
           && w.options(ctx.path, ctx.language, b, name).Some?
           && forall n :: !FindsAs(w, ctx, b, name, n)
  }

  /** The first binding the call does not pass over leads it to the node. */
  ghost predicate ImportsTo(w: World, ctx: Context, meta: Meta, bindings: seq<Binding>, n: Node) {
    exists i :: 0 <= i < |bindings| && Finds(w, ctx, meta, bindings[i], n) && AllPassed(w, ctx, meta, bindings[..i])
  }

  ghost predicate AllPassed(w: World, ctx: Context, meta: Meta, bindings: seq<Binding>) {
    forall b :: b in bindings ==> PassesOver(w, ctx, meta, b)
  }

  lemma ImportsCons(w: World, ctx: Context, meta: Meta, b: Binding, rest: seq<Binding>, n: Node)
    ensures ImportsTo(w, ctx, meta, [b] + rest, n) <==>
            Finds(w, ctx, meta, b, n) || (PassesOver(w, ctx, meta, b) && ImportsTo(w, ctx, meta, rest, n))
  {
    var bindings := [b] + rest;
    if ImportsTo(w, ctx, meta, bindings, n) {
      var i :| 0 <= i < |bindings| && Finds(w, ctx, meta, bindings[i], n) && AllPassed(w, ctx, meta, bindings[..i]);
      if i > 0 {
        assert bindings[..i] == [b] + rest[..i - 1];
        assert b in bindings[..i] && AllPassed(w, ctx, meta, rest[..i - 1]);
        assert rest[i - 1] == bindings[i];
      }
    }
    if Finds(w, ctx, meta, b, n) {
      assert bindings[0] == b && AllPassed(w, ctx, meta, bindings[..0]);
    }
    if PassesOver(w, ctx, meta, b) && ImportsTo(w, ctx, meta, rest, n) {
      var i :| 0 <= i < |rest| && Finds(w, ctx, meta, rest[i], n) && AllPassed(w, ctx, meta, rest[..i]);
      assert bindings[..i + 1] == [b] + rest[..i] && bindings[i + 1] == rest[i];
      assert AllPassed(w, ctx, meta, bindings[..i + 1]);
    }
  }

  lemma MatchingCons(b: Binding, rest: seq<Binding>, meta: Meta)
    ensures MatchingBindings([b] + rest, meta) == MatchingBindings([b], meta) + MatchingBindings(rest, meta)
    ensures MatchingBindings([b], meta) == if b in MatchingBindings([b], meta) then [b] else []
  {
    match meta.receiverText
    case Some(receiver) =>
      FilterAppend((x: Binding) => x.local == receiver, [b], rest);
      FilterOne((x: Binding) => x.local == receiver, b);
    case None =>
      FilterAppend((x: Binding) => x.local == meta.callee || x.kind == Wildcard, [b], rest);
      FilterOne((x: Binding) => x.local == meta.callee || x.kind == Wildcard, b);
  }

  /** One binding: it is passed over, it leads to a node, or the import search ends there. */
  lemma OneBinding(w: World, ctx: Context, meta: Meta, b: Binding, rest: seq<Binding>, n: Node)
    ensures var found := DirectImports(w, ctx, meta, MatchingBindings([b] + rest, meta));
            && (PassesOver(w, ctx, meta, b) ==> found == DirectImports(w, ctx, meta, MatchingBindings(rest, meta)))
            && (!PassesOver(w, ctx, meta, b) ==> (found == Some(Target(n, Imports)) <==> Finds(w, ctx, meta, b, n)))
            && (!PassesOver(w, ctx, meta, b) && found.Some? ==> found.value.tier == Imports)
            && (PassesOver(w, ctx, meta, b) ==> !Finds(w, ctx, meta, b, n))
  {
    MatchingCons(b, rest, meta);
    MatchingIff([b], meta, b);
    if b in MatchingBindings([b], meta) {
      Followed(w, ctx, meta, b, MatchingBindings(rest, meta), n);
    } else {
      assert [] + MatchingBindings(rest, meta) == MatchingBindings(rest, meta);
    }
  }

  lemma Followed(w: World, ctx: Context, meta: Meta, b: Binding, more: seq<Binding>, n: Node)
    requires forall name :: SymbolName(b, meta) == Some(name) <==> Asks(b, meta, name)
    requires (exists name :: Asks(b, meta, name)) || GivesUp(b, meta)
    ensures var found := DirectImports(w, ctx, meta, [b] + more);
            if PassesOver(w, ctx, meta, b) then
              found == DirectImports(w, ctx, meta, more) && !Finds(w, ctx, meta, b, n)
            else
              && (found == Some(Target(n, Imports)) <==> Finds(w, ctx, meta, b, n))
              && (found.Some? ==> found.value.tier == Imports)
  {
    assert ([b] + more)[1..] == more;
    var name := SymbolName(b, meta);
    if name.Some? {
      assert Asks(b, meta, name.value);
      var options := w.options(ctx.path, ctx.language, b, name.value);
      if options.Some? {
        var hit := DirectOptions(w, ctx.language, options.value);
        forall m ensures hit == Some(Target(m, Imports)) <==> FindsAs(w, ctx, b, name.value, m) {
          OptionsIff(w, ctx.language, options.value, m);
        }
        OptionsIff(w, ctx.language, options.value, n);
        if hit.Some? { assert FindsAs(w, ctx, b, name.value, hit.value.node); }
      }
    }
  }

  /** The import search leads to a node exactly when the bindings do; whatever it finds is found by import. */
  lemma {:induction false} ImportsIff(w: World, ctx: Context, meta: Meta, bindings: seq<Binding>, n: Node)
    ensures var found := DirectImports(w, ctx, meta, MatchingBindings(bindings, meta));
            && (found == Some(Target(n, Imports)) <==> ImportsTo(w, ctx, meta, bindings, n))
            && (found.Some? ==> found.value.tier == Imports)
  {
    if bindings == [] {
      assert MatchingBindings([], meta) == [];
    } else {
      var b, rest := bindings[0], bindings[1..];
      assert bindings == [b] + rest;
      ImportsIff(w, ctx, meta, rest, n);
      OneBinding(w, ctx, meta, b, rest, n);
      ImportsCons(w, ctx, meta, b, rest, n);
    }
  }

  /** Whatever the tables hold otherwise, an only import whose symbol was not asked for yet is followed. */
  lemma OnlyImportIsFollowed(w: World, t: Tables, ctx: Context, meta: Meta, b: Binding, x: string, files: set<Path>,
                             n: Node)
    requires ctx.bindings == [b] && Asks(b, meta, x) && w.options(ctx.path, ctx.language, b, x) == Some([(files, x)])
    requires (ctx.language, x) !in t.candidates && Hits(w, ctx.language, (files, x), n)
    ensures Resolve(w, t, ctx, meta).0 == Some(Target(n, Imports))
  {
    MatchingIff([b], meta, b);
    MatchingCons(b, [], meta);
    assert [b] + [] == [b];
    HitIff(w, ctx.language, (files, x), n);
    assert MatchingBindings([b], meta) == [b];
    assert TryOptions(w, t, ctx.language, [(files, x)]).0 == Some(Target(n, Imports));
  }

  // ---------------------------------------------------------------- the same package

  /** The type the receiver is known, or else taken, to have. */
  ghost predicate HasHint(w: World, meta: Meta, hint: string) {
    || meta.receiverType == Some(hint)
    || (meta.receiverType.None? && meta.receiverText.Some? && w.hintOf(meta.receiverText.value) == Some(hint))
  }

  ghost predicate MayLink(w: World, m: Node) {
    m.repo.Some? ==> m.repo.value in w.allowed
  }

  /** A permitted callable; with a hint a method of that type, unless no permitted callable of the name is one. */
  ghost predicate IsMeant(w: World, meta: Meta, all: seq<Node>, m: Node) {
    && MayLink(w, m)
    && forall hint :: HasHint(w, meta, hint) && m.receiver != Some(hint) ==>
         forall x :: x in all && MayLink(w, x) ==> x.receiver != Some(hint)
  }

  /** In the directory of the caller; at the top, a caller without one has the empty one. */
  ghost predicate IsBeside(w: World, path: Path, m: Node) {
    w.parentOf(m.path) == Some(if w.parentOf(path).Some? then w.parentOf(path).value else "")
  }

  /** In another file of the caller's owner, or beside the caller if it has none. */
  ghost predicate IsNear(w: World, path: Path, m: Node) {
    && m.path != path
    && if w.ownerOf(path).Some? then w.ownerOf(m.path) == w.ownerOf(path) else IsBeside(w, path, m)
  }

  ghost function Near(w: World, ctx: Context, meta: Meta): (near: Node -> bool)
    ensures forall m :: near(m) <==>
              IsMeant(w, meta, w.callables(ctx.language, meta.callee), m) && IsNear(w, ctx.path, m)
  {
    m => IsMeant(w, meta, w.callables(ctx.language, meta.callee), m) && IsNear(w, ctx.path, m)
  }

  ghost function Beside(w: World, ctx: Context, meta: Meta): (beside: Node -> bool)
    ensures forall m :: beside(m) <==> Near(w, ctx, meta)(m) && IsBeside(w, ctx.path, m)
  {
    m => Near(w, ctx, meta)(m) && IsBeside(w, ctx.path, m)
  }

  /** The only callable meant that is near, or if there is no only one, the only one of those beside the caller. */
  ghost predicate PackageTo(w: World, ctx: Context, meta: Meta, n: Node) {
    var all, near := w.callables(ctx.language, meta.callee), Near(w, ctx, meta);
    Alone(all, near, n) || (Alone(all, Beside(w, ctx, meta), n) && forall m :: !Alone(all, near, m))
  }

  lemma {:induction false} FilterAgrees(p: Node -> bool, q: Node -> bool, nodes: seq<Node>)
    requires forall m :: m in nodes ==> p(m) == q(m)
    ensures Filter(p, nodes) == Filter(q, nodes)
  {
    if nodes != [] { FilterAgrees(p, q, nodes[1..]); }
  }

  /** Two selections of the same nodes leave the same node alone. */
  lemma AloneAgrees(nodes: seq<Node>, p: Node -> bool, q: Node -> bool, n: Node)
    requires forall m :: m in nodes ==> p(m) == q(m)
    ensures Alone(nodes, p, n) <==> Alone(nodes, q, n)
  {
    FilterAgrees(p, q, nodes);
    UniqueIff(nodes, p, n);
    UniqueIff(nodes, q, n);
  }

  /** The candidates a call narrows down to are those it can mean. */
  lemma NarrowIsMeant(w: World, meta: Meta, all: seq<Node>, meant: Node -> bool)
    requires forall m :: m in all ==> (meant(m) <==> IsMeant(w, meta, all, m))
    ensures Narrow(w, meta, PermittedOf(w, all)) == Filter(meant, all)
  {
    var permitted := PermittedOf(w, all);
    var may := (m: Node) => Permitted(w, m);
    match ReceiverHint(w, meta)
    case None =>
      assert forall hint :: !HasHint(w, meta, hint);
      FilterAgrees(may, meant, all);
    case Some(hint) =>
      assert forall h :: HasHint(w, meta, h) <==> h == hint;
      if OfReceiver(hint, permitted) == [] {
        forall x | x in all && MayLink(w, x) ensures x.receiver != Some(hint) {
          assert x in permitted;
          NoneOfReceiver(hint, permitted, x);
        }
        FilterAgrees(may, meant, all);
      } else {
        var x := OfReceiver(hint, permitted)[0];
        assert x in OfReceiver(hint, permitted);
        assert x in all && MayLink(w, x) && x.receiver == Some(hint);
        var both := (m: Node) => m.receiver == Some(hint) && Permitted(w, m);
        FilterBoth((m: Node) => m.receiver == Some(hint), may, both, all);
        FilterAgrees(both, meant, all);
      }
  }

  lemma NoneOfReceiver(hint: string, nodes: seq<Node>, x: Node)
    requires OfReceiver(hint, nodes) == [] && x in nodes
    ensures x.receiver != Some(hint)
  {
    assert x !in OfReceiver(hint, nodes);
  }

  /** Picking among the near candidates of an owned caller. */
  lemma OwnedPickIff(w: World, ctx: Context, owner: string, nodes: seq<Node>, meant: Node -> bool, all: seq<Node>,
                     near: Node -> bool, beside: Node -> bool, n: Node)
    requires w.ownerOf(ctx.path) == Some(owner) && nodes == Filter(meant, all)
    requires forall m :: near(m) <==> meant(m) && IsNear(w, ctx.path, m)
    requires forall m :: beside(m) <==> near(m) && IsBeside(w, ctx.path, m)
    ensures UniqueOrSameDir(w, ctx.path, DirectOwned(w, ctx.path, owner, nodes)) == Some(n) <==>
            Alone(all, near, n) || (Alone(all, beside, n) && forall m :: !Alone(all, near, m))
  {
    var owned := DirectOwned(w, ctx.path, owner, nodes);
    FilterBoth((m: Node) => m.path != ctx.path && w.ownerOf(m.path) == Some(owner), meant, near, all);
    assert owned == Filter(near, all);
    FilterBoth((m: Node) => SameDir(w, ctx.path, m), near, beside, all);
    UniqueIff(all, near, n);
    UniqueIff(all, beside, n);
    forall m ensures Unique(owned) == Some(m) <==> Alone(all, near, m) { UniqueIff(all, near, m); }
    if Unique(owned).Some? { assert Alone(all, near, Unique(owned).value); }
  }

  lemma BesidePickIff(w: World, ctx: Context, nodes: seq<Node>, meant: Node -> bool, all: seq<Node>,
                      near: Node -> bool, n: Node)
    requires w.ownerOf(ctx.path).None? && nodes == Filter(meant, all)
    requires forall m :: near(m) <==> meant(m) && IsNear(w, ctx.path, m)
    ensures SameDirOnly(w, ctx.path, nodes) == Some(n) <==> Alone(all, near, n)
  {
    FilterBoth((m: Node) => m.path != ctx.path && SameDir(w, ctx.path, m), meant, near, all);
    UniqueIff(all, near, n);
  }

  /** What the package search picks, by conditions given as functions. */
  lemma PackagePick(w: World, ctx: Context, meta: Meta, n: Node, meant: Node -> bool, near: Node -> bool,
                    beside: Node -> bool)
    requires var all := w.callables(ctx.language, meta.callee);
             && (forall m :: meant(m) <==> IsMeant(w, meta, all, m))
             && (forall m :: near(m) <==> meant(m) && IsNear(w, ctx.path, m))
             && (forall m :: beside(m) <==> near(m) && IsBeside(w, ctx.path, m))
    ensures var all := w.callables(ctx.language, meta.callee);
            DirectSamePackage(w, ctx, meta) == Some(Target(n, SamePackage)) <==>
            Alone(all, near, n) || (Alone(all, beside, n) && forall m :: !Alone(all, near, m))
  {
    var all := w.callables(ctx.language, meta.callee);
    var nodes := Narrow(w, meta, DirectCandidates(w, ctx.language, meta.callee));
    NarrowIsMeant(w, meta, all, meant);
    if w.ownerOf(ctx.path).Some? {
      OwnedPickIff(w, ctx, w.ownerOf(ctx.path).value, nodes, meant, all, near, beside, n);
    } else {
      BesidePickIff(w, ctx, nodes, meant, all, near, n);
      AloneAgrees(all, near, beside, n);
    }
  }

  ghost function Meant(w: World, ctx: Context, meta: Meta): (meant: Node -> bool)
    ensures forall m :: meant(m) <==> IsMeant(w, meta, w.callables(ctx.language, meta.callee), m)
  {
    m => IsMeant(w, meta, w.callables(ctx.language, meta.callee), m)
  }

  lemma PackageIff(w: World, ctx: Context, meta: Meta, n: Node)
    ensures DirectSamePackage(w, ctx, meta) == Some(Target(n, SamePackage)) <==> PackageTo(w, ctx, meta, n)
    ensures DirectSamePackage(w, ctx, meta).Some? ==> DirectSamePackage(w, ctx, meta).value.tier == SamePackage
  {
    PackagePick(w, ctx, meta, n, Meant(w, ctx, meta), Near(w, ctx, meta), Beside(w, ctx, meta));
  }

  /**
   The target a call gets when the store is asked directly, in every world: by import where the bindings lead to a node,
   otherwise in the same package, and otherwise none.
   */
  lemma DirectResolveIff(w: World, ctx: Context, meta: Meta, t: Target)
    ensures DirectResolve(w, ctx, meta) == Some(t) <==>
            || (t.tier == Imports && ImportsTo(w, ctx, meta, ctx.bindings, t.node))
            || (t.tier == SamePackage && PackageTo(w, ctx, meta, t.node)
                && forall m :: !ImportsTo(w, ctx, meta, ctx.bindings, m))
  {
    var found := DirectImports(w, ctx, meta, MatchingBindings(ctx.bindings, meta));
    ImportsIff(w, ctx, meta, ctx.bindings, t.node);
    PackageIff(w, ctx, meta, t.node);
    forall m ensures found == Some(Target(m, Imports)) <==> ImportsTo(w, ctx, meta, ctx.bindings, m) {
      ImportsIff(w, ctx, meta, ctx.bindings, m);
    }
    if found.Some? { assert ImportsTo(w, ctx, meta, ctx.bindings, found.value.node); }
  }

  /** And through the memo tables, when every callable is permitted. */
  lemma ResolveIff(w: World, t: Tables, ctx: Context, meta: Meta, target: Target)
    requires Faithful(w, t) && AllPermitted(w)
    ensures Resolve(w, t, ctx, meta).0 == Some(target) <==>
            || (target.tier == Imports && ImportsTo(w, ctx, meta, ctx.bindings, target.node))
            || (target.tier == SamePackage && PackageTo(w, ctx, meta, target.node)
                && forall m :: !ImportsTo(w, ctx, meta, ctx.bindings, m))
  {
    ResolveIsDirect(w, t, ctx, meta);
    DirectResolveIff(w, ctx, meta, target);
  }

  // ---------------------------------------------------------------- calls and their files

  /** The text of a field that has one. */
  ghost predicate Reads(e: Edge, f: Field, text: string) {
    e.extra.Some? && f in e.extra.value && e.extra.value[f] == Text(text)
  }

  ghost predicate ReadsTo(e: Edge, f: Field, text: Option<string>) {
    if text.Some? then text.value != "" && Reads(e, f, text.value) else forall s :: s != "" ==> !Reads(e, f, s)
  }

  /** What an edge says of its call: a callee name, and receiver texts that are not empty. */
  lemma MetaIs(e: Edge, meta: Meta)
    ensures MetaOf(e) == Some(meta) <==>
            && Reads(e, CalleeName, meta.callee)
            && ReadsTo(e, ReceiverText, meta.receiverText) && ReadsTo(e, ReceiverType, meta.receiverType)
  {
    if e.extra.Some? {
      var extra := e.extra.value;
      FieldIs(e, ReceiverText, meta.receiverText);
      FieldIs(e, ReceiverType, meta.receiverType);
    }
  }

  lemma FieldIs(e: Edge, f: Field, text: Option<string>)
    requires e.extra.Some?
    ensures NonEmpty(TextOf(e.extra.value, f)) == text <==> ReadsTo(e, f, text)
  {
    var read := TextOf(e.extra.value, f);
    if read.Some? { assert Reads(e, f, read.value); }
  }

  /** Calls with a callee name are looked at unless they were resolved within their file. */
  lemma EligibleIff(e: Edge)
    ensures Eligible(e) <==> e.kind == Calls && e.tier != Some(SameFile) && exists s :: Reads(e, CalleeName, s)
  {
    if e.extra.Some? && TextOf(e.extra.value, CalleeName).Some? {
      assert Reads(e, CalleeName, TextOf(e.extra.value, CalleeName).value);
    }
  }

  /** The language of a file is that of its first file node, or of its first node if it has none. */
  ghost predicate IsLanguage(nodes: seq<Node>, language: string) {
    || (exists i :: 0 <= i < |nodes| && nodes[i].kind == FileNode && nodes[i].language == language
                    && forall j :: 0 <= j < i ==> nodes[j].kind != FileNode)
    || (nodes != [] && nodes[0].language == language && forall j :: 0 <= j < |nodes| ==> nodes[j].kind != FileNode)
  }

  lemma {:induction false} FirstFile(nodes: seq<Node>)
    ensures var files := Filter((n: Node) => n.kind == FileNode, nodes);
            if files == [] then forall j :: 0 <= j < |nodes| ==> nodes[j].kind != FileNode
            else exists i :: 0 <= i < |nodes| && nodes[i] == files[0] && nodes[i].kind == FileNode
                             && forall j :: 0 <= j < i ==> nodes[j].kind != FileNode
  {
    if nodes != [] && nodes[0].kind != FileNode {
      var rest := nodes[1..];
      FirstFile(rest);
      assert forall j :: 0 < j < |nodes| ==> nodes[j] == rest[j - 1];
      var files := Filter((n: Node) => n.kind == FileNode, rest);
      if files != [] {
        var i :| 0 <= i < |rest| && rest[i] == files[0] && rest[i].kind == FileNode
                 && forall j :: 0 <= j < i ==> rest[j].kind != FileNode;
        assert nodes[i + 1] == files[0];
      }
    } else if nodes != [] {
      assert nodes[0].kind == FileNode;
    }
  }

  lemma LanguageIs(nodes: seq<Node>)
    requires nodes != []
    ensures IsLanguage(nodes, LanguageOf(nodes)) && forall l :: IsLanguage(nodes, l) ==> l == LanguageOf(nodes)
  {
    FirstFile(nodes);
  }

  /** The bindings of a file are those of all its import nodes, in order. */
  lemma {:induction false} BindingsAppend(a: seq<Node>, b: seq<Node>)
    ensures BindingsOf(a + b) == BindingsOf(a) + BindingsOf(b)
  {
    if a == [] {
      assert a + b == b;
    } else {
      assert (a + b)[1..] == a[1..] + b;
      BindingsAppend(a[1..], b);
    }
  }

  lemma BindingsOfOne(n: Node)
    ensures BindingsOf([n]) == if n.kind.ImportNode? then n.kind.bindings else []
  {
    assert BindingsOf([n][1..]) == [];
  }

  /** A file is passed over exactly when it has no nodes or no language. */
  lemma ContextIs(w: World, path: Path)
    ensures ContextOf(w, path).None? <==> w.nodesOf(path) == [] || IsLanguage(w.nodesOf(path), "")
    ensures ContextOf(w, path).Some? ==>
              var ctx := ContextOf(w, path).value;
              && ctx.path == path && ctx.bindings == BindingsOf(w.nodesOf(path))
              && IsLanguage(w.nodesOf(path), ctx.language)
  {
    if w.nodesOf(path) != [] { LanguageIs(w.nodesOf(path)); }
  }

  // ---------------------------------------------------------------- what a target makes of an edge

  /** The other fields and data of an edge stay. */
  ghost predicate Keeps(e: Edge, e': Edge, written: set<Field>) {
    && e'.kind == e.kind && e'.source == e.source && e'.path == e.path && e'.line == e.line && e'.extra.Some?
    && forall f :: f !in written ==>
         && (f in e'.extra.value <==> e.extra.Some? && f in e.extra.value)
         && (f in e'.extra.value && e.extra.Some? && f in e.extra.value ==> e'.extra.value[f] == e.extra.value[f])
  }

  ghost predicate Wrote(e: Edge, f: Field, v: Value) {
    e.extra.Some? && f in e.extra.value && e.extra.value[f] == v
  }

  /** The edge names the target, how sure and how it was found, and the repositories at both ends. */
  ghost predicate IsResolved(w: World, e: Edge, t: Target, e': Edge) {
    && Keeps(e, e', {SourceRepo, TargetRepo, Reason, TierLabel})
    && e'.target == t.node.qualifiedName && e'.tier == Some(t.tier)
    && (t.tier == Imports ==> e'.confidence == 0.75) && (t.tier == SamePackage ==> e'.confidence == 0.65)
    && Wrote(e', SourceRepo, Text(w.repo)) && Wrote(e', TierLabel, TierText(t.tier))
    && (t.node.repo.None? || t.node.repo == Some(w.repo) ==>
          Wrote(e', TargetRepo, Text(w.repo)) && Wrote(e', Reason, Text("import")))
    && (t.node.repo.Some? && t.node.repo.value != w.repo ==>
          Wrote(e', TargetRepo, Text(t.node.repo.value)) && Wrote(e', Reason, Text("dependency")))
  }

  /** A binding that is not relative, and that the call may be about. */
  ghost predicate MayBeForeign(b: Binding, meta: Meta) {
    && !(b.source != "" && b.source[0] == '.')
    && (b.kind == Wildcard || b.local == meta.callee || meta.receiverText == Some(b.local))
  }

  /** The edge keeps its target and says that it may lead into one of several repositories. */
  ghost predicate IsMarked(w: World, e: Edge, e': Edge) {
    && Keeps(e, e', {SourceRepo, Reason, TierLabel, Unresolved, AllowedRepos})
    && e'.target == e.target && e'.tier == e.tier && e'.confidence == e.confidence
    && Wrote(e', SourceRepo, Text(w.repo)) && Wrote(e', Reason, Text("import"))
    && Wrote(e', TierLabel, Text("unresolved_cross_repo")) && Wrote(e', Unresolved, Flag(true))
    && Wrote(e', AllowedRepos, Names(w.allowed))
  }

  /** What an edge becomes and whether that makes the pass write its file. */
  lemma ApplyIs(w: World, ctx: Context, e: Edge, hit: Option<Target>)
    requires MetaOf(e).Some? && (hit.Some? ==> hit.value.tier == Imports || hit.value.tier == SamePackage)
    ensures var (e', changed) := Apply(w, ctx, e, hit);
            var meta := MetaOf(e).value;
            match hit
            case Some(t) =>
              if e.target == t.node.qualifiedName && e.tier == Some(t.tier) then e' == e && !changed
              else changed && IsResolved(w, e, t, e')
            case None =>
              && !changed
              && if |w.allowed| > 1 && exists b :: b in ctx.bindings && MayBeForeign(b, meta) then IsMarked(w, e, e')
                 else e' == e
  {
    match hit
    case Some(t) => AnnotationIs(w, e, t);
    case None =>
      assert forall b :: MayBeForeign(b, MetaOf(e).value) <==> External(b, MetaOf(e).value);
      MarkIs(w, ctx, e, MetaOf(e).value);
  }

  lemma AnnotationIs(w: World, e: Edge, t: Target)
    requires t.tier == Imports || t.tier == SamePackage
    ensures IsResolved(w, e, t, Annotate(w, e, t))
  {}

  lemma MarkIs(w: World, ctx: Context, e: Edge, meta: Meta)
    ensures var e' := MarkUnresolved(w, ctx, e, meta);
            if |w.allowed| > 1 && exists b :: b in ctx.bindings && External(b, meta) then IsMarked(w, e, e')
              else e' == e
  {}

  // ---------------------------------------------------------------- what a pass writes

  lemma {:induction false} ChangedEdgesDiffer(w: World, t: Tables, ctx: Context, edges: seq<Edge>)
    ensures EditEdges(w, t, ctx, edges).changed ==> EditEdges(w, t, ctx, edges).edges != edges
    decreases |edges|
  {
    if edges != [] {
      var first := EditEdge(w, t, ctx, edges[0]);
      ChangedEdgesDiffer(w, first.tables, ctx, edges[1..]);
      var r := EditEdges(w, t, ctx, edges);
      assert r.edges[1..] == EditEdges(w, first.tables, ctx, edges[1..]).edges;
      if first.changed { assert r.edges[0] != edges[0]; }
    }
  }

  /** A file is counted exactly when its row is written. */
  lemma CountsWritten(w: World, p: Pass, path: Path)
    ensures var p' := EditFile(w, p, path);
            var written := EdgesAt(p'.rows, (w.repo, path)) != EdgesAt(p.rows, (w.repo, path));
            p'.touched == p.touched + (if written then 1 else 0)
    ensures forall key :: key != (w.repo, path) ==> EdgesAt(EditFile(w, p, path).rows, key) == EdgesAt(p.rows, key)
  {
    if path !in p.seen && ContextOf(w, path).Some? {
      ChangedEdgesDiffer(w, p.tables, ContextOf(w, path).value, EdgesAt(p.rows, (w.repo, path)));
    }
  }
}
