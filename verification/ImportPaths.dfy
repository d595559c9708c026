/**
 Path and configuration helpers of import resolution (packages/atlas-engine/src/call_resolution.rs): lexical path
 normalization, alias patterns, and the walk along `extends` from one compiler configuration to the next.
 */
module ImportPaths {
  import opened Wrappers
  import opened Collections

  // ---------------------------------------------------------------- path text

  function Segments(s: string): (parts: seq<string>)
    ensures forall p :: p in parts ==> p != "" && '/' !in p
  {
    Filter(NotEmpty, Split('/', s))
  }

  predicate NotEmpty(p: string) {
    p != ""
  }

  predicate Rooted(s: string) {
    s != "" && s[0] == '/'
  }

  /** Appending to a path: a rooted addition replaces it, otherwise one slash separates the two. */
  function Join(a: string, b: string): string {
    if Rooted(b) then b
    else if a == "" || a[|a| - 1] == '/' then a + b
    else a + ['/'] + b
  }

  function LastSlash(s: string, n: nat): (i: Option<nat>)
    requires n <= |s|
    ensures i.Some? ==> i.value < n && s[i.value] == '/' && '/' !in s[i.value + 1..n]
    ensures i.None? ==> '/' !in s[..n]
  {
    if n == 0 then None else if s[n - 1] == '/' then Some(n - 1) else LastSlash(s, n - 1)
  }

  /** Dropping the last component; a root and the empty path have none to drop. */
  function Pop(s: string): string {
    if s == "" || s == "/" then s
    else match LastSlash(s, |s|)
      case None => ""
      case Some(i) => if i == 0 then "/" else s[..i]
  }

  // ---------------------------------------------------------------- normalization

  const DOT := "."
  const DOT_DOT := ".."

  /** The stack of parts after reading more components. */
  function Walk(stack: seq<string>, parts: seq<string>): seq<string>
    decreases |parts|
  {
    if parts == [] then stack
    else Walk(Enter(stack, parts[0]), parts[1..])
  }

  function Enter(stack: seq<string>, part: string): seq<string> {
    if part == DOT then stack
    else if part == DOT_DOT then (if stack == [] then [] else stack[..|stack| - 1])
    else stack + [part]
  }

  function Joined(parts: seq<string>): string {
    if parts == [] then ""
    else if |parts| == 1 then parts[0]
    else Joined(parts[..|parts| - 1]) + ['/'] + parts[|parts| - 1]
  }

  function Render(rooted: bool, parts: seq<string>): string {
    if rooted then ['/'] + Joined(parts) else Joined(parts)
  }

  /** The parts a path reduces to. */
  function Reduced(s: string): seq<string> {
    Walk([], Segments(s))
  }

  function Normalize(s: string): string {
    Render(Rooted(s), Reduced(s))
  }

  predicate Part(p: string) {
    p != "" && '/' !in p
  }

  ghost predicate Plain(parts: seq<string>) {
    forall p :: p in parts ==> Part(p) && p != DOT && p != DOT_DOT
  }

  lemma EnterKeepsPlain(stack: seq<string>, part: string)
    requires Plain(stack) && Part(part)
    ensures Plain(Enter(stack, part))
  {}

  lemma {:induction false} WalkIsPlain(stack: seq<string>, parts: seq<string>)
    requires Plain(stack) && forall p :: p in parts ==> Part(p)
    ensures Plain(Walk(stack, parts))
    decreases |parts|
  {
    if parts != [] {
      EnterKeepsPlain(stack, parts[0]);
      WalkIsPlain(Enter(stack, parts[0]), parts[1..]);
    }
  }

  lemma ReducedIsPlain(s: string)
    ensures Plain(Reduced(s))
  {
    WalkIsPlain([], Segments(s));
  }

  lemma {:induction false} WalkPlain(stack: seq<string>, parts: seq<string>)
    requires Plain(parts)
    ensures Walk(stack, parts) == stack + parts
    decreases |parts|
  {
    if parts != [] {
      assert parts[0] in parts;
      WalkPlain(stack + [parts[0]], parts[1..]);
      assert stack + parts == stack + [parts[0]] + parts[1..];
    } else {
      assert stack + parts == stack;
    }
  }

  lemma {:induction false} WalkOn(stack: seq<string>, a: seq<string>, b: seq<string>)
    ensures Walk(stack, a + b) == Walk(Walk(stack, a), b)
    decreases |a|
  {
    if a == [] {
      assert a + b == b;
    } else {
      assert (a + b)[1..] == a[1..] + b;
      WalkOn(Enter(stack, a[0]), a[1..], b);
    }
  }

  /** Splitting at any slash splits the parts. */
  lemma SegmentsSplit(a: string, b: string)
    ensures Segments(a + ['/'] + b) == Segments(a) + Segments(b)
  {
    SplitAt('/', a, b);
    FilterAppend(NotEmpty, Split('/', a), Split('/', b));
  }

  lemma SegmentsOfPart(p: string)
    requires Part(p)
    ensures Segments(p) == [p]
  {
    SplitPart('/', p);
    assert Filter(NotEmpty, [p][1..]) == [];
  }

  lemma SegmentsSnoc(s: string, p: string)
    requires Part(p)
    ensures Segments(s + ['/'] + p) == Segments(s) + [p]
  {
    SegmentsSplit(s, p);
    SegmentsOfPart(p);
  }

  lemma JoinedOne(p: string)
    ensures Joined([p]) == p
  {}

  lemma JoinedSnoc(init: seq<string>, last: string)
    requires init != []
    ensures Joined(init + [last]) == Joined(init) + ['/'] + last
  {
    assert (init + [last])[..|init|] == init;
  }

  lemma NoSegments()
    ensures Segments("") == []
  {
    assert Split('/', "") == [""];
  }

  lemma {:induction false} SegmentsOfJoined(parts: seq<string>)
    requires forall p :: p in parts ==> Part(p)
    ensures Segments(Joined(parts)) == parts
  {
    if parts == [] {
      NoSegments();
    } else {
      var init, last := parts[..|parts| - 1], parts[|parts| - 1];
      assert parts == init + [last] && last in parts;
      if init == [] {
        JoinedOne(last);
        SegmentsOfPart(last);
      } else {
        JoinedSnoc(init, last);
        SegmentsOfJoined(init);
        SegmentsSnoc(Joined(init), last);
      }
    }
  }

  lemma SegmentsOfRooted(s: string)
    ensures Segments(['/'] + s) == Segments(s)
  {
    assert [] + ['/'] + s == ['/'] + s;
    SegmentsSplit([], s);
    NoSegments();
    assert [] + Segments(s) == Segments(s);
  }

  lemma {:induction false} JoinedIsPlainText(parts: seq<string>)
    requires forall p :: p in parts ==> Part(p)
    ensures parts != [] ==> Joined(parts) != "" && Joined(parts)[0] != '/' && Joined(parts)[|Joined(parts)| - 1] != '/'
  {
    if |parts| == 1 {
      assert parts[0] in parts;
    } else if |parts| > 1 {
      JoinedIsPlainText(parts[..|parts| - 1]);
      assert parts[|parts| - 1] in parts;
    }
  }

  lemma RenderIsRead(rooted: bool, parts: seq<string>)
    requires forall p :: p in parts ==> Part(p)
    ensures Segments(Render(rooted, parts)) == parts && Rooted(Render(rooted, parts)) == rooted
  {
    SegmentsOfJoined(parts);
    JoinedIsPlainText(parts);
    if rooted { SegmentsOfRooted(Joined(parts)); }
  }

  /** The parts of a normalized path are those the walk leaves: no `.`, no `..`, nothing empty; the root is kept. */
  lemma NormalizedHasNoDots(s: string)
    ensures Segments(Normalize(s)) == Reduced(s) && Plain(Segments(Normalize(s))) && Rooted(Normalize(s)) == Rooted(s)
  {
    ReducedIsPlain(s);
    RenderIsRead(Rooted(s), Reduced(s));
  }

  /** A path is unchanged by normalization exactly when it is the plain rendering of plain parts. */
  lemma NormalizeFixesIff(s: string)
    ensures Normalize(s) == s <==> Plain(Segments(s)) && s == Render(Rooted(s), Segments(s))
  {
    NormalizedHasNoDots(s);
    if Plain(Segments(s)) {
      WalkPlain([], Segments(s));
      assert [] + Segments(s) == Segments(s);
    }
  }

  lemma NormalizeIsIdempotent(s: string)
    ensures Normalize(Normalize(s)) == Normalize(s)
  {
    NormalizedHasNoDots(s);
    NormalizeFixesIff(Normalize(s));
  }

  lemma TrailingSlash(a: string, b: string)
    requires a != "" && a[|a| - 1] == '/'
    ensures Segments(a + b) == Segments(a) + Segments(b)
  {
    var front := a[..|a| - 1];
    assert a == front + ['/'] + "";
    assert a + b == front + ['/'] + b;
    SegmentsSplit(front, "");
    SegmentsSplit(front, b);
    NoSegments();
    assert Segments(front) + [] == Segments(front);
  }

  lemma JoinParts(a: string, b: string)
    requires !Rooted(b)
    ensures Segments(Join(a, b)) == Segments(a) + Segments(b) && Rooted(Join(a, b)) == Rooted(a)
  {
    if a == "" {
      NoSegments();
      assert a + b == b && [] + Segments(b) == Segments(b);
    } else if a[|a| - 1] == '/' {
      TrailingSlash(a, b);
    } else {
      SegmentsSplit(a, b);
    }
  }

  /** Normalizing a join may be done prefix first. */
  lemma NormalizeIsCompositional(a: string, b: string)
    ensures Normalize(Join(a, b)) == Normalize(Join(Normalize(a), b))
  {
    if !Rooted(b) {
      NormalizedHasNoDots(a);
      JoinParts(a, b);
      JoinParts(Normalize(a), b);
      WalkOn([], Segments(a), Segments(b));
      WalkOn([], Reduced(a), Segments(b));
      WalkPlain([], Reduced(a));
      assert [] + Reduced(a) == Reduced(a);
    }
  }

  // ---------------------------------------------------------------- what normalization is

  predicate PlainPart(p: string) {
    Part(p) && p != DOT && p != DOT_DOT
  }

  lemma JoinPart(a: string, p: string)
    requires Part(p)
    ensures Rooted(Join(a, p)) == Rooted(a) && Reduced(Join(a, p)) == Enter(Reduced(a), p)
  {
    JoinParts(a, p);
    SegmentsOfPart(p);
    WalkOn([], Segments(a), [p]);
    assert Walk(Enter(Reduced(a), p), [p][1..]) == Enter(Reduced(a), p);
  }

  /** `..` undoes the part before it. */
  lemma ParentUndoesPart(a: string, p: string)
    requires PlainPart(p)
    ensures Normalize(Join(Join(a, p), DOT_DOT)) == Normalize(a)
  {
    JoinPart(a, p);
    JoinPart(Join(a, p), DOT_DOT);
    assert (Reduced(a) + [p])[..|Reduced(a)|] == Reduced(a);
  }

  /** A text whose last part can be taken off again: nothing, the root, or anything that does not end in a slash. */
  predicate Closed(m: string) {
    m == "" || m == "/" || m[|m| - 1] != '/'
  }

  lemma PopJoined(m: string, p: string)
    requires Part(p) && Closed(m)
    ensures Pop(Join(m, p)) == m
  {
    if m == "" {
      PopOnlyPart(p);
    } else if m == "/" {
      assert "/" + p == "" + ['/'] + p;
      PopPart("", p);
    } else {
      PopPart(m, p);
    }
  }

  /** `..` takes the last part off the normal form, and stays where there is none. */
  lemma ParentDropsLast(a: string, m: string, p: string)
    requires PlainPart(p) && Closed(m) && Normalize(a) == Join(m, p)
    ensures Normalize(Join(a, DOT_DOT)) == m
  {
    ParentIsPopped(a);
    PopJoined(m, p);
  }

  lemma ParentIsPopped(a: string)
    ensures Normalize(Join(a, DOT_DOT)) == Pop(Normalize(a))
  {
    JoinPart(a, DOT_DOT);
    ReducedIsPlain(a);
    PopRendered(Rooted(a), Reduced(a));
  }

  lemma ParentOfTop(a: string)
    requires Normalize(a) == "" || Normalize(a) == "/"
    ensures Normalize(Join(a, DOT_DOT)) == Normalize(a)
  {
    JoinPart(a, DOT_DOT);
    ReducedIsPlain(a);
    JoinedIsPlainText(Reduced(a));
  }

  /** A plain part is added to the normal form; `.` and a further slash add nothing. */
  lemma PartIsAdded(a: string, p: string)
    requires PlainPart(p)
    ensures Normalize(Join(a, p)) == Join(Normalize(a), p)
  {
    JoinPart(a, p);
    ReducedIsPlain(a);
    PushRendered(Rooted(a), Reduced(a), p);
  }

  lemma DotIsNeutral(a: string)
    ensures Normalize(Join(a, DOT)) == Normalize(a)
    ensures a != "" ==> Normalize(a + "/") == Normalize(a)
  {
    JoinPart(a, DOT);
    if a != "" {
      assert a + "/" == a + ['/'] + "";
      SegmentsSplit(a, "");
      NoSegments();
      assert Segments(a) + [] == Segments(a);
    }
  }

  /** The laws of lexical normalization, part by part. */
  ghost predicate Normalizes(f: string -> string) {
    && f("") == "" && f("/") == "/"
    && (forall a :: a != "" ==> f(a + "/") == f(a))
    && (forall a :: f(Join(a, DOT)) == f(a))
    && (forall a, p :: PlainPart(p) ==> f(Join(a, p)) == Join(f(a), p))
    && (forall a :: f(a) == "" || f(a) == "/" ==> f(Join(a, DOT_DOT)) == f(a))
    && (forall a, m, p :: PlainPart(p) && Closed(m) && f(a) == Join(m, p) ==> f(Join(a, DOT_DOT)) == m)
  }

  lemma NormalizeOfTop()
    ensures Normalize("") == "" && Normalize("/") == "/"
  {
    NoSegments();
    SegmentsOfRooted("");
    assert ['/'] + "" == "/";
  }

  lemma NormalizeObeysLaws()
    ensures Normalizes(Normalize)
  {
    NormalizeOfTop();
    forall a ensures Normalize(Join(a, DOT)) == Normalize(a) && (a != "" ==> Normalize(a + "/") == Normalize(a)) {
      DotIsNeutral(a);
    }
    forall a, p | PlainPart(p) ensures Normalize(Join(a, p)) == Join(Normalize(a), p) { PartIsAdded(a, p); }
    forall a | Normalize(a) == "" || Normalize(a) == "/" ensures Normalize(Join(a, DOT_DOT)) == Normalize(a) {
      ParentOfTop(a);
    }
    forall a, m, p | PlainPart(p) && Closed(m) && Normalize(a) == Join(m, p) ensures Normalize(Join(a, DOT_DOT)) == m {
      ParentDropsLast(a, m, p);
    }
  }

  /** The last part of a text that does not end in a slash, and what stands before it. */
  lemma LastPart(s: string) returns (a: string, p: string)
    requires s != "" && s[|s| - 1] != '/'
    ensures |a| < |s| && Part(p) && s == Join(a, p)
  {
    match LastSlash(s, |s|)
    case None =>
      a, p := "", s;
      assert s[..|s|] == s;
    case Some(i) => a, p := s[..i + 1], s[i + 1..];
  }

  lemma RenderIsClosed(rooted: bool, parts: seq<string>)
    requires Plain(parts)
    ensures Closed(Render(rooted, parts))
  {
    JoinedIsPlainText(parts);
  }

  lemma NormalFormSplits(a: string) returns (m: string, p: string)
    requires Normalize(a) != "" && Normalize(a) != "/"
    ensures PlainPart(p) && Closed(m) && Normalize(a) == Join(m, p)
  {
    ReducedIsPlain(a);
    m, p := RenderSplits(Rooted(a), Reduced(a));
  }

  lemma RenderSplits(rooted: bool, stack: seq<string>) returns (m: string, p: string)
    requires Plain(stack) && stack != []
    ensures PlainPart(p) && Closed(m) && Render(rooted, stack) == Join(m, p)
  {
    var init := stack[..|stack| - 1];
    p := stack[|stack| - 1];
    assert p in stack && stack == init + [p];
    m := Render(rooted, init);
    RenderIsClosed(rooted, init);
    PushRendered(rooted, init, p);
  }

  /** And nothing else obeys them: the laws fix the normal form of every text. */
  lemma {:induction false} OnlyNormalizeObeysLaws(f: string -> string, s: string)
    requires Normalizes(f)
    ensures f(s) == Normalize(s)
    decreases |s|
  {
    if s == "" || s == "/" {
      NormalizeOfTop();
    } else if s[|s| - 1] == '/' {
      var a := s[..|s| - 1];
      assert s == a + "/";
      OnlyNormalizeObeysLaws(f, a);
      DotIsNeutral(a);
    } else {
      var a, p := LastPart(s);
      OnlyNormalizeObeysLaws(f, a);
      SameAfterPart(f, a, p);
    }
  }

  lemma SameAfterPart(f: string -> string, a: string, p: string)
    requires Normalizes(f) && Part(p) && f(a) == Normalize(a)
    ensures f(Join(a, p)) == Normalize(Join(a, p))
  {
    if p == DOT {
      DotIsNeutral(a);
    } else if p != DOT_DOT {
      PartIsAdded(a, p);
    } else if f(a) == "" || f(a) == "/" {
      ParentOfTop(a);
    } else {
      var m, q := NormalFormSplits(a);
      ParentDropsLast(a, m, q);
    }
  }

  lemma PushRendered(rooted: bool, stack: seq<string>, part: string)
    requires Plain(stack) && Part(part)
    ensures Join(Render(rooted, stack), part) == Render(rooted, stack + [part])
  {
    JoinedIsPlainText(stack);
    assert (stack + [part])[..|stack|] == stack;
  }

  lemma {:induction false} LastSlashUnique(front: string, last: string, n: nat)
    requires '/' !in last && |front| < n <= |front| + 1 + |last|
    ensures LastSlash(front + ['/'] + last, n) == Some(|front|)
    decreases n
  {
    if n > |front| + 1 {
      assert (front + ['/'] + last)[n - 1] == last[n - |front| - 2];
      LastSlashUnique(front, last, n - 1);
    }
  }

  lemma PopPart(front: string, last: string)
    requires Part(last)
    ensures Pop(front + ['/'] + last) == if front == "" then "/" else front
  {
    LastSlashUnique(front, last, |front| + 1 + |last|);
  }

  lemma PopOnlyPart(last: string)
    requires Part(last)
    ensures Pop(last) == ""
  {
    assert last[..|last|] == last;
  }

  lemma PopOne(rooted: bool, last: string)
    requires Part(last)
    ensures Pop(Render(rooted, [last])) == Render(rooted, [])
  {
    JoinedOne(last);
    PopOnlyPart(last);
    PopPart("", last);
    assert "" + ['/'] + last == ['/'] + last;
  }

  lemma PopMore(rooted: bool, init: seq<string>, last: string)
    requires Plain(init) && init != [] && Part(last)
    ensures Pop(Render(rooted, init + [last])) == Render(rooted, init)
  {
    JoinedIsPlainText(init);
    JoinedSnoc(init, last);
    var front := Render(rooted, init);
    assert Render(rooted, init + [last]) == front + ['/'] + last;
    PopPart(front, last);
  }

  lemma PopRendered(rooted: bool, stack: seq<string>)
    requires Plain(stack)
    ensures Pop(Render(rooted, stack)) == Render(rooted, if stack == [] then [] else stack[..|stack| - 1])
  {
    if stack != [] {
      var init, last := stack[..|stack| - 1], stack[|stack| - 1];
      assert last in stack && stack == init + [last];
      if init == [] { PopOne(rooted, last); assert stack == [last]; } else { PopMore(rooted, init, last); }
    }
  }

  /** Components are pushed and popped on a path text, as the source does. */
  method NormalizeRelativePath(path: string) returns (normalized: string)
    ensures normalized == Normalize(path)
  {
    var parts := Segments(path);
    normalized := if Rooted(path) then "/" else "";
    ghost var stack: seq<string> := [];
    for i := 0 to |parts|
      invariant Plain(stack) && normalized == Render(Rooted(path), stack)
      invariant Walk(stack, parts[i..]) == Reduced(path)
    {
      DropCons(parts, i);
      assert parts[i] in parts;
      EnterKeepsPlain(stack, parts[i]);
      if parts[i] == DOT {
      } else if parts[i] == DOT_DOT {
        PopRendered(Rooted(path), stack);
        normalized := Pop(normalized);
      } else {
        PushRendered(Rooted(path), stack, parts[i]);
        normalized := Join(normalized, parts[i]);
      }
      stack := Enter(stack, parts[i]);
    }
  }

  // ---------------------------------------------------------------- alias patterns

  predicate HasStar(s: string) {
    FirstOf(s, '*') < |s|
  }

  function BeforeStar(s: string): string {
    s[..FirstOf(s, '*')]
  }

  function AfterStar(s: string): string
    requires HasStar(s)
  {
    s[FirstOf(s, '*') + 1..]
  }

  predicate StartsWith(s: string, p: string) {
    |p| <= |s| && s[..|p|] == p
  }

  predicate EndsWith(s: string, p: string) {
    |p| <= |s| && s[|s| - |p|..] == p
  }

  function MatchAliasPattern(pattern: string, source: string): Option<string> {
    if HasStar(pattern) then
      var prefix, suffix := BeforeStar(pattern), AfterStar(pattern);
      if StartsWith(source, prefix) && EndsWith(source, suffix) && |source| >= |prefix| + |suffix|
      then Some(source[|prefix|..|source| - |suffix|])
      else None
    else if pattern == source then Some("") else None
  }

  function ApplyAliasTarget(target: string, wildcard: string): string {
    if HasStar(target) then BeforeStar(target) + wildcard + AfterStar(target) else target
  }

  /**
   Matching inverts substitution: a source matches with a text exactly when the pattern filled with it is the source.
   */
  lemma MatchInvertsApply(pattern: string, source: string, wildcard: string)
    ensures MatchAliasPattern(pattern, source) == Some(wildcard)
            <==> ApplyAliasTarget(pattern, wildcard) == source && (HasStar(pattern) || wildcard == "")
  {
    if HasStar(pattern) {
      var prefix, suffix := BeforeStar(pattern), AfterStar(pattern);
      var filled := prefix + wildcard + suffix;
      assert filled[..|prefix|] == prefix;
      assert filled[|filled| - |suffix|..] == suffix;
      assert filled[|prefix|..|filled| - |suffix|] == wildcard;
      if MatchAliasPattern(pattern, source) == Some(wildcard) {
        assert source == source[..|prefix|] + source[|prefix|..|source| - |suffix|] + source[|source| - |suffix|..];
      }
    }
  }

  /** Filling puts the text where the first star stands, and leaves a pattern without a star alone. */
  lemma FillingReplacesFirstStar(before: string, after: string, wildcard: string)
    requires '*' !in before
    ensures ApplyAliasTarget(before + ['*'] + after, wildcard) == before + wildcard + after
    ensures ApplyAliasTarget(before, wildcard) == before
  {
    var pattern := before + ['*'] + after;
    assert pattern[|before|] == '*';
    assert forall i :: 0 <= i < |before| ==> pattern[i] == before[i] && before[i] != '*';
  }

  // ---------------------------------------------------------------- configuration inheritance

  type Alias = (string, seq<string>)

  /** A readable configuration file: what it extends and the alias paths of its own, unusable entries dropped. */
  datatype Config = Config(extending: Option<string>, paths: seq<Alias>)

  /** `files` are the readable, well-formed files by normalized path; `resolve` finds what `extends` names. */
  datatype Tree = Tree(files: map<string, Config>, resolve: (string, string) -> Option<string>)

  /**
   A readable configuration by where it inherits from: a normalized path, if `extends` names one that can be located.
   */
  datatype Link = Link(parent: Option<string>, paths: seq<Alias>)

  type Links = map<string, Link>

  function Parent(t: Tree, path: string): Option<string>
    requires path in t.files
  {
    match t.files[path].extending
    case None => None
    case Some(name) => match t.resolve(path, name)
                       case None => None
                       case Some(p) => Some(Normalize(p))
  }

  function LinksOf(t: Tree): Links {
    map path | path in t.files :: Link(Parent(t, path), t.files[path].paths)
  }

  /** Result and visited set of the recursive walk; every path it visits is read once. */
  function Parse(t: Links, path: string, visited: set<string>): (Option<seq<Alias>>, set<string>)
    decreases t.Keys - visited
  {
    if path in visited then (None, visited)
    else
      var visited1 := visited + {path};
      if path !in t then (None, visited1)
      else
        var (inherited, visited2) :=
          match t[path].parent case None => (None, visited1) case Some(parent) => Parse(t, parent, visited1);
        var own := t[path].paths;
        var paths := if own != [] then own else match inherited case Some(p) => p case None => [];
        (if paths != [] then Some(paths) else None, visited2)
  }

  /** Configurations read from `path` on, in order. */
  function ReadFrom(t: Links, path: string, visited: set<string>): (chain: seq<string>)
    ensures forall p :: p in chain ==> p in t && p !in visited
    decreases t.Keys - visited
  {
    if path in visited || path !in t then []
    else match t[path].parent
      case None => [path]
      case Some(parent) => [path] + ReadFrom(t, parent, visited + {path})
  }

  function FirstWithPaths(t: Links, chain: seq<string>): (r: Option<seq<Alias>>)
    requires forall p :: p in chain ==> p in t
  {
    if chain == [] then None
    else if t[chain[0]].paths != [] then Some(t[chain[0]].paths)
    else FirstWithPaths(t, chain[1..])
  }

  lemma {:induction false} ParseIsFirstRead(t: Links, path: string, visited: set<string>)
    ensures Parse(t, path, visited).0 == FirstWithPaths(t, ReadFrom(t, path, visited))
    ensures forall p :: p in ReadFrom(t, path, visited) ==> p in Parse(t, path, visited).1
    ensures visited <= Parse(t, path, visited).1
    decreases t.Keys - visited
  {
    if path !in visited && path in t {
      var parent := t[path].parent;
      if parent.Some? {
        ParseIsFirstRead(t, parent.value, visited + {path});
        assert ReadFrom(t, path, visited)[1..] == ReadFrom(t, parent.value, visited + {path});
      } else {
        assert ReadFrom(t, path, visited)[1..] == [];
      }
    }
  }

  /** The walk as the source writes it, with a shared visited set. */
  method ParseTsConfig(t: Tree, path: string, visited: set<string>)
      returns (config: Option<seq<Alias>>, visited': set<string>)
    ensures (config, visited') == Parse(LinksOf(t), Normalize(path), visited)
    decreases t.files.Keys - visited
  {
    var normalized := NormalizeRelativePath(path);
    if normalized in visited {
      return None, visited;
    }
    visited' := visited + {normalized};
    if normalized !in t.files {
      return None, visited';
    }
    var own := t.files[normalized];
    var paths: seq<Alias> := [];
    if own.extending.Some? {
      var parent := t.resolve(normalized, own.extending.value);
      if parent.Some? {
        var inherited;
        inherited, visited' := ParseTsConfig(t, parent.value, visited');
        if inherited.Some? {
          paths := inherited.value;
        }
      }
    }
    if own.paths != [] {
      paths := own.paths;
    }
    config := if paths != [] then Some(paths) else None;
  }

  // ---------------------------------------------------------------- the unbounded chain

  /** The k-th configuration along `extends`, with no cut on cycles. */
  function Nth(t: Links, path: string, k: nat): (nth: Option<string>)
    ensures nth.Some? ==> nth.value in t
    decreases k
  {
    if path !in t then None
    else if k == 0 then Some(path)
    else match t[path].parent case None => None case Some(parent) => Nth(t, parent, k - 1)
  }

  /** The k-th configuration is the first with alias paths. */
  ghost predicate FirstAt(t: Links, path: string, k: nat, paths: seq<Alias>) {
    && Nth(t, path, k).Some? && HasPaths(t, Nth(t, path, k).value, paths) && paths != []
    && forall i: nat :: i < k && Nth(t, path, i).Some? ==> HasPaths(t, Nth(t, path, i).value, [])
  }

  predicate HasPaths(t: Links, path: string, paths: seq<Alias>) {
    path in t && t[path].paths == paths
  }

  lemma ReadStep(t: Links, path: string, visited: set<string>)
    requires |ReadFrom(t, path, visited)| > 1
    ensures path in t && t[path].parent.Some?
    ensures ReadFrom(t, path, visited) == [path] + ReadFrom(t, t[path].parent.value, visited + {path})
  {}

  lemma {:induction false} ReadsFollowChain(t: Links, path: string, visited: set<string>, i: nat)
    requires i < |ReadFrom(t, path, visited)|
    ensures Nth(t, path, i) == Some(ReadFrom(t, path, visited)[i])
    decreases i
  {
    if i > 0 {
      ReadStep(t, path, visited);
      ReadsFollowChain(t, t[path].parent.value, visited + {path}, i - 1);
    }
  }

  /** What the read files do not reach is unreadable or was visited before. */
  lemma {:induction false} ReadsAreClosed(t: Links, path: string, visited: set<string>, i: nat)
    requires i < |ReadFrom(t, path, visited)|
    ensures var chain := ReadFrom(t, path, visited);
            var parent := t[chain[i]].parent;
            parent.None? || parent.value !in t || parent.value in visited || parent.value in chain
    decreases i
  {
    var chain := ReadFrom(t, path, visited);
    var parent := t[path].parent;
    if parent.Some? {
      var rest := ReadFrom(t, parent.value, visited + {path});
      assert chain == [path] + rest;
      if i > 0 {
        ReadsAreClosed(t, parent.value, visited + {path}, i - 1);
      } else if parent.value !in visited && parent.value in t && parent.value != path {
        assert rest[0] == parent.value;
      }
    }
  }

  lemma {:induction false} NthStep(t: Links, path: string, k: nat)
    requires Nth(t, path, k + 1).Some?
    ensures Nth(t, path, k).Some? && t[Nth(t, path, k).value].parent == Nth(t, path, k + 1)
    decreases k
  {
    if k > 0 { NthStep(t, t[path].parent.value, k - 1); }
  }

  /** The cut on cycles loses nothing: every configuration along the chain is read. */
  lemma {:induction false} ChainIsRead(t: Links, path: string, k: nat)
    requires Nth(t, path, k).Some?
    ensures Nth(t, path, k).value in ReadFrom(t, path, {})
    decreases k
  {
    var chain := ReadFrom(t, path, {});
    if k == 0 {
      assert chain[0] == path;
    } else {
      NthStep(t, path, k - 1);
      ChainIsRead(t, path, k - 1);
      var i :| 0 <= i < |chain| && chain[i] == Nth(t, path, k - 1).value;
      ReadsAreClosed(t, path, {}, i);
    }
  }

  lemma {:induction false} FirstWithPathsAt(t: Links, chain: seq<string>) returns (j: nat)
    requires forall p :: p in chain ==> p in t
    ensures j <= |chain|
    ensures forall i :: 0 <= i < j ==> t[chain[i]].paths == []
    ensures FirstWithPaths(t, chain) == if j < |chain| then Some(t[chain[j]].paths) else None
    ensures j < |chain| ==> t[chain[j]].paths != []
  {
    if chain == [] || t[chain[0]].paths != [] {
      j := 0;
    } else {
      j := FirstWithPathsAt(t, chain[1..]);
      j := j + 1;
    }
  }

  lemma AnswerIsFirst(t: Links, path: string, paths: seq<Alias>)
    requires Parse(t, path, {}).0 == Some(paths)
    ensures exists k: nat :: FirstAt(t, path, k, paths)
  {
    var chain := ReadFrom(t, path, {});
    ParseIsFirstRead(t, path, {});
    var j := FirstWithPathsAt(t, chain);
    forall i: nat | i < |chain| ensures Nth(t, path, i) == Some(chain[i]) { ReadsFollowChain(t, path, {}, i); }
    assert FirstAt(t, path, j, paths);
  }

  lemma FirstIsAnswer(t: Links, path: string, k: nat, paths: seq<Alias>)
    requires FirstAt(t, path, k, paths)
    ensures Parse(t, path, {}).0 == Some(paths)
  {
    var chain := ReadFrom(t, path, {});
    ParseIsFirstRead(t, path, {});
    var j := FirstWithPathsAt(t, chain);
    ChainIsRead(t, path, k);
    var m: nat :| m < |chain| && chain[m] == Nth(t, path, k).value;
    assert j <= m;
    ReadsFollowChain(t, path, {}, j);
    if k < |chain| { ReadsFollowChain(t, path, {}, k); }
    assert j == k;
  }

  /**
   Inheritance is right on every graph of `extends`, cyclic or not: the walk answers with the alias paths of the first
   configuration along the unbounded chain that has any, and with nothing when none has.
   */
  lemma InheritanceIsFirstOnChain(t: Links, path: string, paths: seq<Alias>)
    ensures Parse(t, path, {}).0 == Some(paths) <==> exists k: nat :: FirstAt(t, path, k, paths)
  {
    if Parse(t, path, {}).0 == Some(paths) { AnswerIsFirst(t, path, paths); }
    if k: nat :| FirstAt(t, path, k, paths) { FirstIsAnswer(t, path, k, paths); }
  }

  /** Some configuration read from `path` on extends this one. */
  ghost predicate IsExtended(t: Links, chain: seq<string>, p: string) {
    exists q :: q in chain && q in t && t[q].parent == Some(p)
  }

  /** Visited are those visited before, the start, and all that what was read extends, readable or not. */
  lemma {:induction false} VisitedAre(t: Links, path: string, visited: set<string>, p: string)
    ensures p in Parse(t, path, visited).1 <==>
            p in visited || p == path || IsExtended(t, ReadFrom(t, path, visited), p)
    decreases t.Keys - visited
  {
    var chain := ReadFrom(t, path, visited);
    if path !in visited && path in t {
      var parent := t[path].parent;
      if parent.Some? {
        var rest := ReadFrom(t, parent.value, visited + {path});
        VisitedAre(t, parent.value, visited + {path}, p);
        assert chain == [path] + rest;
        assert forall q :: q in chain <==> q == path || q in rest;
        if IsExtended(t, rest, p) { assert IsExtended(t, chain, p); }
        if p == parent.value { assert path in chain && t[path].parent == Some(p); }
      } else {
        assert chain == [path];
      }
    }
  }

  lemma {:induction false} ReadsAreDistinct(t: Links, path: string, visited: set<string>)
    ensures NoDuplicates(ReadFrom(t, path, visited))
    decreases t.Keys - visited
  {
    if path !in visited && path in t && t[path].parent.Some? {
      ReadsAreDistinct(t, t[path].parent.value, visited + {path});
      assert path !in ReadFrom(t, t[path].parent.value, visited + {path});
    }
  }

  /** Each file is read at most once, and no more files than exist. */
  lemma EachFileIsReadOnce(t: Links, path: string)
    ensures NoDuplicates(ReadFrom(t, path, {})) && |ReadFrom(t, path, {})| <= |t|
  {
    var chain := ReadFrom(t, path, {});
    ReadsAreDistinct(t, path, {});
    DistinctWithin(chain, t.Keys);
  }

  lemma {:induction false} DistinctWithin(xs: seq<string>, s: set<string>)
    requires NoDuplicates(xs) && forall x :: x in xs ==> x in s
    ensures |xs| <= |s|
  {
    if xs != [] {
      assert xs[0] in xs && xs[0] !in xs[1..];
      DistinctWithin(xs[1..], s - {xs[0]});
    }
  }
}
