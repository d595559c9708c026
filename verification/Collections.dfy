/** Facts about sequences, maps, strict orders, sorted listings and the lexicographic order on text. */
module Collections {

  function ToSet<T(!new)>(xs: seq<T>): (s: set<T>)
    ensures forall x :: x in s <==> x in xs
  {
    set x | x in xs
  }

  ghost predicate NoDuplicates<T>(xs: seq<T>) {
    forall i, j :: 0 <= i < j < |xs| ==> xs[i] != xs[j]
  }

  function Min(a: nat, b: nat): nat {
    if a < b then a else b
  }

  lemma TakeSnoc<T>(s: seq<T>, i: nat)
    requires i < |s|
    ensures s[..i + 1] == s[..i] + [s[i]]
  {}

  lemma DropCons<T>(s: seq<T>, i: nat)
    requires i < |s|
    ensures s[i..] == [s[i]] + s[i + 1..] && s[i..][1..] == s[i + 1..]
  {}

  /** The elements satisfying `p`, in order. */
  function Filter<T(!new)>(p: T -> bool, xs: seq<T>): (ys: seq<T>)
    ensures forall x :: x in ys <==> x in xs && p(x)
  {
    if xs == [] then [] else (if p(xs[0]) then [xs[0]] else []) + Filter(p, xs[1..])
  }

  lemma {:induction false} FilterAll<T(!new)>(p: T -> bool, xs: seq<T>)
    requires forall x :: x in xs ==> p(x)
    ensures Filter(p, xs) == xs
  {
    if xs != [] {
      assert xs == [xs[0]] + xs[1..] && xs[0] in xs;
      FilterAll(p, xs[1..]);
    }
  }

  lemma {:induction false} FilterNone<T(!new)>(p: T -> bool, xs: seq<T>)
    requires forall x :: !p(x)
    ensures Filter(p, xs) == []
  {
    if xs != [] { FilterNone(p, xs[1..]); }
  }

  lemma {:induction false} SameFilter<T(!new)>(p: T -> bool, q: T -> bool, xs: seq<T>)
    requires forall x :: p(x) == q(x)
    ensures Filter(p, xs) == Filter(q, xs)
  {
    if xs != [] { SameFilter(p, q, xs[1..]); }
  }

  lemma {:induction false} FilterAppend<T(!new)>(p: T -> bool, xs: seq<T>, ys: seq<T>)
    ensures Filter(p, xs + ys) == Filter(p, xs) + Filter(p, ys)
  {
    if xs == [] {
      assert xs + ys == ys;
    } else {
      assert (xs + ys)[1..] == xs[1..] + ys;
      FilterAppend(p, xs[1..], ys);
    }
  }

  lemma FilterOne<T(!new)>(p: T -> bool, x: T)
    ensures Filter(p, [x]) == if p(x) then [x] else []
  {
    assert Filter(p, [x][1..]) == [];
  }

  lemma FilterSnoc<T(!new)>(p: T -> bool, xs: seq<T>, i: nat)
    requires i < |xs|
    ensures Filter(p, xs[..i + 1]) == if p(xs[i]) then Filter(p, xs[..i]) + [xs[i]] else Filter(p, xs[..i])
  {
    TakeSnoc(xs, i);
    FilterAppend(p, xs[..i], [xs[i]]);
    FilterOne(p, xs[i]);
  }

  lemma {:induction false} FilterBoth<T(!new)>(p: T -> bool, q: T -> bool, both: T -> bool, xs: seq<T>)
    requires forall x :: both(x) == (p(x) && q(x))
    ensures Filter(p, Filter(q, xs)) == Filter(both, xs)
  {
    if xs != [] {
      FilterBoth(p, q, both, xs[1..]);
      FilterAppend(p, if q(xs[0]) then [xs[0]] else [], Filter(q, xs[1..]));
      FilterOne(p, xs[0]);
    }
  }

  lemma {:induction false} FilterIsShort<T(!new)>(p: T -> bool, xs: seq<T>)
    ensures |Filter(p, xs)| <= |xs|
  {
    if xs != [] { FilterIsShort(p, xs[1..]); }
  }

  /** A filter keeps every occurrence of what it keeps. */
  lemma {:induction false} FilterCounts<T(!new)>(p: T -> bool, xs: seq<T>, x: T)
    ensures multiset(Filter(p, xs))[x] == if p(x) then multiset(xs)[x] else 0
  {
    if xs != [] {
      assert xs == [xs[0]] + xs[1..];
      FilterCounts(p, xs[1..], x);
    }
  }

  lemma MapPlusAssoc<K, V>(a: map<K, V>, b: map<K, V>, c: map<K, V>)
    ensures (a + b) + c == a + (b + c)
  {}

  lemma MapPlusUpdate<K, V>(a: map<K, V>, b: map<K, V>, k: K, v: V)
    ensures (a + b)[k := v] == a + b[k := v]
  {}

  ghost predicate StrictTotal<T(!new)>(less: (T, T) -> bool) {
    && (forall x :: !less(x, x))
    && (forall x, y, z :: less(x, y) && less(y, z) ==> less(x, z))
    && (forall x, y :: less(x, y) || x == y || less(y, x))
  }

  ghost predicate StrictlySorted<T(!new)>(less: (T, T) -> bool, xs: seq<T>) {
    forall i, j :: 0 <= i < j < |xs| ==> less(xs[i], xs[j])
  }

  /** Text order by code point, which is byte order of the UTF-8 encoding. */
  predicate LexLess(a: string, b: string) {
    b != "" && (a == "" || a[0] < b[0] || (a[0] == b[0] && LexLess(a[1..], b[1..])))
  }

  predicate LexAtMost(a: string, b: string) {
    !LexLess(b, a)
  }

  lemma {:induction false} LexTrichotomy(a: string, b: string)
    ensures !LexLess(a, a)
    ensures LexLess(a, b) || a == b || LexLess(b, a)
  {
    if a != "" {
      if b != "" && a[0] == b[0] {
        LexTrichotomy(a[1..], b[1..]);
        assert a == [a[0]] + a[1..] && b == [b[0]] + b[1..];
      } else {
        LexTrichotomy(a[1..], "");
      }
    }
  }

  lemma {:induction false} LexTransitive(a: string, b: string, c: string)
    requires LexLess(a, b) && LexLess(b, c)
    ensures LexLess(a, c)
  {
    if a != "" && a[0] == b[0] && b[0] == c[0] {
      LexTransitive(a[1..], b[1..], c[1..]);
    }
  }

  lemma LexAsymmetric(a: string, b: string)
    requires LexLess(a, b)
    ensures !LexLess(b, a)
  {
    if LexLess(b, a) {
      LexTransitive(a, b, a);
      LexTrichotomy(a, a);
    }
  }

  lemma LexIsStrictTotal()
    ensures StrictTotal(LexLess)
  {
    forall x, y, z ensures LexLess(x, y) && LexLess(y, z) ==> LexLess(x, z) {
      if LexLess(x, y) && LexLess(y, z) { LexTransitive(x, y, z); }
    }
    forall x, y ensures !LexLess(x, x) && (LexLess(x, y) || x == y || LexLess(y, x)) {
      LexTrichotomy(x, y);
    }
  }

  lemma LexPrepend(c: char, a: string, b: string)
    requires LexLess(a, b)
    ensures LexLess([c] + a, [c] + b)
  {
    assert ([c] + a)[1..] == a && ([c] + b)[1..] == b;
  }

  /** A common prefix does not matter to the order. */
  lemma {:induction false} LexCommonPrefix(p: string, a: string, b: string)
    requires LexLess(a, b)
    ensures LexLess(p + a, p + b)
  {
    if p == "" {
      assert p + a == a && p + b == b;
    } else {
      var init, c := p[..|p| - 1], p[|p| - 1];
      assert p + a == init + ([c] + a) && p + b == init + ([c] + b);
      LexPrepend(c, a, b);
      LexCommonPrefix(init, [c] + a, [c] + b);
    }
  }

  /** Between equally long texts the first difference decides, whatever follows. */
  lemma {:induction false} LexDecided(a: string, b: string, x: string, y: string)
    requires |a| == |b| && LexLess(a, b)
    ensures LexLess(a + x, b + y)
  {
    assert (a + x)[0] == a[0] && (b + y)[0] == b[0];
    if a[0] == b[0] {
      LexDecided(a[1..], b[1..], x, y);
      assert (a + x)[1..] == a[1..] + x;
      assert (b + y)[1..] == b[1..] + y;
    }
  }

  /** First position of `c` at or after `i`, or the length. */
  function FirstOf(s: string, c: char, i: nat := 0): (k: nat)
    requires i <= |s|
    ensures i <= k <= |s| && c !in s[i..k]
    ensures k < |s| ==> s[k] == c
    decreases |s| - i
  {
    if i == |s| || s[i] == c then i else FirstOf(s, c, i + 1)
  }

  /** The texts between separators. */
  function Split(sep: char, s: string): (parts: seq<string>)
    ensures parts != [] && forall p :: p in parts ==> sep !in p
  {
    if s == "" then [""] else Extend(sep, Split(sep, s[..|s| - 1]), s[|s| - 1])
  }

  function Extend(sep: char, parts: seq<string>, c: char): seq<string>
    requires parts != []
  {
    if c == sep then parts + [""] else parts[..|parts| - 1] + [parts[|parts| - 1] + [c]]
  }

  lemma SplitSnoc(sep: char, s: string, c: char)
    ensures Split(sep, s + [c]) == Extend(sep, Split(sep, s), c)
  {
    assert (s + [c])[..|s|] == s;
  }

  lemma ExtendAppend(sep: char, xs: seq<string>, ys: seq<string>, c: char)
    requires ys != []
    ensures Extend(sep, xs + ys, c) == xs + Extend(sep, ys, c)
  {}

  /** Splitting at any separator splits the parts. */
  lemma {:induction false} SplitAt(sep: char, a: string, b: string)
    ensures Split(sep, a + [sep] + b) == Split(sep, a) + Split(sep, b)
    decreases |b|
  {
    if b == "" {
      SplitSnoc(sep, a, sep);
      assert a + [sep] + b == a + [sep];
    } else {
      var front, c := b[..|b| - 1], b[|b| - 1];
      SplitAt(sep, a, front);
      assert b == front + [c] && a + [sep] + b == (a + [sep] + front) + [c];
      SplitSnoc(sep, a + [sep] + front, c);
      SplitSnoc(sep, front, c);
      ExtendAppend(sep, Split(sep, a), Split(sep, front), c);
    }
  }

  lemma {:induction false} SplitPart(sep: char, p: string)
    requires sep !in p
    ensures Split(sep, p) == [p]
  {
    if p != "" {
      SplitPart(sep, p[..|p| - 1]);
      assert p == p[..|p| - 1] + [p[|p| - 1]];
    }
  }

  function Digit(n: int): char
    requires 0 <= n < 10
  {
    ('0' as int + n) as char
  }

  function Decimal(n: nat): string {
    if n < 10 then [Digit(n)] else Decimal(n / 10) + [Digit(n % 10)]
  }

  /** The number a text of digits stands for. */
  function Number(s: string): int {
    if s == "" then 0 else 10 * Number(s[..|s| - 1]) + (s[|s| - 1] as int - '0' as int)
  }

  ghost predicate IsDigits(s: string) {
    forall i :: 0 <= i < |s| ==> '0' <= s[i] <= '9'
  }

  lemma {:induction false} DecimalIsRead(n: nat)
    ensures Decimal(n) != "" && IsDigits(Decimal(n)) && Number(Decimal(n)) == n
  {
    if n < 10 {
      assert Number([Digit(n)][..0]) == 0;
    } else {
      DecimalIsRead(n / 10);
      assert Decimal(n)[..|Decimal(n)| - 1] == Decimal(n / 10);
    }
  }

  // ---------------------------------------------------------------- sorted, duplicate-free listings

  /** Sort and drop duplicates, by insertion. */
  function SortDistinct<T(==)>(less: (T, T) -> bool, xs: seq<T>): seq<T> {
    if xs == [] then [] else InsertDistinct(less, xs[0], SortDistinct(less, xs[1..]))
  }

  function InsertDistinct<T(==)>(less: (T, T) -> bool, x: T, xs: seq<T>): seq<T> {
    if xs == [] then [x]
    else if x == xs[0] then xs
    else if less(x, xs[0]) then [x] + xs
    else [xs[0]] + InsertDistinct(less, x, xs[1..])
  }

  lemma {:induction false} InsertDistinctSorted<T(!new)>(less: (T, T) -> bool, x: T, xs: seq<T>)
    requires StrictTotal(less) && StrictlySorted(less, xs)
    ensures StrictlySorted(less, InsertDistinct(less, x, xs))
    ensures forall y :: y in InsertDistinct(less, x, xs) <==> y == x || y in xs
  {
    if xs != [] && x != xs[0] && !less(x, xs[0]) {
      InsertDistinctSorted(less, x, xs[1..]);
      var rest := InsertDistinct(less, x, xs[1..]);
      assert forall y :: y in rest ==> less(xs[0], y);
      assert xs == [xs[0]] + xs[1..];
    }
  }

  lemma {:induction false} SortDistinctCorrect<T(!new)>(less: (T, T) -> bool, xs: seq<T>)
    requires StrictTotal(less)
    ensures StrictlySorted(less, SortDistinct(less, xs))
    ensures forall y :: y in SortDistinct(less, xs) <==> y in xs
  {
    if xs != [] {
      SortDistinctCorrect(less, xs[1..]);
      InsertDistinctSorted(less, xs[0], SortDistinct(less, xs[1..]));
      assert xs == [xs[0]] + xs[1..];
    }
  }

  /** A strictly sorted listing is determined by its elements. */
  lemma {:induction false} StrictlySortedUnique<T(!new)>(less: (T, T) -> bool, xs: seq<T>, ys: seq<T>)
    requires StrictTotal(less)
    requires StrictlySorted(less, xs) && StrictlySorted(less, ys)
    requires forall z :: z in xs <==> z in ys
    ensures xs == ys
  {
    assert ys == [] || ys[0] in ys;
    if xs != [] {
      assert xs[0] in ys && ys != [];
      assert ys[0] in xs;
      assert xs[0] == ys[0] by {
        var i :| 0 <= i < |xs| && xs[i] == ys[0];
        var j :| 0 <= j < |ys| && ys[j] == xs[0];
      }
      var xt, yt := xs[1..], ys[1..];
      forall z ensures z in xt <==> z in yt {
        if z in xt { var i :| 0 <= i < |xt| && xt[i] == z; assert z == xs[i + 1] && less(xs[0], z) && z in ys; }
        if z in yt { var i :| 0 <= i < |yt| && yt[i] == z; assert z == ys[i + 1] && less(ys[0], z) && z in xs; }
      }
      StrictlySortedUnique(less, xt, yt);
      assert xs == [xs[0]] + xt && ys == [ys[0]] + yt;
    }
  }

  // ---------------------------------------------------------------- listing a set in order

  predicate IsLeast<T(==)>(less: (T, T) -> bool, s: set<T>, x: T) {
    x in s && forall y | y in s :: y != x ==> less(x, y)
  }

  lemma {:induction false} LeastExists<T(!new)>(less: (T, T) -> bool, s: set<T>)
    requires StrictTotal(less) && s != {}
    ensures exists x :: IsLeast(less, s, x)
    decreases |s|
  {
    var x :| x in s;
    var rest := s - {x};
    if rest == {} {
      assert s == {x};
      assert IsLeast(less, s, x);
    } else {
      LeastExists(less, rest);
      var y :| IsLeast(less, rest, y);
      var best := if less(x, y) then x else y;
      forall z | z in s && z != best ensures less(best, z) {
        if best == x && z != y { assert less(x, y) && less(y, z); }
      }
      assert IsLeast(less, s, best);
    }
  }

  lemma LeastIsUnique<T(!new)>(less: (T, T) -> bool, s: set<T>, x: T, y: T)
    requires StrictTotal(less) && IsLeast(less, s, x) && IsLeast(less, s, y)
    ensures x == y
  {}

  function Least<T(!new, ==)>(less: (T, T) -> bool, s: set<T>): (x: T)
    requires StrictTotal(less) && s != {}
    ensures IsLeast(less, s, x)
  {
    LeastExists(less, s);
    assert forall x, y | IsLeast(less, s, x) && IsLeast(less, s, y) :: x == y by {
      forall x, y | IsLeast(less, s, x) && IsLeast(less, s, y) ensures x == y { LeastIsUnique(less, s, x, y); }
    }
    var x :| IsLeast(less, s, x);
    x
  }

  lemma ConsSorted<T(!new)>(less: (T, T) -> bool, x: T, xs: seq<T>)
    requires StrictlySorted(less, xs) && forall y :: y in xs ==> less(x, y)
    ensures StrictlySorted(less, [x] + xs)
  {}

  /** The elements of a set in increasing order, as iterating an ordered container yields them. */
  function InOrder<T(!new, ==)>(less: (T, T) -> bool, s: set<T>): (list: seq<T>)
    requires StrictTotal(less)
    ensures forall x :: x in list <==> x in s
    ensures StrictlySorted(less, list)
    ensures |list| == |s|
    decreases |s|
  {
    if s == {} then [] else
    var x := Least(less, s);
    var rest := InOrder(less, s - {x});
    ConsSorted(less, x, rest);
    [x] + rest
  }

  lemma StrictlySortedIsDistinct<T(!new)>(less: (T, T) -> bool, xs: seq<T>)
    requires StrictTotal(less) && StrictlySorted(less, xs)
    ensures NoDuplicates(xs)
  {}
}
