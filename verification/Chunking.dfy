/**
 Text chunking (packages/atlas-contentstore/src/chunking.rs): markdown is cut at headings, oversized pieces are cut
 by lines or, when they are one line, by bytes. Slicing a text inside a character aborts the program; `None` is that
 outcome.
 */
module Chunking {
  import opened Wrappers
  import opened Collections

  const MAX_CHUNK_BYTES: nat := 4096
  const LINES_PER_PART: nat := 51

  // ---------------------------------------------------------------- UTF-8

  /** The encoding of one character: a single byte below 128, or a lead byte and continuation bytes. */
  function EncodeChar(c: char): (bytes: seq<nat>)
    ensures 1 <= |bytes| <= 4
    ensures |bytes| == 1 ==> bytes[0] < 0x80
    ensures |bytes| > 1 ==> bytes[0] >= 0xC0 && forall i :: 1 <= i < |bytes| ==> Continuation(bytes[i])
  {
    EncodeCode(c as int)
  }

  function EncodeCode(n: nat): (bytes: seq<nat>)
    ensures 1 <= |bytes| <= 4
    ensures |bytes| == 1 ==> bytes[0] < 0x80
    ensures |bytes| > 1 ==> bytes[0] >= 0xC0 && forall i :: 1 <= i < |bytes| ==> Continuation(bytes[i])
  {
    if n < 0x80 then [n]
    else if n < 0x800 then [0xC0 + n / 64] + Tail(n, 1)
    else if n < 0x1_0000 then [0xE0 + n / 4096] + Tail(n, 2)
    else [0xF0 + n / 262144] + Tail(n, 3)
  }

  /** The lowest six-bit groups, highest first. */
  function Tail(n: nat, count: nat): (bytes: seq<nat>)
    ensures |bytes| == count && forall i :: 0 <= i < count ==> Continuation(bytes[i])
  {
    if count == 0 then [] else Tail(n / 64, count - 1) + [0x80 + n % 64]
  }

  predicate Continuation(b: nat) {
    0x80 <= b < 0xC0
  }

  function Encode(s: string): (bytes: seq<nat>)
    ensures bytes == [] <==> s == ""
  {
    if s == "" then [] else EncodeChar(s[0]) + Encode(s[1..])
  }

  /** The number of characters before a byte position, if no character straddles it. */
  function CharIndex(s: string, pos: nat): (k: Option<nat>)
    ensures k.Some? ==> k.value <= |s| && (pos > 0 ==> k.value > 0)
    decreases |s|
  {
    if pos == 0 then Some(0)
    else if s == "" || pos < |EncodeChar(s[0])| then None
    else Later(1, CharIndex(s[1..], pos - |EncodeChar(s[0])|))
  }

  function Later(k: nat, j: Option<nat>): Option<nat> {
    match j case None => None case Some(n) => Some(k + n)
  }

  /** Walk back over continuation bytes. */
  function Snap(bytes: seq<nat>, pos: nat): (p: nat)
    requires pos <= |bytes|
    ensures p <= pos
  {
    if pos > 0 && Continuation(bytes[pos - 1]) then Snap(bytes, pos - 1) else pos
  }

  lemma {:induction false} SnapStops(bytes: seq<nat>, pos: nat)
    requires pos <= |bytes|
    ensures var p := Snap(bytes, pos);
            (p > 0 ==> !Continuation(bytes[p - 1])) && forall i :: p <= i < pos ==> Continuation(bytes[i])
  {
    if pos > 0 && Continuation(bytes[pos - 1]) { SnapStops(bytes, pos - 1); }
  }

  method SnapUtf8(bytes: seq<nat>, pos: nat) returns (p: nat)
    ensures p == Snap(bytes, Min(pos, |bytes|))
  {
    p := Min(pos, |bytes|);
    while p > 0 && Continuation(bytes[p - 1])
      invariant p <= |bytes| && Snap(bytes, p) == Snap(bytes, Min(pos, |bytes|))
    {
      p := p - 1;
    }
  }

  lemma {:induction false} EncodeAppend(a: string, b: string)
    ensures Encode(a + b) == Encode(a) + Encode(b)
  {
    if a == "" {
      assert a + b == b;
    } else {
      assert (a + b)[1..] == a[1..] + b;
      EncodeAppend(a[1..], b);
    }
  }

  lemma EncodeCut(s: string, k: nat)
    requires k <= |s|
    ensures Encode(s) == Encode(s[..k]) + Encode(s[k..])
  {
    assert s == s[..k] + s[k..];
    EncodeAppend(s[..k], s[k..]);
  }

  /**
   A position is between characters exactly when the byte there starts one (or there is none) — never a continuation.
   */
  lemma {:induction false} BetweenCharactersIff(s: string, pos: nat)
    requires pos <= |Encode(s)|
    ensures CharIndex(s, pos).Some? <==> (pos == |Encode(s)| || !Continuation(Encode(s)[pos]))
    decreases |s|
  {
    if s != "" {
      var first, rest := EncodeChar(s[0]), Encode(s[1..]);
      if pos >= |first| {
        BetweenCharactersIff(s[1..], pos - |first|);
        if pos < |Encode(s)| { assert Encode(s)[pos] == rest[pos - |first|]; }
      } else {
        assert Encode(s)[pos] == first[pos];
      }
    }
  }

  lemma {:induction false} AfterByte(s: string, pos: nat)
    requires 0 < pos <= |Encode(s)|
    ensures Encode(s)[pos - 1] < 0x80 ==> CharIndex(s, pos).Some?
    ensures Encode(s)[pos - 1] >= 0xC0 ==> CharIndex(s, pos).None?
    ensures pos == 1 ==> !Continuation(Encode(s)[0])
    decreases |s|
  {
    var first, rest := EncodeChar(s[0]), Encode(s[1..]);
    if pos > |first| {
      AfterByte(s[1..], pos - |first|);
      assert Encode(s)[pos - 1] == rest[pos - |first| - 1];
    } else {
      assert Encode(s)[pos - 1] == first[pos - 1];
      assert pos == |first| ==> CharIndex(s[1..], 0) == Some(0);
    }
  }

  /**
   The snapped position is between characters exactly when the byte before the asked one is below 128, and then it is
   the asked position itself: snapping never repairs a cut inside a character and breaks cuts after a long one.
   */
  lemma SnapIsBoundaryIff(s: string, pos: nat)
    requires pos <= |Encode(s)|
    ensures CharIndex(s, Snap(Encode(s), pos)).Some? <==> pos == 0 || Encode(s)[pos - 1] < 0x80
    ensures pos == 0 || Encode(s)[pos - 1] < 0x80 ==> Snap(Encode(s), pos) == pos
  {
    var bytes := Encode(s);
    var p := Snap(bytes, pos);
    SnapStops(bytes, pos);
    if pos > 0 {
      AfterByte(s, 1);
      AfterByte(s, pos);
      if p > 0 { AfterByte(s, p); }
      if p < pos { BetweenCharactersIff(s, p); }
    }
  }

  lemma {:induction false} CharIndexLength(s: string, pos: nat)
    requires CharIndex(s, pos).Some?
    ensures |Encode(s[..CharIndex(s, pos).value])| == pos
    decreases |s|
  {
    if pos > 0 {
      var k, n := CharIndex(s, pos).value, |EncodeChar(s[0])|;
      CharIndexLength(s[1..], pos - n);
      assert s[..k][1..] == s[1..][..k - 1];
    }
  }

  /** A cut of the text is the same cut of its encoding. */
  lemma CharIndexIsExact(s: string, pos: nat)
    requires CharIndex(s, pos).Some?
    ensures pos <= |Encode(s)| && Encode(s[..CharIndex(s, pos).value]) == Encode(s)[..pos]
    ensures Encode(s[CharIndex(s, pos).value..]) == Encode(s)[pos..]
  {
    var k := CharIndex(s, pos).value;
    CharIndexLength(s, pos);
    EncodeCut(s, k);
  }

  // ---------------------------------------------------------------- cutting one long line by bytes

  /** Characters in the first piece of a line; `None` if its end falls inside a character. */
  function FirstPiece(s: string): (k: Option<nat>)
    requires s != ""
    ensures k.Some? ==> 0 < k.value <= |s|
  {
    SnapIsPositive(s, Min(MAX_CHUNK_BYTES, |Encode(s)|));
    CharIndex(s, Snap(Encode(s), Min(MAX_CHUNK_BYTES, |Encode(s)|)))
  }

  lemma SnapIsPositive(s: string, pos: nat)
    requires 0 < pos <= |Encode(s)|
    ensures Snap(Encode(s), pos) > 0
  {
    AfterByte(s, 1);
    SnapStops(Encode(s), pos);
  }

  /** Pieces of a line in order; `None` if some cut falls inside a character. */
  function SplitBytes(s: string): (pieces: Option<seq<string>>)
    decreases |s|
  {
    if s == "" then Some([])
    else match FirstPiece(s)
      case None => None
      case Some(k) => match SplitBytes(s[k..]) case None => None case Some(rest) => Some([s[..k]] + rest)
  }

  function Concat(pieces: seq<string>): string {
    if pieces == [] then "" else pieces[0] + Concat(pieces[1..])
  }

  /** The first piece exists exactly when the byte before its end is below 128, and then it has the full length. */
  lemma FirstPieceIff(s: string)
    requires s != ""
    ensures var n := Min(MAX_CHUNK_BYTES, |Encode(s)|);
            && (FirstPiece(s).Some? <==> Encode(s)[n - 1] < 0x80)
            && (FirstPiece(s).Some? ==>
                  && |Encode(s[..FirstPiece(s).value])| == n
                  && Encode(s[FirstPiece(s).value..]) == Encode(s)[n..])
  {
    var n := Min(MAX_CHUNK_BYTES, |Encode(s)|);
    SnapIsBoundaryIff(s, n);
    if FirstPiece(s).Some? { CharIndexIsExact(s, n); }
  }

  /** Pieces lose nothing and none exceeds the cap. */
  lemma {:induction false} PiecesAreExact(s: string)
    requires SplitBytes(s).Some?
    ensures Concat(SplitBytes(s).value) == s
    ensures forall p :: p in SplitBytes(s).value ==> 0 < |Encode(p)| <= MAX_CHUNK_BYTES
    decreases |s|
  {
    if s != "" {
      FirstPieceIff(s);
      var k := FirstPiece(s).value;
      PiecesAreExact(s[k..]);
      assert s == s[..k] + s[k..];
    }
  }

  /** The byte before every cut, and the last byte of the line, is below 128. */
  ghost predicate CutsAreAscii(bytes: seq<nat>) {
    && (forall i: nat {:trigger Cut(i)} :: 0 < Cut(i) <= |bytes| ==> bytes[Cut(i) - 1] < 0x80)
    && (bytes != [] ==> bytes[|bytes| - 1] < 0x80)
  }

  function Cut(i: nat): nat {
    MAX_CHUNK_BYTES * i
  }

  /** Cutting a long line succeeds exactly when that holds of its encoding; every other line aborts. */
  lemma {:induction false} SplitSucceedsIff(s: string)
    ensures SplitBytes(s).Some? <==> CutsAreAscii(Encode(s))
    decreases |s|
  {
    if s != "" {
      var bytes := Encode(s);
      var n := Min(MAX_CHUNK_BYTES, |bytes|);
      FirstPieceIff(s);
      assert Cut(1) == MAX_CHUNK_BYTES;
      if bytes[n - 1] < 0x80 {
        SplitSucceedsIff(s[FirstPiece(s).value..]);
        CutsShift(bytes, n);
      }
    }
  }

  lemma CutsShift(bytes: seq<nat>, n: nat)
    requires bytes != [] && n == Min(MAX_CHUNK_BYTES, |bytes|) && bytes[n - 1] < 0x80
    ensures CutsAreAscii(bytes) <==> CutsAreAscii(bytes[n..])
  {
    var rest := bytes[n..];
    if CutsAreAscii(bytes) {
      forall i: nat {:trigger Cut(i)} | 0 < Cut(i) <= |rest| ensures rest[Cut(i) - 1] < 0x80 {
        assert Cut(i + 1) == n + Cut(i);
      }
    }
    if CutsAreAscii(rest) {
      forall i: nat {:trigger Cut(i)} | 0 < Cut(i) <= |bytes| ensures bytes[Cut(i) - 1] < 0x80 {
        assert i > 0;
        assert Cut(i) == MAX_CHUNK_BYTES + Cut(i - 1);
        assert i > 1 ==> Cut(i - 1) > 0;
        assert i > 1 ==> rest[Cut(i - 1) - 1] < 0x80;
      }
    }
  }

  lemma SnapAfter(front: seq<nat>, bytes: seq<nat>, pos: nat)
    requires 0 < pos <= |bytes| && !Continuation(bytes[0])
    ensures Snap(front + bytes, |front| + pos) == |front| + Snap(bytes, pos)
  {
    if Continuation(bytes[pos - 1]) { SnapAfter(front, bytes, pos - 1); }
  }

  lemma CharIndexStep(c: char, s: string, pos: nat)
    ensures CharIndex([c] + s, |EncodeChar(c)| + pos) == Later(1, CharIndex(s, pos))
  {
    assert ([c] + s)[1..] == s;
  }

  lemma CharIndexOn(a: string, b: string, pos: nat, k: Option<nat>)
    requires a != "" && CharIndex(a[1..] + b, |Encode(a[1..])| + pos) == k
    ensures CharIndex(a + b, |Encode(a)| + pos) == Later(1, k)
  {
    assert a + b == [a[0]] + (a[1..] + b);
    CharIndexStep(a[0], a[1..] + b, |Encode(a[1..])| + pos);
  }

  lemma LaterAgain(k: nat, j: Option<nat>)
    ensures Later(1, Later(k, j)) == Later(k + 1, j)
  {}

  lemma {:induction false} CharIndexAfter(a: string, b: string, pos: nat)
    ensures CharIndex(a + b, |Encode(a)| + pos) == Later(|a|, CharIndex(b, pos))
  {
    if a == "" {
      assert a + b == b;
    } else {
      CharIndexAfter(a[1..], b, pos);
      CharIndexOn(a, b, pos, Later(|a[1..]|, CharIndex(b, pos)));
      LaterAgain(|a| - 1, CharIndex(b, pos));
    }
  }

  lemma SnapRest(front: seq<nat>, rest: seq<nat>)
    requires rest != [] && !Continuation(rest[0])
    ensures var n := Min(MAX_CHUNK_BYTES, |rest|);
            && Min(|front| + MAX_CHUNK_BYTES, |front + rest|) == |front| + n
            && Snap(front + rest, |front| + n) == |front| + Snap(rest, n) > |front|
  {
    SnapAfter(front, rest, Min(MAX_CHUNK_BYTES, |rest|));
    SnapStops(rest, Min(MAX_CHUNK_BYTES, |rest|));
  }

  lemma CharIndexCut(s: string, k: nat, pos: nat, end: nat)
    requires k <= |s| && end == |Encode(s[..k])| + pos
    ensures CharIndex(s, end) == Later(k, CharIndex(s[k..], pos))
  {
    assert s == s[..k] + s[k..];
    CharIndexAfter(s[..k], s[k..], pos);
  }

  /** A cut of what remains, as a byte position of the whole line. */
  lemma CutInPlace(s: string, k: nat, front: seq<nat>, rest: seq<nat>)
    requires k < |s| && front == Encode(s[..k]) && rest == Encode(s[k..])
    ensures Snap(Encode(s), Min(|front| + MAX_CHUNK_BYTES, |Encode(s)|)) ==
            |front| + Snap(rest, Min(MAX_CHUNK_BYTES, |rest|))
  {
    EncodeCut(s, k);
    AfterByte(s[k..], 1);
    SnapRest(front, rest);
  }

  lemma NextCutAt(s: string, k: nat, end: nat)
    requires k < |s| && end == Snap(Encode(s), Min(|Encode(s[..k])| + MAX_CHUNK_BYTES, |Encode(s)|))
    ensures CharIndex(s, end) == Later(k, FirstPiece(s[k..]))
  {
    var front, rest := Encode(s[..k]), Encode(s[k..]);
    var p := Snap(rest, Min(MAX_CHUNK_BYTES, |rest|));
    assert end == |front| + p by { CutInPlace(s, k, front, rest); }
    assert FirstPiece(s[k..]) == CharIndex(s[k..], p);
    CharIndexCut(s, k, p, end);
  }

  /** The end of the next piece in bytes and in characters of the whole line. */
  method NextCut(s: string, bytes: seq<nat>, start: nat, k: nat) returns (end: nat, cut: Option<nat>)
    requires bytes == Encode(s) && k < |s| && start == |Encode(s[..k])|
    ensures cut == Later(k, FirstPiece(s[k..]))
    ensures cut.Some? ==> end == |Encode(s[..cut.value])|
  {
    end := SnapUtf8(bytes, start + MAX_CHUNK_BYTES);
    NextCutAt(s, k, end);
    cut := CharIndex(s, end);
    if cut.Some? {
      CharIndexLength(s, end);
    }
  }

  /** The pieces written so far, followed by those of the text that remains. */
  ghost predicate SplitFrom(s: string, out: seq<string>, rest: string) {
    SplitBytes(s) == Prepend(out, SplitBytes(rest))
  }

  lemma SplitStart(s: string)
    ensures SplitFrom(s, [], s)
  {
    if SplitBytes(s).Some? { assert [] + SplitBytes(s).value == SplitBytes(s).value; }
  }

  lemma SplitNext(s: string, out: seq<string>, rest: string)
    requires rest != "" && SplitFrom(s, out, rest)
    ensures var cut := FirstPiece(rest);
            && (cut.None? ==> SplitBytes(s).None?)
            && (cut.Some? ==> SplitFrom(s, out + [rest[..cut.value]], rest[cut.value..]))
  {
    var cut := FirstPiece(rest);
    if cut.Some? && SplitBytes(rest).Some? {
      var tail := SplitBytes(rest[cut.value..]).value;
      assert out + ([rest[..cut.value]] + tail) == out + [rest[..cut.value]] + tail;
    }
  }

  lemma SplitEnd(s: string, out: seq<string>)
    requires SplitFrom(s, out, "")
    ensures SplitBytes(s) == Some(out)
  {
    assert out + [] == out;
  }

  /** The loop over byte positions; `start` and `end` count bytes of the whole line. */
  method SplitLongLine(s: string) returns (pieces: Option<seq<string>>)
    ensures pieces == SplitBytes(s)
  {
    var bytes := Encode(s);
    var out: seq<string> := [];
    var start, k := 0, 0;
    assert s[0..] == s && s[..0] == "";
    SplitStart(s);
    while start < |bytes|
      invariant k <= |s| && start == |Encode(s[..k])|
      invariant SplitFrom(s, out, s[k..])
      decreases |s| - k
    {
      AllEncoded(s, k);
      SplitNext(s, out, s[k..]);
      var end, cut := NextCut(s, bytes, start, k);
      if cut.None? {
        return None;
      }
      assert s[k..][..cut.value - k] == s[k..cut.value] && s[k..][cut.value - k..] == s[cut.value..];
      out := out + [s[k..cut.value]];
      start, k := end, cut.value;
    }
    AllEncoded(s, k);
    SplitEnd(s, out);
    pieces := Some(out);
  }

  function Prepend(out: seq<string>, rest: Option<seq<string>>): Option<seq<string>> {
    match rest case None => None case Some(pieces) => Some(out + pieces)
  }

  lemma AllEncoded(s: string, k: nat)
    requires k <= |s|
    ensures |Encode(s[..k])| <= |Encode(s)| && (|Encode(s[..k])| == |Encode(s)| <==> k == |s|)
  {
    EncodeCut(s, k);
  }

  // ---------------------------------------------------------------- lines

  /** White space as the standard library's trimming sees it. */
  predicate Space(c: char) {
    var n := c as int;
    || 9 <= n <= 13 || n == 32 || n == 0x85 || n == 0xA0 || n == 0x1680 || 0x2000 <= n <= 0x200A
    || n == 0x2028 || n == 0x2029 || n == 0x202F || n == 0x205F || n == 0x3000
  }

  function TrimStart(s: string): string {
    if s != "" && Space(s[0]) then TrimStart(s[1..]) else s
  }

  function TrimEnd(s: string): string {
    if s != "" && Space(s[|s| - 1]) then TrimEnd(s[..|s| - 1]) else s
  }

  function Trim(s: string): string {
    TrimEnd(TrimStart(s))
  }

  function StripReturn(line: string): string {
    if line != "" && line[|line| - 1] == '\r' then line[..|line| - 1] else line
  }

  /** Texts of ended lines; a carriage return before a line end belongs to it. */
  function Ended(lines: seq<string>): (r: seq<string>)
    ensures |r| == |lines|
  {
    if lines == [] then [] else [StripReturn(lines[0])] + Ended(lines[1..])
  }

  /** Lines without their ends; a final line end starts no further line. */
  function Lines(s: string): seq<string> {
    FromParts(Split('\n', s))
  }

  function FromParts(parts: seq<string>): seq<string>
    requires parts != []
  {
    var last := parts[|parts| - 1];
    Ended(parts[..|parts| - 1]) + if last == "" then [] else [last]
  }

  function JoinLines(lines: seq<string>): string {
    if lines == [] then ""
    else if |lines| == 1 then lines[0]
    else JoinLines(lines[..|lines| - 1]) + ['\n'] + lines[|lines| - 1]
  }

  lemma {:induction false} EndedAppend(a: seq<string>, b: seq<string>)
    ensures Ended(a + b) == Ended(a) + Ended(b)
  {
    if a == [] {
      assert a + b == b;
    } else {
      assert (a + b)[1..] == a[1..] + b;
      EndedAppend(a[1..], b);
    }
  }

  lemma FromMoreParts(a: seq<string>, b: seq<string>)
    requires b != []
    ensures FromParts(a + b) == Ended(a) + FromParts(b)
  {
    assert (a + b)[..|a + b| - 1] == a + b[..|b| - 1];
    EndedAppend(a, b[..|b| - 1]);
  }

  predicate EndsLine(s: string) {
    s == "" || s[|s| - 1] == '\n'
  }

  lemma LinesAfter(a: string, b: string)
    ensures Lines(a + ['\n'] + b) == Ended(Split('\n', a)) + Lines(b)
  {
    SplitAt('\n', a, b);
    FromMoreParts(Split('\n', a), Split('\n', b));
  }

  lemma NoLines()
    ensures Lines("") == []
  {
    assert Split('\n', "") == [""];
  }

  lemma LinesAppend(a: string, b: string)
    requires EndsLine(a)
    ensures Lines(a + b) == Lines(a) + Lines(b)
  {
    NoLines();
    if a == "" {
      assert a + b == b && [] + Lines(b) == Lines(b);
    } else {
      var front := a[..|a| - 1];
      assert a == front + ['\n'] + "" && a + b == front + ['\n'] + b;
      LinesAfter(front, "");
      LinesAfter(front, b);
      assert Ended(Split('\n', front)) + [] == Ended(Split('\n', front));
    }
  }

  /** Line ends are line feeds, a carriage return before one belongs to it, and a final one starts no line. */
  lemma LinesAre(x: string, rest: string)
    requires '\n' !in x
    ensures Lines(x + ['\r', '\n'] + rest) == [x] + Lines(rest)
    ensures (x == "" || x[|x| - 1] != '\r') ==> Lines(x + ['\n'] + rest) == [x] + Lines(rest)
    ensures Lines(x) == if x == "" then [] else [x]
  {
    var y := x + ['\r'];
    SplitPart('\n', x);
    SplitPart('\n', y);
    LinesAfter(x, rest);
    LinesAfter(y, rest);
    assert y + ['\n'] + rest == x + ['\r', '\n'] + rest && y[..|y| - 1] == x;
    assert Ended([x][1..]) == [] && Ended([y][1..]) == [] && Ended([x][..0]) == [];
  }

  /** Joining lines is undone by splitting at line feeds. */
  lemma {:induction false} SplitUndoesJoin(lines: seq<string>)
    requires lines != [] && forall l :: l in lines ==> '\n' !in l
    ensures Split('\n', JoinLines(lines)) == lines
  {
    var init, last := lines[..|lines| - 1], lines[|lines| - 1];
    assert lines == init + [last] && last in lines;
    SplitPart('\n', last);
    if init != [] {
      SplitUndoesJoin(init);
      SplitAt('\n', JoinLines(init), last);
    }
  }

  ghost predicate AllSpace(s: string) {
    forall i :: 0 <= i < |s| ==> Space(s[i])
  }

  /** `t` is `s` without the white space at both ends. */
  ghost predicate IsTrimmed(s: string, t: string) {
    && (t != "" ==> !Space(t[0]) && !Space(t[|t| - 1]))
    && exists a, b :: AllSpace(a) && AllSpace(b) && s == a + t + b
  }

  lemma {:induction false} TrimStartIs(s: string) returns (a: string)
    ensures AllSpace(a) && s == a + TrimStart(s) && (TrimStart(s) != "" ==> !Space(TrimStart(s)[0]))
  {
    if s != "" && Space(s[0]) {
      a := TrimStartIs(s[1..]);
      a := [s[0]] + a;
    } else {
      a := "";
    }
  }

  lemma {:induction false} TrimEndIs(s: string) returns (b: string)
    ensures AllSpace(b) && s == TrimEnd(s) + b
    ensures TrimEnd(s) != "" ==> !Space(TrimEnd(s)[|TrimEnd(s)| - 1]) && TrimEnd(s)[0] == s[0]
  {
    if s != "" && Space(s[|s| - 1]) {
      b := TrimEndIs(s[..|s| - 1]);
      b := b + [s[|s| - 1]];
    } else {
      b := "";
    }
  }

  lemma TrimIs(s: string)
    ensures IsTrimmed(s, Trim(s))
  {
    var a := TrimStartIs(s);
    var b := TrimEndIs(TrimStart(s));
    assert s == a + Trim(s) + b;
  }

  lemma TrimmedIsUnique(s: string, t: string, u: string)
    requires IsTrimmed(s, t) && IsTrimmed(s, u)
    ensures t == u
  {
    var a, b :| AllSpace(a) && AllSpace(b) && s == a + t + b;
    var c, d :| AllSpace(c) && AllSpace(d) && s == c + u + d;
    TrimmedWithin(s, a, t, b, c, u, d);
    TrimmedWithin(s, c, u, d, a, t, b);
    if t != "" {
      assert |a| == |c| && |b| == |d|;
      assert t == s[|a|..|a| + |t|] && u == s[|c|..|c| + |u|];
    }
  }

  /** Text that starts and ends with no space begins no earlier and ends no later than the other. */
  lemma TrimmedWithin(s: string, a: string, t: string, b: string, c: string, u: string, d: string)
    requires s == a + t + b == c + u + d && AllSpace(c) && AllSpace(d)
    requires t != "" ==> !Space(t[0]) && !Space(t[|t| - 1])
    ensures t != "" ==> |c| <= |a| && |d| <= |b| && u != ""
  {
    if t != "" {
      var i, j := |a|, |a| + |t| - 1;
      assert s[i] == t[0] && s[j] == t[|t| - 1];
      assert forall k :: 0 <= k < |c| ==> s[k] == c[k] && Space(s[k]);
      assert forall k :: 0 <= k < |d| ==> s[|c| + |u| + k] == d[k] && Space(d[k]);
      assert forall k :: |c| + |u| <= k < |s| ==> s[k] == d[k - |c| - |u|];
    }
  }

  // ---------------------------------------------------------------- markdown

  function TrimHashes(s: string): (t: string)
    ensures |t| <= |s|
  {
    if s != "" && s[0] == '#' then TrimHashes(s[1..]) else s
  }

  function ExtractHeading(line: string): Option<string> {
    var trimmed := TrimHashes(line);
    if |trimmed| < |line| && line[0] == '#' && Trim(trimmed) != "" then Some(Trim(trimmed)) else None
  }

  /** `k` is the number of hash signs a line starts with. */
  ghost predicate Hashes(line: string, k: nat) {
    k <= |line| && (forall i :: 0 <= i < k ==> line[i] == '#') && (k < |line| ==> line[k] != '#')
  }

  lemma {:induction false} TrimHashesIs(line: string)
    ensures exists k: nat :: Hashes(line, k) && TrimHashes(line) == line[k..]
  {
    if line != "" && line[0] == '#' {
      TrimHashesIs(line[1..]);
      var k: nat :| Hashes(line[1..], k) && TrimHashes(line[1..]) == line[1..][k..];
      assert Hashes(line, k + 1) && line[1..][k..] == line[k + 1..];
    } else {
      assert Hashes(line, 0) && line[0..] == line;
    }
  }

  /** A line is a heading exactly when text follows hash signs at its start; that text, trimmed, is the title. */
  lemma HeadingIff(line: string, title: string)
    ensures ExtractHeading(line) == Some(title) <==>
            title != "" && exists k: nat :: k > 0 && Hashes(line, k) && IsTrimmed(line[k..], title)
  {
    TrimHashesIs(line);
    var k: nat :| Hashes(line, k) && TrimHashes(line) == line[k..];
    TrimIs(line[k..]);
    assert forall j: nat :: Hashes(line, j) ==> j == k;
    if IsTrimmed(line[k..], title) { TrimmedIsUnique(line[k..], title, Trim(line[k..])); }
    if ExtractHeading(line) == Some(title) { assert k > 0 && Hashes(line, k) && IsTrimmed(line[k..], title); }
  }

  /** A piece of text under an optional title. */
  datatype Piece = Piece(title: Option<string>, content: string)

  datatype Reader = Reader(pieces: seq<Piece>, title: Option<string>, lines: seq<string>)

  function Flush(r: Reader): seq<Piece> {
    var text := Trim(JoinLines(r.lines));
    if text != "" then r.pieces + [Piece(r.title, text)] else r.pieces
  }

  function ReadLine(r: Reader, line: string): Reader {
    match ExtractHeading(line)
    case Some(heading) => Reader(Flush(r), Some(heading), [])
    case None => r.(lines := r.lines + [line])
  }

  function ReadLines(r: Reader, lines: seq<string>): Reader
    decreases |lines|
  {
    if lines == [] then r else ReadLines(ReadLine(r, lines[0]), lines[1..])
  }

  /** Sections with text under them. */
  function Sections(src: string): seq<Piece> {
    Flush(ReadLines(Reader([], None, []), Lines(src)))
  }

  function Base(src: string): seq<Piece> {
    if Sections(src) == [] then [Piece(None, src)] else Sections(src)
  }

  method ChunkMarkdown(src: string) returns (pieces: seq<Piece>)
    ensures pieces == Base(src)
  {
    pieces := [];
    var title: Option<string> := None;
    var current: seq<string> := [];
    var lines := Lines(src);
    assert lines[0..] == lines;
    for i := 0 to |lines|
      invariant ReadLines(Reader(pieces, title, current), lines[i..]) == ReadLines(Reader([], None, []), lines)
    {
      DropCons(lines, i);
      var heading := ExtractHeading(lines[i]);
      if heading.Some? {
        pieces := Flush(Reader(pieces, title, current));
        title, current := heading, [];
      } else {
        current := current + [lines[i]];
      }
    }
    pieces := Flush(Reader(pieces, title, current));
    if pieces == [] {
      pieces := [Piece(None, src)];
    }
  }

  predicate StartsWithHeading(s: string) {
    Lines(s) != [] && ExtractHeading(Lines(s)[0]).Some?
  }

  lemma {:induction false} ReadOn(r: Reader, a: seq<string>, b: seq<string>)
    ensures ReadLines(r, a + b) == ReadLines(ReadLines(r, a), b)
    decreases |a|
  {
    if a == [] {
      assert a + b == b;
    } else {
      assert (a + b)[1..] == a[1..] + b;
      ReadOn(ReadLine(r, a[0]), a[1..], b);
    }
  }

  /** Pieces already written do not influence reading. */
  lemma {:induction false} ReadAfter(done: seq<Piece>, r: Reader, lines: seq<string>)
    ensures ReadLines(r.(pieces := done + r.pieces), lines) ==
            ReadLines(r, lines).(pieces := done + ReadLines(r, lines).pieces)
    decreases |lines|
  {
    if lines != [] {
      FlushAfter(done, r);
      ReadAfter(done, ReadLine(r, lines[0]), lines[1..]);
    }
  }

  lemma FlushAfter(done: seq<Piece>, r: Reader)
    ensures Flush(r.(pieces := done + r.pieces)) == done + Flush(r)
  {
    assert forall p: Piece :: done + r.pieces + [p] == done + (r.pieces + [p]);
  }

  /** A heading closes what came before it: reading on is reading from the start. */
  lemma HeadingCloses(r: Reader, lines: seq<string>)
    requires lines != [] && ExtractHeading(lines[0]).Some?
    ensures Flush(ReadLines(r, lines)) == Flush(r) + Flush(ReadLines(Reader([], None, []), lines))
  {
    var begun := Reader([], ExtractHeading(lines[0]), []);
    assert JoinLines([]) == "" && Trim("") == "";
    assert ReadLine(Reader([], None, []), lines[0]) == begun;
    assert ReadLine(r, lines[0]) == begun.(pieces := Flush(r) + begun.pieces) by { assert Flush(r) + [] == Flush(r); }
    ReadAfter(Flush(r), begun, lines[1..]);
    FlushAfter(Flush(r), ReadLines(begun, lines[1..]));
  }

  lemma SectionsSplit(a: string, b: string)
    requires EndsLine(a) && StartsWithHeading(b)
    ensures Sections(a + b) == Sections(a) + Sections(b)
  {
    var start := Reader([], None, []);
    LinesAppend(a, b);
    ReadOn(start, Lines(a), Lines(b));
    HeadingCloses(ReadLines(start, Lines(a)), Lines(b));
  }

  ghost predicate NoHeadings(lines: seq<string>) {
    forall l :: l in lines ==> ExtractHeading(l).None?
  }

  lemma {:induction false} ReadBody(r: Reader, lines: seq<string>)
    requires NoHeadings(lines)
    ensures ReadLines(r, lines) == r.(lines := r.lines + lines)
    decreases |lines|
  {
    if lines == [] {
      assert r.lines + lines == r.lines;
    } else {
      assert lines[0] in lines && NoHeadings(lines[1..]);
      ReadBody(ReadLine(r, lines[0]), lines[1..]);
      assert r.lines + [lines[0]] + lines[1..] == r.lines + lines;
    }
  }

  /** Text under an optional title: one piece with the trimmed lines, or none if they are blank. */
  ghost predicate IsSection(pieces: seq<Piece>, title: Option<string>, lines: seq<string>) {
    && (AllSpace(JoinLines(lines)) ==> pieces == [])
    && (!AllSpace(JoinLines(lines)) ==>
          |pieces| == 1 && pieces[0].title == title && IsTrimmed(JoinLines(lines), pieces[0].content))
  }

  lemma FlushIsSection(title: Option<string>, lines: seq<string>)
    ensures IsSection(Flush(Reader([], title, lines)), title, lines)
  {
    var text := JoinLines(lines);
    TrimIs(text);
    if AllSpace(text) {
      assert AllSpace("") && text == text + "" + "";
      assert IsTrimmed(text, "");
      TrimmedIsUnique(text, Trim(text), "");
    }
  }

  /** Text before any heading is one untitled section with all its lines. */
  lemma UntitledSection(src: string)
    requires NoHeadings(Lines(src))
    ensures IsSection(Sections(src), None, Lines(src))
  {
    ReadBody(Reader([], None, []), Lines(src));
    assert [] + Lines(src) == Lines(src);
    FlushIsSection(None, Lines(src));
  }

  /** A heading and the text up to the next one is one section with that title and all those lines. */
  lemma TitledSection(src: string)
    requires StartsWithHeading(src) && NoHeadings(Lines(src)[1..])
    ensures IsSection(Sections(src), ExtractHeading(Lines(src)[0]), Lines(src)[1..])
  {
    var title, body := ExtractHeading(Lines(src)[0]), Lines(src)[1..];
    assert JoinLines([]) == "" && Trim("") == "";
    assert ReadLine(Reader([], None, []), Lines(src)[0]) == Reader([], title, []);
    ReadBody(Reader([], title, []), body);
    assert [] + body == body;
    FlushIsSection(title, body);
  }

  /** A text without sections is kept whole and as it is; any other is its sections. */
  lemma BaseIs(src: string)
    ensures Sections(src) == [] ==> Base(src) == [Piece(None, src)]
    ensures Sections(src) != [] ==> Base(src) == Sections(src)
  {}

  // ---------------------------------------------------------------- oversized pieces

  function PartTitle(title: Option<string>, part: nat): Option<string> {
    match title case None => None case Some(t) => Some(t + " (part " + Decimal(part) + ")")
  }

  function Windows(lines: seq<string>): (w: seq<seq<string>>)
    ensures lines != [] ==> w != []
    decreases |lines|
  {
    if lines == [] then []
    else if |lines| <= LINES_PER_PART then [lines]
    else [lines[..LINES_PER_PART]] + Windows(lines[LINES_PER_PART..])
  }

  function JoinWindows(w: seq<seq<string>>): (contents: seq<string>)
    ensures |contents| == |w|
  {
    if w == [] then [] else [JoinLines(w[0])] + JoinWindows(w[1..])
  }

  function Parts(title: Option<string>, contents: seq<string>, part: nat): (ps: seq<Piece>)
    ensures |ps| == |contents|
    decreases |contents|
  {
    if contents == [] then [] else [Piece(PartTitle(title, part), contents[0])] + Parts(title, contents[1..], part + 1)
  }

  function Subdivide(p: Piece): Option<seq<Piece>> {
    if |Lines(p.content)| > 1 then Some(Parts(p.title, JoinWindows(Windows(Lines(p.content))), 0))
    else match SplitBytes(p.content) case None => None case Some(contents) => Some(Parts(p.title, contents, 0))
  }

  function Expand(p: Piece): Option<seq<Piece>> {
    if |Encode(p.content)| <= MAX_CHUNK_BYTES then Some([p]) else Subdivide(p)
  }

  lemma ExpandIsNotEmpty(p: Piece)
    requires Expand(p).Some?
    ensures |Expand(p).value| > 0
  {
    if |Encode(p.content)| > MAX_CHUNK_BYTES {
      assert Lines(p.content) != [] ==> |JoinWindows(Windows(Lines(p.content)))| > 0;
      SplitIsNotEmpty(p.content);
    }
  }

  lemma SplitIsNotEmpty(s: string)
    requires s != ""
    ensures SplitBytes(s).Some? ==> |SplitBytes(s).value| > 0
  {}

  lemma {:induction false} WindowsLoseNothing(lines: seq<string>)
    ensures Flatten(Windows(lines)) == lines
    ensures forall w :: w in Windows(lines) ==> 0 < |w| <= LINES_PER_PART
    ensures forall i :: 0 <= i < |Windows(lines)| - 1 ==> |Windows(lines)[i]| == LINES_PER_PART
    decreases |lines|
  {
    if |lines| > LINES_PER_PART {
      WindowsLoseNothing(lines[LINES_PER_PART..]);
      assert lines == lines[..LINES_PER_PART] + lines[LINES_PER_PART..];
    } else if lines != [] {
      assert Flatten([lines][1..]) == [];
    }
  }

  function Flatten(w: seq<seq<string>>): seq<string> {
    if w == [] then [] else w[0] + Flatten(w[1..])
  }

  /** Bytes of a window of lines joined by line ends. */
  function WindowBytes(lines: seq<string>): nat {
    if lines == [] then 0
    else if |lines| == 1 then |Encode(lines[0])|
    else WindowBytes(lines[..|lines| - 1]) + 1 + |Encode(lines[|lines| - 1])|
  }

  lemma {:induction false} JoinedBytes(lines: seq<string>)
    ensures |Encode(JoinLines(lines))| == WindowBytes(lines)
  {
    if |lines| > 1 {
      var init, last := lines[..|lines| - 1], lines[|lines| - 1];
      JoinedBytes(init);
      EncodeAppend(JoinLines(init) + ['\n'], last);
      EncodeAppend(JoinLines(init), ['\n']);
      OneByte();
    }
  }

  lemma OneByte()
    ensures |Encode(['\n'])| == 1
  {
    assert Encode(['\n'][1..]) == [];
    assert EncodeChar('\n') == [10];
  }

  lemma PartsAre(title: Option<string>, contents: seq<string>, part: nat, i: nat)
    requires i < |contents|
    ensures Parts(title, contents, part)[i] == Piece(PartTitle(title, part + i), contents[i])
    decreases |contents|
  {
    if i > 0 { PartsAre(title, contents[1..], part + 1, i - 1); }
  }

  lemma {:induction false} JoinedWindowsAre(w: seq<seq<string>>, i: nat)
    requires i < |w|
    ensures JoinWindows(w)[i] == JoinLines(w[i])
  {
    if i > 0 { JoinedWindowsAre(w[1..], i - 1); }
  }

  predicate Fits(p: Piece) {
    |Encode(p.content)| <= MAX_CHUNK_BYTES
  }

  /**
   Subdividing brings every piece under the cap IF AND ONLY IF the text is a single line, or every window of fifty-one
   lines adds up to no more than the cap.
   */
  lemma PartsFitIff(p: Piece)
    requires Subdivide(p).Some?
    ensures (forall q :: q in Subdivide(p).value ==> Fits(q)) <==>
            |Lines(p.content)| <= 1 || forall w :: w in Windows(Lines(p.content)) ==> WindowBytes(w) <= MAX_CHUNK_BYTES
  {
    var parts := Subdivide(p).value;
    if |Lines(p.content)| > 1 {
      var windows := Windows(Lines(p.content));
      forall i | 0 <= i < |windows| ensures Fits(parts[i]) <==> WindowBytes(windows[i]) <= MAX_CHUNK_BYTES {
        PartsAre(p.title, JoinWindows(windows), 0, i);
        JoinedWindowsAre(windows, i);
        JoinedBytes(windows[i]);
      }
      AllAlike(parts, windows);
    } else {
      PiecesAreExact(p.content);
      forall i | 0 <= i < |parts| ensures Fits(parts[i]) {
        PartsAre(p.title, SplitBytes(p.content).value, 0, i);
        assert SplitBytes(p.content).value[i] in SplitBytes(p.content).value;
      }
    }
  }

  /** Part `i` of a title. */
  ghost predicate IsPartTitle(title: Option<string>, i: nat, part: Option<string>) {
    part == if title.None? then None else Some(title.value + " (part " + Decimal(i) + ")")
  }

  lemma PartTitles(title: Option<string>, contents: seq<string>, i: nat)
    requires i < |contents|
    ensures IsPartTitle(title, i, Parts(title, contents, 0)[i].title)
  {
    PartsAre(title, contents, 0, i);
  }

  /** A piece within the cap is kept with its title; parts of a larger one are numbered from nought under its title. */
  lemma PartsAreNumbered(p: Piece, i: nat)
    requires Expand(p).Some? && i < |Expand(p).value|
    ensures Fits(p) ==> Expand(p).value == [p]
    ensures !Fits(p) ==> IsPartTitle(p.title, i, Expand(p).value[i].title)
  {
    if !Fits(p) {
      if |Lines(p.content)| > 1 {
        PartTitles(p.title, JoinWindows(Windows(Lines(p.content))), i);
      } else {
        PartTitles(p.title, SplitBytes(p.content).value, i);
      }
    }
  }

  function Contents(pieces: seq<Piece>): (contents: seq<string>)
    ensures |contents| == |pieces| && forall i :: 0 <= i < |pieces| ==> contents[i] == pieces[i].content
  {
    seq(|pieces|, i requires 0 <= i < |pieces| => pieces[i].content)
  }

  /**
   Subdividing loses nothing: the parts of a single line add up to it, and those of several are its lines in order,
   fifty-one at a time and joined again.
   */
  lemma PartsLoseNothing(p: Piece)
    requires Subdivide(p).Some?
    ensures var contents := Contents(Subdivide(p).value);
            if |Lines(p.content)| <= 1 then Concat(contents) == p.content
            else exists windows: seq<seq<string>> ::
              && |windows| == |contents| && Flatten(windows) == Lines(p.content)
              && (forall i :: 0 <= i < |windows| ==> |windows[i]| <= 51 && contents[i] == JoinLines(windows[i]))
              && (forall i :: 0 <= i < |windows| - 1 ==> |windows[i]| == 51)
  {
    var parts := Subdivide(p).value;
    if |Lines(p.content)| > 1 {
      var windows := Windows(Lines(p.content));
      WindowsLoseNothing(Lines(p.content));
      forall i | 0 <= i < |windows| ensures |windows[i]| <= 51 && Contents(parts)[i] == JoinLines(windows[i]) {
        assert windows[i] in windows;
        PartsAre(p.title, JoinWindows(windows), 0, i);
        JoinedWindowsAre(windows, i);
      }
    } else {
      var pieces := SplitBytes(p.content).value;
      PiecesAreExact(p.content);
      forall i | 0 <= i < |parts| ensures parts[i].content == pieces[i] { PartsAre(p.title, pieces, 0, i); }
      assert Contents(parts) == pieces;
    }
  }

  lemma AllAlike(parts: seq<Piece>, windows: seq<seq<string>>)
    requires |parts| == |windows| && forall i :: 0 <= i < |windows| ==>
             (Fits(parts[i]) <==> WindowBytes(windows[i]) <= MAX_CHUNK_BYTES)
    ensures (forall q :: q in parts ==> Fits(q)) <==> forall w :: w in windows ==> WindowBytes(w) <= MAX_CHUNK_BYTES
  {
    if forall q :: q in parts ==> Fits(q) {
      forall w | w in windows ensures WindowBytes(w) <= MAX_CHUNK_BYTES {
        var i :| 0 <= i < |windows| && windows[i] == w;
        assert parts[i] in parts;
      }
    }
    if forall w :: w in windows ==> WindowBytes(w) <= MAX_CHUNK_BYTES {
      forall q | q in parts ensures Fits(q) {
        var i :| 0 <= i < |parts| && parts[i] == q;
        assert windows[i] in windows;
      }
    }
  }

  /** Content of two to fifty-one lines is never cut, however many bytes it has. */
  lemma FewLinesAreNotCut(p: Piece)
    requires 1 < |Lines(p.content)| <= LINES_PER_PART
    ensures Subdivide(p) == Some([Piece(PartTitle(p.title, 0), JoinLines(Lines(p.content)))])
  {
    var lines := Lines(p.content);
    assert Windows(lines) == [lines];
    OneWindow(lines);
    OnePart(p.title, JoinLines(lines));
  }

  lemma LinesOfTwo(a: string, b: string)
    requires '\n' !in a && '\n' !in b && StripReturn(a) == a && b != ""
    ensures Lines(a + ['\n'] + b) == [a, b] && JoinLines([a, b]) == a + ['\n'] + b
  {
    LinesAfter(a, b);
    SplitPart('\n', a);
    SplitPart('\n', b);
    assert Ended([a][1..]) == [];
    assert Ended([a]) == [a];
    assert FromParts([b]) == [b] by { assert Ended([b][..0]) == []; }
    assert [a, b][..1] == [a] && JoinLines([a]) == a;
  }

  /** It happens: two lines, one of which fills the cap alone, come back as one piece over the cap. */
  lemma OversizedLinesStayOversized(title: Option<string>, a: string, b: string)
    requires '\n' !in a && '\n' !in b && StripReturn(a) == a && b != "" && |Encode(a)| >= MAX_CHUNK_BYTES
    ensures var p := Piece(title, a + ['\n'] + b);
            !Fits(p) && Expand(p) == Some([Piece(PartTitle(title, 0), p.content)])
  {
    var p := Piece(title, a + ['\n'] + b);
    LinesOfTwo(a, b);
    JoinedBytes([a, b]);
    assert [a, b][..1] == [a] && WindowBytes([a]) == |Encode(a)|;
    FewLinesAreNotCut(p);
  }

  lemma OneWindow(lines: seq<string>)
    ensures JoinWindows([lines]) == [JoinLines(lines)]
  {
    assert JoinWindows([lines][1..]) == [];
  }

  lemma OnePart(title: Option<string>, content: string)
    ensures Parts(title, [content], 0) == [Piece(PartTitle(title, 0), content)]
  {
    assert Parts(title, [content][1..], 1) == [];
  }

  // ---------------------------------------------------------------- numbered chunks

  /** Identity of a chunk: the hash of its source and trimmed content, taken to be collision-free. */
  datatype ChunkId = ChunkId(source: string, text: string)

  datatype Chunk = Chunk(id: ChunkId, index: nat, title: Option<string>, content: string)

  function Number(source: string, index: nat, pieces: seq<Piece>): (chunks: seq<Chunk>)
    ensures |chunks| == |pieces|
    ensures forall i :: 0 <= i < |pieces| ==>
              chunks[i] == Chunk(ChunkId(source, Trim(pieces[i].content)), index + i, pieces[i].title,
                pieces[i].content)
  {
    seq(|pieces|, i requires 0 <= i < |pieces| =>
      Chunk(ChunkId(source, Trim(pieces[i].content)), index + i, pieces[i].title, pieces[i].content))
  }

  function ExpandAll(pieces: seq<Piece>): Option<seq<Piece>> {
    if pieces == [] then Some([])
    else Both(Expand(pieces[0]), ExpandAll(pieces[1..]))
  }

  function Both(a: Option<seq<Piece>>, b: Option<seq<Piece>>): Option<seq<Piece>> {
    if a.Some? && b.Some? then Some(a.value + b.value) else None
  }

  function Chunks(source: string, base: seq<Piece>): Option<seq<Chunk>> {
    match ExpandAll(base) case None => None case Some(pieces) => Some(Number(source, 0, pieces))
  }

  function MarkdownChunks(source: string, src: string): Option<seq<Chunk>> {
    Chunks(source, Base(src))
  }

  lemma BothAssoc(a: Option<seq<Piece>>, b: Option<seq<Piece>>, c: Option<seq<Piece>>)
    ensures Both(Both(a, b), c) == Both(a, Both(b, c))
    ensures Both(Some([]), c) == c && Both(c, Some([])) == c
  {
    if a.Some? && b.Some? && c.Some? { assert a.value + b.value + c.value == a.value + (b.value + c.value); }
    if c.Some? { assert [] + c.value == c.value && c.value + [] == c.value; }
  }

  lemma {:induction false} ExpandOn(a: seq<Piece>, b: seq<Piece>)
    ensures ExpandAll(a + b) == Both(ExpandAll(a), ExpandAll(b))
  {
    if a == [] {
      assert a + b == b;
      BothAssoc(None, None, ExpandAll(b));
    } else {
      assert (a + b)[1..] == a[1..] + b;
      ExpandOn(a[1..], b);
      BothAssoc(Expand(a[0]), ExpandAll(a[1..]), ExpandAll(b));
    }
  }

  /** The next piece, alone; if it aborts, so does the whole. */
  lemma ExpandNext(base: seq<Piece>, i: nat)
    requires i < |base|
    ensures ExpandAll(base[..i + 1]) == Both(ExpandAll(base[..i]), Expand(base[i]))
    ensures ExpandAll(base[..i + 1]).None? ==> ExpandAll(base).None?
  {
    TakeSnoc(base, i);
    ExpandOn(base[..i], [base[i]]);
    ExpandOne(base[i]);
    ExpandOn(base[..i + 1], base[i + 1..]);
    assert base == base[..i + 1] + base[i + 1..];
  }

  method NumberOn(source: string, out: seq<Chunk>, pieces: seq<Piece>) returns (out': seq<Chunk>)
    ensures out' == out + Number(source, |out|, pieces)
  {
    out' := out;
    for i := 0 to |pieces|
      invariant out' == out + Number(source, |out|, pieces[..i])
    {
      TakeSnoc(pieces, i);
      out' := out' + [Chunk(ChunkId(source, Trim(pieces[i].content)), |out'|, pieces[i].title, pieces[i].content)];
      assert Number(source, |out|, pieces[..i + 1])[..i] == Number(source, |out|, pieces[..i]);
    }
    assert pieces[..|pieces|] == pieces;
  }

  method SubdividePiece(p: Piece) returns (parts: Option<seq<Piece>>)
    ensures parts == Subdivide(p)
  {
    if |Lines(p.content)| > 1 {
      return Some(Parts(p.title, JoinWindows(Windows(Lines(p.content))), 0));
    }
    var contents := SplitLongLine(p.content);
    parts := if contents.None? then None else Some(Parts(p.title, contents.value, 0));
  }

  /** Markdown through to numbered chunks. */
  method ChunkText(source: string, src: string) returns (chunks: Option<seq<Chunk>>)
    ensures chunks == MarkdownChunks(source, src)
  {
    var base := ChunkMarkdown(src);
    var out: seq<Chunk> := [];
    ghost var all: seq<Piece> := [];
    for i := 0 to |base|
      invariant ExpandAll(base[..i]) == Some(all) && out == Number(source, 0, all)
    {
      ExpandNext(base, i);
      var parts := Some([base[i]]);
      if |Encode(base[i].content)| > MAX_CHUNK_BYTES {
        parts := SubdividePiece(base[i]);
      }
      if parts.None? {
        return None;
      }
      out := NumberOn(source, out, parts.value);
      NumberAppend(source, all, parts.value);
      all := all + parts.value;
    }
    assert base[..|base|] == base;
    chunks := Some(out);
  }

  lemma ExpandOne(p: Piece)
    ensures ExpandAll([p]) == Expand(p)
  {
    assert ExpandAll([p][1..]) == Some([]);
    BothAssoc(None, None, Expand(p));
  }

  lemma NumberAppend(source: string, a: seq<Piece>, b: seq<Piece>)
    ensures Number(source, 0, a + b) == Number(source, 0, a) + Number(source, |a|, b)
  {}

  // ---------------------------------------------------------------- headings are cut points

  /** The same chunks further down the document. */
  function Shift(d: nat, chunks: seq<Chunk>): (shifted: seq<Chunk>)
    ensures |shifted| == |chunks|
    ensures forall i :: 0 <= i < |chunks| ==> shifted[i] == chunks[i].(index := chunks[i].index + d)
  {
    seq(|chunks|, i requires 0 <= i < |chunks| => chunks[i].(index := chunks[i].index + d))
  }

  /** One document's chunks followed by another's; aborting in either aborts the whole. */
  function Followed(a: Option<seq<Chunk>>, b: Option<seq<Chunk>>): Option<seq<Chunk>> {
    if a.Some? && b.Some? then Some(a.value + Shift(|a.value|, b.value)) else None
  }

  lemma NumberFrom(source: string, n: nat, pieces: seq<Piece>)
    ensures Number(source, n, pieces) == Shift(n, Number(source, 0, pieces))
  {}

  lemma ChunksOn(source: string, a: seq<Piece>, b: seq<Piece>)
    ensures Chunks(source, a + b) == Followed(Chunks(source, a), Chunks(source, b))
  {
    ExpandOn(a, b);
    if ExpandAll(a).Some? && ExpandAll(b).Some? {
      NumberAppend(source, ExpandAll(a).value, ExpandAll(b).value);
      NumberFrom(source, |ExpandAll(a).value|, ExpandAll(b).value);
    }
  }

  lemma {:induction false} ChunksAreAtLeast(source: string, base: seq<Piece>)
    requires Chunks(source, base).Some?
    ensures |Chunks(source, base).value| >= |base|
  {
    if base != [] {
      ExpandIsNotEmpty(base[0]);
      ChunksAreAtLeast(source, base[1..]);
    }
  }

  /** Titles, contents and identities do not depend on what stands before the heading; indices are shifted. */
  lemma HeadingsAreCutPoints(source: string, a: string, b: string)
    requires EndsLine(a) && StartsWithHeading(b) && Sections(a) != [] && Sections(b) != []
    ensures MarkdownChunks(source, a + b) == Followed(MarkdownChunks(source, a), MarkdownChunks(source, b))
  {
    SectionsSplit(a, b);
    ChunksOn(source, Sections(a), Sections(b));
  }

  /** Exactly then: a side without sections falls back to its whole text, which the joint document does not do. */
  lemma BaseSplitsIff(a: string, b: string)
    requires EndsLine(a) && StartsWithHeading(b)
    ensures Base(a + b) == Base(a) + Base(b) <==> Sections(a) != [] && Sections(b) != []
  {
    SectionsSplit(a, b);
    if Base(a + b) == Base(a) + Base(b) { assert |Base(a + b)| == |Base(a)| + |Base(b)|; }
  }

  /** The same for numbered chunks, as soon as one side has sections. */
  lemma HeadingsAreCutPointsIff(source: string, a: string, b: string)
    requires EndsLine(a) && StartsWithHeading(b) && (Sections(a) != [] || Sections(b) != [])
    requires MarkdownChunks(source, a).Some? && MarkdownChunks(source, b).Some?
    ensures MarkdownChunks(source, a + b) == Followed(MarkdownChunks(source, a), MarkdownChunks(source, b))
            <==> Sections(a) != [] && Sections(b) != []
  {
    if Sections(a) != [] && Sections(b) != [] {
      HeadingsAreCutPoints(source, a, b);
    } else {
      SectionsSplit(a, b);
      ChunksAreAtLeast(source, Base(a));
      ChunksAreAtLeast(source, Base(b));
      assert Base(a + b) == if Sections(a) == [] then Base(b) else Base(a);
    }
  }
}
