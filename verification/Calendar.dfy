/**
 Epoch seconds to calendar text (packages/atlas-adapters/src/bridge.rs, `format_now_rfc3339` and
 `epoch_days_to_ymd`), against the proleptic Gregorian calendar of section 5.6 and Appendix C of RFC 3339.
 */
module Calendar {
  import opened Collections

  datatype Date = Date(y: int, m: int, d: int)

  predicate IsLeap(y: int) {
    y % 4 == 0 && (y % 100 != 0 || y % 400 == 0)
  }

  function DaysInMonth(y: int, m: int): int {
    if m == 2 then (if IsLeap(y) then 29 else 28)
    else if m == 4 || m == 6 || m == 9 || m == 11 then 30
    else 31
  }

  predicate Valid(x: Date) {
    1 <= x.m <= 12 && 1 <= x.d <= DaysInMonth(x.y, x.m)
  }

  /** Calendar successor. */
  function NextDay(x: Date): Date {
    if x.d < DaysInMonth(x.y, x.m) then Date(x.y, x.m, x.d + 1)
    else if x.m < 12 then Date(x.y, x.m + 1, 1)
    else Date(x.y + 1, 1, 1)
  }

  /** Reference: walk forward from 1 January 1970, day by day. */
  function Walk(n: nat): Date {
    if n == 0 then Date(1970, 1, 1) else NextDay(Walk(n - 1))
  }

  // ---------------------------------------------------------------- the conversion

  function YearOfEra(doe: int): int {
    (doe - doe / 1_460 + doe / 36_524 - doe / 146_096) / 365
  }

  /** Days from the start of an era (a 1 March) to the start of its March-based year `yoe`. */
  function YearStart(yoe: int): int {
    365 * yoe + yoe / 4 - yoe / 100
  }

  function MonthIndex(doy: int): int {
    (5 * doy + 2) / 153
  }

  function MonthStart(mp: int): int {
    (153 * mp + 2) / 5
  }

  function EpochDaysToYmd(epochDays: nat): Date {
    var days := epochDays + 719_468;
    var era := days / 146_097;
    var doe := days % 146_097;
    var yoe := YearOfEra(doe);
    var y := yoe + era * 400;
    var doy := doe - YearStart(yoe);
    var mp := MonthIndex(doy);
    var da := doy - MonthStart(mp) + 1;
    var mo := if mp < 10 then mp + 3 else mp - 9;
    Date(if mo <= 2 then y + 1 else y, mo, da)
  }

  /** Days from 1 January 1970 to a date. */
  function DaysFromCivil(x: Date): int {
    var y := if x.m <= 2 then x.y - 1 else x.y;
    var mp := if x.m > 2 then x.m - 3 else x.m + 9;
    (y / 400) * 146_097 + YearStart(y % 400) + MonthStart(mp) + x.d - 1 - 719_468
  }

  // ---------------------------------------------------------------- years of an era

  /** The March-based year `yoe` ends with the February of calendar year `yoe + 1`. */
  function YearLength(yoe: int): int {
    if IsLeap(yoe + 1) then 366 else 365
  }

  lemma YearsAreAdjacent(yoe: int)
    requires 0 <= yoe < 400
    ensures yoe < 399 ==> YearStart(yoe) + YearLength(yoe) == YearStart(yoe + 1)
    ensures yoe == 399 ==> YearStart(yoe) + YearLength(yoe) == 146_097
  {}

  /** Century, four-year block, year and day of a day of the era; the last block may run one day longer. */
  ghost predicate Splits(doe: int, c: int, q: int, r: int, k: int) {
    && doe == 36_524 * c + 1_461 * q + 365 * r + k
    && 0 <= c <= 3 && 0 <= q <= 24 && 0 <= r <= 3 && 0 <= k <= 365
    && (k == 365 ==> r == 3 && (q == 24 ==> c == 3))
  }

  lemma Split(doe: int) returns (c: int, q: int, r: int, k: int)
    requires 0 <= doe < 146_097
    ensures Splits(doe, c, q, r, k)
  {
    c := if doe == 146_096 then 3 else doe / 36_524;
    var cd := doe - 36_524 * c;
    assert 0 <= cd <= 36_524 && (cd == 36_524 ==> c == 3);
    q := cd / 1_461;
    var qd := cd - 1_461 * q;
    r := if qd == 1_460 then 3 else qd / 365;
    k := qd - 365 * r;
  }

  lemma YearStartOfSplit(c: int, q: int, r: int)
    requires 0 <= c <= 3 && 0 <= q <= 24 && 0 <= r <= 3
    ensures YearStart(100 * c + 4 * q + r) == 36_524 * c + 1_461 * q + 365 * r
  {
    var y := 100 * c + 4 * q + r;
    assert y / 4 == 25 * c + q;
    assert y / 100 == c;
  }

  lemma YearOfEraOfSplit(doe: int, c: int, q: int, r: int, k: int)
    requires Splits(doe, c, q, r, k)
    ensures YearOfEra(doe) == 100 * c + 4 * q + r
  {
    assert doe / 36_524 - doe / 146_096 == c;
    var e := 24 * c + q + 365 * r + k;
    assert doe == 1_460 * (25 * c + q) + e;
    var extra := if e >= 1_460 then 1 else 0;
    assert doe / 1_460 == 25 * c + q + extra;
    assert doe - doe / 1_460 + c == 365 * (100 * c + 4 * q + r) + (k - extra);
    assert 0 <= k - extra < 365;
  }

  /** The year formula finds the year that contains the day. */
  lemma YearOfEraContains(doe: int)
    requires 0 <= doe < 146_097
    ensures 0 <= YearOfEra(doe) < 400
    ensures YearStart(YearOfEra(doe)) <= doe < YearStart(YearOfEra(doe)) + YearLength(YearOfEra(doe))
  {
    var c, q, r, k := Split(doe);
    YearOfEraOfSplit(doe, c, q, r, k);
    YearStartOfSplit(c, q, r);
    if k == 365 {
      LeapAfterBlock(c, q);
    }
  }

  lemma LeapAfterBlock(c: int, q: int)
    requires 0 <= c <= 3 && 0 <= q <= 24 && (q == 24 ==> c == 3)
    ensures IsLeap(100 * c + 4 * q + 4)
  {
    var y := 100 * c + 4 * q + 4;
    assert y % 4 == 0;
    assert q < 24 ==> y % 100 == 4 * q + 4;
  }

  lemma {:induction false} YearStartsGrow(a: int, b: int)
    requires 0 <= a < b < 400
    ensures YearStart(a) + YearLength(a) <= YearStart(b)
    decreases b - a
  {
    YearsAreAdjacent(a);
    if a + 1 < b {
      YearStartsGrow(a + 1, b);
    }
  }

  /** Only one year of the era contains a day. */
  lemma YearIsUnique(doe: int, yoe: int)
    requires 0 <= doe < 146_097 && 0 <= yoe < 400
    requires YearStart(yoe) <= doe < YearStart(yoe) + YearLength(yoe)
    ensures YearOfEra(doe) == yoe
  {
    YearOfEraContains(doe);
    var found := YearOfEra(doe);
    if found < yoe {
      YearStartsGrow(found, yoe);
    } else if yoe < found {
      YearStartsGrow(yoe, found);
    }
  }

  // ---------------------------------------------------------------- months of a year

  /** Length of the March-based month `mp` of a year with `length` days. */
  function MonthLength(mp: int, length: int): int {
    if mp == 11 then length - 337 else if mp == 1 || mp == 3 || mp == 6 || mp == 8 then 30 else 31
  }

  lemma MonthContains(doy: int, length: int)
    requires 365 <= length <= 366 && 0 <= doy < length
    ensures 0 <= MonthIndex(doy) <= 11
    ensures MonthStart(MonthIndex(doy)) <= doy < MonthStart(MonthIndex(doy)) + MonthLength(MonthIndex(doy), length)
  {
    var mp := MonthIndex(doy);
    assert 153 * mp <= 5 * doy + 2 < 153 * mp + 153;
    assert 0 <= mp <= 11;
  }

  lemma MonthIsUnique(doy: int, mp: int, length: int)
    requires 365 <= length <= 366 && 0 <= mp <= 11
    requires MonthStart(mp) <= doy < MonthStart(mp) + MonthLength(mp, length)
    ensures 0 <= doy < length && MonthIndex(doy) == mp
  {
    assert 153 * mp <= 5 * doy + 2 < 153 * mp + 153;
  }

  // ---------------------------------------------------------------- the conversion is the calendar

  /** March-based year and month of a date. */
  function MarchYear(x: Date): int {
    if x.m <= 2 then x.y - 1 else x.y
  }

  function MarchMonth(x: Date): int {
    if x.m > 2 then x.m - 3 else x.m + 9
  }

  lemma LeapHasPeriod400(era: int, y: int)
    ensures IsLeap(400 * era + y) <==> IsLeap(y)
  {
    Period4(100 * era, y);
    Period100(4 * era, y);
    Period400(era, y);
  }

  lemma Period4(k: int, y: int)
    ensures (4 * k + y) % 4 == y % 4
  {}

  lemma Period100(k: int, y: int)
    ensures (100 * k + y) % 100 == y % 100
  {}

  lemma Period400(k: int, y: int)
    ensures (400 * k + y) % 400 == y % 400
  {}

  /** Month lengths seen from March agree with the calendar's. */
  lemma MonthLengthsAgree(x: Date)
    requires 1 <= x.m <= 12
    ensures DaysInMonth(x.y, x.m) == MonthLength(MarchMonth(x), YearLength(MarchYear(x) % 400))
  {
    if x.m == 2 {
      var y := MarchYear(x);
      LeapHasPeriod400(y / 400, y % 400 + 1);
      assert 400 * (y / 400) + (y % 400 + 1) == x.y;
    }
  }

  lemma EraDivision(era: int, yoe: int)
    requires 0 <= yoe < 400
    ensures (yoe + era * 400) / 400 == era && (yoe + era * 400) % 400 == yoe
  {}

  /** Every day count becomes a valid date that counts back to it. */
  lemma ConversionIsInverse(n: nat)
    ensures Valid(EpochDaysToYmd(n))
    ensures DaysFromCivil(EpochDaysToYmd(n)) == n
  {
    var days := n + 719_468;
    var era, doe := days / 146_097, days % 146_097;
    YearOfEraContains(doe);
    var yoe := YearOfEra(doe);
    var doy := doe - YearStart(yoe);
    MonthContains(doy, YearLength(yoe));
    var x := EpochDaysToYmd(n);
    EraDivision(era, yoe);
    assert MarchYear(x) == yoe + era * 400 && MarchMonth(x) == MonthIndex(doy);
    MonthLengthsAgree(x);
  }

  /** Position of a date in its era: the March-based year and month are found again from the day. */
  lemma DayOfEra(x: Date, yoe: int, doy: int)
    requires Valid(x) && yoe == MarchYear(x) % 400 && doy == MonthStart(MarchMonth(x)) + x.d - 1
    ensures 0 <= YearStart(yoe) + doy < 146_097
    ensures YearOfEra(YearStart(yoe) + doy) == yoe && MonthIndex(doy) == MarchMonth(x)
  {
    MonthLengthsAgree(x);
    MonthIsUnique(doy, MarchMonth(x), YearLength(yoe));
    YearsAreAdjacent(yoe);
    assert YearStart(yoe) + YearLength(yoe) <= 146_097 by {
      if yoe < 399 { YearStartsGrow(yoe, 399); YearsAreAdjacent(399); }
    }
    YearIsUnique(YearStart(yoe) + doy, yoe);
  }

  /** Every valid date from 1970 on comes back from its day count. */
  lemma ConversionRoundTrip(x: Date)
    requires Valid(x) && DaysFromCivil(x) >= 0
    ensures EpochDaysToYmd(DaysFromCivil(x)) == x
  {
    var y := MarchYear(x);
    var doy := MonthStart(MarchMonth(x)) + x.d - 1;
    DayOfEra(x, y % 400, doy);
    Recombine(y / 400, YearStart(y % 400) + doy, DaysFromCivil(x));
  }

  lemma Recombine(era: int, doe: int, n: int)
    requires 0 <= doe < 146_097 && n + 719_468 == era * 146_097 + doe
    ensures (n + 719_468) / 146_097 == era && (n + 719_468) % 146_097 == doe
  {}

  lemma AfterMonth(x: Date)
    requires Valid(x) && x.d == DaysInMonth(x.y, x.m) && x.m != 2
    ensures Valid(NextDay(x)) && DaysFromCivil(NextDay(x)) == DaysFromCivil(x) + 1
  {
    MonthLengthsAgree(x);
    assert MarchYear(NextDay(x)) == MarchYear(x) && MarchMonth(NextDay(x)) == MarchMonth(x) + 1;
  }

  lemma NextYearInEra(y: int)
    ensures if y % 400 == 399 then (y + 1) / 400 == y / 400 + 1 && (y + 1) % 400 == 0
            else (y + 1) / 400 == y / 400 && (y + 1) % 400 == y % 400 + 1
  {}

  lemma AfterFebruary(x: Date)
    requires Valid(x) && x.d == DaysInMonth(x.y, x.m) && x.m == 2
    ensures Valid(NextDay(x)) && DaysFromCivil(NextDay(x)) == DaysFromCivil(x) + 1
  {
    MonthLengthsAgree(x);
    YearsAreAdjacent(MarchYear(x) % 400);
    NextYearInEra(MarchYear(x));
    assert NextDay(x) == Date(MarchYear(x) + 1, 3, 1);
  }

  /** The day after a valid date is a valid date one day later. */
  lemma NextDayIsOneLater(x: Date)
    requires Valid(x)
    ensures Valid(NextDay(x)) && DaysFromCivil(NextDay(x)) == DaysFromCivil(x) + 1
  {
    if x.d == DaysInMonth(x.y, x.m) {
      if x.m == 2 { AfterFebruary(x); } else { AfterMonth(x); }
    }
  }

  /** Day `n + 1` is the calendar successor of day `n`. */
  lemma ConversionStep(n: nat)
    ensures EpochDaysToYmd(n + 1) == NextDay(EpochDaysToYmd(n))
  {
    var x := EpochDaysToYmd(n);
    ConversionIsInverse(n);
    NextDayIsOneLater(x);
    ConversionRoundTrip(NextDay(x));
  }

  lemma ConversionOfDayZero()
    ensures EpochDaysToYmd(0) == Date(1970, 1, 1)
  {
    assert 719_468 / 146_097 == 4 && 719_468 % 146_097 == 135_080;
    assert YearOfEra(135_080) == 369 by {
      assert 135_080 / 1_460 == 92 && 135_080 / 36_524 == 3 && 135_080 / 146_096 == 0;
      assert 134_991 / 365 == 369;
    }
    assert YearStart(369) == 134_774;
    assert MonthIndex(306) == 10 && MonthStart(10) == 306;
  }

  /** The arithmetic is the calendar: day `n` is what walking `n` days from 1 January 1970 reaches. */
  lemma {:induction false} ConversionIsWalk(n: nat)
    ensures EpochDaysToYmd(n) == Walk(n)
  {
    if n == 0 {
      ConversionOfDayZero();
    } else {
      ConversionIsWalk(n - 1);
      ConversionStep(n - 1);
    }
  }

  // ---------------------------------------------------------------- text

  function Zeros(k: nat): string {
    seq(k, i => '0')
  }

  /** Zero-padded decimal, never truncated. */
  function Pad(n: nat, width: nat): string {
    var digits := Decimal(n);
    if |digits| < width then Zeros(width - |digits|) + digits else digits
  }

  /** One field of the timestamp: a number, its width, and the text after it. */
  datatype Field = Field(value: nat, width: nat, tail: string)

  function Render(fields: seq<Field>): string {
    if fields == [] then ""
    else Pad(fields[0].value, fields[0].width) + fields[0].tail + Render(fields[1..])
  }

  function Fields(secs: nat): seq<Field> {
    ConversionIsInverse(secs / 86_400);
    var x := EpochDaysToYmd(secs / 86_400);
    YearIsPositive(secs / 86_400);
    Stamp(x, (secs / 3_600) % 24, (secs / 60) % 60, secs % 60)
  }

  function Stamp(x: Date, h: nat, mi: nat, s: nat): seq<Field>
    requires x.y >= 0 && x.m >= 0 && x.d >= 0
  {
    [Field(x.y, 4, "-"), Field(x.m, 2, "-"), Field(x.d, 2, "T"), Field(h, 2, ":"), Field(mi, 2, ":"), Field(s, 2, "Z")]
  }

  function FormatRfc3339(secs: nat): string {
    Render(Fields(secs))
  }

  lemma YearIsPositive(n: nat)
    ensures EpochDaysToYmd(n).y > 0
  {
    YearOfEraContains((n + 719_468) % 146_097);
  }

  function Pow10(w: nat): nat {
    if w == 0 then 1 else 10 * Pow10(w - 1)
  }

  lemma {:induction false} PadSnoc(n: nat, w: nat)
    requires w >= 2
    ensures Pad(n, w) == Pad(n / 10, w - 1) + [Digit(n % 10)]
  {
    if n < 10 {
      assert Decimal(n) == [Digit(n)] && Decimal(n / 10) == [Digit(0)];
      assert Zeros(w - 1) == Zeros(w - 2) + "0";
      assert Pad(n / 10, w - 1) == Zeros(w - 1);
    } else {
      var more := Decimal(n / 10);
      if |more| < w - 1 {
        assert Zeros(w - 1 - |more|) + (more + [Digit(n % 10)]) == Zeros(w - 1 - |more|) + more + [Digit(n % 10)];
      }
    }
  }

  /** Padded numbers of one width have that width and sort as the numbers do. */
  lemma {:induction false} PadSorts(a: nat, b: nat, w: nat)
    requires w >= 1 && a <= b < Pow10(w)
    ensures |Pad(a, w)| == w && |Pad(b, w)| == w
    ensures a < b ==> LexLess(Pad(a, w), Pad(b, w))
  {
    if w == 1 {
      assert Pow10(1) == 10;
    } else {
      assert a / 10 <= b / 10 < Pow10(w - 1);
      PadSorts(a / 10, b / 10, w - 1);
      PadSnoc(a, w);
      PadSnoc(b, w);
      if a / 10 < b / 10 {
        LexDecided(Pad(a / 10, w - 1), Pad(b / 10, w - 1), [Digit(a % 10)], [Digit(b % 10)]);
      } else if a < b {
        LexCommonPrefix(Pad(a / 10, w - 1), [Digit(a % 10)], [Digit(b % 10)]);
      }
    }
  }

  /** Two field lists with the same layout whose values fit their widths. */
  ghost predicate SameLayout(fs: seq<Field>, gs: seq<Field>) {
    |fs| == |gs| && forall i :: 0 <= i < |fs| ==>
      && fs[i].width == gs[i].width >= 1 && fs[i].tail == gs[i].tail
      && fs[i].value < Pow10(fs[i].width) && gs[i].value < Pow10(gs[i].width)
  }

  ghost predicate Earlier(fs: seq<Field>, gs: seq<Field>)
    requires |fs| == |gs|
  {
    fs != [] && (fs[0].value < gs[0].value || (fs[0].value == gs[0].value && Earlier(fs[1..], gs[1..])))
  }

  lemma {:induction false} RenderSorts(fs: seq<Field>, gs: seq<Field>)
    requires SameLayout(fs, gs) && Earlier(fs, gs)
    ensures LexLess(Render(fs), Render(gs))
  {
    var f, g := fs[0], gs[0];
    var fr, gr := Render(fs[1..]), Render(gs[1..]);
    PadSorts(f.value, g.value, f.width);
    if f.value < g.value {
      LexDecided(Pad(f.value, f.width), Pad(g.value, g.width), f.tail + fr, g.tail + gr);
      assert Pad(f.value, f.width) + (f.tail + fr) == Render(fs);
      assert Pad(g.value, g.width) + (g.tail + gr) == Render(gs);
    } else {
      RenderSorts(fs[1..], gs[1..]);
      LexCommonPrefix(Pad(f.value, f.width) + f.tail, fr, gr);
    }
  }

  // ---------------------------------------------------------------- reading a timestamp

  lemma {:induction false} ZerosAreNought(k: nat, s: string)
    ensures Number(Zeros(k) + s) == Number(s)
  {
    if s != "" {
      assert (Zeros(k) + s)[..k + |s| - 1] == Zeros(k) + s[..|s| - 1];
      ZerosAreNought(k, s[..|s| - 1]);
    } else if k > 0 {
      assert (Zeros(k) + s)[..k - 1] == Zeros(k - 1) + s;
      ZerosAreNought(k - 1, s);
    }
  }

  lemma PadIsRead(n: nat, width: nat)
    ensures IsDigits(Pad(n, width)) && Number(Pad(n, width)) == n && |Pad(n, width)| >= width
  {
    DecimalIsRead(n);
    if |Decimal(n)| < width { ZerosAreNought(width - |Decimal(n)|, Decimal(n)); }
  }

  lemma TwoDigits(n: nat)
    requires n < 100
    ensures IsDigits(Pad(n, 2)) && Number(Pad(n, 2)) == n && |Pad(n, 2)| == 2
  {
    PadIsRead(n, 2);
    assert Pow10(0) == 1 && Pow10(1) == 10 && Pow10(2) == 100;
    PadSorts(n, n, 2);
  }

  /** Six numbers with their separators. */
  function Text(y: string, m: string, d: string, h: string, mi: string, s: string): string {
    y + "-" + (m + "-" + (d + "T" + (h + ":" + (mi + ":" + (s + "Z")))))
  }

  lemma RenderMore(f: Field, rest: seq<Field>)
    ensures Render([f] + rest) == Pad(f.value, f.width) + f.tail + Render(rest)
  {
    assert ([f] + rest)[1..] == rest;
  }

  lemma StampText(x: Date, h: nat, mi: nat, s: nat)
    requires x.y >= 0 && x.m >= 0 && x.d >= 0
    ensures Render(Stamp(x, h, mi, s)) == Text(Pad(x.y, 4), Pad(x.m, 2), Pad(x.d, 2), Pad(h, 2), Pad(mi, 2), Pad(s, 2))
  {
    var f := Stamp(x, h, mi, s);
    assert f == [f[0]] + f[1..] && f[1..] == [f[1]] + f[2..] && f[2..] == [f[2]] + f[3..];
    assert f[3..] == [f[3]] + f[4..] && f[4..] == [f[4]] + f[5..] && f[5..] == [f[5]] + [];
    RenderMore(f[0], f[1..]);
    RenderMore(f[1], f[2..]);
    RenderMore(f[2], f[3..]);
    RenderMore(f[3], f[4..]);
    RenderMore(f[4], f[5..]);
    RenderMore(f[5], []);
    assert Pad(s, 2) + "Z" + "" == Pad(s, 2) + "Z";
  }

  /** The digits of a timestamp, read as numbers, are the calendar date of the day and the time within the day. */
  ghost predicate Reads(secs: nat, y: string, m: string, d: string, h: string, mi: string, s: string) {
    && IsDigits(y + m + d + h + mi + s) && |y| >= 4 && |m| == |d| == |h| == |mi| == |s| == 2
    && Walk(secs / 86_400) == Date(Number(y), Number(m), Number(d))
    && 0 <= Number(h) < 24 && 0 <= Number(mi) < 60 && 0 <= Number(s) < 60
    && 3_600 * Number(h) + 60 * Number(mi) + Number(s) == secs % 86_400
  }

  lemma PaddedReads(secs: nat, x: Date, h: nat, mi: nat, s: nat)
    requires x.y >= 0 && 0 <= x.m < 100 && 0 <= x.d < 100 && h < 24 && mi < 60 && s < 60
    requires Walk(secs / 86_400) == x && 3_600 * h + 60 * mi + s == secs % 86_400
    ensures Reads(secs, Pad(x.y, 4), Pad(x.m, 2), Pad(x.d, 2), Pad(h, 2), Pad(mi, 2), Pad(s, 2))
  {
    PadIsRead(x.y, 4);
    TwoDigits(x.m);
    TwoDigits(x.d);
    TwoDigits(h);
    TwoDigits(mi);
    TwoDigits(s);
  }

  /** A timestamp is the text of numbers that read back as the second it was made from, for every second. */
  lemma FormatIsRead(secs: nat)
    ensures exists y, m, d, h, mi, s ::
              FormatRfc3339(secs) == Text(y, m, d, h, mi, s) && Reads(secs, y, m, d, h, mi, s)
  {
    var x := EpochDaysToYmd(secs / 86_400);
    var h, mi, s := (secs / 3_600) % 24, (secs / 60) % 60, secs % 60;
    ConversionIsInverse(secs / 86_400);
    YearIsPositive(secs / 86_400);
    ConversionIsWalk(secs / 86_400);
    TimeOfDay(secs);
    StampText(x, h, mi, s);
    PaddedReads(secs, x, h, mi, s);
  }

  // ---------------------------------------------------------------- text order is time order

  predicate DateLess(a: Date, b: Date) {
    a.y < b.y || (a.y == b.y && (a.m < b.m || (a.m == b.m && a.d < b.d)))
  }

  lemma {:induction false} WalkAscends(n: nat, k: nat)
    requires n < k
    ensures DateLess(Walk(n), Walk(k))
  {
    if n < k - 1 {
      WalkAscends(n, k - 1);
    }
    assert DateLess(Walk(k - 1), NextDay(Walk(k - 1)));
  }

  lemma LaterDaysAreLaterDates(n: nat, k: nat)
    requires n < k
    ensures DateLess(EpochDaysToYmd(n), EpochDaysToYmd(k))
  {
    ConversionIsWalk(n);
    ConversionIsWalk(k);
    WalkAscends(n, k);
  }

  /** 31 December 9999 is day 2932896. */
  const LAST_DAY: nat := 2_932_896
  const LAST_SECOND: nat := 253_402_300_799

  lemma LastDay()
    ensures EpochDaysToYmd(LAST_DAY) == Date(9999, 12, 31)
  {
    assert (LAST_DAY + 719_468) / 146_097 == 24;
    assert (LAST_DAY + 719_468) % 146_097 == 146_036;
  }

  lemma FourDigitYears(n: nat)
    ensures EpochDaysToYmd(n).y <= 9999 <==> n <= LAST_DAY
  {
    LastDay();
    if n < LAST_DAY {
      LaterDaysAreLaterDates(n, LAST_DAY);
    } else if n > LAST_DAY {
      ConversionStep(LAST_DAY);
      if n > LAST_DAY + 1 {
        LaterDaysAreLaterDates(LAST_DAY + 1, n);
      }
    }
  }

  lemma TimeOfDay(secs: nat)
    ensures secs == 86_400 * (secs / 86_400) + 3_600 * ((secs / 3_600) % 24) + 60 * ((secs / 60) % 60) + secs % 60
  {
    assert secs / 3_600 == (secs / 60) / 60;
    assert secs / 86_400 == (secs / 3_600) / 24;
  }

  lemma FieldsFit(secs: nat)
    requires secs <= LAST_SECOND
    ensures forall i :: 0 <= i < |Fields(secs)| ==> Fields(secs)[i].value < Pow10(Fields(secs)[i].width)
  {
    assert Pow10(0) == 1 && Pow10(1) == 10 && Pow10(2) == 100 && Pow10(3) == 1000 && Pow10(4) == 10000;
    FourDigitYears(secs / 86_400);
    ConversionIsInverse(secs / 86_400);
  }

  predicate ClockLess(h: int, mi: int, s: int, h': int, mi': int, s': int) {
    h < h' || (h == h' && (mi < mi' || (mi == mi' && s < s')))
  }

  lemma LaterClock(s: nat, t: nat)
    requires s < t && s / 86_400 == t / 86_400
    ensures ClockLess((s / 3_600) % 24, (s / 60) % 60, s % 60, (t / 3_600) % 24, (t / 60) % 60, t % 60)
  {
    TimeOfDay(s);
    TimeOfDay(t);
  }

  lemma LaterStamp(x: Date, h: nat, mi: nat, s: nat, x': Date, h': nat, mi': nat, s': nat)
    requires x.y >= 0 && x.m >= 0 && x.d >= 0 && x'.y >= 0 && x'.m >= 0 && x'.d >= 0
    requires DateLess(x, x') || (x == x' && ClockLess(h, mi, s, h', mi', s'))
    ensures Earlier(Stamp(x, h, mi, s), Stamp(x', h', mi', s'))
  {
    var a, b := Stamp(x, h, mi, s), Stamp(x', h', mi', s');
    assert a[1..][1..] == a[2..] && a[2..][1..] == a[3..] && a[3..][1..] == a[4..] && a[4..][1..] == a[5..];
    assert b[1..][1..] == b[2..] && b[2..][1..] == b[3..] && b[3..][1..] == b[4..] && b[4..][1..] == b[5..];
    assert s < s' ==> Earlier(a[5..], b[5..]);
    assert mi < mi' || (mi == mi' && s < s') ==> Earlier(a[4..], b[4..]);
    assert ClockLess(h, mi, s, h', mi', s') ==> Earlier(a[3..], b[3..]);
  }

  lemma FieldsAscend(s: nat, t: nat)
    requires s < t
    ensures Earlier(Fields(s), Fields(t))
  {
    var x, y := EpochDaysToYmd(s / 86_400), EpochDaysToYmd(t / 86_400);
    ConversionIsInverse(s / 86_400);
    ConversionIsInverse(t / 86_400);
    YearIsPositive(s / 86_400);
    YearIsPositive(t / 86_400);
    if s / 86_400 < t / 86_400 {
      LaterDaysAreLaterDates(s / 86_400, t / 86_400);
    } else {
      LaterClock(s, t);
    }
    LaterStamp(x, (s / 3_600) % 24, (s / 60) % 60, s % 60, y, (t / 3_600) % 24, (t / 60) % 60, t % 60);
  }

  lemma LaterText(s: nat, t: nat)
    requires s < t <= LAST_SECOND
    ensures LexLess(FormatRfc3339(s), FormatRfc3339(t))
  {
    FieldsFit(s);
    FieldsFit(t);
    FieldsAscend(s, t);
    assert SameLayout(Fields(s), Fields(t));
    RenderSorts(Fields(s), Fields(t));
  }

  /** Up to the last second of the year 9999, timestamps sort exactly as the seconds do. */
  lemma TextOrderIsTimeOrder(s: nat, t: nat)
    requires s <= LAST_SECOND && t <= LAST_SECOND
    ensures LexLess(FormatRfc3339(s), FormatRfc3339(t)) <==> s < t
  {
    if s < t {
      LaterText(s, t);
    } else if t < s {
      LaterText(t, s);
      LexAsymmetric(FormatRfc3339(t), FormatRfc3339(s));
    } else {
      LexTrichotomy(FormatRfc3339(s), FormatRfc3339(t));
    }
  }

  /** The bound is sharp: one second later the text starts with a smaller digit. */
  lemma TextOrderBreaksAfterYear9999()
    ensures LexLess(FormatRfc3339(LAST_SECOND + 1), FormatRfc3339(LAST_SECOND))
  {
    LastDay();
    ConversionStep(LAST_DAY);
    assert (LAST_SECOND + 1) / 86_400 == LAST_DAY + 1 && LAST_SECOND / 86_400 == LAST_DAY;
    var late, last := Fields(LAST_SECOND + 1), Fields(LAST_SECOND);
    assert late[0].value == 10_000 && last[0].value == 9_999;
    assert Decimal(10_000)[0] == '1' && Decimal(9_999)[0] == '9' by { LeadingDigit(); }
    assert |Decimal(10_000)| == 5 && |Decimal(9_999)| == 4 by { LeadingDigit(); }
    assert Render(late)[0] == '1' && Render(last)[0] == '9';
  }

  lemma LeadingDigit()
    ensures Decimal(10_000)[0] == '1' && |Decimal(10_000)| == 5
    ensures Decimal(9_999)[0] == '9' && |Decimal(9_999)| == 4
  {
    assert Decimal(1) == "1";
    assert Decimal(10) == "10" && Decimal(100) == "100" && Decimal(1_000) == "1000";
    assert Decimal(9) == "9";
    assert Decimal(99) == "99" && Decimal(999) == "999";
  }
}
