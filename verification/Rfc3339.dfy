/** The timestamp text kept in `queue_items`.

    `chrono` writes a UTC instant as `YYYY-MM-DDTHH:MM:SS`, then nothing or a
    fraction of 3, 6 or 9 digits, then `+00:00`.  SQLite compares these texts
    byte by byte.  Section 5.1 of RFC 3339 only promises that text order is time
    order for equal fraction widths; here widths vary, and the order survives
    because `'+' < '.' < '0'`. */
module Rfc3339 {
  import opened Common

  const NANOS_PER_SECOND := 1_000_000_000
  const SECONDS_PER_DAY := 86_400
  const DAYS_IN_RANGE := 3_652_425 // 0000-01-01 up to and including 9999-12-31

  /** Nanoseconds since 0000-01-01T00:00:00Z, for every four-digit year. */
  type Instant = t: int | 0 <= t < DAYS_IN_RANGE * SECONDS_PER_DAY * NANOS_PER_SECOND witness 0

  predicate InRange(t: int) {
    0 <= t < DAYS_IN_RANGE * SECONDS_PER_DAY * NANOS_PER_SECOND
  }

  // ── the order SQLite uses on TEXT ────────────────────────────────────

  predicate TextLess(a: string, b: string) {
    b != "" && (a == "" || a[0] < b[0] || (a[0] == b[0] && TextLess(a[1..], b[1..])))
  }

  lemma {:induction false} TextLessIsStrict(a: string, b: string)
    requires TextLess(a, b)
    ensures a != b && !TextLess(b, a)
  {
    if a != "" && a[0] == b[0] {
      TextLessIsStrict(a[1..], b[1..]);
    }
  }

  lemma {:induction false} TextLessIsTransitive(a: string, b: string, c: string)
    requires TextLess(a, b) && TextLess(b, c)
    ensures TextLess(a, c)
  {
    if a != "" && a[0] == b[0] && b[0] == c[0] {
      TextLessIsTransitive(a[1..], b[1..], c[1..]);
    }
  }

  lemma {:induction false} TextLessIsTotal(a: string, b: string)
    ensures a == b || TextLess(a, b) || TextLess(b, a)
  {
    if a != "" && b != "" && a[0] == b[0] {
      TextLessIsTotal(a[1..], b[1..]);
      assert a == [a[0]] + a[1..] && b == [b[0]] + b[1..];
    }
  }

  lemma {:induction false} TextLessByHead(p: string, q: string, x: string, y: string)
    requires |p| == |q|
    requires TextLess(p, q) || (p == q && TextLess(x, y))
    ensures TextLess(p + x, q + y)
  {
    if p == "" {
      assert p + x == x && q + y == y;
    } else {
      assert (p + x)[1..] == p[1..] + x && (q + y)[1..] == q[1..] + y;
      if p[0] == q[0] {
        TextLessByHead(p[1..], q[1..], x, y);
      }
    }
  }

  // ── fixed-width decimal fields ───────────────────────────────────────

  function Pow10(w: nat): (r: nat)
    ensures r > 0
  {
    if w == 0 then 1 else 10 * Pow10(w - 1)
  }

  predicate IsDigit(c: char) {
    '0' <= c <= '9'
  }

  predicate AllDigits(s: string) {
    forall i :: 0 <= i < |s| ==> IsDigit(s[i])
  }

  function Digits(w: nat, n: nat): (s: string)
    ensures |s| == w
    ensures AllDigits(s)
  {
    if w == 0 then "" else Digits(w - 1, n / 10) + ['0' + (n % 10) as char]
  }

  function Number(s: string): nat
    requires AllDigits(s)
  {
    if s == "" then 0 else 10 * Number(s[..|s| - 1]) + (s[|s| - 1] as int - '0' as int)
  }

  lemma {:induction false} NumberInvertsDigits(w: nat, n: nat)
    requires n < Pow10(w)
    ensures Number(Digits(w, n)) == n
  {
    if w == 0 {
    } else {
      NumberInvertsDigits(w - 1, n / 10);
      var s := Digits(w, n);
      assert s[..|s| - 1] == Digits(w - 1, n / 10);
    }
  }

  lemma {:induction false} DigitsOrder(w: nat, a: nat, b: nat)
    requires a < b < Pow10(w)
    ensures TextLess(Digits(w, a), Digits(w, b))
  {
    if w == 0 {
    } else {
      var x, y := ['0' + (a % 10) as char], ['0' + (b % 10) as char];
      if a / 10 < b / 10 {
        DigitsOrder(w - 1, a / 10, b / 10);
      } else {
        assert a % 10 < b % 10;
      }
      TextLessByHead(Digits(w - 1, a / 10), Digits(w - 1, b / 10), x, y);
    }
  }

  // ── whole quotients ──────────────────────────────────────────────────

  lemma MulGrows(u: nat, a: int, b: int)
    ensures a <= b ==> u * a <= u * b
  {
  }

  lemma QuotientIs(n: nat, unit: nat, q: nat, r: nat)
    requires n == unit * q + r && r < unit
    ensures n / unit == q && n % unit == r
  {
    var (q', r') := (n / unit, n % unit);
    assert n == unit * q' + r';
    MulGrows(unit, q + 1, q');
    MulGrows(unit, q' + 1, q);
  }

  // ── the calendar ─────────────────────────────────────────────────────

  predicate IsLeap(y: nat) {
    y % 4 == 0 && (y % 100 != 0 || y % 400 == 0)
  }

  function YearLength(y: nat): nat {
    if IsLeap(y) then 366 else 365
  }

  /** Days from 0000-01-01 to the first of January of year `y`. */
  function DaysBeforeYear(y: nat): nat {
    365 * y + (y + 3) / 4 - (y + 99) / 100 + (y + 399) / 400
  }

  lemma CeilingStep(y: nat, n: nat)
    requires n > 0
    ensures (y + n) / n == (y + n - 1) / n + (if y % n == 0 then 1 else 0)
  {
    var (q, r) := (y / n, y % n);
    assert y == n * q + r;
    assert n * (q + 1) == n * q + n;
    QuotientIs(y + n, n, q + 1, r);
    if r == 0 {
      QuotientIs(y + n - 1, n, q, n - 1);
    } else {
      QuotientIs(y + n - 1, n, q + 1, r - 1);
    }
  }

  lemma MultiplesNest(y: nat, n: nat, k: nat)
    requires n > 0 && k > 0 && y % (n * k) == 0
    ensures y % n == 0
  {
    var q := y / (n * k);
    assert y == (n * k) * q == n * (k * q);
    QuotientIs(y, n, k * q, 0);
  }

  lemma YearLengthIsDifference(y: nat)
    ensures DaysBeforeYear(y + 1) == DaysBeforeYear(y) + YearLength(y)
  {
    CeilingStep(y, 4);
    CeilingStep(y, 100);
    CeilingStep(y, 400);
    if y % 400 == 0 { MultiplesNest(y, 100, 4); }
    if y % 100 == 0 { MultiplesNest(y, 4, 25); }
  }

  lemma {:induction false} DaysBeforeYearGrows(a: nat, b: nat)
    requires a < b
    ensures DaysBeforeYear(a + 1) <= DaysBeforeYear(b)
    decreases b
  {
    if a + 1 < b {
      DaysBeforeYearGrows(a, b - 1);
      YearLengthIsDifference(b - 1);
    }
  }

  lemma LastYear(y: nat)
    ensures y >= 10000 ==> DaysBeforeYear(y) >= DAYS_IN_RANGE
  {
    if y > 10000 { DaysBeforeYearGrows(9999, y); }
  }

  function YearFrom(day: nat, y: nat): (r: nat)
    requires DaysBeforeYear(y) <= day
    ensures y <= r && DaysBeforeYear(r) <= day < DaysBeforeYear(r + 1)
    decreases day - DaysBeforeYear(y)
  {
    YearLengthIsDifference(y);
    if day < DaysBeforeYear(y + 1) then y else YearFrom(day, y + 1)
  }

  function YearOf(day: nat): (r: nat)
    ensures DaysBeforeYear(r) <= day < DaysBeforeYear(r + 1)
  {
    YearFrom(day, 0)
  }

  function DaysInMonth(y: nat, m: nat): nat
    requires 1 <= m <= 12
  {
    if m == 2 then (if IsLeap(y) then 29 else 28)
    else if m == 4 || m == 6 || m == 9 || m == 11 then 30
    else 31
  }

  function DaysBeforeMonth(y: nat, m: nat): nat
    requires 1 <= m <= 13
  {
    if m == 1 then 0 else DaysBeforeMonth(y, m - 1) + DaysInMonth(y, m - 1)
  }

  lemma MonthsFillYear(y: nat)
    ensures DaysBeforeMonth(y, 13) == YearLength(y)
  {
    assert DaysBeforeMonth(y, 2) == 31;
    assert DaysBeforeMonth(y, 3) == 31 + DaysInMonth(y, 2);
    assert DaysBeforeMonth(y, 5) == DaysBeforeMonth(y, 3) + 61;
    assert DaysBeforeMonth(y, 7) == DaysBeforeMonth(y, 5) + 61;
    assert DaysBeforeMonth(y, 9) == DaysBeforeMonth(y, 7) + 62;
    assert DaysBeforeMonth(y, 11) == DaysBeforeMonth(y, 9) + 61;
    assert DaysBeforeMonth(y, 13) == DaysBeforeMonth(y, 11) + 61;
  }

  lemma {:induction false} DaysBeforeMonthGrows(y: nat, a: nat, b: nat)
    requires 1 <= a < b <= 13
    ensures DaysBeforeMonth(y, a + 1) <= DaysBeforeMonth(y, b)
    decreases b
  {
    if a + 1 < b {
      DaysBeforeMonthGrows(y, a, b - 1);
    }
  }

  function MonthFrom(y: nat, ordinal: nat, m: nat): (r: nat)
    requires 1 <= m <= 12 && DaysBeforeMonth(y, m) <= ordinal < YearLength(y)
    ensures m <= r <= 12 && DaysBeforeMonth(y, r) <= ordinal < DaysBeforeMonth(y, r + 1)
    decreases 12 - m
  {
    MonthsFillYear(y);
    if ordinal < DaysBeforeMonth(y, m + 1) then m else MonthFrom(y, ordinal, m + 1)
  }

  /** A calendar date; `day` counts from 1. */
  datatype Date = Date(year: nat, month: nat, day: nat)

  predicate ValidDate(d: Date) {
    d.year <= 9999 && 1 <= d.month <= 12 && 1 <= d.day <= DaysInMonth(d.year, d.month)
  }

  function DayNumber(d: Date): nat
    requires ValidDate(d)
  {
    DaysBeforeYear(d.year) + DaysBeforeMonth(d.year, d.month) + d.day - 1
  }

  function DateOf(day: nat): (d: Date)
    requires day < DAYS_IN_RANGE
    ensures ValidDate(d) && DayNumber(d) == day
  {
    var y := YearOf(day);
    LastYear(y);
    YearLengthIsDifference(y);
    var ordinal := day - DaysBeforeYear(y);
    var m := MonthFrom(y, ordinal, 1);
    Date(y, m, ordinal - DaysBeforeMonth(y, m) + 1)
  }

  predicate DateBefore(a: Date, b: Date) {
    a.year < b.year
    || (a.year == b.year && (a.month < b.month || (a.month == b.month && a.day < b.day)))
  }

  /** The calendar order of valid dates is the order of their day numbers. */
  lemma DayNumberOrder(a: Date, b: Date)
    requires ValidDate(a) && ValidDate(b) && DateBefore(a, b)
    ensures DayNumber(a) < DayNumber(b)
  {
    if a.year < b.year {
      DaysBeforeYearGrows(a.year, b.year);
      YearLengthIsDifference(a.year);
      MonthsFillYear(a.year);
      if a.month < 12 { DaysBeforeMonthGrows(a.year, a.month, 13); }
    } else if a.month < b.month {
      DaysBeforeMonthGrows(a.year, a.month, b.month);
    }
  }

  lemma DayInRange(d: Date)
    requires ValidDate(d)
    ensures DayNumber(d) < DAYS_IN_RANGE
  {
    assert DaysBeforeYear(10000) == DAYS_IN_RANGE;
    DaysBeforeYearGrows(d.year, 10000);
    YearLengthIsDifference(d.year);
    MonthsFillYear(d.year);
    if d.month < 12 { DaysBeforeMonthGrows(d.year, d.month, 13); }
  }

  // ── writing ──────────────────────────────────────────────────────────

  const OFFSET := "+00:00"

  function Triple(w: nat, sep: string, a: nat, b: nat, c: nat): string {
    Digits(w, a) + sep + Digits(2, b) + sep + Digits(2, c)
  }

  function DateText(day: nat): (s: string)
    requires day < DAYS_IN_RANGE
    ensures |s| == 10
  {
    var d := DateOf(day);
    Triple(4, "-", d.year, d.month, d.day)
  }

  function ClockText(second: nat): (s: string)
    requires second < SECONDS_PER_DAY
    ensures |s| == 8
  {
    Triple(2, ":", second / 3600, second / 60 % 60, second % 60)
  }

  function SecondText(second: nat): (s: string)
    requires second < DAYS_IN_RANGE * SECONDS_PER_DAY
    ensures |s| == 19
  {
    DateText(second / SECONDS_PER_DAY) + "T" + ClockText(second % SECONDS_PER_DAY)
  }

  /** `SecondsFormat::AutoSi`: the narrowest of 0, 3, 6 and 9 digits that loses nothing. */
  function FractionText(nanos: nat): string
    requires nanos < NANOS_PER_SECOND
  {
    if nanos == 0 then ""
    else if nanos % 1_000_000 == 0 then "." + Digits(3, nanos / 1_000_000)
    else if nanos % 1_000 == 0 then "." + Digits(6, nanos / 1_000)
    else "." + Digits(9, nanos)
  }

  function Part(t: Instant, n: nat): string {
    var second := t / NANOS_PER_SECOND;
    if n == 1 then DateText(second / SECONDS_PER_DAY)
    else if n == 2 then "T"
    else if n == 3 then ClockText(second % SECONDS_PER_DAY)
    else if n == 4 then FractionText(t % NANOS_PER_SECOND)
    else OFFSET
  }

  /** The first `n` of the five parts that are pushed one after another onto the text. */
  function Written(t: Instant, n: nat): string {
    if n == 0 then "" else Written(t, n - 1) + Part(t, n)
  }

  /** `DateTime<Utc>::to_rfc3339`. */
  function Encode(t: Instant): string {
    Written(t, 5)
  }

  /** The text in closed form. */
  lemma EncodeShape(t: Instant)
    ensures t / NANOS_PER_SECOND < DAYS_IN_RANGE * SECONDS_PER_DAY
    ensures Encode(t) == SecondText(t / NANOS_PER_SECOND) + FractionText(t % NANOS_PER_SECOND) + OFFSET
  {
    assert Written(t, 1) == "" + Part(t, 1) == Part(t, 1);
    assert Written(t, 2) == Written(t, 1) + "T";
    assert Written(t, 3) == Written(t, 2) + Part(t, 3);
    assert Written(t, 3) == SecondText(t / NANOS_PER_SECOND);
    assert Written(t, 4) == Written(t, 3) + Part(t, 4);
  }

  // ── text order is time order ─────────────────────────────────────────

  lemma TextLessAcross(p: string, q: string, sep: string, x: string, y: string)
    requires |p| == |q|
    requires TextLess(p, q) || (p == q && TextLess(x, y))
    ensures TextLess(p + sep + x, q + sep + y)
  {
    if !TextLess(p, q) {
      TextLessByHead(sep, sep, x, y);
    }
    TextLessByHead(p, q, sep + x, sep + y);
    assert p + sep + x == p + (sep + x) && q + sep + y == q + (sep + y);
  }

  lemma Pow10s()
    ensures Pow10(2) == 100 && Pow10(3) == 1_000 && Pow10(4) == 10_000
    ensures Pow10(6) == 1_000_000 && Pow10(9) == 1_000_000_000
  {
    assert Pow10(2) == 10 * Pow10(1);
    assert Pow10(4) == 10 * Pow10(3);
    assert Pow10(6) == 100 * Pow10(4);
    assert Pow10(9) == 1000 * Pow10(6);
  }

  lemma TripleOrder(w: nat, sep: string, a: nat, b: nat, c: nat, a': nat, b': nat, c': nat)
    requires a < Pow10(w) && a' < Pow10(w) && b < 100 && b' < 100 && c < 100 && c' < 100
    requires a < a' || (a == a' && (b < b' || (b == b' && c < c')))
    ensures TextLess(Triple(w, sep, a, b, c), Triple(w, sep, a', b', c'))
  {
    Pow10s();
    if a < a' { DigitsOrder(w, a, a'); }
    if b < b' { DigitsOrder(2, b, b'); }
    if c < c' { DigitsOrder(2, c, c'); }
    if a < a' || b < b' {
      TextLessAcross(Digits(w, a), Digits(w, a'), sep, Digits(2, b), Digits(2, b'));
    }
    TextLessAcross(Digits(w, a) + sep + Digits(2, b), Digits(w, a') + sep + Digits(2, b'),
                   sep, Digits(2, c), Digits(2, c'));
  }

  lemma DateTextOrder(a: nat, b: nat)
    requires a < b < DAYS_IN_RANGE
    ensures TextLess(DateText(a), DateText(b))
  {
    var x, y := DateOf(a), DateOf(b);
    if DateBefore(y, x) { DayNumberOrder(y, x); }
    Pow10s();
    TripleOrder(4, "-", x.year, x.month, x.day, y.year, y.month, y.day);
  }

  lemma ClockParts(second: nat)
    requires second < SECONDS_PER_DAY
    ensures second / 3600 < 24
    ensures second == 3600 * (second / 3600) + 60 * (second / 60 % 60) + second % 60
  {
    QuotientIs(second, 3600, second / 60 / 60, second / 60 % 60 * 60 + second % 60);
  }

  lemma ClockTextOrder(a: nat, b: nat)
    requires a < b < SECONDS_PER_DAY
    ensures TextLess(ClockText(a), ClockText(b))
  {
    Pow10s();
    ClockParts(a);
    ClockParts(b);
    TripleOrder(2, ":", a / 3600, a / 60 % 60, a % 60, b / 3600, b / 60 % 60, b % 60);
  }

  /** Order of whole quotients and remainders, for any positive unit. */
  lemma QuotientOrder(a: nat, b: nat, unit: nat)
    requires unit > 0 && a < b
    ensures a / unit < b / unit || (a / unit == b / unit && a % unit < b % unit)
  {
    var (qa, qb) := (a / unit, b / unit);
    assert a == unit * qa + a % unit && b == unit * qb + b % unit;
    MulGrows(unit, qb + 1, qa);
  }

  lemma SplitSecondOrder(da: nat, ca: nat, db: nat, cb: nat)
    requires da < DAYS_IN_RANGE && db < DAYS_IN_RANGE && ca < SECONDS_PER_DAY && cb < SECONDS_PER_DAY
    requires da < db || (da == db && ca < cb)
    ensures TextLess(DateText(da) + "T" + ClockText(ca), DateText(db) + "T" + ClockText(cb))
  {
    if da < db { DateTextOrder(da, db); } else { ClockTextOrder(ca, cb); }
    TextLessAcross(DateText(da), DateText(db), "T", ClockText(ca), ClockText(cb));
  }

  lemma SecondTextOrder(a: nat, b: nat)
    requires a < b < DAYS_IN_RANGE * SECONDS_PER_DAY
    ensures TextLess(SecondText(a), SecondText(b))
  {
    QuotientOrder(a, b, SECONDS_PER_DAY);
    SplitSecondOrder(a / SECONDS_PER_DAY, a % SECONDS_PER_DAY, b / SECONDS_PER_DAY, b % SECONDS_PER_DAY);
  }

  predicate AllZero(gs: seq<nat>) {
    gs == [] || (gs[0] == 0 && AllZero(gs[1..]))
  }

  /** Groups of three digits, most significant first, trailing zero groups dropped. */
  function GroupText(gs: seq<nat>): string {
    if AllZero(gs) then "" else Digits(3, gs[0]) + GroupText(gs[1..])
  }

  predicate GroupsBefore(gs: seq<nat>, hs: seq<nat>) {
    gs != [] && hs != [] && (gs[0] < hs[0] || (gs[0] == hs[0] && GroupsBefore(gs[1..], hs[1..])))
  }

  lemma {:induction false} NothingBeforeZero(gs: seq<nat>, hs: seq<nat>)
    requires GroupsBefore(gs, hs)
    ensures !AllZero(hs)
  {
    if gs[0] == hs[0] { NothingBeforeZero(gs[1..], hs[1..]); }
  }

  /** A dropped group compares by the `+` of the offset, which is below every digit. */
  lemma {:induction false} GroupTextOrder(gs: seq<nat>, hs: seq<nat>)
    requires GroupsBefore(gs, hs)
    requires forall i :: 0 <= i < |gs| ==> gs[i] < 1_000
    requires forall i :: 0 <= i < |hs| ==> hs[i] < 1_000
    ensures TextLess(GroupText(gs) + OFFSET, GroupText(hs) + OFFSET)
  {
    NothingBeforeZero(gs, hs);
    var (hh, th) := (Digits(3, hs[0]), GroupText(hs[1..]) + OFFSET);
    assert GroupText(hs) + OFFSET == hh + th;
    if AllZero(gs) {
      assert GroupText(gs) + OFFSET == OFFSET && (hh + th)[0] == hh[0];
    } else {
      var (hg, tg) := (Digits(3, gs[0]), GroupText(gs[1..]) + OFFSET);
      assert GroupText(gs) + OFFSET == hg + tg;
      if gs[0] < hs[0] {
        Pow10s();
        DigitsOrder(3, gs[0], hs[0]);
      } else {
        GroupTextOrder(gs[1..], hs[1..]);
      }
      TextLessByHead(hg, hh, tg, th);
    }
  }

  function NanoGroups(nanos: nat): (gs: seq<nat>)
    requires nanos < NANOS_PER_SECOND
    ensures |gs| == 3 && forall i :: 0 <= i < |gs| ==> gs[i] < 1_000
  {
    [nanos / 1_000_000, nanos / 1_000 % 1_000, nanos % 1_000]
  }

  lemma NanoParts(nanos: nat)
    requires nanos < NANOS_PER_SECOND
    ensures var gs := NanoGroups(nanos); nanos == 1_000_000 * gs[0] + 1_000 * gs[1] + gs[2]
    ensures nanos / 1_000 == 1_000 * NanoGroups(nanos)[0] + NanoGroups(nanos)[1]
  {
    QuotientIs(nanos, 1_000_000, nanos / 1_000 / 1_000, nanos / 1_000 % 1_000 * 1_000 + nanos % 1_000);
  }

  lemma TwoGroups(y: nat, z: nat)
    ensures AllZero([y, z]) <==> y == 0 && z == 0
    ensures GroupText([y, z]) ==
            if z != 0 then Digits(3, y) + Digits(3, z) else if y != 0 then Digits(3, y) else ""
  {
    assert [y, z][1..] == [z];
    assert AllZero([z]) <==> z == 0;
    assert GroupText([z]) == if z == 0 then "" else Digits(3, z);
  }

  lemma ThreeGroups(x: nat, y: nat, z: nat)
    ensures GroupText([x, y, z]) ==
            if z != 0 then Digits(3, x) + Digits(3, y) + Digits(3, z)
            else if y != 0 then Digits(3, x) + Digits(3, y)
            else if x != 0 then Digits(3, x) else ""
  {
    TwoGroups(y, z);
    assert [x, y, z][1..] == [y, z];
    assert AllZero([x, y, z]) == (x == 0 && AllZero([y, z]));
  }

  lemma DigitsSplit(v: nat, n: nat)
    ensures Digits(v + 3, n) == Digits(v, n / 1_000) + Digits(3, n % 1_000)
  {
    var (tens, hundreds, m) := (n / 10, n / 100, n % 1_000);
    var (c1, c2, c3) := ('0' + (n % 10) as char, '0' + (tens % 10) as char, '0' + (hundreds % 10) as char);
    assert tens / 10 == hundreds && hundreds / 10 == n / 1_000;
    assert Digits(v + 2, tens) == Digits(v + 1, hundreds) + [c2];
    assert Digits(v + 1, hundreds) == Digits(v, n / 1_000) + [c3];
    assert m % 10 == n % 10 && m / 10 % 10 == tens % 10 && m / 10 / 10 == hundreds % 10;
    assert Digits(1, m / 10 / 10) == [c3];
    assert Digits(2, m / 10) == [c3, c2];
    assert Digits(3, m) == [c3, c2, c1];
  }

  lemma FractionIsGroups(nanos: nat)
    requires nanos < NANOS_PER_SECOND
    ensures FractionText(nanos) == if nanos == 0 then "" else "." + GroupText(NanoGroups(nanos))
  {
    var (x, y, z) := (NanoGroups(nanos)[0], NanoGroups(nanos)[1], NanoGroups(nanos)[2]);
    NanoParts(nanos);
    ThreeGroups(x, y, z);
    Pow10s();
    QuotientIs(nanos, 1_000_000, x, 1_000 * y + z);
    DigitsSplit(3, nanos / 1_000);
    QuotientIs(nanos / 1_000, 1_000, x, y);
    DigitsSplit(6, nanos);
  }

  lemma GroupsBeforeByParts(gs: seq<nat>, hs: seq<nat>)
    requires |gs| == |hs| == 3
    requires gs[1] < 1_000 && gs[2] < 1_000 && hs[1] < 1_000 && hs[2] < 1_000
    requires 1_000_000 * gs[0] + 1_000 * gs[1] + gs[2] < 1_000_000 * hs[0] + 1_000 * hs[1] + hs[2]
    ensures GroupsBefore(gs, hs)
  {
    assert GroupsBefore(gs[1..][1..], hs[1..][1..]) <== gs[2] < hs[2];
  }

  lemma DotGroups(nanos: nat)
    requires 0 < nanos < NANOS_PER_SECOND
    ensures FractionText(nanos) + OFFSET == "." + (GroupText(NanoGroups(nanos)) + OFFSET)
  {
    FractionIsGroups(nanos);
    var g := GroupText(NanoGroups(nanos));
    assert ("." + g) + OFFSET == "." + (g + OFFSET);
  }

  lemma FractionOrder(a: nat, b: nat)
    requires a < b < NANOS_PER_SECOND
    ensures TextLess(FractionText(a) + OFFSET, FractionText(b) + OFFSET)
  {
    DotGroups(b);
    if a == 0 {
      assert FractionText(0) + OFFSET == OFFSET;
    } else {
      DotGroups(a);
      NanoParts(a);
      NanoParts(b);
      var (ga, gb) := (NanoGroups(a), NanoGroups(b));
      GroupsBeforeByParts(ga, gb);
      GroupTextOrder(ga, gb);
      TextLessByHead(".", ".", GroupText(ga) + OFFSET, GroupText(gb) + OFFSET);
    }
  }

  lemma SplitEncodeOrder(sa: nat, na: nat, sb: nat, nb: nat)
    requires sa < DAYS_IN_RANGE * SECONDS_PER_DAY && sb < DAYS_IN_RANGE * SECONDS_PER_DAY
    requires na < NANOS_PER_SECOND && nb < NANOS_PER_SECOND
    requires sa < sb || (sa == sb && na < nb)
    ensures TextLess(SecondText(sa) + FractionText(na) + OFFSET, SecondText(sb) + FractionText(nb) + OFFSET)
  {
    if sa < sb { SecondTextOrder(sa, sb); } else { FractionOrder(na, nb); }
    var (ta, tb) := (FractionText(na) + OFFSET, FractionText(nb) + OFFSET);
    TextLessByHead(SecondText(sa), SecondText(sb), ta, tb);
    assert SecondText(sa) + FractionText(na) + OFFSET == SecondText(sa) + ta;
    assert SecondText(sb) + FractionText(nb) + OFFSET == SecondText(sb) + tb;
  }

  lemma EncodeOrder(a: Instant, b: Instant)
    requires a < b
    ensures TextLess(Encode(a), Encode(b))
  {
    EncodeShape(a);
    EncodeShape(b);
    QuotientOrder(a, b, NANOS_PER_SECOND);
    SplitEncodeOrder(a / NANOS_PER_SECOND, a % NANOS_PER_SECOND, b / NANOS_PER_SECOND, b % NANOS_PER_SECOND);
  }

  /** Comparing two stored texts is comparing the instants they stand for. */
  lemma TextOrderIsTimeOrder(a: Instant, b: Instant)
    ensures TextLess(Encode(a), Encode(b)) <==> a < b
    ensures Encode(a) == Encode(b) <==> a == b
  {
    if a < b {
      EncodeOrder(a, b);
      TextLessIsStrict(Encode(a), Encode(b));
    } else if b < a {
      EncodeOrder(b, a);
      TextLessIsStrict(Encode(b), Encode(a));
    } else if TextLess(Encode(a), Encode(b)) {
      TextLessIsStrict(Encode(a), Encode(b));
    }
  }

  // ── reading ──────────────────────────────────────────────────────────

  function ParseTriple(w: nat, sep: char, s: string): Option<(nat, nat, nat)> {
    if |s| == w + 6 && s[w] == sep && s[w + 3] == sep
       && AllDigits(s[..w]) && AllDigits(s[w + 1..w + 3]) && AllDigits(s[w + 4..])
    then Some((Number(s[..w]), Number(s[w + 1..w + 3]), Number(s[w + 4..])))
    else None
  }

  function ParseDay(s: string): (r: Option<nat>)
    ensures r.Some? ==> r.value < DAYS_IN_RANGE
  {
    match ParseTriple(4, '-', s)
    case Some((y, m, d)) =>
      if ValidDate(Date(y, m, d)) then DayInRange(Date(y, m, d)); Some(DayNumber(Date(y, m, d))) else None
    case None => None
  }

  function ParseClock(s: string): (r: Option<nat>)
    ensures r.Some? ==> r.value < SECONDS_PER_DAY
  {
    match ParseTriple(2, ':', s)
    case Some((h, m, sec)) =>
      if h < 24 && m < 60 && sec < 60 then Some(3600 * h + 60 * m + sec) else None
    case None => None
  }

  function ParseFraction(s: string): (r: Option<nat>)
    ensures r.Some? ==> r.value < NANOS_PER_SECOND
  {
    if s == "" then Some(0)
    else if s[0] == '.' && 2 <= |s| <= 10 && AllDigits(s[1..]) then
      var nanos := Number(s[1..]) * Pow10(10 - |s|);
      if nanos < NANOS_PER_SECOND then Some(nanos) else None
    else None
  }

  function Assemble(day: nat, clock: nat, nanos: nat): (t: int)
    ensures day < DAYS_IN_RANGE && clock < SECONDS_PER_DAY && nanos < NANOS_PER_SECOND ==> InRange(t)
  {
    (day * SECONDS_PER_DAY + clock) * NANOS_PER_SECOND + nanos
  }

  /** `DateTime::parse_from_rfc3339` on texts with a `T` separator and the `+00:00` offset. */
  function Parse(s: string): Option<Instant> {
    if |s| < 25 || s[|s| - 6..] != OFFSET || s[10] != 'T' then None
    else
      match (ParseDay(s[..10]), ParseClock(s[11..19]), ParseFraction(s[19..|s| - 6]))
      case (Some(day), Some(clock), Some(nanos)) => Some(Assemble(day, clock, nanos))
      case _ => None
  }

  lemma ParseInvertsTriple(w: nat, sep: char, a: nat, b: nat, c: nat)
    requires a < Pow10(w) && b < 100 && c < 100
    ensures ParseTriple(w, sep, Triple(w, [sep], a, b, c)) == Some((a, b, c))
  {
    var s := Triple(w, [sep], a, b, c);
    Pow10s();
    NumberInvertsDigits(w, a);
    NumberInvertsDigits(2, b);
    NumberInvertsDigits(2, c);
    assert s[..w] == Digits(w, a);
    assert s[w + 1..w + 3] == Digits(2, b);
    assert s[w + 4..] == Digits(2, c);
  }

  lemma ParseInvertsDate(day: nat)
    requires day < DAYS_IN_RANGE
    ensures ParseDay(DateText(day)) == Some(day)
  {
    var d := DateOf(day);
    Pow10s();
    ParseInvertsTriple(4, '-', d.year, d.month, d.day);
  }

  lemma ParseInvertsClock(second: nat)
    requires second < SECONDS_PER_DAY
    ensures ParseClock(ClockText(second)) == Some(second)
  {
    Pow10s();
    ClockParts(second);
    ParseInvertsTriple(2, ':', second / 3600, second / 60 % 60, second % 60);
  }

  lemma ParseFractionDigits(w: nat, n: nat)
    requires 1 <= w <= 9 && n < Pow10(w) && n * Pow10(9 - w) < NANOS_PER_SECOND
    ensures ParseFraction("." + Digits(w, n)) == Some(n * Pow10(9 - w))
  {
    var s := "." + Digits(w, n);
    assert s[1..] == Digits(w, n);
    NumberInvertsDigits(w, n);
  }

  lemma ParseInvertsFraction(nanos: nat)
    requires nanos < NANOS_PER_SECOND
    ensures ParseFraction(FractionText(nanos)) == Some(nanos)
  {
    Pow10s();
    assert Pow10(0) == 1;
    if nanos == 0 {
    } else if nanos % 1_000_000 == 0 {
      ParseFractionDigits(3, nanos / 1_000_000);
    } else if nanos % 1_000 == 0 {
      ParseFractionDigits(6, nanos / 1_000);
    } else {
      ParseFractionDigits(9, nanos);
    }
  }

  lemma TextSlices(date: string, clock: string, fraction: string)
    requires |date| == 10 && |clock| == 8
    ensures var s := date + "T" + clock + fraction + OFFSET;
            |s| >= 25 && s[|s| - 6..] == OFFSET && s[10] == 'T'
            && s[..10] == date && s[11..19] == clock && s[19..|s| - 6] == fraction
  {
  }

  lemma ParseAssembled(date: string, clock: string, fraction: string)
    requires |date| == 10 && |clock| == 8
    requires ParseDay(date).Some? && ParseClock(clock).Some? && ParseFraction(fraction).Some?
    ensures var (day, second, nanos) :=
              (ParseDay(date).value, ParseClock(clock).value, ParseFraction(fraction).value);
            InRange(Assemble(day, second, nanos))
            && Parse(date + "T" + clock + fraction + OFFSET) == Some(Assemble(day, second, nanos))
  {
    TextSlices(date, clock, fraction);
  }

  lemma AssembleParts(t: Instant)
    ensures t / NANOS_PER_SECOND < DAYS_IN_RANGE * SECONDS_PER_DAY
    ensures var second := t / NANOS_PER_SECOND;
            Assemble(second / SECONDS_PER_DAY, second % SECONDS_PER_DAY, t % NANOS_PER_SECOND) == t
  {
  }

  lemma ParseInvertsSplit(day: nat, clock: nat, nanos: nat)
    requires day < DAYS_IN_RANGE && clock < SECONDS_PER_DAY && nanos < NANOS_PER_SECOND
    ensures InRange(Assemble(day, clock, nanos))
    ensures Parse(DateText(day) + "T" + ClockText(clock) + FractionText(nanos) + OFFSET) == Some(Assemble(day, clock, nanos))
  {
    ParseInvertsDate(day);
    ParseInvertsClock(clock);
    ParseInvertsFraction(nanos);
    ParseAssembled(DateText(day), ClockText(clock), FractionText(nanos));
  }

  /** Reading back a written timestamp gives the instant that was written. */
  lemma ParseInvertsEncode(t: Instant)
    ensures Parse(Encode(t)) == Some(t)
  {
    EncodeShape(t);
    AssembleParts(t);
    ParseInvertsSplit(t / NANOS_PER_SECOND / SECONDS_PER_DAY, t / NANOS_PER_SECOND % SECONDS_PER_DAY, t % NANOS_PER_SECOND);
  }

  // ── known dates and texts ────────────────────────────────────────────

  /** Days before each month of a year, leap day aside. */
  lemma MonthStarts(y: nat)
    ensures var leap := if y % 4 == 0 && (y % 100 != 0 || y % 400 == 0) then 1 else 0;
            && DaysBeforeMonth(y, 1) == 0 && DaysBeforeMonth(y, 2) == 31 && DaysBeforeMonth(y, 3) == 59 + leap
            && DaysBeforeMonth(y, 4) == 90 + leap && DaysBeforeMonth(y, 5) == 120 + leap && DaysBeforeMonth(y, 6) == 151 + leap
            && DaysBeforeMonth(y, 7) == 181 + leap && DaysBeforeMonth(y, 8) == 212 + leap && DaysBeforeMonth(y, 9) == 243 + leap
            && DaysBeforeMonth(y, 10) == 273 + leap && DaysBeforeMonth(y, 11) == 304 + leap
            && DaysBeforeMonth(y, 12) == 334 + leap && DaysBeforeMonth(y, 13) == 365 + leap
  {
    assert DaysBeforeMonth(y, 2) == 31;
    assert DaysBeforeMonth(y, 4) == DaysBeforeMonth(y, 3) + 31;
    assert DaysBeforeMonth(y, 6) == DaysBeforeMonth(y, 5) + 31;
    assert DaysBeforeMonth(y, 8) == DaysBeforeMonth(y, 7) + 31;
    assert DaysBeforeMonth(y, 10) == DaysBeforeMonth(y, 9) + 30;
    assert DaysBeforeMonth(y, 12) == DaysBeforeMonth(y, 11) + 30;
  }

  lemma DatesAreUnique(a: Date, b: Date)
    requires ValidDate(a) && ValidDate(b) && DayNumber(a) == DayNumber(b)
    ensures a == b
  {
    if DateBefore(a, b) { DayNumberOrder(a, b); }
    if DateBefore(b, a) { DayNumberOrder(b, a); }
  }

  lemma KnownDay(d: Date)
    requires ValidDate(d)
    ensures DayNumber(d) < DAYS_IN_RANGE && DateOf(DayNumber(d)) == d
  {
    DayInRange(d);
    DatesAreUnique(DateOf(DayNumber(d)), d);
  }

  lemma PartsOf(day: nat, clock: nat, nanos: nat)
    requires day < DAYS_IN_RANGE && clock < SECONDS_PER_DAY && nanos < NANOS_PER_SECOND
    ensures var t := Assemble(day, clock, nanos);
            && InRange(t) && t / NANOS_PER_SECOND == day * SECONDS_PER_DAY + clock && t % NANOS_PER_SECOND == nanos
            && t / NANOS_PER_SECOND / SECONDS_PER_DAY == day && t / NANOS_PER_SECOND % SECONDS_PER_DAY == clock
  {
  }

  lemma ClockOf(h: nat, m: nat, sec: nat)
    requires h < 24 && m < 60 && sec < 60
    ensures var clock := 3600 * h + 60 * m + sec;
            clock < SECONDS_PER_DAY && clock / 3600 == h && clock / 60 % 60 == m && clock % 60 == sec
  {
    QuotientIs(3600 * h + 60 * m + sec, 3600, h, 60 * m + sec);
    QuotientIs(3600 * h + 60 * m + sec, 60, 60 * h + m, sec);
    QuotientIs(60 * h + m, 60, h, m);
  }

  lemma DateTextOf(d: Date, day: nat)
    requires ValidDate(d) && day == DayNumber(d)
    ensures day < DAYS_IN_RANGE
    ensures DateText(day) == Digits(4, d.year) + "-" + Digits(2, d.month) + "-" + Digits(2, d.day)
  {
    KnownDay(d);
  }

  lemma TripleOf(clock: nat, h: nat, m: nat, sec: nat)
    requires clock < SECONDS_PER_DAY && clock / 3600 == h && clock / 60 % 60 == m && clock % 60 == sec
    ensures ClockText(clock) == Triple(2, ":", h, m, sec)
  {
  }

  lemma ClockTextOf(h: nat, m: nat, sec: nat, clock: nat)
    requires h < 24 && m < 60 && sec < 60 && clock == 3600 * h + 60 * m + sec
    ensures clock < SECONDS_PER_DAY
    ensures ClockText(clock) == Digits(2, h) + ":" + Digits(2, m) + ":" + Digits(2, sec)
  {
    ClockOf(h, m, sec);
    TripleOf(clock, h, m, sec);
  }

  lemma EncodeParts(day: nat, clock: nat, nanos: nat, date: string, time: string)
    requires day < DAYS_IN_RANGE && clock < SECONDS_PER_DAY && nanos < NANOS_PER_SECOND
    requires DateText(day) == date && ClockText(clock) == time
    ensures InRange(Assemble(day, clock, nanos))
    ensures Encode(Assemble(day, clock, nanos)) == date + "T" + time + FractionText(nanos) + "+00:00"
  {
    PartsOf(day, clock, nanos);
    EncodeShape(Assemble(day, clock, nanos));
  }

  /** A day number is its date's. */
  ghost predicate DayIs(day: nat, d: Date) {
    ValidDate(d) && day == DayNumber(d)
  }

  /** The text of a date: year, month and day in four, two and two digits. */
  predicate SpellsDate(date: string, d: Date) {
    date == Digits(4, d.year) + "-" + Digits(2, d.month) + "-" + Digits(2, d.day)
  }

  predicate SpellsClock(time: string, h: nat, m: nat, sec: nat) {
    time == Digits(2, h) + ":" + Digits(2, m) + ":" + Digits(2, sec)
  }

  /** The text of any date, clock and fraction: each number in its place and width. */
  lemma TextOf(d: Date, h: nat, m: nat, sec: nat, nanos: nat, day: nat, clock: nat) returns (date: string, time: string)
    requires DayIs(day, d) && h < 24 && m < 60 && sec < 60 && nanos < NANOS_PER_SECOND
    requires clock == 3600 * h + 60 * m + sec
    ensures SpellsDate(date, d) && SpellsClock(time, h, m, sec)
    ensures InRange(Assemble(day, clock, nanos))
    ensures Encode(Assemble(day, clock, nanos)) == date + "T" + time + FractionText(nanos) + "+00:00"
  {
    DateTextOf(d, day);
    ClockTextOf(h, m, sec, clock);
    date, time := DateText(day), ClockText(clock);
    EncodeParts(day, clock, nanos, date, time);
  }

  /** The fraction: nothing, or a dot and the nanoseconds in as few of 3, 6 or 9 digits as say them. */
  lemma FractionIs(nanos: nat)
    requires nanos < NANOS_PER_SECOND
    ensures nanos == 0 ==> FractionText(nanos) == ""
    ensures nanos != 0 ==>
              var (n, f) := (|FractionText(nanos)| - 1, FractionText(nanos));
              n in {3, 6, 9} && f[0] == '.' && AllDigits(f[1..]) && Number(f[1..]) * Pow10(9 - n) == nanos
              && (n > 3 ==> nanos % Pow10(12 - n) != 0)
  {
    Pow10s();
    assert Pow10(0) == 1 && Pow10(3) == 1_000;
    var f := FractionText(nanos);
    if nanos == 0 {
    } else if nanos % 1_000_000 == 0 {
      NumberInvertsDigits(3, nanos / 1_000_000);
      assert f[1..] == Digits(3, nanos / 1_000_000);
    } else if nanos % 1_000 == 0 {
      NumberInvertsDigits(6, nanos / 1_000);
      assert f[1..] == Digits(6, nanos / 1_000);
    } else {
      NumberInvertsDigits(9, nanos);
      assert f[1..] == Digits(9, nanos);
    }
  }

  lemma DivideTwice(n: nat, p: nat)
    requires p > 0
    ensures n / 10 / p == n / (10 * p)
  {
    var (q, r) := (n / 10 / p, n / 10 % p);
    assert n / 10 == p * q + r && n == 10 * (p * q + r) + n % 10;
    assert 10 * (p * q + r) == (10 * p) * q + 10 * r;
    QuotientIs(n, 10 * p, q, 10 * r + n % 10);
  }

  /** Digits are decimal, most significant first. */
  lemma DigitsAre(w: nat, n: nat, i: nat)
    requires i < w
    ensures Digits(w, n)[i] == '0' + (n / Pow10(w - 1 - i) % 10) as char
  {
    if i == w - 1 {
    } else {
      DigitsAre(w - 1, n / 10, i);
      DivideTwice(n, Pow10(w - 2 - i));
    }
  }

  // ── stamps ───────────────────────────────────────────────────────────

  /** `s` is the text written for `t`. */
  ghost predicate StampIs(s: string, t: Instant) {
    s == Encode(t)
  }

  /** A text some call of `Encode` wrote. */
  ghost predicate IsStamp(s: string) {
    exists t: Instant :: StampIs(s, t)
  }

  /** Parsing as the store's callers see it: a written timestamp reads as its one instant. */
  method Read(s: string) returns (r: Option<Instant>)
    ensures IsStamp(s) ==> r.Some?
    ensures r.Some? && IsStamp(s) ==> StampIs(s, r.value)
  {
    r := Parse(s);
    if IsStamp(s) {
      ghost var t: Instant :| StampIs(s, t);
      ParseInvertsEncode(t);
    }
  }
}
