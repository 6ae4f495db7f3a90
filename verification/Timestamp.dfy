/** UTC timestamps of the years 0 to 9999, their RFC3339Nano text, and how the order of the texts compares
    with the order of the instants. */
module Timestamp {
  import opened Text
  import opened Wrappers

  // ---------------------------------------------------------------- calendar and clock

  const SECOND: int := 1_000_000_000

  datatype Fields = Fields(year: nat, month: nat, day: nat, hour: nat, minute: nat, second: nat, nanos: nat) {
    predicate Valid() {
      && year <= 9999 && 1 <= month <= 12 && 1 <= day <= DaysIn(year, month)
      && hour < 24 && minute < 60 && second < 60 && nanos < 1_000_000_000
    }
  }

  /** An instant, as `time.Time` in UTC. */
  type Instant = t: Fields | t.Valid() witness ZERO_TIME

  /** Go's zero `time.Time`. */
  const ZERO_TIME := Fields(1, 1, 1, 0, 0, 0, 0)

  predicate IsLeap(year: nat) {
    year % 4 == 0 && (year % 100 != 0 || year % 400 == 0)
  }

  function YearLength(year: nat): nat {
    if IsLeap(year) then 366 else 365
  }

  function DaysIn(year: nat, month: nat): (days: nat)
    ensures days <= 31
  {
    if month == 2 then (if IsLeap(year) then 29 else 28)
    else if month in {4, 6, 9, 11} then 30
    else 31
  }

  /** Days from the start of year 0 to the start of `year`. */
  function YearStart(year: nat): nat {
    if year == 0 then 0 else YearStart(year - 1) + YearLength(year - 1)
  }

  /** Days from the start of `year` to the start of `month`; month 13 is the end of the year. */
  function MonthStart(year: nat, month: nat): nat
    requires 1 <= month <= 13
  {
    if month == 1 then 0 else MonthStart(year, month - 1) + DaysIn(year, month - 1)
  }

  function Days(t: Instant): nat {
    YearStart(t.year) + MonthStart(t.year, t.month) + t.day - 1
  }

  function Seconds(t: Instant): nat {
    ((Days(t) * 24 + t.hour) * 60 + t.minute) * 60 + t.second
  }

  /** Nanoseconds since the start of year 0. */
  function Nanos(t: Instant): nat {
    Seconds(t) * SECOND + t.nanos
  }

  /** `a.Before(b)`; `b.After(a)`. */
  predicate Before(a: Instant, b: Instant) {
    Nanos(a) < Nanos(b)
  }

  lemma {:induction false} YearsAreOrdered(a: nat, b: nat)
    requires a < b
    ensures YearStart(a) + YearLength(a) <= YearStart(b)
  {
    if a + 1 == b {
    } else {
      YearsAreOrdered(a, b - 1);
    }
  }

  lemma {:induction false} MonthsAreOrdered(year: nat, a: nat, b: nat)
    requires 1 <= a < b <= 13
    ensures MonthStart(year, a) + DaysIn(year, a) <= MonthStart(year, b)
  {
    if a + 1 == b {
    } else {
      MonthsAreOrdered(year, a, b - 1);
    }
  }

  /** The months of a year fill it exactly. */
  lemma MonthsFillYear(year: nat)
    ensures MonthStart(year, 13) == YearLength(year)
  {
    assert MonthStart(year, 2) == 31;
    assert MonthStart(year, 3) == 31 + DaysIn(year, 2);
    assert MonthStart(year, 4) == MonthStart(year, 3) + 31;
    assert MonthStart(year, 5) == MonthStart(year, 3) + 61;
    assert MonthStart(year, 6) == MonthStart(year, 3) + 92;
    assert MonthStart(year, 7) == MonthStart(year, 6) + 30;
    assert MonthStart(year, 8) == MonthStart(year, 6) + 61;
    assert MonthStart(year, 9) == MonthStart(year, 6) + 92;
    assert MonthStart(year, 10) == MonthStart(year, 9) + 30;
    assert MonthStart(year, 11) == MonthStart(year, 9) + 61;
    assert MonthStart(year, 12) == MonthStart(year, 9) + 91;
  }

  /** The Gregorian calendar in closed form. */
  lemma {:induction false} YearStartClosed(year: nat)
    ensures YearStart(year) == 365 * year + (year + 3) / 4 - (year + 99) / 100 + (year + 399) / 400
  {
    if year == 0 {
    } else {
      var past := year - 1;
      YearStartClosed(past);
      YearLengthCounts(past);
    }
  }

  lemma YearLengthCounts(year: nat)
    ensures YearLength(year) ==
            365 + ((year + 4) / 4 - (year + 3) / 4) - ((year + 100) / 100 - (year + 99) / 100)
            + ((year + 400) / 400 - (year + 399) / 400)
  {
    Fours(year);
    Hundreds(year);
    FourHundreds(year);
    MultiplesOf400(year);
    MultiplesOf100(year);
  }

  lemma MultiplesOf400(n: nat)
    ensures n % 400 == 0 ==> n % 100 == 0
  {
    var k := 4 * (n / 400);
    assert 100 * k % 100 == 0;
    assert n == 100 * k + n % 400;
  }

  lemma MultiplesOf100(n: nat)
    ensures n % 100 == 0 ==> n % 4 == 0
  {
    var k := 25 * (n / 100);
    assert 4 * k % 4 == 0;
    assert n == 4 * k + n % 100;
  }

  lemma Fours(n: nat)
    ensures (n + 4) / 4 - (n + 3) / 4 == if n % 4 == 0 then 1 else 0
  {
    assert n == 4 * (n / 4) + n % 4;
  }

  lemma Hundreds(n: nat)
    ensures (n + 100) / 100 - (n + 99) / 100 == if n % 100 == 0 then 1 else 0
  {
    assert n == 100 * (n / 100) + n % 100;
  }

  lemma FourHundreds(n: nat)
    ensures (n + 400) / 400 - (n + 399) / 400 == if n % 400 == 0 then 1 else 0
  {
    assert n == 400 * (n / 400) + n % 400;
  }

  lemma MonthStartClosed(year: nat, month: nat)
    requires 1 <= month <= 12
    ensures MonthStart(year, month) ==
            [0, 31, 59, 90, 120, 151, 181, 212, 243, 273, 304, 334][month - 1]
            + (if month > 2 && (year % 400 == 0 || (year % 4 == 0 && year % 100 != 0)) then 1 else 0)
  {
    assert MonthStart(year, 2) == 31;
    assert MonthStart(year, 3) == 31 + DaysIn(year, 2);
    assert MonthStart(year, 4) == MonthStart(year, 3) + 31;
    assert MonthStart(year, 5) == MonthStart(year, 3) + 61;
    assert MonthStart(year, 6) == MonthStart(year, 3) + 92;
    assert MonthStart(year, 7) == MonthStart(year, 6) + 30;
    assert MonthStart(year, 8) == MonthStart(year, 6) + 61;
    assert MonthStart(year, 9) == MonthStart(year, 6) + 92;
    assert MonthStart(year, 10) == MonthStart(year, 9) + 30;
    assert MonthStart(year, 11) == MonthStart(year, 9) + 61;
    assert MonthStart(year, 12) == MonthStart(year, 9) + 91;
  }

  /** An instant as a number of nanoseconds, by the calendar's closed form. */
  lemma NanosClosed(t: Instant)
    ensures var leap := t.year % 400 == 0 || (t.year % 4 == 0 && t.year % 100 != 0);
            var days := 365 * t.year + (t.year + 3) / 4 - (t.year + 99) / 100 + (t.year + 399) / 400
                        + [0, 31, 59, 90, 120, 151, 181, 212, 243, 273, 304, 334][t.month - 1]
                        + (if t.month > 2 && leap then 1 else 0) + t.day - 1;
            Nanos(t) == (days * 86_400 + t.hour * 3_600 + t.minute * 60 + t.second) * 1_000_000_000 + t.nanos
  {
    YearStartClosed(t.year);
    MonthStartClosed(t.year, t.month);
  }

  predicate EarlierDate(a: Instant, b: Instant) {
    a.year < b.year || (a.year == b.year && (a.month < b.month || (a.month == b.month && a.day < b.day)))
  }

  lemma DatesAreOrdered(a: Instant, b: Instant)
    requires EarlierDate(a, b)
    ensures Days(a) < Days(b)
  {
    if a.year < b.year {
      YearsAreOrdered(a.year, b.year);
      MonthsAreOrdered(a.year, a.month, 13);
      MonthsFillYear(a.year);
    } else if a.month < b.month {
      MonthsAreOrdered(a.year, a.month, b.month);
    }
  }

  predicate EarlierSecond(a: Instant, b: Instant) {
    EarlierDate(a, b)
    || (SameDate(a, b)
        && (a.hour < b.hour || (a.hour == b.hour
                                && (a.minute < b.minute || (a.minute == b.minute && a.second < b.second)))))
  }

  predicate SameDate(a: Instant, b: Instant) {
    a.year == b.year && a.month == b.month && a.day == b.day
  }

  predicate SameSecond(a: Instant, b: Instant) {
    SameDate(a, b) && a.hour == b.hour && a.minute == b.minute && a.second == b.second
  }

  /** Comparing the fields from the year down to the second is comparing elapsed seconds. */
  lemma SecondsAreOrdered(a: Instant, b: Instant)
    ensures EarlierSecond(a, b) <==> Seconds(a) < Seconds(b)
    ensures SameSecond(a, b) <==> Seconds(a) == Seconds(b)
  {
    if EarlierDate(a, b) {
      DatesAreOrdered(a, b);
    } else if EarlierDate(b, a) {
      DatesAreOrdered(b, a);
    }
  }

  // ---------------------------------------------------------------- decimal fields

  function Pow10(w: nat): nat {
    if w == 0 then 1 else 10 * Pow10(w - 1)
  }

  predicate IsDigit(c: char) {
    '0' <= c <= '9'
  }

  predicate AllDigits(s: string) {
    forall i :: 0 <= i < |s| ==> IsDigit(s[i])
  }

  /** `n` in exactly `w` decimal digits. */
  function Digits(n: nat, w: nat): (s: string)
    ensures |s| == w && AllDigits(s)
  {
    if w == 0 then "" else Digits(n / 10, w - 1) + [('0' as int + n % 10) as char]
  }

  /** The number a digit string denotes. */
  function Value(s: string): nat
    requires AllDigits(s)
  {
    if s == [] then 0 else 10 * Value(s[..|s| - 1]) + (s[|s| - 1] as int - '0' as int)
  }

  lemma {:induction false} ValueOfDigits(n: nat, w: nat)
    requires n < Pow10(w)
    ensures Value(Digits(n, w)) == n
  {
    if w == 0 {
    } else {
      ValueOfDigits(n / 10, w - 1);
      assert Digits(n, w)[..w - 1] == Digits(n / 10, w - 1);
    }
  }

  /** Zero-padded numbers of one width are ordered as texts exactly as they are as numbers. */
  lemma {:induction false} DigitsAreOrdered(a: nat, b: nat, w: nat)
    requires a < Pow10(w) && b < Pow10(w)
    ensures Less(Digits(a, w), Digits(b, w)) <==> a < b
    ensures Digits(a, w) == Digits(b, w) <==> a == b
  {
    if w == 0 {
    } else {
      var p, q := Digits(a / 10, w - 1), Digits(b / 10, w - 1);
      var x, y := [('0' as int + a % 10) as char], [('0' as int + b % 10) as char];
      DigitsAreOrdered(a / 10, b / 10, w - 1);
      if p == q {
        SharedPrefix(p, x, y);
      } else {
        FixedWidth(p, q, x, y);
      }
      assert (p + x)[..w - 1] == p && (q + y)[..w - 1] == q;
    }
  }

  /** A fixed-width field decides, and when it ties the rest of the text does. */
  lemma FieldDecides(a: nat, b: nat, w: nat, x: string, y: string)
    requires a < Pow10(w) && b < Pow10(w)
    ensures Less(Digits(a, w) + x, Digits(b, w) + y) <==> a < b || (a == b && Less(x, y))
  {
    DigitsAreOrdered(a, b, w);
    if a == b {
      SharedPrefix(Digits(a, w), x, y);
    } else {
      FixedWidth(Digits(a, w), Digits(b, w), x, y);
    }
  }

  lemma Widths()
    ensures Pow10(2) == 100 && Pow10(4) == 10_000 && Pow10(9) == 1_000_000_000
  {
    assert Pow10(4) == 100 * Pow10(2);
    assert Pow10(6) == 100 * Pow10(4);
    assert Pow10(8) == 100 * Pow10(6);
  }

  // ---------------------------------------------------------------- text form

  function TrimZeros(s: string): (t: string)
    ensures t <= s
    ensures t != [] ==> t[|t| - 1] != '0'
    ensures forall i :: |t| <= i < |s| ==> s[i] == '0'
  {
    if s != [] && s[|s| - 1] == '0' then TrimZeros(s[..|s| - 1]) else s
  }

  /** The fractional digits that are printed: trailing zeros are dropped. */
  function Fraction(t: Instant): string {
    TrimZeros(Digits(t.nanos, 9))
  }

  function TailOf(fraction: string): string {
    if fraction == "" then "Z" else "." + (fraction + "Z")
  }

  function Tail(t: Instant): string {
    TailOf(Fraction(t))
  }

  function DateText(t: Instant, rest: string): string {
    Digits(t.year, 4) + ("-" + (Digits(t.month, 2) + ("-" + (Digits(t.day, 2) + ("T" + rest)))))
  }

  function ClockText(t: Instant, rest: string): string {
    Digits(t.hour, 2) + (":" + (Digits(t.minute, 2) + (":" + (Digits(t.second, 2) + rest))))
  }

  /** `t.UTC().Format(time.RFC3339Nano)`: full-date "T" full-time of section 5.6 of RFC 3339, offset "Z". */
  function Format(t: Instant): string {
    DateText(t, ClockText(t, Tail(t)))
  }

  lemma DateDecides(a: Instant, b: Instant, x: string, y: string)
    ensures Less(DateText(a, x), DateText(b, y)) <==> EarlierDate(a, b) || (SameDate(a, b) && Less(x, y))
  {
    Widths();
    var a2, b2 := Digits(a.day, 2) + ("T" + x), Digits(b.day, 2) + ("T" + y);
    var a1, b1 := Digits(a.month, 2) + ("-" + a2), Digits(b.month, 2) + ("-" + b2);
    FieldDecides(a.year, b.year, 4, "-" + a1, "-" + b1);
    SharedPrefix("-", a1, b1);
    FieldDecides(a.month, b.month, 2, "-" + a2, "-" + b2);
    SharedPrefix("-", a2, b2);
    FieldDecides(a.day, b.day, 2, "T" + x, "T" + y);
    SharedPrefix("T", x, y);
  }

  lemma ClockDecides(a: Instant, b: Instant, x: string, y: string)
    requires SameDate(a, b)
    ensures Less(ClockText(a, x), ClockText(b, y))
            <==> EarlierSecond(a, b) || (SameSecond(a, b) && Less(x, y))
  {
    Widths();
    var a2, b2 := Digits(a.second, 2) + x, Digits(b.second, 2) + y;
    var a1, b1 := Digits(a.minute, 2) + (":" + a2), Digits(b.minute, 2) + (":" + b2);
    FieldDecides(a.hour, b.hour, 2, ":" + a1, ":" + b1);
    SharedPrefix(":", a1, b1);
    FieldDecides(a.minute, b.minute, 2, ":" + a2, ":" + b2);
    SharedPrefix(":", a2, b2);
    FieldDecides(a.second, b.second, 2, x, y);
  }

  // ---------------------------------------------------------------- text order against time order

  /** One printed fraction is a proper prefix of the other, the empty fraction included. */
  predicate Nested(p: string, q: string) {
    p < q || q < p
  }

  /** The pairs of instants whose texts sort the wrong way round. */
  predicate Inverted(a: Instant, b: Instant) {
    SameSecond(a, b) && Nested(Fraction(a), Fraction(b))
  }

  lemma {:induction false} ZerosComeFirst(zeros: string, s: string)
    requires |zeros| == |s| && AllDigits(s)
    requires forall i :: 0 <= i < |zeros| ==> zeros[i] == '0'
    requires exists i :: 0 <= i < |s| && s[i] != '0'
    ensures Less(zeros, s)
  {
    if s[0] != '0' {
    } else {
      ZerosComeFirst(zeros[1..], s[1..]);
    }
  }

  /** When one fraction extends the other, it is the larger number but its text comes first. */
  lemma LongerFractionInverts(a: Instant, b: Instant)
    requires Fraction(a) < Fraction(b)
    ensures a.nanos < b.nanos && Less(Tail(b), Tail(a)) && !Less(Tail(a), Tail(b))
  {
    Widths();
    var p, q := Fraction(a), Fraction(b);
    var da, db := Digits(a.nanos, 9), Digits(b.nanos, 9);
    assert da == p + da[|p|..] && db == p + db[|p|..];
    assert db[|p|..][|q| - 1 - |p|] == q[|q| - 1] != '0';
    ZerosComeFirst(da[|p|..], db[|p|..]);
    SharedPrefix(p, da[|p|..], db[|p|..]);
    DigitsAreOrdered(a.nanos, b.nanos, 9);
    assert IsDigit(q[|p|]) by {
      assert q[|p|] == db[|p|];
    }
    LongerTextIsLess(p, q);
  }

  /** A digit comes before the closing "Z". */
  lemma LongerTextIsLess(p: string, q: string)
    requires p < q && IsDigit(q[|p|])
    ensures Less(TailOf(q), TailOf(p)) && !Less(TailOf(p), TailOf(q))
  {
    if p == "" {
      DivergeAt(TailOf(p), TailOf(q), 0);
      DivergeAt(TailOf(q), TailOf(p), 0);
    } else {
      var k := |p| + 1;
      assert TailOf(p)[..k] == "." + p && TailOf(q)[..k] == "." + p;
      assert TailOf(p)[k] == 'Z' && TailOf(q)[k] == q[|p|];
      DivergeAt(TailOf(p), TailOf(q), k);
      DivergeAt(TailOf(q), TailOf(p), k);
    }
  }

  /** Fractions that are not nested part ways at a digit, which orders texts and numbers alike. */
  lemma UnnestedFractionsAgree(a: Instant, b: Instant)
    requires !Nested(Fraction(a), Fraction(b))
    ensures Less(Tail(a), Tail(b)) <==> a.nanos < b.nanos
    ensures Fraction(a) == Fraction(b) <==> a.nanos == b.nanos
  {
    Widths();
    var p, q := Fraction(a), Fraction(b);
    var da, db := Digits(a.nanos, 9), Digits(b.nanos, 9);
    DigitsAreOrdered(a.nanos, b.nanos, 9);
    if p == q {
      assert forall i :: 0 <= i < 9 ==> da[i] == db[i];
      LessIsIrreflexive(Tail(a));
    } else {
      var k := PartingPoint(p, q);
      assert da[..k] == p[..k] && db[..k] == q[..k];
      DivergeAt(da, db, k);
      assert Tail(a)[..k + 1] == "." + p[..k] && Tail(b)[..k + 1] == "." + q[..k];
      DivergeAt(Tail(a), Tail(b), k + 1);
    }
  }

  lemma {:induction false} PartingPoint(p: string, q: string) returns (k: nat)
    requires p != q && !Nested(p, q)
    ensures k < |p| && k < |q| && p[..k] == q[..k] && p[k] != q[k]
  {
    if p == [] || q == [] {
      assert false;
    } else if p[0] != q[0] {
      k := 0;
    } else {
      assert p == [p[0]] + p[1..] && q == [q[0]] + q[1..];
      var j := PartingPoint(p[1..], q[1..]);
      k := j + 1;
      assert p[..k] == [p[0]] + p[1..][..j] && q[..k] == [q[0]] + q[1..][..j];
    }
  }

  /** The stored texts sort in time order, except that exactly the inverted pairs sort the other way. */
  lemma TextOrderIsTimeOrder(a: Instant, b: Instant)
    ensures Less(Format(a), Format(b)) <==> if Inverted(a, b) then Before(b, a) else Before(a, b)
    ensures Inverted(a, b) ==> Nanos(a) != Nanos(b)
  {
    var x, y := ClockText(a, Tail(a)), ClockText(b, Tail(b));
    DateDecides(a, b, x, y);
    if SameDate(a, b) {
      ClockDecides(a, b, Tail(a), Tail(b));
    }
    SecondsAreOrdered(a, b);
    SecondsAreOrdered(b, a);
    if Fraction(a) < Fraction(b) {
      LongerFractionInverts(a, b);
    } else if Fraction(b) < Fraction(a) {
      LongerFractionInverts(b, a);
    } else {
      UnnestedFractionsAgree(a, b);
    }
  }

  /** Before as texts, said in terms of time; or simply before. */
  predicate Precedes(textual: bool, a: Instant, b: Instant) {
    if textual && Inverted(a, b) then Before(b, a) else Before(a, b)
  }

  /** Text order and time order disagree on no pair that is a second or more apart. */
  lemma TextOrderWithinASecond(a: Instant, b: Instant)
    ensures Less(Format(a), Format(b)) ==> Nanos(a) < Nanos(b) + SECOND
    ensures !Less(Format(a), Format(b)) ==> Nanos(b) < Nanos(a) + SECOND
  {
    TextOrderIsTimeOrder(a, b);
    SecondsAreOrdered(a, b);
  }

  lemma {:induction false} DigitsOfZero(w: nat)
    ensures forall i :: 0 <= i < w ==> Digits(0, w)[i] == '0'
  {
    if w == 0 {
    } else {
      DigitsOfZero(w - 1);
    }
  }

  /** Every error below one second does occur: a whole second sorts after all its fractions. */
  lemma TextOrderErrsByUpToASecond(error: nat)
    requires 0 < error < SECOND
    ensures exists a: Instant, b: Instant :: Less(Format(a), Format(b)) && Nanos(a) == Nanos(b) + error
  {
    var a: Instant := Fields(2026, 3, 11, 12, 0, 0, error);
    var b: Instant := Fields(2026, 3, 11, 12, 0, 0, 0);
    DigitsOfZero(9);
    assert Fraction(b) == "";
    if Fraction(a) == "" {
      UnnestedFractionsAgree(a, b);
    }
    TextOrderIsTimeOrder(a, b);
  }

  /** Section 5.1 of RFC 3339: texts with the same number of fractional digits do sort in time order. */
  lemma SameLengthSortsByTime(a: Instant, b: Instant)
    requires |Format(a)| == |Format(b)|
    ensures Less(Format(a), Format(b)) <==> Before(a, b)
  {
    assert |Format(a)| == 19 + |Tail(a)| && |Format(b)| == 19 + |Tail(b)|;
    TextOrderIsTimeOrder(a, b);
  }

  // ---------------------------------------------------------------- reading the text back

  /** `time.Parse(time.RFC3339Nano, s)` on texts with offset "Z" and at most nine fractional digits. */
  function Parse(s: string): Option<Instant> {
    if |s| < 20 || !IsDateText(s[..11]) || !IsClockText(s[11..19]) || !IsTail(s[19..]) then None
    else
      var d, c := s[..11], s[11..19];
      var t := Fields(Value(d[..4]), Value(d[5..7]), Value(d[8..10]),
                      Value(c[..2]), Value(c[3..5]), Value(c[6..]), ParseTail(s[19..]));
      if t.Valid() then Some(t) else None
  }

  predicate IsDateText(d: string) {
    && |d| == 11 && d[4] == '-' && d[7] == '-' && d[10] == 'T'
    && AllDigits(d[..4]) && AllDigits(d[5..7]) && AllDigits(d[8..10])
  }

  predicate IsClockText(c: string) {
    && |c| == 8 && c[2] == ':' && c[5] == ':'
    && AllDigits(c[..2]) && AllDigits(c[3..5]) && AllDigits(c[6..])
  }

  predicate IsTail(s: string) {
    s == "Z" || (3 <= |s| <= 11 && s[0] == '.' && s[|s| - 1] == 'Z' && AllDigits(s[1..|s| - 1]))
  }

  function ParseTail(s: string): nat
    requires IsTail(s)
  {
    if s == "Z" then 0 else Value(s[1..|s| - 1]) * Pow10(9 - (|s| - 2))
  }

  lemma {:induction false} PaddedValue(f: string, n: nat)
    requires AllDigits(f)
    ensures AllDigits(f + seq(n, _ => '0')) && Value(f + seq(n, _ => '0')) == Value(f) * Pow10(n)
  {
    if n == 0 {
      assert f + seq(n, _ => '0') == f;
    } else {
      PaddedValue(f, n - 1);
      var padded := f + seq(n, _ => '0');
      assert padded[..|padded| - 1] == f + seq(n - 1, _ => '0');
      assert Value(padded) == 10 * (Value(f) * Pow10(n - 1));
      TenTimes(Value(f), Pow10(n - 1));
    }
  }

  lemma TenTimes(a: nat, b: nat)
    ensures 10 * (a * b) == a * (10 * b)
  {
  }

  lemma TailRoundTrip(t: Instant)
    ensures IsTail(Tail(t)) && ParseTail(Tail(t)) == t.nanos
  {
    Widths();
    var f := Fraction(t);
    var n := 9 - |f|;
    assert Digits(t.nanos, 9) == f + seq(n, _ => '0');
    ValueOfDigits(t.nanos, 9);
    PaddedValue(f, n);
    if f != "" {
      assert Tail(t)[1..|Tail(t)| - 1] == f;
    }
  }

  lemma FieldOf(field: string, sep: char, rest: string)
    ensures var s := field + ([sep] + rest);
            |s| == |field| + 1 + |rest| && s[..|field|] == field && s[|field|] == sep && s[|field| + 1..] == rest
  {
  }

  lemma DateRoundTrip(t: Instant, rest: string)
    ensures var s := DateText(t, rest);
            && |s| == 11 + |rest| && s[11..] == rest && IsDateText(s[..11])
            && s[..11][..4] == Digits(t.year, 4) && s[..11][5..7] == Digits(t.month, 2)
            && s[..11][8..10] == Digits(t.day, 2)
  {
    var s := DateText(t, rest);
    var day := Digits(t.day, 2) + ("T" + rest);
    var month := Digits(t.month, 2) + ("-" + day);
    FieldOf(Digits(t.year, 4), '-', month);
    FieldOf(Digits(t.month, 2), '-', day);
    FieldOf(Digits(t.day, 2), 'T', rest);
    assert s[5..] == month && month[3..] == day && day[3..] == rest;
    assert s[8..] == s[5..][3..] && s[11..] == s[8..][3..];
    var d := s[..11];
    assert d[..4] == s[..4] && d[5..7] == s[5..][..2] && d[8..10] == s[8..][..2];
    assert d[7] == month[2] && d[10] == day[2];
  }

  lemma ClockRoundTrip(t: Instant, rest: string)
    ensures var s := ClockText(t, rest);
            && |s| == 8 + |rest| && s[8..] == rest && IsClockText(s[..8])
            && s[..8][..2] == Digits(t.hour, 2) && s[..8][3..5] == Digits(t.minute, 2)
            && s[..8][6..] == Digits(t.second, 2)
  {
    var s := ClockText(t, rest);
    var second := Digits(t.second, 2) + rest;
    var minute := Digits(t.minute, 2) + (":" + second);
    FieldOf(Digits(t.hour, 2), ':', minute);
    FieldOf(Digits(t.minute, 2), ':', second);
    assert s[3..] == minute && minute[3..] == second && second[2..] == rest;
    assert s[6..] == s[3..][3..] && s[8..] == s[6..][2..];
    var c := s[..8];
    assert c[..2] == s[..2] && c[3..5] == s[3..][..2] && c[6..] == s[6..][..2];
    assert c[5] == minute[2];
  }

  /** What the store writes, the store reads back exactly. */
  lemma ParseFormat(t: Instant)
    ensures Parse(Format(t)) == Some(t)
  {
    Widths();
    var s, rest := Format(t), ClockText(t, Tail(t));
    DateRoundTrip(t, rest);
    ClockRoundTrip(t, Tail(t));
    TailRoundTrip(t);
    assert s[11..19] == rest[..8] && s[19..] == rest[8..];
    ValueOfDigits(t.year, 4);
    ValueOfDigits(t.month, 2);
    ValueOfDigits(t.day, 2);
    ValueOfDigits(t.hour, 2);
    ValueOfDigits(t.minute, 2);
    ValueOfDigits(t.second, 2);
  }

  /** The text field by field: "2006-01-02T15:04:05", then the nanoseconds without trailing zeros, then "Z". */
  lemma FormatLayout(t: Instant)
    ensures var s := Format(t);
            && |s| >= 20 && AllDigits(s[..4]) && AllDigits(s[5..7]) && AllDigits(s[8..10])
            && AllDigits(s[11..13]) && AllDigits(s[14..16]) && AllDigits(s[17..19])
            && Value(s[..4]) == t.year && Value(s[5..7]) == t.month && Value(s[8..10]) == t.day
            && Value(s[11..13]) == t.hour && Value(s[14..16]) == t.minute && Value(s[17..19]) == t.second
            && s[4] == '-' && s[7] == '-' && s[10] == 'T' && s[13] == ':' && s[16] == ':' && s[|s| - 1] == 'Z'
            && (if t.nanos == 0 then |s| == 20
                else 22 <= |s| <= 30 && s[19] == '.' && s[|s| - 2] != '0' && AllDigits(s[20..|s| - 1])
                     && Value(s[20..|s| - 1]) * Pow10(30 - |s|) == t.nanos)
  {
    hide Format, Tail, Value, Pow10;
    FieldsAreWritten(t);
    TailLayout(t);
    if t.nanos != 0 {
      FractionIsAtEnd(Format(t), Tail(t));
    }
  }

  lemma FractionIsAtEnd(s: string, tail: string)
    requires |s| == 19 + |tail| && s[19..] == tail && |tail| >= 3
    ensures s[19] == tail[0] && s[|s| - 1] == tail[|tail| - 1] && s[|s| - 2] == tail[|tail| - 2]
    ensures s[20..|s| - 1] == tail[1..|tail| - 1]
  {
  }

  lemma FieldsAreWritten(t: Instant)
    ensures var s := Format(t);
            && |s| == 19 + |Tail(t)| && s[19..] == Tail(t)
            && s[..4] == Digits(t.year, 4) && s[5..7] == Digits(t.month, 2) && s[8..10] == Digits(t.day, 2)
            && s[11..13] == Digits(t.hour, 2) && s[14..16] == Digits(t.minute, 2) && s[17..19] == Digits(t.second, 2)
            && Value(s[..4]) == t.year && Value(s[5..7]) == t.month && Value(s[8..10]) == t.day
            && Value(s[11..13]) == t.hour && Value(s[14..16]) == t.minute && Value(s[17..19]) == t.second
            && s[4] == '-' && s[7] == '-' && s[10] == 'T' && s[13] == ':' && s[16] == ':'
  {
    hide Tail, Digits, Value, Pow10;
    var s, rest := Format(t), ClockText(t, Tail(t));
    Widths();
    DateRoundTrip(t, rest);
    ClockRoundTrip(t, Tail(t));
    assert s[..4] == s[..11][..4] && s[5..7] == s[..11][5..7] && s[8..10] == s[..11][8..10];
    assert s[11..13] == rest[..8][..2] && s[14..16] == rest[..8][3..5] && s[17..19] == rest[..8][6..];
    assert s[19..] == rest[8..];
    assert s[4] == s[..11][4] && s[7] == s[..11][7] && s[10] == s[..11][10];
    assert s[13] == rest[..8][2] && s[16] == rest[..8][5];
    ValueOfDigits(t.year, 4);
    ValueOfDigits(t.month, 2);
    ValueOfDigits(t.day, 2);
    ValueOfDigits(t.hour, 2);
    ValueOfDigits(t.minute, 2);
    ValueOfDigits(t.second, 2);
  }

  lemma TailLayout(t: Instant)
    ensures var s := Tail(t);
            if t.nanos == 0 then s == "Z"
            else 3 <= |s| <= 11 && s[0] == '.' && s[|s| - 1] == 'Z' && s[|s| - 2] != '0' && AllDigits(s[1..|s| - 1])
                 && Value(s[1..|s| - 1]) * Pow10(11 - |s|) == t.nanos
  {
    TailRoundTrip(t);
    if Fraction(t) == "" {
      assert ParseTail("Z") == 0;
    } else {
      var s, f := Tail(t), Fraction(t);
      assert s[1..|s| - 1] == f && s[|s| - 2] == f[|f| - 1];
      if t.nanos == 0 {
        DigitsOfZero(9);
      }
    }
  }

  /** Equal texts, equal instants and equal clock values are one thing. */
  lemma TextEqualityIsTimeEquality(a: Instant, b: Instant)
    ensures Format(a) == Format(b) <==> a == b
    ensures a == b <==> Nanos(a) == Nanos(b)
  {
    ParseFormat(a);
    ParseFormat(b);
    SecondsAreOrdered(a, b);
  }
}
