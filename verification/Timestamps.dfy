/** Printed timestamps. The database keeps every time as text and the queue's
    due and stale checks compare that text, so the comparisons are right exactly
    when text order is time order. */
module Timestamps {
  import opened Text
  import opened Arithmetic

  /** The years of the time library. */
  const FIRST_YEAR: int := -262143
  const LAST_YEAR: int := 262142

  /** A UTC date and time; the fields of an instant, most significant first. */
  datatype Instant = Instant(year: int, month: nat, day: nat, hour: nat, minute: nat, second: nat, nanos: nat) {
    predicate Valid() {
      && FIRST_YEAR <= year <= LAST_YEAR && 1 <= month <= 12 && 1 <= day <= 31
      && hour < 24 && minute < 60 && second < 60 && nanos < 1_000_000_000
    }

    predicate IsDate() {
      Valid() && day <= DaysIn(IsLeap(year), month)
    }

    predicate FourDigitYear() {
      0 <= year <= 9999
    }

    /** The order of the fields. */
    predicate Before(other: Instant) {
      year < other.year || (year == other.year &&
      (month < other.month || (month == other.month &&
      (day < other.day || (day == other.day &&
      (hour < other.hour || (hour == other.hour &&
      (minute < other.minute || (minute == other.minute &&
      (second < other.second || (second == other.second && nanos < other.nanos)))))))))))
    }
  }

  function Digit(n: nat): char
    requires n < 10
  {
    "0123456789"[n]
  }

  function Pow10(w: nat): nat {
    if w == 0 then 1 else 10 * Pow10(w - 1)
  }

  /** Decimal digits of `n`, padded with zeros to `w` places. */
  function Digits(n: nat, w: nat): (s: string)
    ensures |s| == w
    ensures forall c | c in s :: '0' <= c <= '9'
  {
    if w == 0 then "" else Digits(n / 10, w - 1) + [Digit(n % 10)]
  }

  const OFFSET := "+00:00"

  /** `SecondsFormat::AutoSi`: no fraction, or 3, 6 or 9 digits. */
  function Fraction(nanos: nat): string {
    if nanos == 0 then ""
    else if nanos % 1_000_000 == 0 then "." + Digits(nanos / 1_000_000, 3)
    else if nanos % 1_000 == 0 then "." + Digits(nanos / 1_000, 6)
    else "." + Digits(nanos, 9)
  }

  /** Four digits, or an explicit sign and at least four digits outside 0 to 9999. */
  function PrintYear(year: int): string {
    if 0 <= year <= 9999 then Digits(year, 4)
    else if year < 0 then "-" + LongYear(-year)
    else "+" + LongYear(year)
  }

  function LongYear(year: nat): string {
    if year <= 9999 then Digits(year, 4) else if year <= 99999 then Digits(year, 5) else Digits(year, 6)
  }

  /** `DateTime<Utc>::to_rfc3339` */
  function Print(t: Instant): string {
    PrintYear(t.year) + ("-" + (Digits(t.month, 2) + ("-" + (Digits(t.day, 2) + ("T" +
    (Digits(t.hour, 2) + (":" + (Digits(t.minute, 2) + (":" + (Digits(t.second, 2) +
    (Fraction(t.nanos) + OFFSET)))))))))))
  }

  lemma DigitLess(x: nat, y: nat)
    requires x < 10 && y < 10
    ensures Less([Digit(x)], [Digit(y)]) == (x < y)
    ensures Digit(x) == Digit(y) <==> x == y
  {
  }

  /** Printed fields read back as the numbers they were printed from. */
  lemma {:induction false} DigitsValue(n: nat, w: nat)
    requires n < Pow10(w)
    ensures IsDecimal(Digits(n, w)) && DecimalValue(Digits(n, w)) == n
  {
    if w > 0 {
      DigitsValue(n / 10, w - 1);
      var s := Digits(n, w);
      assert s[..w - 1] == Digits(n / 10, w - 1) && s[w - 1] == Digit(n % 10);
      DigitIs(n % 10);
    }
  }

  lemma DigitIs(n: nat)
    requires n < 10
    ensures Digit(n) as int == n + 48
  {
  }

  lemma LastDigitDecides(s: string, t: string, x: nat, y: nat)
    requires |s| == |t| && x < 10 && y < 10
    ensures Less(s + [Digit(x)], t + [Digit(y)]) == (Less(s, t) || (s == t && x < y))
    ensures s + [Digit(x)] == t + [Digit(y)] <==> s == t && x == y
  {
    DigitLess(x, y);
    hide Digit, Less;
    var a, b := s + [Digit(x)], t + [Digit(y)];
    assert a[..|s|] == s && b[..|t|] == t && a[|s|] == Digit(x) && b[|t|] == Digit(y);
    if s == t {
      LessIrreflexive(s);
      LessAfterPrefix(s, [Digit(x)], [Digit(y)]);
    } else {
      LessByHead(s, t, [Digit(x)], [Digit(y)]);
    }
  }

  /** Digits of one width are ordered as their numbers. */
  lemma {:induction false} DigitsOrder(a: nat, b: nat, w: nat)
    requires a < Pow10(w) && b < Pow10(w)
    ensures Less(Digits(a, w), Digits(b, w)) == (a < b)
    ensures Digits(a, w) == Digits(b, w) <==> a == b
  {
    if w > 0 {
      DigitsOrder(a / 10, b / 10, w - 1);
      LastDigitDecides(Digits(a / 10, w - 1), Digits(b / 10, w - 1), a % 10, b % 10);
    }
  }

  /** One printed field decides unless it is equal in both texts. */
  lemma FieldOrder(a: nat, b: nat, w: nat, x: string, y: string)
    requires a < Pow10(w) && b < Pow10(w)
    ensures Less(Digits(a, w) + x, Digits(b, w) + y) == (a < b || (a == b && Less(x, y)))
  {
    DigitsOrder(a, b, w);
    if a == b {
      LessAfterPrefix(Digits(a, w), x, y);
    } else {
      LessByHead(Digits(a, w), Digits(b, w), x, y);
    }
  }

  predicate Zeros(g: seq<nat>) {
    g == [] || (g[0] == 0 && Zeros(g[1..]))
  }

  predicate Triples(g: seq<nat>) {
    g == [] || (g[0] < 1000 && Triples(g[1..]))
  }

  /** The fraction in groups of three digits, stopping when only zeros are left. */
  function Groups(g: seq<nat>): string {
    if Zeros(g) then OFFSET else Digits(g[0], 3) + Groups(g[1..])
  }

  predicate LexLess(g: seq<nat>, h: seq<nat>)
    requires |g| == |h|
  {
    g != [] && (g[0] < h[0] || (g[0] == h[0] && LexLess(g[1..], h[1..])))
  }

  lemma {:induction false} LexLessThanZeros(g: seq<nat>, h: seq<nat>)
    requires |g| == |h| && Zeros(g)
    ensures LexLess(g, h) == !Zeros(h)
    ensures !LexLess(h, g)
  {
    if g != [] {
      LexLessThanZeros(g[1..], h[1..]);
    }
  }

  /** A shorter fraction is followed by '+', which sorts before any digit. */
  lemma {:induction false} GroupsOrder(g: seq<nat>, h: seq<nat>)
    requires |g| == |h| && Triples(g) && Triples(h)
    ensures Less(Groups(g), Groups(h)) == LexLess(g, h)
  {
    LessIrreflexive(OFFSET);
    if Zeros(g) {
      LexLessThanZeros(g, h);
      if !Zeros(h) {
        DigitFirst(h[0], Groups(h[1..]));
      }
    } else if Zeros(h) {
      LexLessThanZeros(h, g);
      DigitFirst(g[0], Groups(g[1..]));
    } else {
      GroupsOrder(g[1..], h[1..]);
      assert Pow10(3) == 1000;
      FieldOrder(g[0], h[0], 3, Groups(g[1..]), Groups(h[1..]));
    }
  }

  lemma DigitFirst(n: nat, rest: string)
    ensures Less(OFFSET, Digits(n, 3) + rest) && !Less(Digits(n, 3) + rest, OFFSET)
  {
    assert Digits(n, 3)[0] in Digits(n, 3);
  }

  lemma LastDigit(n: nat, d: nat, w: nat)
    requires d < 10
    ensures Digits(10 * n + d, w + 1) == Digits(n, w) + [Digit(d)]
  {
    assert (10 * n + d) / 10 == n && (10 * n + d) % 10 == d;
  }

  /** Digits of a number written as a high part and a low part of `v` digits. */
  lemma {:induction false} JoinDigits(n: nat, q: nat, r: nat, p: nat, w: nat, v: nat)
    requires p == Pow10(v) && n == q * p + r && r < p
    ensures Digits(n, w + v) == Digits(q, w) + Digits(r, v)
  {
    if v > 0 {
      var p', high, d := Pow10(v - 1), r / 10, r % 10;
      var rest := q * p' + high;
      Shift(q, p', high, d);
      JoinDigits(rest, q, high, p', w, v - 1);
      LastDigit(rest, d, w + v - 1);
      LastDigit(high, d, v - 1);
    }
  }

  lemma Shift(q: nat, p: nat, high: nat, d: nat)
    ensures q * (10 * p) + (10 * high + d) == 10 * (q * p + high) + d
  {
  }

  /** A fraction of a second as milliseconds, microseconds and nanoseconds. */
  function Thousands(nanos: nat): seq<nat> {
    [nanos / 1_000_000, nanos / 1_000 % 1_000, nanos % 1_000]
  }

  lemma ThreeGroups(a: nat, b: nat, c: nat)
    ensures Groups([a, b, c]) ==
      if a == b == c == 0 then OFFSET
      else if b == c == 0 then Digits(a, 3) + OFFSET
      else if c == 0 then Digits(a, 3) + (Digits(b, 3) + OFFSET)
      else Digits(a, 3) + (Digits(b, 3) + (Digits(c, 3) + OFFSET))
  {
    assert [a, b, c][1..] == [b, c] && [b, c][1..] == [c] && [c][1..] == [];
    assert Zeros([c]) == (c == 0);
    assert Zeros([b, c]) == (b == c == 0);
    assert Groups([c]) == if c == 0 then OFFSET else Digits(c, 3) + OFFSET;
    assert Groups([b, c]) == if b == c == 0 then OFFSET else Digits(b, 3) + Groups([c]);
  }

  lemma FractionInGroups(nanos: nat)
    requires nanos < 1_000_000_000
    ensures Fraction(nanos) + OFFSET == if nanos == 0 then OFFSET else "." + Groups(Thousands(nanos))
  {
    var high, c := nanos / 1_000, nanos % 1_000;
    var a, b := high / 1_000, high % 1_000;
    Remainders(nanos);
    ThreeGroups(a, b, c);
    if c != 0 {
      NineDigits(nanos);
      Regroup(Digits(a, 3), Digits(b, 3), Digits(c, 3));
    } else if b != 0 {
      SixDigits(high);
      Regroup("", Digits(a, 3), Digits(b, 3));
    } else {
      Regroup("", "", Digits(a, 3));
    }
  }

  lemma Regroup(a: string, b: string, c: string)
    ensures "." + (a + b + c) + OFFSET == "." + (a + (b + (c + OFFSET)))
    ensures "" + b == b
  {
  }

  lemma SixDigits(n: nat)
    ensures Digits(n, 6) == Digits(n / 1_000, 3) + Digits(n % 1_000, 3)
  {
    assert Pow10(3) == 1_000;
    JoinDigits(n, n / 1_000, n % 1_000, 1_000, 3, 3);
  }

  lemma NineDigits(n: nat)
    ensures Digits(n, 9) == Digits(n / 1_000 / 1_000, 3) + Digits(n / 1_000 % 1_000, 3) + Digits(n % 1_000, 3)
  {
    assert Pow10(3) == 1_000;
    JoinDigits(n, n / 1_000, n % 1_000, 1_000, 6, 3);
    SixDigits(n / 1_000);
  }

  lemma Remainders(nanos: nat)
    ensures nanos / 1_000 / 1_000 == nanos / 1_000_000
    ensures nanos % 1_000_000 == 0 <==> nanos % 1_000 == 0 && nanos / 1_000 % 1_000 == 0
    ensures nanos == 0 <==> nanos % 1_000 == 0 && nanos / 1_000 % 1_000 == 0 && nanos / 1_000_000 == 0
  {
    var a, b, c := nanos / 1_000_000, nanos / 1_000 % 1_000, nanos % 1_000;
    assert nanos == 1_000_000 * a + (1_000 * b + c);
  }

  lemma TriplesOf(nanos: nat)
    requires nanos < 1_000_000_000
    ensures Triples(Thousands(nanos))
  {
    var g := Thousands(nanos);
    assert Triples(g[1..][1..][1..]);
    assert Triples(g[1..][1..]);
    assert Triples(g[1..]);
  }

  lemma ThousandsOrder(m: nat, n: nat)
    requires m < 1_000_000_000 && n < 1_000_000_000
    ensures Triples(Thousands(m)) && Triples(Thousands(n))
    ensures LexLess(Thousands(m), Thousands(n)) == (m < n)
  {
    TriplesOf(m);
    TriplesOf(n);
    InThousands(m);
    InThousands(n);
    ThreeOrder(Thousands(m), Thousands(n));
  }

  lemma InThousands(n: nat)
    requires n < 1_000_000_000
    ensures var g := Thousands(n);
      |g| == 3 && g[0] < 1_000 && g[1] < 1_000 && g[2] < 1_000
      && n == g[0] * 1_000_000 + g[1] * 1_000 + g[2]
  {
    Remainders(n);
  }

  lemma ThreeOrder(g: seq<nat>, h: seq<nat>)
    requires |g| == |h| == 3
    ensures LexLess(g, h) ==
      (g[0] < h[0] || (g[0] == h[0] && (g[1] < h[1] || (g[1] == h[1] && g[2] < h[2]))))
  {
    assert g[1..] == [g[1], g[2]] && g[1..][1..] == [g[2]];
    assert h[1..] == [h[1], h[2]] && h[1..][1..] == [h[2]];
    assert LexLess([g[2]], [h[2]]) == (g[2] < h[2]);
  }

  lemma FractionOrder(m: nat, n: nat)
    requires m < 1_000_000_000 && n < 1_000_000_000
    ensures Less(Fraction(m) + OFFSET, Fraction(n) + OFFSET) == (m < n)
  {
    FractionInGroups(m);
    FractionInGroups(n);
    LessIrreflexive(OFFSET);
    ThousandsOrder(m, n);
    GroupsOrder(Thousands(m), Thousands(n));
    LessAfterPrefix(".", Groups(Thousands(m)), Groups(Thousands(n)));
  }

  /** In years 0000 to 9999, text order is time order. */
  lemma TextOrderIsTimeOrder(a: Instant, b: Instant)
    requires a.Valid() && b.Valid() && a.FourDigitYear() && b.FourDigitYear()
    ensures Less(Print(a), Print(b)) == a.Before(b)
    ensures Print(a) == Print(b) <==> a == b
  {
    PrintOrder(a, b);
    PrintOrder(b, a);
    LessIrreflexive(Print(a));
  }

  lemma PrintOrder(a: Instant, b: Instant)
    requires a.Valid() && b.Valid() && a.FourDigitYear() && b.FourDigitYear()
    ensures Less(Print(a), Print(b)) == a.Before(b)
  {
    assert Pow10(2) == 100 && Pow10(4) == 10000;
    var a6, b6 := Fraction(a.nanos) + OFFSET, Fraction(b.nanos) + OFFSET;
    FractionOrder(a.nanos, b.nanos);
    var a5, b5 := Digits(a.second, 2) + a6, Digits(b.second, 2) + b6;
    FieldOrder(a.second, b.second, 2, a6, b6);
    LessAfterPrefix(":", a5, b5);
    var a4, b4 := Digits(a.minute, 2) + (":" + a5), Digits(b.minute, 2) + (":" + b5);
    FieldOrder(a.minute, b.minute, 2, ":" + a5, ":" + b5);
    LessAfterPrefix(":", a4, b4);
    var a3, b3 := Digits(a.hour, 2) + (":" + a4), Digits(b.hour, 2) + (":" + b4);
    FieldOrder(a.hour, b.hour, 2, ":" + a4, ":" + b4);
    LessAfterPrefix("T", a3, b3);
    var a2, b2 := Digits(a.day, 2) + ("T" + a3), Digits(b.day, 2) + ("T" + b3);
    FieldOrder(a.day, b.day, 2, "T" + a3, "T" + b3);
    LessAfterPrefix("-", a2, b2);
    var a1, b1 := Digits(a.month, 2) + ("-" + a2), Digits(b.month, 2) + ("-" + b2);
    FieldOrder(a.month, b.month, 2, "-" + a2, "-" + b2);
    LessAfterPrefix("-", a1, b1);
    FieldOrder(a.year, b.year, 4, "-" + a1, "-" + b1);
    assert Print(a) == Digits(a.year, 4) + ("-" + a1);
    assert Print(b) == Digits(b.year, 4) + ("-" + b1);
  }

  /** The bound on the year is exact: a scheduled time beyond 9999 prints with a
      leading '+', sorts before every current time, and so counts as due. */
  lemma TextOrderNeedsFourDigitYear(now: Instant, due: Instant)
    requires now.Valid() && due.Valid() && now.FourDigitYear() && now.Before(due)
    ensures Less(Print(now), Print(due)) <==> due.year <= 9999
  {
    if due.year <= 9999 {
      PrintOrder(now, due);
    } else {
      SignFirst(due, now);
    }
  }

  /** A year with a sign sorts before every year without. */
  lemma SignFirst(a: Instant, b: Instant)
    requires a.Valid() && b.Valid() && !a.FourDigitYear() && b.FourDigitYear()
    ensures Less(Print(a), Print(b)) && !Less(Print(b), Print(a))
  {
    assert Print(a)[0] == if a.year < 0 then '-' else '+';
    assert Print(b)[0] == Digits(b.year, 4)[0];
    assert Digits(b.year, 4)[0] in Digits(b.year, 4);
  }

  /** The layout of a printed time of years 0 to 9999: each field reads back at its place,
      and what follows is the fraction, if any, and the offset. */
  lemma PrintLayout(t: Instant)
    requires t.Valid() && t.FourDigitYear()
    ensures var s := Print(t);
      && |s| >= 19 && s[4] == s[7] == '-' && s[10] == 'T' && s[13] == s[16] == ':'
      && ReadsAs(s[0..4], t.year) && ReadsAs(s[5..7], t.month) && ReadsAs(s[8..10], t.day)
      && ReadsAs(s[11..13], t.hour) && ReadsAs(s[14..16], t.minute) && ReadsAs(s[17..19], t.second)
      && s[19..] == Fraction(t.nanos) + "+00:00"
  {
    assert Pow10(2) == 100 && Pow10(4) == 10000;
    DigitsValue(t.year, 4);
    DigitsValue(t.month, 2);
    DigitsValue(t.day, 2);
    DigitsValue(t.hour, 2);
    DigitsValue(t.minute, 2);
    DigitsValue(t.second, 2);
    hide Digits, Fraction, IsDecimal, DecimalValue;
    Parts(Digits(t.year, 4), Digits(t.month, 2), Digits(t.day, 2), Digits(t.hour, 2), Digits(t.minute, 2),
      Digits(t.second, 2), Fraction(t.nanos) + OFFSET);
  }

  lemma Parts(y: string, m: string, d: string, h: string, n: string, c: string, tail: string)
    requires |y| == 4 && |m| == |d| == |h| == |n| == |c| == 2
    ensures var s := y + ("-" + (m + ("-" + (d + ("T" + (h + (":" + (n + (":" + (c + tail))))))))));
      && |s| >= 19 && s[4] == s[7] == '-' && s[10] == 'T' && s[13] == s[16] == ':'
      && s[0..4] == y && s[5..7] == m && s[8..10] == d && s[11..13] == h && s[14..16] == n && s[17..19] == c
      && s[19..] == tail
  {
    var r5 := n + (":" + (c + tail));
    var r3 := d + ("T" + (h + (":" + r5)));
    var s := y + ("-" + (m + ("-" + r3)));
    Part(s, 0, y, "-" + (m + ("-" + r3)));
    Part(s, 4, "-", m + ("-" + r3));
    Part(s, 5, m, "-" + r3);
    Part(s, 7, "-", r3);
    Part(s, 8, d, "T" + (h + (":" + r5)));
    Part(s, 10, "T", h + (":" + r5));
    Part(s, 11, h, ":" + r5);
    Part(s, 13, ":", r5);
    Part(s, 14, n, ":" + (c + tail));
    Part(s, 16, ":", c + tail);
    Part(s, 17, c, tail);
  }

  /** Other years read back after their sign, without zeros in front beyond four digits. */
  lemma LongYearReads(year: nat)
    requires year <= 262143
    ensures ReadsAs(LongYear(year), year)
    ensures |LongYear(year)| == if year < 10_000 then 4 else if year < 100_000 then 5 else 6
  {
    assert Pow10(4) == 10_000 && Pow10(5) == 100_000 && Pow10(6) == 1_000_000;
    DigitsValue(year, if year < 10_000 then 4 else if year < 100_000 then 5 else 6);
  }

  /** One part of a text that is read from left to right. */
  lemma Part(s: string, from: nat, part: string, rest: string)
    requires from <= |s| && s[from..] == part + rest
    ensures from + |part| <= |s| && s[from..from + |part|] == part && s[from + |part|..] == rest
    ensures |part| == 1 ==> s[from] == part[0]
  {
    var tail, n := s[from..], |part|;
    assert tail[..n] == part && tail[n..] == rest;
    SliceOfTail(s, from, n);
  }

  lemma SliceOfTail(s: string, from: nat, n: nat)
    requires from + n <= |s|
    ensures s[from..from + n] == s[from..][..n] && s[from + n..] == s[from..][n..]
    ensures n > 0 ==> s[from] == s[from..][0]
  {
  }

  predicate ReadsAs(s: string, n: int) {
    IsDecimal(s) && DecimalValue(s) == n
  }

  /** The fraction: none, or a dot and as many groups of three digits as it needs. */
  lemma FractionIs(nanos: nat)
    requires nanos < 1_000_000_000
    ensures var f := Fraction(nanos);
      && (nanos == 0 ==> f == "")
      && (nanos > 0 ==> |f| in {4, 7, 10} && f[0] == '.' && IsDecimal(f[1..]))
      && (|f| == 4 ==> DecimalValue(f[1..]) * 1_000_000 == nanos)
      && (|f| == 7 ==> DecimalValue(f[1..]) * 1_000 == nanos && nanos % 1_000_000 != 0)
      && (|f| == 10 ==> DecimalValue(f[1..]) == nanos && nanos % 1_000 != 0)
  {
    assert Pow10(3) == 1_000 && Pow10(6) == 1_000_000 && Pow10(9) == 1_000_000_000;
    if nanos % 1_000_000 == 0 {
      DigitsValue(nanos / 1_000_000, 3);
    } else if nanos % 1_000 == 0 {
      DigitsValue(nanos / 1_000, 6);
    } else {
      DigitsValue(nanos, 9);
    }
  }

  predicate IsLeap(year: int) {
    year % 4 == 0 && (year % 100 != 0 || year % 400 == 0)
  }

  function DaysIn(leap: bool, month: nat): nat {
    if month == 2 then (if leap then 29 else 28)
    else if month == 4 || month == 6 || month == 9 || month == 11 then 30
    else 31
  }

  /** Days of a year before a month. */
  function DaysBeforeMonth(leap: bool, month: nat): nat {
    if month <= 1 then 0 else DaysBeforeMonth(leap, month - 1) + DaysIn(leap, month - 1)
  }

  /** Days from the start of year 0 to the start of a year; the quotients round down. */
  function DaysBeforeYear(year: int): int {
    365 * year + (year + 3) / 4 - (year + 99) / 100 + (year + 399) / 400
  }

  function DayNumber(t: Instant): int
    requires t.IsDate()
  {
    DaysBeforeYear(t.year) + DaysBeforeMonth(IsLeap(t.year), t.month) + t.day - 1
  }

  /** Nanoseconds of the day. */
  function Clock(t: Instant): nat {
    ((t.hour * 60 + t.minute) * 60 + t.second) * 1_000_000_000 + t.nanos
  }

  const DAY: nat := 86_400_000_000_000
  const YEAR_10000: nat := 3_652_425 * DAY

  /** The first date of the time library, and the first time after its last. */
  const DATES_BEGIN: int := DaysBeforeYear(FIRST_YEAR) * DAY
  const DATES_END: int := DaysBeforeYear(LAST_YEAR + 1) * DAY

  /** Nanoseconds since the start of year 0. */
  function Nanos(t: Instant): int
    requires t.IsDate()
  {
    DayNumber(t) * DAY + Clock(t)
  }

  lemma HundredIsFours(year: int)
    ensures year % 100 == 0 ==> year % 4 == 0
  {
    QuotientIs(year, 4, 25 * (year / 100) + year % 100 / 4);
  }

  lemma FourHundredIsHundreds(year: int)
    ensures year % 400 == 0 ==> year % 100 == 0
  {
    QuotientIs(year, 100, 4 * (year / 400) + year % 400 / 100);
  }

  lemma LeapDays(year: int)
    ensures DaysBeforeYear(year + 1) == DaysBeforeYear(year) + (if IsLeap(year) then 366 else 365)
  {
    RoundedUp(year, 4);
    RoundedUp(year, 100);
    RoundedUp(year, 400);
    HundredIsFours(year);
    FourHundredIsHundreds(year);
  }

  lemma {:induction false} LaterYear(a: int, b: int)
    requires a < b
    ensures DaysBeforeYear(a + 1) <= DaysBeforeYear(b)
    decreases b - a
  {
    if a + 1 < b {
      LaterYear(a, b - 1);
      LeapDays(b - 1);
    }
  }

  lemma {:induction false} LaterMonth(leap: bool, a: nat, b: nat)
    requires 1 <= a < b
    ensures DaysBeforeMonth(leap, a) + DaysIn(leap, a) <= DaysBeforeMonth(leap, b)
    decreases b
  {
    if a + 1 < b {
      LaterMonth(leap, a, b - 1);
    }
  }

  lemma DayInYear(t: Instant)
    requires t.IsDate()
    ensures DaysBeforeYear(t.year) <= DayNumber(t) < DaysBeforeYear(t.year + 1)
  {
    LeapDays(t.year);
    if t.month < 13 {
      LaterMonth(IsLeap(t.year), t.month, 13);
    }
    YearLength(IsLeap(t.year));
  }

  lemma MonthsAre(leap: bool, month: nat)
    requires 1 <= month <= 12
    ensures DaysIn(leap, month) == [31, if leap then 29 else 28, 31, 30, 31, 30, 31, 31, 30, 31, 30, 31][month - 1]
  {
  }

  /** Known times: the start of year 0, of 1970, and a moment in 2000, by Unix time. */
  lemma KnownTimes()
    ensures Nanos(Instant(0, 1, 1, 0, 0, 0, 0)) == 0
    ensures Nanos(Instant(1970, 1, 1, 0, 0, 0, 0)) == 62_167_219_200_000_000_000
  {
    assert DaysBeforeYear(1970) == 719_528;
  }

  lemma KnownMoment()
    ensures Nanos(Instant(2000, 3, 1, 13, 59, 58, 7)) == 62_167_219_200_000_000_000 + 951_919_198_000_000_007
  {
    var t := Instant(2000, 3, 1, 13, 59, 58, 7);
    assert IsLeap(2000) && DaysBeforeYear(2000) == 730_485;
    assert DaysBeforeMonth(true, 2) == 31 && DaysBeforeMonth(true, 3) == 60;
    assert DayNumber(t) == 730_545 && Clock(t) == 50_398_000_000_007;
  }

  lemma YearLength(leap: bool)
    ensures DaysBeforeMonth(leap, 13) == if leap then 366 else 365
  {
    assert DaysBeforeMonth(leap, 2) == 31;
    assert DaysBeforeMonth(leap, 3) == 31 + DaysIn(leap, 2);
    assert DaysBeforeMonth(leap, 5) == DaysBeforeMonth(leap, 3) + 61;
    assert DaysBeforeMonth(leap, 7) == DaysBeforeMonth(leap, 5) + 61;
    assert DaysBeforeMonth(leap, 9) == DaysBeforeMonth(leap, 7) + 62;
    assert DaysBeforeMonth(leap, 11) == DaysBeforeMonth(leap, 9) + 61;
  }

  /** Later dates have higher day numbers. */
  lemma DaysFollowDates(a: Instant, b: Instant)
    requires a.IsDate() && b.IsDate()
    ensures a.year < b.year || (a.year == b.year && (a.month < b.month || (a.month == b.month && a.day < b.day)))
      ==> DayNumber(a) < DayNumber(b)
  {
    DayInYear(a);
    DayInYear(b);
    if a.year < b.year {
      LaterYear(a.year, b.year);
    } else if a.month < b.month {
      LaterMonth(IsLeap(a.year), a.month, b.month);
    }
  }

  lemma BeforeIsEarlier(a: Instant, b: Instant)
    requires a.IsDate() && b.IsDate() && a.Before(b)
    ensures Nanos(a) < Nanos(b)
  {
    DaysFollowDates(a, b);
    assert Clock(a) < DAY;
    if DayNumber(a) < DayNumber(b) {
      assert (DayNumber(a) + 1) * DAY <= DayNumber(b) * DAY;
    }
  }

  /** For dates of the Gregorian calendar in years 0000 to 9999, comparing the printed
      texts compares the times; those years are the times before YEAR_10000. */
  lemma TextComparesTimes(a: Instant, b: Instant)
    requires a.IsDate() && b.IsDate() && a.FourDigitYear() && b.FourDigitYear()
    ensures Less(Print(a), Print(b)) <==> Nanos(a) < Nanos(b)
    ensures Print(a) == Print(b) <==> Nanos(a) == Nanos(b)
    ensures Nanos(a) < YEAR_10000
  {
    TextOrderIsTimeOrder(a, b);
    if a.Before(b) {
      BeforeIsEarlier(a, b);
    } else if a != b {
      BeforeIsEarlier(b, a);
    }
    EndOfTime(a);
  }

  /** Dates lie between the limits, and years 0 to 9999 between 0 and YEAR_10000. */
  lemma EndOfTime(a: Instant)
    requires a.IsDate()
    ensures DATES_BEGIN <= Nanos(a) < DATES_END
    ensures Nanos(a) < YEAR_10000 <==> a.year <= 9999
    ensures Nanos(a) < 0 <==> a.year < 0
  {
    YearLimits(a, FIRST_YEAR);
    YearLimits(a, LAST_YEAR + 1);
    YearLimits(a, 10000);
    YearLimits(a, 0);
    assert DaysBeforeYear(10000) == 3_652_425 && DaysBeforeYear(0) == 0;
  }

  /** A date is before the start of a year exactly if its own year is. */
  lemma YearLimits(a: Instant, year: int)
    requires a.IsDate()
    ensures Nanos(a) < DaysBeforeYear(year) * DAY <==> a.year < year
  {
    DayInYear(a);
    assert 0 <= Clock(a) < DAY;
    if a.year < year {
      LaterYear(a.year, year);
      Multiples(DAY, DayNumber(a) + 1, DaysBeforeYear(year));
    } else {
      if a.year > year {
        LaterYear(year, a.year);
        LeapDays(year);
      }
      Multiples(DAY, DaysBeforeYear(year), DayNumber(a));
    }
  }

  /** What the database makes of "due at or before now" for any printed date: a date
      beyond year 9999 counts as reached, and so does, rightly, one before year 0. */
  lemma TextAtMost(due: Instant, now: Instant)
    requires due.IsDate() && now.IsDate() && now.FourDigitYear()
    ensures !Less(Print(now), Print(due)) <==> Nanos(due) <= Nanos(now) || Nanos(due) >= YEAR_10000
  {
    EndOfTime(due);
    EndOfTime(now);
    if due.FourDigitYear() {
      TextComparesTimes(now, due);
    } else {
      SignFirst(due, now);
    }
  }
}
