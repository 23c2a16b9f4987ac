/** Stored timestamps: `t.UTC().Format(time.RFC3339Nano)`, which SQL compares as text.

The format is that of sections 5.1 and 5.6 of RFC 3339; Go trims trailing zeros of the fraction.
*/
module Timestamps {
  import opened Text

  /** A UTC time with a four-digit year. */
  datatype Civil = Civil(year: nat, month: nat, day: nat, hour: nat, minute: nat, second: nat, nanos: nat)

  predicate IsLeap(y: nat) {
    y % 4 == 0 && (y % 100 != 0 || y % 400 == 0)
  }

  function MonthLength(y: nat, m: nat): (n: nat)
    ensures 28 <= n <= 31
  {
    if m == 2 then (if IsLeap(y) then 29 else 28) else if m in {4, 6, 9, 11} then 30 else 31
  }

  predicate InCalendar(t: Civil) {
    && t.year <= 9999 && 1 <= t.month <= 12 && 1 <= t.day <= MonthLength(t.year, t.month)
    && t.hour < 24 && t.minute < 60 && t.second < 60 && t.nanos < 1_000_000_000
  }

  type Time = t: Civil | InCalendar(t) witness Civil(0, 1, 1, 0, 0, 0, 0)

  // ---------------- Order in time ----------------

  function DaysBeforeMonth(y: nat, m: nat): nat {
    if m <= 1 then 0 else DaysBeforeMonth(y, m - 1) + MonthLength(y, m - 1)
  }

  function DaysBeforeYear(y: nat): nat {
    if y == 0 then 0 else DaysBeforeYear(y - 1) + DaysBeforeMonth(y - 1, 13)
  }

  function Day(t: Time): nat {
    DaysBeforeYear(t.year) + DaysBeforeMonth(t.year, t.month) + t.day - 1
  }

  function SecondOfDay(t: Time): (s: nat)
    ensures s < 86400
  {
    t.hour * 3600 + t.minute * 60 + t.second
  }

  /** Whole seconds since the start of year 0. */
  function Seconds(t: Time): nat {
    Day(t) * 86400 + SecondOfDay(t)
  }

  const NANOS := 1_000_000_000

  /** Nanoseconds since the start of year 0. */
  function Instant(t: Time): nat {
    Seconds(t) * NANOS + t.nanos
  }

  lemma {:induction false} MonthsAdvance(y: nat, m: nat, n: nat)
    requires 1 <= m < n <= 13
    ensures DaysBeforeMonth(y, m) + MonthLength(y, m) <= DaysBeforeMonth(y, n)
  {
    if m + 1 < n {
      MonthsAdvance(y, m, n - 1);
    }
  }

  lemma {:induction false} YearsAdvance(y: nat, z: nat)
    requires y < z
    ensures DaysBeforeYear(y) + DaysBeforeMonth(y, 13) <= DaysBeforeYear(z)
  {
    if y + 1 < z {
      YearsAdvance(y, z - 1);
    }
  }

  lemma DayWithinYear(t: Time)
    ensures Day(t) < DaysBeforeYear(t.year) + DaysBeforeMonth(t.year, 13)
  {
    MonthsAdvance(t.year, t.month, 13);
  }

  ghost predicate EarlierDay(a: Time, b: Time) {
    a.year < b.year || (a.year == b.year && (a.month < b.month || (a.month == b.month && a.day < b.day)))
  }

  ghost predicate EarlierClock(a: Time, b: Time) {
    a.hour < b.hour || (a.hour == b.hour && (a.minute < b.minute || (a.minute == b.minute && a.second < b.second)))
  }

  lemma EarlierDayComesFirst(a: Time, b: Time)
    requires EarlierDay(a, b)
    ensures Day(a) < Day(b)
  {
    if a.year < b.year {
      DayWithinYear(a);
      YearsAdvance(a.year, b.year);
    } else if a.month < b.month {
      MonthsAdvance(a.year, a.month, b.month);
    }
  }

  lemma SecondsOrder(a: Time, b: Time)
    ensures Seconds(a) < Seconds(b) <==> EarlierDay(a, b) || (SameDay(a, b) && EarlierClock(a, b))
    ensures Seconds(a) == Seconds(b) <==> SameDay(a, b) && SameClock(a, b)
  {
    if EarlierDay(a, b) {
      EarlierDayComesFirst(a, b);
    } else if EarlierDay(b, a) {
      EarlierDayComesFirst(b, a);
    }
  }

  ghost predicate SameDay(a: Time, b: Time) {
    a.year == b.year && a.month == b.month && a.day == b.day
  }

  ghost predicate SameClock(a: Time, b: Time) {
    a.hour == b.hour && a.minute == b.minute && a.second == b.second
  }

  // ---------------- The printed text ----------------

  function Pow10(w: nat): nat {
    if w == 0 then 1 else 10 * Pow10(w - 1)
  }

  /** `n` in `w` decimal places. */
  function Pad(n: nat, w: nat): (s: string)
    ensures |s| == w && AllDigits(s)
  {
    if w == 0 then "" else Pad(n / 10, w - 1) + [Digit(n % 10)]
  }

  function TrimZeros(s: string): string {
    if s == [] then []
    else
      var rest := TrimZeros(s[1..]);
      if rest == [] && s[0] == '0' then [] else [s[0]] + rest
  }

  /** The fraction digits that are printed. */
  function Fraction(t: Time): string {
    TrimZeros(Pad(t.nanos, 9))
  }

  function DateText(t: Time): (s: string)
    ensures |s| == 10
  {
    Pad(t.year, 4) + "-" + Pad(t.month, 2) + "-" + Pad(t.day, 2)
  }

  function ClockText(t: Time): (s: string)
    ensures |s| == 8
  {
    Pad(t.hour, 2) + ":" + Pad(t.minute, 2) + ":" + Pad(t.second, 2)
  }

  function Tail(fraction: string): string {
    if fraction == "" then "Z" else "." + fraction + "Z"
  }

  function Stamp(t: Time): string {
    DateText(t) + "T" + ClockText(t) + Tail(Fraction(t))
  }

  // ---------------- What the text says ----------------

  lemma {:induction false} PadValue(n: nat, w: nat)
    requires n < Pow10(w)
    ensures Value(Pad(n, w)) == n
  {
    if w > 0 {
      PadValue(n / 10, w - 1);
      assert Pad(n, w)[..w - 1] == Pad(n / 10, w - 1);
    }
  }

  lemma {:induction false} TrimmedShape(s: string)
    requires AllDigits(s)
    ensures var r := TrimZeros(s);
      && |r| <= |s| && r == s[..|r|] && (r != "" ==> r[|r| - 1] != '0')
      && forall k :: |r| <= k < |s| ==> s[k] == '0'
  {
    if s != [] {
      TrimmedShape(s[1..]);
      var r := TrimZeros(s);
      assert r != "" ==> s[..|r|] == [s[0]] + s[1..][..|r| - 1];
      assert forall k :: 1 <= k < |s| ==> s[k] == s[1..][k - 1];
    }
  }

  lemma {:induction false} ZerosScale(s: string, n: nat)
    requires AllDigits(s) && n <= |s| && forall k :: n <= k < |s| ==> s[k] == '0'
    ensures Value(s) == Value(s[..n]) * Pow10(|s| - n)
  {
    if n == |s| {
      assert s[..n] == s;
    } else {
      ZerosScale(s[..|s| - 1], n);
      assert s[..|s| - 1][..n] == s[..n];
      Scale(Value(s[..n]), Pow10(|s| - 1 - n));
    }
  }

  lemma Scale(a: nat, b: nat)
    ensures a * b * 10 == a * (10 * b)
  {
  }

  /** The digits after the point, as nanoseconds. */
  lemma FractionReads(t: Time)
    ensures var f := Fraction(t);
      && |f| <= 9 && AllDigits(f) && Value(f) * Pow10(9 - |f|) == t.nanos
      && (f == "" <==> t.nanos == 0) && (f != "" ==> f[|f| - 1] != '0')
  {
    var digits := Pad(t.nanos, 9);
    Widths();
    PadValue(t.nanos, 9);
    TrimmedShape(digits);
    var f := Fraction(t);
    ZerosScale(digits, |f|);
    if f != "" && t.nanos == 0 {
      NoneIsZero(f);
    }
  }

  lemma NoneIsZero(f: string)
    requires AllDigits(f) && f != "" && f[|f| - 1] != '0'
    ensures Value(f) > 0
  {
  }

  /** Year, month and day stand before the T, with dashes; hour, minute and second after it, with colons; then the
  fraction, if there is one, and a Z. */
  lemma StampReads(t: Time)
    ensures var s, f := Stamp(t), Fraction(t);
      && |s| == (if f == "" then 20 else 21 + |f|)
      && AllDigits(s[..4]) && Value(s[..4]) == t.year && s[4] == '-'
      && AllDigits(s[5..7]) && Value(s[5..7]) == t.month && s[7] == '-'
      && AllDigits(s[8..10]) && Value(s[8..10]) == t.day && s[10] == 'T'
      && AllDigits(s[11..13]) && Value(s[11..13]) == t.hour && s[13] == ':'
      && AllDigits(s[14..16]) && Value(s[14..16]) == t.minute && s[16] == ':'
      && AllDigits(s[17..19]) && Value(s[17..19]) == t.second
      && (f == "" ==> s[19..] == "Z") && (f != "" ==> s[19..] == "." + f + "Z")
  {
    Widths();
    PadValue(t.year, 4);
    PadValue(t.month, 2);
    PadValue(t.day, 2);
    PadValue(t.hour, 2);
    PadValue(t.minute, 2);
    PadValue(t.second, 2);
    var s := Stamp(t);
    DatePlaces(t);
    ClockPlaces(t);
    StampPlaces(DateText(t), ClockText(t), Tail(Fraction(t)));
  }

  lemma DatePlaces(t: Time)
    ensures var d := DateText(t);
      d[..4] == Pad(t.year, 4) && d[5..7] == Pad(t.month, 2) && d[8..10] == Pad(t.day, 2) && d[4] == d[7] == '-'
  {
  }

  lemma ClockPlaces(t: Time)
    ensures var c := ClockText(t);
      c[..2] == Pad(t.hour, 2) && c[3..5] == Pad(t.minute, 2) && c[6..8] == Pad(t.second, 2) && c[2] == c[5] == ':'
  {
  }

  lemma StampPlaces(d: string, c: string, tail: string)
    requires |d| == 10 && |c| == 8
    ensures var s := d + "T" + c + tail;
      && |s| == 19 + |tail| && s[..4] == d[..4] && s[4] == d[4] && s[5..7] == d[5..7] && s[7] == d[7]
      && s[8..10] == d[8..10] && s[10] == 'T' && s[11..13] == c[..2] && s[13] == c[2] && s[14..16] == c[3..5]
      && s[16] == c[5] && s[17..19] == c[6..8] && s[19..] == tail
  {
    var s := d + "T" + c + tail;
    assert s[..10] == d && s[11..19] == c;
    assert s[..4] == s[..10][..4] && s[5..7] == s[..10][5..7] && s[8..10] == s[..10][8..10];
    assert s[11..13] == s[11..19][..2] && s[14..16] == s[11..19][3..5] && s[17..19] == s[11..19][6..8];
  }

  /** The calendar behind `Instant`: twelve months to 365 or 366 days. */
  lemma CalendarYear(y: nat)
    ensures MonthLength(y, 1) == 31 && MonthLength(y, 3) == 31 && MonthLength(y, 4) == 30 && MonthLength(y, 5) == 31
    ensures MonthLength(y, 6) == 30 && MonthLength(y, 7) == 31 && MonthLength(y, 8) == 31 && MonthLength(y, 9) == 30
    ensures MonthLength(y, 10) == 31 && MonthLength(y, 11) == 30 && MonthLength(y, 12) == 31
    ensures MonthLength(y, 2) == if y % 400 == 0 || (y % 4 == 0 && y % 100 != 0) then 29 else 28
    ensures DaysBeforeMonth(y, 13) == 337 + MonthLength(y, 2)
  {
    var february := MonthLength(y, 2);
    assert DaysBeforeMonth(y, 2) == 31 && DaysBeforeMonth(y, 3) == 31 + february;
    assert DaysBeforeMonth(y, 4) == 62 + february;
    assert DaysBeforeMonth(y, 5) == 92 + february;
    assert DaysBeforeMonth(y, 6) == 123 + february;
    assert DaysBeforeMonth(y, 7) == 153 + february;
    assert DaysBeforeMonth(y, 8) == 184 + february;
    assert DaysBeforeMonth(y, 9) == 215 + february;
    assert DaysBeforeMonth(y, 10) == 245 + february;
    assert DaysBeforeMonth(y, 11) == 276 + february;
    assert DaysBeforeMonth(y, 12) == 306 + february;
  }

  /** `Instant` counts days of 24 hours of 60 minutes of 60 seconds, in nanoseconds. */
  lemma InstantCounts(t: Time)
    ensures Instant(t) == (((Day(t) * 24 + t.hour) * 60 + t.minute) * 60 + t.second) * 1_000_000_000 + t.nanos
  {
  }

  // ---------------- The order of the texts ----------------

  lemma LtCons(c: char, x: string, d: char, y: string)
    ensures Lt([c] + x, [d] + y) <==> c < d || (c == d && Lt(x, y))
  {
    assert ([c] + x)[1..] == x && ([d] + y)[1..] == y;
  }

  lemma {:induction false} PadOrder(n: nat, m: nat, w: nat)
    requires n < Pow10(w) && m < Pow10(w)
    ensures Lt(Pad(n, w), Pad(m, w)) <==> n < m
    ensures Pad(n, w) == Pad(m, w) <==> n == m
  {
    if w > 0 {
      PadOrder(n / 10, m / 10, w - 1);
      LtConcat(Pad(n / 10, w - 1), [Digit(n % 10)], Pad(m / 10, w - 1), [Digit(m % 10)]);
      LtCons(Digit(n % 10), "", Digit(m % 10), "");
      assert [Digit(n % 10)] + "" == [Digit(n % 10)] && [Digit(m % 10)] + "" == [Digit(m % 10)];
      assert Pad(n, w)[..w - 1] == Pad(n / 10, w - 1) && Pad(m, w)[..w - 1] == Pad(m / 10, w - 1);
      assert Pad(n, w)[w - 1] == Digit(n % 10) && Pad(m, w)[w - 1] == Digit(m % 10);
    }
  }

  lemma PairOrder(a: string, x: string, a': string, x': string, sep: char)
    requires |a| == |a'|
    ensures Lt(a + ([sep] + x), a' + ([sep] + x')) <==> Lt(a, a') || (a == a' && Lt(x, x'))
    ensures a + ([sep] + x) == a' + ([sep] + x') <==> a == a' && x == x'
  {
    LtConcat(a, [sep] + x, a', [sep] + x');
    LtCons(sep, x, sep, x');
    var s, s' := a + ([sep] + x), a' + ([sep] + x');
    assert s[..|a|] == a && s'[..|a'|] == a' && s[|a| + 1..] == x && s'[|a'| + 1..] == x';
  }

  /** Three numbers of fixed width with separators compare like the triple. */
  lemma TripleOrder(a: string, b: string, c: string, a': string, b': string, c': string, sep: char)
    requires |a| == |a'| && |b| == |b'|
    ensures var s, s' := a + [sep] + b + [sep] + c, a' + [sep] + b' + [sep] + c';
      && (Lt(s, s') <==> Lt(a, a') || (a == a' && (Lt(b, b') || (b == b' && Lt(c, c')))))
      && (s == s' <==> a == a' && b == b' && c == c')
  {
    PairOrder(b, c, b', c', sep);
    PairOrder(a, b + ([sep] + c), a', b' + ([sep] + c'), sep);
    assert a + [sep] + b + [sep] + c == a + ([sep] + (b + ([sep] + c)));
    assert a' + [sep] + b' + [sep] + c' == a' + ([sep] + (b' + ([sep] + c')));
  }

  lemma Widths()
    ensures Pow10(2) == 100 && Pow10(4) == 10_000 && Pow10(9) == NANOS
  {
    assert Pow10(5) == 100_000;
  }

  lemma DateOrder(a: Time, b: Time)
    ensures Lt(DateText(a), DateText(b)) <==> EarlierDay(a, b)
    ensures DateText(a) == DateText(b) <==> SameDay(a, b)
  {
    Widths();
    PadOrder(a.year, b.year, 4);
    PadOrder(a.month, b.month, 2);
    PadOrder(a.day, b.day, 2);
    TripleOrder(Pad(a.year, 4), Pad(a.month, 2), Pad(a.day, 2), Pad(b.year, 4), Pad(b.month, 2), Pad(b.day, 2), '-');
  }

  lemma ClockOrder(a: Time, b: Time)
    ensures Lt(ClockText(a), ClockText(b)) <==> EarlierClock(a, b)
    ensures ClockText(a) == ClockText(b) <==> SameClock(a, b)
  {
    Widths();
    PadOrder(a.hour, b.hour, 2);
    PadOrder(a.minute, b.minute, 2);
    PadOrder(a.second, b.second, 2);
    TripleOrder(Pad(a.hour, 2), Pad(a.minute, 2), Pad(a.second, 2),
                Pad(b.hour, 2), Pad(b.minute, 2), Pad(b.second, 2), ':');
  }

  /** Text order follows whole seconds first, then the fraction texts. */
  lemma StampOrderBySecond(a: Time, b: Time)
    ensures Lt(Stamp(a), Stamp(b))
      <==> Seconds(a) < Seconds(b) || (Seconds(a) == Seconds(b) && Lt(Tail(Fraction(a)), Tail(Fraction(b))))
  {
    var x, y := Tail(Fraction(a)), Tail(Fraction(b));
    assert Stamp(a) == DateText(a) + (['T'] + (ClockText(a) + x));
    assert Stamp(b) == DateText(b) + (['T'] + (ClockText(b) + y));
    LtConcat(DateText(a), ['T'] + (ClockText(a) + x), DateText(b), ['T'] + (ClockText(b) + y));
    LtCons('T', ClockText(a) + x, 'T', ClockText(b) + y);
    LtConcat(ClockText(a), x, ClockText(b), y);
    DateOrder(a, b);
    ClockOrder(a, b);
    SecondsOrder(a, b);
  }

  // ---------------- Fractions ----------------

  lemma {:induction false} TrimKeepsOrder(x: string, y: string)
    requires |x| == |y| && AllDigits(x) && AllDigits(y)
    ensures Lt(TrimZeros(x), TrimZeros(y)) <==> Lt(x, y)
  {
    if x != [] {
      TrimKeepsOrder(x[1..], y[1..]);
      LtCons(x[0], TrimZeros(x[1..]), y[0], TrimZeros(y[1..]));
      LtTotal(x[1..], x[1..]);
    }
  }

  lemma {:induction false} TrimDigits(x: string)
    requires AllDigits(x)
    ensures AllDigits(TrimZeros(x))
  {
    if x != [] {
      TrimDigits(x[1..]);
    }
  }

  /** With 'Z' after the digits a longer fraction sorts before its own beginning. */
  lemma {:induction false} ZOrder(x: string, y: string)
    requires AllDigits(x) && AllDigits(y)
    ensures Lt(x + "Z", y + "Z") <==> y < x || (!(x <= y) && Lt(x, y))
    ensures y < x ==> Lt(y, x)
  {
    if x == [] {
      assert x + "Z" == ['Z'] + "" && y + "Z" == if y == [] then ['Z'] + "" else [y[0]] + (y[1..] + "Z");
      LtCons('Z', "", 'Z', "");
      if y != [] { LtCons('Z', "", y[0], y[1..] + "Z"); }
    } else if y == [] {
      assert x + "Z" == [x[0]] + (x[1..] + "Z") && y + "Z" == ['Z'] + "";
      LtCons(x[0], x[1..] + "Z", 'Z', "");
    } else {
      ZOrder(x[1..], y[1..]);
      assert x + "Z" == [x[0]] + (x[1..] + "Z") && y + "Z" == [y[0]] + (y[1..] + "Z");
      LtCons(x[0], x[1..] + "Z", y[0], y[1..] + "Z");
      PrefixCons(x, y);
      PrefixCons(y, x);
    }
  }

  lemma PrefixCons(x: string, y: string)
    requires x != [] && y != []
    ensures x <= y <==> x[0] == y[0] && x[1..] <= y[1..]
    ensures x < y <==> x[0] == y[0] && x[1..] < y[1..]
  {
    if x[0] == y[0] && x[1..] <= y[1..] {
      assert forall k :: 1 <= k < |x| ==> x[k] == x[1..][k - 1] && y[k] == y[1..][k - 1];
    }
    if x <= y {
      assert forall k :: 0 <= k < |x| - 1 ==> x[1..][k] == x[k + 1] && y[1..][k] == y[k + 1];
    }
  }

  lemma TailOrder(x: string, y: string)
    requires AllDigits(x) && AllDigits(y)
    ensures Lt(Tail(x), Tail(y)) <==> y < x || (!(x <= y) && Lt(x, y))
  {
    ZOrder(x, y);
    if x != [] {
      assert Tail(x) == ['.'] + (x + "Z");
    } else {
      assert Tail(x) == ['Z'] + "" && x + "Z" == ['Z'] + "";
    }
    if y != [] {
      assert Tail(y) == ['.'] + (y + "Z");
    } else {
      assert Tail(y) == ['Z'] + "" && y + "Z" == ['Z'] + "";
    }
    LtCons(Tail(x)[0], Tail(x)[1..], Tail(y)[0], Tail(y)[1..]);
    assert Tail(x) == [Tail(x)[0]] + Tail(x)[1..] && Tail(y) == [Tail(y)[0]] + Tail(y)[1..];
  }

  // ---------------- Main results ----------------

  /** The two times share a second and one printed fraction begins the other. */
  predicate Misordered(a: Time, b: Time) {
    Seconds(a) == Seconds(b) && (Fraction(a) < Fraction(b) || Fraction(b) < Fraction(a))
  }

  /** SQL orders two stored times correctly exactly when they are not misordered in that sense. */
  lemma TextOrderIsTimeOrder(a: Time, b: Time)
    ensures (Lt(Stamp(a), Stamp(b)) <==> Instant(a) < Instant(b))
            && (Lt(Stamp(b), Stamp(a)) <==> Instant(b) < Instant(a))
      <==> !Misordered(a, b)
  {
    StampOrderBySecond(a, b);
    StampOrderBySecond(b, a);
    FractionOrder(a, b);
    FractionOrder(b, a);
    TailsAgree(Fraction(a), Fraction(b));
  }

  lemma TailsAgree(x: string, y: string)
    requires AllDigits(x) && AllDigits(y)
    ensures (Lt(Tail(x), Tail(y)) <==> Lt(x, y)) && (Lt(Tail(y), Tail(x)) <==> Lt(y, x)) <==> !(x < y || y < x)
  {
    TailOrder(x, y);
    TailOrder(y, x);
    LtTotal(x, y);
    ZOrder(x, y);
    ZOrder(y, x);
    assert x <= y <==> x < y || x == y;
    assert y <= x <==> y < x || x == y;
    assert x < y ==> !(y < x);
  }

  lemma FractionOrder(a: Time, b: Time)
    ensures Lt(Fraction(a), Fraction(b)) <==> a.nanos < b.nanos
    ensures AllDigits(Fraction(a)) && AllDigits(Fraction(b))
  {
    Widths();
    PadOrder(a.nanos, b.nanos, 9);
    TrimKeepsOrder(Pad(a.nanos, 9), Pad(b.nanos, 9));
    TrimDigits(Pad(a.nanos, 9));
    TrimDigits(Pad(b.nanos, 9));
  }

  /** A cutoff compared as text is right for every time at least a second away from it. */
  lemma CutoffWithinOneSecond(t: Time, cutoff: Time)
    ensures Lt(Stamp(t), Stamp(cutoff)) ==> Instant(t) < Instant(cutoff) + NANOS
    ensures Instant(t) + NANOS <= Instant(cutoff) ==> Lt(Stamp(t), Stamp(cutoff))
  {
    StampOrderBySecond(t, cutoff);
  }

  /** The failing family at its plainest: a whole second sorts after every later time in that second. */
  lemma WholeSecondSortsLast(t: Time, nanos: nat)
    requires t.nanos == 0 && 0 < nanos < NANOS
    ensures var later := t.(nanos := nanos);
      InCalendar(later) && Instant(t) < Instant(later) && Lt(Stamp(later), Stamp(t))
  {
    var later := t.(nanos := nanos);
    FractionOrder(t, later);
    FractionOrder(later, t);
    TrimZeroPad(9);
    assert Seconds(t) == Seconds(later);
    StampOrderBySecond(later, t);
    TailOrder(Fraction(later), Fraction(t));
  }

  lemma {:induction false} TrimZeroPad(w: nat)
    ensures TrimZeros(Pad(0, w)) == ""
  {
    if w > 0 {
      TrimZeroPad(w - 1);
      TrimTrailingZero(Pad(0, w - 1));
      assert Digit(0) == '0';
    }
  }

  lemma {:induction false} TrimTrailingZero(s: string)
    ensures TrimZeros(s + "0") == TrimZeros(s)
  {
    if s == [] {
      assert s + "0" == "0" && "0"[1..] == "";
    } else {
      TrimTrailingZero(s[1..]);
      assert (s + "0")[1..] == s[1..] + "0";
    }
  }
}
