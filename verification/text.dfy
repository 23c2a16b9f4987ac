/** Text as the Go code and SQLite see it.

A string is a sequence of Unicode scalar values. UTF-8 keeps the order of scalar values, so the
byte order that `sort.Strings` and SQL comparison use is `Lt` below.
*/
module Text {
  import opened Wrappers

  type Byte = b: nat | b < 256

  // ---------------- Decimal numbers ----------------

  predicate IsDigit(c: char) {
    '0' <= c <= '9'
  }

  predicate AllDigits(s: string) {
    forall i :: 0 <= i < |s| ==> IsDigit(s[i])
  }

  function Digit(d: nat): (c: char)
    requires d < 10
    ensures IsDigit(c)
  {
    (d + 48) as char
  }

  function DigitValue(c: char): nat
    requires IsDigit(c)
  {
    c as int - 48
  }

  /** What `%d` prints for a non-negative number. */
  function Dec(n: nat): (s: string)
    ensures |s| > 0 && AllDigits(s)
  {
    if n < 10 then [Digit(n)] else Dec(n / 10) + [Digit(n % 10)]
  }

  function Value(s: string): nat
    requires AllDigits(s)
  {
    if s == [] then 0 else Value(s[..|s| - 1]) * 10 + DigitValue(s[|s| - 1])
  }

  lemma {:induction false} ValueOfDec(n: nat)
    ensures Value(Dec(n)) == n
  {
    if n >= 10 {
      ValueOfDec(n / 10);
      assert Dec(n)[..|Dec(n)| - 1] == Dec(n / 10);
    }
  }

  /** What `%d` prints for any int. */
  function Itoa(i: int): string {
    if i < 0 then "-" + Dec(-i) else Dec(i)
  }

  lemma ItoaInjective(i: int, j: int)
    requires Itoa(i) == Itoa(j)
    ensures i == j
  {
    assert (Itoa(i)[0] == '-' <==> i < 0) && (Itoa(j)[0] == '-' <==> j < 0);
    if i < 0 {
      assert Itoa(i)[1..] == Dec(-i) && Itoa(j)[1..] == Dec(-j);
      ValueOfDec(-i);
      ValueOfDec(-j);
    } else {
      ValueOfDec(i);
      ValueOfDec(j);
    }
  }

  lemma ItoaChars(i: int)
    ensures forall k :: 0 <= k < |Itoa(i)| ==> Itoa(i)[k] == '-' || IsDigit(Itoa(i)[k])
  {
  }

  const MAX_INT64 := 0x7FFF_FFFF_FFFF_FFFF

  /** `strconv.Atoi`: an optional sign and at least one digit, within 64 bits. */
  function Atoi(s: string): Option<int> {
    var signed := s != [] && (s[0] == '+' || s[0] == '-');
    var digits := if signed then s[1..] else s;
    if digits == [] || !AllDigits(digits) then
      None
    else
      var v: int := if signed && s[0] == '-' then 0 - Value(digits) else Value(digits);
      if -MAX_INT64 - 1 <= v <= MAX_INT64 then Some(v) else None
  }

  /** `strconv.Atoi` reads back what `%d` prints of a number that fits 64 bits. */
  lemma AtoiDigits(n: nat)
    ensures Atoi(Dec(n)) == if n <= MAX_INT64 then Some(n) else None
  {
    ValueOfDec(n);
    assert IsDigit(Dec(n)[0]);
  }

  /** The digits, negated after a minus sign. */
  function Signed(sign: char, n: nat): (v: int) {
    if sign == '-' then 0 - n else n
  }

  lemma AtoiSigned(sign: char, n: nat)
    requires sign == '+' || sign == '-'
    ensures Atoi([sign] + Dec(n))
      == if -MAX_INT64 - 1 <= Signed(sign, n) <= MAX_INT64 then Some(Signed(sign, n)) else None
  {
    ValueOfDec(n);
    assert ([sign] + Dec(n))[1..] == Dec(n);
  }

  // ---------------- Separators ----------------

  /** A separator that occurs in neither left part cuts a text in one way only. */
  lemma CutOnce(a: string, x: string, b: string, y: string, c: char)
    requires a + [c] + x == b + [c] + y
    requires c !in a && c !in b
    ensures a == b && x == y
  {
    var t := a + [c] + x;
    assert t[|a|] == c && t[|b|] == c;
    assert forall k :: 0 <= k < |a| ==> t[k] == a[k];
    assert forall k :: 0 <= k < |b| ==> t[k] == b[k];
    assert |a| == |b|;
    assert a == t[..|a|] && b == t[..|b|];
    assert x == t[|a| + 1..] && y == t[|b| + 1..];
  }

  /** `strings.Join`. */
  function Join(parts: seq<string>, sep: string): string {
    if parts == [] then "" else if |parts| == 1 then parts[0] else parts[0] + sep + Join(parts[1..], sep)
  }

  /** The first position of `c` in `s`. */
  function Index(s: string, c: char): (i: nat)
    requires c in s
    ensures i < |s| && s[i] == c && forall k :: 0 <= k < i ==> s[k] != c
  {
    if s[0] == c then 0 else 1 + Index(s[1..], c)
  }

  /** The last position of `c` in `s`. */
  function LastIndex(s: string, c: char): (i: nat)
    requires c in s
    ensures i < |s| && s[i] == c && forall k :: i < k < |s| ==> s[k] != c
  {
    if s[|s| - 1] == c then |s| - 1
    else
      assert s == s[..|s| - 1] + [s[|s| - 1]];
      LastIndex(s[..|s| - 1], c)
  }

  lemma IndexAt(a: string, c: char, b: string)
    requires c !in a
    ensures var s := a + [c] + b; c in s && Index(s, c) == |a| && s[..|a|] == a && s[|a| + 1..] == b
  {
    var s := a + [c] + b;
    assert s[|a|] == c;
  }

  lemma LastIndexAt(a: string, c: char, b: string)
    requires c !in b
    ensures var s := a + [c] + b; c in s && LastIndex(s, c) == |a| && s[..|a|] == a && s[|a| + 1..] == b
  {
    var s := a + [c] + b;
    assert s[|a|] == c;
  }

  /** `strings.Split` on a one-character separator. */
  function Split(s: string, sep: char): (parts: seq<string>)
    ensures |parts| > 0
    decreases |s|
  {
    if sep !in s then [s] else [s[..Index(s, sep)]] + Split(s[Index(s, sep) + 1..], sep)
  }

  lemma SplitStep(a: string, rest: string, sep: char)
    requires sep !in a
    ensures Split(a + [sep] + rest, sep) == [a] + Split(rest, sep)
  {
    IndexAt(a, sep, rest);
  }

  // ---------------- Byte order ----------------

  /** Strictly before, in dictionary order. */
  predicate Lt(a: string, b: string) {
    b != [] && (a == [] || a[0] < b[0] || (a[0] == b[0] && Lt(a[1..], b[1..])))
  }

  predicate Le(a: string, b: string) {
    !Lt(b, a)
  }

  lemma {:induction false} LtTotal(a: string, b: string)
    ensures Lt(a, b) || Lt(b, a) || a == b
    ensures !(Lt(a, b) && Lt(b, a)) && !Lt(a, a)
  {
    if a != [] {
      LtTotal(a[1..], a[1..]);
      if b != [] && a[0] == b[0] {
        LtTotal(a[1..], b[1..]);
        assert a == [a[0]] + a[1..] && b == [b[0]] + b[1..];
      }
    }
  }

  lemma {:induction false} LeTransitive(a: string, b: string, c: string)
    requires Le(a, b) && Le(b, c)
    ensures Le(a, c)
  {
    if a != [] && b != [] && c != [] && a[0] == b[0] == c[0] {
      LeTransitive(a[1..], b[1..], c[1..]);
    }
  }

  /** Texts that agree on a prefix, or differ in equally long prefixes, compare there first. */
  lemma {:induction false} LtConcat(a: string, x: string, b: string, y: string)
    requires |a| == |b|
    ensures Lt(a + x, b + y) <==> Lt(a, b) || (a == b && Lt(x, y))
  {
    if a == [] {
      assert a + x == x && b + y == y;
    } else {
      assert (a + x)[1..] == a[1..] + x && (b + y)[1..] == b[1..] + y;
      LtConcat(a[1..], x, b[1..], y);
      assert a == [a[0]] + a[1..] && b == [b[0]] + b[1..];
    }
  }
}
