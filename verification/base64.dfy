/** Unpadded base64 as Go's `base64.RawStdEncoding` has it: the alphabet and bit order of sections 3.2
and 4 of RFC 4648; the decoder passes over line breaks and does not look at left-over bits.
*/
module Base64 {
  import opened Wrappers
  import opened Text

  type Sextet = v: nat | v < 64

  function Symbol(v: Sextet): char {
    if v < 26 then (v + 65) as char
    else if v < 52 then (v + 71) as char
    else if v < 62 then (v - 4) as char
    else if v == 62 then '+' else '/'
  }

  function SextetOf(c: char): Option<Sextet> {
    if 'A' <= c <= 'Z' then Some(c as int - 65)
    else if 'a' <= c <= 'z' then Some(c as int - 71)
    else if '0' <= c <= '9' then Some(c as int + 4)
    else if c == '+' then Some(62)
    else if c == '/' then Some(63)
    else None
  }

  function Pack(bs: seq<Byte>): seq<Sextet> {
    if bs == [] then []
    else if |bs| == 1 then [bs[0] / 4, bs[0] % 4 * 16]
    else if |bs| == 2 then [bs[0] / 4, bs[0] % 4 * 16 + bs[1] / 16, bs[1] % 16 * 4]
    else [bs[0] / 4, bs[0] % 4 * 16 + bs[1] / 16, bs[1] % 16 * 4 + bs[2] / 64, bs[2] % 64] + Pack(bs[3..])
  }

  function Byte0(a: Sextet, b: Sextet): Byte {
    (a as int) * 4 + b / 16
  }

  function Byte1(b: Sextet, c: Sextet): Byte {
    (b as int) % 16 * 16 + c / 4
  }

  function Byte2(c: Sextet, d: Sextet): Byte {
    (c as int) % 4 * 64 + d
  }

  function Unpack(vs: seq<Sextet>): Option<seq<Byte>> {
    if vs == [] then Some([])
    else if |vs| == 1 then None
    else if |vs| == 2 then Some([Byte0(vs[0], vs[1])])
    else if |vs| == 3 then Some([Byte0(vs[0], vs[1]), Byte1(vs[1], vs[2])])
    else
      match Unpack(vs[4..])
      case None => None
      case Some(rest) => Some([Byte0(vs[0], vs[1]), Byte1(vs[1], vs[2]), Byte2(vs[2], vs[3])] + rest)
  }

  function Symbols(vs: seq<Sextet>): string {
    seq(|vs|, i requires 0 <= i < |vs| => Symbol(vs[i]))
  }

  function Encode(bs: seq<Byte>): string {
    Symbols(Pack(bs))
  }

  function SkipBreaks(s: string): string {
    if s == [] then [] else if s[0] == '\n' || s[0] == '\r' then SkipBreaks(s[1..]) else [s[0]] + SkipBreaks(s[1..])
  }

  predicate InAlphabet(s: string) {
    forall i :: 0 <= i < |s| ==> SextetOf(s[i]).Some?
  }

  function Sextets(s: string): seq<Sextet>
    requires InAlphabet(s)
  {
    seq(|s|, i requires 0 <= i < |s| => SextetOf(s[i]).value)
  }

  function Decode(s: string): Option<seq<Byte>> {
    var t := SkipBreaks(s);
    if InAlphabet(t) then Unpack(Sextets(t)) else None
  }

  // ---------------- The format ----------------

  /** The alphabet of table 1 of RFC 4648, sixteen symbols to a row. */
  const ROW0 := "ABCDEFGHIJKLMNOP"
  const ROW1 := "QRSTUVWXYZabcdef"
  const ROW2 := "ghijklmnopqrstuv"
  const ROW3 := "wxyz0123456789+/"

  lemma SymbolsByTable(v: nat)
    requires v < 16
    ensures Symbol(v) == ROW0[v] && Symbol(16 + v) == ROW1[v]
    ensures Symbol(32 + v) == ROW2[v] && Symbol(48 + v) == ROW3[v]
  {
    assert ROW0[v] == (v + 65) as char;
    assert ROW1[v] == if v < 10 then (v + 81) as char else (v + 87) as char;
    assert ROW2[v] == (v + 103) as char;
    assert ROW3[v] == if v < 4 then (v + 119) as char else if v < 14 then (v + 44) as char else Symbol(48 + v);
  }

  /** A list of digits of a base, as a number. */
  function Number(digits: seq<nat>, base: nat): nat {
    if digits == [] then 0 else Number(digits[..|digits| - 1], base) * base + digits[|digits| - 1]
  }

  lemma NumberOfThree(a: nat, b: nat, c: nat, base: nat)
    ensures Number([a], base) == a && Number([a, b], base) == a * base + b
    ensures Number([a, b, c], base) == (a * base + b) * base + c
  {
    assert [a, b, c][..2] == [a, b] && [a, b][..1] == [a] && [a][..0] == [];
    assert Number([a], base) == 0 * base + a;
  }

  lemma NumberOfFour(a: nat, b: nat, c: nat, d: nat, base: nat)
    ensures Number([a, b, c, d], base) == ((a * base + b) * base + c) * base + d
  {
    NumberOfThree(a, b, c, base);
    assert [a, b, c, d][..3] == [a, b, c];
  }

  /** The sextets are the bits of the bytes, first byte first; what is missing at the end is 0. */
  lemma PackedBits(bs: seq<Byte>)
    requires 1 <= |bs| <= 3
    ensures |Pack(bs)| == |bs| + 1
    ensures Number(Pack(bs), 64) == Number(bs, 256) * (if |bs| == 3 then 1 else if |bs| == 2 then 4 else 16)
  {
    if |bs| == 3 {
      var a, b, c := bs[0], bs[1], bs[2];
      assert bs == [a, b, c] && Pack(bs[3..]) == [];
      assert Pack(bs) == [a / 4, a % 4 * 16 + b / 16, b % 16 * 4 + c / 64, c % 64];
      ThreeBytes(bs[0], bs[1], bs[2]);
    } else if |bs| == 2 {
      assert bs == [bs[0], bs[1]];
      NumberOfThree(bs[0], bs[1], 0, 256);
      NumberOfThree(bs[0] / 4, bs[0] % 4 * 16 + bs[1] / 16, bs[1] % 16 * 4, 64);
    } else {
      assert bs == [bs[0]];
      NumberOfThree(bs[0], 0, 0, 256);
      NumberOfThree(bs[0] / 4, bs[0] % 4 * 16, 0, 64);
    }
  }

  lemma ThreeBytes(a: Byte, b: Byte, c: Byte)
    ensures Number([a / 4, a % 4 * 16 + b / 16, b % 16 * 4 + c / 64, c % 64], 64) == Number([a, b, c], 256)
  {
    NumberOfThree(a, b, c, 256);
    NumberOfFour(a / 4, a % 4 * 16 + b / 16, b % 16 * 4 + c / 64, c % 64, 64);
  }

  // ---------------- Round trip ----------------

  lemma SymbolMeansSextet(v: Sextet)
    ensures SextetOf(Symbol(v)) == Some(v)
  {
  }

  lemma BytesBack(x: Byte, y: Byte, z: Byte)
    ensures Byte0(x / 4, x % 4 * 16 + y / 16) == x
    ensures Byte1(x % 4 * 16 + y / 16, y % 16 * 4 + z / 64) == y
    ensures Byte2(y % 16 * 4 + z / 64, z % 64) == z
  {
  }

  lemma UnpackGroup(a: Sextet, b: Sextet, c: Sextet, d: Sextet, rest: seq<Sextet>)
    requires Unpack(rest).Some?
    ensures Unpack([a, b, c, d] + rest) == Some([Byte0(a, b), Byte1(b, c), Byte2(c, d)] + Unpack(rest).value)
  {
    assert ([a, b, c, d] + rest)[4..] == rest;
  }

  lemma UnpackMore(x: Byte, y: Byte, z: Byte, rest: seq<Byte>)
    requires Unpack(Pack(rest)) == Some(rest)
    ensures Unpack(Pack([x, y, z] + rest)) == Some([x, y, z] + rest)
  {
    PackGroup(x, y, z, rest);
    UnpackGroup(x / 4, x % 4 * 16 + y / 16, y % 16 * 4 + z / 64, z % 64, Pack(rest));
    BytesBack(x, y, z);
  }

  lemma UnpackTwo(x: Byte, y: Byte)
    ensures Unpack(Pack([x, y])) == Some([x, y])
  {
    BytesBack(x, y, 0);
    assert Pack([x, y]) == [x / 4, x % 4 * 16 + y / 16, y % 16 * 4];
  }

  lemma UnpackOne(x: Byte)
    ensures Unpack(Pack([x])) == Some([x])
  {
    BytesBack(x, 0, 0);
    assert Pack([x]) == [x / 4, x % 4 * 16];
  }

  lemma {:induction false} UnpackPack(bs: seq<Byte>)
    ensures Unpack(Pack(bs)) == Some(bs)
  {
    if |bs| >= 3 {
      UnpackPack(bs[3..]);
      UnpackMore(bs[0], bs[1], bs[2], bs[3..]);
      assert bs == [bs[0], bs[1], bs[2]] + bs[3..];
    } else if |bs| == 2 {
      UnpackTwo(bs[0], bs[1]);
      assert bs == [bs[0], bs[1]];
    } else if |bs| == 1 {
      UnpackOne(bs[0]);
      assert bs == [bs[0]];
    }
  }

  lemma {:induction false} NoBreaks(s: string)
    requires '\n' !in s && '\r' !in s
    ensures SkipBreaks(s) == s
  {
    if s != [] {
      NoBreaks(s[1..]);
      assert s == [s[0]] + s[1..];
    }
  }

  /** The encoder writes alphabet characters only. */
  lemma SymbolsInAlphabet(vs: seq<Sextet>)
    ensures InAlphabet(Symbols(vs)) && Sextets(Symbols(vs)) == vs
    ensures forall c :: c in Symbols(vs) ==> SextetOf(c).Some?
  {
    forall v: Sextet ensures SextetOf(Symbol(v)) == Some(v) {
      SymbolMeansSextet(v);
    }
  }

  lemma DecodeEncode(bs: seq<Byte>)
    ensures Decode(Encode(bs)) == Some(bs)
  {
    SymbolsInAlphabet(Pack(bs));
    NoBreaks(Encode(bs));
    UnpackPack(bs);
  }

  // ---------------- What else the decoder takes ----------------

  lemma {:induction false} UnpackSomeIff(vs: seq<Sextet>)
    ensures Unpack(vs).Some? <==> |vs| % 4 != 1
  {
    if |vs| >= 4 {
      UnpackSomeIff(vs[4..]);
      FourFewer(|vs|);
    } else if |vs| >= 2 {
      assert Unpack(vs).Some?;
    }
  }

  lemma FourFewer(n: nat)
    requires n >= 4
    ensures (n - 4) % 4 == n % 4
  {
  }

  /** The bits of the last symbol that no byte takes are zero. */
  predicate NoStrayBits(vs: seq<Sextet>) {
    && (|vs| % 4 == 2 ==> vs[|vs| - 1] % 16 == 0)
    && (|vs| % 4 == 3 ==> vs[|vs| - 1] % 4 == 0)
  }

  lemma Regroup(a: Sextet, b: Sextet, c: Sextet, d: Sextet)
    ensures var x, y, z := Byte0(a, b), Byte1(b, c), Byte2(c, d);
      x / 4 == a && x % 4 * 16 + y / 16 == b && y % 16 * 4 + z / 64 == c && z % 64 == d
  {
  }

  /** Longer texts are encoded three bytes at a time. */
  lemma PackGroup(x: Byte, y: Byte, z: Byte, rest: seq<Byte>)
    ensures Pack([x, y, z] + rest) == [x / 4, x % 4 * 16 + y / 16, y % 16 * 4 + z / 64, z % 64] + Pack(rest)
  {
    assert ([x, y, z] + rest)[3..] == rest;
  }

  lemma {:induction false} PackUnpack(vs: seq<Sextet>)
    requires Unpack(vs).Some?
    ensures Pack(Unpack(vs).value) == vs <==> NoStrayBits(vs)
  {
    if |vs| >= 4 {
      PackUnpack(vs[4..]);
      StrayBitsOfRest(vs);
      var rest := Unpack(vs[4..]).value;
      Regroup(vs[0], vs[1], vs[2], vs[3]);
      PackGroup(Byte0(vs[0], vs[1]), Byte1(vs[1], vs[2]), Byte2(vs[2], vs[3]), rest);
      assert vs == [vs[0], vs[1], vs[2], vs[3]] + vs[4..];
      SamePrefix([vs[0], vs[1], vs[2], vs[3]], Pack(rest), vs[4..]);
    } else if |vs| == 3 {
      assert vs == [vs[0], vs[1], vs[2]];
    } else if |vs| == 2 {
      assert vs == [vs[0], vs[1]];
    }
  }

  lemma StrayBitsOfRest(vs: seq<Sextet>)
    requires |vs| >= 4
    ensures NoStrayBits(vs[4..]) <==> NoStrayBits(vs)
  {
    FourFewer(|vs|);
    if |vs| > 4 {
      assert vs[4..][|vs| - 5] == vs[|vs| - 1];
    }
  }

  lemma SamePrefix(p: seq<Sextet>, a: seq<Sextet>, b: seq<Sextet>)
    ensures p + a == p + b <==> a == b
  {
    assert a == (p + a)[|p|..] && b == (p + b)[|p|..];
  }

  lemma {:induction false} SymbolsOfSextets(s: string)
    requires InAlphabet(s)
    ensures Symbols(Sextets(s)) == s
  {
    forall i | 0 <= i < |s| ensures Symbol(SextetOf(s[i]).value) == s[i] {
    }
  }

  lemma {:induction false} SkipBreaksAgain(s: string)
    ensures SkipBreaks(s) == s <==> '\n' !in s && '\r' !in s
    ensures |SkipBreaks(s)| <= |s|
  {
    if s != [] {
      SkipBreaksAgain(s[1..]);
      assert s == [s[0]] + s[1..];
    }
  }

  lemma {:induction false} BreaksSkipped(a: string, c: char, b: string)
    requires c == '\n' || c == '\r'
    ensures SkipBreaks(a + ([c] + b)) == SkipBreaks(a + b)
    ensures a + [c] + b == a + ([c] + b)
  {
    if a == [] {
      assert a + ([c] + b) == [c] + b && ([c] + b)[1..] == b && a + b == b;
    } else {
      BreaksSkipped(a[1..], c, b);
      assert (a + ([c] + b))[1..] == a[1..] + ([c] + b) && (a + b)[1..] == a[1..] + b;
    }
  }

  /** A line break anywhere makes no difference. */
  lemma BreaksDoNotCount(a: string, c: char, b: string)
    requires c == '\n' || c == '\r'
    ensures Decode(a + [c] + b) == Decode(a + b)
  {
    BreaksSkipped(a, c, b);
  }

  /** Which texts decode, and which of those are what the encoder prints for their bytes: the ones without
  line breaks and without stray bits. */
  lemma DecodeExactly(s: string)
    ensures Decode(s).Some? <==> InAlphabet(SkipBreaks(s)) && |SkipBreaks(s)| % 4 != 1
    ensures Decode(s).Some? ==>
      (Encode(Decode(s).value) == s <==> '\n' !in s && '\r' !in s && NoStrayBits(Sextets(SkipBreaks(s))))
  {
    var t := SkipBreaks(s);
    if InAlphabet(t) {
      var vs := Sextets(t);
      UnpackSomeIff(vs);
      SymbolsOfSextets(t);
      SkipBreaksAgain(s);
      if Unpack(vs).Some? {
        PackUnpack(vs);
        var again := Pack(Unpack(vs).value);
        SymbolsInAlphabet(again);
        SymbolsInAlphabet(vs);
        assert Symbols(again) == t <==> again == vs;
        if Symbols(again) == s {
          assert forall c :: c in s ==> SextetOf(c).Some?;
        }
      }
    }
  }
}
