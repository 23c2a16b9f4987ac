/** Password hashes as text: what `HashPassword` prints and what `parsePHC` reads back. */
module Phc {
  import opened Wrappers
  import opened Text
  import LocalAddr
  import Base64

  type Bytes = seq<Byte>

  datatype Error = BadShape | BadParameters | BadNumber | BadBase64

  datatype Hash = Hash(memory: nat, time: nat, threads: nat, salt: Bytes, key: Bytes)

  const UINT32 := 0x1_0000_0000
  const UINT8 := 0x100

  // ---------------- Printing ----------------

  function Params(m: nat, t: nat, p: nat): seq<string> {
    ["m=" + Dec(m), "t=" + Dec(t), "p=" + Dec(p)]
  }

  function Parts(m: nat, t: nat, p: nat, salt: Bytes, key: Bytes): seq<string> {
    ["", "argon2id", "v=19", Join(Params(m, t, p), ","), Base64.Encode(salt), Base64.Encode(key)]
  }

  /** `$argon2id$v=19$m=%d,t=%d,p=%d$%s$%s` */
  function Print(m: nat, t: nat, p: nat, salt: Bytes, key: Bytes): string {
    Join(Parts(m, t, p, salt, key), "$")
  }

  // ---------------- Parsing ----------------

  function SkipSpace(s: string): string {
    if s != [] && s[0] != '\n' && LocalAddr.IsSpace(s[0]) then SkipSpace(s[1..]) else s
  }

  /** The digits at the front. */
  function LeadingDigits(s: string): (d: string)
    ensures AllDigits(d) && |d| <= |s| && s[..|d|] == d
    ensures |d| < |s| ==> !IsDigit(s[|d|])
  {
    if s == [] || !IsDigit(s[0]) then [] else [s[0]] + LeadingDigits(s[1..])
  }

  /** `fmt.Sscanf(s, field + "=%d", &n)` into a 64-bit int: spaces and a sign may come before the digits,
  and anything may follow them. */
  function ScanInt(field: char, s: string): Option<int> {
    if |s| < 2 || s[0] != field || s[1] != '=' then None
    else
      var rest := SkipSpace(s[2..]);
      var signed := rest != [] && (rest[0] == '+' || rest[0] == '-');
      var digits := LeadingDigits(if signed then rest[1..] else rest);
      Atoi((if signed then [rest[0]] else []) + digits)
  }

  function ParseParams(params: seq<string>): Result<(nat, nat, nat), Error> {
    if |params| != 3 then Err(BadParameters)
    else
      var m, t, p := ScanInt('m', params[0]), ScanInt('t', params[1]), ScanInt('p', params[2]);
      if m.None? || t.None? || p.None? then Err(BadNumber)
      else Ok((m.value % UINT32, t.value % UINT32, p.value % UINT8))
  }

  function ParseParts(parts: seq<string>): Result<Hash, Error> {
    if |parts| != 6 || parts[0] != "" || parts[1] != "argon2id" || parts[2] != "v=19" then Err(BadShape)
    else
      match ParseParams(Split(parts[3], ','))
      case Err(e) => Err(e)
      case Ok((m, t, p)) =>
        var salt, key := Base64.Decode(parts[4]), Base64.Decode(parts[5]);
        if salt.None? || key.None? then Err(BadBase64) else Ok(Hash(m, t, p, salt.value, key.value))
  }

  function ParsePHC(s: string): Result<Hash, Error> {
    ParseParts(Split(s, '$'))
  }

  // ---------------- Round trip ----------------

  lemma {:induction false} LeadingDigitsOfAll(s: string)
    requires AllDigits(s)
    ensures LeadingDigits(s) == s
  {
    if s != [] {
      LeadingDigitsOfAll(s[1..]);
    }
  }

  lemma DigitsStand(d: string)
    requires d != "" && AllDigits(d)
    ensures SkipSpace(d) == d && d[0] != '+' && d[0] != '-' && LeadingDigits(d) == d
  {
    LeadingDigitsOfAll(d);
    assert IsDigit(d[0]);
  }

  lemma ScanDec(field: char, n: nat)
    requires n <= MAX_INT64
    ensures ScanInt(field, [field, '='] + Dec(n)) == Some(n)
  {
    var s := [field, '='] + Dec(n);
    assert s[2..] == Dec(n);
    DigitsStand(Dec(n));
    ValueOfDec(n);
    assert [] + Dec(n) == Dec(n);
  }

  lemma {:induction false} DigitsFirst(d: string, rest: string)
    requires AllDigits(d) && (rest == "" || !IsDigit(rest[0]))
    ensures LeadingDigits(d + rest) == d
  {
    if d == "" {
      assert d + rest == rest;
    } else {
      DigitsFirst(d[1..], rest);
      assert (d + rest)[1..] == d[1..] + rest;
    }
  }

  /** A number may have a space and a sign before it and anything but a digit after it. */
  lemma ScanLoosely(field: char, sign: char, n: nat, rest: string)
    requires (sign == '+' || sign == '-') && n <= MAX_INT64 && (rest == "" || !IsDigit(rest[0]))
    ensures ScanInt(field, [field, '=', ' ', sign] + (Dec(n) + rest)) == Some(if sign == '-' then 0 - n else n)
  {
    var s := [field, '=', ' ', sign] + (Dec(n) + rest);
    assert s[2..] == [' ', sign] + (Dec(n) + rest);
    SpaceSkipped(sign, Dec(n) + rest);
    DigitsFirst(Dec(n), rest);
    AtoiSigned(sign, n);
  }

  lemma SpaceSkipped(sign: char, text: string)
    requires sign == '+' || sign == '-'
    ensures SkipSpace([' ', sign] + text) == [sign] + text && ([sign] + text)[1..] == text
  {
    assert ([' ', sign] + text)[1..] == [sign] + text;
  }

  lemma {:induction false} SplitJoin(parts: seq<string>, sep: char)
    requires parts != [] && forall i :: 0 <= i < |parts| ==> sep !in parts[i]
    ensures Split(Join(parts, [sep]), sep) == parts
  {
    if |parts| > 1 {
      SplitStep(parts[0], Join(parts[1..], [sep]), sep);
      SplitJoin(parts[1..], sep);
    }
  }

  lemma ParamsRead(m: nat, t: nat, p: nat)
    requires m <= MAX_INT64 && t <= MAX_INT64 && p <= MAX_INT64
    ensures ParseParams(Params(m, t, p)) == Ok((m % UINT32, t % UINT32, p % UINT8))
  {
    ScanDec('m', m);
    ScanDec('t', t);
    ScanDec('p', p);
  }

  lemma ParamChars(field: char, n: nat, sep: char)
    requires sep != field && sep != '=' && !IsDigit(sep)
    ensures sep !in [field, '='] + Dec(n)
  {
  }

  lemma ParamsSplit(m: nat, t: nat, p: nat)
    ensures Split(Join(Params(m, t, p), ","), ',') == Params(m, t, p)
  {
    ParamChars('m', m, ',');
    ParamChars('t', t, ',');
    ParamChars('p', p, ',');
    SplitJoin(Params(m, t, p), ',');
  }

  lemma {:induction false} NotInJoin(parts: seq<string>, sep: string, c: char)
    requires c !in sep && forall i :: 0 <= i < |parts| ==> c !in parts[i]
    ensures c !in Join(parts, sep)
  {
    if |parts| > 1 {
      NotInJoin(parts[1..], sep, c);
    }
  }

  lemma NoDollar(bs: Bytes)
    ensures '$' !in Base64.Encode(bs)
  {
    Base64.SymbolsInAlphabet(Base64.Pack(bs));
  }

  lemma PrintSplit(m: nat, t: nat, p: nat, salt: Bytes, key: Bytes)
    ensures Split(Print(m, t, p, salt, key), '$') == Parts(m, t, p, salt, key)
  {
    ParamChars('m', m, '$');
    ParamChars('t', t, '$');
    ParamChars('p', p, '$');
    NotInJoin(Params(m, t, p), ",", '$');
    NoDollar(salt);
    NoDollar(key);
    SplitJoin(Parts(m, t, p, salt, key), '$');
  }

  /** What parsePHC makes of the fields that were printed. */
  function Narrowed(m: nat, t: nat, p: nat, salt: Bytes, key: Bytes): Hash {
    Hash(m % UINT32, t % UINT32, p % UINT8, salt, key)
  }

  lemma NarrowedIff(m: nat, t: nat, p: nat, salt: Bytes, key: Bytes)
    ensures Narrowed(m, t, p, salt, key) == Hash(m, t, p, salt, key) <==> m < UINT32 && t < UINT32 && p < UINT8
  {
  }

  /** Numbers that fit 64 bits are read back modulo the width of their field, salt and key exactly; so the
  round trip is exact precisely for uint32 m and t and uint8 p. */
  lemma ParsePrint(m: nat, t: nat, p: nat, salt: Bytes, key: Bytes)
    requires m <= MAX_INT64 && t <= MAX_INT64 && p <= MAX_INT64
    ensures ParsePHC(Print(m, t, p, salt, key)) == Ok(Narrowed(m, t, p, salt, key))
    ensures ParsePHC(Print(m, t, p, salt, key)) == Ok(Hash(m, t, p, salt, key)) <==>
      m < UINT32 && t < UINT32 && p < UINT8
  {
    PrintSplit(m, t, p, salt, key);
    ParamsSplit(m, t, p);
    ParamsRead(m, t, p);
    Base64.DecodeEncode(salt);
    Base64.DecodeEncode(key);
    NarrowedIff(m, t, p, salt, key);
  }

  // ---------------- What a stored text holds ----------------

  lemma {:induction false} JoinSplit(s: string, sep: char)
    ensures Join(Split(s, sep), [sep]) == s
    decreases |s|
  {
    if sep in s {
      var i := Index(s, sep);
      JoinSplit(s[i + 1..], sep);
      assert Split(s, sep)[1..] == Split(s[i + 1..], sep);
      assert s == s[..i] + [sep] + s[i + 1..];
    }
  }

  lemma JoinSix(parts: seq<string>, sep: string)
    requires |parts| == 6
    ensures Join(parts, sep)
      == parts[0] + sep + (parts[1] + sep + (parts[2] + sep + (parts[3] + sep + (parts[4] + sep + parts[5]))))
  {
    var rest := parts[2..];
    assert parts[1..][1..] == rest && rest[1..] == parts[3..] && rest[1..][1..] == parts[4..];
    assert parts[4..][1..] == parts[5..] && Join(parts[5..], sep) == parts[5];
    assert Join(parts[4..], sep) == parts[4] + sep + parts[5];
    assert Join(parts[3..], sep) == parts[3] + sep + Join(parts[4..], sep);
    assert Join(rest, sep) == parts[2] + sep + Join(parts[3..], sep);
    assert Join(parts[1..], sep) == parts[1] + sep + Join(rest, sep);
  }

  /** Whatever text is accepted, the parameters, the salt and the key stand where the format has them. */
  lemma ParsedText(s: string) returns (params: string, salt: string, key: string)
    requires ParsePHC(s).Ok?
    ensures s == "$argon2id$v=19$" + params + "$" + salt + "$" + key
    ensures Base64.Decode(salt) == Some(ParsePHC(s).value.salt) && Base64.Decode(key) == Some(ParsePHC(s).value.key)
  {
    var parts := Split(s, '$');
    JoinSplit(s, '$');
    JoinSix(parts, "$");
    params, salt, key := parts[3], parts[4], parts[5];
    Regroup(params, salt, key);
  }

  lemma Regroup(a: string, b: string, c: string)
    ensures "" + "$" + ("argon2id" + "$" + ("v=19" + "$" + (a + "$" + (b + "$" + c))))
      == "$argon2id$v=19$" + a + "$" + b + "$" + c
  {
    var tail := a + "$" + (b + "$" + c);
    assert tail == a + "$" + b + "$" + c;
    assert "" + "$" + ("argon2id" + "$" + ("v=19" + "$" + tail)) == "$argon2id$v=19$" + tail;
    assert "$argon2id$v=19$" + tail == "$argon2id$v=19$" + a + "$" + b + "$" + c;
  }

  // ---------------- Hashing and verifying ----------------

  /** argon2.IDKey: password, salt, time, memory, threads and key length. */
  type Kdf = (string, Bytes, nat, nat, nat, nat) -> Bytes

  datatype Cost = Cost(time: nat, memory: nat, threads: nat, keyLen: nat)

  const COST := Cost(3, 64 * 1024, 4, 32)

  function Derive(kdf: Kdf, plain: string, salt: Bytes, c: Cost): Bytes {
    kdf(plain, salt, c.time, c.memory, c.threads, c.keyLen)
  }

  function HashAtCost(kdf: Kdf, plain: string, salt: Bytes, c: Cost): string {
    Print(c.memory, c.time, c.threads, salt, Derive(kdf, plain, salt, c))
  }

  function HashPassword(kdf: Kdf, plain: string, salt: Bytes): string {
    HashAtCost(kdf, plain, salt, COST)
  }

  datatype Verdict = Match | Mismatch | Malformed(error: Error)

  function Check(kdf: Kdf, plain: string, h: Hash): Verdict {
    if Derive(kdf, plain, h.salt, Cost(h.time, h.memory, h.threads, |h.key| % UINT32)) == h.key then Match else Mismatch
  }

  function VerifyPassword(kdf: Kdf, plain: string, encoded: string): Verdict {
    match ParsePHC(encoded)
    case Err(e) => Malformed(e)
    case Ok(h) => Check(kdf, plain, h)
  }

  predicate Fits(c: Cost) {
    c.time < UINT32 && c.memory < UINT32 && c.threads < UINT8 && c.keyLen < UINT32
  }

  lemma VerifyParsed(kdf: Kdf, given: string, encoded: string, h: Hash)
    requires ParsePHC(encoded) == Ok(h)
    ensures VerifyPassword(kdf, given, encoded) == Check(kdf, given, h)
  {
  }

  lemma CheckDerived(kdf: Kdf, stored: string, given: string, salt: Bytes, c: Cost)
    requires Fits(c) && |Derive(kdf, stored, salt, c)| == c.keyLen
    ensures Check(kdf, given, Hash(c.memory, c.time, c.threads, salt, Derive(kdf, stored, salt, c)))
      == if Derive(kdf, given, salt, c) == Derive(kdf, stored, salt, c) then Match else Mismatch
  {
  }

  /** A stored password verifies exactly the passwords that derive the same key from the same salt,
  whatever the cost it was stored at. */
  lemma VerifyHashed(kdf: Kdf, stored: string, given: string, salt: Bytes, c: Cost)
    requires Fits(c) && |Derive(kdf, stored, salt, c)| == c.keyLen
    ensures VerifyPassword(kdf, given, HashAtCost(kdf, stored, salt, c))
      == if Derive(kdf, given, salt, c) == Derive(kdf, stored, salt, c) then Match else Mismatch
  {
    var key := Derive(kdf, stored, salt, c);
    ParsePrint(c.memory, c.time, c.threads, salt, key);
    VerifyParsed(kdf, given, HashAtCost(kdf, stored, salt, c), Hash(c.memory, c.time, c.threads, salt, key));
    CheckDerived(kdf, stored, given, salt, c);
  }

  lemma DecimalsOfCost()
    ensures Dec(65536) == "65536" && Dec(3) == "3" && Dec(4) == "4"
  {
    assert Dec(6) == "6" && Dec(65) == "65" && Dec(655) == "655" && Dec(6553) == "6553";
  }

  /** What `HashPassword` stores: argon2id with 3 rounds over 64 MiB on 4 threads, and a key of 32 bytes. */
  lemma StoredPassword(kdf: Kdf, plain: string, salt: Bytes)
    ensures HashPassword(kdf, plain, salt)
      == "$argon2id$v=19$" + "m=65536,t=3,p=4" + "$" + Base64.Encode(salt) + "$"
         + Base64.Encode(kdf(plain, salt, 3, 65536, 4, 32))
  {
    var parts := Parts(65536, 3, 4, salt, kdf(plain, salt, 3, 65536, 4, 32));
    DecimalsOfCost();
    JoinSix(parts, "$");
    CostText();
    Regroup(parts[3], parts[4], parts[5]);
  }

  lemma CostText()
    ensures Join(Params(65536, 3, 4), ",") == "m=65536,t=3,p=4"
  {
    DecimalsOfCost();
    var params := Params(65536, 3, 4);
    assert params[1..][1..] == params[2..] && Join(params[2..], ",") == params[2];
    assert Join(params[1..], ",") == "t=3" + "," + "p=4";
  }

  /** Logging in with a stored password succeeds exactly with a password that derives the same key at that cost. */
  lemma StoredPasswordVerifies(kdf: Kdf, stored: string, given: string, salt: Bytes)
    requires |kdf(stored, salt, 3, 65536, 4, 32)| == 32
    ensures VerifyPassword(kdf, given, HashPassword(kdf, stored, salt))
      == if kdf(given, salt, 3, 65536, 4, 32) == kdf(stored, salt, 3, 65536, 4, 32) then Match else Mismatch
  {
    VerifyHashed(kdf, stored, given, salt, COST);
  }
}
