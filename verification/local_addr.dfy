/** `api.NormalizeLocalAddr`: from user input to the `host:port` that is stored for a service. */
module LocalAddr {
  import opened Wrappers
  import opened Text

  /** `unicode.IsSpace`. */
  predicate IsSpace(c: char) {
    || '\t' <= c <= '\r' || c == ' ' || c == '\U{85}' || c == '\U{A0}' || c == '\U{1680}'
    || '\U{2000}' <= c <= '\U{200A}' || c == '\U{2028}' || c == '\U{2029}' || c == '\U{202F}'
    || c == '\U{205F}' || c == '\U{3000}'
  }

  /** `strings.TrimSpace`. */
  function TrimSpace(s: string): string
    decreases |s|
  {
    if s == [] then []
    else if IsSpace(s[0]) then TrimSpace(s[1..])
    else if IsSpace(s[|s| - 1]) then TrimSpace(s[..|s| - 1])
    else s
  }

  lemma {:induction false} TrimSpaceShape(s: string)
    ensures |TrimSpace(s)| <= |s|
    ensures TrimSpace(s) != [] ==> !IsSpace(TrimSpace(s)[0])
    decreases |s|
  {
    if s != [] {
      if IsSpace(s[0]) {
        TrimSpaceShape(s[1..]);
      } else if IsSpace(s[|s| - 1]) {
        TrimSpaceShape(s[..|s| - 1]);
      }
    }
  }

  /** The characters from one position to another are all space. */
  ghost predicate SpaceBetween(s: string, from: nat, to: nat)
    requires from <= to <= |s|
  {
    forall k :: from <= k < to ==> IsSpace(s[k])
  }

  /** What is cut off at both ends is space, and what is left has none at its ends. */
  lemma {:induction false} TrimSpaceCuts(s: string) returns (from: nat, to: nat)
    ensures from <= to <= |s| && TrimSpace(s) == s[from..to]
    ensures SpaceBetween(s, 0, from) && SpaceBetween(s, to, |s|)
    ensures from < to ==> !IsSpace(s[from]) && !IsSpace(s[to - 1])
    decreases |s|
  {
    from, to := 0, |s|;
    if s != [] {
      if IsSpace(s[0]) {
        from, to := TrimSpaceCuts(s[1..]);
        CutFirst(s, from, to);
        from, to := from + 1, to + 1;
      } else if IsSpace(s[|s| - 1]) {
        from, to := TrimSpaceCuts(s[..|s| - 1]);
        assert s[..|s| - 1][from..to] == s[from..to];
        assert forall k :: to <= k < |s| - 1 ==> s[k] == s[..|s| - 1][k];
      }
    }
  }

  lemma CutFirst(s: string, from: nat, to: nat)
    requires s != [] && from <= to <= |s| - 1 && IsSpace(s[0])
    requires SpaceBetween(s[1..], 0, from) && SpaceBetween(s[1..], to, |s| - 1)
    ensures s[1..][from..to] == s[from + 1..to + 1]
    ensures SpaceBetween(s, 0, from + 1) && SpaceBetween(s, to + 1, |s|)
  {
    assert forall k :: 1 <= k < |s| ==> s[k] == s[1..][k - 1];
  }

  datatype HostPort = HostPort(host: string, port: string)

  /** `net.SplitHostPort`. */
  function SplitHostPort(s: string): Option<HostPort> {
    if ':' !in s then None
    else
      var i := LastIndex(s, ':');
      if s[0] == '[' then
        if ']' !in s then None
        else
          var end := Index(s, ']');
          if end + 1 != i || '[' in s[1..] || ']' in s[end + 1..] then None
          else Some(HostPort(s[1..end], s[i + 1..]))
      else if ':' in s[..i] || '[' in s || ']' in s then None
      else Some(HostPort(s[..i], s[i + 1..]))
  }

  /** `net.JoinHostPort`. */
  function JoinHostPort(host: string, port: string): string {
    if ':' in host then "[" + host + "]:" + port else host + ":" + port
  }

  datatype Refusal = Empty | BadPort | BadFormat

  predicate PortInRange(n: int) {
    1 <= n <= 65535
  }

  /** A port text the code accepts. It may carry a plus sign or leading zeros, which are kept. */
  predicate IsPort(s: string) {
    Atoi(s).Some? && PortInRange(Atoi(s).value)
  }

  const LOOPBACK := "127.0.0.1"

  function Normalize(input: string): Result<string, Refusal> {
    var s := TrimSpace(input);
    if s == [] then Err(Empty)
    else if Atoi(s).Some? then
      if IsPort(s) then Ok(LOOPBACK + ":" + Itoa(Atoi(s).value)) else Err(BadPort)
    else if s[0] == ':' then
      if IsPort(s[1..]) then Ok(LOOPBACK + ":" + Itoa(Atoi(s[1..]).value)) else Err(BadPort)
    else
      match SplitHostPort(s)
      case None => Err(BadFormat)
      case Some(hp) =>
        if !IsPort(hp.port) then Err(BadPort)
        else Ok(JoinHostPort(if hp.host == "" then LOOPBACK else hp.host, hp.port))
  }

  // ---------------- The shape of normalised addresses ----------------

  ghost predicate Joins(addr: string, host: string, port: string) {
    && addr == JoinHostPort(host, port)
    && host != "" && '[' !in host && ']' !in host
    && IsPort(port)
  }

  ghost predicate IsNormal(addr: string) {
    exists host, port :: Joins(addr, host, port)
  }

  lemma PortChars(port: string)
    requires IsPort(port)
    ensures port != "" && IsDigit(port[|port| - 1])
    ensures forall k :: 0 <= k < |port| ==> IsDigit(port[k]) || port[k] == '+' || port[k] == '-'
  {
    var signed := port[0] == '+' || port[0] == '-';
    var digits := if signed then port[1..] else port;
    assert AllDigits(digits) && digits != [];
    assert digits[|digits| - 1] == port[|port| - 1];
    assert signed ==> forall k :: 1 <= k < |port| ==> port[k] == digits[k - 1];
  }

  lemma DecIsPort(n: nat)
    requires PortInRange(n)
    ensures IsPort(Dec(n))
  {
    ValueOfDec(n);
  }

  lemma LoopbackJoins(port: string)
    requires IsPort(port)
    ensures Joins(LOOPBACK + ":" + port, LOOPBACK, port)
  {
  }

  /** Everything `Normalize` returns is `host:port` or `[host]:port` with a usable port. */
  lemma NormalizeGivesNormal(input: string)
    requires Normalize(input).Ok?
    ensures IsNormal(Normalize(input).value)
  {
    var s := TrimSpace(input);
    if Atoi(s).Some? {
      DecIsPort(Atoi(s).value);
      LoopbackJoins(Itoa(Atoi(s).value));
    } else if s[0] == ':' {
      DecIsPort(Atoi(s[1..]).value);
      LoopbackJoins(Itoa(Atoi(s[1..]).value));
    } else {
      var hp := SplitHostPort(s).value;
      SplitHostHasNoBrackets(s);
      if hp.host == "" {
        LoopbackJoins(hp.port);
      } else {
        assert Joins(Normalize(input).value, hp.host, hp.port);
      }
    }
  }

  lemma SplitHostHasNoBrackets(s: string)
    requires SplitHostPort(s).Some?
    ensures '[' !in SplitHostPort(s).value.host && ']' !in SplitHostPort(s).value.host
  {
    var host := SplitHostPort(s).value.host;
    if s[0] == '[' {
      var end := Index(s, ']');
      assert host == s[1..][..end - 1] && host == s[..end][1..];
    }
  }

  /** `net.SplitHostPort` undoes `net.JoinHostPort` on the hosts and ports that occur here. */
  lemma SplitUndoesJoin(host: string, port: string)
    requires '[' !in host && ']' !in host && IsPort(port)
    ensures SplitHostPort(JoinHostPort(host, port)) == Some(HostPort(host, port))
  {
    PortChars(port);
    if ':' in host {
      SplitBracketed(host, port);
    } else {
      var s := host + ":" + port;
      LastIndexAt(host, ':', port);
      assert s == host + [':'] + port;
      assert '[' !in s && ']' !in s;
    }
  }

  lemma LastColon(host: string, port: string)
    requires ':' !in port
    ensures var s := "[" + host + "]:" + port; ':' in s && LastIndex(s, ':') == |host| + 2 && s[|host| + 3..] == port
  {
    LastIndexAt("[" + host + "]", ':', port);
    assert "[" + host + "]:" + port == "[" + host + "]" + [':'] + port;
  }

  lemma FirstClosing(host: string, port: string)
    requires ']' !in host
    ensures var s := "[" + host + "]:" + port; ']' in s && Index(s, ']') == |host| + 1 && s[|host| + 2..] == ":" + port
  {
    IndexAt("[" + host, ']', ":" + port);
    assert "[" + host + "]:" + port == "[" + host + [']'] + (":" + port);
  }

  lemma SplitBracketed(host: string, port: string)
    requires '[' !in host && ']' !in host && ':' !in port && '[' !in port && ']' !in port
    ensures SplitHostPort("[" + host + "]:" + port) == Some(HostPort(host, port))
  {
    var s := "[" + host + "]:" + port;
    LastColon(host, port);
    FirstClosing(host, port);
    assert s[1..] == host + ("]:" + port);
    assert s[1..|host| + 1] == host;
  }

  /** Normalising changes nothing exactly on normal addresses that do not begin with a space. */
  lemma NormalizeFixpoints(addr: string)
    ensures Normalize(addr) == Ok(addr) <==> IsNormal(addr) && !IsSpace(addr[0])
  {
    TrimSpaceShape(addr);
    if Normalize(addr) == Ok(addr) {
      NormalizeGivesNormal(addr);
      NormalizeDoesNotGrow(addr);
    }
    if IsNormal(addr) && !IsSpace(addr[0]) {
      NormalIsFixed(addr);
    }
  }

  lemma NormalizeDoesNotGrow(addr: string)
    requires Normalize(addr) == Ok(addr)
    ensures !IsSpace(addr[0])
  {
    TrimSpaceShape(addr);
    var s := TrimSpace(addr);
    if !Atoi(s).Some? && s[0] != ':' {
      SplitCovers(s);
    }
  }

  /** Splitting loses the colon, and the brackets when there are any. */
  lemma SplitCovers(s: string)
    requires SplitHostPort(s).Some?
    ensures var hp := SplitHostPort(s).value;
      s == hp.host + ":" + hp.port || s == "[" + hp.host + "]:" + hp.port
    ensures s[0] == '[' <==> s == "[" + SplitHostPort(s).value.host + "]:" + SplitHostPort(s).value.port
  {
    if s[0] == '[' {
      SplitCoversBrackets(s);
    } else {
      var i := LastIndex(s, ':');
      assert s == s[..i] + [s[i]] + s[i + 1..];
    }
  }

  lemma SplitCoversBrackets(s: string)
    requires SplitHostPort(s).Some? && s[0] == '['
    ensures s == "[" + SplitHostPort(s).value.host + "]:" + SplitHostPort(s).value.port
  {
    var i, end := LastIndex(s, ':'), Index(s, ']');
    assert s == [s[0]] + s[1..end] + [s[end]] + [s[i]] + s[i + 1..];
  }

  lemma NormalIsFixed(addr: string)
    requires IsNormal(addr) && !IsSpace(addr[0])
    ensures Normalize(addr) == Ok(addr)
  {
    var host, port :| Joins(addr, host, port);
    SplitUndoesJoin(host, port);
    JoinedText(addr, host, port);
  }

  lemma JoinedText(addr: string, host: string, port: string)
    requires Joins(addr, host, port)
    ensures addr[0] != ':' && Atoi(addr).None? && !IsSpace(addr[|addr| - 1])
  {
    PortChars(port);
    var n := |addr|;
    assert addr[n - 1] == port[|port| - 1];
    var at := n - |port| - 1;
    assert addr[at] == ':' && at > 0;
    assert addr[1..][at - 1] == ':';
  }

  // ---------------- What the input names ----------------

  /** Host and port as a reader takes them: a number alone, `host:port`, or `[host]:port`; the host may be
  left out. */
  ghost predicate Names(text: string, host: string, port: int) {
    || (host == "" && Atoi(text) == Some(port))
    || (exists digits :: Atoi(digits) == Some(port) && Written(text, host, digits))
  }

  ghost predicate Written(text: string, host: string, digits: string) {
    && '[' !in host && ']' !in host
    && (text == "[" + host + "]:" + digits || (':' !in host && text == host + ":" + digits))
  }

  ghost predicate NamesPort(text: string) {
    exists host, port :: Names(text, host, port) && 1 <= port <= 65535
  }

  lemma WrittenSplits(text: string, host: string, digits: string)
    requires Written(text, host, digits) && IsPort(digits)
    ensures SplitHostPort(text) == Some(HostPort(host, digits)) && Atoi(text).None?
    ensures text[0] == ':' ==> host == "" && text[1..] == digits
  {
    PortChars(digits);
    if text == "[" + host + "]:" + digits {
      SplitBracketed(host, digits);
    } else {
      SplitUndoesJoin(host, digits);
      NoNumber(host, digits);
    }
  }

  lemma NoNumber(host: string, digits: string)
    ensures Atoi(host + ":" + digits).None?
  {
    var s := host + ":" + digits;
    assert s[|host|] == ':';
    assert |host| > 0 ==> s[1..][|host| - 1] == ':';
  }

  lemma LoopbackSplits(port: string)
    requires IsPort(port)
    ensures SplitHostPort(LOOPBACK + ":" + port) == Some(HostPort("127.0.0.1", port))
  {
    LoopbackPlain();
    SplitUndoesJoin(LOOPBACK, port);
    assert JoinHostPort(LOOPBACK, port) == LOOPBACK + ":" + port;
  }

  lemma LoopbackPlain()
    ensures LOOPBACK == "127.0.0.1" && ':' !in LOOPBACK && '[' !in LOOPBACK && ']' !in LOOPBACK
  {
  }

  /** The result names the port that the input names, and its host, or 127.0.0.1 when it names none. */
  ghost predicate Keeps(address: string, host: string, port: int) {
    var hp := SplitHostPort(address);
    hp.Some? && Atoi(hp.value.port) == Some(port) && hp.value.host == if host == "" then "127.0.0.1" else host
  }

  lemma NumberKept(input: string, port: int)
    requires Atoi(TrimSpace(input)) == Some(port) && PortInRange(port)
    ensures Normalize(input) == Ok("127.0.0.1:" + Dec(port)) && Keeps(Normalize(input).value, "", port)
  {
    NumberPrints(port);
  }

  lemma NumberPrints(port: int)
    requires PortInRange(port)
    ensures LOOPBACK + ":" + Itoa(port) == "127.0.0.1:" + Dec(port) && Keeps("127.0.0.1:" + Dec(port), "", port)
  {
    DecIsPort(port);
    AtoiDigits(port);
    LoopbackPlain();
    LoopbackSplits(Dec(port));
  }

  lemma WrittenKept(input: string, host: string, digits: string)
    requires Written(TrimSpace(input), host, digits) && IsPort(digits)
    ensures Normalize(input).Ok? && Keeps(Normalize(input).value, host, Atoi(digits).value)
  {
    var s := TrimSpace(input);
    WrittenSplits(s, host, digits);
    if s[0] == ':' {
      NumberPrints(Atoi(digits).value);
    } else if host == "" {
      LoopbackSplits(digits);
    } else {
      SplitUndoesJoin(host, digits);
    }
  }

  /** Everything an input names comes out again. */
  lemma NormalizeKeeps(input: string, host: string, port: int)
    requires Names(TrimSpace(input), host, port) && 1 <= port <= 65535
    ensures Normalize(input).Ok? && Keeps(Normalize(input).value, host, port)
  {
    var s := TrimSpace(input);
    if host == "" && Atoi(s) == Some(port) {
      NumberKept(input, port);
    } else {
      var digits :| Atoi(digits) == Some(port) && Written(s, host, digits);
      WrittenKept(input, host, digits);
    }
  }

  /** An input is accepted exactly when, trimmed, it names a port from 1 to 65535. */
  lemma NormalizeAccepts(input: string)
    ensures Normalize(input).Ok? <==> NamesPort(TrimSpace(input))
  {
    var s := TrimSpace(input);
    if Normalize(input).Ok? {
      if Atoi(s).Some? {
        assert Names(s, "", Atoi(s).value);
      } else if s[0] == ':' {
        assert s == "" + ":" + s[1..] && Written(s, "", s[1..]);
        assert Names(s, "", Atoi(s[1..]).value);
      } else {
        var hp := SplitHostPort(s).value;
        SplitHostHasNoBrackets(s);
        SplitCovers(s);
        if s[0] != '[' {
          SplitPlainHost(s);
        }
        assert Written(s, hp.host, hp.port);
        assert Names(s, hp.host, Atoi(hp.port).value);
      }
    }
    if NamesPort(s) {
      var host, port :| Names(s, host, port) && 1 <= port <= 65535;
      NormalizeKeeps(input, host, port);
    }
  }

  lemma SplitPlainHost(s: string)
    requires SplitHostPort(s).Some? && s[0] != '['
    ensures ':' !in SplitHostPort(s).value.host
  {
  }

  /** A port alone, with or without a colon, is a port of the loopback address. */
  lemma PortAlone(n: nat)
    requires 1 <= n <= 65535
    ensures Normalize(Dec(n)) == Ok("127.0.0.1:" + Dec(n))
    ensures Normalize(":" + Dec(n)) == Ok("127.0.0.1:" + Dec(n))
  {
    NothingToTrim(Dec(n));
    NothingToTrim(":" + Dec(n));
    AtoiDigits(n);
    NumberKept(Dec(n), n);
    NoNumber("", Dec(n));
    assert "" + ":" + Dec(n) == ":" + Dec(n) && (":" + Dec(n))[1..] == Dec(n);
  }

  lemma NothingToTrim(s: string)
    requires s != [] && !IsSpace(s[0]) && !IsSpace(s[|s| - 1])
    ensures TrimSpace(s) == s
  {
  }

  // ---------------- Normalising twice ----------------

  /** The address brackets a host whose first character is a space. */
  predicate HidesSpace(s: string) {
    |s| >= 2 && s[0] == '[' && IsSpace(s[1]) && ']' in s && ':' !in s[..Index(s, ']')]
  }

  /** Normalising an accepted input again changes nothing exactly when, trimmed, it does not bracket a host
  (without colons) that begins with a space. */
  lemma NormalizeTwiceIff(input: string)
    requires Normalize(input).Ok?
    ensures Normalize(Normalize(input).value) == Normalize(input) <==> !HidesSpace(TrimSpace(input))
  {
    NormalizeGivesNormal(input);
    NormalizeFixpoints(Normalize(input).value);
    FirstOfResult(input);
  }

  lemma FirstOfResult(input: string)
    requires Normalize(input).Ok?
    ensures Normalize(input).value != "" && (IsSpace(Normalize(input).value[0]) <==> HidesSpace(TrimSpace(input)))
  {
    var s := TrimSpace(input);
    TrimSpaceShape(input);
    if Atoi(s).Some? {
      NumberHidesNothing(s);
      LoopbackFirst(Itoa(Atoi(s).value));
    } else if s[0] == ':' {
      LoopbackFirst(Itoa(Atoi(s[1..]).value));
    } else {
      FirstOfSplit(s);
    }
  }

  lemma FirstOfSplit(s: string)
    requires s != [] && !IsSpace(s[0]) && SplitHostPort(s).Some?
    ensures var hp := SplitHostPort(s).value;
      var out := JoinHostPort(if hp.host == "" then LOOPBACK else hp.host, hp.port);
      out != "" && (IsSpace(out[0]) <==> HidesSpace(s))
  {
    var hp := SplitHostPort(s).value;
    if hp.host == "" {
      LoopbackFirst(hp.port);
      NoHostHidesNothing(s);
    } else {
      FirstOfNormalized(s);
    }
  }

  lemma NoHostHidesNothing(s: string)
    requires SplitHostPort(s).Some? && SplitHostPort(s).value.host == ""
    ensures !HidesSpace(s)
  {
    if s != [] && s[0] == '[' {
      assert Index(s, ']') == 1;
    }
  }

  lemma NumberHidesNothing(s: string)
    requires Atoi(s).Some?
    ensures !HidesSpace(s)
  {
    assert s[0] == '[' ==> !IsDigit(s[0]);
  }

  lemma LoopbackFirst(port: string)
    ensures JoinHostPort(LOOPBACK, port) == LOOPBACK + ":" + port && (LOOPBACK + ":" + port)[0] == '1' && !IsSpace('1')
  {
    LoopbackPlain();
  }

  /** The first character of a joined address: a bracket before a host with colons, else the host's own. */
  lemma FirstOfNormalized(s: string)
    requires s != [] && !IsSpace(s[0]) && SplitHostPort(s).Some?
    ensures var hp := SplitHostPort(s).value;
      hp.host != "" ==> (IsSpace(JoinHostPort(hp.host, hp.port)[0]) <==> HidesSpace(s))
  {
  }

  /** Where idempotence fails: brackets can hide a leading space that the next pass would trim. */
  lemma NormalizeTwiceCanDiffer(host: string, port: string)
    requires host != "" && IsSpace(host[0]) && '[' !in host && ']' !in host && ':' !in host && IsPort(port)
    ensures var once := Normalize("[" + host + "]:" + port);
      once.Ok? && Normalize(once.value) != once
  {
    var input := "[" + host + "]:" + port;
    PortChars(port);
    assert input[|input| - 1] == port[|port| - 1];
    assert TrimSpace(input) == input && Atoi(input).None?;
    SplitBracketed(host, port);
    assert Normalize(input) == Ok(host + ":" + port);
    NormalizeFixpoints(host + ":" + port);
  }

  // ---------------- Framing ----------------

  /** The one text, with a newline after it, begins the other. */
  ghost predicate Heads(a: string, b: string) {
    a + "\n" <= b
  }

  /** No address, with a newline after it, begins another one. */
  ghost predicate Framed(addrs: set<string>) {
    forall a, b :: a in addrs && b in addrs ==> !Heads(a, b)
  }

  /** Normal addresses are framed even though a host may contain newlines. */
  lemma NormalAddrsFramed(addrs: set<string>)
    requires forall a :: a in addrs ==> IsNormal(a)
    ensures Framed(addrs)
  {
    forall a, b | a in addrs && b in addrs ensures !Heads(a, b) {
      NotAHead(a, b);
    }
  }

  lemma NotAHead(a: string, b: string)
    requires IsNormal(a) && IsNormal(b)
    ensures !Heads(a, b)
  {
    var h, p := PartsOf(a);
    var h', p' := PartsOf(b);
    if Heads(a, b) {
      var x := RestAfterHead(a, b);
      HeadIsNoAddress(a, h, p, x, b, h', p');
    }
  }

  lemma PartsOf(addr: string) returns (host: string, port: string)
    requires IsNormal(addr)
    ensures Joins(addr, host, port)
  {
    host, port :| Joins(addr, host, port);
  }

  lemma RestAfterHead(a: string, b: string) returns (x: string)
    requires Heads(a, b)
    ensures b == a + "\n" + x
  {
    x := b[|a| + 1..];
  }

  lemma HeadIsNoAddress(a: string, h: string, p: string, x: string, b: string, h': string, p': string)
    requires Joins(a, h, p) && Joins(b, h', p')
    ensures b != a + "\n" + x
  {
    NoNewlineInPort(p, x, p');
    if b == a + "\n" + x {
      HeadSharesHost(a, h, p, x, b, h', p');
    }
  }

  lemma HeadSharesHost(a: string, h: string, p: string, x: string, b: string, h': string, p': string)
    requires Joins(a, h, p) && Joins(b, h', p') && b == a + "\n" + x
    ensures p' == p + "\n" + x
  {
    assert a[0] == b[0];
    if ':' in h {
      assert ':' in h';
      BracketedHead(h, p, x, h', p');
    } else {
      assert ':' !in h';
      assert b == h + [':'] + (p + "\n" + x);
      CutOnce(h, p + "\n" + x, h', p', ':');
    }
  }

  lemma NoNewlineInPort(p: string, x: string, port: string)
    requires IsPort(port)
    ensures port != p + "\n" + x
  {
    PortChars(port);
    assert (p + "\n" + x)[|p|] == '\n';
  }

  lemma BracketedHead(h: string, p: string, x: string, h': string, p': string)
    requires "[" + h + "]:" + p + "\n" + x == "[" + h' + "]:" + p'
    requires ']' !in h && ']' !in h'
    ensures p' == p + "\n" + x
  {
    var b := "[" + h' + "]:" + p';
    assert b[1..] == h + [']'] + (":" + p + "\n" + x);
    assert b[1..] == h' + [']'] + (":" + p');
    CutOnce(h, ":" + p + "\n" + x, h', ":" + p', ']');
    assert (":" + p')[1..] == p' && (":" + p + "\n" + x)[1..] == p + "\n" + x;
  }
}
