/** The tunnel rules a device runs, and the chisel specs they are printed as. */
module ChiselSpec {
  import opened Wrappers
  import opened Text
  import opened LocalAddr

  /** A reverse rule: public port on the server to a local address of the device. */
  datatype Remote = Remote(publicPort: int, localAddr: string, protocol: string, bindLocal: bool)

  /** A forward rule: local port of the device to a public port on the server. */
  datatype Local = Local(localPort: int, remotePublicPort: int, protocol: string)

  /** `strings.ToLower` where it matters here: no other letter lowers to one of "tcpud". */
  function Lower(s: string): string {
    seq(|s|, i requires 0 <= i < |s| => if 'A' <= s[i] <= 'Z' then (s[i] as int + 32) as char else s[i])
  }

  predicate IsUdp(protocol: string) {
    Lower(protocol) == "udp"
  }

  predicate KnownProtocol(protocol: string) {
    Lower(protocol) == "tcp" || Lower(protocol) == "udp"
  }

  predicate ValidRemote(r: Remote) {
    PortInRange(r.publicPort) && r.localAddr != "" && KnownProtocol(r.protocol)
  }

  predicate ValidLocal(l: Local) {
    PortInRange(l.localPort) && PortInRange(l.remotePublicPort) && KnownProtocol(l.protocol)
  }

  function UdpSuffix(protocol: string): string {
    if IsUdp(protocol) then "/udp" else ""
  }

  function Bind(r: Remote): string {
    if r.bindLocal then "127.0.0.1" else "0.0.0.0"
  }

  function RemoteSpec(r: Remote): string {
    "R:" + Bind(r) + ":" + Itoa(r.publicPort) + ":" + r.localAddr
    + UdpSuffix(r.protocol)
  }

  function LocalSpec(l: Local): string {
    "127.0.0.1:" + Itoa(l.localPort) + ":127.0.0.1:" + Itoa(l.remotePublicPort) + UdpSuffix(l.protocol)
  }

  // ---------------- What a spec says ----------------

  /** A tunnel as chisel reads it from a spec: who listens (the server if it is a reverse one), on which address
  and port, and which host and port is dialled at the other end. */
  datatype Tunnel = Tunnel(reverse: bool, bind: string, listens: int, host: string, dials: int, udp: bool)

  predicate EndsWith(s: string, suffix: string) {
    |s| >= |suffix| && s[|s| - |suffix|..] == suffix
  }

  /** `host:port` as the dialling end takes it. */
  function ReadTarget(s: string): Option<(string, int)> {
    match SplitHostPort(s)
    case None => None
    case Some(hp) => if IsPort(hp.port) then Some((hp.host, Atoi(hp.port).value)) else None
  }

  /** A bind address, a port and a target, with colons in between. */
  function ReadParts(s: string, reverse: bool, udp: bool): Option<Tunnel> {
    if ':' !in s then None
    else
      var rest := s[Index(s, ':') + 1..];
      if ':' !in rest || !IsPort(rest[..Index(rest, ':')]) then None
      else
        match ReadTarget(rest[Index(rest, ':') + 1..])
        case None => None
        case Some((host, port)) =>
          Some(Tunnel(reverse, s[..Index(s, ':')], Atoi(rest[..Index(rest, ':')]).value, host, port, udp))
  }

  /** A spec is read from its text alone: an optional `R:` in front, an optional `/udp` behind. */
  function ReadSpec(s: string): Option<Tunnel> {
    var reverse := "R:" <= s;
    var body := if reverse then s[2..] else s;
    var udp := EndsWith(body, "/udp");
    ReadParts(if udp then body[..|body| - 4] else body, reverse, udp)
  }

  /** The three letters, in either case. */
  lemma ProtocolsByLetter(p: string)
    ensures IsUdp(p) <==> |p| == 3 && p[0] in {'u', 'U'} && p[1] in {'d', 'D'} && p[2] in {'p', 'P'}
    ensures Lower(p) == "tcp" <==> |p| == 3 && p[0] in {'t', 'T'} && p[1] in {'c', 'C'} && p[2] in {'p', 'P'}
  {
    assert |Lower(p)| == |p|;
    assert forall i :: 0 <= i < |p| ==> Lower(p)[i] == if 'A' <= p[i] <= 'Z' then (p[i] as int + 32) as char else p[i];
    assert Lower(p) == "udp" <==> |p| == 3 && Lower(p)[0] == 'u' && Lower(p)[1] == 'd' && Lower(p)[2] == 'p';
    assert Lower(p) == "tcp" <==> |p| == 3 && Lower(p)[0] == 't' && Lower(p)[1] == 'c' && Lower(p)[2] == 'p';
  }

  lemma PortPrints(n: int)
    requires PortInRange(n)
    ensures IsPort(Itoa(n)) && Atoi(Itoa(n)) == Some(n) && ':' !in Itoa(n)
  {
    AtoiDigits(n);
    ItoaChars(n);
  }

  lemma ColonsRead(bind: string, port: string, target: string, reverse: bool, udp: bool)
    requires ':' !in bind && ':' !in port && IsPort(port) && ReadTarget(target).Some?
    ensures ReadParts(bind + [':'] + (port + [':'] + target), reverse, udp)
      == Some(Tunnel(reverse, bind, Atoi(port).value, ReadTarget(target).value.0, ReadTarget(target).value.1, udp))
  {
    IndexAt(bind, ':', port + [':'] + target);
    IndexAt(port, ':', target);
  }

  lemma TargetRead(host: string, port: string)
    requires '[' !in host && ']' !in host && IsPort(port)
    ensures ReadTarget(JoinHostPort(host, port)) == Some((host, Atoi(port).value))
  {
    SplitUndoesJoin(host, port);
  }

  /** Everything between the prefix and the suffix. */
  function Body(bind: string, n: int, target: string): string {
    bind + [':'] + (Itoa(n) + [':'] + target)
  }

  lemma BodyRead(bind: string, n: int, host: string, port: string, reverse: bool, udp: bool)
    requires ':' !in bind && PortInRange(n) && '[' !in host && ']' !in host && IsPort(port)
    ensures ReadParts(Body(bind, n, JoinHostPort(host, port)), reverse, udp)
      == Some(Tunnel(reverse, bind, n, host, Atoi(port).value, udp))
  {
    PortPrints(n);
    TargetRead(host, port);
    ColonsRead(bind, Itoa(n), JoinHostPort(host, port), reverse, udp);
  }

  /** The suffix is seen exactly when it was put there: an address ends in a digit. */
  lemma SuffixRead(body: string, protocol: string)
    requires body != "" && IsDigit(body[|body| - 1])
    ensures var s := body + UdpSuffix(protocol);
      && (EndsWith(s, "/udp") <==> IsUdp(protocol))
      && (if IsUdp(protocol) then s[..|s| - 4] == body else s == body)
  {
    var s := body + UdpSuffix(protocol);
    assert !IsUdp(protocol) ==> s == body && s[|s| - 1] != 'p';
    if |s| >= 4 {
      assert s[|s| - 4..][3] == s[|s| - 1];
    }
  }

  lemma EndInDigit(bind: string, n: int, target: string)
    requires target != "" && IsDigit(target[|target| - 1])
    ensures var body := Body(bind, n, target); body != "" && IsDigit(body[|body| - 1])
  {
    var body := Body(bind, n, target);
    assert body[|body| - 1] == target[|target| - 1];
  }

  lemma PrefixRead(body: string, protocol: string)
    requires body != "" && IsDigit(body[|body| - 1])
    ensures ReadSpec("R:" + (body + UdpSuffix(protocol))) == ReadParts(body, true, IsUdp(protocol))
    ensures body[0] != 'R' ==> ReadSpec(body + UdpSuffix(protocol)) == ReadParts(body, false, IsUdp(protocol))
  {
    SuffixRead(body, protocol);
    var s := body + UdpSuffix(protocol);
    assert ("R:" + s)[2..] == s && "R:" <= "R:" + s;
    assert s[0] == body[0];
  }

  lemma ReverseRead(bind: string, n: int, addr: string, host: string, port: string, protocol: string)
    requires ':' !in bind && PortInRange(n) && Joins(addr, host, port)
    ensures ReadSpec("R:" + (Body(bind, n, addr) + UdpSuffix(protocol)))
      == Some(Tunnel(true, bind, n, host, Atoi(port).value, IsUdp(protocol)))
  {
    JoinEndsInDigit(addr, host, port);
    EndInDigit(bind, n, addr);
    PrefixRead(Body(bind, n, addr), protocol);
    BodyRead(bind, n, host, port, true, IsUdp(protocol));
  }

  lemma BindText(r: Remote)
    ensures Bind(r) == (if r.bindLocal then "127.0.0.1" else "0.0.0.0") && ':' !in Bind(r)
  {
  }

  /** What a reader makes of the spec of a reverse rule: the server listens on the loopback address if the rule
  is bound locally and on every address if not, and the device dials the rule's address. */
  lemma RemoteSpecReads(r: Remote, host: string, port: string)
    requires ValidRemote(r) && Joins(r.localAddr, host, port)
    ensures ReadSpec(RemoteSpec(r)) == Some(Tunnel(
      true, if r.bindLocal then "127.0.0.1" else "0.0.0.0", r.publicPort, host, Atoi(port).value, IsUdp(r.protocol)))
  {
    BindText(r);
    RemoteSpecBody(r);
    ReverseRead(Bind(r), r.publicPort, r.localAddr, host, port, r.protocol);
  }

  lemma RemoteSpecBody(r: Remote)
    ensures RemoteSpec(r) == "R:" + (Body(Bind(r), r.publicPort, r.localAddr) + UdpSuffix(r.protocol))
  {
    RemoteSpecParts(r);
    Regroup(Bind(r) + [':'], Itoa(r.publicPort) + [':'], r.localAddr, UdpSuffix(r.protocol));
  }

  lemma JoinEndsInDigit(addr: string, host: string, port: string)
    requires Joins(addr, host, port)
    ensures addr != "" && IsDigit(addr[|addr| - 1])
  {
    PortChars(port);
    assert addr[|addr| - 1] == port[|port| - 1];
  }

  /** The spec of a forward rule: the device listens on its loopback address only, and the server dials its own. */
  lemma LocalSpecReads(l: Local)
    requires ValidLocal(l)
    ensures ReadSpec(LocalSpec(l))
      == Some(Tunnel(false, "127.0.0.1", l.localPort, "127.0.0.1", l.remotePublicPort, IsUdp(l.protocol)))
  {
    var port := Itoa(l.remotePublicPort);
    PortPrints(l.remotePublicPort);
    var target := JoinHostPort("127.0.0.1", port);
    JoinEndsInDigit(target, "127.0.0.1", port);
    EndInDigit("127.0.0.1", l.localPort, target);
    PrefixRead(Body("127.0.0.1", l.localPort, target), l.protocol);
    LocalSpecBody(l);
    BodyRead("127.0.0.1", l.localPort, "127.0.0.1", port, false, IsUdp(l.protocol));
  }

  lemma LocalSpecBody(l: Local)
    ensures var body := Body("127.0.0.1", l.localPort, JoinHostPort("127.0.0.1", Itoa(l.remotePublicPort)));
      LocalSpec(l) == body + UdpSuffix(l.protocol) && body[0] == '1'
  {
    var p, q := Itoa(l.localPort), Itoa(l.remotePublicPort);
    Regroup("127.0.0.1:" + p, ":127.0.0.1:", q, UdpSuffix(l.protocol));
    assert JoinHostPort("127.0.0.1", q) == "127.0.0.1:" + q;
    assert LocalSpec(l) == "127.0.0.1:" + p + ":127.0.0.1:" + q + UdpSuffix(l.protocol);
    assert "127.0.0.1:" + p + ":127.0.0.1:" + q == "127.0.0.1" + [':'] + (p + [':'] + ("127.0.0.1:" + q));
  }

  /** What the rules ask for, read back from a list of specs: first the reverse rules, then the forward ones. */
  ghost predicate SpecsRead(specs: seq<string>, remotes: seq<Remote>, locals: seq<Local>) {
    && |specs| == |remotes| + |locals|
    && (forall i, host, port :: 0 <= i < |remotes| && Joins(remotes[i].localAddr, host, port) ==>
          ReadSpec(specs[i]) == Some(Tunnel(
            true, if remotes[i].bindLocal then "127.0.0.1" else "0.0.0.0", remotes[i].publicPort,
            host, Atoi(port).value, IsUdp(remotes[i].protocol))))
    && (forall i :: 0 <= i < |locals| ==>
          ReadSpec(specs[|remotes| + i]) == Some(Tunnel(
            false, "127.0.0.1", locals[i].localPort,
            "127.0.0.1", locals[i].remotePublicPort, IsUdp(locals[i].protocol))))
  }

  lemma EncodedSpecsRead(specs: seq<string>, remotes: seq<Remote>, locals: seq<Local>)
    requires |specs| == |remotes| + |locals|
    requires forall i :: 0 <= i < |remotes| ==> ValidRemote(remotes[i]) && specs[i] == RemoteSpec(remotes[i])
    requires forall i :: 0 <= i < |locals| ==> ValidLocal(locals[i]) && specs[|remotes| + i] == LocalSpec(locals[i])
    ensures SpecsRead(specs, remotes, locals)
  {
    forall i, host, port | 0 <= i < |remotes| && Joins(remotes[i].localAddr, host, port)
      ensures ReadSpec(specs[i]) == Some(Tunnel(
        true, if remotes[i].bindLocal then "127.0.0.1" else "0.0.0.0", remotes[i].publicPort,
        host, Atoi(port).value, IsUdp(remotes[i].protocol)))
    {
      RemoteSpecReads(remotes[i], host, port);
    }
    forall i | 0 <= i < |locals|
      ensures ReadSpec(specs[|remotes| + i]) == Some(Tunnel(
        false, "127.0.0.1", locals[i].localPort,
        "127.0.0.1", locals[i].remotePublicPort, IsUdp(locals[i].protocol)))
    {
      LocalSpecReads(locals[i]);
    }
  }

  // ---------------- Building a client ----------------

  /** The validation of a rule, spelled out. */
  ghost predicate RulesPass(remotes: seq<Remote>, locals: seq<Local>) {
    && (forall i :: 0 <= i < |remotes| ==>
          && 1 <= remotes[i].publicPort <= 65535 && remotes[i].localAddr != ""
          && Lower(remotes[i].protocol) in {"tcp", "udp"})
    && (forall i :: 0 <= i < |locals| ==>
          && 1 <= locals[i].localPort <= 65535 && 1 <= locals[i].remotePublicPort <= 65535
          && Lower(locals[i].protocol) in {"tcp", "udp"})
  }

  lemma PassIff(remotes: seq<Remote>, locals: seq<Local>)
    ensures RulesPass(remotes, locals) <==>
      && (forall i :: 0 <= i < |remotes| ==> ValidRemote(remotes[i]))
      && (forall i :: 0 <= i < |locals| ==> ValidLocal(locals[i]))
  {
    if forall i :: 0 <= i < |remotes| ==> ValidRemote(remotes[i]) {
      assert forall i :: 0 <= i < |remotes| ==> Lower(remotes[i].protocol) in {"tcp", "udp"};
    }
  }

  /** `NewClient`, up to handing the specs to chisel: None when some rule fails validation. */
  method EncodeSpecs(remotes: seq<Remote>, locals: seq<Local>) returns (specs: Option<seq<string>>)
    ensures specs.Some? <==> RulesPass(remotes, locals)
    ensures specs.Some? ==> SpecsRead(specs.value, remotes, locals)
    ensures specs.Some? ==> |specs.value| == |remotes| + |locals|
    ensures specs.Some? ==> forall i :: 0 <= i < |remotes| ==> specs.value[i] == RemoteSpec(remotes[i])
    ensures specs.Some? ==> forall i :: 0 <= i < |locals| ==> specs.value[|remotes| + i] == LocalSpec(locals[i])
  {
    var out: seq<string> := [];
    for n := 0 to |remotes|
      invariant |out| == n
      invariant forall i :: 0 <= i < n ==> ValidRemote(remotes[i]) && out[i] == RemoteSpec(remotes[i])
    {
      if !ValidRemote(remotes[n]) {
        PassIff(remotes, locals);
        return None;
      }
      out := out + [RemoteSpec(remotes[n])];
    }
    for n := 0 to |locals|
      invariant |out| == |remotes| + n
      invariant forall i :: 0 <= i < |remotes| ==> out[i] == RemoteSpec(remotes[i])
      invariant forall i :: 0 <= i < n ==> ValidLocal(locals[i]) && out[|remotes| + i] == LocalSpec(locals[i])
    {
      if !ValidLocal(locals[n]) {
        PassIff(remotes, locals);
        return None;
      }
      out := out + [LocalSpec(locals[n])];
    }
    specs := Some(out);
    EncodedSpecsRead(out, remotes, locals);
    PassIff(remotes, locals);
  }

  // ---------------- Specs lose nothing ----------------

  datatype Rule = Reverse(remote: Remote) | Direct(local: Local)

  function Spec(rule: Rule): string {
    match rule
    case Reverse(r) => RemoteSpec(r)
    case Direct(l) => LocalSpec(l)
  }

  ghost predicate Sound(rule: Rule) {
    match rule
    case Reverse(r) => ValidRemote(r) && IsNormal(r.localAddr)
    case Direct(l) => ValidLocal(l)
  }

  /** What chisel acts on: everything in a rule except how its protocol is spelled. */
  datatype Meaning =
    | Listen(bindLocal: bool, publicPort: int, localAddr: string, udp: bool)
    | Dial(localPort: int, remotePublicPort: int, udp: bool)

  function Means(rule: Rule): Meaning {
    match rule
    case Reverse(r) => Listen(r.bindLocal, r.publicPort, r.localAddr, IsUdp(r.protocol))
    case Direct(l) => Dial(l.localPort, l.remotePublicPort, IsUdp(l.protocol))
  }

  /** Two rules print the same spec exactly when they mean the same. */
  lemma SpecsLoseNothing(a: Rule, b: Rule)
    requires Sound(a) && Sound(b)
    ensures Spec(a) == Spec(b) <==> Means(a) == Means(b)
  {
    assert Spec(a)[0] == (if a.Reverse? then 'R' else '1') && Spec(b)[0] == (if b.Reverse? then 'R' else '1');
    if Spec(a) == Spec(b) {
      if a.Reverse? {
        RemoteSpecFaithful(a.remote, b.remote);
      } else {
        LocalSpecFaithful(a.local, b.local);
      }
    }
  }

  lemma SuffixFaithful(a: string, p: string, b: string, q: string)
    requires a != "" && IsDigit(a[|a| - 1]) && b != "" && IsDigit(b[|b| - 1])
    requires a + UdpSuffix(p) == b + UdpSuffix(q)
    ensures a == b && IsUdp(p) == IsUdp(q)
  {
    var t := a + UdpSuffix(p);
    assert IsUdp(p) ==> t[|t| - 1] == 'p' && t[..|t| - 4] == a;
    assert IsUdp(q) ==> t[|t| - 1] == 'p' && t[..|t| - 4] == b;
    assert !IsUdp(p) ==> t == a;
    assert !IsUdp(q) ==> t == b;
  }

  lemma NormalEndsInDigit(addr: string)
    requires IsNormal(addr)
    ensures addr != "" && IsDigit(addr[|addr| - 1])
  {
    var host, port :| Joins(addr, host, port);
    JoinEndsInDigit(addr, host, port);
  }

  lemma CutPort(p: int, x: string, q: int, y: string)
    requires Itoa(p) + [':'] + x == Itoa(q) + [':'] + y
    ensures p == q && x == y
  {
    ItoaChars(p);
    ItoaChars(q);
    CutOnce(Itoa(p), x, Itoa(q), y, ':');
    ItoaInjective(p, q);
  }

  lemma Strip(a: string, x: string, y: string)
    requires a + x == a + y
    ensures x == y
  {
    assert (a + x)[|a|..] == x && (a + y)[|a|..] == y;
  }

  function Target(r: Remote): string {
    r.localAddr + UdpSuffix(r.protocol)
  }

  lemma RemoteSpecParts(r: Remote)
    ensures RemoteSpec(r) == "R:" + (Bind(r) + [':'] + (Itoa(r.publicPort) + [':'] + Target(r)))
  {
  }

  lemma RemoteSpecFaithful(r: Remote, s: Remote)
    requires ValidRemote(r) && ValidRemote(s) && IsNormal(r.localAddr) && IsNormal(s.localAddr)
    requires RemoteSpec(r) == RemoteSpec(s)
    ensures Means(Reverse(r)) == Means(Reverse(s))
  {
    RemoteSpecParts(r);
    RemoteSpecParts(s);
    var rest, rest' := Itoa(r.publicPort) + [':'] + Target(r), Itoa(s.publicPort) + [':'] + Target(s);
    Strip("R:", Bind(r) + [':'] + rest, Bind(s) + [':'] + rest');
    CutOnce(Bind(r), rest, Bind(s), rest', ':');
    assert |Bind(r)| == |Bind(s)|;
    CutPort(r.publicPort, Target(r), s.publicPort, Target(s));
    NormalEndsInDigit(r.localAddr);
    NormalEndsInDigit(s.localAddr);
    SuffixFaithful(r.localAddr, r.protocol, s.localAddr, s.protocol);
  }

  lemma Regroup(a: string, b: string, c: string, d: string)
    ensures a + b + c + d == a + (b + (c + d))
  {
    assert a + b + c + d == (a + b) + (c + d);
  }

  lemma LocalSpecParts(l: Local)
    ensures LocalSpec(l)
      == "127.0.0.1:" + (Itoa(l.localPort) + [':']
                         + ("127.0.0.1:" + (Itoa(l.remotePublicPort) + UdpSuffix(l.protocol))))
  {
    var p, rest := Itoa(l.localPort), Itoa(l.remotePublicPort) + UdpSuffix(l.protocol);
    Regroup("127.0.0.1:" + p, ":127.0.0.1:", Itoa(l.remotePublicPort), UdpSuffix(l.protocol));
    assert ":127.0.0.1:" + rest == [':'] + ("127.0.0.1:" + rest);
    Regroup("127.0.0.1:", p, [':'], "127.0.0.1:" + rest);
  }

  lemma LocalSpecFaithful(l: Local, m: Local)
    requires ValidLocal(l) && ValidLocal(m) && LocalSpec(l) == LocalSpec(m)
    ensures Means(Direct(l)) == Means(Direct(m))
  {
    var q, q' := Itoa(l.remotePublicPort), Itoa(m.remotePublicPort);
    var tail, tail' := q + UdpSuffix(l.protocol), q' + UdpSuffix(m.protocol);
    LocalSpecParts(l);
    LocalSpecParts(m);
    Strip("127.0.0.1:",
          Itoa(l.localPort) + [':'] + ("127.0.0.1:" + tail),
          Itoa(m.localPort) + [':'] + ("127.0.0.1:" + tail'));
    CutPort(l.localPort, "127.0.0.1:" + tail, m.localPort, "127.0.0.1:" + tail');
    Strip("127.0.0.1:", tail, tail');
    SuffixFaithful(q, l.protocol, q', m.protocol);
    ItoaInjective(l.remotePublicPort, m.remotePublicPort);
  }
}
