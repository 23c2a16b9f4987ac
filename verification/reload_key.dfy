/** The text `hashSpecs` digests: the daemon restarts its tunnels when this text changes.

SHA-256 is taken as injective, so the model compares the texts themselves.
*/
module ReloadKey {
  import opened Text
  import opened LocalAddr
  import opened Sorting
  import opened ChiselSpec

  function RemoteKey(r: Remote): string {
    "R|" + Itoa(r.publicPort) + "|" + r.protocol + "|" + r.localAddr
  }

  function LocalKey(l: Local): string {
    "L|" + Itoa(l.localPort) + "|" + Itoa(l.remotePublicPort) + "|" + l.protocol
  }

  /** `sort.Strings`. */
  function SortStrings(keys: seq<string>): seq<string> {
    Sort(keys, Le)
  }

  function RemoteKeys(rs: seq<Remote>): seq<string> {
    seq(|rs|, i requires 0 <= i < |rs| => RemoteKey(rs[i]))
  }

  function LocalKeys(ls: seq<Local>): seq<string> {
    seq(|ls|, i requires 0 <= i < |ls| => LocalKey(ls[i]))
  }

  function CanonicalText(rs: seq<Remote>, ls: seq<Local>): string {
    Join(SortStrings(RemoteKeys(rs)), "\n") + "\n--\n" + Join(SortStrings(LocalKeys(ls)), "\n")
  }

  method HashSpecs(rs: seq<Remote>, ls: seq<Local>) returns (text: string)
    ensures text == CanonicalText(rs, ls)
  {
    var rKeys: seq<string> := [];
    for i := 0 to |rs|
      invariant rKeys == RemoteKeys(rs)[..i]
    {
      rKeys := rKeys + [RemoteKey(rs[i])];
    }
    var lKeys: seq<string> := [];
    for i := 0 to |ls|
      invariant lKeys == LocalKeys(ls)[..i]
    {
      lKeys := lKeys + [LocalKey(ls[i])];
    }
    assert rKeys == RemoteKeys(rs) && lKeys == LocalKeys(ls);
    text := Join(SortStrings(rKeys), "\n") + "\n--\n" + Join(SortStrings(lKeys), "\n");
  }

  // ---------------- When the text is faithful ----------------

  /** A remote rule as far as the text shows it. */
  function Shown(r: Remote): Remote {
    r.(bindLocal := true)
  }

  function ShownAll(rs: seq<Remote>): seq<Remote> {
    seq(|rs|, i requires 0 <= i < |rs| => Shown(rs[i]))
  }

  ghost predicate SameRules(r1: seq<Remote>, l1: seq<Local>, r2: seq<Remote>, l2: seq<Local>) {
    multiset(ShownAll(r1)) == multiset(ShownAll(r2)) && multiset(l1) == multiset(l2)
  }

  ghost function Addrs(rs: seq<Remote>): set<string> {
    set r | r in rs :: r.localAddr
  }

  ghost predicate Printable(rs: seq<Remote>, ls: seq<Local>) {
    && (forall r :: r in rs ==> '|' !in r.protocol)
    && (forall l :: l in ls ==> '\n' !in l.protocol)
  }

  /** Two rule lists have the same text exactly when they hold the same rules, in any order and
  leaving BindLocal aside. Addresses must be framed: text without newlines is, and so is
  everything `NormalizeLocalAddr` returns. */
  lemma TextIsFaithful(r1: seq<Remote>, l1: seq<Local>, r2: seq<Remote>, l2: seq<Local>)
    requires Printable(r1, l1) && Printable(r2, l2) && Framed(Addrs(r1) + Addrs(r2))
    ensures CanonicalText(r1, l1) == CanonicalText(r2, l2) <==> SameRules(r1, l1, r2, l2)
  {
    if CanonicalText(r1, l1) == CanonicalText(r2, l2) {
      SameTextSameRules(r1, l1, r2, l2);
    }
    if SameRules(r1, l1, r2, l2) {
      SameRulesSameText(r1, l1, r2, l2);
    }
  }

  lemma SameTextSameRules(r1: seq<Remote>, l1: seq<Local>, r2: seq<Remote>, l2: seq<Local>)
    requires Printable(r1, l1) && Printable(r2, l2) && Framed(Addrs(r1) + Addrs(r2))
    requires CanonicalText(r1, l1) == CanonicalText(r2, l2)
    ensures SameRules(r1, l1, r2, l2)
  {
    KeysFramed(r1, r2);
    LocalKeysFramed(l1, l2);
    SortedFraming(RemoteKeys(r1), RemoteKeys(r2), 'R');
    SortedFraming(LocalKeys(l1), LocalKeys(l2), 'L');
    TextGivesKeys(SortStrings(RemoteKeys(r1)), SortStrings(LocalKeys(l1)),
                  SortStrings(RemoteKeys(r2)), SortStrings(LocalKeys(l2)));
    SameSortingSameBag(RemoteKeys(r1), RemoteKeys(r2));
    SameSortingSameBag(LocalKeys(l1), LocalKeys(l2));
    RemoteKeysGiveRules(r1, r2);
    LocalKeysGiveRules(l1, l2);
  }

  lemma SameRulesSameText(r1: seq<Remote>, l1: seq<Local>, r2: seq<Remote>, l2: seq<Local>)
    requires SameRules(r1, l1, r2, l2)
    ensures CanonicalText(r1, l1) == CanonicalText(r2, l2)
  {
    SameBagSameKeys(ShownAll(r1), ShownAll(r2), RemoteKey);
    SameBagSameKeys(l1, l2, LocalKey);
    assert RemoteKeys(r1) == Mapped(ShownAll(r1), RemoteKey) && RemoteKeys(r2) == Mapped(ShownAll(r2), RemoteKey);
    assert LocalKeys(l1) == Mapped(l1, LocalKey) && LocalKeys(l2) == Mapped(l2, LocalKey);
    SameBagSameSorting(RemoteKeys(r1), RemoteKeys(r2));
    SameBagSameSorting(LocalKeys(l1), LocalKeys(l2));
  }

  /** What leaving BindLocal aside costs: a rule that only changes where it listens keeps its text. */
  lemma BindLocalGoesUnseen(r: Remote, ls: seq<Local>)
    ensures var moved := r.(bindLocal := !r.bindLocal);
      CanonicalText([moved], ls) == CanonicalText([r], ls) && RemoteSpec(moved) != RemoteSpec(r)
  {
    var moved := r.(bindLocal := !r.bindLocal);
    assert RemoteKeys([moved]) == RemoteKeys([r]);
    assert RemoteSpec(moved)[2] != RemoteSpec(r)[2];
  }

  /** Without framing it fails: an address can spell out a second rule. */
  lemma RawNewlineForges(r: Remote, s: Remote, ls: seq<Local>)
    requires Le(RemoteKey(r), RemoteKey(s))
    ensures var forged := r.(localAddr := r.localAddr + "\n" + RemoteKey(s));
      CanonicalText([forged], ls) == CanonicalText([r, s], ls) && !SameRules([forged], ls, [r, s], ls)
  {
    var k1, k2 := RemoteKey(r), RemoteKey(s);
    var forged := r.(localAddr := r.localAddr + "\n" + k2);
    assert RemoteKey(forged) == k1 + "\n" + k2;
    assert RemoteKeys([forged]) == [k1 + "\n" + k2] && RemoteKeys([r, s]) == [k1, k2];
    SortedShort(k1 + "\n" + k2, k1, k2);
    assert Join([k1, k2], "\n") == k1 + "\n" + k2 by { assert [k1, k2][1..] == [k2]; }
    assert |multiset(ShownAll([forged]))| == 1 && |multiset(ShownAll([r, s]))| == 2;
  }

  lemma SortedShort(k: string, k1: string, k2: string)
    requires Le(k1, k2)
    ensures SortStrings([k]) == [k] && SortStrings([k1, k2]) == [k1, k2]
  {
    assert [k][1..] == [] && [k2][1..] == [] && [k1, k2][1..] == [k2];
    assert Sort([k2], Le) == [k2];
  }

  // ---------------- Reading the text back ----------------

  ghost predicate Lines(keys: seq<string>, c: char) {
    forall i :: 0 <= i < |keys| ==> keys[i] != "" && keys[i][0] == c
  }

  ghost predicate NoHeads(xs: seq<string>, ys: seq<string>) {
    forall a, b :: a in xs && b in ys ==> !Heads(a, b) && !Heads(b, a)
  }

  function Terminated(keys: seq<string>): string {
    if keys == [] then "" else keys[0] + "\n" + Terminated(keys[1..])
  }

  lemma {:induction false} JoinTerminated(keys: seq<string>)
    requires keys != []
    ensures Join(keys, "\n") + "\n" == Terminated(keys)
  {
    if |keys| > 1 {
      JoinTerminated(keys[1..]);
      assert Join(keys, "\n") + "\n" == keys[0] + "\n" + (Join(keys[1..], "\n") + "\n");
    } else {
      assert Terminated(keys[1..]) == "";
    }
  }

  /** Newline-terminated keys that are framed can be read back one by one. */
  lemma {:induction false} LinesReadBack(xs: seq<string>, tail: string, ys: seq<string>, tail': string, c: char)
    requires Terminated(xs) + tail == Terminated(ys) + tail'
    requires Lines(xs, c) && Lines(ys, c) && NoHeads(xs, ys)
    requires (tail != "" ==> tail[0] != c) && (tail' != "" ==> tail'[0] != c)
    ensures xs == ys && tail == tail'
  {
    if xs == [] || ys == [] {
      assert "" + tail == tail && "" + tail' == tail';
      if xs != [] {
        FirstChar(xs, tail, c);
      } else if ys != [] {
        FirstChar(ys, tail', c);
      }
    } else {
      FirstLines(xs, tail, ys, tail');
      RestFramed(xs, ys, c);
      LinesReadBack(xs[1..], tail, ys[1..], tail', c);
      assert xs == [xs[0]] + xs[1..] && ys == [ys[0]] + ys[1..];
    }
  }

  lemma FirstLines(xs: seq<string>, tail: string, ys: seq<string>, tail': string)
    requires xs != [] && ys != [] && NoHeads(xs, ys) && Terminated(xs) + tail == Terminated(ys) + tail'
    ensures xs[0] == ys[0] && Terminated(xs[1..]) + tail == Terminated(ys[1..]) + tail'
  {
    TerminatedStep(xs, tail);
    TerminatedStep(ys, tail');
    SameFirstLine(xs[0], Terminated(xs[1..]) + tail, ys[0], Terminated(ys[1..]) + tail');
  }

  lemma TerminatedStep(xs: seq<string>, tail: string)
    requires xs != []
    ensures Terminated(xs) + tail == xs[0] + "\n" + (Terminated(xs[1..]) + tail)
  {
  }

  lemma RestFramed(xs: seq<string>, ys: seq<string>, c: char)
    requires xs != [] && ys != [] && Lines(xs, c) && Lines(ys, c) && NoHeads(xs, ys)
    ensures Lines(xs[1..], c) && Lines(ys[1..], c) && NoHeads(xs[1..], ys[1..])
  {
    assert forall k :: k in xs[1..] ==> k in xs;
    assert forall k :: k in ys[1..] ==> k in ys;
  }

  lemma FirstChar(xs: seq<string>, tail: string, c: char)
    requires xs != [] && Lines(xs, c)
    ensures Terminated(xs) + tail != "" && (Terminated(xs) + tail)[0] == c
  {
  }

  lemma SameFirstLine(a: string, x: string, b: string, y: string)
    requires a + "\n" + x == b + "\n" + y
    requires !Heads(a, b) && !Heads(b, a)
    ensures a == b && x == y
  {
    var t := a + "\n" + x;
    assert t[..|a| + 1] == a + "\n" && t[..|b| + 1] == b + "\n";
    assert forall n :: 0 <= n <= |a| ==> t[..n] <= a;
    assert forall n :: 0 <= n <= |b| ==> t[..n] <= b;
    assert |a| == |b|;
    assert t[..|a|] == a && t[..|b|] == b;
    assert t[|a| + 1..] == x && t[|b| + 1..] == y;
  }

  lemma TextGivesKeys(rs: seq<string>, ls: seq<string>, rs': seq<string>, ls': seq<string>)
    requires Join(rs, "\n") + "\n--\n" + Join(ls, "\n") == Join(rs', "\n") + "\n--\n" + Join(ls', "\n")
    requires Lines(rs, 'R') && Lines(rs', 'R') && NoHeads(rs, rs')
    requires Lines(ls, 'L') && Lines(ls', 'L') && NoHeads(ls, ls')
    ensures rs == rs' && ls == ls'
  {
    var body, body' := Join(ls, "\n"), Join(ls', "\n");
    var tail, tail' := "--\n" + body, "--\n" + body';
    Regroup(Join(rs, "\n"), body);
    Regroup(Join(rs', "\n"), body');
    SameHeader(rs, tail, rs', tail');
    assert body == tail[3..] && body' == tail'[3..];
    SameLocalKeys(ls, ls');
  }

  lemma Regroup(head: string, body: string)
    ensures head + "\n--\n" + body == head + "\n" + ("--\n" + body)
  {
  }

  lemma SameLocalKeys(ls: seq<string>, ls': seq<string>)
    requires Join(ls, "\n") == Join(ls', "\n")
    requires Lines(ls, 'L') && Lines(ls', 'L') && NoHeads(ls, ls')
    ensures ls == ls'
  {
    JoinIsEmpty(ls, 'L');
    JoinIsEmpty(ls', 'L');
    if ls != [] {
      JoinTerminated(ls);
      JoinTerminated(ls');
      assert Terminated(ls) + "" == Terminated(ls') + "";
      LinesReadBack(ls, "", ls', "", 'L');
    }
  }

  lemma JoinIsEmpty(keys: seq<string>, c: char)
    requires Lines(keys, c)
    ensures Join(keys, "\n") == "" <==> keys == []
    ensures keys != [] ==> Join(keys, "\n")[0] == c
  {
  }

  lemma SameHeader(rs: seq<string>, tail: string, rs': seq<string>, tail': string)
    requires Join(rs, "\n") + "\n" + tail == Join(rs', "\n") + "\n" + tail'
    requires Lines(rs, 'R') && Lines(rs', 'R') && NoHeads(rs, rs')
    requires tail != "" && tail[0] == '-' && tail' != "" && tail'[0] == '-'
    ensures rs == rs' && tail == tail'
  {
    JoinIsEmpty(rs, 'R');
    JoinIsEmpty(rs', 'R');
    var t := Join(rs, "\n") + "\n" + tail;
    var t' := Join(rs', "\n") + "\n" + tail';
    assert t[0] == (if rs == [] then '\n' else 'R') && t'[0] == (if rs' == [] then '\n' else 'R');
    if rs != [] {
      JoinTerminated(rs);
      JoinTerminated(rs');
      LinesReadBack(rs, tail, rs', tail', 'R');
    } else {
      assert t == "\n" + tail && t' == "\n" + tail';
      assert t[1..] == tail && t'[1..] == tail';
    }
  }

  // ---------------- Framing of keys ----------------

  lemma KeyParts(r: Remote, x: string, s: Remote)
    requires '|' !in r.protocol && '|' !in s.protocol
    requires RemoteKey(r) + x == RemoteKey(s)
    ensures r.publicPort == s.publicPort && r.protocol == s.protocol && r.localAddr + x == s.localAddr
  {
    var p, p' := Itoa(r.publicPort), Itoa(s.publicPort);
    var rest, rest' := r.protocol + ['|'] + (r.localAddr + x), s.protocol + ['|'] + s.localAddr;
    var k := RemoteKey(s);
    assert k[2..] == p + ['|'] + rest;
    assert k[2..] == p' + ['|'] + rest';
    ItoaChars(r.publicPort);
    ItoaChars(s.publicPort);
    CutOnce(p, rest, p', rest', '|');
    ItoaInjective(r.publicPort, s.publicPort);
    CutOnce(r.protocol, r.localAddr + x, s.protocol, s.localAddr, '|');
  }

  lemma LocalKeyParts(l: Local, x: string, m: Local)
    requires LocalKey(l) + x == LocalKey(m)
    ensures l.localPort == m.localPort && l.remotePublicPort == m.remotePublicPort && l.protocol + x == m.protocol
  {
    var p, p' := Itoa(l.localPort), Itoa(m.localPort);
    var q, q' := Itoa(l.remotePublicPort), Itoa(m.remotePublicPort);
    var rest, rest' := q + ['|'] + (l.protocol + x), q' + ['|'] + m.protocol;
    var k := LocalKey(m);
    assert k[2..] == p + ['|'] + rest;
    assert k[2..] == p' + ['|'] + rest';
    ItoaChars(l.localPort);
    ItoaChars(m.localPort);
    ItoaChars(l.remotePublicPort);
    ItoaChars(m.remotePublicPort);
    CutOnce(p, rest, p', rest', '|');
    CutOnce(q, l.protocol + x, q', m.protocol, '|');
    ItoaInjective(l.localPort, m.localPort);
    ItoaInjective(l.remotePublicPort, m.remotePublicPort);
  }

  lemma KeyIsNoHead(r: Remote, s: Remote, addrs: set<string>)
    requires '|' !in r.protocol && '|' !in s.protocol
    requires Framed(addrs) && r.localAddr in addrs && s.localAddr in addrs
    ensures !Heads(RemoteKey(r), RemoteKey(s))
  {
    if Heads(RemoteKey(r), RemoteKey(s)) {
      var x := "\n" + RemoteKey(s)[|RemoteKey(r)| + 1..];
      assert RemoteKey(s) == RemoteKey(r) + x;
      KeyParts(r, x, s);
    }
  }

  lemma LocalKeyIsNoHead(l: Local, m: Local)
    requires '\n' !in m.protocol
    ensures !Heads(LocalKey(l), LocalKey(m))
  {
    if Heads(LocalKey(l), LocalKey(m)) {
      var x := "\n" + LocalKey(m)[|LocalKey(l)| + 1..];
      assert LocalKey(m) == LocalKey(l) + x;
      assert '\n' in l.protocol + x by { assert (l.protocol + x)[|l.protocol|] == '\n'; }
      LocalKeyParts(l, x, m);
    }
  }

  lemma PairFramed(a: string, b: string, r: Remote, s: Remote, addrs: set<string>)
    requires a == RemoteKey(r) && b == RemoteKey(s) && '|' !in r.protocol && '|' !in s.protocol
    requires Framed(addrs) && r.localAddr in addrs && s.localAddr in addrs
    ensures !Heads(a, b) && !Heads(b, a)
  {
    KeyIsNoHead(r, s, addrs);
    KeyIsNoHead(s, r, addrs);
  }

  lemma RuleOfKey(rs: seq<Remote>, key: string) returns (r: Remote)
    requires key in RemoteKeys(rs)
    ensures r in rs && key == RemoteKey(r)
  {
    var i :| 0 <= i < |rs| && RemoteKeys(rs)[i] == key;
    r := rs[i];
  }

  lemma KeyPairFramed(r1: seq<Remote>, r2: seq<Remote>, a: string, b: string)
    requires Printable(r1, []) && Printable(r2, []) && Framed(Addrs(r1) + Addrs(r2))
    requires a in RemoteKeys(r1) && b in RemoteKeys(r2)
    ensures !Heads(a, b) && !Heads(b, a)
  {
    var addrs := Addrs(r1) + Addrs(r2);
    var r := RuleOfKey(r1, a);
    var s := RuleOfKey(r2, b);
    assert r.localAddr in addrs && s.localAddr in addrs;
    PairFramed(a, b, r, s, addrs);
  }

  lemma KeysFramed(r1: seq<Remote>, r2: seq<Remote>)
    requires Printable(r1, []) && Printable(r2, []) && Framed(Addrs(r1) + Addrs(r2))
    ensures NoHeads(RemoteKeys(r1), RemoteKeys(r2))
  {
    forall a, b | a in RemoteKeys(r1) && b in RemoteKeys(r2) ensures !Heads(a, b) && !Heads(b, a) {
      KeyPairFramed(r1, r2, a, b);
    }
  }

  lemma LocalPairFramed(a: string, b: string, l: Local, m: Local)
    requires a == LocalKey(l) && b == LocalKey(m) && '\n' !in l.protocol && '\n' !in m.protocol
    ensures !Heads(a, b) && !Heads(b, a)
  {
    LocalKeyIsNoHead(l, m);
    LocalKeyIsNoHead(m, l);
  }

  lemma RuleOfLocalKey(ls: seq<Local>, key: string) returns (l: Local)
    requires key in LocalKeys(ls)
    ensures l in ls && key == LocalKey(l)
  {
    var i :| 0 <= i < |ls| && LocalKeys(ls)[i] == key;
    l := ls[i];
  }

  lemma LocalKeyPairFramed(l1: seq<Local>, l2: seq<Local>, a: string, b: string)
    requires Printable([], l1) && Printable([], l2) && a in LocalKeys(l1) && b in LocalKeys(l2)
    ensures !Heads(a, b) && !Heads(b, a)
  {
    var l := RuleOfLocalKey(l1, a);
    var m := RuleOfLocalKey(l2, b);
    LocalPairFramed(a, b, l, m);
  }

  lemma LocalKeysFramed(l1: seq<Local>, l2: seq<Local>)
    requires Printable([], l1) && Printable([], l2)
    ensures NoHeads(LocalKeys(l1), LocalKeys(l2))
  {
    forall a, b | a in LocalKeys(l1) && b in LocalKeys(l2) ensures !Heads(a, b) && !Heads(b, a) {
      LocalKeyPairFramed(l1, l2, a, b);
    }
  }

  /** Sorting keeps which keys there are, so it keeps their framing and first letters. */
  lemma SortedFraming(xs: seq<string>, ys: seq<string>, c: char)
    requires NoHeads(xs, ys) && Lines(xs, c) && Lines(ys, c)
    ensures NoHeads(SortStrings(xs), SortStrings(ys)) && Lines(SortStrings(xs), c) && Lines(SortStrings(ys), c)
  {
    SortedKeys(xs);
    SortedKeys(ys);
    forall i | 0 <= i < |SortStrings(xs)| ensures SortStrings(xs)[i] != "" && SortStrings(xs)[i][0] == c {
      assert SortStrings(xs)[i] in xs;
    }
    forall i | 0 <= i < |SortStrings(ys)| ensures SortStrings(ys)[i] != "" && SortStrings(ys)[i][0] == c {
      assert SortStrings(ys)[i] in ys;
    }
  }

  // ---------------- Bags of keys and bags of rules ----------------

  lemma SortedKeys(keys: seq<string>)
    ensures Ordered(SortStrings(keys), Le) && multiset(SortStrings(keys)) == multiset(keys)
    ensures forall k :: k in SortStrings(keys) <==> k in keys
  {
    StringsTotal();
    SortOrders(keys, Le);
    SortPermutes(keys, Le);
    forall k ensures k in SortStrings(keys) <==> k in keys {
      assert k in SortStrings(keys) <==> k in multiset(SortStrings(keys));
      assert k in keys <==> k in multiset(keys);
    }
  }

  lemma StringsTotal()
    ensures TotalPreorder(Le)
    ensures forall a, b :: Le(a, b) && Le(b, a) ==> a == b
  {
    forall a, b ensures (Le(a, b) || Le(b, a)) && (Le(a, b) && Le(b, a) ==> a == b) {
      LtTotal(a, b);
    }
    forall a, b, c | Le(a, b) && Le(b, c) ensures Le(a, c) {
      LeTransitive(a, b, c);
    }
  }

  lemma SameBagSameSorting(xs: seq<string>, ys: seq<string>)
    requires multiset(xs) == multiset(ys)
    ensures SortStrings(xs) == SortStrings(ys)
  {
    SortedKeys(xs);
    SortedKeys(ys);
    StringsTotal();
    OrderedUnique(SortStrings(xs), SortStrings(ys), Le);
  }

  lemma SameSortingSameBag(xs: seq<string>, ys: seq<string>)
    requires SortStrings(xs) == SortStrings(ys)
    ensures multiset(xs) == multiset(ys)
  {
    SortedKeys(xs);
    SortedKeys(ys);
  }

  function Mapped<A>(xs: seq<A>, f: A -> string): seq<string> {
    seq(|xs|, i requires 0 <= i < |xs| => f(xs[i]))
  }

  lemma {:induction false} SameBagSameKeys<A(!new)>(xs: seq<A>, ys: seq<A>, f: A -> string)
    requires multiset(xs) == multiset(ys)
    ensures multiset(Mapped(xs, f)) == multiset(Mapped(ys, f))
    decreases |xs|
  {
    assert |xs| == |multiset(xs)| == |multiset(ys)| == |ys|;
    if xs != [] {
      var j := Position(ys, xs[0]);
      BagWithout(xs, 0);
      BagWithout(ys, j);
      Cancel(multiset(Without(xs, 0)), multiset(Without(ys, j)), xs[0]);
      SameBagSameKeys(Without(xs, 0), Without(ys, j), f);
      BagWithMapped(xs, 0, f);
      BagWithMapped(ys, j, f);
    }
  }

  /** The converse, for keys that tell the rules apart. */
  lemma {:induction false} SameKeysSameBag<A(!new)>(xs: seq<A>, ys: seq<A>, f: A -> string)
    requires multiset(Mapped(xs, f)) == multiset(Mapped(ys, f))
    requires forall x, y :: x in xs && y in ys && f(x) == f(y) ==> x == y
    ensures multiset(xs) == multiset(ys)
    decreases |xs|
  {
    assert |xs| == |multiset(Mapped(xs, f))| == |multiset(Mapped(ys, f))| == |ys|;
    if xs != [] {
      assert Mapped(xs, f)[0] in multiset(Mapped(xs, f));
      var j := Position(Mapped(ys, f), f(xs[0]));
      BagWithMapped(xs, 0, f);
      BagWithMapped(ys, j, f);
      Cancel(multiset(Mapped(Without(xs, 0), f)), multiset(Mapped(Without(ys, j), f)), f(xs[0]));
      SameKeysSameBag(Without(xs, 0), Without(ys, j), f);
      BagWithout(xs, 0);
      BagWithout(ys, j);
      assert xs[0] in xs && ys[j] in ys;
    }
  }

  lemma Position<A>(xs: seq<A>, x: A) returns (j: nat)
    requires x in multiset(xs)
    ensures j < |xs| && xs[j] == x
  {
    j :| 0 <= j < |xs| && xs[j] == x;
  }

  lemma Cancel<A(!new)>(m: multiset<A>, n: multiset<A>, x: A)
    requires m + multiset{x} == n + multiset{x}
    ensures m == n
  {
    forall y ensures m[y] == n[y] {
      assert (m + multiset{x})[y] == (n + multiset{x})[y];
    }
  }

  ghost function Without<A>(xs: seq<A>, j: nat): (ys: seq<A>)
    requires j < |xs|
    ensures |ys| == |xs| - 1 && forall y :: y in ys ==> y in xs
  {
    xs[..j] + xs[j + 1..]
  }

  lemma BagWithout<A>(xs: seq<A>, j: nat)
    requires j < |xs|
    ensures multiset(xs) == multiset(Without(xs, j)) + multiset{xs[j]}
  {
    assert xs == xs[..j] + [xs[j]] + xs[j + 1..];
  }

  lemma BagWithMapped<A>(xs: seq<A>, j: nat, f: A -> string)
    requires j < |xs|
    ensures multiset(Mapped(xs, f)) == multiset(Mapped(Without(xs, j), f)) + multiset{f(xs[j])}
  {
    BagWithout(Mapped(xs, f), j);
    assert Mapped(Without(xs, j), f) == Without(Mapped(xs, f), j);
  }

  lemma RemoteKeysGiveRules(r1: seq<Remote>, r2: seq<Remote>)
    requires Printable(r1, []) && Printable(r2, [])
    requires multiset(RemoteKeys(r1)) == multiset(RemoteKeys(r2))
    ensures multiset(ShownAll(r1)) == multiset(ShownAll(r2))
  {
    var s1, s2 := ShownAll(r1), ShownAll(r2);
    assert RemoteKeys(r1) == Mapped(s1, RemoteKey) && RemoteKeys(r2) == Mapped(s2, RemoteKey);
    forall x, y | x in s1 && y in s2 && RemoteKey(x) == RemoteKey(y) ensures x == y {
      var i :| 0 <= i < |r1| && Shown(r1[i]) == x;
      var j :| 0 <= j < |r2| && Shown(r2[j]) == y;
      assert r1[i] in r1 && r2[j] in r2;
      assert RemoteKey(x) + "" == RemoteKey(y) && x.localAddr + "" == x.localAddr;
      KeyParts(x, "", y);
    }
    SameKeysSameBag(s1, s2, RemoteKey);
  }

  lemma LocalKeysGiveRules(l1: seq<Local>, l2: seq<Local>)
    requires multiset(LocalKeys(l1)) == multiset(LocalKeys(l2))
    ensures multiset(l1) == multiset(l2)
  {
    assert LocalKeys(l1) == Mapped(l1, LocalKey) && LocalKeys(l2) == Mapped(l2, LocalKey);
    forall x, y | x in l1 && y in l2 && LocalKey(x) == LocalKey(y) ensures x == y {
      assert LocalKey(x) + "" == LocalKey(y) && x.protocol + "" == x.protocol;
      LocalKeyParts(x, "", y);
    }
    SameKeysSameBag(l1, l2, LocalKey);
  }
}
