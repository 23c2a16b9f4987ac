/** What holds of every run of the control plane, from an empty store on. */
module Guarantees {
  import opened Wrappers
  import opened Timestamps
  import opened LocalAddr
  import opened Schema
  import opened Bootstrap
  import opened ControlPlane
  import opened ChiselSpec
  import ReloadKey

  ghost predicate Reachable(s: State) {
    exists pool, steps :: ValidPool(pool) && s == Run(Start(pool), steps)
  }

  lemma ReachableIsOk(s: State)
    requires Reachable(s)
    ensures Inv(s)
  {
    var pool, steps :| ValidPool(pool) && s == Run(Start(pool), steps);
    StartIsOk(pool);
    RunKeepsInv(Start(pool), steps);
  }

  lemma {:induction false} RunAppend(s: State, first: seq<Step>, more: seq<Step>)
    ensures Run(Run(s, first), more) == Run(s, first + more)
  {
    if more == [] {
      assert first + more == first;
    } else {
      var n := |more| - 1;
      assert (first + more)[..|first| + n] == first + more[..n];
      RunAppend(s, first, more[..n]);
    }
  }

  lemma RunStaysReachable(s: State, steps: seq<Step>)
    requires Reachable(s)
    ensures Reachable(Run(s, steps))
  {
    var pool, first :| ValidPool(pool) && s == Run(Start(pool), first);
    RunAppend(Start(pool), first, steps);
  }

  // ---------------- What the server sends ----------------

  /** Services read in one reachable state, forwards in a later one. */
  ghost predicate SentBetween(b: Bootstrap, deviceId: Id, s: State, steps: seq<Step>) {
    Reachable(s) && Remotes(b, s.db, deviceId) && Locals(b, Run(s, steps).db, deviceId)
  }

  /** A bootstrap the server can send this device, whatever other handlers do between its two queries. */
  ghost predicate Sendable(b: Bootstrap, deviceId: Id) {
    exists s: State, steps: seq<Step> :: SentBetween(b, deviceId, s, steps)
  }

  /** Where a handler that has read its services read them. */
  lemma {:induction false} ServicesWereRead(s: State, steps: seq<Step>, n: nat, rid: nat) returns (i: nat)
    requires n <= |steps| && rid !in s.flight
    requires rid in At(s, steps, n).flight && At(s, steps, n).flight[rid].Bootstrapping?
    ensures i < n
    ensures var h := At(s, steps, n).flight[rid];
      steps[i] == ReadServices(rid, h.deviceId) && h.remotes == RemoteSet(At(s, steps, i).db, h.deviceId)
  {
    assert n > 0 by { assert steps[..0] == []; }
    AtNext(s, steps, n - 1);
    var before := At(s, steps, n - 1);
    if rid in before.flight && before.flight[rid] == At(s, steps, n).flight[rid] {
      i := ServicesWereRead(s, steps, n - 1, rid);
    } else {
      i := n - 1;
    }
  }

  /** Everything that any run sends is sendable in that sense. */
  lemma SentIsSendable(pool: Pool, steps: seq<Step>, n: nat, d: Id, b: Bootstrap)
    requires ValidPool(pool) && n < |steps| && Sends(At(Start(pool), steps, n), steps[n], d, b)
    ensures Sendable(b, d)
  {
    var i := ServicesWereRead(Start(pool), steps, n, steps[n].rid);
    var s := At(Start(pool), steps, i);
    assert Reachable(s);
    assert steps[..i] + steps[i..n] == steps[..n];
    RunAppend(Start(pool), steps[..i], steps[i..n]);
    assert SentBetween(b, d, s, steps[i..n]);
  }

  // ---------------- Tunnels across devices ----------------

  /** In every reachable store each local entry of a bootstrap has exactly one remote entry to end at,
  among the bootstraps of all devices. */
  lemma MeshRoutesClose(s: State, deviceId: Id, l: LocalEntry)
    requires Reachable(s) && l in LocalSet(s.db, deviceId)
    ensures exists far, r :: far in s.db.devices && r in RemoteSet(s.db, far) && Meets(l, r)
    ensures forall d, e, r, r' ::
      r in RemoteSet(s.db, d) && r' in RemoteSet(s.db, e) && Meets(l, r) && Meets(l, r') ==> d == e && r == r'
  {
    ReachableIsOk(s);
    var far, r := MeshCloses(s.db, deviceId, l);
  }

  /** So each local entry of a bootstrap that is sent ends at exactly one remote entry of the moment its
  forwards were read, even when services changed since the handler read its own. */
  lemma SentTunnelsClose(pool: Pool, steps: seq<Step>, n: nat, d: Id, b: Bootstrap, l: LocalEntry)
    requires ValidPool(pool) && n < |steps| && Sends(At(Start(pool), steps, n), steps[n], d, b) && l in b.locals
    ensures var db := At(Start(pool), steps, n).db;
      && (exists far, r :: far in db.devices && r in RemoteSet(db, far) && Meets(l, r))
      && forall e, e', r, r' ::
        r in RemoteSet(db, e) && r' in RemoteSet(db, e') && Meets(l, r) && Meets(l, r') ==> e == e' && r == r'
  {
    var s := At(Start(pool), steps, n);
    assert Reachable(s);
    MeshRoutesClose(s, d, l);
  }

  /** Every bootstrap the server can send becomes rules that all pass validation, with distinct public
  ports, distinct local ports, and specs that are distinct texts. */
  lemma BootstrapsRun(deviceId: Id, b: Bootstrap)
    requires Sendable(b, deviceId)
    ensures forall r :: r in RemoteRules(b) ==> Sound(Reverse(r))
    ensures forall l :: l in LocalRules(b) ==> Sound(Direct(l))
    ensures forall i, j :: 0 <= i < j < |b.remotes| ==> RemoteRules(b)[i].publicPort != RemoteRules(b)[j].publicPort
    ensures forall i, j :: 0 <= i < j < |b.locals| ==> LocalRules(b)[i].localPort != LocalRules(b)[j].localPort
    ensures forall i, j :: 0 <= i < j < |b.remotes| ==> RemoteSpec(RemoteRules(b)[i]) != RemoteSpec(RemoteRules(b)[j])
    ensures forall i, j :: 0 <= i < j < |b.locals| ==> LocalSpec(LocalRules(b)[i]) != LocalSpec(LocalRules(b)[j])
    ensures forall i, j :: 0 <= i < |b.remotes| && 0 <= j < |b.locals| ==>
      RemoteSpec(RemoteRules(b)[i]) != LocalSpec(LocalRules(b)[j])
  {
    var s: State, steps: seq<Step> :| SentBetween(b, deviceId, s, steps);
    RunStaysReachable(s, steps);
    ReachableIsOk(s);
    ReachableIsOk(Run(s, steps));
    RemotesRun(s.db, deviceId, b);
    LocalsRun(Run(s, steps).db, deviceId, b);
    SpecsApart(b);
  }

  lemma SpecsApart(b: Bootstrap)
    ensures forall i, j :: 0 <= i < |b.remotes| && 0 <= j < |b.locals| ==>
      RemoteSpec(RemoteRules(b)[i]) != LocalSpec(LocalRules(b)[j])
  {
    forall i, j | 0 <= i < |b.remotes| && 0 <= j < |b.locals|
      ensures RemoteSpec(RemoteRules(b)[i]) != LocalSpec(LocalRules(b)[j])
    {
      assert RemoteSpec(RemoteRules(b)[i])[0] == 'R' && LocalSpec(LocalRules(b)[j])[0] == '1';
    }
  }

  lemma RemotesRun(db: Db, deviceId: Id, b: Bootstrap)
    requires Integrity(db) && ValuesOk(db) && Remotes(b, db, deviceId)
    ensures forall i :: 0 <= i < |b.remotes| ==> Sound(Reverse(RemoteRules(b)[i]))
    ensures forall i, j :: 0 <= i < j < |b.remotes| ==> RemoteRules(b)[i].publicPort != RemoteRules(b)[j].publicPort
    ensures forall i, j :: 0 <= i < j < |b.remotes| ==> RemoteSpec(RemoteRules(b)[i]) != RemoteSpec(RemoteRules(b)[j])
  {
    RemoteEntriesSound(db, deviceId);
    forall i | 0 <= i < |b.remotes| ensures Sound(Reverse(RemoteRules(b)[i])) {
      assert b.remotes[i] in b.remotes;
    }
    forall i, j | 0 <= i < j < |b.remotes|
      ensures RemoteRules(b)[i].publicPort != RemoteRules(b)[j].publicPort
      ensures RemoteSpec(RemoteRules(b)[i]) != RemoteSpec(RemoteRules(b)[j])
    {
      assert b.remotes[i] in b.remotes && b.remotes[j] in b.remotes;
      SpecsLoseNothing(Reverse(RemoteRules(b)[i]), Reverse(RemoteRules(b)[j]));
    }
  }

  lemma LocalsRun(db: Db, deviceId: Id, b: Bootstrap)
    requires Integrity(db) && ValuesOk(db) && Locals(b, db, deviceId)
    ensures forall i :: 0 <= i < |b.locals| ==> Sound(Direct(LocalRules(b)[i]))
    ensures forall i, j :: 0 <= i < j < |b.locals| ==> LocalRules(b)[i].localPort != LocalRules(b)[j].localPort
    ensures forall i, j :: 0 <= i < j < |b.locals| ==> LocalSpec(LocalRules(b)[i]) != LocalSpec(LocalRules(b)[j])
  {
    LocalEntriesSound(db, deviceId);
    LocalEntriesApart(db, deviceId);
    forall i | 0 <= i < |b.locals| ensures Sound(Direct(LocalRules(b)[i])) {
      assert b.locals[i] in b.locals;
    }
    forall i, j | 0 <= i < j < |b.locals|
      ensures LocalRules(b)[i].localPort != LocalRules(b)[j].localPort
      ensures LocalSpec(LocalRules(b)[i]) != LocalSpec(LocalRules(b)[j])
    {
      assert b.locals[i] in b.locals && b.locals[j] in b.locals;
      SpecsLoseNothing(Direct(LocalRules(b)[i]), Direct(LocalRules(b)[j]));
    }
  }

  /** The daemon's reload text is faithful on everything the server can send: two bootstraps have the same
  text exactly when they hold the same rules. */
  lemma ReloadTextIsFaithful(b: Bootstrap, c: Bootstrap, deviceId: Id)
    requires Sendable(b, deviceId) && Sendable(c, deviceId)
    ensures ReloadKey.CanonicalText(RemoteRules(b), LocalRules(b))
            == ReloadKey.CanonicalText(RemoteRules(c), LocalRules(c))
      <==> ReloadKey.SameRules(RemoteRules(b), LocalRules(b), RemoteRules(c), LocalRules(c))
  {
    RulesPrintable(b, deviceId);
    RulesPrintable(c, deviceId);
    NormalAddrsFramed(ReloadKey.Addrs(RemoteRules(b)) + ReloadKey.Addrs(RemoteRules(c)));
    ReloadKey.TextIsFaithful(RemoteRules(b), LocalRules(b), RemoteRules(c), LocalRules(c));
  }

  lemma RulesPrintable(b: Bootstrap, deviceId: Id)
    requires Sendable(b, deviceId)
    ensures ReloadKey.Printable(RemoteRules(b), LocalRules(b))
    ensures forall a :: a in ReloadKey.Addrs(RemoteRules(b)) ==> IsNormal(a)
  {
    var s: State, steps: seq<Step> :| SentBetween(b, deviceId, s, steps);
    RunStaysReachable(s, steps);
    ReachableIsOk(s);
    ReachableIsOk(Run(s, steps));
    RemotesPrintable(s.db, b, deviceId);
    LocalsPrintable(Run(s, steps).db, b, deviceId);
  }

  lemma PlainProtocol(protocol: string)
    requires protocol in {"tcp", "udp"}
    ensures '|' !in protocol && '\n' !in protocol
  {
  }

  lemma RemotesPrintable(db: Db, b: Bootstrap, deviceId: Id)
    requires Integrity(db) && ValuesOk(db) && Remotes(b, db, deviceId)
    ensures forall r :: r in RemoteRules(b) ==> '|' !in r.protocol && IsNormal(r.localAddr)
  {
    RemoteEntriesSound(db, deviceId);
    forall r | r in RemoteRules(b) ensures '|' !in r.protocol && IsNormal(r.localAddr) {
      var i :| 0 <= i < |b.remotes| && RemoteRules(b)[i] == r;
      assert b.remotes[i] in b.remotes;
      PlainProtocol(r.protocol);
    }
  }

  lemma LocalsPrintable(db: Db, b: Bootstrap, deviceId: Id)
    requires Integrity(db) && ValuesOk(db) && Locals(b, db, deviceId)
    ensures forall l :: l in LocalRules(b) ==> '\n' !in l.protocol
  {
    LocalEntriesSound(db, deviceId);
    forall l | l in LocalRules(b) ensures '\n' !in l.protocol {
      var i :| 0 <= i < |b.locals| && LocalRules(b)[i] == l;
      assert b.locals[i] in b.locals;
      PlainProtocol(l.protocol);
    }
  }

  // ---------------- Tokens ----------------

  ghost predicate Spent(db: Db, hash: Digest) {
    exists k :: k in db.tokens && db.tokens[k].hash == hash && db.tokens[k].usedAt.Some?
  }

  /** At step `i` a handler turns the token into a device. */
  ghost predicate Enrolls(s: State, step: Step, hash: Digest) {
    && step.Consume? && step.rid in s.flight && s.flight[step.rid].Enrolling? && s.flight[step.rid].hash == hash
    && Execute(s.db, Issued(s, step).value).outcome == Done
  }

  lemma ExecuteKeepsSpent(db: Db, st: Statement, hash: Digest)
    requires Spent(db, hash)
    ensures Spent(Execute(db, st).db, hash)
  {
    TokenRowsAfter(db, st);
  }

  lemma {:induction false} SpentForever(s: State, steps: seq<Step>, i: nat, j: nat, hash: Digest)
    requires i <= j <= |steps| && Spent(At(s, steps, i).db, hash)
    ensures Spent(At(s, steps, j).db, hash)
  {
    if i < j {
      SpentForever(s, steps, i, j - 1, hash);
      AtNext(s, steps, j - 1);
      var before := At(s, steps, j - 1);
      NextDb(before, steps[j - 1]);
      if Issued(before, steps[j - 1]).Some? {
        ExecuteKeepsSpent(before.db, Issued(before, steps[j - 1]).value, hash);
      }
    }
  }

  lemma EnrollSpends(s: State, step: Step, hash: Digest)
    requires Enrolls(s, step, hash)
    ensures !Spent(s.db, hash) && Spent(Next(s, step).db, hash)
    ensures step.id !in s.db.devices && step.id in Next(s, step).db.devices
  {
    var after := Next(s, step).db;
    var k :| k in s.db.tokens && s.db.tokens[k].hash == hash;
    assert k in after.tokens && after.tokens[k].usedAt.Some?;
  }

  /** A token yields at most one device in any interleaving, whatever is deleted in between. */
  lemma TokensAreSingleUse(s: State, steps: seq<Step>, i: nat, j: nat, hash: Digest)
    requires i < j < |steps| && Enrolls(At(s, steps, i), steps[i], hash)
    ensures !Enrolls(At(s, steps, j), steps[j], hash)
  {
    EnrollSpends(At(s, steps, i), steps[i], hash);
    AtNext(s, steps, i);
    SpentForever(s, steps, i + 1, j, hash);
    if Enrolls(At(s, steps, j), steps[j], hash) {
      EnrollSpends(At(s, steps, j), steps[j], hash);
    }
  }

  /** An enrolling handler was let in by an earlier check, at its recorded time, on a token that was
  unused and had not expired then, and has been in flight since. */
  lemma {:induction false} CheckedBeforeExpiry(s: State, steps: seq<Step>, j: nat, rid: nat) returns (i: nat)
    requires j <= |steps| && rid !in s.flight
    requires rid in At(s, steps, j).flight && At(s, steps, j).flight[rid].Enrolling?
    ensures i < j && steps[i].CheckToken? && steps[i].rid == rid
    ensures var h := At(s, steps, j).flight[rid];
      && h.hash == Digest(steps[i].rawToken) && h.name == steps[i].name
      && TokenPasses(At(s, steps, i).db, h.hash, steps[i].now)
    ensures forall m :: i < m <= j ==> rid in At(s, steps, m).flight
  {
    assert j > 0 by { assert steps[..0] == []; }
    AtNext(s, steps, j - 1);
    var before, step := At(s, steps, j - 1), steps[j - 1];
    if rid in before.flight && before.flight[rid] == At(s, steps, j).flight[rid] {
      i := CheckedBeforeExpiry(s, steps, j - 1, rid);
    } else {
      i := j - 1;
    }
  }

  lemma {:induction false} TokenStays(s: State, steps: seq<Step>, i: nat, j: nat, k: Id)
    requires i <= j <= |steps| && k in At(s, steps, i).db.tokens
    ensures k in At(s, steps, j).db.tokens && At(s, steps, j).db.tokens[k].hash == At(s, steps, i).db.tokens[k].hash
  {
    if i < j {
      TokenStays(s, steps, i, j - 1, k);
      AtNext(s, steps, j - 1);
      var before := At(s, steps, j - 1);
      NextDb(before, steps[j - 1]);
      if Issued(before, steps[j - 1]).Some? {
        TokenRowsAfter(before.db, Issued(before, steps[j - 1]).value);
      }
    }
  }

  lemma OnlyEnrollsSpend(s: State, step: Step, hash: Digest)
    requires !Spent(s.db, hash) && Spent(Next(s, step).db, hash)
    ensures Enrolls(s, step, hash)
  {
    NextDb(s, step);
    var st := Issued(s, step);
    if st.Some? {
      OnlyConsumesSpend(s.db, st.value, hash);
      IssuedConsume(s, step);
    }
  }

  lemma IssuedConsume(s: State, step: Step)
    ensures var st := Issued(s, step);
      st.Some? && st.value.ConsumeToken? ==>
        && step.Consume? && step.rid in s.flight
        && s.flight[step.rid].Enrolling? && s.flight[step.rid].hash == st.value.hash
  {
  }

  lemma OnlyConsumesSpend(db: Db, st: Statement, hash: Digest)
    requires !Spent(db, hash) && Spent(Execute(db, st).db, hash)
    ensures st.ConsumeToken? && st.hash == hash && Execute(db, st).outcome == Done
  {
    UsedTokensAfter(db, st);
    var after := Execute(db, st).db.tokens;
    var k :| k in after && after[k].hash == hash && after[k].usedAt.Some?;
    assert UsedToken(db, st, k, after[k]);
  }

  lemma EnrolledBetween(s: State, steps: seq<Step>, m: nat, hash: Digest)
    requires m < |steps| && !Spent(At(s, steps, m).db, hash) && Spent(At(s, steps, m + 1).db, hash)
    ensures Enrolls(At(s, steps, m), steps[m], hash)
  {
    AtNext(s, steps, m);
    OnlyEnrollsSpend(At(s, steps, m), steps[m], hash);
  }

  lemma {:induction false} SomeStepEnrolled(s: State, steps: seq<Step>, i: nat, n: nat, hash: Digest) returns (j: nat)
    requires i <= n <= |steps| && !Spent(At(s, steps, i).db, hash) && Spent(At(s, steps, n).db, hash)
    ensures i <= j < n && Enrolls(At(s, steps, j), steps[j], hash)
  {
    assert i < n;
    if Spent(At(s, steps, n - 1).db, hash) {
      j := SomeStepEnrolled(s, steps, i, n - 1, hash);
    } else {
      j := n - 1;
      EnrolledBetween(s, steps, j, hash);
    }
  }

  /** A consume finds its token gone only if another handler's consume took it after this one's check. */
  lemma TokenLostToAnother(pool: Pool, steps: seq<Step>, n: nat) returns (i: nat, j: nat)
    requires ValidPool(pool) && n < |steps| && steps[n].Consume?
    requires var f := At(Start(pool), steps, n).flight; steps[n].rid in f && f[steps[n].rid].Enrolling?
    requires var s := At(Start(pool), steps, n); Execute(s.db, Issued(s, steps[n]).value).outcome == NotFound
    ensures i < j < n && steps[i].CheckToken? && steps[i].rid == steps[n].rid
    ensures Enrolls(At(Start(pool), steps, j), steps[j], At(Start(pool), steps, n).flight[steps[n].rid].hash)
    ensures steps[j].rid != steps[n].rid
  {
    var rid := steps[n].rid;
    var s := At(Start(pool), steps, n);
    var hash := s.flight[rid].hash;
    i := CheckedBeforeExpiry(Start(pool), steps, n, rid);
    var checked := At(Start(pool), steps, i);
    assert Reachable(checked);
    ReachableIsOk(checked);
    var k :| k in checked.db.tokens && checked.db.tokens[k].hash == hash && checked.db.tokens[k].usedAt.None?;
    assert !Spent(checked.db, hash);
    TokenStays(Start(pool), steps, i, n, k);
    NotFoundMeansSpent(s.db, k, Issued(s, steps[n]).value);
    j := SomeStepEnrolled(Start(pool), steps, i, n, hash);
    AtNext(Start(pool), steps, j);
    assert j == i || rid in At(Start(pool), steps, j + 1).flight;
  }

  lemma NotFoundMeansSpent(db: Db, k: Id, st: Statement)
    requires st.ConsumeToken? && k in db.tokens && db.tokens[k].hash == st.hash && Execute(db, st).outcome == NotFound
    ensures Spent(db, st.hash)
  {
    var spent := map j | j in db.tokens && db.tokens[j].hash == st.hash ::
      db.tokens[j].(usedAt := Some(st.now), usedBy := Some(st.device.id));
    assert k in spent;
  }

  /** A consume that fails, on a duplicate name or a spent token, leaves the store unchanged. */
  lemma FailedConsumeChangesNothing(s: State, step: Step)
    requires step.Consume? && step.rid in s.flight && s.flight[step.rid].Enrolling?
    requires !Enrolls(s, step, s.flight[step.rid].hash)
    ensures Next(s, step).db == s.db
  {
    FailureChangesNothing(s.db, Issued(s, step).value);
  }

  // ---------------- The port pool ----------------

  ghost predicate FixedPool(steps: seq<Step>) {
    forall i :: 0 <= i < |steps| ==> !steps[i].Restart?
  }

  ghost predicate HeldWithin(flight: map<nat, Handler>, p: Pool) {
    forall rid :: rid in flight && flight[rid].HoldingPort? ==> p.min <= flight[rid].port <= p.max
  }

  ghost predicate StoredWithin(t: Services, p: Pool) {
    forall k :: k in t ==> p.min <= t[k].publicPort <= p.max
  }

  lemma ExecuteKeepsWithin(db: Db, st: Statement, p: Pool)
    requires StoredWithin(db.services, p)
    requires st.InsertService? ==> p.min <= st.service.publicPort <= p.max
    ensures StoredWithin(Execute(db, st).db.services, p)
  {
    ServiceRowsAfter(db, st);
    var after := Execute(db, st).db.services;
    forall k | k in after ensures p.min <= after[k].publicPort <= p.max {
      assert ServiceRow(db, st, k, after[k]);
    }
  }

  lemma NextKeepsWithin(s: State, step: Step)
    requires !step.Restart? && HeldWithin(s.flight, s.pool) && StoredWithin(s.db.services, s.pool)
    ensures Next(s, step).pool == s.pool
    ensures HeldWithin(Next(s, step).flight, s.pool) && StoredWithin(Next(s, step).db.services, s.pool)
  {
    NextDb(s, step);
    var st := Issued(s, step);
    if st.Some? {
      ExecuteKeepsWithin(s.db, st.value, s.pool);
    }
    if step.Allocate? {
      FirstFreeIsLowest(UsedPorts(s.db), s.pool.min, s.pool.max);
    }
  }

  lemma {:induction false} RunKeepsWithin(pool: Pool, steps: seq<Step>)
    requires FixedPool(steps)
    ensures var s := Run(Start(pool), steps);
      s.pool == pool && HeldWithin(s.flight, pool) && StoredWithin(s.db.services, pool)
  {
    if steps != [] {
      var n := |steps| - 1;
      RunKeepsWithin(pool, steps[..n]);
      NextKeepsWithin(Run(Start(pool), steps[..n]), steps[n]);
    }
  }

  function Ports(min: int, max: int): set<int>
    decreases max - min
  {
    if min > max then {} else {min} + Ports(min + 1, max)
  }

  lemma {:induction false} PortsSize(min: int, max: int)
    requires min <= max + 1
    ensures |Ports(min, max)| == max - min + 1 && forall p :: p in Ports(min, max) <==> min <= p <= max
    decreases max - min
  {
    if min <= max {
      PortsSize(min + 1, max);
    }
  }

  lemma {:induction false} OnePortEach(t: Services, keys: set<Id>)
    requires ServicesOk(t) && keys <= t.Keys
    ensures |set k | k in keys :: t[k].publicPort| == |keys|
  {
    if keys != {} {
      var k :| k in keys;
      OnePortEach(t, keys - {k});
      assert (set j | j in keys :: t[j].publicPort) == (set j | j in keys - {k} :: t[j].publicPort) + {t[k].publicPort};
    }
  }

  lemma {:induction false} SubsetSize(a: set<int>, b: set<int>)
    requires a <= b
    ensures |a| <= |b|
  {
    assert b == a + (b - a);
  }

  /** With a fixed pool, stored ports are distinct and in the pool, and services never outnumber it. */
  lemma PoolBoundsServices(pool: Pool, steps: seq<Step>)
    requires ValidPool(pool) && FixedPool(steps)
    ensures var db := Run(Start(pool), steps).db;
      && (forall p :: p in UsedPorts(db) ==> pool.min <= p <= pool.max)
      && |UsedPorts(db)| == |db.services| <= pool.max - pool.min + 1
  {
    var s := Run(Start(pool), steps);
    RunKeepsWithin(pool, steps);
    StartIsOk(pool);
    RunKeepsInv(Start(pool), steps);
    DistinctPorts(s.db);
    PortsSize(pool.min, pool.max);
    SubsetSize(UsedPorts(s.db), Ports(pool.min, pool.max));
  }

  lemma DistinctPorts(db: Db)
    requires ServicesOk(db.services)
    ensures |UsedPorts(db)| == |db.services|
  {
    OnePortEach(db.services, db.services.Keys);
    assert UsedPorts(db) == set k | k in db.services.Keys :: db.services[k].publicPort;
  }

  /** The step stored this port, which was free before it. */
  ghost predicate Stores(s: State, step: Step, port: int) {
    step.InsertHeld? && port !in UsedPorts(s.db) && port in UsedPorts(Next(s, step).db)
  }

  lemma OnlyInsertsStore(s: State, step: Step, port: int)
    requires port !in UsedPorts(s.db) && port in UsedPorts(Next(s, step).db)
    ensures step.InsertHeld?
  {
    NextDb(s, step);
    var st := Issued(s, step);
    if st.Some? {
      ServiceRowsAfter(s.db, st.value);
      var after := Execute(s.db, st.value).db.services;
      var k :| k in after && after[k].publicPort == port;
      assert ServiceRow(s.db, st.value, k, after[k]);
      if k in s.db.services {
        assert s.db.services[k].publicPort in UsedPorts(s.db);
      }
    }
  }

  lemma {:induction false} SomeStepStored(s: State, steps: seq<Step>, i: nat, n: nat, port: int) returns (j: nat)
    requires i <= n <= |steps| && port !in UsedPorts(At(s, steps, i).db) && port in UsedPorts(At(s, steps, n).db)
    ensures i <= j < n && Stores(At(s, steps, j), steps[j], port)
  {
    AtNext(s, steps, n - 1);
    if port !in UsedPorts(At(s, steps, n - 1).db) {
      OnlyInsertsStore(At(s, steps, n - 1), steps[n - 1], port);
      j := n - 1;
    } else {
      j := SomeStepStored(s, steps, i, n - 1, port);
    }
  }

  /** A handler that holds a port got it from its own Allocate, as the lowest free one at that time,
  and has been in flight since. */
  lemma {:induction false} HeldPortWasFree(s: State, steps: seq<Step>, n: nat, rid: nat) returns (i: nat)
    requires n <= |steps| && rid !in s.flight
    requires rid in At(s, steps, n).flight && At(s, steps, n).flight[rid].HoldingPort?
    ensures i < n && steps[i] == Allocate(rid)
    ensures var a := At(s, steps, i);
      FirstFree(UsedPorts(a.db), a.pool.min, a.pool.max) == Some(At(s, steps, n).flight[rid].port)
    ensures forall m :: i < m <= n ==>
      rid in At(s, steps, m).flight && At(s, steps, m).flight[rid] == At(s, steps, n).flight[rid]
  {
    assert n > 0 by { assert steps[..0] == []; }
    AtNext(s, steps, n - 1);
    var before := At(s, steps, n - 1);
    if rid in before.flight && before.flight[rid] == At(s, steps, n).flight[rid] {
      i := HeldPortWasFree(s, steps, n - 1, rid);
    } else {
      i := n - 1;
    }
  }

  /** An insert loses on its port only if another handler stored that port after this one's Allocate. */
  lemma PortLostToAnother(s: State, steps: seq<Step>, n: nat) returns (i: nat, j: nat)
    requires n < |steps| && steps[n].InsertHeld? && steps[n].rid !in s.flight
    requires var f := At(s, steps, n).flight;
      steps[n].rid in f && f[steps[n].rid].HoldingPort? && f[steps[n].rid].port in UsedPorts(At(s, steps, n).db)
    ensures i < j < n && steps[i] == Allocate(steps[n].rid)
    ensures Stores(At(s, steps, j), steps[j], At(s, steps, n).flight[steps[n].rid].port) && steps[j].rid != steps[n].rid
  {
    var rid := steps[n].rid;
    var port := At(s, steps, n).flight[rid].port;
    i := HeldPortWasFree(s, steps, n, rid);
    FirstFreeIsLowest(UsedPorts(At(s, steps, i).db), At(s, steps, i).pool.min, At(s, steps, i).pool.max);
    j := SomeStepStored(s, steps, i, n, port);
    AtNext(s, steps, j);
    assert rid in At(s, steps, j + 1).flight || j == i;
  }

  /** An insert is refused as a duplicate exactly on a taken port, a taken name or a taken id. */
  lemma InsertRefusals(s: State, step: Step)
    requires step.InsertHeld? && step.rid in s.flight
    requires s.flight[step.rid].HoldingPort? && HandlerOk(s.flight[step.rid])
    ensures var h, r := s.flight[step.rid], Execute(s.db, Issued(s, step).value);
      && (r.outcome == UniqueViolation <==>
            h.port in UsedPorts(s.db) || ServiceNameTaken(s.db, h.deviceId, h.name) || step.id in s.db.services)
      && (r.outcome == Done ==> UsedPorts(r.db) == UsedPorts(s.db) + {h.port})
  {
    var h, r := s.flight[step.rid], Execute(s.db, Issued(s, step).value);
    if r.outcome == Done {
      forall p ensures p in UsedPorts(r.db) <==> p in UsedPorts(s.db) || p == h.port {
        if p in UsedPorts(s.db) {
          var k :| k in s.db.services && s.db.services[k].publicPort == p;
          assert k in r.db.services && r.db.services[k].publicPort == p;
        }
        assert step.id in r.db.services && r.db.services[step.id].publicPort == h.port;
      }
    }
  }

  // ---------------- Forwards ----------------

  /** The step that takes this service away, alone or with its device. */
  ghost predicate Removes(s: State, step: Step, service: Id) {
    && service in s.db.services && service !in Next(s, step).db.services
    && (step == Sql(DeleteService(service)) || step == Sql(DeleteDevice(s.db.services[service].deviceId)))
  }

  lemma OnlyDeletesRemove(s: State, step: Step, service: Id)
    requires service in s.db.services && service !in Next(s, step).db.services
    ensures Removes(s, step, service)
  {
    NextDb(s, step);
    OnlyDeletesDrop(s.db, Issued(s, step).value, service);
  }

  lemma {:induction false} SomeStepRemoved(s: State, steps: seq<Step>, i: nat, n: nat, service: Id) returns (j: nat)
    requires i <= n <= |steps| && service in At(s, steps, i).db.services && service !in At(s, steps, n).db.services
    ensures i <= j < n && Removes(At(s, steps, j), steps[j], service)
  {
    AtNext(s, steps, n - 1);
    if service in At(s, steps, n - 1).db.services {
      j := n - 1;
      OnlyDeletesRemove(At(s, steps, j), steps[j], service);
    } else {
      j := SomeStepRemoved(s, steps, i, n - 1, service);
    }
  }

  /** The lookup that let a forward in: its service was there then. */
  lemma {:induction false} ServiceWasThere(s: State, steps: seq<Step>, n: nat, rid: nat) returns (i: nat)
    requires n <= |steps| && rid !in s.flight
    requires rid in At(s, steps, n).flight && At(s, steps, n).flight[rid].AddingForward?
    ensures i < n
    ensures var h := At(s, steps, n).flight[rid];
      steps[i] == StartForward(rid, h.ownerId, h.serviceId, h.localPort) && h.serviceId in At(s, steps, i).db.services
  {
    assert n > 0 by { assert steps[..0] == []; }
    AtNext(s, steps, n - 1);
    var before := At(s, steps, n - 1);
    if rid in before.flight && before.flight[rid] == At(s, steps, n).flight[rid] {
      i := ServiceWasThere(s, steps, n - 1, rid);
    } else {
      i := n - 1;
    }
  }

  /** A forward insert finds its service gone only if a delete took it after this handler's lookup. */
  lemma ForwardLostToDelete(s: State, steps: seq<Step>, n: nat) returns (i: nat, j: nat)
    requires n < |steps| && steps[n].InsertAdded? && steps[n].rid !in s.flight
    requires var f := At(s, steps, n).flight;
      steps[n].rid in f && f[steps[n].rid].AddingForward? && f[steps[n].rid].serviceId !in At(s, steps, n).db.services
    ensures var h := At(s, steps, n).flight[steps[n].rid];
      && i < j < n && steps[i] == StartForward(steps[n].rid, h.ownerId, h.serviceId, h.localPort)
      && Removes(At(s, steps, j), steps[j], h.serviceId)
  {
    i := ServiceWasThere(s, steps, n, steps[n].rid);
    j := SomeStepRemoved(s, steps, i, n, At(s, steps, n).flight[steps[n].rid].serviceId);
  }

  /** A forward insert is refused for a foreign key exactly when its local port is free on its owner and its
  owner or its service is gone. */
  lemma ForwardRefusals(s: State, step: Step)
    requires step.InsertAdded? && step.rid in s.flight && s.flight[step.rid].AddingForward?
    ensures var h, r := s.flight[step.rid], Execute(s.db, Issued(s, step).value);
      var clash := LocalPortTaken(s.db, h.ownerId, h.localPort) || step.id in s.db.forwards;
      && (r.outcome == UniqueViolation <==> clash)
      && (r.outcome == ForeignKeyViolation <==> !clash && (h.ownerId !in s.db.devices || h.serviceId !in s.db.services))
  {
  }

  // ---------------- Cutoffs ----------------

  /** The stale sweep is off by less than a second: an online device seen a second or more before the cutoff
  goes offline, and no device seen a second or more after it does. */
  lemma StaleWithinOneSecond(db: Db, cutoff: Time, id: Id)
    requires id in db.devices && db.devices[id].status == Online
    ensures var d := db.devices[id];
      var after := Execute(db, MarkStale(cutoff)).db.devices[id];
      && (d.lastSeen.None? ==> after == d.(status := Offline))
      && (d.lastSeen.Some? && Instant(d.lastSeen.value) + NANOS <= Instant(cutoff) ==> after == d.(status := Offline))
      && (d.lastSeen.Some? && Instant(cutoff) + NANOS <= Instant(d.lastSeen.value) ==> after == d)
  {
    if db.devices[id].lastSeen.Some? {
      CutoffWithinOneSecond(db.devices[id].lastSeen.value, cutoff);
    }
  }

  /** So is the cutoff of the SSH reaper. */
  lemma LockedWithinOneSecond(d: Device, cutoff: Time)
    requires d.sshLockedAt.Some?
    ensures Instant(d.sshLockedAt.value) + NANOS <= Instant(cutoff) ==> LockedBefore(d, cutoff)
    ensures Instant(cutoff) + NANOS <= Instant(d.sshLockedAt.value) ==> !LockedBefore(d, cutoff)
  {
    CutoffWithinOneSecond(d.sshLockedAt.value, cutoff);
  }
}
