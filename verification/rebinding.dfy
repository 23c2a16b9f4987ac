/** What it costs that the reload text leaves BindLocal aside: a service that is deleted and added again on
its old port, bound elsewhere, goes unnoticed by the daemon.
*/
module Rebinding {
  import opened Wrappers
  import opened Timestamps
  import opened LocalAddr
  import opened Sorting
  import opened Schema
  import opened Bootstrap
  import opened ChiselSpec
  import opened ControlPlane
  import opened Guarantees
  import opened ReloadKey
  import Daemon
  import Effects

  // ---------------- The run ----------------

  function Rebound(sv: Service, id: Id, now: Time): Service {
    Service(id, sv.deviceId, sv.name, sv.protocol, sv.localAddr, sv.publicPort, true, !sv.bindLocal, now, None, false)
  }

  /** Delete the service, then add it with the other binding. */
  function RebindSteps(sv: Service, rid: nat, raw: string, id: Id, now: Time): seq<Step> {
    var start := StartService(rid, sv.deviceId, sv.name, sv.protocol, raw, Some(!sv.bindLocal));
    [Sql(DeleteService(sv.id)), start, Allocate(rid), InsertHeld(rid, id, now)]
  }

  /** The pool hands the port out again: all lower ones are stored. */
  ghost predicate NextInLine(s: State, port: int) {
    FirstFree(UsedPorts(s.db) - {port}, s.pool.min, s.pool.max) == Some(port)
  }

  /** The device has no forward to its own service; a delete would take it along. */
  ghost predicate NotItsOwnClient(db: Db, k: Id)
    requires k in db.services
  {
    forall f :: f in db.forwards && db.forwards[f].ownerId == db.services[k].deviceId ==>
      db.forwards[f].serviceId != k
  }

  ghost predicate CanRebind(s: State, k: Id, rid: nat, raw: string, id: Id) {
    && Reachable(s) && rid !in s.flight && k in s.db.services && id !in s.db.services
    && s.db.services[k].enabled && s.db.services[k].name.text != ""
    && Normalize(raw) == Ok(s.db.services[k].localAddr)
    && NextInLine(s, s.db.services[k].publicPort)
    && NotItsOwnClient(s.db, k)
  }

  lemma DeletedPorts(db: Db, k: Id)
    requires ServicesOk(db.services) && k in db.services
    ensures UsedPorts(Execute(db, DeleteService(k)).db) == UsedPorts(db) - {db.services[k].publicPort}
  {
    var after := Execute(db, DeleteService(k)).db;
    forall p ensures p in UsedPorts(after) <==> p in UsedPorts(db) && p != db.services[k].publicPort {
      if p in UsedPorts(after) {
        var j :| j in after.services && after.services[j].publicPort == p;
        assert j in db.services && db.services[j].publicPort == p;
      }
      if p in UsedPorts(db) && p != db.services[k].publicPort {
        var j :| j in db.services && db.services[j].publicPort == p;
        assert j in after.services && after.services[j].publicPort == p;
      }
    }
  }

  lemma AddedBack(db: Db, k: Id, sv: Service)
    requires Integrity(db) && k in db.services && sv.id !in db.services
    requires SameIdentity(sv, db.services[k].(id := sv.id))
    ensures var mid := Execute(db, DeleteService(k)).db;
      && Execute(mid, InsertService(sv)).outcome == Done
      && Execute(mid, InsertService(sv)).db
         == mid.(services := mid.services[sv.id := sv.(lastProbeAt := None, lastProbeOk := false)])
  {
    DeletedPorts(db, k);
    var mid := Execute(db, DeleteService(k)).db;
    assert forall j :: j in mid.services ==> j in db.services && j != k && !SameName(mid.services[j], db.services[k]);
  }

  /** After the run the table holds the same service under another id, bound the other way. */
  lemma RebindRun(s: State, k: Id, rid: nat, raw: string, id: Id, now: Time)
    requires CanRebind(s, k, rid, raw, id)
    ensures var sv := s.db.services[k];
      var mid := Execute(s.db, DeleteService(k)).db;
      Run(s, RebindSteps(sv, rid, raw, id, now)).db == mid.(services := mid.services[id := Rebound(sv, id, now)])
  {
    ReachableIsOk(s);
    var sv := s.db.services[k];
    var mid := Execute(s.db, DeleteService(k)).db;
    var start := StartService(rid, sv.deviceId, sv.name, sv.protocol, raw, Some(!sv.bindLocal));
    RunOfFour(s, Sql(DeleteService(k)), start, Allocate(rid), InsertHeld(rid, id, now));
    DeletedPorts(s.db, k);
    AddedBack(s.db, k, Rebound(sv, id, now));
    var s1 := Next(s, Sql(DeleteService(k)));
    assert s1 == State(mid, s.pool, s.flight);
    var h := AddingService(sv.deviceId, sv.name, sv.protocol, sv.localAddr, !sv.bindLocal);
    assert raw != "" && Admit(sv.deviceId, sv.name, sv.protocol, raw, Some(!sv.bindLocal)) == Some(h);
    var s2 := Next(s1, start);
    assert s2 == State(mid, s.pool, s.flight[rid := h]);
    var s3 := Next(s2, Allocate(rid));
    assert s3.flight[rid] == HoldingPort(sv.deviceId, sv.name, sv.protocol, sv.localAddr, !sv.bindLocal, sv.publicPort);
  }

  // ---------------- What the two bootstraps show ----------------

  ghost predicate ReboundTables(db: Db, after: Db, k: Id, id: Id, now: Time) {
    && Integrity(db) && Integrity(after) && k in db.services && id !in db.services && db.services[k].enabled
    && after.services == (db.services - {k})[id := Rebound(db.services[k], id, now)]
    && after.forwards == db.forwards - ForwardsTo(db, {k})
    && NotItsOwnClient(db, k)
  }

  /** In the device's bootstrap one entry is replaced, by one that differs in service id and binding. */
  lemma ReboundRemotes(db: Db, after: Db, k: Id, id: Id, now: Time)
    requires ReboundTables(db, after, k, id, now)
    ensures var d := db.services[k].deviceId;
      && ToRemote(db.services[k]) in RemoteSet(db, d)
      && RemoteSet(after, d)
         == RemoteSet(db, d) - {ToRemote(db.services[k])} + {ToRemote(Rebound(db.services[k], id, now))}
  {
    var d := db.services[k].deviceId;
    var e, e' := ToRemote(db.services[k]), ToRemote(Rebound(db.services[k], id, now));
    forall r ensures r in RemoteSet(after, d) <==> (r in RemoteSet(db, d) && r != e) || r == e' {
      Effects.RemoteByRow(db, d, r);
      Effects.RemoteByRow(after, d, r);
      ReboundOffers(db.services, after.services, k, id, now, r);
    }
    Effects.RemoteByRow(db, d, e);
  }

  lemma ReboundLocals(db: Db, after: Db, k: Id, id: Id, now: Time)
    requires ReboundTables(db, after, k, id, now)
    ensures LocalSet(after, db.services[k].deviceId) == LocalSet(db, db.services[k].deviceId)
  {
    var d := db.services[k].deviceId;
    forall l ensures l in LocalSet(after, d) <==> l in LocalSet(db, d) {
      Effects.LocalByRow(db, d, l);
      Effects.LocalByRow(after, d, l);
      OwnForwardsStay(db, after, k, id, l);
    }
  }

  lemma ReboundOffers(t: Services, left: Services, k: Id, id: Id, now: Time, r: RemoteEntry)
    requires ServicesOk(t) && k in t && id !in t && t[k].enabled && left == (t - {k})[id := Rebound(t[k], id, now)]
    ensures var d := t[k].deviceId;
      Effects.Offers(left, d, r) <==>
        (Effects.Offers(t, d, r) && r != ToRemote(t[k])) || r == ToRemote(Rebound(t[k], id, now))
  {
  }

  lemma OwnForwardsStay(db: Db, after: Db, k: Id, id: Id, l: LocalEntry)
    requires Integrity(db) && k in db.services && id !in db.services
    requires after.services.Keys == db.services.Keys - {k} + {id}
    requires forall j :: j in db.services && j != k ==> after.services[j] == db.services[j]
    requires after.forwards == db.forwards - ForwardsTo(db, {k})
    requires NotItsOwnClient(db, k)
    ensures var d := db.services[k].deviceId;
      Effects.Takes(after.services, after.forwards, d, l) <==> Effects.Takes(db.services, db.forwards, d, l)
  {
  }

  function EntryKey(e: RemoteEntry): string {
    RemoteKey(RemoteRule(e))
  }

  function LocalEntryKey(e: LocalEntry): string {
    LocalKey(LocalRule(e))
  }

  lemma KeysByEntry(b: Bootstrap)
    ensures RemoteKeys(RemoteRules(b)) == Mapped(b.remotes, EntryKey)
    ensures LocalKeys(LocalRules(b)) == Mapped(b.locals, LocalEntryKey)
  {
    var remotes, locals := RemoteKeys(RemoteRules(b)), LocalKeys(LocalRules(b));
    forall i | 0 <= i < |b.remotes| ensures remotes[i] == Mapped(b.remotes, EntryKey)[i] {
      assert remotes[i] == EntryKey(b.remotes[i]);
    }
    forall i | 0 <= i < |b.locals| ensures locals[i] == Mapped(b.locals, LocalEntryKey)[i] {
      assert locals[i] == LocalEntryKey(b.locals[i]);
    }
  }

  /** Replacing an entry by one with the same key does not change the text, whatever the order. */
  lemma SameTextAfterSwap(b: Bootstrap, c: Bootstrap, shown: set<RemoteEntry>, e: RemoteEntry, e': RemoteEntry,
                          locals: set<LocalEntry>)
    requires Enumerates(b.remotes, shown) && e in shown && Enumerates(c.remotes, shown - {e} + {e'})
    requires e' !in shown - {e} && EntryKey(e) == EntryKey(e')
    requires Enumerates(b.locals, locals) && Enumerates(c.locals, locals)
    ensures CanonicalText(RemoteRules(b), LocalRules(b)) == CanonicalText(RemoteRules(c), LocalRules(c))
  {
    var i :| 0 <= i < |b.remotes| && b.remotes[i] == e;
    var swapped := b.remotes[i := e'];
    SwapEnumerates(b.remotes, shown, i, e');
    EnumerationsSameBag(swapped, c.remotes, shown - {e} + {e'});
    EnumerationsSameBag(b.locals, c.locals, locals);
    SameBagSameKeys(swapped, c.remotes, EntryKey);
    SameBagSameKeys(b.locals, c.locals, LocalEntryKey);
    assert Mapped(swapped, EntryKey) == Mapped(b.remotes, EntryKey);
    KeysByEntry(b);
    KeysByEntry(c);
    SameBagSameSorting(RemoteKeys(RemoteRules(b)), RemoteKeys(RemoteRules(c)));
    SameBagSameSorting(LocalKeys(LocalRules(b)), LocalKeys(LocalRules(c)));
  }

  lemma SwapEnumerates(xs: seq<RemoteEntry>, s: set<RemoteEntry>, i: nat, e: RemoteEntry)
    requires i < |xs| && Enumerates(xs, s) && e !in s - {xs[i]}
    ensures Enumerates(xs[i := e], s - {xs[i]} + {e})
  {
    var ys := xs[i := e];
    forall x ensures x in ys <==> x in s - {xs[i]} + {e} {
      if x in ys {
        var j :| 0 <= j < |ys| && ys[j] == x;
        assert j != i ==> xs[j] in xs;
      }
      if x in s - {xs[i]} {
        var j :| 0 <= j < |xs| && xs[j] == x;
        assert ys[j] == x;
      }
      assert ys[i] == e;
    }
    forall p, q | 0 <= p < q < |ys| ensures ys[p] != ys[q] {
      assert xs[p] in xs && xs[q] in xs && xs[i] in xs;
    }
  }

  /** The spec the device should run before is none of the specs it should run after. */
  ghost predicate RunsOtherSpecs(b: Bootstrap, c: Bootstrap) {
    exists i :: 0 <= i < |b.remotes| && Lacks(c, RemoteRules(b)[i])
  }

  ghost predicate Shows(b: Bootstrap, db: Db, d: Id) {
    Remotes(b, db, d) && Locals(b, db, d)
  }

  ghost predicate Lacks(c: Bootstrap, r: Remote) {
    forall j :: 0 <= j < |c.remotes| ==> RemoteSpec(RemoteRules(c)[j]) != RemoteSpec(r)
  }

  /** From any reachable state in which the service's port is next in line: whatever bootstraps the device gets
  before and after, their texts are equal although the specs are not. */
  lemma RebindGoesUnseen(s: State, k: Id, rid: nat, raw: string, id: Id, now: Time, b: Bootstrap, c: Bootstrap)
    requires CanRebind(s, k, rid, raw, id)
    requires Shows(b, s.db, s.db.services[k].deviceId)
    requires Shows(c, Run(s, RebindSteps(s.db.services[k], rid, raw, id, now)).db, s.db.services[k].deviceId)
    ensures Reachable(Run(s, RebindSteps(s.db.services[k], rid, raw, id, now)))
    ensures CanonicalText(RemoteRules(b), LocalRules(b)) == CanonicalText(RemoteRules(c), LocalRules(c))
    ensures RunsOtherSpecs(b, c)
  {
    var sv := s.db.services[k];
    var after := Run(s, RebindSteps(sv, rid, raw, id, now)).db;
    var e, e' := ToRemote(sv), ToRemote(Rebound(sv, id, now));
    RebindTables(s, k, rid, raw, id, now);
    ReboundRemotes(s.db, after, k, id, now);
    ReboundLocals(s.db, after, k, id, now);
    FreshEntry(s.db, sv.deviceId, id, e');
    SameTextAfterSwap(b, c, RemoteSet(s.db, sv.deviceId), e, e', LocalSet(s.db, sv.deviceId));
    OtherSpecs(s.db, after, sv.deviceId, b, c, e, e');
  }

  lemma RebindTables(s: State, k: Id, rid: nat, raw: string, id: Id, now: Time)
    requires CanRebind(s, k, rid, raw, id)
    ensures var t := Run(s, RebindSteps(s.db.services[k], rid, raw, id, now));
      Reachable(t) && ValuesOk(s.db) && ValuesOk(t.db) && ReboundTables(s.db, t.db, k, id, now)
  {
    var steps := RebindSteps(s.db.services[k], rid, raw, id, now);
    RunStaysReachable(s, steps);
    RebindRun(s, k, rid, raw, id, now);
    ReachableTables(s);
    ReachableTables(Run(s, steps));
    TablesOf(s.db, Run(s, steps).db, k, id, now);
  }

  lemma ReachableTables(s: State)
    requires Reachable(s)
    ensures Integrity(s.db) && ValuesOk(s.db)
  {
    ReachableIsOk(s);
  }

  lemma TablesOf(db: Db, after: Db, k: Id, id: Id, now: Time)
    requires Integrity(db) && Integrity(after) && k in db.services && id !in db.services && db.services[k].enabled
    requires var mid := Execute(db, DeleteService(k)).db;
      after == mid.(services := mid.services[id := Rebound(db.services[k], id, now)])
    requires NotItsOwnClient(db, k)
    ensures ReboundTables(db, after, k, id, now)
  {
  }

  lemma FreshEntry(db: Db, d: Id, id: Id, e: RemoteEntry)
    requires ServicesOk(db.services) && id !in db.services && e.serviceId == id
    ensures e !in RemoteSet(db, d)
  {
    Effects.RemoteByRow(db, d, e);
  }

  lemma OtherSpecs(db: Db, after: Db, d: Id, b: Bootstrap, c: Bootstrap, e: RemoteEntry, e': RemoteEntry)
    requires Integrity(db) && ValuesOk(db) && Integrity(after) && ValuesOk(after)
    requires Remotes(b, db, d) && Remotes(c, after, d) && e in RemoteSet(db, d) && e' in RemoteSet(after, d)
    requires e.publicPort == e'.publicPort && e.bindLocal != e'.bindLocal
    ensures RunsOtherSpecs(b, c)
  {
    EntryFacts(db, d, e, e);
    forall f | f in RemoteSet(after, d) ensures RemoteSpec(RemoteRule(f)) != RemoteSpec(RemoteRule(e)) {
      EntryFacts(after, d, f, e');
      OtherSpec(e, f);
    }
    NoSuchSpec(b, c, RemoteSet(db, d), RemoteSet(after, d), e);
  }

  lemma NoSuchSpec(b: Bootstrap, c: Bootstrap, before: set<RemoteEntry>, after: set<RemoteEntry>, e: RemoteEntry)
    requires Enumerates(b.remotes, before) && Enumerates(c.remotes, after) && e in before
    requires forall f :: f in after ==> RemoteSpec(RemoteRule(f)) != RemoteSpec(RemoteRule(e))
    ensures RunsOtherSpecs(b, c)
  {
    var i :| 0 <= i < |b.remotes| && b.remotes[i] == e;
    forall j | 0 <= j < |c.remotes| ensures RemoteSpec(RemoteRules(c)[j]) != RemoteSpec(RemoteRules(b)[i]) {
      assert c.remotes[j] in after;
    }
    assert Lacks(c, RemoteRules(b)[i]);
  }

  lemma EntryFacts(db: Db, d: Id, e: RemoteEntry, f: RemoteEntry)
    requires Integrity(db) && ValuesOk(db) && e in RemoteSet(db, d) && f in RemoteSet(db, d)
    ensures Sound(Reverse(RemoteRule(e))) && (e.publicPort == f.publicPort ==> e == f)
  {
    RemoteEntriesSound(db, d);
  }

  lemma OtherSpec(e: RemoteEntry, f: RemoteEntry)
    requires Sound(Reverse(RemoteRule(e))) && Sound(Reverse(RemoteRule(f)))
    requires e.publicPort == f.publicPort ==> e.bindLocal != f.bindLocal
    ensures RemoteSpec(RemoteRule(e)) != RemoteSpec(RemoteRule(f))
  {
    SpecsLoseNothing(Reverse(RemoteRule(e)), Reverse(RemoteRule(f)));
  }

  /** So a daemon that runs the first bootstrap keeps its old binding when it polls the second. */
  lemma DaemonKeepsOldBinding(s: State, k: Id, rid: nat, raw: string, id: Id, now: Time, b: Bootstrap, c: Bootstrap,
                              events: seq<Daemon.Event>)
    requires CanRebind(s, k, rid, raw, id)
    requires Shows(b, s.db, s.db.services[k].deviceId)
    requires Shows(c, Run(s, RebindSteps(s.db.services[k], rid, raw, id, now)).db, s.db.services[k].deviceId)
    requires Daemon.After(b, events).watching && Daemon.After(b, events).end.None?
    ensures var session := Daemon.After(b, events + [Daemon.Poll(Daemon.Got(c))]);
      session.watching && session.remotes == RemoteRules(b) && RunsOtherSpecs(b, c)
  {
    RebindGoesUnseen(s, k, rid, raw, id, now, b, c);
    Daemon.SameTextGoesOn(b, events, c);
  }

  // ---------------- It does happen ----------------

  lemma NextReachable(s: State, step: Step)
    requires Reachable(s)
    ensures Reachable(Next(s, step))
  {
    RunStaysReachable(s, [step]);
    assert [step][..0] == [] && Run(s, []) == s;
    assert Run(s, [step]) == Next(s, step);
  }

  const DEVICE := Id("device")

  lemma FirstToken(t: Token)
    requires t.usedAt.None? && t.usedBy.None?
    ensures Execute(EMPTY, InsertToken(t)).db == EMPTY.(tokens := map[t.id := t])
  {
  }

  lemma FirstDevice(pool: Pool, now: Time, expires: Time) returns (s: State)
    requires ValidPool(pool) && Instant(now) < Instant(expires)
    ensures Reachable(s) && s.pool == pool && s.flight == map[] && DEVICE in s.db.devices
    ensures s.db.services == map[] && s.db.forwards == map[]
  {
    var t := Token(Id("token"), Digest("raw"), expires, None, None, now);
    var s0 := Start(pool);
    assert s0 == Run(s0, []) && Reachable(s0);
    var s1 := Next(s0, Sql(InsertToken(t)));
    NextReachable(s0, Sql(InsertToken(t)));
    FirstToken(t);
    assert s1.db.tokens[t.id].hash == Digest("raw");
    var check := CheckToken(0, "raw", true, Name("name"), now);
    var s2 := Next(s1, check);
    NextReachable(s1, check);
    assert s2.flight == map[0 := Enrolling(Digest("raw"), Name("name"), now)];
    var consume := Consume(0, DEVICE, Secret("secret"), now);
    s := Next(s2, consume);
    NextReachable(s2, consume);
    FirstConsume(s2.db, t, NewDevice(DEVICE, Name("name"), Secret("secret"), now), now);
    assert s.flight == map[];
  }

  lemma FirstConsume(db: Db, t: Token, d: Device, now: Time)
    requires db.tokens == map[t.id := t] && t.usedAt.None? && db.devices == map[]
    ensures var r := Execute(db, ConsumeToken(t.hash, d, now));
      r.outcome == Done && d.id in r.db.devices
  {
    var spent := map k | k in db.tokens && db.tokens[k].hash == t.hash ::
      db.tokens[k].(usedAt := Some(now), usedBy := Some(d.id));
    assert t.id in spent;
  }

  lemma FirstHeld(pool: Pool, raw: string, now: Time, expires: Time) returns (s: State)
    requires ValidPool(pool) && Instant(now) < Instant(expires) && raw != "" && Normalize(raw).Ok?
    ensures Reachable(s) && s.pool == pool && DEVICE in s.db.devices && s.db.services == map[] && s.db.forwards == map[]
    ensures s.flight == map[0 := HoldingPort(DEVICE, Name("name"), "tcp", Normalize(raw).value, true, pool.min)]
  {
    var s0 := FirstDevice(pool, now, expires);
    var start := StartService(0, DEVICE, Name("name"), "tcp", raw, Some(true));
    NextReachable(s0, start);
    var s1 := Next(s0, start);
    assert s1.flight == map[0 := AddingService(DEVICE, Name("name"), "tcp", Normalize(raw).value, true)];
    assert UsedPorts(s1.db) == {} && FirstFree({}, pool.min, pool.max) == Some(pool.min);
    NextReachable(s1, Allocate(0));
    s := Next(s1, Allocate(0));
  }

  lemma OnlyService(db: Db, sv: Service)
    requires db.services == map[] && sv.deviceId in db.devices && sv.protocol == "tcp"
    requires sv.lastProbeAt.None? && !sv.lastProbeOk
    ensures var after := Execute(db, InsertService(sv)).db;
      after.services == map[sv.id := sv] && UsedPorts(after) == {sv.publicPort} && after.forwards == db.forwards
  {
    assert UsedPorts(db) == {};
  }

  /** With any pool, the first service of the first device can be rebound unseen. */
  lemma RebindingHappens(pool: Pool, raw: string, now: Time, expires: Time) returns (s: State)
    requires ValidPool(pool) && Instant(now) < Instant(expires) && raw != "" && Normalize(raw).Ok?
    ensures CanRebind(s, Id("service"), 0, raw, Id("other"))
  {
    var held := FirstHeld(pool, raw, now, expires);
    var insert := InsertHeld(0, Id("service"), now);
    NextReachable(held, insert);
    OnlyService(held.db, NewService(Id("service"), held.flight[0], now));
    s := Next(held, insert);
    assert UsedPorts(s.db) - {pool.min} == {} && FirstFree({}, pool.min, pool.max) == Some(pool.min);
  }
}
