/** From a forward in the tables to the two specs that chisel reads, on the two devices it joins. */
module Mesh {
  import opened Wrappers
  import opened Text
  import opened LocalAddr
  import opened Schema
  import opened Bootstrap
  import opened ChiselSpec
  import opened ControlPlane
  import opened Guarantees
  import Effects

  /** What the owner's device must run for a forward to a service: listen on its own loopback address and dial the
  service's public port on the server. */
  function NearEnd(f: Forward, sv: Service): Tunnel {
    Tunnel(false, "127.0.0.1", f.localPort, "127.0.0.1", sv.publicPort, sv.protocol == "udp")
  }

  /** What the service's device must run: have the server listen on the public port, towards the internet only
  if the service is not bound locally, and dial the service's own address. */
  ghost predicate FarEnd(sv: Service, t: Tunnel) {
    && t.reverse && t.bind == (if sv.bindLocal then "127.0.0.1" else "0.0.0.0") && t.listens == sv.publicPort
    && t.udp == (sv.protocol == "udp") && Dials(t, sv.localAddr)
  }

  ghost predicate Dials(t: Tunnel, addr: string) {
    exists port :: Joins(addr, t.host, port) && Atoi(port) == Some(t.dials)
  }

  /** The tunnel that a device's entry comes to, through its rule and its spec. */
  function RemoteTunnel(r: RemoteEntry): Option<Tunnel> {
    ReadSpec(RemoteSpec(RemoteRule(r)))
  }

  function LocalTunnel(l: LocalEntry): Option<Tunnel> {
    ReadSpec(LocalSpec(LocalRule(l)))
  }

  lemma KnownSuffix(protocol: string)
    requires protocol in {"tcp", "udp"}
    ensures IsUdp(protocol) <==> protocol == "udp"
  {
    ProtocolsByLetter(protocol);
  }

  lemma OfferedTunnel(db: Db, d: Id, r: RemoteEntry)
    requires Integrity(db) && ValuesOk(db) && r in RemoteSet(db, d)
    ensures r.serviceId in db.services && db.services[r.serviceId].deviceId == d && db.services[r.serviceId].enabled
    ensures RemoteTunnel(r).Some? && FarEnd(db.services[r.serviceId], RemoteTunnel(r).value)
  {
    Effects.RemoteByRow(db, d, r);
    RemoteEntriesSound(db, d);
    KnownSuffix(r.protocol);
    var host, port :| Joins(r.localAddr, host, port);
    RemoteSpecReads(RemoteRule(r), host, port);
    assert Joins(r.localAddr, RemoteTunnel(r).value.host, port);
  }

  lemma TakenTunnel(db: Db, d: Id, l: LocalEntry)
    requires Integrity(db) && ValuesOk(db) && l in LocalSet(db, d)
    ensures Effects.Takes(db.services, db.forwards, d, l)
    ensures var f := db.forwards[l.forwardId]; LocalTunnel(l) == Some(NearEnd(f, db.services[f.serviceId]))
  {
    Effects.LocalByRow(db, d, l);
    LocalEntriesSound(db, d);
    KnownSuffix(l.protocol);
    LocalSpecReads(LocalRule(l));
    var f := db.forwards[l.forwardId];
    assert f.id == l.forwardId;
  }

  /** The bootstrap entry of a service on its own device. */
  function EntryOf(sv: Service): RemoteEntry {
    RemoteEntry(sv.id, sv.publicPort, sv.localAddr, sv.protocol, sv.bindLocal)
  }

  /** In every reachable store: the spec of a device's forward listens where the forward says and dials the public
  port of the service it names; the spec of that service, on its own device, listens there and dials the service's
  address; and no other spec of any device listens there. */
  lemma ForwardReachesService(s: State, d: Id, l: LocalEntry)
    requires Reachable(s) && l in LocalSet(s.db, d)
    ensures Effects.Takes(s.db.services, s.db.forwards, d, l)
    ensures var f := s.db.forwards[l.forwardId];
      var sv := s.db.services[f.serviceId];
      && LocalTunnel(l) == Some(NearEnd(f, sv))
      && EntryOf(sv) in RemoteSet(s.db, sv.deviceId)
      && RemoteTunnel(EntryOf(sv)).Some? && FarEnd(sv, RemoteTunnel(EntryOf(sv)).value)
    ensures var sv := s.db.services[s.db.forwards[l.forwardId].serviceId];
      forall e, r ::
        r in RemoteSet(s.db, e) && RemoteTunnel(r).Some? && RemoteTunnel(r).value.listens == sv.publicPort ==>
          e == sv.deviceId && r == EntryOf(sv)
  {
    ReachableIsOk(s);
    TakenTunnel(s.db, d, l);
    var sv := s.db.services[s.db.forwards[l.forwardId].serviceId];
    Effects.RemoteByRow(s.db, sv.deviceId, EntryOf(sv));
    OfferedTunnel(s.db, sv.deviceId, EntryOf(sv));
    forall e, r | r in RemoteSet(s.db, e) && RemoteTunnel(r).Some? && RemoteTunnel(r).value.listens == sv.publicPort
      ensures e == sv.deviceId && r == EntryOf(sv)
    {
      OfferedTunnel(s.db, e, r);
      Effects.RemoteByRow(s.db, e, r);
      assert s.db.services[r.serviceId].publicPort == sv.publicPort;
    }
  }

  /** Each forward rule built from a bootstrap that is sent dials the public port of exactly one enabled service of
  the moment its forwards were read: the one its forward names. */
  lemma SentRuleDialsOneService(pool: Pool, steps: seq<Step>, n: nat, d: Id, b: Bootstrap, i: nat) returns (k: Id)
    requires ValidPool(pool) && n < |steps| && Sends(At(Start(pool), steps, n), steps[n], d, b) && i < |b.locals|
    ensures var db := At(Start(pool), steps, n).db;
      && b.locals[i].forwardId in db.forwards && db.forwards[b.locals[i].forwardId].serviceId == k
      && k in db.services && db.services[k].enabled
      && LocalRules(b)[i].remotePublicPort == db.services[k].publicPort
      && LocalRules(b)[i].localPort == db.forwards[b.locals[i].forwardId].localPort
      && forall j :: j in db.services && db.services[j].publicPort == LocalRules(b)[i].remotePublicPort ==> j == k
  {
    var s := At(Start(pool), steps, n);
    assert Reachable(s);
    ReachableIsOk(s);
    assert b.locals[i] in b.locals;
    Effects.LocalByRow(s.db, d, b.locals[i]);
    k := s.db.forwards[b.locals[i].forwardId].serviceId;
  }
}
