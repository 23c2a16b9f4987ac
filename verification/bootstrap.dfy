/** What `GET /api/devices/me/bootstrap` hands to a device, and the joined views behind it. */
module Bootstrap {
  import opened Wrappers
  import opened LocalAddr
  import opened Schema
  import opened Sorting
  import opened ChiselSpec

  datatype RemoteEntry = RemoteEntry(
    serviceId: Id, publicPort: int, localAddr: string, protocol: string, bindLocal: bool)

  datatype LocalEntry = LocalEntry(forwardId: Id, localPort: int, remotePublicPort: int, protocol: string)

  datatype Bootstrap = Bootstrap(remotes: seq<RemoteEntry>, locals: seq<LocalEntry>)

  // ---------------- Joined views ----------------

  /** A forward with the columns of its owner, its service and that service's device. */
  datatype ForwardItem = ForwardItem(
    forward: Forward, ownerName: string, serviceName: string, publicPort: int, protocol: string,
    remoteDeviceId: string, remoteDeviceName: string, serviceEnabled: bool)

  function NameOr(devices: Devices, id: Id): string {
    if id in devices then devices[id].name.text else ""
  }

  /** LEFT JOIN with COALESCE: a missing row reads as empty columns. */
  function JoinForward(db: Db, f: Forward): (item: ForwardItem)
    ensures item.forward == f
  {
    if f.serviceId in db.services then
      var s := db.services[f.serviceId];
      ForwardItem(f, NameOr(db.devices, f.ownerId), s.name.text, s.publicPort, s.protocol,
                  s.deviceId.text, NameOr(db.devices, s.deviceId), s.enabled)
    else
      ForwardItem(f, NameOr(db.devices, f.ownerId), "", 0, "", "", "", false)
  }

  /** The lookups the join replaced: None as soon as one of them finds no row. */
  function LookUpForward(db: Db, f: Forward): Option<ForwardItem> {
    if f.ownerId !in db.devices || f.serviceId !in db.services then None
    else
      var s := db.services[f.serviceId];
      if s.deviceId !in db.devices then None
      else Some(ForwardItem(f, db.devices[f.ownerId].name.text, s.name.text, s.publicPort, s.protocol,
                            s.deviceId.text, db.devices[s.deviceId].name.text, s.enabled))
  }

  datatype ServiceItem = ServiceItem(service: Service, deviceName: string)

  datatype DeviceCounts = DeviceCounts(device: Device, services: nat, forwards: nat)

  /** `deviceID == ""` asks for every device. */
  predicate Asks(filter: Id, owner: Id) {
    filter.text == "" || owner == filter
  }

  /** INNER JOIN: a service whose device is missing would be lost. */
  function ServiceItems(db: Db, filter: Id): set<ServiceItem> {
    set k | k in db.services && Asks(filter, db.services[k].deviceId) && db.services[k].deviceId in db.devices
      :: ServiceItem(db.services[k], db.devices[db.services[k].deviceId].name.text)
  }

  function ForwardItems(db: Db, filter: Id): set<ForwardItem> {
    set k | k in db.forwards && Asks(filter, db.forwards[k].ownerId) :: JoinForward(db, db.forwards[k])
  }

  function OwnForwards(db: Db, deviceId: Id): set<Id> {
    set k | k in db.forwards && db.forwards[k].ownerId == deviceId
  }

  function CountDevice(db: Db, d: Device): DeviceCounts {
    DeviceCounts(d, |OwnServices(db, d.id)|, |OwnForwards(db, d.id)|)
  }

  /** Under integrity the joins return what the lookups return: no row lost, no column null-filled. */
  lemma JoinsAreLookups(db: Db)
    requires Integrity(db)
    ensures forall k :: k in db.forwards ==> LookUpForward(db, db.forwards[k]) == Some(JoinForward(db, db.forwards[k]))
    ensures forall k, filter :: k in db.services && Asks(filter, db.services[k].deviceId) ==>
      ServiceItem(db.services[k], NameOr(db.devices, db.services[k].deviceId)) in ServiceItems(db, filter)
  {
    forall k, filter | k in db.services && Asks(filter, db.services[k].deviceId)
      ensures ServiceItem(db.services[k], NameOr(db.devices, db.services[k].deviceId)) in ServiceItems(db, filter)
    {
      assert db.services[k].deviceId in db.devices;
    }
  }

  function OwnedBy(owner: map<Id, Id>, id: Id): set<Id> {
    set k | k in owner && owner[k] == id
  }

  function Total(owner: map<Id, Id>, ids: seq<Id>): nat {
    if ids == [] then 0 else Total(owner, ids[..|ids| - 1]) + |OwnedBy(owner, ids[|ids| - 1])|
  }

  /** Counting per owner counts every owned row once. */
  lemma {:induction false} TotalCounts(owner: map<Id, Id>, ids: seq<Id>)
    requires forall i, j :: 0 <= i < j < |ids| ==> ids[i] != ids[j]
    ensures Total(owner, ids) == |set k | k in owner && owner[k] in ids|
  {
    if ids == [] {
      assert (set k | k in owner && owner[k] in ids) == {};
    } else {
      var n := |ids| - 1;
      TotalCounts(owner, ids[..n]);
      assert ids == ids[..n] + [ids[n]];
      OneMoreOwner(owner, ids[..n], ids[n]);
    }
  }

  lemma OneMoreOwner(owner: map<Id, Id>, ids: seq<Id>, id: Id)
    requires id !in ids
    ensures |set k | k in owner && owner[k] in ids + [id]|
      == |set k | k in owner && owner[k] in ids| + |OwnedBy(owner, id)|
  {
    var all, before := set k | k in owner && owner[k] in ids + [id], set k | k in owner && owner[k] in ids;
    assert all == before + OwnedBy(owner, id);
    assert before !! OwnedBy(owner, id);
  }

  function ServiceOwners(db: Db): map<Id, Id> {
    map k | k in db.services :: db.services[k].deviceId
  }

  function ForwardOwners(db: Db): map<Id, Id> {
    map k | k in db.forwards :: db.forwards[k].ownerId
  }

  lemma OwnersAreCounted(db: Db, id: Id)
    ensures OwnedBy(ServiceOwners(db), id) == OwnServices(db, id)
    ensures OwnedBy(ForwardOwners(db), id) == OwnForwards(db, id)
  {
  }

  lemma TotalOfAll(owner: map<Id, Id>, ids: seq<Id>)
    requires forall i, j :: 0 <= i < j < |ids| ==> ids[i] != ids[j]
    requires forall k :: k in owner ==> owner[k] in ids
    ensures Total(owner, ids) == |owner|
  {
    TotalCounts(owner, ids);
    assert (set k | k in owner && owner[k] in ids) == owner.Keys;
  }

  /** The per-device counts add up to the totals that `LoadCounts` reports. */
  lemma CountsAddUp(db: Db, ids: seq<Id>)
    requires Integrity(db) && Enumerates(ids, db.devices.Keys)
    ensures Total(ServiceOwners(db), ids) == |db.services|
    ensures Total(ForwardOwners(db), ids) == |db.forwards|
  {
    ServiceCountsAddUp(db, ids);
    ForwardCountsAddUp(db, ids);
  }

  lemma ServiceCountsAddUp(db: Db, ids: seq<Id>)
    requires ServicesRefer(db.services, db.devices.Keys) && Enumerates(ids, db.devices.Keys)
    ensures Total(ServiceOwners(db), ids) == |db.services|
  {
    var owner := ServiceOwners(db);
    assert owner.Keys == db.services.Keys;
    TotalOfAll(owner, ids);
    assert |owner| == |owner.Keys| == |db.services.Keys| == |db.services|;
  }

  lemma ForwardCountsAddUp(db: Db, ids: seq<Id>)
    requires ForwardsRefer(db.forwards, db.devices.Keys, db.services.Keys) && Enumerates(ids, db.devices.Keys)
    ensures Total(ForwardOwners(db), ids) == |db.forwards|
  {
    var owner := ForwardOwners(db);
    assert owner.Keys == db.forwards.Keys;
    TotalOfAll(owner, ids);
    assert |owner| == |owner.Keys| == |db.forwards.Keys| == |db.forwards|;
  }

  // ---------------- The bootstrap view ----------------

  function ToRemote(sv: Service): RemoteEntry {
    RemoteEntry(sv.id, sv.publicPort, sv.localAddr, sv.protocol, sv.bindLocal)
  }

  predicate Forwarded(item: ForwardItem) {
    item.forward.enabled && item.serviceEnabled && item.forward.serviceId.text != ""
  }

  function ToLocal(item: ForwardItem): LocalEntry {
    LocalEntry(item.forward.id, item.forward.localPort, item.publicPort, item.protocol)
  }

  /** The remotes of a device's bootstrap: its own enabled services. */
  function RemoteSet(db: Db, deviceId: Id): set<RemoteEntry> {
    set k | k in db.services && db.services[k].deviceId == deviceId && db.services[k].enabled ::
      ToRemote(db.services[k])
  }

  /** Its locals: its own enabled forwards to enabled services. */
  function LocalSet(db: Db, deviceId: Id): set<LocalEntry> {
    set k | k in db.forwards && db.forwards[k].ownerId == deviceId && Forwarded(JoinForward(db, db.forwards[k]))
      :: ToLocal(JoinForward(db, db.forwards[k]))
  }

  lemma {:induction false} ValuesSize<K, V>(m: map<K, V>)
    requires forall j, k :: j in m && k in m && m[j] == m[k] ==> j == k
    ensures |m.Values| == |m|
  {
    if m != map[] {
      var k :| k in m;
      var rest := m - {k};
      ValuesSize(rest);
      forall v ensures v in m.Values <==> v in rest.Values || v == m[k] {
        if v in m.Values {
          var j :| j in m && m[j] == v;
          assert j == k || (j in rest && rest[j] == v);
        }
        if v in rest.Values {
          var j :| j in rest && rest[j] == v;
          assert j in m && m[j] == v;
        }
      }
      assert m.Values == rest.Values + {m[k]} && m[k] !in rest.Values;
      assert m == rest[k := m[k]];
    }
  }

  /** All remote entries together, and all local entries together. */
  function RemoteTotal(db: Db, ids: seq<Id>): nat {
    if ids == [] then 0 else RemoteTotal(db, ids[..|ids| - 1]) + |RemoteSet(db, ids[|ids| - 1])|
  }

  function LocalTotal(db: Db, ids: seq<Id>): nat {
    if ids == [] then 0 else LocalTotal(db, ids[..|ids| - 1]) + |LocalSet(db, ids[|ids| - 1])|
  }

  /** Owners of the rows that bootstraps show. */
  function EnabledOwners(db: Db): map<Id, Id> {
    map k | k in db.services && db.services[k].enabled :: db.services[k].deviceId
  }

  function LeadingOwners(db: Db): map<Id, Id> {
    map k | k in db.forwards && Forwarded(JoinForward(db, db.forwards[k])) :: db.forwards[k].ownerId
  }

  function RemotesByRow(db: Db, d: Id): map<Id, RemoteEntry> {
    map k | k in OwnedBy(EnabledOwners(db), d) :: ToRemote(db.services[k])
  }

  function LocalsByRow(db: Db, d: Id): map<Id, LocalEntry> {
    map k | k in OwnedBy(LeadingOwners(db), d) :: ToLocal(JoinForward(db, db.forwards[k]))
  }

  lemma RemotesOfOne(db: Db, d: Id)
    requires ServicesOk(db.services)
    ensures |RemoteSet(db, d)| == |OwnedBy(EnabledOwners(db), d)|
  {
    var shown := RemotesByRow(db, d);
    ValuesSize(shown);
    forall r ensures r in shown.Values <==> r in RemoteSet(db, d) {
      if r in RemoteSet(db, d) {
        var k :| k in db.services && db.services[k].deviceId == d && db.services[k].enabled
                 && r == ToRemote(db.services[k]);
        assert k in shown && shown[k] == r;
      }
    }
    assert shown.Values == RemoteSet(db, d);
    assert |shown| == |shown.Keys| && shown.Keys == OwnedBy(EnabledOwners(db), d);
  }

  lemma LocalsDiffer(db: Db, d: Id)
    requires ForwardsOk(db.forwards)
    ensures |LocalsByRow(db, d).Values| == |LocalsByRow(db, d)|
  {
    forall k | k in LocalsByRow(db, d) ensures LocalsByRow(db, d)[k].forwardId == k {
      assert JoinForward(db, db.forwards[k]).forward == db.forwards[k];
    }
    ValuesSize(LocalsByRow(db, d));
  }

  lemma LocalsOfOne(db: Db, d: Id)
    requires ForwardsOk(db.forwards)
    ensures |LocalSet(db, d)| == |OwnedBy(LeadingOwners(db), d)|
  {
    var shown := LocalsByRow(db, d);
    LocalsDiffer(db, d);
    forall l ensures l in shown.Values <==> l in LocalSet(db, d) {
      if l in LocalSet(db, d) {
        var k :| k in db.forwards && db.forwards[k].ownerId == d && Forwarded(JoinForward(db, db.forwards[k]))
          && l == ToLocal(JoinForward(db, db.forwards[k]));
        assert k in shown && shown[k] == l;
      }
    }
    assert shown.Values == LocalSet(db, d);
    assert |shown| == |shown.Keys| && shown.Keys == OwnedBy(LeadingOwners(db), d);
  }

  lemma {:induction false} EntriesAreTotals(db: Db, ids: seq<Id>)
    requires ServicesOk(db.services) && ForwardsOk(db.forwards)
    ensures RemoteTotal(db, ids) == Total(EnabledOwners(db), ids)
    ensures LocalTotal(db, ids) == Total(LeadingOwners(db), ids)
  {
    if ids != [] {
      var n := |ids| - 1;
      EntriesAreTotals(db, ids[..n]);
      RemotesOfOne(db, ids[n]);
      LocalsOfOne(db, ids[n]);
    }
  }

  /** The bootstraps of all devices show every enabled service, and every enabled forward that leads somewhere. */
  lemma EntriesAddUp(db: Db, ids: seq<Id>)
    requires Integrity(db) && Enumerates(ids, db.devices.Keys)
    ensures RemoteTotal(db, ids) == |set k | k in db.services && db.services[k].enabled|
    ensures LocalTotal(db, ids) == |set k | k in db.forwards && Forwarded(JoinForward(db, db.forwards[k]))|
  {
    EntriesAreTotals(db, ids);
    TotalOfAll(EnabledOwners(db), ids);
    TotalOfAll(LeadingOwners(db), ids);
    assert EnabledOwners(db).Keys == set k | k in db.services && db.services[k].enabled;
    assert LeadingOwners(db).Keys == set k | k in db.forwards && Forwarded(JoinForward(db, db.forwards[k]));
  }

  ghost predicate Meets(l: LocalEntry, r: RemoteEntry) {
    r.publicPort == l.remotePublicPort && r.protocol == l.protocol
  }

  /** Each local entry of any device ends at exactly one remote entry, of exactly one device. */
  lemma MeshCloses(db: Db, deviceId: Id, l: LocalEntry) returns (far: Id, r: RemoteEntry)
    requires Integrity(db) && l in LocalSet(db, deviceId)
    ensures far in db.devices && r in RemoteSet(db, far) && Meets(l, r)
    ensures forall d, r' :: r' in RemoteSet(db, d) && r'.publicPort == l.remotePublicPort ==> d == far && r' == r
  {
    var k :| k in db.forwards && db.forwards[k].ownerId == deviceId && Forwarded(JoinForward(db, db.forwards[k]))
      && l == ToLocal(JoinForward(db, db.forwards[k]));
    var s := db.forwards[k].serviceId;
    assert s in db.services;
    far, r := db.services[s].deviceId, ToRemote(db.services[s]);
    forall d, r' | r' in RemoteSet(db, d) && r'.publicPort == l.remotePublicPort ensures d == far && r' == r {
      var j :| j in db.services && db.services[j].deviceId == d && db.services[j].enabled
               && r' == ToRemote(db.services[j]);
      assert db.services[j].publicPort == db.services[s].publicPort;
    }
  }

  // ---------------- From bootstrap to tunnel rules ----------------

  /** Column values that only the handlers guarantee. */
  ghost predicate ServiceValues(t: Services) {
    forall k :: k in t ==> PortInRange(t[k].publicPort) && IsNormal(t[k].localAddr)
  }

  ghost predicate ForwardValues(t: Forwards) {
    forall k :: k in t ==> PortInRange(t[k].localPort)
  }

  ghost predicate ValuesOk(db: Db) {
    ServiceValues(db.services) && ForwardValues(db.forwards)
  }

  function RemoteRule(e: RemoteEntry): Remote {
    Remote(e.publicPort, e.localAddr, e.protocol, e.bindLocal)
  }

  function LocalRule(e: LocalEntry): Local {
    Local(e.localPort, e.remotePublicPort, e.protocol)
  }

  ghost predicate Remotes(b: Bootstrap, db: Db, deviceId: Id) {
    Enumerates(b.remotes, RemoteSet(db, deviceId))
  }

  ghost predicate Locals(b: Bootstrap, db: Db, deviceId: Id) {
    Enumerates(b.locals, LocalSet(db, deviceId))
  }

  function RemoteRules(b: Bootstrap): seq<Remote> {
    seq(|b.remotes|, i requires 0 <= i < |b.remotes| => RemoteRule(b.remotes[i]))
  }

  function LocalRules(b: Bootstrap): seq<Local> {
    seq(|b.locals|, i requires 0 <= i < |b.locals| => LocalRule(b.locals[i]))
  }

  /** `bootToSpecs`: column by column, in order. */
  method BootToSpecs(b: Bootstrap) returns (remotes: seq<Remote>, locals: seq<Local>)
    ensures |remotes| == |b.remotes| && |locals| == |b.locals|
    ensures forall i :: 0 <= i < |remotes| ==>
      && remotes[i].publicPort == b.remotes[i].publicPort && remotes[i].localAddr == b.remotes[i].localAddr
      && remotes[i].protocol == b.remotes[i].protocol && remotes[i].bindLocal == b.remotes[i].bindLocal
    ensures forall i :: 0 <= i < |locals| ==>
      && locals[i].localPort == b.locals[i].localPort && locals[i].protocol == b.locals[i].protocol
      && locals[i].remotePublicPort == b.locals[i].remotePublicPort
    ensures remotes == RemoteRules(b) && locals == LocalRules(b)
  {
    remotes, locals := [], [];
    for i := 0 to |b.remotes|
      invariant remotes == RemoteRules(b)[..i]
    {
      remotes := remotes + [RemoteRule(b.remotes[i])];
    }
    for i := 0 to |b.locals|
      invariant locals == LocalRules(b)[..i]
    {
      locals := locals + [LocalRule(b.locals[i])];
    }
  }

  lemma RemoteEntriesSound(db: Db, deviceId: Id)
    requires Integrity(db) && ValuesOk(db)
    ensures forall e :: e in RemoteSet(db, deviceId) ==> Sound(Reverse(RemoteRule(e))) && e.protocol in {"tcp", "udp"}
    ensures forall a, b ::
      a in RemoteSet(db, deviceId) && b in RemoteSet(db, deviceId) && a.publicPort == b.publicPort ==> a == b
  {
    LowerKnown();
    forall e | e in RemoteSet(db, deviceId) ensures Sound(Reverse(RemoteRule(e))) && e.protocol in {"tcp", "udp"} {
      var k :| k in db.services && e == ToRemote(db.services[k]);
      NormalEndsInDigit(e.localAddr);
    }
    forall a, b | a in RemoteSet(db, deviceId) && b in RemoteSet(db, deviceId) && a.publicPort == b.publicPort
      ensures a == b
    {
      var j :| j in db.services && a == ToRemote(db.services[j]);
      var k :| k in db.services && b == ToRemote(db.services[k]);
    }
  }

  lemma LocalEntriesSound(db: Db, deviceId: Id)
    requires Integrity(db) && ValuesOk(db)
    ensures forall e :: e in LocalSet(db, deviceId) ==> Sound(Direct(LocalRule(e))) && e.protocol in {"tcp", "udp"}
  {
    LowerKnown();
    forall e | e in LocalSet(db, deviceId) ensures Sound(Direct(LocalRule(e))) && e.protocol in {"tcp", "udp"} {
      var k :| k in db.forwards && e == ToLocal(JoinForward(db, db.forwards[k]));
      assert db.forwards[k].serviceId in db.services;
    }
  }

  lemma LocalEntriesApart(db: Db, deviceId: Id)
    requires ForwardsOk(db.forwards)
    ensures forall a, b ::
      a in LocalSet(db, deviceId) && b in LocalSet(db, deviceId) && a.localPort == b.localPort ==> a == b
  {
    forall a, b | a in LocalSet(db, deviceId) && b in LocalSet(db, deviceId) && a.localPort == b.localPort
      ensures a == b
    {
      var j :| j in db.forwards && db.forwards[j].ownerId == deviceId && a == ToLocal(JoinForward(db, db.forwards[j]));
      var k :| k in db.forwards && db.forwards[k].ownerId == deviceId && b == ToLocal(JoinForward(db, db.forwards[k]));
      var x, y := JoinForward(db, db.forwards[j]), JoinForward(db, db.forwards[k]);
      assert a == ToLocal(x) && b == ToLocal(y);
      assert ToLocal(x).localPort == x.forward.localPort && ToLocal(y).localPort == y.forward.localPort;
      assert x.forward == db.forwards[j] && y.forward == db.forwards[k];
      assert SameLocalPort(db.forwards[j], db.forwards[k]);
    }
  }

  lemma LowerKnown()
    ensures KnownProtocol("tcp") && KnownProtocol("udp")
  {
    assert Lower("tcp") == "tcp" && Lower("udp") == "udp";
  }
}
