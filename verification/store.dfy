/** The store: a class over the tables, one method per statement or query of the Go code. */
module Store {
  import opened Wrappers
  import opened Timestamps
  import opened Sorting
  import opened Schema
  import opened Bootstrap
  import Text

  predicate Earlier(a: Time, b: Time) {
    Text.Le(Stamp(a), Stamp(b))
  }

  predicate ServicesByCreation(a: Service, b: Service) {
    Earlier(a.createdAt, b.createdAt)
  }

  predicate ItemsByCreation(a: ServiceItem, b: ServiceItem) {
    Earlier(a.service.createdAt, b.service.createdAt)
  }

  predicate ForwardsByCreation(a: ForwardItem, b: ForwardItem) {
    Earlier(a.forward.createdAt, b.forward.createdAt)
  }

  predicate ForwardsByPort(a: ForwardItem, b: ForwardItem) {
    a.forward.localPort <= b.forward.localPort
  }

  predicate DevicesByCreation(a: Device, b: Device) {
    Earlier(a.createdAt, b.createdAt)
  }

  lemma TextOrders()
    ensures forall a, b :: Earlier(a, b) || Earlier(b, a)
    ensures forall a, b, c :: Earlier(a, b) && Earlier(b, c) ==> Earlier(a, c)
  {
    forall a: Time, b: Time ensures Earlier(a, b) || Earlier(b, a) {
      Text.LtTotal(Stamp(a), Stamp(b));
    }
    forall a: Time, b: Time, c: Time | Earlier(a, b) && Earlier(b, c) ensures Earlier(a, c) {
      Text.LeTransitive(Stamp(a), Stamp(b), Stamp(c));
    }
  }

  /** One token with this hash, so far unused, is used now by this device; no other token changes. */
  ghost predicate OneSpent(before: Tokens, after: Tokens, hash: Digest, now: Time, user: Id) {
    exists k :: k in before && before[k].hash == hash && before[k].usedAt.None?
                && after == before[k := before[k].(usedAt := Some(now), usedBy := Some(user))]
  }

  datatype Counts = Counts(
    devices: nat, online: nat, services: nat, enabledServices: nat, forwards: nat, enabledForwards: nat)

  class Store {
    var devices: Devices
    var services: Services
    var forwards: Forwards
    var tokens: Tokens
    var alerts: map<Id, Time>

    function View(): Db
      reads this
    {
      Db(devices, services, forwards, tokens, alerts)
    }

    constructor ()
      ensures View() == EMPTY
    {
      devices, services, forwards, tokens, alerts := map[], map[], map[], map[], map[];
    }

    // ---------------- Tokens and devices ----------------

    method CreateEnrollmentToken(t: Token) returns (outcome: Outcome)
      modifies `tokens
      ensures outcome == UniqueViolation <==>
        t.id in old(tokens) || exists k :: k in old(tokens) && old(tokens)[k].hash == t.hash
      ensures outcome == UniqueViolation ==> tokens == old(tokens)
      ensures outcome != UniqueViolation ==>
        outcome == Done && tokens == old(tokens)[t.id := t.(usedAt := None, usedBy := None)]
      ensures Reply(View(), outcome) == Execute(old(View()), InsertToken(t))
    {
      if t.id in tokens || TokenHashTaken(View(), t.hash) {
        return UniqueViolation;
      }
      tokens := tokens[t.id := t.(usedAt := None, usedBy := None)];
      return Done;
    }

    method GetEnrollmentTokenByHash(hash: Digest) returns (found: Option<Token>)
      ensures found.None? ==> !TokenHashTaken(View(), hash)
      ensures found.Some? ==> found.value in tokens.Values && found.value.hash == hash
    {
      if t :| t in tokens.Values && t.hash == hash {
        found := Some(t);
      } else {
        assert forall k :: k in tokens ==> tokens[k] in tokens.Values;
        found := None;
      }
    }

    /** One transaction: read the token, insert the device, mark the token used; or nothing. */
    method ConsumeEnrollmentToken(hash: Digest, d: Device, now: Time) returns (outcome: Outcome)
      requires TokensOk(tokens)
      modifies `tokens, `devices
      ensures outcome == Done ==> OneSpent(old(tokens), tokens, hash, now, d.id) && d.id !in old(devices)
      ensures outcome == Done ==>
        devices == old(devices)[d.id := d.(lastSeen := None, sshPubkey := "", sshUsername := "", sshLockedAt := None)]
      ensures outcome != Done ==> tokens == old(tokens) && devices == old(devices)
      ensures Reply(View(), outcome) == Execute(old(View()), ConsumeToken(hash, d, now))
    {
      var t := GetEnrollmentTokenByHash(hash);
      ghost var spent := map k | k in tokens && tokens[k].hash == hash ::
        tokens[k].(usedAt := Some(now), usedBy := Some(d.id));
      if t.None? {
        assert spent == map[];
        return NotFound;
      }
      assert t.value.id in spent;
      if t.value.usedAt.Some? {
        return NotFound;
      }
      if d.id in devices || DeviceNameTaken(View(), d.name) {
        return UniqueViolation;
      }
      devices := devices[d.id := FreshDevice(d)];
      assert tokens + spent == tokens[t.value.id := t.value.(usedAt := Some(now), usedBy := Some(d.id))];
      tokens := tokens[t.value.id := t.value.(usedAt := Some(now), usedBy := Some(d.id))];
      return Done;
    }

    method GetDeviceByID(id: Id) returns (found: Option<Device>)
      ensures found == if id in devices then Some(devices[id]) else None
    {
      found := if id in devices then Some(devices[id]) else None;
    }

    method ListDevices() returns (rows: seq<Device>)
      ensures forall i, j :: 0 <= i < j < |rows| ==> !Text.Lt(Stamp(rows[j].createdAt), Stamp(rows[i].createdAt))
      ensures Enumerates(rows, devices.Values) && Ordered(rows, DevicesByCreation)
    {
      TextOrders();
      rows := Select(devices.Values, DevicesByCreation);
    }

    method UpdateDeviceStatus(id: Id, status: Status, seen: Time) returns (outcome: Outcome)
      modifies `devices
      ensures outcome == if id in old(devices) then Done else NotFound
      ensures devices == if id !in old(devices) then old(devices)
                         else old(devices)[id := old(devices)[id].(status := status, lastSeen := Some(seen))]
      ensures Reply(View(), outcome) == Execute(old(View()), SetStatus(id, status, seen))
    {
      if id !in devices {
        return NotFound;
      }
      devices := devices[id := devices[id].(status := status, lastSeen := Some(seen))];
      return Done;
    }

    method MarkStaleDevicesOffline(cutoff: Time) returns (n: nat)
      modifies `devices
      ensures devices.Keys == old(devices.Keys) && forall k :: k in devices ==>
        && devices[k] == old(devices)[k].(status := devices[k].status)
        && (devices[k].status == Online <==> old(devices)[k].status == Online && !IsStale(old(devices)[k], cutoff))
      ensures View() == Execute(old(View()), MarkStale(cutoff)).db
      ensures n == |set k | k in old(devices) && IsStale(old(devices)[k], cutoff)|
    {
      var stale := set k | k in devices && IsStale(devices[k], cutoff);
      devices := map k | k in devices ::
        if IsStale(devices[k], cutoff) then devices[k].(status := Offline) else devices[k];
      n := |stale|;
    }

    method SetDeviceSSH(id: Id, pubkey: string, username: string) returns (outcome: Outcome)
      modifies `devices
      ensures outcome == if id in old(devices) then Done else NotFound
      ensures devices == if id !in old(devices) then old(devices)
                         else old(devices)[id := old(devices)[id].(sshPubkey := pubkey, sshUsername := username)]
      ensures Reply(View(), outcome) == Execute(old(View()), SetSsh(id, pubkey, username))
    {
      if id !in devices {
        return NotFound;
      }
      devices := devices[id := devices[id].(sshPubkey := pubkey, sshUsername := username)];
      return Done;
    }

    method MarkDeviceSSHLocked(id: Id, at: Time) returns (outcome: Outcome)
      modifies `devices
      ensures outcome == if id in old(devices) then Done else NotFound
      ensures devices == if id !in old(devices) then old(devices)
                         else old(devices)[id := old(devices)[id].(sshLockedAt := Some(at), status := Offline)]
      ensures Reply(View(), outcome) == Execute(old(View()), MarkLocked(id, at))
    {
      if id !in devices {
        return NotFound;
      }
      devices := devices[id := devices[id].(sshLockedAt := Some(at), status := Offline)];
      return Done;
    }

    /** Deletes the row and, by cascade, what refers to it. */
    method DeleteDevice(id: Id) returns (outcome: Outcome)
      modifies this
      ensures outcome == if id in old(devices) then Done else NotFound
      ensures devices == old(devices) - {id}
      ensures Reply(View(), outcome) == Execute(old(View()), Statement.DeleteDevice(id))
    {
      if id !in devices {
        return NotFound;
      }
      var gone := OwnServices(View(), id);
      var owned := OwnForwards(View(), id);
      var dangling := ForwardsTo(View(), gone);
      devices := devices - {id};
      services := services - gone;
      forwards := forwards - owned - dangling;
      tokens := Unlink(tokens, id);
      alerts := alerts - {id};
      return Done;
    }

    // ---------------- Services and forwards ----------------

    method CreateService(sv: Service) returns (outcome: Outcome)
      modifies `services
      ensures outcome == Done <==> services == old(services)[sv.id := sv.(lastProbeAt := None, lastProbeOk := false)]
                                   && sv.id !in old(services)
      ensures outcome != Done ==> services == old(services)
      ensures Reply(View(), outcome) == Execute(old(View()), InsertService(sv))
    {
      if sv.protocol !in {"tcp", "udp"} {
        return CheckViolation;
      }
      if sv.id in services || sv.publicPort in UsedPorts(View()) || ServiceNameTaken(View(), sv.deviceId, sv.name) {
        return UniqueViolation;
      }
      if sv.deviceId !in devices {
        return ForeignKeyViolation;
      }
      services := services[sv.id := sv.(lastProbeAt := None, lastProbeOk := false)];
      return Done;
    }

    method GetService(id: Id) returns (found: Option<Service>)
      ensures found == if id in services then Some(services[id]) else None
    {
      found := if id in services then Some(services[id]) else None;
    }

    method UsedPublicPorts() returns (ports: seq<int>)
      ensures forall p :: p in ports <==> p in UsedPorts(View())
    {
      ports := Scan(UsedPorts(View()));
    }

    method SetServiceEnabled(id: Id, enabled: bool) returns (outcome: Outcome)
      modifies `services
      ensures outcome == if id in old(services) then Done else NotFound
      ensures services == if id !in old(services) then old(services)
                          else old(services)[id := old(services)[id].(enabled := enabled)]
      ensures Reply(View(), outcome) == Execute(old(View()), Statement.SetServiceEnabled(id, enabled))
    {
      if id !in services {
        return NotFound;
      }
      services := services[id := services[id].(enabled := enabled)];
      return Done;
    }

    method DeleteService(id: Id) returns (outcome: Outcome)
      modifies `services, `forwards
      ensures outcome == if id in old(services) then Done else NotFound
      ensures services == old(services) - {id}
      ensures forall k :: k in forwards <==>
        k in old(forwards) && (id in old(services) ==> old(forwards)[k].serviceId != id)
      ensures forall k :: k in forwards ==> forwards[k] == old(forwards)[k]
      ensures Reply(View(), outcome) == Execute(old(View()), Statement.DeleteService(id))
    {
      if id !in services {
        return NotFound;
      }
      forwards := forwards - ForwardsTo(View(), {id});
      services := services - {id};
      return Done;
    }

    method CreateForward(f: Forward) returns (outcome: Outcome)
      modifies `forwards
      ensures outcome == Done <==> forwards == old(forwards)[f.id := f] && f.id !in old(forwards)
      ensures outcome != Done ==> forwards == old(forwards)
      ensures Reply(View(), outcome) == Execute(old(View()), InsertForward(f))
    {
      if f.id in forwards || LocalPortTaken(View(), f.ownerId, f.localPort) {
        return UniqueViolation;
      }
      if f.ownerId !in devices || f.serviceId !in services {
        return ForeignKeyViolation;
      }
      forwards := forwards[f.id := f];
      return Done;
    }

    method GetForward(id: Id) returns (found: Option<Forward>)
      ensures found == if id in forwards then Some(forwards[id]) else None
    {
      found := if id in forwards then Some(forwards[id]) else None;
    }

    method SetForwardEnabled(id: Id, enabled: bool) returns (outcome: Outcome)
      modifies `forwards
      ensures outcome == if id in old(forwards) then Done else NotFound
      ensures forwards == if id !in old(forwards) then old(forwards)
                          else old(forwards)[id := old(forwards)[id].(enabled := enabled)]
      ensures Reply(View(), outcome) == Execute(old(View()), Statement.SetForwardEnabled(id, enabled))
    {
      if id !in forwards {
        return NotFound;
      }
      forwards := forwards[id := forwards[id].(enabled := enabled)];
      return Done;
    }

    method DeleteForward(id: Id) returns (outcome: Outcome)
      modifies `forwards
      ensures outcome == if id in old(forwards) then Done else NotFound
      ensures forwards == old(forwards) - {id}
      ensures Reply(View(), outcome) == Execute(old(View()), Statement.DeleteForward(id))
    {
      if id !in forwards {
        return NotFound;
      }
      forwards := forwards - {id};
      return Done;
    }

    // ---------------- Listings ----------------

    method ListServicesByDevice(deviceId: Id) returns (rows: seq<Service>)
      ensures Enumerates(rows, set k | k in OwnServices(View(), deviceId) :: services[k])
      ensures forall i, j :: 0 <= i < j < |rows| ==> !Text.Lt(Stamp(rows[j].createdAt), Stamp(rows[i].createdAt))
    {
      TextOrders();
      rows := Select(set k | k in OwnServices(View(), deviceId) :: services[k], ServicesByCreation);
    }

    method ListServicesJoined(filter: Id) returns (rows: seq<ServiceItem>)
      ensures forall it :: it in rows <==> ItemAsked(View(), filter, it)
      ensures forall i, j :: 0 <= i < j < |rows| ==>
        !Text.Lt(Stamp(rows[j].service.createdAt), Stamp(rows[i].service.createdAt))
      ensures Enumerates(rows, ServiceItems(View(), filter)) && Ordered(rows, ItemsByCreation)
    {
      TextOrders();
      rows := Select(ServiceItems(View(), filter), ItemsByCreation);
      ItemsByRow(View(), filter);
    }

    method ListForwardsJoined(filter: Id) returns (rows: seq<ForwardItem>)
      ensures Enumerates(rows, ForwardItems(View(), filter))
      ensures filter.text == "" ==> forall i, j :: 0 <= i < j < |rows| ==>
        !Text.Lt(Stamp(rows[j].forward.createdAt), Stamp(rows[i].forward.createdAt))
      ensures filter.text != "" ==> forall i, j :: 0 <= i < j < |rows| ==>
        rows[i].forward.localPort <= rows[j].forward.localPort
    {
      if filter.text == "" {
        TextOrders();
        rows := Select(ForwardItems(View(), filter), ForwardsByCreation);
      } else {
        rows := Select(ForwardItems(View(), filter), ForwardsByPort);
      }
    }

    /** One listing with both counts per device; the counts add up to the table sizes. */
    method ListDevicesWithCounts() returns (rows: seq<DeviceCounts>)
      requires Integrity(View())
      ensures |rows| == |devices| && forall i :: 0 <= i < |rows| ==> rows[i] == CountDevice(View(), rows[i].device)
      ensures forall d :: d in devices.Values <==> exists i :: 0 <= i < |rows| && rows[i].device == d
      ensures SumServices(rows) == |services| && SumForwards(rows) == |forwards|
      ensures Listing(View(), rows)
    {
      var ds := ListDevices();
      rows := [];
      for n := 0 to |ds|
        invariant |rows| == n
        invariant forall i :: 0 <= i < n ==> rows[i] == CountDevice(View(), ds[i])
      {
        rows := rows + [CountDevice(View(), ds[n])];
      }
      CountedOnce(View(), ds, rows);
      assert forall i :: 0 <= i < |rows| ==> rows[i].device == ds[i];
      assert Lists(View(), ds, rows);
    }

    /** The totals are those of the listing and of the bootstraps: devices, services and forwards as listed,
    enabled services as remote entries, enabled forwards as local entries and those that lead nowhere now. */
    method LoadCounts() returns (c: Counts)
      requires Integrity(View())
      ensures forall rows :: Listing(View(), rows) ==>
        c.devices == |rows| && c.services == SumServices(rows) && c.forwards == SumForwards(rows)
      ensures c.online == c.devices - |set k | k in devices && devices[k].status == Offline|
      ensures forall ids :: Enumerates(ids, devices.Keys) ==> c.enabledServices == RemoteTotal(View(), ids)
      ensures forall ids :: Enumerates(ids, devices.Keys) ==>
        c.enabledForwards == LocalTotal(View(), ids) + |LeadNowhere(View())|
    {
      var online := set k | k in devices && devices[k].status == Online;
      c := Counts(|devices|, |online|,
        |services|, |set k | k in services && services[k].enabled|,
        |forwards|, |set k | k in forwards && forwards[k].enabled|);
      forall rows | Listing(View(), rows)
        ensures c.devices == |rows| && c.services == SumServices(rows) && c.forwards == SumForwards(rows)
      {
        ListingAddsUp(View(), rows);
      }
      StatusesAddUp(devices, online);
      forall ids | Enumerates(ids, devices.Keys)
        ensures c.enabledServices == RemoteTotal(View(), ids)
        ensures c.enabledForwards == LocalTotal(View(), ids) + |LeadNowhere(View())|
      {
        EntriesAddUp(View(), ids);
        EnabledForwardsAddUp(View());
      }
    }

    method ListSSHLockedBefore(cutoff: Time) returns (rows: seq<Device>)
      ensures Enumerates(rows, set k | k in devices && LockedBefore(devices[k], cutoff) :: devices[k])
    {
      rows := Scan(set k | k in devices && LockedBefore(devices[k], cutoff) :: devices[k]);
    }

    // ---------------- Alert state ----------------

    method MarkDeviceAlerted(id: Id, at: Time) returns (outcome: Outcome)
      modifies `alerts
      ensures outcome == if id in devices then Done else ForeignKeyViolation
      ensures alerts == if id in devices then old(alerts)[id := at] else old(alerts)
      ensures Reply(View(), outcome) == Execute(old(View()), MarkAlerted(id, at))
    {
      if id !in devices {
        return ForeignKeyViolation;
      }
      alerts := alerts[id := at];
      return Done;
    }

    method ClearDeviceAlert(id: Id)
      modifies `alerts
      ensures alerts == old(alerts) - {id}
      ensures View() == Execute(old(View()), ClearAlert(id)).db
    {
      alerts := alerts - {id};
    }

    method IsDeviceAlerted(id: Id) returns (alerted: bool)
      ensures alerted <==> id in alerts
    {
      alerted := id in alerts;
    }
  }

  /** A stored service of the device asked for, or of any, with its device's name. */
  ghost predicate ItemAsked(db: Db, filter: Id, it: ServiceItem) {
    && it.service in db.services.Values && (filter.text == "" || it.service.deviceId == filter)
    && it.service.deviceId in db.devices && it.deviceName == db.devices[it.service.deviceId].name.text
  }

  lemma ItemsByRow(db: Db, filter: Id)
    ensures forall it :: it in ServiceItems(db, filter) <==> ItemAsked(db, filter, it)
  {
    forall it | ItemAsked(db, filter, it) ensures it in ServiceItems(db, filter) {
      var k :| k in db.services && db.services[k] == it.service;
      assert Asks(filter, db.services[k].deviceId);
    }
  }

  /** What `ListDevicesWithCounts` returns, in some order. */
  ghost predicate Listing(db: Db, rows: seq<DeviceCounts>) {
    exists ds :: Lists(db, ds, rows)
  }

  ghost predicate Lists(db: Db, ds: seq<Device>, rows: seq<DeviceCounts>) {
    && Enumerates(ds, db.devices.Values) && |rows| == |ds|
    && forall i :: 0 <= i < |rows| ==> rows[i] == CountDevice(db, ds[i])
  }

  /** Enabled forwards whose service is disabled. */
  function LeadNowhere(db: Db): set<Id> {
    set k | k in db.forwards && db.forwards[k].enabled && !Forwarded(JoinForward(db, db.forwards[k]))
  }

  lemma ListingAddsUp(db: Db, rows: seq<DeviceCounts>)
    requires Integrity(db) && Listing(db, rows)
    ensures |rows| == |db.devices| && SumServices(rows) == |db.services| && SumForwards(rows) == |db.forwards|
  {
    var ds :| Lists(db, ds, rows);
    CountedOnce(db, ds, rows);
  }

  lemma StatusesAddUp(devices: Devices, online: set<Id>)
    requires online == set k | k in devices && devices[k].status == Online
    ensures |online| == |devices| - |set k | k in devices && devices[k].status == Offline|
  {
    var offline := set k | k in devices && devices[k].status == Offline;
    assert online + offline == devices.Keys && online !! offline;
    assert |devices.Keys| == |devices|;
  }

  lemma EnabledForwardsAddUp(db: Db)
    ensures |set k | k in db.forwards && db.forwards[k].enabled|
      == |set k | k in db.forwards && Forwarded(JoinForward(db, db.forwards[k]))| + |LeadNowhere(db)|
  {
    var leading := set k | k in db.forwards && Forwarded(JoinForward(db, db.forwards[k]));
    assert (set k | k in db.forwards && db.forwards[k].enabled) == leading + LeadNowhere(db);
    assert leading !! LeadNowhere(db);
  }

  function SumServices(rows: seq<DeviceCounts>): nat {
    if rows == [] then 0 else SumServices(rows[..|rows| - 1]) + rows[|rows| - 1].services
  }

  function SumForwards(rows: seq<DeviceCounts>): nat {
    if rows == [] then 0 else SumForwards(rows[..|rows| - 1]) + rows[|rows| - 1].forwards
  }

  function Ids(ds: seq<Device>): seq<Id> {
    seq(|ds|, i requires 0 <= i < |ds| => ds[i].id)
  }

  lemma {:induction false} SumsAreTotals(db: Db, ds: seq<Device>, rows: seq<DeviceCounts>)
    requires |rows| == |ds| && forall i :: 0 <= i < |rows| ==> rows[i] == CountDevice(db, ds[i])
    ensures SumServices(rows) == Total(ServiceOwners(db), Ids(ds))
    ensures SumForwards(rows) == Total(ForwardOwners(db), Ids(ds))
  {
    if ds != [] {
      var n := |ds| - 1;
      SumsAreTotals(db, ds[..n], rows[..n]);
      assert Ids(ds)[..n] == Ids(ds[..n]);
      OwnersAreCounted(db, ds[n].id);
    }
  }

  lemma IdsEnumerate(db: Db, ds: seq<Device>)
    requires DevicesOk(db.devices) && Enumerates(ds, db.devices.Values)
    ensures Enumerates(Ids(ds), db.devices.Keys)
  {
    forall id ensures id in Ids(ds) <==> id in db.devices.Keys {
      if id in db.devices {
        assert db.devices[id] in ds;
        var i :| 0 <= i < |ds| && ds[i] == db.devices[id];
        assert Ids(ds)[i] == id;
      }
      if id in Ids(ds) {
        var i :| 0 <= i < |ds| && Ids(ds)[i] == id;
        assert ds[i] in ds;
      }
    }
    forall i, j | 0 <= i < j < |ds| ensures Ids(ds)[i] != Ids(ds)[j] {
      assert ds[i] in ds && ds[j] in ds;
    }
  }

  lemma CountedOnce(db: Db, ds: seq<Device>, rows: seq<DeviceCounts>)
    requires Integrity(db) && Enumerates(ds, db.devices.Values)
    requires |rows| == |ds| && forall i :: 0 <= i < |rows| ==> rows[i] == CountDevice(db, ds[i])
    ensures SumServices(rows) == |db.services| && SumForwards(rows) == |db.forwards| && |rows| == |db.devices|
  {
    IdsEnumerate(db, ds);
    SumsAreTotals(db, ds, rows);
    CountsAddUp(db, Ids(ds));
    EnumerationLength(Ids(ds), db.devices.Keys);
    assert |db.devices.Keys| == |db.devices|;
  }

  lemma {:induction false} EnumerationLength<T(!new)>(xs: seq<T>, s: set<T>)
    requires Enumerates(xs, s)
    ensures |xs| == |s|
  {
    if xs != [] {
      var n := |xs| - 1;
      assert xs[n] in xs && xs == xs[..n] + [xs[n]];
      assert forall x :: x in xs[..n] <==> x in s - {xs[n]};
      EnumerationLength(xs[..n], s - {xs[n]});
    }
  }
}
