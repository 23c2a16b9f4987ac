/** The control-plane tables, their constraints, and what each SQL statement does to them.

SQLite runs on one connection, so a statement (or a transaction) is one atomic step. A statement
that violates a constraint changes nothing.
*/
module Schema {
  import opened Wrappers
  import opened Timestamps
  import Text

  /** Random row identifiers. */
  datatype Id = Id(text: string)

  datatype Name = Name(text: string)

  datatype Secret = Secret(text: string)

  /** The SHA-256 digest of a secret, taken as injective. */
  datatype Digest = Digest(of: string)

  datatype Status = Offline | Online

  datatype Device = Device(
    id: Id, name: Name, secret: Secret, status: Status, createdAt: Time, lastSeen: Option<Time>,
    sshPubkey: string, sshUsername: string, sshLockedAt: Option<Time>)

  datatype Service = Service(
    id: Id, deviceId: Id, name: Name, protocol: string, localAddr: string, publicPort: int,
    enabled: bool, bindLocal: bool, createdAt: Time, lastProbeAt: Option<Time>, lastProbeOk: bool)

  datatype Forward = Forward(
    id: Id, ownerId: Id, serviceId: Id, localPort: int, enabled: bool, createdAt: Time)

  datatype Token = Token(
    id: Id, hash: Digest, expiresAt: Time, usedAt: Option<Time>, usedBy: Option<Id>, createdAt: Time)

  datatype Db = Db(
    devices: map<Id, Device>, services: map<Id, Service>, forwards: map<Id, Forward>,
    tokens: map<Id, Token>, alerts: map<Id, Time>)

  const EMPTY := Db(map[], map[], map[], map[], map[])

  datatype Outcome = Done | NotFound | UniqueViolation | ForeignKeyViolation | CheckViolation

  datatype Reply = Reply(db: Db, outcome: Outcome)

  // ---------------- Constraints ----------------

  type Devices = map<Id, Device>
  type Services = map<Id, Service>
  type Forwards = map<Id, Forward>
  type Tokens = map<Id, Token>

  /** PRIMARY KEY and UNIQUE(name). */
  ghost predicate DevicesOk(t: Devices) {
    && (forall k :: k in t ==> t[k].id == k)
    && (forall a, b :: a in t && b in t && t[a].name == t[b].name ==> a == b)
  }

  ghost predicate SameName(a: Service, b: Service) {
    a.deviceId == b.deviceId && a.name == b.name
  }

  /** PRIMARY KEY, UNIQUE(public_port), UNIQUE(device_id, name) and the CHECK on protocol. */
  ghost predicate ServicesOk(t: Services) {
    && (forall k :: k in t ==> t[k].id == k && t[k].protocol in {"tcp", "udp"})
    && (forall a, b :: a in t && b in t && t[a].publicPort == t[b].publicPort ==> a == b)
    && (forall a, b :: a in t && b in t && SameName(t[a], t[b]) ==> a == b)
  }

  ghost predicate SameLocalPort(a: Forward, b: Forward) {
    a.ownerId == b.ownerId && a.localPort == b.localPort
  }

  /** PRIMARY KEY and UNIQUE(owner_device_id, local_port). */
  ghost predicate ForwardsOk(t: Forwards) {
    && (forall k :: k in t ==> t[k].id == k)
    && (forall a, b :: a in t && b in t && SameLocalPort(t[a], t[b]) ==> a == b)
  }

  /** PRIMARY KEY and UNIQUE(token_hash). */
  ghost predicate TokensOk(t: Tokens) {
    && (forall k :: k in t ==> t[k].id == k)
    && (forall a, b :: a in t && b in t && t[a].hash == t[b].hash ==> a == b)
  }

  ghost predicate ServicesRefer(t: Services, devices: set<Id>) {
    forall k :: k in t ==> t[k].deviceId in devices
  }

  ghost predicate ForwardsRefer(t: Forwards, devices: set<Id>, services: set<Id>) {
    forall k :: k in t ==> t[k].ownerId in devices && t[k].serviceId in services
  }

  ghost predicate TokensRefer(t: Tokens, devices: set<Id>) {
    forall k :: k in t && t[k].usedBy.Some? ==> t[k].usedBy.value in devices
  }

  ghost predicate Integrity(db: Db) {
    && DevicesOk(db.devices) && ServicesOk(db.services) && ForwardsOk(db.forwards) && TokensOk(db.tokens)
    && ServicesRefer(db.services, db.devices.Keys)
    && ForwardsRefer(db.forwards, db.devices.Keys, db.services.Keys)
    && TokensRefer(db.tokens, db.devices.Keys)
    && db.alerts.Keys <= db.devices.Keys
  }

  // ---------------- Statements ----------------

  datatype Statement =
    | InsertToken(token: Token)
    | ConsumeToken(hash: Digest, device: Device, now: Time)
    | SetStatus(id: Id, status: Status, lastSeen: Time)
    | MarkStale(cutoff: Time)
    | SetSsh(id: Id, pubkey: string, username: string)
    | MarkLocked(id: Id, at: Time)
    | DeleteDevice(id: Id)
    | InsertService(service: Service)
    | SetServiceEnabled(id: Id, enabled: bool)
    | RecordProbe(id: Id, ok: bool, at: Time)
    | DeleteService(id: Id)
    | InsertForward(forward: Forward)
    | SetForwardEnabled(id: Id, enabled: bool)
    | DeleteForward(id: Id)
    | MarkAlerted(id: Id, at: Time)
    | ClearAlert(id: Id)

  function UsedPorts(db: Db): set<int> {
    set k | k in db.services :: db.services[k].publicPort
  }

  predicate TokenHashTaken(db: Db, hash: Digest) {
    exists k :: k in db.tokens && db.tokens[k].hash == hash
  }

  predicate DeviceNameTaken(db: Db, name: Name) {
    exists k :: k in db.devices && db.devices[k].name == name
  }

  predicate ServiceNameTaken(db: Db, deviceId: Id, name: Name) {
    exists k :: k in db.services && db.services[k].deviceId == deviceId && db.services[k].name == name
  }

  predicate LocalPortTaken(db: Db, ownerId: Id, localPort: int) {
    exists k :: k in db.forwards && db.forwards[k].ownerId == ownerId && db.forwards[k].localPort == localPort
  }

  function AddToken(db: Db, t: Token): Reply {
    if t.id in db.tokens || TokenHashTaken(db, t.hash) then Reply(db, UniqueViolation)
    else Reply(db.(tokens := db.tokens[t.id := t.(usedAt := None, usedBy := None)]), Done)
  }

  /** The new row as the INSERT of `ConsumeEnrollmentToken` writes it: SSH columns take their defaults. */
  function FreshDevice(d: Device): Device {
    d.(lastSeen := None, sshPubkey := "", sshUsername := "", sshLockedAt := None)
  }

  function Consume(db: Db, hash: Digest, d: Device, now: Time): Reply {
    var spent := map k | k in db.tokens && db.tokens[k].hash == hash
      :: db.tokens[k].(usedAt := Some(now), usedBy := Some(d.id));
    if spent == map[] || exists k :: k in spent && db.tokens[k].usedAt.Some? then Reply(db, NotFound)
    else if d.id in db.devices || DeviceNameTaken(db, d.name) then Reply(db, UniqueViolation)
    else Reply(db.(devices := db.devices[d.id := FreshDevice(d)], tokens := db.tokens + spent), Done)
  }

  function UpdateStatus(db: Db, id: Id, status: Status, seen: Time): Reply {
    if id !in db.devices then Reply(db, NotFound)
    else Reply(db.(devices := db.devices[id := db.devices[id].(status := status, lastSeen := Some(seen))]), Done)
  }

  function UpdateSsh(db: Db, id: Id, pubkey: string, username: string): Reply {
    if id !in db.devices then Reply(db, NotFound)
    else Reply(db.(devices := db.devices[id := db.devices[id].(sshPubkey := pubkey, sshUsername := username)]), Done)
  }

  function Lock(db: Db, id: Id, at: Time): Reply {
    if id !in db.devices then Reply(db, NotFound)
    else Reply(db.(devices := db.devices[id := db.devices[id].(sshLockedAt := Some(at), status := Offline)]), Done)
  }

  /** `status = 'online' AND (last_seen_at IS NULL OR last_seen_at < cutoff)`, the last as text. */
  predicate IsStale(d: Device, cutoff: Time) {
    d.status == Online && (d.lastSeen.None? || Text.Lt(Stamp(d.lastSeen.value), Stamp(cutoff)))
  }

  /** `ssh_locked_at IS NOT NULL AND ssh_locked_at < cutoff`, the last as text. */
  predicate LockedBefore(d: Device, cutoff: Time) {
    d.sshLockedAt.Some? && Text.Lt(Stamp(d.sshLockedAt.value), Stamp(cutoff))
  }

  function SweepStale(db: Db, cutoff: Time): Reply {
    Reply(db.(devices := map k | k in db.devices ::
      if IsStale(db.devices[k], cutoff) then db.devices[k].(status := Offline) else db.devices[k]), Done)
  }

  function OwnServices(db: Db, deviceId: Id): set<Id> {
    set k | k in db.services && db.services[k].deviceId == deviceId
  }

  /** Rows that ON DELETE CASCADE removes from `forwards` when these services go. */
  function ForwardsTo(db: Db, services: set<Id>): set<Id> {
    set k | k in db.forwards && db.forwards[k].serviceId in services
  }

  function RemoveDevice(db: Db, id: Id): Reply {
    if id !in db.devices then Reply(db, NotFound)
    else
      var gone := OwnServices(db, id);
      var owned := set k | k in db.forwards && db.forwards[k].ownerId == id;
      Reply(Db(
        db.devices - {id},
        db.services - gone,
        db.forwards - owned - ForwardsTo(db, gone),
        Unlink(db.tokens, id),
        db.alerts - {id}), Done)
  }

  function AddService(db: Db, sv: Service): Reply {
    if sv.protocol !in {"tcp", "udp"} then Reply(db, CheckViolation)
    else if sv.id in db.services || sv.publicPort in UsedPorts(db) || ServiceNameTaken(db, sv.deviceId, sv.name) then
      Reply(db, UniqueViolation)
    else if sv.deviceId !in db.devices then Reply(db, ForeignKeyViolation)
    else Reply(db.(services := db.services[sv.id := sv.(lastProbeAt := None, lastProbeOk := false)]), Done)
  }

  function SwitchService(db: Db, id: Id, enabled: bool): Reply {
    if id !in db.services then Reply(db, NotFound)
    else Reply(db.(services := db.services[id := db.services[id].(enabled := enabled)]), Done)
  }

  /** `RecordServiceProbe` does not look at the number of rows. */
  function Probe(db: Db, id: Id, ok: bool, at: Time): Reply {
    if id !in db.services then Reply(db, Done)
    else Reply(db.(services := db.services[id := db.services[id].(lastProbeAt := Some(at), lastProbeOk := ok)]), Done)
  }

  function RemoveService(db: Db, id: Id): Reply {
    if id !in db.services then Reply(db, NotFound)
    else Reply(db.(services := db.services - {id}, forwards := db.forwards - ForwardsTo(db, {id})), Done)
  }

  function AddForward(db: Db, f: Forward): Reply {
    if f.id in db.forwards || LocalPortTaken(db, f.ownerId, f.localPort) then Reply(db, UniqueViolation)
    else if f.ownerId !in db.devices || f.serviceId !in db.services then Reply(db, ForeignKeyViolation)
    else Reply(db.(forwards := db.forwards[f.id := f]), Done)
  }

  function SwitchForward(db: Db, id: Id, enabled: bool): Reply {
    if id !in db.forwards then Reply(db, NotFound)
    else Reply(db.(forwards := db.forwards[id := db.forwards[id].(enabled := enabled)]), Done)
  }

  function RemoveForward(db: Db, id: Id): Reply {
    if id !in db.forwards then Reply(db, NotFound) else Reply(db.(forwards := db.forwards - {id}), Done)
  }

  function AddAlert(db: Db, id: Id, at: Time): Reply {
    if id !in db.devices then Reply(db, ForeignKeyViolation) else Reply(db.(alerts := db.alerts[id := at]), Done)
  }

  function Execute(db: Db, statement: Statement): Reply {
    match statement
    case InsertToken(t) => AddToken(db, t)
    case ConsumeToken(hash, d, now) => Consume(db, hash, d, now)
    case SetStatus(id, status, seen) => UpdateStatus(db, id, status, seen)
    case MarkStale(cutoff) => SweepStale(db, cutoff)
    case SetSsh(id, pubkey, user) => UpdateSsh(db, id, pubkey, user)
    case MarkLocked(id, at) => Lock(db, id, at)
    case DeleteDevice(id) => RemoveDevice(db, id)
    case InsertService(sv) => AddService(db, sv)
    case SetServiceEnabled(id, enabled) => SwitchService(db, id, enabled)
    case RecordProbe(id, ok, at) => Probe(db, id, ok, at)
    case DeleteService(id) => RemoveService(db, id)
    case InsertForward(f) => AddForward(db, f)
    case SetForwardEnabled(id, enabled) => SwitchForward(db, id, enabled)
    case DeleteForward(id) => RemoveForward(db, id)
    case MarkAlerted(id, at) => AddAlert(db, id, at)
    case ClearAlert(id) => Reply(db.(alerts := db.alerts - {id}), Done)
  }

  // ---------------- Every statement keeps every constraint ----------------

  /** Dropping rows keeps a table's own constraints. */
  lemma DropServices(t: Services, gone: set<Id>)
    requires ServicesOk(t)
    ensures ServicesOk(t - gone)
  {
  }

  lemma DropForwards(t: Forwards, gone: set<Id>)
    requires ForwardsOk(t)
    ensures ForwardsOk(t - gone)
  {
  }

  /** So does rewriting columns that carry none. */
  lemma SameDeviceKeys(t: Devices, u: Devices)
    requires DevicesOk(t) && u.Keys == t.Keys
    requires forall k :: k in t ==> u[k].id == t[k].id && u[k].name == t[k].name
    ensures DevicesOk(u)
  {
  }

  lemma SameTokenKeys(t: Tokens, u: Tokens)
    requires TokensOk(t) && u.Keys == t.Keys
    requires forall k :: k in t ==> u[k].id == t[k].id && u[k].hash == t[k].hash
    ensures TokensOk(u)
  {
  }

  lemma SameServiceKeys(t: Services, u: Services)
    requires ServicesOk(t) && u.Keys == t.Keys
    requires forall k :: k in t ==> SameIdentity(t[k], u[k])
    ensures ServicesOk(u)
  {
  }

  ghost predicate SameIdentity(a: Service, b: Service) {
    && a.id == b.id && a.deviceId == b.deviceId && a.name == b.name
    && a.publicPort == b.publicPort && a.protocol == b.protocol
  }

  lemma SameForwardKeys(t: Forwards, u: Forwards)
    requires ForwardsOk(t) && u.Keys == t.Keys
    requires forall k :: k in t ==> u[k].(enabled := true) == t[k].(enabled := true)
    ensures ForwardsOk(u)
  {
    assert forall k :: k in t ==> (u[k].id, u[k].ownerId, u[k].localPort) == (t[k].id, t[k].ownerId, t[k].localPort);
  }

  /** Replacing one table by another that satisfies its constraints and keeps the rows others refer to. */
  lemma NewForwards(db: Db, forwards: Forwards)
    requires Integrity(db) && ForwardsOk(forwards) && ForwardsRefer(forwards, db.devices.Keys, db.services.Keys)
    ensures Integrity(db.(forwards := forwards))
  {
  }

  lemma NewServices(db: Db, services: Services)
    requires Integrity(db) && db.services.Keys <= services.Keys
    requires ServicesOk(services) && ServicesRefer(services, db.devices.Keys)
    ensures Integrity(db.(services := services))
  {
  }

  lemma NewDevices(db: Db, devices: Devices)
    requires Integrity(db) && db.devices.Keys <= devices.Keys && DevicesOk(devices)
    ensures Integrity(db.(devices := devices))
  {
  }

  lemma NewDevicesAndTokens(db: Db, devices: Devices, tokens: Tokens)
    requires Integrity(db) && db.devices.Keys <= devices.Keys && DevicesOk(devices)
    requires TokensOk(tokens) && TokensRefer(tokens, devices.Keys)
    ensures Integrity(Db(devices, db.services, db.forwards, tokens, db.alerts))
  {
  }

  lemma NewTokens(db: Db, tokens: Tokens)
    requires Integrity(db) && TokensOk(tokens) && TokensRefer(tokens, db.devices.Keys)
    ensures Integrity(db.(tokens := tokens))
  {
  }

  lemma PutDevice(t: Devices, id: Id, d: Device)
    requires DevicesOk(t) && id in t && d.id == t[id].id && d.name == t[id].name
    ensures DevicesOk(t[id := d]) && t[id := d].Keys == t.Keys
  {
    SameDeviceKeys(t, t[id := d]);
  }

  lemma PutService(t: Services, id: Id, sv: Service, devices: set<Id>)
    requires ServicesOk(t) && ServicesRefer(t, devices) && id in t && SameIdentity(t[id], sv)
    ensures ServicesOk(t[id := sv]) && ServicesRefer(t[id := sv], devices) && t[id := sv].Keys == t.Keys
  {
    SameServiceKeys(t, t[id := sv]);
  }

  lemma StatusKeepsIntegrity(db: Db, id: Id, status: Status, at: Time)
    requires Integrity(db)
    ensures Integrity(UpdateStatus(db, id, status, at).db)
  {
    if id in db.devices {
      var d := db.devices[id].(status := status, lastSeen := Some(at));
      PutDevice(db.devices, id, d);
      NewDevices(db, db.devices[id := d]);
    }
  }

  lemma SshKeepsIntegrity(db: Db, id: Id, pubkey: string, username: string)
    requires Integrity(db)
    ensures Integrity(UpdateSsh(db, id, pubkey, username).db)
  {
    if id in db.devices {
      var d := db.devices[id].(sshPubkey := pubkey, sshUsername := username);
      PutDevice(db.devices, id, d);
      NewDevices(db, db.devices[id := d]);
    }
  }

  lemma LockKeepsIntegrity(db: Db, id: Id, at: Time)
    requires Integrity(db)
    ensures Integrity(Lock(db, id, at).db)
  {
    if id in db.devices {
      var d := db.devices[id].(sshLockedAt := Some(at), status := Offline);
      PutDevice(db.devices, id, d);
      NewDevices(db, db.devices[id := d]);
    }
  }

  lemma SweepKeepsIntegrity(db: Db, cutoff: Time)
    requires Integrity(db)
    ensures Integrity(SweepStale(db, cutoff).db)
  {
    var devices := SweepStale(db, cutoff).db.devices;
    SameDeviceKeys(db.devices, devices);
    NewDevices(db, devices);
  }

  lemma SwitchKeepsIntegrity(db: Db, id: Id, enabled: bool)
    requires Integrity(db)
    ensures Integrity(SwitchService(db, id, enabled).db)
  {
    if id in db.services {
      var sv := db.services[id].(enabled := enabled);
      PutService(db.services, id, sv, db.devices.Keys);
      NewServices(db, db.services[id := sv]);
    }
  }

  lemma ProbeKeepsIntegrity(db: Db, id: Id, ok: bool, at: Time)
    requires Integrity(db)
    ensures Integrity(Probe(db, id, ok, at).db)
  {
    if id in db.services {
      var sv := db.services[id].(lastProbeAt := Some(at), lastProbeOk := ok);
      PutService(db.services, id, sv, db.devices.Keys);
      NewServices(db, db.services[id := sv]);
    }
  }

  lemma PutForward(t: Forwards, id: Id, f: Forward, devices: set<Id>, services: set<Id>)
    requires ForwardsOk(t) && ForwardsRefer(t, devices, services)
    requires id in t && f.(enabled := true) == t[id].(enabled := true)
    ensures ForwardsOk(t[id := f]) && ForwardsRefer(t[id := f], devices, services)
  {
    SameForwardKeys(t, t[id := f]);
    assert (f.ownerId, f.serviceId) == (t[id].ownerId, t[id].serviceId);
  }

  lemma SwitchForwardKeepsIntegrity(db: Db, id: Id, enabled: bool)
    requires Integrity(db)
    ensures Integrity(SwitchForward(db, id, enabled).db)
  {
    if id in db.forwards {
      var f := db.forwards[id].(enabled := enabled);
      PutForward(db.forwards, id, f, db.devices.Keys, db.services.Keys);
      NewForwards(db, db.forwards[id := f]);
    }
  }

  lemma AddDeviceRow(t: Devices, d: Device)
    requires DevicesOk(t) && d.id !in t && forall k :: k in t ==> t[k].name != d.name
    ensures DevicesOk(t[d.id := d])
  {
  }

  lemma SpendTokens(t: Tokens, hash: Digest, now: Time, id: Id, devices: set<Id>)
    requires TokensOk(t) && TokensRefer(t, devices)
    ensures var u := t + map k | k in t && t[k].hash == hash :: t[k].(usedAt := Some(now), usedBy := Some(id));
      TokensOk(u) && TokensRefer(u, devices + {id})
  {
    var u := t + map k | k in t && t[k].hash == hash :: t[k].(usedAt := Some(now), usedBy := Some(id));
    assert u.Keys == t.Keys;
    SameTokenKeys(t, u);
  }

  lemma ConsumeKeepsIntegrity(db: Db, hash: Digest, d: Device, now: Time)
    requires Integrity(db)
    ensures Integrity(Consume(db, hash, d, now).db)
  {
    if Consume(db, hash, d, now).outcome == Done {
      var after := Consume(db, hash, d, now).db;
      AddDeviceRow(db.devices, FreshDevice(d));
      SpendTokens(db.tokens, hash, now, d.id, db.devices.Keys);
      assert after.devices.Keys == db.devices.Keys + {d.id};
      NewDevicesAndTokens(db, after.devices, after.tokens);
      assert after == Db(after.devices, db.services, db.forwards, after.tokens, db.alerts);
    }
  }

  function Unlink(t: Tokens, id: Id): Tokens {
    map k | k in t :: if t[k].usedBy == Some(id) then t[k].(usedBy := None) else t[k]
  }

  lemma DevicesLeft(t: Devices, id: Id)
    requires DevicesOk(t)
    ensures DevicesOk(t - {id}) && (t - {id}).Keys == t.Keys - {id}
  {
  }

  lemma ServicesLeft(t: Services, devices: set<Id>, gone: set<Id>, id: Id)
    requires ServicesOk(t) && ServicesRefer(t, devices) && forall k :: k in t && t[k].deviceId == id ==> k in gone
    ensures ServicesOk(t - gone) && ServicesRefer(t - gone, devices - {id})
  {
    DropServices(t, gone);
  }

  lemma ForwardsLeft(t: Forwards, devices: set<Id>, services: set<Id>, dropped: set<Id>, gone: set<Id>, id: Id)
    requires ForwardsOk(t) && ForwardsRefer(t, devices, services)
    requires forall k :: k in t && (t[k].ownerId == id || t[k].serviceId in gone) ==> k in dropped
    ensures ForwardsOk(t - dropped) && ForwardsRefer(t - dropped, devices - {id}, services - gone)
  {
    DropForwards(t, dropped);
  }

  lemma TokensLeft(t: Tokens, devices: set<Id>, id: Id)
    requires TokensOk(t) && TokensRefer(t, devices)
    ensures TokensOk(Unlink(t, id)) && TokensRefer(Unlink(t, id), devices - {id})
  {
    SameTokenKeys(t, Unlink(t, id));
  }

  lemma RemoveDeviceKeepsIntegrity(db: Db, id: Id)
    requires Integrity(db)
    ensures Integrity(RemoveDevice(db, id).db)
  {
    if id in db.devices {
      var gone := OwnServices(db, id);
      var owned := set k | k in db.forwards && db.forwards[k].ownerId == id;
      var after := RemoveDevice(db, id).db;
      assert after.forwards == db.forwards - (owned + ForwardsTo(db, gone));
      assert after.services.Keys == db.services.Keys - gone;
      DevicesLeft(db.devices, id);
      ServicesLeft(db.services, db.devices.Keys, gone, id);
      ForwardsLeft(db.forwards, db.devices.Keys, db.services.Keys, owned + ForwardsTo(db, gone), gone, id);
      TokensLeft(db.tokens, db.devices.Keys, id);
    }
  }

  lemma AddServiceRow(t: Services, sv: Service)
    requires ServicesOk(t) && sv.id !in t && sv.protocol in {"tcp", "udp"}
    requires forall k :: k in t ==> t[k].publicPort != sv.publicPort && !SameName(t[k], sv)
    ensures ServicesOk(t[sv.id := sv])
  {
  }

  lemma AddServiceKeepsIntegrity(db: Db, sv: Service)
    requires Integrity(db)
    ensures Integrity(AddService(db, sv).db)
  {
    if AddService(db, sv).outcome == Done {
      var row := sv.(lastProbeAt := None, lastProbeOk := false);
      assert forall k :: k in db.services ==> db.services[k].publicPort in UsedPorts(db);
      AddServiceRow(db.services, row);
      NewServices(db, db.services[sv.id := row]);
    }
  }

  lemma AddForwardRow(t: Forwards, f: Forward)
    requires ForwardsOk(t) && f.id !in t && forall k :: k in t ==> !SameLocalPort(t[k], f)
    ensures ForwardsOk(t[f.id := f])
  {
  }

  lemma AddForwardKeepsIntegrity(db: Db, f: Forward)
    requires Integrity(db)
    ensures Integrity(AddForward(db, f).db)
  {
    if AddForward(db, f).outcome == Done {
      AddForwardRow(db.forwards, f);
      NewForwards(db, db.forwards[f.id := f]);
    }
  }

  lemma RemoveServiceKeepsIntegrity(db: Db, id: Id)
    requires Integrity(db)
    ensures Integrity(RemoveService(db, id).db)
  {
    DropServices(db.services, {id});
    DropForwards(db.forwards, ForwardsTo(db, {id}));
  }

  lemma RemoveForwardKeepsIntegrity(db: Db, id: Id)
    requires Integrity(db)
    ensures Integrity(RemoveForward(db, id).db)
  {
    DropForwards(db.forwards, {id});
  }

  lemma AddTokenRow(t: Tokens, row: Token)
    requires TokensOk(t) && row.id !in t && forall k :: k in t ==> t[k].hash != row.hash
    ensures TokensOk(t[row.id := row])
  {
  }

  lemma AddTokenKeepsIntegrity(db: Db, t: Token)
    requires Integrity(db)
    ensures Integrity(AddToken(db, t).db)
  {
    if AddToken(db, t).outcome == Done {
      var row := t.(usedAt := None, usedBy := None);
      AddTokenRow(db.tokens, row);
      NewTokens(db, db.tokens[t.id := row]);
    }
  }

  /** Foreign keys, UNIQUE keys and CHECKs survive every statement, whether or not it succeeds. */
  lemma ExecuteKeepsIntegrity(db: Db, statement: Statement)
    requires Integrity(db)
    ensures Integrity(Execute(db, statement).db)
  {
    if OnDevices(statement) {
      DeviceStatementKeepsIntegrity(db, statement);
    } else if OnServices(statement) {
      ServiceStatementKeepsIntegrity(db, statement);
    } else {
      OtherStatementKeepsIntegrity(db, statement);
    }
  }

  predicate OnDevices(st: Statement) {
    st.ConsumeToken? || st.SetStatus? || st.MarkStale? || st.SetSsh? || st.MarkLocked? || st.DeleteDevice?
  }

  predicate OnServices(st: Statement) {
    st.InsertService? || st.SetServiceEnabled? || st.RecordProbe? || st.DeleteService?
  }

  lemma DeviceStatementKeepsIntegrity(db: Db, statement: Statement)
    requires Integrity(db) && OnDevices(statement)
    ensures Integrity(Execute(db, statement).db)
  {
    match statement
    case ConsumeToken(hash, d, now) => ConsumeKeepsIntegrity(db, hash, d, now);
    case SetStatus(id, status, seen) => StatusKeepsIntegrity(db, id, status, seen);
    case MarkStale(cutoff) => SweepKeepsIntegrity(db, cutoff);
    case SetSsh(id, pubkey, user) => SshKeepsIntegrity(db, id, pubkey, user);
    case MarkLocked(id, at) => LockKeepsIntegrity(db, id, at);
    case DeleteDevice(id) => RemoveDeviceKeepsIntegrity(db, id);
  }

  lemma ServiceStatementKeepsIntegrity(db: Db, statement: Statement)
    requires Integrity(db) && OnServices(statement)
    ensures Integrity(Execute(db, statement).db)
  {
    match statement
    case InsertService(sv) => AddServiceKeepsIntegrity(db, sv);
    case SetServiceEnabled(id, enabled) => SwitchKeepsIntegrity(db, id, enabled);
    case RecordProbe(id, ok, at) => ProbeKeepsIntegrity(db, id, ok, at);
    case DeleteService(id) => RemoveServiceKeepsIntegrity(db, id);
  }

  lemma OtherStatementKeepsIntegrity(db: Db, statement: Statement)
    requires Integrity(db) && !OnDevices(statement) && !OnServices(statement)
    ensures Integrity(Execute(db, statement).db)
  {
    match statement
    case InsertToken(t) => AddTokenKeepsIntegrity(db, t);
    case InsertForward(f) => AddForwardKeepsIntegrity(db, f);
    case SetForwardEnabled(id, enabled) => SwitchForwardKeepsIntegrity(db, id, enabled);
    case DeleteForward(id) => RemoveForwardKeepsIntegrity(db, id);
    case MarkAlerted(id, at) =>
    case ClearAlert(id) =>
  }

  /** A statement that reports a failure left the tables as they were. */
  lemma FailureChangesNothing(db: Db, statement: Statement)
    ensures Execute(db, statement).outcome != Done ==> Execute(db, statement).db == db
  {
  }

  // ---------------- Which rows a statement leaves ----------------

  ghost predicate SameRule(a: Service, b: Service) {
    SameIdentity(a, b) && a.localAddr == b.localAddr && a.bindLocal == b.bindLocal
  }

  ghost predicate ServiceRow(db: Db, st: Statement, k: Id, row: Service) {
    || (k in db.services && SameRule(db.services[k], row))
    || (st.InsertService? && row == st.service.(lastProbeAt := None, lastProbeOk := false))
  }

  /** A service row is an old one with the same rule, or the one being inserted. */
  lemma ServiceRowsAfter(db: Db, st: Statement)
    ensures forall k :: k in Execute(db, st).db.services ==> ServiceRow(db, st, k, Execute(db, st).db.services[k])
  {
    match st
    case InsertService(sv) => AddedServiceRows(db, sv);
    case SetServiceEnabled(id, enabled) => SwitchedServiceRows(db, id, enabled);
    case RecordProbe(id, ok, at) => ProbedServiceRows(db, id, ok, at);
    case DeleteService(id) => assert forall k :: k in RemoveService(db, id).db.services ==> k in db.services;
    case DeleteDevice(id) => assert forall k :: k in RemoveDevice(db, id).db.services ==> k in db.services;
    case _ => assert Execute(db, st).db.services == db.services;
  }

  lemma AddedServiceRows(db: Db, sv: Service)
    ensures forall k :: k in AddService(db, sv).db.services ==>
      ServiceRow(db, InsertService(sv), k, AddService(db, sv).db.services[k])
  {
  }

  lemma SwitchedServiceRows(db: Db, id: Id, enabled: bool)
    ensures forall k :: k in SwitchService(db, id, enabled).db.services ==>
      k in db.services && SameRule(db.services[k], SwitchService(db, id, enabled).db.services[k])
  {
  }

  lemma ProbedServiceRows(db: Db, id: Id, ok: bool, at: Time)
    ensures forall k :: k in Probe(db, id, ok, at).db.services ==>
      k in db.services && SameRule(db.services[k], Probe(db, id, ok, at).db.services[k])
  {
  }

  ghost predicate ForwardRow(db: Db, st: Statement, k: Id, row: Forward) {
    || (k in db.forwards && row.(enabled := true) == db.forwards[k].(enabled := true))
    || (st.InsertForward? && row == st.forward)
  }

  lemma ForwardRowsAfter(db: Db, st: Statement)
    ensures forall k :: k in Execute(db, st).db.forwards ==> ForwardRow(db, st, k, Execute(db, st).db.forwards[k])
  {
    match st
    case InsertForward(f) => AddedForwardRows(db, f);
    case SetForwardEnabled(id, enabled) => SwitchedForwardRows(db, id, enabled);
    case DeleteForward(id) => DroppedForwardRows(db, st);
    case DeleteService(id) => DroppedForwardRows(db, st);
    case DeleteDevice(id) => DroppedForwardRows(db, st);
    case _ => assert Execute(db, st).db.forwards == db.forwards;
  }

  lemma DroppedForwardRows(db: Db, st: Statement)
    requires st.DeleteForward? || st.DeleteService? || st.DeleteDevice?
    ensures forall k :: k in Execute(db, st).db.forwards ==>
      k in db.forwards && Execute(db, st).db.forwards[k] == db.forwards[k]
  {
  }

  lemma AddedForwardRows(db: Db, f: Forward)
    ensures forall k :: k in AddForward(db, f).db.forwards ==>
      ForwardRow(db, InsertForward(f), k, AddForward(db, f).db.forwards[k])
  {
  }

  lemma SwitchedForwardRows(db: Db, id: Id, enabled: bool)
    ensures var after := SwitchForward(db, id, enabled).db.forwards;
      forall k :: k in after ==>
        k in db.forwards && after[k].(enabled := true) == db.forwards[k].(enabled := true)
  {
  }

  /** Token rows stay, with their hash; a used one stays used. */
  lemma TokenRowsAfter(db: Db, st: Statement)
    ensures forall k :: k in db.tokens ==> var after := Execute(db, st).db.tokens;
      k in after && after[k].hash == db.tokens[k].hash && (db.tokens[k].usedAt.Some? ==> after[k].usedAt.Some?)
  {
    match st
    case InsertToken(t) => AddedTokenStays(db, t);
    case ConsumeToken(hash, d, now) => SpentTokensStay(db, hash, d, now);
    case DeleteDevice(id) => UnlinkedTokensStay(db, id);
    case _ => assert Execute(db, st).db.tokens == db.tokens;
  }

  lemma UnlinkedTokensStay(db: Db, id: Id)
    ensures var after := RemoveDevice(db, id).db.tokens;
      && after.Keys == db.tokens.Keys
      && forall k :: k in db.tokens ==>
        after[k].hash == db.tokens[k].hash && after[k].usedAt == db.tokens[k].usedAt
  {
  }

  lemma AddedTokenStays(db: Db, t: Token)
    ensures forall k :: k in db.tokens ==>
      k in AddToken(db, t).db.tokens && AddToken(db, t).db.tokens[k] == db.tokens[k]
  {
  }

  lemma SpentTokensStay(db: Db, hash: Digest, d: Device, now: Time)
    ensures var after := Consume(db, hash, d, now).db.tokens;
      forall k :: k in db.tokens ==>
        && k in after && after[k].hash == db.tokens[k].hash
        && (db.tokens[k].usedAt.Some? ==> after[k].usedAt.Some?)
  {
  }

  /** A used token of the outcome: it was used before, or this statement used it. */
  ghost predicate UsedToken(db: Db, st: Statement, k: Id, row: Token) {
    || (k in db.tokens && db.tokens[k].hash == row.hash && db.tokens[k].usedAt.Some?)
    || (st.ConsumeToken? && st.hash == row.hash && Execute(db, st).outcome == Done)
  }

  lemma UsedTokensAfter(db: Db, st: Statement)
    ensures var after := Execute(db, st).db.tokens;
      forall k :: k in after && after[k].usedAt.Some? ==> UsedToken(db, st, k, after[k])
  {
    match st
    case InsertToken(t) => AddedTokenUnused(db, t);
    case ConsumeToken(hash, d, now) => SpentTokensUsed(db, hash, d, now);
    case DeleteDevice(id) => UnlinkedTokensStay(db, id);
    case _ => assert Execute(db, st).db.tokens == db.tokens;
  }

  lemma AddedTokenUnused(db: Db, t: Token)
    ensures var after := AddToken(db, t).db.tokens;
      forall k :: k in after && after[k].usedAt.Some? ==> k in db.tokens && db.tokens[k] == after[k]
  {
  }

  lemma SpentTokensUsed(db: Db, hash: Digest, d: Device, now: Time)
    ensures var after := Consume(db, hash, d, now).db.tokens;
      forall k :: k in after ==> k in db.tokens && after[k].hash == db.tokens[k].hash
    ensures var r := Consume(db, hash, d, now);
      forall k :: k in r.db.tokens && r.db.tokens[k] != db.tokens[k] ==> db.tokens[k].hash == hash && r.outcome == Done
  {
  }

  /** Services go only with a delete of their own or of their device. */
  lemma OnlyDeletesDrop(db: Db, st: Statement, service: Id)
    requires service in db.services && service !in Execute(db, st).db.services
    ensures st == DeleteService(service) || st == DeleteDevice(db.services[service].deviceId)
  {
    match st
    case DeleteDevice(id) =>
    case DeleteService(id) =>
    case _ =>
  }

  // ---------------- The cascade is exact ----------------

  /** Tables that drop rows of `db` and change none. */
  ghost predicate Within(part: Db, db: Db) {
    && part.devices.Keys <= db.devices.Keys && (forall k :: k in part.devices ==> part.devices[k] == db.devices[k])
    && part.services.Keys <= db.services.Keys && (forall k :: k in part.services ==> part.services[k] == db.services[k])
    && part.forwards.Keys <= db.forwards.Keys && (forall k :: k in part.forwards ==> part.forwards[k] == db.forwards[k])
  }

  ghost predicate Referring(db: Db) {
    ServicesRefer(db.services, db.devices.Keys) && ForwardsRefer(db.forwards, db.devices.Keys, db.services.Keys)
  }

  /** Of all ways to drop rows so that the device is gone and foreign keys hold, deleting the device
  keeps the most: besides that device it removes only rows that could not stay. */
  lemma CascadeIsLeast(db: Db, id: Id, other: Db)
    requires Integrity(db) && id in db.devices
    ensures var after := RemoveDevice(db, id).db;
      Within(after, db) && id !in after.devices && Referring(after)
    ensures Within(other, db) && id !in other.devices && Referring(other) ==> Within(other, RemoveDevice(db, id).db)
  {
    RemoveDeviceKeepsIntegrity(db, id);
    if Within(other, db) && id !in other.devices && Referring(other) {
      NoMoreThanCascade(db, id, other);
    }
  }

  lemma NoMoreThanCascade(db: Db, id: Id, other: Db)
    requires id in db.devices && Within(other, db) && id !in other.devices && Referring(other)
    ensures Within(other, RemoveDevice(db, id).db)
  {
    var after := RemoveDevice(db, id).db;
    forall k | k in other.services ensures k in after.services {
      assert other.services[k] == db.services[k];
    }
    forall k | k in other.forwards ensures k in after.forwards {
      assert other.forwards[k] == db.forwards[k];
      var s := db.forwards[k].serviceId;
      assert s in other.services && other.services[s] == db.services[s];
    }
  }

  /** What deleting a device takes along, row by row, and what it frees. */
  lemma CascadeIsExact(db: Db, id: Id)
    requires Integrity(db) && id in db.devices
    ensures var after := RemoveDevice(db, id).db;
      && after.devices.Keys == db.devices.Keys - {id}
      && (forall k :: k in db.services ==> (k in after.services <==> db.services[k].deviceId != id))
      && (forall k :: k in db.forwards ==> (k in after.forwards <==>
            db.forwards[k].ownerId != id && db.services[db.forwards[k].serviceId].deviceId != id))
      && UsedPorts(after) == UsedPorts(db) - (set k | k in OwnServices(db, id) :: db.services[k].publicPort)
      && after.tokens.Keys == db.tokens.Keys
      && (forall k :: k in db.tokens ==> after.tokens[k].usedAt == db.tokens[k].usedAt)
  {
    var after := RemoveDevice(db, id).db;
    var freed := set k | k in OwnServices(db, id) :: db.services[k].publicPort;
    forall p ensures p in UsedPorts(after) <==> p in UsedPorts(db) && p !in freed {
      if p in UsedPorts(after) {
        var k :| k in after.services && after.services[k].publicPort == p;
        assert k in db.services && k !in OwnServices(db, id);
      }
      if p in UsedPorts(db) && p !in freed {
        var k :| k in db.services && db.services[k].publicPort == p;
        assert k in after.services && after.services[k].publicPort == p;
      }
    }
  }
}
