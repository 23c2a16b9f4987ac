/** The server's handlers, each run without interruption, over the store, the tunnel and the port pool.

A handler is proved equal to the steps of the state machines that model it; the machines say what
holds when handlers interleave.
*/
module Server {
  import opened Wrappers
  import opened Timestamps
  import opened LocalAddr
  import opened Sorting
  import opened Schema
  import opened Bootstrap
  import Store
  import opened ControlPlane
  import TunnelUsers

  /** `tunnel.Server`: chisel's user index and the mirror that `HasDevice` reads. */
  class TunnelServer {
    var users: map<Id, Secret>
    var devices: set<Id>

    predicate Valid()
      reads this
    {
      devices == users.Keys
    }

    constructor ()
      ensures Valid() && users == map[]
    {
      users, devices := map[], {};
    }

    method AddDevice(id: Id, secret: Secret)
      requires Valid()
      modifies this
      ensures Valid() && users == old(users)[id := secret]
    {
      users := users[id := secret];
      devices := devices + {id};
    }

    method RemoveDevice(id: Id)
      requires Valid()
      modifies this
      ensures Valid() && users == old(users) - {id}
    {
      users := users - {id};
      devices := devices - {id};
    }

    method HasDevice(id: Id) returns (has: bool)
      requires Valid()
      ensures has <==> id in users
    {
      has := id in devices;
    }
  }

  class PortAllocator {
    const min: int
    const max: int
    const store: Store.Store

    constructor (store: Store.Store, min: int, max: int)
      ensures this.store == store && this.min == min && this.max == max
    {
      this.store, this.min, this.max := store, min, max;
    }

    /** The lowest port of the pool that no service has; None when every port is taken. */
    method Allocate() returns (port: Option<int>)
      ensures port == FirstFree(UsedPorts(store.View()), min, max)
    {
      var used := store.UsedPublicPorts();
      var taken := {};
      for i := 0 to |used|
        invariant forall p :: p in taken <==> p in used[..i]
      {
        taken := taken + {used[i]};
      }
      var p := min;
      while p <= max
        invariant FirstFree(UsedPorts(store.View()), p, max) == FirstFree(UsedPorts(store.View()), min, max)
        decreases max - p
      {
        if p !in taken {
          return Some(p);
        }
        p := p + 1;
      }
      return None;
    }
  }

  datatype Answer = OK | Created | NoContent
    | BadRequest | MethodNotAllowed | Unauthorized | NotFound | Conflict | Unavailable | ServerError

  function OfOutcome(outcome: Outcome): Answer {
    match outcome
    case Done => Created
    case UniqueViolation => Conflict
    case _ => ServerError
  }

  datatype Action = Delete | Enable | Disable | Unsupported

  datatype ServiceBrief = ServiceBrief(
    id: Id, deviceId: Id, deviceName: string, name: string, protocol: string, publicPort: int)

  function ToBrief(it: ServiceItem): ServiceBrief {
    var sv := it.service;
    ServiceBrief(sv.id, sv.deviceId, it.deviceName, sv.name.text, sv.protocol, sv.publicPort)
  }

  lemma UserRunOfTwo(s: TunnelUsers.State, a: TunnelUsers.Step, b: TunnelUsers.Step)
    ensures TunnelUsers.Run(s, [a, b]) == TunnelUsers.Next(TunnelUsers.Next(s, a), b)
  {
    assert [a, b][..1] == [a] && [a][..0] == [];
    assert TunnelUsers.Run(s, [a]) == TunnelUsers.Next(s, a);
  }

  lemma UserRunOfThree(s: TunnelUsers.State, a: TunnelUsers.Step, b: TunnelUsers.Step, c: TunnelUsers.Step)
    ensures TunnelUsers.Run(s, [a, b, c]) == TunnelUsers.Next(TunnelUsers.Next(TunnelUsers.Next(s, a), b), c)
  {
    assert [a, b, c][..2] == [a, b];
    UserRunOfTwo(s, a, b);
  }

  lemma UserRunOfFour(s: TunnelUsers.State,
                      a: TunnelUsers.Step, b: TunnelUsers.Step, c: TunnelUsers.Step, d: TunnelUsers.Step)
    ensures TunnelUsers.Run(s, [a, b, c, d])
      == TunnelUsers.Next(TunnelUsers.Next(TunnelUsers.Next(TunnelUsers.Next(s, a), b), c), d)
  {
    UserRunOfThree(s, a, b, c);
    var four := [a, b, c, d];
    assert four[..3] == [a, b, c] && four[3] == d;
    assert TunnelUsers.Run(s, four) == TunnelUsers.Next(TunnelUsers.Run(s, [a, b, c]), d);
  }

  /** What the device is told when it adds a service: its request is refused, the pool is empty, or the insert
  decides. */
  function ServiceAnswer(db: Db, pool: Pool, h: Option<Handler>, id: Id, now: Time): Answer
    requires h.Some? ==> h.value.AddingService?
  {
    if h.None? then BadRequest
    else if FirstFree(UsedPorts(db), pool.min, pool.max).None? then Unavailable
    else OfOutcome(ServiceAdded(db, pool, h, id, now).outcome)
  }

  /** The same for a forward. */
  function ForwardAnswer(db: Db, ownerId: Id, serviceId: Id, localPort: int, id: Id, now: Time): Answer {
    if serviceId.text == "" || !PortInRange(localPort) then BadRequest
    else if serviceId !in db.services then Answer.NotFound
    else OfOutcome(Execute(db, InsertForward(Forward(id, ownerId, serviceId, localPort, true, now))).outcome)
  }

  /** Which status a device gets that adds a service: the first of these that holds, in this order. */
  lemma ServiceAnswerMeans(db: Db, pool: Pool, deviceId: Id, name: Name, protocol: string, rawAddr: string,
                           bindLocal: Option<bool>, id: Id, now: Time)
    ensures var status := ServiceAnswer(db, pool, Admit(deviceId, name, protocol, rawAddr, bindLocal), id, now);
      if name.text == "" || protocol !in {"tcp", "udp"} || Normalize(rawAddr).Err? then status == BadRequest
      else if forall p :: pool.min <= p <= pool.max ==> p in UsedPorts(db) then status == Unavailable
      else if id in db.services || ServiceNameTaken(db, deviceId, name) then status == Conflict
      else if deviceId !in db.devices then status == ServerError
      else status == Created
  {
    FirstFreeIsLowest(UsedPorts(db), pool.min, pool.max);
    if rawAddr == "" {
      assert TrimSpace(rawAddr) == "";
    }
  }

  /** The same for a forward. */
  lemma ForwardAnswerMeans(db: Db, ownerId: Id, serviceId: Id, localPort: int, id: Id, now: Time)
    ensures var status := ForwardAnswer(db, ownerId, serviceId, localPort, id, now);
      if serviceId.text == "" || localPort < 1 || localPort > 65535 then status == BadRequest
      else if serviceId !in db.services then status == Answer.NotFound
      else if id in db.forwards || LocalPortTaken(db, ownerId, localPort) then status == Conflict
      else if ownerId !in db.devices then status == ServerError
      else status == Created
  {
  }

  /** What the three steps of adding a service come to when nothing comes in between. */
  function ServiceAdded(db: Db, pool: Pool, h: Option<Handler>, id: Id, now: Time): Reply
    requires h.Some? ==> h.value.AddingService?
  {
    if h.None? then Reply(db, CheckViolation)
    else
      var g := h.value;
      match FirstFree(UsedPorts(db), pool.min, pool.max)
      case None => Reply(db, CheckViolation)
      case Some(port) =>
        AddService(db, Service(id, g.deviceId, g.name, g.protocol, g.localAddr, port,
                               true, g.bindLocal, now, None, false))
  }

  /** A handler that has ended is in no map of handlers at work. */
  lemma NoneInFlight()
    ensures forall m: map<nat, Handler> :: m.Keys <= {0} ==> m - {0} == map[]
  {
    forall m: map<nat, Handler> | m.Keys <= {0} ensures m - {0} == map[] {
      assert (m - {0}).Keys == {};
    }
  }

  lemma NoneBusy(id: Id)
    ensures forall m: map<Id, TunnelUsers.Phase> :: m.Keys <= {id} ==> m - {id} == map[]
  {
    forall m: map<Id, TunnelUsers.Phase> | m.Keys <= {id} ensures m - {id} == map[] {
      assert (m - {id}).Keys == {};
    }
  }

  lemma AddServiceRun(db: Db, pool: Pool, deviceId: Id, name: Name, protocol: string, rawAddr: string,
                      bindLocal: Option<bool>, id: Id, now: Time)
    ensures var h := Admit(deviceId, name, protocol, rawAddr, bindLocal);
      Run(State(db, pool, map[]), [
          StartService(0, deviceId, name, protocol, rawAddr, bindLocal), Allocate(0), InsertHeld(0, id, now)])
        == State(ServiceAdded(db, pool, h, id, now).db, pool, map[])
  {
    var s := State(db, pool, map[]);
    var start := StartService(0, deviceId, name, protocol, rawAddr, bindLocal);
    RunOfThree(s, start, Allocate(0), InsertHeld(0, id, now));
    var h := Admit(deviceId, name, protocol, rawAddr, bindLocal);
    if h.Some? {
      assert Next(s, start) == State(db, pool, map[0 := h.value]);
      AllocateThenInsert(db, pool, h.value, id, now);
    }
  }

  lemma AllocateThenInsert(db: Db, pool: Pool, h: Handler, id: Id, now: Time)
    requires h.AddingService?
    ensures Next(Next(State(db, pool, map[0 := h]), Allocate(0)), InsertHeld(0, id, now))
      == State(ServiceAdded(db, pool, Some(h), id, now).db, pool, map[])
  {
    NoneInFlight();
    var s := State(db, pool, map[0 := h]);
    var port := FirstFree(UsedPorts(db), pool.min, pool.max);
    var s1 := Next(s, Allocate(0));
    if port.None? {
      assert s1 == State(db, pool, map[]);
    } else {
      assert s1 == State(db, pool,
        map[0 := HoldingPort(h.deviceId, h.name, h.protocol, h.localAddr, h.bindLocal, port.value)]);
    }
  }

  lemma InsertShows(db: Db, sv: Service)
    ensures Execute(db, InsertService(sv)).outcome == Done <==> Execute(db, InsertService(sv)).db != db
  {
    if Execute(db, InsertService(sv)).outcome == Done {
      assert sv.id in Execute(db, InsertService(sv)).db.services && sv.id !in db.services;
    }
  }

  lemma EnrollMoves(db: Db, users: map<Id, Secret>, id: Id, secret: Secret, ok: bool,
                    pubkey: string, username: string, now: Time)
    ensures var step := TunnelUsers.Advance(id, ok, pubkey, username, now);
      && TunnelUsers.Next(TunnelUsers.State(db, users, map[id := TunnelUsers.Enrolled(secret)]), step)
           == TunnelUsers.State(db, users[id := secret], map[id := TunnelUsers.Provisioning])
      && TunnelUsers.Next(TunnelUsers.State(db, users, map[id := TunnelUsers.RollingBack]), step)
           == TunnelUsers.State(Execute(db, DeleteDevice(id)).db, users, map[])
      && TunnelUsers.Next(TunnelUsers.State(db, users, map[]), step) == TunnelUsers.State(db, users, map[])
  {
    NoneBusy(id);
    assert map[id := TunnelUsers.Enrolled(secret)][id := TunnelUsers.Provisioning]
        == map[id := TunnelUsers.Provisioning];
  }

  lemma ProvisionMove(db: Db, users: map<Id, Secret>, id: Id, ok: bool, pubkey: string, username: string, now: Time)
    ensures TunnelUsers.Next(TunnelUsers.State(db, users, map[id := TunnelUsers.Provisioning]),
                             TunnelUsers.Advance(id, ok, pubkey, username, now))
      == if ok then TunnelUsers.State(Execute(db, SetSsh(id, pubkey, username)).db, users, map[])
         else TunnelUsers.State(db, users - {id}, map[id := TunnelUsers.RollingBack])
  {
    NoneBusy(id);
    assert map[id := TunnelUsers.Provisioning][id := TunnelUsers.RollingBack] == map[id := TunnelUsers.RollingBack];
  }

  /** What the four steps of enrolling come to once the token is consumed. */
  lemma EnrollRun(s: TunnelUsers.State, hash: Digest, d: Device, provisions: bool,
                  pubkey: string, username: string, now: Time)
    requires s.busy == map[] && Execute(s.db, ConsumeToken(hash, d, now)).outcome == Done
    ensures var first := TunnelUsers.Advance(d.id, true, pubkey, username, now);
      var step := TunnelUsers.Advance(d.id, provisions, pubkey, username, now);
      var db := Execute(s.db, ConsumeToken(hash, d, now)).db;
      TunnelUsers.Run(s, [TunnelUsers.Commit(hash, d, now), first, step, step])
        == if provisions
           then TunnelUsers.State(Execute(db, SetSsh(d.id, pubkey, username)).db, s.users[d.id := d.secret], map[])
           else TunnelUsers.State(Execute(db, DeleteDevice(d.id)).db, s.users[d.id := d.secret] - {d.id}, map[])
  {
    var step := TunnelUsers.Advance(d.id, provisions, pubkey, username, now);
    var first := TunnelUsers.Advance(d.id, true, pubkey, username, now);
    UserRunOfFour(s, TunnelUsers.Commit(hash, d, now), first, step, step);
    var db := Execute(s.db, ConsumeToken(hash, d, now)).db;
    var users := s.users[d.id := d.secret];
    EnrollMoves(db, s.users, d.id, d.secret, true, pubkey, username, now);
    ProvisionMove(db, users, d.id, provisions, pubkey, username, now);
    if provisions {
      var provisioned := Execute(db, SetSsh(d.id, pubkey, username)).db;
      EnrollMoves(provisioned, users, d.id, d.secret, provisions, pubkey, username, now);
    } else {
      EnrollMoves(db, users - {d.id}, d.id, d.secret, provisions, pubkey, username, now);
    }
  }

  lemma RevokeMoves(db: Db, users: map<Id, Secret>, id: Id, now: Time)
    ensures var step := TunnelUsers.Advance(id, true, "", "", now);
      && TunnelUsers.Next(TunnelUsers.State(db, users, map[id := TunnelUsers.RevokeFound]), step)
           == TunnelUsers.State(Execute(db, MarkLocked(id, now)).db, users, map[id := TunnelUsers.RevokeLocked])
      && (id in db.devices ==>
            TunnelUsers.Next(TunnelUsers.State(db, users, map[id := TunnelUsers.RevokeLocked]), step)
            == TunnelUsers.State(Execute(db, DeleteDevice(id)).db, users, map[id := TunnelUsers.RevokeDeleted]))
      && TunnelUsers.Next(TunnelUsers.State(db, users, map[id := TunnelUsers.RevokeDeleted]), step)
           == TunnelUsers.State(db, users - {id}, map[])
  {
    NoneBusy(id);
    assert map[id := TunnelUsers.RevokeFound][id := TunnelUsers.RevokeLocked] == map[id := TunnelUsers.RevokeLocked];
    assert map[id := TunnelUsers.RevokeLocked][id := TunnelUsers.RevokeDeleted] == map[id := TunnelUsers.RevokeDeleted];
  }

  lemma RevokeRun(s: TunnelUsers.State, id: Id, now: Time)
    requires s.busy == map[] && id in s.db.devices
    ensures var step := TunnelUsers.Advance(id, true, "", "", now);
      TunnelUsers.Run(s, [TunnelUsers.BeginRevoke(id), step, step, step])
        == TunnelUsers.State(Execute(Execute(s.db, MarkLocked(id, now)).db, DeleteDevice(id)).db, s.users - {id}, map[])
  {
    var step := TunnelUsers.Advance(id, true, "", "", now);
    UserRunOfFour(s, TunnelUsers.BeginRevoke(id), step, step, step);
    var locked := Execute(s.db, MarkLocked(id, now)).db;
    RevokeMoves(s.db, s.users, id, now);
    RevokeMoves(locked, s.users, id, now);
    RevokeMoves(Execute(locked, DeleteDevice(id)).db, s.users, id, now);
  }

  lemma LockThenRemove(db: Db, id: Id, now: Time)
    requires id in db.devices
    ensures RemoveDevice(Lock(db, id, now).db, id) == RemoveDevice(db, id)
  {
    assert Lock(db, id, now).db.devices - {id} == db.devices - {id};
  }

  /** The users `reloadChiselUsers` adds for the rows it lists. */
  function UsersOf(ds: seq<Device>): map<Id, Secret> {
    if ds == [] then map[] else UsersOf(ds[..|ds| - 1])[ds[|ds| - 1].id := ds[|ds| - 1].secret]
  }

  lemma {:induction false} UsersOfEnumeration(ds: seq<Device>, devices: Devices)
    requires DevicesOk(devices) && Enumerates(ds, devices.Values)
    ensures UsersOf(ds) == map k | k in devices :: devices[k].secret
  {
    if ds != [] {
      var n := |ds| - 1;
      var last := ds[n];
      assert last in ds && last.id in devices && devices[last.id] == last;
      var rest := devices - {last.id};
      forall d ensures d in ds[..n] <==> d in rest.Values {
        if d in ds[..n] {
          assert d in ds && d != last && devices[d.id] == d && d.id in rest;
        }
        if d in rest.Values {
          assert d in devices.Values && d in ds && d != last;
        }
      }
      assert ds == ds[..n] + [last];
      UsersOfEnumeration(ds[..n], rest);
    } else {
      if devices != map[] {
        SomeValue(devices);
      }
    }
  }

  lemma SomeValue(devices: Devices)
    requires devices != map[]
    ensures devices.Values != {}
  {
    var k :| k in devices;
    assert devices[k] in devices.Values;
  }

  /** What enrolling answers: the checks in their order, then what the consume says. */
  function EnrollAnswer(db: Db, rawToken: string, wellFormed: bool, device: Device, now: Time): Answer {
    if !wellFormed then Unauthorized
    else if device.name.text == "" then BadRequest
    else if !TokenPasses(db, Digest(rawToken), now) then Unauthorized
    else
      match Execute(db, ConsumeToken(Digest(rawToken), device, now)).outcome
      case Done => Created
      case NotFound => Unauthorized
      case UniqueViolation => Conflict
      case _ => BadRequest
  }

  /** A token nobody knows, a used one and one that has expired are refused alike; then a taken name is told. */
  lemma EnrollAnswerMeans(db: Db, rawToken: string, wellFormed: bool, device: Device, now: Time)
    requires TokensOk(db.tokens)
    ensures var status := EnrollAnswer(db, rawToken, wellFormed, device, now);
      if !wellFormed then status == Unauthorized
      else if device.name.text == "" then status == BadRequest
      else if !TokenHolds(db, Digest(rawToken), now) then status == Unauthorized
      else if device.id in db.devices || DeviceNameTaken(db, device.name) then status == Conflict
      else status == Created
  {
    var hash := Digest(rawToken);
    if TokenPasses(db, hash, now) {
      var k :| k in db.tokens && db.tokens[k].hash == hash && db.tokens[k].usedAt.None?
               && Instant(db.tokens[k].expiresAt) > Instant(now);
      var spent := map j | j in db.tokens && db.tokens[j].hash == hash ::
        db.tokens[j].(usedAt := Some(now), usedBy := Some(device.id));
      assert k in spent;
      assert forall j :: j in spent ==> j == k;
    }
  }

  ghost predicate TokenHolds(db: Db, hash: Digest, now: Time) {
    exists t :: t in db.tokens.Values && t.hash == hash && t.usedAt.None? && Instant(now) < Instant(t.expiresAt)
  }

  /** The two phases of `EnrollDevice` with nothing in between. */
  lemma ConsumeRun(db: Db, pool: Pool, rawToken: string, wellFormed: bool, name: Name, id: Id, secret: Secret,
                   now: Time)
    ensures Run(State(db, pool, map[]), [
        CheckToken(0, rawToken, wellFormed, name, now), Consume(0, id, secret, now)])
      == State(
        if wellFormed && name.text != "" && TokenPasses(db, Digest(rawToken), now)
        then Execute(db, ConsumeToken(Digest(rawToken), NewDevice(id, name, secret, now), now)).db else db, pool, map[])
  {
    var s := State(db, pool, map[]);
    var a, b := CheckToken(0, rawToken, wellFormed, name, now), Consume(0, id, secret, now);
    RunOfTwo(s, a, b);
    NoneInFlight();
    if wellFormed && name.text != "" && TokenPasses(db, Digest(rawToken), now) {
      assert Next(s, a) == State(db, pool, map[0 := Enrolling(Digest(rawToken), name, now)]);
    }
  }

  /** The ids a pass of the SSH reaper takes away. */
  function Doomed(ds: seq<Device>, undeletable: set<Id>): set<Id> {
    if ds == [] then {}
    else Doomed(ds[..|ds| - 1], undeletable) + (if ds[|ds| - 1].id in undeletable then {} else {ds[|ds| - 1].id})
  }

  ghost predicate Lists(ds: seq<Device>, k: Id) {
    exists i :: 0 <= i < |ds| && ds[i].id == k
  }

  lemma {:induction false} DoomedIds(ds: seq<Device>, undeletable: set<Id>)
    ensures forall k :: k in Doomed(ds, undeletable) <==> k !in undeletable && Lists(ds, k)
  {
    if ds != [] {
      var n := |ds| - 1;
      DoomedIds(ds[..n], undeletable);
      forall k ensures Lists(ds, k) <==> k == ds[n].id || Lists(ds[..n], k) {
        if i :| 0 <= i < |ds| && ds[i].id == k {
          assert i == n || ds[..n][i].id == k;
        }
        if i :| 0 <= i < n && ds[..n][i].id == k {
          assert ds[i].id == k;
        }
      }
    }
  }

  lemma Reaped(before: Devices, ds: seq<Device>, cutoff: Time, undeletable: set<Id>)
    requires DevicesOk(before) && Enumerates(ds, set k | k in before && LockedBefore(before[k], cutoff) :: before[k])
    ensures forall k ::
      k in Doomed(ds, undeletable) <==> k in before && k !in undeletable && LockedBefore(before[k], cutoff)
    ensures (forall k :: k in before ==> !LockedBefore(before[k], cutoff)) ==> ds == []
  {
    DoomedIds(ds, undeletable);
    forall k
      ensures k in Doomed(ds, undeletable) <==> k in before && k !in undeletable && LockedBefore(before[k], cutoff)
    {
      if k in before && LockedBefore(before[k], cutoff) {
        assert before[k] in ds;
        var i :| 0 <= i < |ds| && ds[i] == before[k];
        assert ds[i].id == k && Lists(ds, k);
      }
      if i :| 0 <= i < |ds| && ds[i].id == k {
        assert ds[i] in ds;
      }
    }
    if ds != [] {
      assert ds[0] in ds;
    }
  }

  const DEFAULT_TOKEN_TTL := 24 * 3600 * NANOS

  ghost predicate PassesUntil(db: Db, hash: Digest, end: int) {
    forall at: Time :: TokenPasses(db, hash, at) <==> Instant(at) < end
  }

  lemma IssuedPasses(db: Db, t: Token, at: Time)
    requires Execute(db, InsertToken(t)).outcome == Done && t.usedAt.None?
    ensures TokenPasses(Execute(db, InsertToken(t)).db, t.hash, at) <==> Instant(at) < Instant(t.expiresAt)
  {
    var tokens := Execute(db, InsertToken(t)).db.tokens;
    assert tokens[t.id].hash == t.hash && tokens[t.id].expiresAt == t.expiresAt && tokens[t.id].usedAt.None?;
    assert forall k :: k in tokens && tokens[k].hash == t.hash ==> k == t.id;
  }

  class Server {
    const store: Store.Store
    const tunnel: TunnelServer
    const ports: PortAllocator

    constructor (store: Store.Store, tunnel: TunnelServer, ports: PortAllocator)
      requires ports.store == store
      ensures this.store == store && this.tunnel == tunnel && this.ports == ports
    {
      this.store, this.tunnel, this.ports := store, tunnel, ports;
    }

    predicate Valid()
      reads this, tunnel
    {
      ports.store == store && tunnel.Valid()
    }

    /** The store with no handler in flight. */
    function Quiet(): State
      reads store
    {
      State(store.View(), Pool(ports.min, ports.max), map[])
    }

    /** The device table and the tunnel with no handler at work. */
    function Calm(): TunnelUsers.State
      reads store, tunnel
    {
      TunnelUsers.State(store.View(), tunnel.users, map[])
    }

    // ---------------- Services ----------------

    method HandleAddService(deviceId: Id, name: Name, protocol: string, rawAddr: string, bindLocal: Option<bool>,
                            id: Id, now: Time)
      returns (status: Answer)
      requires Valid()
      modifies store
      ensures Quiet() == Run(old(Quiet()),
        [StartService(0, deviceId, name, protocol, rawAddr, bindLocal), Allocate(0), InsertHeld(0, id, now)])
      ensures status == Created <==> store.View() != old(store.View())
      ensures var h := Admit(deviceId, name, protocol, rawAddr, bindLocal);
        status == ServiceAnswer(old(store.View()), Quiet().pool, h, id, now)
    {
      AddServiceRun(store.View(), Quiet().pool, deviceId, name, protocol, rawAddr, bindLocal, id, now);
      if name.text == "" || rawAddr == "" {
        return BadRequest;
      }
      if protocol != "tcp" && protocol != "udp" {
        return BadRequest;
      }
      var localAddr := Normalize(rawAddr);
      if localAddr.Err? {
        return BadRequest;
      }
      var bind := true;
      if bindLocal.Some? {
        bind := bindLocal.value;
      }
      status := AllocateAndInsert(AddingService(deviceId, name, protocol, localAddr.value, bind), id, now);
    }

    /** The lowest free port, then the insert; no other handler comes in between here. */
    method AllocateAndInsert(h: Handler, id: Id, now: Time) returns (status: Answer)
      requires Valid() && h.AddingService?
      modifies store
      ensures store.View() == ServiceAdded(old(store.View()), Quiet().pool, Some(h), id, now).db
      ensures status == Created <==> store.View() != old(store.View())
      ensures status == ServiceAnswer(old(store.View()), Quiet().pool, Some(h), id, now)
    {
      var port := ports.Allocate();
      if port.None? {
        return Unavailable;
      }
      var sv := Service(id, h.deviceId, h.name, h.protocol, h.localAddr, port.value,
                        true, h.bindLocal, now, None, false);
      InsertShows(store.View(), sv);
      var outcome := store.CreateService(sv);
      status := OfOutcome(outcome);
    }

    method HandleAdminCreateService(deviceId: Id, name: Name, protocol: string, rawAddr: string,
                                    bindLocal: Option<bool>, id: Id, now: Time)
      returns (status: Answer)
      requires Valid()
      modifies store
      ensures deviceId.text == "" || deviceId !in old(store.devices) ==> Quiet() == old(Quiet())
      ensures var h := Admit(deviceId, name, protocol, rawAddr, bindLocal);
        status == if deviceId.text == "" || h.None? then BadRequest
                  else if deviceId !in old(store.devices) then Answer.NotFound
                  else ServiceAnswer(old(store.View()), Quiet().pool, h, id, now)
      ensures deviceId.text != "" && deviceId in old(store.devices) ==> Quiet() == Run(old(Quiet()),
        [StartService(0, deviceId, name, protocol, rawAddr, bindLocal), Allocate(0), InsertHeld(0, id, now)])
    {
      if deviceId.text == "" || name.text == "" || rawAddr == ""
         || (protocol != "tcp" && protocol != "udp") || Normalize(rawAddr).Err?
      {
        AddServiceRun(store.View(), Quiet().pool, deviceId, name, protocol, rawAddr, bindLocal, id, now);
        return BadRequest;
      }
      var d := store.GetDeviceByID(deviceId);
      if d.None? {
        return Answer.NotFound;
      }
      status := HandleAddService(deviceId, name, protocol, rawAddr, bindLocal, id, now);
    }

    /** Delete, enable or disable a service of the calling device; any other service is "not found". */
    method HandleServiceItem(caller: Id, id: Id, action: Action) returns (status: Answer)
      requires Valid()
      modifies store
      ensures id.text == "" ==> status == BadRequest && Quiet() == old(Quiet())
      ensures id.text != "" && (id !in old(store.services) || old(store.services)[id].deviceId != caller) ==>
        status == Answer.NotFound && Quiet() == old(Quiet())
      ensures id.text != "" && id in old(store.services) && old(store.services)[id].deviceId == caller ==>
        match action
        case Delete => status == NoContent && store.View() == Execute(old(store.View()), DeleteService(id)).db
        case Enable => status == OK && store.View() == Execute(old(store.View()), SetServiceEnabled(id, true)).db
        case Disable => status == OK && store.View() == Execute(old(store.View()), SetServiceEnabled(id, false)).db
        case Unsupported => status == MethodNotAllowed && Quiet() == old(Quiet())
    {
      if id.text == "" {
        return BadRequest;
      }
      var sv := store.GetService(id);
      if sv.None? || sv.value.deviceId != caller {
        return Answer.NotFound;
      }
      match action {
        case Delete =>
          var outcome := store.DeleteService(id);
          return NoContent;
        case Enable =>
          var outcome := store.SetServiceEnabled(id, true);
          return OK;
        case Disable =>
          var outcome := store.SetServiceEnabled(id, false);
          return OK;
        case Unsupported =>
          return MethodNotAllowed;
      }
    }

    // ---------------- Forwards ----------------

    method HandleAddForward(caller: Id, serviceId: Id, localPort: int, id: Id, now: Time) returns (status: Answer)
      requires Valid()
      modifies store
      ensures status == ForwardAnswer(old(store.View()), caller, serviceId, localPort, id, now)
      ensures serviceId.text == "" ==> Quiet() == old(Quiet())
      ensures serviceId.text != "" ==> Quiet() == Run(old(Quiet()),
        [StartForward(0, caller, serviceId, localPort), InsertAdded(0, id, now)])
    {
      RunOfTwo(Quiet(), StartForward(0, caller, serviceId, localPort), InsertAdded(0, id, now));
      NoneInFlight();
      if serviceId.text == "" {
        return BadRequest;
      }
      if localPort <= 0 || localPort > 65535 {
        return BadRequest;
      }
      var remote := store.GetService(serviceId);
      if remote.None? {
        return Answer.NotFound;
      }
      var outcome := store.CreateForward(Forward(id, caller, serviceId, localPort, true, now));
      status := OfOutcome(outcome);
    }

    method HandleAdminCreateForward(ownerId: Id, serviceId: Id, localPort: int, id: Id, now: Time)
      returns (status: Answer)
      requires Valid()
      modifies store
      ensures ownerId.text == "" || ownerId !in old(store.devices) ==> Quiet() == old(Quiet())
      ensures status == if ownerId.text == "" || serviceId.text == "" || !PortInRange(localPort) then BadRequest
                        else if ownerId !in old(store.devices) then Answer.NotFound
                        else ForwardAnswer(old(store.View()), ownerId, serviceId, localPort, id, now)
      ensures ownerId in old(store.devices) && ownerId.text != "" && serviceId.text != "" ==>
        Quiet() == Run(old(Quiet()), [StartForward(0, ownerId, serviceId, localPort), InsertAdded(0, id, now)])
    {
      if ownerId.text == "" || serviceId.text == "" {
        return BadRequest;
      }
      if localPort <= 0 || localPort > 65535 {
        RunOfTwo(Quiet(), StartForward(0, ownerId, serviceId, localPort), InsertAdded(0, id, now));
        return BadRequest;
      }
      var owner := store.GetDeviceByID(ownerId);
      if owner.None? {
        return Answer.NotFound;
      }
      status := HandleAddForward(ownerId, serviceId, localPort, id, now);
    }

    method HandleForwardItem(caller: Id, id: Id, action: Action) returns (status: Answer)
      requires Valid()
      modifies store
      ensures id.text == "" ==> status == BadRequest && Quiet() == old(Quiet())
      ensures id.text != "" && (id !in old(store.forwards) || old(store.forwards)[id].ownerId != caller) ==>
        status == Answer.NotFound && Quiet() == old(Quiet())
      ensures id.text != "" && id in old(store.forwards) && old(store.forwards)[id].ownerId == caller ==>
        match action
        case Delete => status == NoContent && store.View() == Execute(old(store.View()), DeleteForward(id)).db
        case Enable => status == OK && store.View() == Execute(old(store.View()), SetForwardEnabled(id, true)).db
        case Disable => status == OK && store.View() == Execute(old(store.View()), SetForwardEnabled(id, false)).db
        case Unsupported => status == MethodNotAllowed && Quiet() == old(Quiet())
    {
      if id.text == "" {
        return BadRequest;
      }
      var f := store.GetForward(id);
      if f.None? || f.value.ownerId != caller {
        return Answer.NotFound;
      }
      match action {
        case Delete =>
          var outcome := store.DeleteForward(id);
          return NoContent;
        case Enable =>
          var outcome := store.SetForwardEnabled(id, true);
          return OK;
        case Disable =>
          var outcome := store.SetForwardEnabled(id, false);
          return OK;
        case Unsupported =>
          return MethodNotAllowed;
      }
    }

    // ---------------- Views ----------------

    /** The bootstrap of a device is its enabled services and its enabled forwards to enabled services,
    each once; asking for it also marks the device online. */
    method HandleBootstrap(caller: Id, now: Time) returns (b: Bootstrap)
      requires Valid() && Integrity(store.View()) && caller.text != ""
      modifies store
      ensures store.View() == Execute(old(store.View()), SetStatus(caller, Online, now)).db
      ensures Remotes(b, store.View(), caller) && Locals(b, store.View(), caller)
      ensures var s := Run(old(Quiet()), [Sql(SetStatus(caller, Online, now)), ReadServices(0, caller)]);
        Sends(s, ReadForwards(0), caller, b) && Quiet() == Next(s, ReadForwards(0))
    {
      ghost var before := store.View();
      var outcome := store.UpdateDeviceStatus(caller, Online, now);
      ExecuteKeepsIntegrity(before, SetStatus(caller, Online, now));
      var myServices := store.ListServicesByDevice(caller);
      var myForwards := store.ListForwardsJoined(caller);
      var enabled := (sv: Service) => sv.enabled;
      var remotes: seq<RemoteEntry> := [];
      for n := 0 to |myServices|
        invariant store.View() == Execute(before, SetStatus(caller, Online, now)).db
        invariant remotes == Collect(myServices[..n], enabled, ToRemote)
      {
        CollectNext(myServices, n, enabled, ToRemote);
        if myServices[n].enabled {
          remotes := remotes + [ToRemote(myServices[n])];
        }
      }
      var locals: seq<LocalEntry> := [];
      for n := 0 to |myForwards|
        invariant store.View() == Execute(before, SetStatus(caller, Online, now)).db
        invariant locals == Collect(myForwards[..n], Forwarded, ToLocal)
      {
        CollectNext(myForwards, n, Forwarded, ToLocal);
        if Forwarded(myForwards[n]) {
          locals := locals + [ToLocal(myForwards[n])];
        }
      }
      b := Bootstrap(remotes, locals);
      assert myServices[..|myServices|] == myServices && myForwards[..|myForwards|] == myForwards;
      RemotesCollected(store.View(), caller, myServices, enabled);
      LocalsCollected(store.View(), caller, myForwards);
      BootstrapSent(before, old(Quiet()).pool, caller, now, b);
    }

    /** Discovery shows exactly the enabled services of the other devices, each once, with its device's name. */
    method HandleDiscover(caller: Id) returns (out: seq<ServiceBrief>)
      requires Valid() && Integrity(store.View())
      ensures Enumerates(out, Discoverable(store.View(), caller))
    {
      var list := store.ListServicesJoined(Id(""));
      var keep := (it: ServiceItem) => it.service.deviceId != caller && it.service.enabled;
      out := [];
      for n := 0 to |list|
        invariant out == Collect(list[..n], keep, ToBrief)
      {
        CollectNext(list, n, keep, ToBrief);
        if list[n].service.deviceId == caller || !list[n].service.enabled {
          continue;
        }
        out := out + [ToBrief(list[n])];
      }
      assert list[..|list|] == list;
      BriefsCollected(store.View(), caller, list, keep);
    }

    // ---------------- Devices and the tunnel ----------------

    /** A new token passes the check phase exactly until its time to live is over, by default 24 hours. */
    method IssueToken(id: Id, raw: string, ttl: int, now: Time, expires: Time) returns (outcome: Outcome)
      requires Valid() && Instant(expires) == Instant(now) + (if ttl <= 0 then DEFAULT_TOKEN_TTL else ttl)
      modifies store
      ensures var t := Token(id, Digest(raw), expires, None, None, now);
        Reply(store.View(), outcome) == Execute(old(store.View()), InsertToken(t))
      ensures outcome == Done ==>
        PassesUntil(store.View(), Digest(raw), Instant(now) + (if ttl <= 0 then 24 * 3600 * 1_000_000_000 else ttl))
    {
      ghost var before := store.View();
      var t := Token(id, Digest(raw), expires, None, None, now);
      outcome := store.CreateEnrollmentToken(t);
      if outcome == Done {
        forall at: Time ensures TokenPasses(store.View(), Digest(raw), at) <==> Instant(at) < Instant(expires) {
          IssuedPasses(before, t, at);
        }
      }
    }

    /** Check phase and consume phase of `EnrollDevice`. */
    method EnrollDevice(rawToken: string, wellFormed: bool, name: Name, id: Id, secret: Secret, now: Time)
      returns (status: Answer)
      requires Valid() && TokensOk(store.tokens)
      modifies store
      ensures Quiet() == Run(old(Quiet()),
        [CheckToken(0, rawToken, wellFormed, name, now), Consume(0, id, secret, now)])
      ensures status == Created ==>
        Execute(old(store.View()), ConsumeToken(Digest(rawToken), NewDevice(id, name, secret, now), now))
        == Reply(store.View(), Done)
      ensures status == Created ==> id in store.devices && id !in old(store.devices)
      ensures status != Created ==> Quiet() == old(Quiet())
      ensures status == EnrollAnswer(old(store.View()), rawToken, wellFormed, NewDevice(id, name, secret, now), now)
    {
      var device := NewDevice(id, name, secret, now);
      ConsumeRun(store.View(), Quiet().pool, rawToken, wellFormed, name, id, secret, now);
      if !wellFormed {
        return Unauthorized;
      }
      if name.text == "" {
        return BadRequest;
      }
      var t := store.GetEnrollmentTokenByHash(Digest(rawToken));
      if t.None? || t.value.usedAt.Some? || Instant(t.value.expiresAt) <= Instant(now) {
        assert !TokenPasses(store.View(), Digest(rawToken), now);
        return Unauthorized;
      }
      assert TokenPasses(store.View(), Digest(rawToken), now) by {
        assert t.value.id in store.tokens;
      }
      var outcome := store.ConsumeEnrollmentToken(Digest(rawToken), device, now);
      match outcome {
        case Done =>
          TunnelUsers.AccountsChanged(old(store.View()), ConsumeToken(Digest(rawToken), device, now), id);
          return Created;
        case NotFound => return Unauthorized;
        case UniqueViolation => return Conflict;
        case _ => return BadRequest;
      }
    }

    /** Enrolling runs commit, AddDevice and Provision; when Provision fails it takes both back. */
    method HandleEnrollDevice(rawToken: string, wellFormed: bool, name: Name, id: Id, secret: Secret,
                              keyIsValid: bool, provisions: bool, pubkey: string, username: string, now: Time)
      returns (status: Answer)
      requires Valid() && TokensOk(store.tokens)
      modifies store, tunnel
      ensures Valid()
      ensures status == Created || status == ServerError ==> Calm() == TunnelUsers.Run(old(Calm()), [
        TunnelUsers.Commit(Digest(rawToken), NewDevice(id, name, secret, now), now),
        TunnelUsers.Advance(id, true, pubkey, username, now),
        TunnelUsers.Advance(id, provisions, pubkey, username, now),
        TunnelUsers.Advance(id, provisions, pubkey, username, now)])
      ensures status == Created <==> id in store.devices && id !in old(store.devices)
      ensures status != Created && status != ServerError ==> Calm() == old(Calm())
      ensures status == if !keyIsValid then BadRequest
                        else
                          var d := NewDevice(id, name, secret, now);
                          var answer := EnrollAnswer(old(store.View()), rawToken, wellFormed, d, now);
                          if answer == Created && !provisions then ServerError else answer
    {
      if !keyIsValid {
        return BadRequest;
      }
      var device := NewDevice(id, name, secret, now);
      status := EnrollDevice(rawToken, wellFormed, name, id, secret, now);
      if status != Created {
        return;
      }
      EnrollRun(old(Calm()), Digest(rawToken), device, provisions, pubkey, username, now);
      tunnel.AddDevice(id, secret);
      status := ProvisionSSH(id, provisions, pubkey, username);
    }

    /** The end of enrolling: record the SSH account, or roll the device back. */
    method ProvisionSSH(id: Id, provisions: bool, pubkey: string, username: string) returns (status: Answer)
      requires Valid()
      modifies store, tunnel
      ensures Valid()
      ensures status == if provisions then Created else ServerError
      ensures if provisions then store.devices.Keys == old(store.devices.Keys) else id !in store.devices
      ensures var st := if provisions then SetSsh(id, pubkey, username) else DeleteDevice(id);
        store.View() == Execute(old(store.View()), st).db
      ensures tunnel.users == if provisions then old(tunnel.users) else old(tunnel.users) - {id}
    {
      if !provisions {
        tunnel.RemoveDevice(id);
        var outcome := store.DeleteDevice(id);
        return ServerError;
      }
      var found := store.GetDeviceByID(id);
      if found.Some? {
        var outcome := store.SetDeviceSSH(id, pubkey, username);
      }
      return Created;
    }

    /** `kick`: take the user away and add it back. */
    method HandleKick(id: Id) returns (status: Answer)
      requires Valid()
      modifies tunnel
      ensures Valid()
      ensures status == (if id in store.devices then NoContent else Answer.NotFound)
      ensures tunnel.users
        == if id in store.devices then old(tunnel.users)[id := store.devices[id].secret] else old(tunnel.users)
    {
      var d := store.GetDeviceByID(id);
      if d.None? {
        return Answer.NotFound;
      }
      tunnel.RemoveDevice(id);
      tunnel.AddDevice(id, d.value.secret);
      return NoContent;
    }

    /** `revoke`: lock the row, delete it with its cascade, and take the tunnel user away. */
    method HandleRevoke(id: Id, now: Time) returns (status: Answer)
      requires Valid()
      modifies store, tunnel
      ensures Valid()
      ensures status == (if id in old(store.devices) then NoContent else Answer.NotFound)
      ensures var step := TunnelUsers.Advance(id, true, "", "", now);
        Calm() == TunnelUsers.Run(old(Calm()), [TunnelUsers.BeginRevoke(id), step, step, step])
      ensures id in old(store.devices) ==>
        store.View() == RemoveDevice(old(store.View()), id).db && tunnel.users == old(tunnel.users) - {id}
    {
      ghost var step := TunnelUsers.Advance(id, true, "", "", now);
      ghost var before := store.View();
      var d := store.GetDeviceByID(id);
      if d.None? {
        UserRunOfFour(Calm(), TunnelUsers.BeginRevoke(id), step, step, step);
        return Answer.NotFound;
      }
      RevokeRun(Calm(), id, now);
      var locked := store.MarkDeviceSSHLocked(id, now);
      var deleted := store.DeleteDevice(id);
      tunnel.RemoveDevice(id);
      LockThenRemove(before, id, now);
      return NoContent;
    }

    /** After a restart: every row of the device table becomes a tunnel user, and nothing else is one. */
    method ReloadChiselUsers()
      requires Valid() && DevicesOk(store.devices) && tunnel.users == map[]
      modifies tunnel
      ensures Valid() && tunnel.users == TunnelUsers.Secrets(store.View())
    {
      var ds := store.ListDevices();
      for n := 0 to |ds|
        invariant Valid()
        invariant tunnel.users == UsersOf(ds[..n])
      {
        assert ds[..n + 1][..n] == ds[..n];
        tunnel.AddDevice(ds[n].id, ds[n].secret);
      }
      assert ds[..|ds|] == ds;
      UsersOfEnumeration(ds, store.devices);
    }

    /** One pass of the SSH reaper. `undeletable` are the accounts whose removal fails. */
    method ReapSSHAccounts(cutoff: Time, undeletable: set<Id>)
      requires Valid() && DevicesOk(store.devices)
      modifies store
      ensures Valid()
      ensures store.devices.Keys
        == set k | k in old(store.devices) && (k in undeletable || !LockedBefore(old(store.devices)[k], cutoff))
      ensures forall k :: k in store.devices ==> store.devices[k] == old(store.devices)[k]
      ensures (forall k :: k in old(store.devices) ==> !LockedBefore(old(store.devices)[k], cutoff)) ==>
        store.View() == old(store.View())
    {
      ghost var before := store.devices;
      var ds := store.ListSSHLockedBefore(cutoff);
      for n := 0 to |ds|
        invariant Valid()
        invariant store.devices.Keys == before.Keys - Doomed(ds[..n], undeletable)
        invariant forall k :: k in store.devices ==> store.devices[k] == before[k]
        invariant n == 0 ==> store.View() == old(store.View())
      {
        assert ds[..n + 1][..n] == ds[..n];
        if ds[n].id in undeletable {
          continue;
        }
        var outcome := store.DeleteDevice(ds[n].id);
      }
      assert ds[..|ds|] == ds;
      Reaped(before, ds, cutoff, undeletable);
    }
  }

  /** With nothing in between, the two queries send what the one state shows. */
  lemma BootstrapSent(db: Db, pool: Pool, caller: Id, now: Time, b: Bootstrap)
    requires var after := Execute(db, SetStatus(caller, Online, now)).db;
      Remotes(b, after, caller) && Locals(b, after, caller)
    ensures var after := Execute(db, SetStatus(caller, Online, now)).db;
      var s := Run(State(db, pool, map[]),
        [Sql(SetStatus(caller, Online, now)), ReadServices(0, caller)]);
      && Sends(s, ReadForwards(0), caller, b)
      && Next(s, ReadForwards(0)) == State(after, pool, map[])
  {
    var s0 := State(db, pool, map[]);
    RunOfTwo(s0, Sql(SetStatus(caller, Online, now)), ReadServices(0, caller));
    NoneInFlight();
    var after := Execute(db, SetStatus(caller, Online, now)).db;
    var s1 := Next(s0, Sql(SetStatus(caller, Online, now)));
    assert s1 == State(after, pool, map[]);
    assert Next(s1, ReadServices(0, caller)).flight == map[0 := Bootstrapping(caller, RemoteSet(after, caller))];
  }

  lemma RemotesCollected(db: Db, caller: Id, rows: seq<Service>, enabled: Service -> bool)
    requires ServicesOk(db.services) && Enumerates(rows, set k | k in OwnServices(db, caller) :: db.services[k])
    requires forall sv :: enabled(sv) == sv.enabled
    ensures Enumerates(Collect(rows, enabled, ToRemote), RemoteSet(db, caller))
  {
    var own := set k | k in OwnServices(db, caller) :: db.services[k];
    CollectEnumerates(rows, own, enabled, ToRemote);
    var image := set sv | sv in own && enabled(sv) :: ToRemote(sv);
    forall e ensures e in image <==> e in RemoteSet(db, caller) {
      if e in RemoteSet(db, caller) {
        var k :| k in db.services && db.services[k].deviceId == caller && db.services[k].enabled
                 && e == ToRemote(db.services[k]);
        assert db.services[k] in own;
      }
    }
    assert image == RemoteSet(db, caller);
  }

  lemma LocalsCollected(db: Db, caller: Id, rows: seq<ForwardItem>)
    requires ForwardsOk(db.forwards) && caller.text != "" && Enumerates(rows, ForwardItems(db, caller))
    ensures Enumerates(Collect(rows, Forwarded, ToLocal), LocalSet(db, caller))
  {
    CollectEnumerates(rows, ForwardItems(db, caller), Forwarded, ToLocal);
    var image := set it | it in ForwardItems(db, caller) && Forwarded(it) :: ToLocal(it);
    forall e ensures e in image <==> e in LocalSet(db, caller) {
      if e in LocalSet(db, caller) {
        var k :| k in db.forwards && db.forwards[k].ownerId == caller && Forwarded(JoinForward(db, db.forwards[k]))
          && e == ToLocal(JoinForward(db, db.forwards[k]));
        assert JoinForward(db, db.forwards[k]) in ForwardItems(db, caller);
      }
    }
    assert image == LocalSet(db, caller);
  }

  /** The enabled services of other devices, with the columns that are shown. */
  function Discoverable(db: Db, caller: Id): set<ServiceBrief> {
    set k | k in db.services && db.services[k].deviceId != caller && db.services[k].enabled ::
      var sv := db.services[k];
      ServiceBrief(sv.id, sv.deviceId, NameOr(db.devices, sv.deviceId), sv.name.text, sv.protocol, sv.publicPort)
  }

  lemma BriefsCollected(db: Db, caller: Id, rows: seq<ServiceItem>, keep: ServiceItem -> bool)
    requires Integrity(db) && Enumerates(rows, ServiceItems(db, Id("")))
    requires forall it :: keep(it) == (it.service.deviceId != caller && it.service.enabled)
    ensures Enumerates(Collect(rows, keep, ToBrief), Discoverable(db, caller))
  {
    var all := ServiceItems(db, Id(""));
    CollectEnumerates(rows, all, keep, ToBrief);
    var image := set it | it in all && keep(it) :: ToBrief(it);
    forall e ensures e in image <==> e in Discoverable(db, caller) {
      if e in Discoverable(db, caller) {
        var k :| k in db.services && db.services[k].deviceId != caller && db.services[k].enabled
          && e == ToBrief(ServiceItem(db.services[k], NameOr(db.devices, db.services[k].deviceId)));
        assert ServiceItem(db.services[k], NameOr(db.devices, db.services[k].deviceId)) in all;
      }
    }
    assert image == Discoverable(db, caller);
  }
}
