/** The control plane as a state machine: any number of handlers in flight over one store.

A handler that checks first and acts later is split where another handler can come in between:
port allocation and insert, token check and consume, service lookup and forward insert, and the two
queries behind a bootstrap.
*/
module ControlPlane {
  import opened Wrappers
  import opened Timestamps
  import opened LocalAddr
  import opened Schema
  import opened Bootstrap
  import opened Sorting

  datatype Pool = Pool(min: int, max: int)

  /** `ServerConfig.validate`, the part about the port pool. */
  predicate ValidPool(p: Pool) {
    !(p.min <= 0 || p.max <= 0 || p.min > p.max || p.min > 65535 || p.max > 65535)
  }

  lemma PoolIsRange(p: Pool)
    ensures ValidPool(p) <==> 1 <= p.min <= p.max <= 65535
  {
  }

  /** What a handler in flight holds on to. */
  datatype Handler =
    | AddingService(deviceId: Id, name: Name, protocol: string, localAddr: string, bindLocal: bool)
    | HoldingPort(deviceId: Id, name: Name, protocol: string, localAddr: string, bindLocal: bool, port: int)
    | AddingForward(ownerId: Id, serviceId: Id, localPort: int)
    | Enrolling(hash: Digest, name: Name, checkedAt: Time)
    | Bootstrapping(deviceId: Id, remotes: set<RemoteEntry>)

  datatype State = State(db: Db, pool: Pool, flight: map<nat, Handler>)

  datatype Step =
    | Sql(statement: Statement)
    | StartService(rid: nat, deviceId: Id, name: Name, protocol: string, rawAddr: string, bindLocal: Option<bool>)
    | Allocate(rid: nat)
    | InsertHeld(rid: nat, id: Id, now: Time)
    | StartForward(rid: nat, ownerId: Id, serviceId: Id, localPort: int)
    | InsertAdded(rid: nat, id: Id, now: Time)
    | CheckToken(rid: nat, rawToken: string, wellFormed: bool, name: Name, now: Time)
    | Consume(rid: nat, id: Id, secret: Secret, now: Time)
    | ReadServices(rid: nat, deviceId: Id)
    | ReadForwards(rid: nat)
    | GiveUp(rid: nat)
    | Restart(pool: Pool)

  /** Statements that handlers issue on their own; the others come out of the flights above. */
  predicate Standalone(st: Statement) {
    !st.InsertService? && !st.InsertForward? && !st.ConsumeToken?
  }

  /** The scan of `Allocate`. */
  function FirstFree(used: set<int>, port: int, max: int): Option<int>
    decreases max - port
  {
    if port > max then None else if port !in used then Some(port) else FirstFree(used, port + 1, max)
  }

  function NewService(id: Id, h: Handler, now: Time): Service
    requires h.HoldingPort?
  {
    Service(id, h.deviceId, h.name, h.protocol, h.localAddr, h.port, true, h.bindLocal, now, None, false)
  }

  function NewDevice(id: Id, name: Name, secret: Secret, now: Time): Device {
    Device(id, name, secret, Offline, now, None, "", "", None)
  }

  /** The checks of `HandleAddService` before it asks for a port. */
  function Admit(deviceId: Id, name: Name, protocol: string, rawAddr: string,
                 bindLocal: Option<bool>): Option<Handler>
  {
    if name.text == "" || rawAddr == "" || protocol !in {"tcp", "udp"} then None
    else
      match Normalize(rawAddr)
      case Err(_) => None
      case Ok(addr) =>
        Some(AddingService(deviceId, name, protocol, addr, if bindLocal.Some? then bindLocal.value else true))
  }

  /** The check phase of `EnrollDevice`: an unused token that expires after now. */
  predicate TokenPasses(db: Db, hash: Digest, now: Time) {
    exists k :: k in db.tokens && db.tokens[k].hash == hash && db.tokens[k].usedAt.None?
                && Instant(db.tokens[k].expiresAt) > Instant(now)
  }

  function Launch(s: State, rid: nat, h: Option<Handler>): State {
    if rid in s.flight || h.None? then s else s.(flight := s.flight[rid := h.value])
  }

  function Land(s: State, rid: nat, db: Db): State {
    s.(db := db, flight := s.flight - {rid})
  }

  function Next(s: State, step: Step): State {
    match step
    case Sql(st) => if Standalone(st) then s.(db := Execute(s.db, st).db) else s
    case StartService(rid, d, name, protocol, raw, bind) => Launch(s, rid, Admit(d, name, protocol, raw, bind))
    case Allocate(rid) =>
      if rid in s.flight && s.flight[rid].AddingService? then
        var h := s.flight[rid];
        match FirstFree(UsedPorts(s.db), s.pool.min, s.pool.max)
        case None => Land(s, rid, s.db)
        case Some(port) =>
          s.(flight := s.flight[rid := HoldingPort(h.deviceId, h.name, h.protocol, h.localAddr, h.bindLocal, port)])
      else s
    case InsertHeld(rid, id, now) =>
      if rid in s.flight && s.flight[rid].HoldingPort? then
        Land(s, rid, Execute(s.db, InsertService(NewService(id, s.flight[rid], now))).db)
      else s
    case StartForward(rid, owner, service, localPort) =>
      Launch(s, rid, if PortInRange(localPort) && service in s.db.services
                     then Some(AddingForward(owner, service, localPort)) else None)
    case InsertAdded(rid, id, now) =>
      if rid in s.flight && s.flight[rid].AddingForward? then
        var h := s.flight[rid];
        Land(s, rid, Execute(s.db, InsertForward(Forward(id, h.ownerId, h.serviceId, h.localPort, true, now))).db)
      else s
    case CheckToken(rid, raw, wellFormed, name, now) =>
      Launch(s, rid, if wellFormed && name.text != "" && TokenPasses(s.db, Digest(raw), now)
                     then Some(Enrolling(Digest(raw), name, now)) else None)
    case Consume(rid, id, secret, now) =>
      if rid in s.flight && s.flight[rid].Enrolling? then
        var h := s.flight[rid];
        Land(s, rid, Execute(s.db, ConsumeToken(h.hash, NewDevice(id, h.name, secret, now), now)).db)
      else s
    case ReadServices(rid, d) => Launch(s, rid, Some(Bootstrapping(d, RemoteSet(s.db, d))))
    case ReadForwards(rid) => if rid in s.flight && s.flight[rid].Bootstrapping? then Land(s, rid, s.db) else s
    case GiveUp(rid) => Land(s, rid, s.db)
    case Restart(pool) => if ValidPool(pool) then State(s.db, pool, map[]) else s
  }

  function Run(s: State, steps: seq<Step>): State {
    if steps == [] then s else Next(Run(s, steps[..|steps| - 1]), steps[|steps| - 1])
  }

  /** The state before step `i`. */
  function At(s: State, steps: seq<Step>, i: nat): State
    requires i <= |steps|
  {
    Run(s, steps[..i])
  }

  lemma AtNext(s: State, steps: seq<Step>, i: nat)
    requires i < |steps|
    ensures At(s, steps, i + 1) == Next(At(s, steps, i), steps[i])
  {
    assert steps[..i + 1][..i] == steps[..i];
  }

  lemma RunOfTwo(s: State, a: Step, b: Step)
    ensures Run(s, [a, b]) == Next(Next(s, a), b)
  {
    assert [a, b][..1] == [a] && [a][..0] == [];
    assert Run(s, [a]) == Next(s, a);
  }

  lemma RunOfThree(s: State, a: Step, b: Step, c: Step)
    ensures Run(s, [a, b, c]) == Next(Next(Next(s, a), b), c)
  {
    assert [a, b, c][..2] == [a, b];
    RunOfTwo(s, a, b);
  }

  lemma RunOfFour(s: State, a: Step, b: Step, c: Step, d: Step)
    ensures Run(s, [a, b, c, d]) == Next(Next(Next(Next(s, a), b), c), d)
  {
    RunOfThree(s, a, b, c);
    var four := [a, b, c, d];
    assert four[..3] == [a, b, c] && four[3] == d;
    assert Run(s, four) == Next(Run(s, [a, b, c]), d);
  }

  // ---------------- The invariant of every run ----------------

  ghost predicate HandlerOk(h: Handler) {
    match h
    case AddingService(_, _, protocol, addr, _) => protocol in {"tcp", "udp"} && IsNormal(addr)
    case HoldingPort(_, _, protocol, addr, _, port) => protocol in {"tcp", "udp"} && IsNormal(addr) && PortInRange(port)
    case AddingForward(_, _, localPort) => PortInRange(localPort)
    case Enrolling(_, _, _) => true
    case Bootstrapping(_, _) => true
  }

  /** At this step a handler reads the forwards of a device, after its services, and sends both. */
  ghost predicate Sends(s: State, step: Step, d: Id, b: Bootstrap) {
    && step.ReadForwards? && step.rid in s.flight
    && s.flight[step.rid].Bootstrapping? && s.flight[step.rid].deviceId == d
    && Enumerates(b.remotes, s.flight[step.rid].remotes) && Locals(b, s.db, d)
  }

  ghost predicate FlightOk(flight: map<nat, Handler>) {
    forall rid :: rid in flight ==> HandlerOk(flight[rid])
  }

  ghost predicate Inv(s: State) {
    Integrity(s.db) && ValuesOk(s.db) && ValidPool(s.pool) && FlightOk(s.flight)
  }

  ghost predicate StatementOk(st: Statement) {
    && (st.InsertService? ==> PortInRange(st.service.publicPort) && IsNormal(st.service.localAddr))
    && (st.InsertForward? ==> PortInRange(st.forward.localPort))
  }

  lemma ExecuteKeepsValues(db: Db, st: Statement)
    requires ValuesOk(db) && StatementOk(st)
    ensures ValuesOk(Execute(db, st).db)
  {
    ServiceRowsAfter(db, st);
    ForwardRowsAfter(db, st);
    var after := Execute(db, st).db;
    forall k | k in after.services
      ensures PortInRange(after.services[k].publicPort) && IsNormal(after.services[k].localAddr)
    {
      assert ServiceRow(db, st, k, after.services[k]);
    }
    forall k | k in after.forwards ensures PortInRange(after.forwards[k].localPort) {
      assert ForwardRow(db, st, k, after.forwards[k]);
    }
  }

  lemma ExecuteKeepsDb(db: Db, st: Statement)
    requires Integrity(db) && ValuesOk(db) && StatementOk(st)
    ensures Integrity(Execute(db, st).db) && ValuesOk(Execute(db, st).db)
  {
    ExecuteKeepsIntegrity(db, st);
    ExecuteKeepsValues(db, st);
  }

  lemma {:induction false} FirstFreeIsLowest(used: set<int>, min: int, max: int)
    ensures var r := FirstFree(used, min, max);
      && (r.None? <==> forall p :: min <= p <= max ==> p in used)
      && (r.Some? ==> min <= r.value <= max && r.value !in used && forall p :: min <= p < r.value ==> p in used)
    decreases max - min
  {
    if min <= max && min in used {
      FirstFreeIsLowest(used, min + 1, max);
    }
  }

  lemma AdmitOk(deviceId: Id, name: Name, protocol: string, rawAddr: string, bindLocal: Option<bool>)
    ensures var h := Admit(deviceId, name, protocol, rawAddr, bindLocal); h.Some? ==> HandlerOk(h.value)
  {
    if Admit(deviceId, name, protocol, rawAddr, bindLocal).Some? {
      NormalizeGivesNormal(rawAddr);
    }
  }

  /** The statement a step executes, if it executes one. */
  function Issued(s: State, step: Step): Option<Statement> {
    match step
    case Sql(st) => if Standalone(st) then Some(st) else None
    case InsertHeld(rid, id, now) =>
      if rid in s.flight && s.flight[rid].HoldingPort? then Some(InsertService(NewService(id, s.flight[rid], now)))
      else None
    case InsertAdded(rid, id, now) =>
      if rid in s.flight && s.flight[rid].AddingForward? then
        var h := s.flight[rid];
        Some(InsertForward(Forward(id, h.ownerId, h.serviceId, h.localPort, true, now)))
      else None
    case Consume(rid, id, secret, now) =>
      if rid in s.flight && s.flight[rid].Enrolling? then
        Some(ConsumeToken(s.flight[rid].hash, NewDevice(id, s.flight[rid].name, secret, now), now))
      else None
    case _ => None
  }

  lemma NextDb(s: State, step: Step)
    ensures Next(s, step).db == match Issued(s, step) case None => s.db case Some(st) => Execute(s.db, st).db
  {
  }

  lemma NextFlight(s: State, step: Step)
    requires FlightOk(s.flight) && ValidPool(s.pool)
    ensures FlightOk(Next(s, step).flight) && ValidPool(Next(s, step).pool)
  {
    match step
    case StartService(rid, d, name, protocol, raw, bind) => AdmitOk(d, name, protocol, raw, bind);
    case Allocate(rid) => FirstFreeIsLowest(UsedPorts(s.db), s.pool.min, s.pool.max);
    case _ =>
  }

  lemma NextKeepsInv(s: State, step: Step)
    requires Inv(s)
    ensures Inv(Next(s, step))
  {
    NextDb(s, step);
    NextFlight(s, step);
    var st := Issued(s, step);
    if st.Some? {
      ExecuteKeepsDb(s.db, st.value);
    }
  }

  /** Whatever the handlers do, in whatever order, and across restarts with another pool. */
  lemma {:induction false} RunKeepsInv(s: State, steps: seq<Step>)
    requires Inv(s)
    ensures Inv(Run(s, steps))
  {
    if steps != [] {
      RunKeepsInv(s, steps[..|steps| - 1]);
      NextKeepsInv(Run(s, steps[..|steps| - 1]), steps[|steps| - 1]);
    }
  }

  function Start(pool: Pool): State {
    State(EMPTY, pool, map[])
  }

  lemma StartIsOk(pool: Pool)
    requires ValidPool(pool)
    ensures Inv(Start(pool))
  {
  }
}
