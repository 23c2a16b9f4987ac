/** What a row holds goes back to the request of the handler that inserted it, however handlers interleave. */
module Requests {
  import opened Wrappers
  import opened Timestamps
  import opened LocalAddr
  import opened Schema
  import opened ControlPlane
  import opened Guarantees

  /** The lowest port of the pool that no service has. */
  ghost predicate LowestFree(db: Db, pool: Pool, port: int) {
    && pool.min <= port <= pool.max && port !in UsedPorts(db)
    && forall p :: pool.min <= p < port ==> p in UsedPorts(db)
  }

  /** What an admitted request to add a service asks for; it is bound locally unless it says otherwise. */
  ghost predicate Asked(q: Step, h: Handler)
    requires q.StartService? && h.AddingService?
  {
    && h.deviceId == q.deviceId && h.name == q.name && h.protocol == q.protocol
    && Normalize(q.rawAddr) == Ok(h.localAddr) && h.bindLocal == (q.bindLocal != Some(false))
    && q.name.text != "" && q.protocol in {"tcp", "udp"}
  }

  /** A request is admitted exactly when it has a name, a known protocol and an address that normalises. */
  lemma AdmittedIff(deviceId: Id, name: Name, protocol: string, rawAddr: string, bindLocal: Option<bool>)
    ensures var h := Admit(deviceId, name, protocol, rawAddr, bindLocal);
      && (h.Some? <==> name.text != "" && protocol in {"tcp", "udp"} && Normalize(rawAddr).Ok?)
      && (h.Some? ==> h.value.AddingService?
                      && Asked(StartService(0, deviceId, name, protocol, rawAddr, bindLocal), h.value))
  {
    if rawAddr == "" {
      assert TrimSpace(rawAddr) == "";
    }
  }

  /** A handler that waits for its port was started by a request, and asks for what the request said. */
  lemma {:induction false} RequestOf(s: State, steps: seq<Step>, n: nat, rid: nat) returns (i: nat)
    requires n <= |steps| && rid !in s.flight
    requires rid in At(s, steps, n).flight && At(s, steps, n).flight[rid].AddingService?
    ensures i < n && steps[i].StartService? && steps[i].rid == rid && Asked(steps[i], At(s, steps, n).flight[rid])
  {
    assert n > 0 by { assert steps[..0] == []; }
    AtNext(s, steps, n - 1);
    var before := At(s, steps, n - 1);
    if rid in before.flight && before.flight[rid] == At(s, steps, n).flight[rid] {
      i := RequestOf(s, steps, n - 1, rid);
    } else {
      i := n - 1;
      var q := steps[i];
      AdmittedIff(q.deviceId, q.name, q.protocol, q.rawAddr, q.bindLocal);
    }
  }

  lemma AllocateOnly(s: State, step: Step, rid: nat)
    requires rid in Next(s, step).flight && Next(s, step).flight[rid].HoldingPort?
    requires rid in s.flight ==> s.flight[rid] != Next(s, step).flight[rid]
    ensures step == Allocate(rid)
  {
  }

  lemma HeldFrom(s: State, step: Step, rid: nat)
    requires step == Allocate(rid) && rid in Next(s, step).flight && Next(s, step).flight[rid].HoldingPort?
    requires rid in s.flight && s.flight[rid].HoldingPort? ==> s.flight[rid] != Next(s, step).flight[rid]
    ensures rid in s.flight && s.flight[rid].AddingService?
    ensures var h, held := s.flight[rid], Next(s, step).flight[rid];
      && held.deviceId == h.deviceId && held.name == h.name && held.protocol == h.protocol
      && held.localAddr == h.localAddr && held.bindLocal == h.bindLocal && LowestFree(s.db, s.pool, held.port)
  {
    FirstFreeIsLowest(UsedPorts(s.db), s.pool.min, s.pool.max);
  }

  /** A handler that holds a port and what it was asked for. */
  ghost predicate HeldAsked(q: Step, h: Handler)
    requires q.StartService? && h.HoldingPort?
  {
    Asked(q, AddingService(h.deviceId, h.name, h.protocol, h.localAddr, h.bindLocal))
  }

  lemma HeldJustNow(s: State, steps: seq<Step>, j: nat, rid: nat, h: Handler) returns (i: nat)
    requires j < |steps| && rid !in s.flight && h.HoldingPort?
    requires rid in At(s, steps, j + 1).flight && At(s, steps, j + 1).flight[rid] == h
    requires rid !in At(s, steps, j).flight || At(s, steps, j).flight[rid] != h
    ensures steps[j] == Allocate(rid) && LowestFree(At(s, steps, j).db, At(s, steps, j).pool, h.port)
    ensures i < j && steps[i].StartService? && steps[i].rid == rid && HeldAsked(steps[i], h)
  {
    AtNext(s, steps, j);
    AllocateOnly(At(s, steps, j), steps[j], rid);
    HeldFrom(At(s, steps, j), steps[j], rid);
    i := RequestOf(s, steps, j, rid);
  }

  /** The Allocate of a handler that holds a port, and the request before it. */
  lemma {:induction false} HeldForRequest(s: State, steps: seq<Step>, n: nat, rid: nat) returns (i: nat, j: nat)
    requires n <= |steps| && rid !in s.flight
    requires rid in At(s, steps, n).flight && At(s, steps, n).flight[rid].HoldingPort?
    ensures i < j < n && steps[i].StartService? && steps[i].rid == rid && steps[j] == Allocate(rid)
    ensures HeldAsked(steps[i], At(s, steps, n).flight[rid])
    ensures LowestFree(At(s, steps, j).db, At(s, steps, j).pool, At(s, steps, n).flight[rid].port)
  {
    assert n > 0 by { assert steps[..0] == []; }
    var before := At(s, steps, n - 1);
    var h := At(s, steps, n).flight[rid];
    if rid in before.flight && before.flight[rid] == h {
      i, j := HeldForRequest(s, steps, n - 1, rid);
    } else {
      j := n - 1;
      i := HeldJustNow(s, steps, j, rid, h);
    }
  }

  /** A service row as it was asked for. */
  ghost predicate ServiceAsked(q: Step, row: Service)
    requires q.StartService?
  {
    && row.deviceId == q.deviceId && row.name == q.name && row.protocol == q.protocol
    && Normalize(q.rawAddr) == Ok(row.localAddr) && row.bindLocal == (q.bindLocal != Some(false))
    && row.enabled && row.lastProbeAt.None? && !row.lastProbeOk
  }

  lemma InsertedAsAsked(t: State, step: Step, q: Step)
    requires step.InsertHeld? && step.rid in t.flight && t.flight[step.rid].HoldingPort?
    requires Execute(t.db, Issued(t, step).value).outcome == Done
    requires q.StartService? && HeldAsked(q, t.flight[step.rid])
    ensures step.id !in t.db.services && step.id in Next(t, step).db.services
    ensures var row := Next(t, step).db.services[step.id];
      ServiceAsked(q, row) && row.createdAt == step.now && row.publicPort == t.flight[step.rid].port
  {
    var sv := NewService(step.id, t.flight[step.rid], step.now);
    InsertedRow(t.db, sv);
    assert Next(t, step).db == Execute(t.db, InsertService(sv)).db;
  }

  lemma InsertedRow(db: Db, sv: Service)
    requires Execute(db, InsertService(sv)).outcome == Done
    ensures sv.id !in db.services
    ensures Execute(db, InsertService(sv)).db.services
      == db.services[sv.id := sv.(lastProbeAt := None, lastProbeOk := false)]
  {
  }

  /** A service that is inserted has what its request said, is enabled, and has the port that was the lowest free
  one when its handler asked for it. */
  lemma ServiceAsRequested(s: State, steps: seq<Step>, n: nat) returns (i: nat, j: nat)
    requires n < |steps| && steps[n].InsertHeld? && steps[n].rid !in s.flight
    requires var f := At(s, steps, n).flight; steps[n].rid in f && f[steps[n].rid].HoldingPort?
    requires var t := At(s, steps, n); Execute(t.db, Issued(t, steps[n]).value).outcome == Done
    ensures i < j < n && steps[i].StartService? && steps[i].rid == steps[n].rid && steps[j] == Allocate(steps[n].rid)
    ensures var after := At(s, steps, n + 1).db.services;
      && steps[n].id !in At(s, steps, n).db.services && steps[n].id in after
      && ServiceAsked(steps[i], after[steps[n].id]) && after[steps[n].id].createdAt == steps[n].now
      && LowestFree(At(s, steps, j).db, At(s, steps, j).pool, after[steps[n].id].publicPort)
  {
    i, j := HeldForRequest(s, steps, n, steps[n].rid);
    AtNext(s, steps, n);
    InsertedAsAsked(At(s, steps, n), steps[n], steps[i]);
  }

  /** A forward that is inserted has what its request said, and is enabled. */
  lemma ForwardAsRequested(s: State, steps: seq<Step>, n: nat) returns (i: nat)
    requires n < |steps| && steps[n].InsertAdded? && steps[n].rid !in s.flight
    requires var f := At(s, steps, n).flight; steps[n].rid in f && f[steps[n].rid].AddingForward?
    requires var t := At(s, steps, n); Execute(t.db, Issued(t, steps[n]).value).outcome == Done
    ensures i < n && steps[i].StartForward? && steps[i].rid == steps[n].rid
    ensures var before, after := At(s, steps, n).db.forwards, At(s, steps, n + 1).db.forwards;
      && steps[n].id !in before
      && after == before[steps[n].id := Forward(
           steps[n].id, steps[i].ownerId, steps[i].serviceId, steps[i].localPort, true, steps[n].now)]
  {
    i := ServiceWasThere(s, steps, n, steps[n].rid);
    AtNext(s, steps, n);
  }

  /** A device that enrolls has the name its check was given, starts offline and has no SSH account yet. */
  lemma DeviceAsRequested(s: State, steps: seq<Step>, n: nat) returns (i: nat)
    requires n < |steps| && steps[n].Consume? && steps[n].rid !in s.flight
    requires var f := At(s, steps, n).flight; steps[n].rid in f && f[steps[n].rid].Enrolling?
    requires var t := At(s, steps, n); Execute(t.db, Issued(t, steps[n]).value).outcome == Done
    ensures i < n && steps[i].CheckToken? && steps[i].rid == steps[n].rid
    ensures var before, after := At(s, steps, n).db.devices, At(s, steps, n + 1).db.devices;
      && steps[n].id !in before
      && after == before[steps[n].id := Device(
           steps[n].id, steps[i].name, steps[n].secret, Offline, steps[n].now, None, "", "", None)]
  {
    i := CheckedBeforeExpiry(s, steps, n, steps[n].rid);
    AtNext(s, steps, n);
  }
}
