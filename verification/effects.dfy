/** What each change to the tables does to the bootstraps of all devices, and which change undoes which. */
module Effects {
  import opened Wrappers
  import opened Timestamps
  import opened Schema
  import opened Bootstrap

  // ---------------- Entries by row ----------------

  /** The one row behind a remote entry. */
  ghost predicate Offers(t: Services, d: Id, r: RemoteEntry) {
    && r.serviceId in t && t[r.serviceId].deviceId == d && t[r.serviceId].enabled
    && var sv := t[r.serviceId];
       r == RemoteEntry(sv.id, sv.publicPort, sv.localAddr, sv.protocol, sv.bindLocal)
  }

  lemma RemoteByRow(db: Db, d: Id, r: RemoteEntry)
    requires ServicesOk(db.services)
    ensures r in RemoteSet(db, d) <==> Offers(db.services, d, r)
  {
  }

  ghost predicate Leads(t: Services, f: Forward, l: LocalEntry) {
    && f.enabled && f.serviceId.text != "" && f.serviceId in t && t[f.serviceId].enabled
    && l == LocalEntry(f.id, f.localPort, t[f.serviceId].publicPort, t[f.serviceId].protocol)
  }

  /** The one row, and the one service row, behind a local entry. */
  ghost predicate Takes(t: Services, fs: Forwards, d: Id, l: LocalEntry) {
    l.forwardId in fs && fs[l.forwardId].ownerId == d && Leads(t, fs[l.forwardId], l)
  }

  lemma LeadsByJoin(db: Db, f: Forward, l: LocalEntry)
    ensures Leads(db.services, f, l) <==> Forwarded(JoinForward(db, f)) && l == ToLocal(JoinForward(db, f))
  {
  }

  lemma LocalByRow(db: Db, d: Id, l: LocalEntry)
    requires ForwardsOk(db.forwards)
    ensures l in LocalSet(db, d) <==> Takes(db.services, db.forwards, d, l)
  {
    if l in LocalSet(db, d) {
      var k :| k in db.forwards && db.forwards[k].ownerId == d && Forwarded(JoinForward(db, db.forwards[k]))
        && l == ToLocal(JoinForward(db, db.forwards[k]));
      LeadsByJoin(db, db.forwards[k], l);
    }
    if Takes(db.services, db.forwards, d, l) {
      LeadsByJoin(db, db.forwards[l.forwardId], l);
    }
  }

  /** Both readings, before and after a statement. */
  lemma ByRows(db: Db, st: Statement, d: Id, r: RemoteEntry, l: LocalEntry)
    requires Integrity(db)
    ensures var after := Execute(db, st).db;
      && (r in RemoteSet(db, d) <==> Offers(db.services, d, r))
      && (r in RemoteSet(after, d) <==> Offers(after.services, d, r))
      && (l in LocalSet(db, d) <==> Takes(db.services, db.forwards, d, l))
      && (l in LocalSet(after, d) <==> Takes(after.services, after.forwards, d, l))
      && ForwardsRefer(after.forwards, after.devices.Keys, after.services.Keys)
  {
    var after := Execute(db, st).db;
    ExecuteKeepsIntegrity(db, st);
    RemoteByRow(db, d, r);
    RemoteByRow(after, d, r);
    LocalByRow(db, d, l);
    LocalByRow(after, d, l);
  }

  // ---------------- Adding ----------------

  lemma AddedRows(t: Services, sv: Service, fs: Forwards, devices: set<Id>, d: Id, r: RemoteEntry, l: LocalEntry)
    requires ServicesOk(t) && sv.id !in t && ForwardsRefer(fs, devices, t.Keys)
    ensures var u := t[sv.id := sv.(lastProbeAt := None, lastProbeOk := false)];
      && (Offers(u, d, r) <==> Offers(t, d, r) || (d == sv.deviceId && sv.enabled && r == ToRemote(sv)))
      && (Takes(u, fs, d, l) <==> Takes(t, fs, d, l))
  {
    assert ToRemote(sv.(lastProbeAt := None, lastProbeOk := false)) == ToRemote(sv);
  }

  /** A new service shows up in its own device's bootstrap and nowhere else; no tunnel of anyone changes. */
  lemma AddedServiceShows(db: Db, sv: Service, d: Id, r: RemoteEntry, l: LocalEntry)
    requires Integrity(db) && Execute(db, InsertService(sv)).outcome == Done
    ensures var after := Execute(db, InsertService(sv)).db;
      && (r in RemoteSet(after, d) <==> r in RemoteSet(db, d) || (d == sv.deviceId && sv.enabled && r == ToRemote(sv)))
      && (l in LocalSet(after, d) <==> l in LocalSet(db, d))
  {
    ByRows(db, InsertService(sv), d, r, l);
    AddedRows(db.services, sv, db.forwards, db.devices.Keys, d, r, l);
  }

  lemma AddedForwardRow(t: Services, fs: Forwards, f: Forward, d: Id, l: LocalEntry)
    requires f.id !in fs
    ensures Takes(t, fs[f.id := f], d, l) <==> Takes(t, fs, d, l) || (d == f.ownerId && Leads(t, f, l))
  {
  }

  /** A new forward shows up in its owner's bootstrap, if it leads to an enabled service, and nowhere else. */
  lemma AddedForwardShows(db: Db, f: Forward, d: Id, r: RemoteEntry, l: LocalEntry)
    requires Integrity(db) && Execute(db, InsertForward(f)).outcome == Done
    ensures var after := Execute(db, InsertForward(f)).db;
      && (r in RemoteSet(after, d) <==> r in RemoteSet(db, d))
      && (l in LocalSet(after, d) <==> l in LocalSet(db, d) || (d == f.ownerId && Leads(db.services, f, l)))
  {
    ByRows(db, InsertForward(f), d, r, l);
    AddedForwardTables(db, f);
    AddedForwardRow(db.services, db.forwards, f, d, l);
  }

  lemma AddedForwardTables(db: Db, f: Forward)
    requires Execute(db, InsertForward(f)).outcome == Done
    ensures Execute(db, InsertForward(f)).db == db.(forwards := db.forwards[f.id := f]) && f.id !in db.forwards
  {
  }

  // ---------------- Switching ----------------

  lemma SwitchedRows(t: Services, id: Id, fs: Forwards, devices: set<Id>, d: Id, r: RemoteEntry, l: LocalEntry)
    requires ServicesOk(t) && id in t && ForwardsRefer(fs, devices, t.Keys)
    ensures var u := t[id := t[id].(enabled := false)];
      && (Offers(u, d, r) <==> Offers(t, d, r) && r.serviceId != id)
      && (Takes(u, fs, d, l) <==> Takes(t, fs, d, l) && l.remotePublicPort != t[id].publicPort)
  {
  }

  /** Disabling a service takes its entry from its device and every tunnel that leads to it from every
  device, and nothing else. */
  lemma DisabledServiceVanishes(db: Db, id: Id, d: Id, r: RemoteEntry, l: LocalEntry)
    requires Integrity(db) && id in db.services
    ensures var after := Execute(db, SetServiceEnabled(id, false)).db;
      && (r in RemoteSet(after, d) <==> r in RemoteSet(db, d) && r.serviceId != id)
      && (l in LocalSet(after, d) <==> l in LocalSet(db, d) && l.remotePublicPort != db.services[id].publicPort)
  {
    ByRows(db, SetServiceEnabled(id, false), d, r, l);
    SwitchedRows(db.services, id, db.forwards, db.devices.Keys, d, r, l);
  }

  lemma SwitchedForwardRow(t: Services, fs: Forwards, id: Id, d: Id, l: LocalEntry)
    requires id in fs
    ensures Takes(t, fs[id := fs[id].(enabled := false)], d, l) <==> Takes(t, fs, d, l) && l.forwardId != id
  {
  }

  /** Disabling a forward takes its own entry and nothing else. */
  lemma DisabledForwardVanishes(db: Db, id: Id, d: Id, r: RemoteEntry, l: LocalEntry)
    requires Integrity(db) && id in db.forwards
    ensures var after := Execute(db, SetForwardEnabled(id, false)).db;
      && (r in RemoteSet(after, d) <==> r in RemoteSet(db, d))
      && (l in LocalSet(after, d) <==> l in LocalSet(db, d) && l.forwardId != id)
  {
    ByRows(db, SetForwardEnabled(id, false), d, r, l);
    SwitchedForwardRow(db.services, db.forwards, id, d, l);
  }

  // ---------------- Deleting ----------------

  /** A deleted device has an empty bootstrap; another one loses just its tunnels to the deleted device's ports. */
  lemma DeletedDeviceVanishes(db: Db, id: Id, d: Id, r: RemoteEntry, l: LocalEntry)
    requires Integrity(db) && id in db.devices
    ensures var after := Execute(db, DeleteDevice(id)).db;
      && (r in RemoteSet(after, d) <==> r in RemoteSet(db, d) && d != id)
      && (l in LocalSet(after, d) <==> l in LocalSet(db, d) && d != id && l.remotePublicPort in UsedPorts(after))
  {
    ByRows(db, DeleteDevice(id), d, r, l);
    DeletedOffers(db, id, d, r);
    DeletedTakes(db, id, d, l);
  }

  lemma DeletedOffers(db: Db, id: Id, d: Id, r: RemoteEntry)
    requires Integrity(db) && id in db.devices
    ensures Offers(Execute(db, DeleteDevice(id)).db.services, d, r) <==> Offers(db.services, d, r) && d != id
  {
  }

  lemma DeletedTakes(db: Db, id: Id, d: Id, l: LocalEntry)
    requires Integrity(db) && id in db.devices
    ensures var after := Execute(db, DeleteDevice(id)).db;
      Takes(after.services, after.forwards, d, l) <==>
        Takes(db.services, db.forwards, d, l) && d != id && l.remotePublicPort in UsedPorts(after)
  {
    var after := Execute(db, DeleteDevice(id)).db;
    ForwardsLeft(db, id);
    TakesLeft(db.services, after.services, db.forwards, after.forwards, id, d, l);
  }

  lemma ForwardsLeft(db: Db, id: Id)
    requires Integrity(db) && id in db.devices
    ensures var after := Execute(db, DeleteDevice(id)).db;
      forall k :: k in db.forwards ==>
        (k in after.forwards <==> db.forwards[k].ownerId != id && db.forwards[k].serviceId in after.services)
  {
  }

  lemma TakesLeft(t: Services, left: Services, fs: Forwards, fsLeft: Forwards, id: Id, d: Id, l: LocalEntry)
    requires ServicesOk(t) && left.Keys <= t.Keys && forall k :: k in left ==> left[k] == t[k]
    requires fsLeft.Keys <= fs.Keys && forall k :: k in fsLeft ==> fsLeft[k] == fs[k]
    requires forall k :: k in fs ==> (k in fsLeft <==> fs[k].ownerId != id && fs[k].serviceId in left)
    ensures Takes(left, fsLeft, d, l)
      <==> Takes(t, fs, d, l) && d != id && l.remotePublicPort in (set k | k in left :: left[k].publicPort)
  {
    if Takes(t, fs, d, l) {
      PortStays(t, left, fs[l.forwardId].serviceId);
    }
  }

  lemma PortStays(t: Services, left: Services, s: Id)
    requires ServicesOk(t) && s in t && left.Keys <= t.Keys && forall k :: k in left ==> left[k] == t[k]
    ensures t[s].publicPort in (set k | k in left :: left[k].publicPort) <==> s in left
  {
    if t[s].publicPort in (set k | k in left :: left[k].publicPort) {
      var k :| k in left && left[k].publicPort == t[s].publicPort;
      assert k == s;
    }
    if s in left {
      assert left[s].publicPort == t[s].publicPort;
    }
  }

  // ---------------- Undoing ----------------

  /** Adding a service and deleting it leaves no trace. */
  lemma DeleteUndoesAddService(db: Db, sv: Service)
    requires Integrity(db) && Execute(db, InsertService(sv)).outcome == Done
    ensures Execute(Execute(db, InsertService(sv)).db, DeleteService(sv.id)) == Reply(db, Done)
  {
    RemoveUndoesAdd(db, sv);
  }

  lemma RemoveUndoesAdd(db: Db, sv: Service)
    requires Integrity(db) && AddService(db, sv).outcome == Done
    ensures RemoveService(AddService(db, sv).db, sv.id) == Reply(db, Done)
  {
    var row := sv.(lastProbeAt := None, lastProbeOk := false);
    var after := db.(services := db.services[sv.id := row]);
    assert AddService(db, sv).db == after && sv.id !in db.services;
    assert after.services - {sv.id} == db.services;
    NoForwardsYet(db, after, sv.id);
  }

  lemma NoForwardsYet(db: Db, after: Db, id: Id)
    requires ForwardsRefer(db.forwards, db.devices.Keys, db.services.Keys) && id !in db.services
    requires after.forwards == db.forwards
    ensures ForwardsTo(after, {id}) == {} && after.forwards - ForwardsTo(after, {id}) == db.forwards
  {
  }

  lemma DeleteUndoesAddForward(db: Db, f: Forward)
    requires Execute(db, InsertForward(f)).outcome == Done
    ensures Execute(Execute(db, InsertForward(f)).db, DeleteForward(f.id)) == Reply(db, Done)
  {
    assert f.id !in db.forwards && db.forwards[f.id := f] - {f.id} == db.forwards;
  }

  /** Neither does switching a service away and back. */
  lemma SwitchingServiceBack(db: Db, id: Id)
    requires id in db.services
    ensures var was := db.services[id].enabled;
      Execute(Execute(db, SetServiceEnabled(id, !was)).db, SetServiceEnabled(id, was)) == Reply(db, Done)
  {
    var was := db.services[id].enabled;
    var away := db.services[id := db.services[id].(enabled := !was)];
    assert away[id := away[id].(enabled := was)] == db.services;
  }

  lemma SwitchingForwardBack(db: Db, id: Id)
    requires id in db.forwards
    ensures var was := db.forwards[id].enabled;
      Execute(Execute(db, SetForwardEnabled(id, !was)).db, SetForwardEnabled(id, was)) == Reply(db, Done)
  {
    var was := db.forwards[id].enabled;
    var away := db.forwards[id := db.forwards[id].(enabled := !was)];
    assert away[id := away[id].(enabled := was)] == db.forwards;
  }

  /** A probe of a service records its time and its result in that row, and changes nothing else. */
  lemma ProbeIsRecorded(db: Db, id: Id, ok: bool, at: Time)
    requires id in db.services
    ensures var after := Execute(db, RecordProbe(id, ok, at)).db;
      && after == db.(services := after.services) && after.services.Keys == db.services.Keys
      && after.services[id] == db.services[id].(lastProbeAt := Some(at), lastProbeOk := ok)
      && (forall k :: k in db.services && k != id ==> after.services[k] == db.services[k])
  {
  }

  /** No bootstrap shows what a probe found. */
  lemma ProbeIsInvisible(db: Db, id: Id, ok: bool, at: Time, d: Id, r: RemoteEntry, l: LocalEntry)
    requires Integrity(db) && id in db.services
    ensures var after := Execute(db, RecordProbe(id, ok, at)).db;
      && (r in RemoteSet(after, d) <==> r in RemoteSet(db, d))
      && (l in LocalSet(after, d) <==> l in LocalSet(db, d))
  {
    ProbeIsRecorded(db, id, ok, at);
    ByRows(db, RecordProbe(id, ok, at), d, r, l);
    ProbedRows(db.services, Execute(db, RecordProbe(id, ok, at)).db.services, db.forwards, d, r, l);
  }

  lemma ProbedRows(t: Services, u: Services, fs: Forwards, d: Id, r: RemoteEntry, l: LocalEntry)
    requires t.Keys == u.Keys
    requires forall k :: k in t ==> u[k] == t[k].(lastProbeAt := u[k].lastProbeAt, lastProbeOk := u[k].lastProbeOk)
    ensures (Offers(u, d, r) <==> Offers(t, d, r)) && (Takes(u, fs, d, l) <==> Takes(t, fs, d, l))
  {
  }

  /** Adding and deleting leaves no trace, and neither does switching away and back. */
  lemma UndoRestores(db: Db, sv: Service, f: Forward, id: Id)
    requires Integrity(db)
    ensures Execute(db, InsertService(sv)).outcome == Done ==>
      Execute(Execute(db, InsertService(sv)).db, DeleteService(sv.id)) == Reply(db, Done)
    ensures Execute(db, InsertForward(f)).outcome == Done ==>
      Execute(Execute(db, InsertForward(f)).db, DeleteForward(f.id)) == Reply(db, Done)
    ensures id in db.services ==>
      var was := db.services[id].enabled;
      Execute(Execute(db, SetServiceEnabled(id, !was)).db, SetServiceEnabled(id, was)) == Reply(db, Done)
    ensures id in db.forwards ==>
      var was := db.forwards[id].enabled;
      Execute(Execute(db, SetForwardEnabled(id, !was)).db, SetForwardEnabled(id, was)) == Reply(db, Done)
  {
    if Execute(db, InsertService(sv)).outcome == Done {
      DeleteUndoesAddService(db, sv);
    }
    if Execute(db, InsertForward(f)).outcome == Done {
      DeleteUndoesAddForward(db, f);
    }
    if id in db.services {
      SwitchingServiceBack(db, id);
    }
    if id in db.forwards {
      SwitchingForwardBack(db, id);
    }
  }

  /** A device that nothing refers to takes nothing along. */
  lemma LonelyDevice(db: Db, id: Id)
    requires id in db.devices && (forall k :: k in db.services ==> db.services[k].deviceId != id)
    requires forall k :: k in db.forwards ==> db.forwards[k].ownerId != id
    ensures var after := Execute(db, DeleteDevice(id)).db;
      after == Db(db.devices - {id}, db.services, db.forwards, Unlink(db.tokens, id), db.alerts - {id})
  {
    assert OwnServices(db, id) == {} && ForwardsTo(db, {}) == {};
    assert (set k | k in db.forwards && db.forwards[k].ownerId == id) == {};
    assert db.services - {} == db.services && db.forwards - {} - {} == db.forwards;
  }

  ghost predicate OnlySpent(before: Tokens, after: Tokens, hash: Digest, now: Time) {
    && before.Keys == after.Keys
    && (forall k :: k in before && before[k].hash == hash ==>
          after[k] == before[k].(usedAt := Some(now), usedBy := None))
    && (forall k :: k in before && before[k].hash != hash ==> after[k] == before[k])
  }

  /** The rollback of an enroll takes back everything but the use of the token, which no longer names a device. */
  lemma RollbackSpendsToken(db: Db, hash: Digest, dev: Device, now: Time)
    requires Integrity(db) && Execute(db, ConsumeToken(hash, dev, now)).outcome == Done
    ensures var after := Execute(Execute(db, ConsumeToken(hash, dev, now)).db, DeleteDevice(dev.id)).db;
      && after.devices == db.devices && after.services == db.services
      && after.forwards == db.forwards && after.alerts == db.alerts
      && OnlySpent(db.tokens, after.tokens, hash, now)
  {
    EnrolledDevice(db, hash, dev, now);
    LonelyDevice(Execute(db, ConsumeToken(hash, dev, now)).db, dev.id);
    SpentOnly(db, hash, dev, now);
  }

  lemma EnrolledDevice(db: Db, hash: Digest, dev: Device, now: Time)
    requires Integrity(db) && Execute(db, ConsumeToken(hash, dev, now)).outcome == Done
    ensures var mid := Execute(db, ConsumeToken(hash, dev, now)).db;
      && mid.services == db.services && mid.forwards == db.forwards && mid.alerts - {dev.id} == db.alerts
      && dev.id in mid.devices && mid.devices - {dev.id} == db.devices
      && (forall k :: k in db.services ==> db.services[k].deviceId != dev.id)
      && (forall k :: k in db.forwards ==> db.forwards[k].ownerId != dev.id)
  {
    assert dev.id !in db.devices;
  }

  lemma SpentOnly(db: Db, hash: Digest, dev: Device, now: Time)
    requires Integrity(db) && Execute(db, ConsumeToken(hash, dev, now)).outcome == Done
    ensures OnlySpent(db.tokens, Unlink(Execute(db, ConsumeToken(hash, dev, now)).db.tokens, dev.id), hash, now)
  {
    SpentTables(db, hash, dev, now);
    var spent := Execute(db, ConsumeToken(hash, dev, now)).db.tokens;
    forall k | k in db.tokens ensures db.tokens[k].usedBy != Some(dev.id) {
      assert db.tokens[k].usedBy.Some? ==> db.tokens[k].usedBy.value in db.devices;
    }
    assert Unlink(spent, dev.id).Keys == spent.Keys;
  }

  lemma SpentTables(db: Db, hash: Digest, dev: Device, now: Time)
    requires Execute(db, ConsumeToken(hash, dev, now)).outcome == Done
    ensures var after := Execute(db, ConsumeToken(hash, dev, now)).db.tokens;
      && after.Keys == db.tokens.Keys && dev.id !in db.devices
      && (forall k :: k in db.tokens && db.tokens[k].hash == hash ==>
            after[k] == db.tokens[k].(usedAt := Some(now), usedBy := Some(dev.id)))
      && (forall k :: k in db.tokens && db.tokens[k].hash != hash ==> after[k] == db.tokens[k])
  {
  }
}
