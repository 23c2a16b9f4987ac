/** The tunnel server's user set against the device table.

Enrolling, kicking and revoking change both, in several steps. Here handlers for different devices
interleave freely; handlers for one device run one at a time, which the code does not enforce (the
lemmas at the end say exactly when overlapping ones go wrong).
*/
module TunnelUsers {
  import opened Wrappers
  import opened Timestamps
  import opened Schema

  // ---------------- Accounts: what the tunnel needs to know of a device row ----------------

  datatype Account = Account(secret: Secret, locked: bool)

  function AccountOf(db: Db, id: Id): Option<Account> {
    if id in db.devices then Some(Account(db.devices[id].secret, db.devices[id].sshLockedAt.Some?)) else None
  }

  function Secrets(db: Db): map<Id, Secret> {
    map k | k in db.devices :: db.devices[k].secret
  }

  predicate LeavesAccounts(st: Statement) {
    !st.ConsumeToken? && !st.DeleteDevice? && !st.MarkLocked?
  }

  lemma AccountsLeft(db: Db, st: Statement, id: Id)
    requires LeavesAccounts(st)
    ensures AccountOf(Execute(db, st).db, id) == AccountOf(db, id)
  {
    if !st.SetStatus? && !st.SetSsh? && !st.MarkStale? {
      assert Execute(db, st).db.devices == db.devices;
    }
  }

  lemma AccountsChanged(db: Db, st: Statement, id: Id)
    requires !LeavesAccounts(st)
    ensures var after := Execute(db, st).db;
      && (st.DeleteDevice? ==> AccountOf(after, id) == if id == st.id then None else AccountOf(db, id))
      && (st.MarkLocked? ==> AccountOf(after, id) == if id == st.id && id in db.devices
            then Some(Account(db.devices[id].secret, true)) else AccountOf(db, id))
      && (st.ConsumeToken? && Execute(db, st).outcome == Done ==>
            && st.device.id !in db.devices
            && AccountOf(after, id)
               == if id == st.device.id then Some(Account(st.device.secret, false)) else AccountOf(db, id))
  {
  }

  // ---------------- The machine ----------------

  /** How far a handler for one device has come. */
  datatype Phase =
    | Enrolled(secret: Secret)      // row committed; AddDevice is next
    | Provisioning                  // user added; the SSH account is being made
    | RollingBack                   // that failed and the user is gone; DeleteDevice is next
    | KickFound(secret: Secret)     // row read; RemoveDevice is next
    | KickRemoved(secret: Secret)   // AddDevice is next
    | RevokeFound                   // row read; MarkDeviceSSHLocked is next
    | RevokeLocked                  // DeleteDevice is next
    | RevokeDeleted                 // RemoveDevice is next

  datatype State = State(db: Db, users: map<Id, Secret>, busy: map<Id, Phase>)

  datatype Step =
    | Commit(hash: Digest, device: Device, now: Time)
    | BeginKick(id: Id)
    | BeginRevoke(id: Id)
    | Advance(id: Id, provisioned: bool, pubkey: string, username: string, now: Time)
    | Reap(id: Id, cutoff: Time)
    | Elsewhere(statement: Statement)
    | Restart

  function Sql(db: Db, st: Statement): Db {
    Execute(db, st).db
  }

  function Idle(s: State, id: Id): State {
    s.(busy := s.busy - {id})
  }

  function Progress(s: State, id: Id, provisioned: bool, pubkey: string, username: string, now: Time): State
    requires id in s.busy
  {
    match s.busy[id]
    case Enrolled(secret) => s.(users := s.users[id := secret], busy := s.busy[id := Provisioning])
    case Provisioning =>
      if provisioned then Idle(s.(db := Sql(s.db, SetSsh(id, pubkey, username))), id)
      else s.(users := s.users - {id}, busy := s.busy[id := RollingBack])
    case RollingBack => Idle(s.(db := Sql(s.db, DeleteDevice(id))), id)
    case KickFound(secret) => s.(users := s.users - {id}, busy := s.busy[id := KickRemoved(secret)])
    case KickRemoved(secret) => Idle(s.(users := s.users[id := secret]), id)
    case RevokeFound => s.(db := Sql(s.db, MarkLocked(id, now)), busy := s.busy[id := RevokeLocked])
    case RevokeLocked =>
      if id in s.db.devices then s.(db := Sql(s.db, DeleteDevice(id)), busy := s.busy[id := RevokeDeleted])
      else Idle(s, id)
    case RevokeDeleted => Idle(s.(users := s.users - {id}), id)
  }

  function Next(s: State, step: Step): State {
    match step
    case Commit(hash, d, now) =>
      var r := Execute(s.db, ConsumeToken(hash, d, now));
      if d.id in s.busy || r.outcome != Done then s else s.(db := r.db, busy := s.busy[d.id := Enrolled(d.secret)])
    case BeginKick(id) =>
      if id in s.busy || id !in s.db.devices then s else s.(busy := s.busy[id := KickFound(s.db.devices[id].secret)])
    case BeginRevoke(id) => if id in s.busy || id !in s.db.devices then s else s.(busy := s.busy[id := RevokeFound])
    case Advance(id, provisioned, pubkey, username, now) =>
      if id in s.busy then Progress(s, id, provisioned, pubkey, username, now) else s
    case Reap(id, cutoff) =>
      if id !in s.busy && id in s.db.devices && LockedBefore(s.db.devices[id], cutoff)
      then s.(db := Sql(s.db, DeleteDevice(id))) else s
    case Elsewhere(st) => if LeavesAccounts(st) then s.(db := Sql(s.db, st)) else s
    case Restart => State(s.db, Secrets(s.db), map[])
  }

  function Run(s: State, steps: seq<Step>): State {
    if steps == [] then s else Next(Run(s, steps[..|steps| - 1]), steps[|steps| - 1])
  }

  // ---------------- The invariant, device by device ----------------

  function UserOf(s: State, id: Id): Option<Secret> {
    if id in s.users then Some(s.users[id]) else None
  }

  ghost predicate Agrees(a: Option<Account>, u: Option<Secret>) {
    match a
    case None => u.None?
    case Some(account) => u == Some(account.secret) && !account.locked
  }

  ghost predicate PhaseOk(phase: Phase, a: Option<Account>, u: Option<Secret>) {
    match phase
    case Enrolled(secret) => a == Some(Account(secret, false)) && u.None?
    case Provisioning => a.Some? && Agrees(a, u)
    case RollingBack => a.Some? && !a.value.locked && u.None?
    case KickFound(secret) => a == Some(Account(secret, false)) && u == Some(secret)
    case KickRemoved(secret) => a == Some(Account(secret, false)) && u.None?
    case RevokeFound => a.Some? && Agrees(a, u)
    case RevokeLocked => a.Some? && u == Some(a.value.secret)
    case RevokeDeleted => a.None? && u.Some?
  }

  ghost predicate DeviceOk(s: State, id: Id) {
    var a, u := AccountOf(s.db, id), UserOf(s, id);
    if id in s.busy then PhaseOk(s.busy[id], a, u) else Agrees(a, u)
  }

  ghost predicate Inv(s: State) {
    forall id :: DeviceOk(s, id)
  }

  /** A restart may come at any time but one: between locking a row and deleting it. */
  ghost predicate MayRestart(s: State) {
    forall id :: id in s.busy ==> s.busy[id] != RevokeLocked
  }

  lemma ProgressKeepsDevice(s: State, k: Id, provisioned: bool, pubkey: string, username: string, now: Time, id: Id)
    requires DeviceOk(s, id) && k in s.busy
    ensures DeviceOk(Progress(s, k, provisioned, pubkey, username, now), id)
  {
    match s.busy[k]
    case Provisioning => AccountsLeft(s.db, SetSsh(k, pubkey, username), id);
    case RollingBack => AccountsChanged(s.db, DeleteDevice(k), id);
    case RevokeFound => AccountsChanged(s.db, MarkLocked(k, now), id);
    case RevokeLocked => AccountsChanged(s.db, DeleteDevice(k), id);
    case _ =>
  }

  lemma NextKeepsDevice(s: State, step: Step, id: Id)
    requires DeviceOk(s, id) && (step.Restart? ==> MayRestart(s))
    ensures DeviceOk(Next(s, step), id)
  {
    match step
    case Commit(hash, d, now) => AccountsChanged(s.db, ConsumeToken(hash, d, now), id);
    case BeginKick(k) =>
    case BeginRevoke(k) =>
    case Advance(k, provisioned, pubkey, username, now) =>
      if k in s.busy { ProgressKeepsDevice(s, k, provisioned, pubkey, username, now, id); }
    case Reap(k, cutoff) => AccountsChanged(s.db, DeleteDevice(k), id);
    case Elsewhere(st) => if LeavesAccounts(st) { AccountsLeft(s.db, st, id); }
    case Restart =>
  }

  ghost predicate SafeRestarts(s: State, steps: seq<Step>) {
    forall i :: 0 <= i < |steps| && steps[i].Restart? ==> MayRestart(Run(s, steps[..i]))
  }

  lemma {:induction false} RunKeepsInv(s: State, steps: seq<Step>)
    requires Inv(s) && SafeRestarts(s, steps)
    ensures Inv(Run(s, steps))
  {
    if steps != [] {
      var n := |steps| - 1;
      forall i | 0 <= i < n && steps[..n][i].Restart? ensures MayRestart(Run(s, steps[..n][..i])) {
        assert steps[..n][..i] == steps[..i];
      }
      RunKeepsInv(s, steps[..n]);
      forall id ensures DeviceOk(Run(s, steps), id) {
        NextKeepsDevice(Run(s, steps[..n]), steps[n], id);
      }
    }
  }

  /** Whenever no handler is at work, the tunnel knows exactly the devices of the table, each with its
  secret; and no row rests in the locked state, so the SSH reaper never deletes one. */
  lemma UsersMatchDevices(start: State, steps: seq<Step>)
    requires Inv(start) && SafeRestarts(start, steps) && Run(start, steps).busy == map[]
    ensures var s := Run(start, steps);
      s.users == Secrets(s.db) && forall id, cutoff :: Next(s, Reap(id, cutoff)) == s
  {
    RunKeepsInv(start, steps);
    var s := Run(start, steps);
    forall id ensures (id in s.users <==> id in s.db.devices) && (id in s.users ==> s.users[id] == Secrets(s.db)[id]) {
      assert DeviceOk(s, id);
    }
    forall id, cutoff ensures Next(s, Reap(id, cutoff)) == s {
      assert DeviceOk(s, id);
    }
  }

  lemma EmptyIsOk()
    ensures Inv(State(EMPTY, map[], map[]))
  {
  }

  // ---------------- Why the conditions are there ----------------

  /** A crash between locking and deleting leaves a locked row; once the grace period is over the
  reaper deletes it and the tunnel keeps a user without a device. */
  lemma CrashWhileRevoking(s: State, id: Id, cutoff: Time)
    requires Inv(s) && id in s.busy && s.busy[id] == RevokeLocked
    requires id in s.db.devices && LockedBefore(s.db.devices[id], cutoff)
    ensures var after := Run(s, [Restart, Reap(id, cutoff)]);
      after.busy == map[] && id in after.users && id !in after.db.devices
  {
    assert DeviceOk(s, id);
    var steps := [Restart, Reap(id, cutoff)];
    assert steps[..1] == [Restart] && [Restart][..0] == [];
    assert Run(s, [Restart]) == Next(s, Restart);
    AccountsChanged(s.db, DeleteDevice(id), id);
  }

  // ---------------- Handlers of one device that overlap ----------------

  /** Any number of handlers of one device, each at its own phase. */
  datatype Overlap = Overlap(db: Db, users: map<Id, Secret>, at: map<nat, Phase>)

  datatype Move =
    | Kick(rid: nat)
    | Revoke(rid: nat)
    | Go(rid: nat, provisioned: bool, pubkey: string, username: string, now: Time)

  /** Kicks and revokes that find the row join in; a handler that goes on does what it does alone. */
  function Moved(o: Overlap, id: Id, m: Move): Overlap {
    match m
    case Kick(rid) =>
      if rid in o.at || id !in o.db.devices then o
      else o.(at := o.at[rid := KickFound(o.db.devices[id].secret)])
    case Revoke(rid) => if rid in o.at || id !in o.db.devices then o else o.(at := o.at[rid := RevokeFound])
    case Go(rid, provisioned, pubkey, username, now) =>
      if rid !in o.at then o
      else
        var s := Progress(State(o.db, o.users, map[id := o.at[rid]]), id, provisioned, pubkey, username, now);
        Overlap(s.db, s.users, if id in s.busy then o.at[rid := s.busy[id]] else o.at - {rid})
  }

  function Play(o: Overlap, id: Id, moves: seq<Move>): Overlap {
    if moves == [] then o else Moved(Play(o, id, moves[..|moves| - 1]), id, moves[|moves| - 1])
  }

  /** The row is there; enrolls have committed, kicks and revokes have found it. */
  ghost predicate Begun(o: Overlap, id: Id) {
    id in o.db.devices && forall rid :: rid in o.at ==>
      o.at[rid].Enrolled? || o.at[rid].KickFound? || o.at[rid].RevokeFound?
  }

  predicate Adds(o: Overlap, m: Move) {
    m.Go? && m.rid in o.at && (o.at[m.rid].Enrolled? || o.at[m.rid].KickRemoved?)
  }

  predicate Removes(o: Overlap, m: Move) {
    && m.Go? && m.rid in o.at
    && (o.at[m.rid].KickFound? || o.at[m.rid].RevokeDeleted? || (o.at[m.rid].Provisioning? && !m.provisioned))
  }

  /** The last move that changed the user. */
  function LastChange(o: Overlap, id: Id, moves: seq<Move>): (r: Option<nat>)
    ensures r.Some? ==> r.value < |moves|
  {
    if moves == [] then None
    else
      var n := |moves| - 1;
      var before := Play(o, id, moves[..n]);
      if Adds(before, moves[n]) || Removes(before, moves[n]) then Some(n) else LastChange(o, id, moves[..n])
  }

  /** The last change of the user was an addition. */
  ghost predicate AddedLast(o: Overlap, id: Id, moves: seq<Move>) {
    var n := LastChange(o, id, moves);
    n.Some? && Adds(Play(o, id, moves[..n.value]), moves[n.value])
  }

  /** ... by a kick. */
  ghost predicate KickAddedLast(o: Overlap, id: Id, moves: seq<Move>) {
    && AddedLast(o, id, moves)
    && var n := LastChange(o, id, moves).value;
       Play(o, id, moves[..n]).at[moves[n].rid].KickRemoved?
  }

  /** ... by an enroll whose SSH account could be made afterwards. */
  ghost predicate EnrollAddedLast(o: Overlap, id: Id, moves: seq<Move>) {
    && AddedLast(o, id, moves)
    && var n := LastChange(o, id, moves).value;
       Play(o, id, moves[..n]).at[moves[n].rid].Enrolled? && ProvisionedAfter(moves, n)
  }

  ghost predicate ProvisionedAfter(moves: seq<Move>, n: nat)
    requires n < |moves|
  {
    exists k :: n < k < |moves| && moves[k].Go? && moves[k].rid == moves[n].rid && moves[k].provisioned
  }

  lemma MovedUser(o: Overlap, id: Id, m: Move)
    ensures id in Moved(o, id, m).users <==> Adds(o, m) || (id in o.users && !Removes(o, m))
  {
  }

  lemma {:induction false} UserIsLastChange(o: Overlap, id: Id, moves: seq<Move>)
    ensures id in Play(o, id, moves).users <==>
      if LastChange(o, id, moves).None? then id in o.users else AddedLast(o, id, moves)
  {
    if moves != [] {
      var n := |moves| - 1;
      UserIsLastChange(o, id, moves[..n]);
      MovedUser(Play(o, id, moves[..n]), id, moves[n]);
      var last := LastChange(o, id, moves[..n]);
      assert last.Some? ==> moves[..n][..last.value] == moves[..last.value];
    }
  }

  /** Whoever takes the row away has changed the user before or is about to. */
  ghost predicate RemovalDue(o: Overlap, id: Id, changed: bool) {
    && (forall rid :: rid in o.at && (o.at[rid].Provisioning? || o.at[rid].RollingBack?) ==> changed)
    && (id in o.db.devices || changed || exists rid :: rid in o.at && o.at[rid].RevokeDeleted?)
  }

  lemma MovedDue(o: Overlap, id: Id, m: Move, changed: bool)
    requires RemovalDue(o, id, changed)
    ensures RemovalDue(Moved(o, id, m), id, changed || Adds(o, m) || Removes(o, m))
  {
    var after := Moved(o, id, m);
    if m.Go? && m.rid in o.at && !o.at[m.rid].RevokeDeleted? {
      if id in o.db.devices && o.at[m.rid].RevokeLocked? {
        assert after.at[m.rid].RevokeDeleted?;
      }
    }
    if rid :| rid in o.at && o.at[rid].RevokeDeleted? {
      assert rid in after.at || (m.Go? && m.rid == rid);
    }
  }

  lemma {:induction false} RowGoneUserChanged(o: Overlap, id: Id, moves: seq<Move>)
    requires Begun(o, id)
    ensures RemovalDue(Play(o, id, moves), id, LastChange(o, id, moves).Some?)
  {
    if moves != [] {
      var n := |moves| - 1;
      RowGoneUserChanged(o, id, moves[..n]);
      MovedDue(Play(o, id, moves[..n]), id, moves[n], LastChange(o, id, moves[..n]).Some?);
    }
  }

  /** An enroll that added the user last is still provisioning, or has succeeded in it. */
  lemma {:induction false} EnrollStands(o: Overlap, id: Id, moves: seq<Move>)
    requires AddedLast(o, id, moves) && !KickAddedLast(o, id, moves)
    ensures var n, after := LastChange(o, id, moves).value, Play(o, id, moves);
      ProvisionedAfter(moves, n) || (moves[n].rid in after.at && after.at[moves[n].rid].Provisioning?)
  {
    var last := |moves| - 1;
    var n := LastChange(o, id, moves).value;
    if n < last {
      assert moves[..last][..n] == moves[..n];
      EnrollStands(o, id, moves[..last]);
      if ProvisionedAfter(moves[..last], n) {
        var k :| n < k < last && moves[..last][k].Go? && moves[..last][k].rid == moves[n].rid
                 && moves[..last][k].provisioned;
        assert moves[k].Go? && moves[k].rid == moves[n].rid && moves[k].provisioned;
      } else if moves[last].Go? && moves[last].rid == moves[n].rid {
        assert moves[last].provisioned;
      }
    }
  }

  /** Whoever has taken the user away while the row stays is about to add it back, or to delete the row. */
  ghost predicate ReturnDue(o: Overlap, id: Id) {
    && (forall rid :: rid in o.at && o.at[rid].RevokeDeleted? ==> id !in o.db.devices)
    && (id in o.users || id !in o.db.devices
        || exists rid :: rid in o.at && (o.at[rid].Enrolled? || o.at[rid].KickRemoved? || o.at[rid].RollingBack?))
  }

  lemma RowNeverReturns(o: Overlap, id: Id, m: Move)
    ensures id in Moved(o, id, m).db.devices ==> id in o.db.devices
  {
  }

  lemma MovedReturn(o: Overlap, id: Id, m: Move)
    requires ReturnDue(o, id)
    ensures ReturnDue(Moved(o, id, m), id)
  {
    var after := Moved(o, id, m);
    RowNeverReturns(o, id, m);
    if m.Go? && m.rid in o.at {
      assert o.at[m.rid].KickFound? || o.at[m.rid].Provisioning? ==>
        m.rid !in after.at || after.at[m.rid].KickRemoved? || after.at[m.rid].RollingBack?;
    }
    if rid :| rid in o.at && (o.at[rid].Enrolled? || o.at[rid].KickRemoved? || o.at[rid].RollingBack?) {
      assert !(m.Go? && m.rid == rid) ==> rid in after.at && after.at[rid] == o.at[rid];
      AccountsChanged(o.db, DeleteDevice(id), id);
    }
  }

  lemma {:induction false} RowStaysUserReturns(o: Overlap, id: Id, moves: seq<Move>)
    requires Begun(o, id) && (id in o.users || exists rid :: rid in o.at && o.at[rid].Enrolled?)
    ensures ReturnDue(Play(o, id, moves), id)
  {
    if moves != [] {
      RowStaysUserReturns(o, id, moves[..|moves| - 1]);
      MovedReturn(Play(o, id, moves[..|moves| - 1]), id, moves[|moves| - 1]);
    }
  }

  /** However many handlers of one device overlap, and whenever they join in, once all are through: a row that
  is still there has its user; and when the row is gone a user is left exactly when the last change of the
  user was made by a kick that added it, or by an enroll that added it and was not rolled back. */
  lemma OverlappingHandlers(o: Overlap, id: Id, moves: seq<Move>)
    requires Begun(o, id) && (id in o.users || exists rid :: rid in o.at && o.at[rid].Enrolled?)
    requires Play(o, id, moves).at == map[]
    ensures var after := Play(o, id, moves);
      if id in after.db.devices then id in after.users
      else id in after.users <==> KickAddedLast(o, id, moves) || EnrollAddedLast(o, id, moves)
  {
    RowStaysUserReturns(o, id, moves);
    UserOfLostRow(o, id, moves);
  }

  lemma UserOfLostRow(o: Overlap, id: Id, moves: seq<Move>)
    requires Begun(o, id) && Play(o, id, moves).at == map[]
    ensures var after := Play(o, id, moves);
      id !in after.db.devices ==>
        (id in after.users <==> KickAddedLast(o, id, moves) || EnrollAddedLast(o, id, moves))
  {
    UserIsLastChange(o, id, moves);
    RowGoneUserChanged(o, id, moves);
    if AddedLast(o, id, moves) && !KickAddedLast(o, id, moves) {
      EnrollStands(o, id, moves);
    }
  }

  // ---------------- When the row goes ----------------

  ghost predicate AllFail(moves: seq<Move>) {
    forall k :: 0 <= k < |moves| && moves[k].Go? ==> !moves[k].provisioned
  }

  /** This handler will delete the row, unless another one does. */
  predicate WillDelete(phase: Phase, fails: bool) {
    || phase.RevokeFound? || phase.RevokeLocked? || phase.RollingBack?
    || (fails && (phase.Enrolled? || phase.Provisioning?))
  }

  /** A revoke that has found the row deletes it, and so does an enroll that fails, unless another handler
  was there first. */
  lemma {:induction false} RowGoes(o: Overlap, id: Id, moves: seq<Move>, rid: nat, fails: bool)
    requires rid in o.at && WillDelete(o.at[rid], fails) && (fails ==> AllFail(moves))
    ensures var after := Play(o, id, moves);
      id !in after.db.devices || (rid in after.at && WillDelete(after.at[rid], fails))
  {
    if moves != [] {
      RowGoes(o, id, moves[..|moves| - 1], rid, fails);
    }
  }

  ghost predicate NoKick(at: map<nat, Phase>) {
    forall rid :: rid in at ==> !at[rid].KickFound? && !at[rid].KickRemoved?
  }

  ghost predicate NoEnroll(at: map<nat, Phase>) {
    forall rid :: rid in at ==> !at[rid].Enrolled?
  }

  lemma NoneBegins(o: Overlap, id: Id, m: Move)
    ensures NoEnroll(o.at) ==> NoEnroll(Moved(o, id, m).at)
    ensures NoKick(o.at) && !m.Kick? ==> NoKick(Moved(o, id, m).at)
  {
  }

  lemma {:induction false} NoneJoins(o: Overlap, id: Id, moves: seq<Move>)
    ensures NoEnroll(o.at) ==> NoEnroll(Play(o, id, moves).at)
    ensures NoKick(o.at) && (forall k :: 0 <= k < |moves| ==> !moves[k].Kick?) ==> NoKick(Play(o, id, moves).at)
  {
    if moves != [] {
      NoneJoins(o, id, moves[..|moves| - 1]);
      NoneBegins(Play(o, id, moves[..|moves| - 1]), id, moves[|moves| - 1]);
    }
  }

  /** Revokes and enrolls that fail, however many overlap, leave neither row nor user. */
  lemma RemovalsLeaveNothing(o: Overlap, id: Id, moves: seq<Move>)
    requires Begun(o, id) && NoKick(o.at) && o.at != map[] && Play(o, id, moves).at == map[]
    requires AllFail(moves) && forall k :: 0 <= k < |moves| ==> !moves[k].Kick?
    ensures id !in Play(o, id, moves).db.devices && id !in Play(o, id, moves).users
  {
    assert o.at.Keys != {};
    var rid :| rid in o.at;
    RowGoes(o, id, moves, rid, true);
    UserOfLostRow(o, id, moves);
    var n := LastChange(o, id, moves);
    if n.Some? {
      NoneJoins(o, id, moves[..n.value]);
    }
  }

  /** A kick and a revoke that have both found the row: it goes, and a user is left exactly when the kick has
  the last word on it. */
  lemma KickAgainstRevoke(o: Overlap, id: Id, secret: Secret, moves: seq<Move>)
    requires id in o.db.devices && o.at == map[0 := KickFound(secret), 1 := RevokeFound]
    requires Play(o, id, moves).at == map[]
    ensures var after := Play(o, id, moves);
      id !in after.db.devices && (id in after.users <==> KickAddedLast(o, id, moves))
  {
    RowGoes(o, id, moves, 1, false);
    UserOfLostRow(o, id, moves);
    var n := LastChange(o, id, moves);
    if n.Some? {
      NoneJoins(o, id, moves[..n.value]);
    }
  }

  /** An enroll whose device is revoked between its commit and AddDevice: the row goes, and a user is left
  exactly when the enroll has the last word on it and is not rolled back. */
  lemma EnrollAgainstRevoke(o: Overlap, id: Id, secret: Secret, moves: seq<Move>)
    requires id in o.db.devices && o.at == map[0 := Enrolled(secret), 1 := RevokeFound]
    requires Play(o, id, moves).at == map[] && forall k :: 0 <= k < |moves| ==> !moves[k].Kick?
    ensures var after := Play(o, id, moves);
      id !in after.db.devices && (id in after.users <==> EnrollAddedLast(o, id, moves))
  {
    RowGoes(o, id, moves, 1, false);
    UserOfLostRow(o, id, moves);
    var n := LastChange(o, id, moves);
    if n.Some? {
      NoneJoins(o, id, moves[..n.value]);
    }
  }

  /** A kick and an enroll that is rolled back: a user is left exactly when the kick has the last word on it,
  even if the delete of the row comes later. */
  lemma KickAgainstRollback(o: Overlap, id: Id, secret: Secret, enrolled: Secret, moves: seq<Move>)
    requires id in o.db.devices && o.at == map[0 := KickFound(secret), 1 := Enrolled(enrolled)]
    requires Play(o, id, moves).at == map[] && AllFail(moves)
    ensures var after := Play(o, id, moves);
      id !in after.db.devices && (id in after.users <==> KickAddedLast(o, id, moves))
  {
    RowGoes(o, id, moves, 1, true);
    UserOfLostRow(o, id, moves);
  }

  // ---------------- All of this happens ----------------

  ghost predicate LeavesUserOnly(o: Overlap, id: Id, moves: seq<Move>) {
    var after := Play(o, id, moves);
    after.at == map[] && id in after.users && id !in after.db.devices
  }

  lemma PlayOfTwo(o: Overlap, id: Id, a: Move, b: Move)
    ensures Play(o, id, [a, b]) == Moved(Moved(o, id, a), id, b)
  {
    assert [a, b][..1] == [a] && [a][..0] == [];
    assert Play(o, id, [a]) == Moved(o, id, a);
  }

  lemma PlayOfFive(o: Overlap, id: Id, a: Move, b: Move, c: Move, d: Move, e: Move)
    ensures Play(o, id, [a, b, c, d, e]) == Moved(Moved(Moved(Moved(Moved(o, id, a), id, b), id, c), id, d), id, e)
  {
    PlayOfTwo(o, id, a, b);
    assert [a, b, c, d, e][..4] == [a, b, c, d] && [a, b, c, d][..3] == [a, b, c] && [a, b, c][..2] == [a, b];
    assert Play(o, id, [a, b, c]) == Moved(Play(o, id, [a, b]), id, c);
    assert Play(o, id, [a, b, c, d]) == Moved(Play(o, id, [a, b, c]), id, d);
  }

  function Proceed(rid: nat, now: Time): Move {
    Go(rid, true, "", "", now)
  }

  function Fail(rid: nat, now: Time): Move {
    Go(rid, false, "", "", now)
  }

  /** What is left of the table once the row is locked and deleted. */
  function Revoked(db: Db, id: Id, now: Time): Db {
    Sql(Sql(db, MarkLocked(id, now)), DeleteDevice(id))
  }

  lemma RevokedRow(db: Db, id: Id, now: Time)
    requires id in db.devices
    ensures id in Sql(db, MarkLocked(id, now)).devices && id !in Revoked(db, id, now).devices
  {
    AccountsChanged(db, MarkLocked(id, now), id);
    AccountsChanged(Sql(db, MarkLocked(id, now)), DeleteDevice(id), id);
  }

  lemma KickMoves(db: Db, users: map<Id, Secret>, at: map<nat, Phase>, id: Id, rid: nat, secret: Secret, now: Time)
    requires rid in at
    ensures at[rid] == KickFound(secret) ==>
      Moved(Overlap(db, users, at), id, Proceed(rid, now)) == Overlap(db, users - {id}, at[rid := KickRemoved(secret)])
    ensures at[rid] == KickRemoved(secret) ==>
      Moved(Overlap(db, users, at), id, Proceed(rid, now)) == Overlap(db, users[id := secret], at - {rid})
  {
  }

  lemma RevokeMoves(db: Db, users: map<Id, Secret>, at: map<nat, Phase>, id: Id, rid: nat, now: Time)
    requires rid in at && at[rid] == RevokeFound && id in db.devices
    ensures var m := Proceed(rid, now);
      Moved(Moved(Moved(Overlap(db, users, at), id, m), id, m), id, m)
      == Overlap(Revoked(db, id, now), users - {id}, at - {rid})
  {
    RevokedRow(db, id, now);
    var m := Proceed(rid, now);
    var locked := Sql(db, MarkLocked(id, now));
    assert Moved(Overlap(db, users, at), id, m) == Overlap(locked, users, at[rid := RevokeLocked]);
    var after := Moved(Overlap(locked, users, at[rid := RevokeLocked]), id, m);
    assert after == Overlap(Revoked(db, id, now), users, at[rid := RevokeDeleted]) by {
      assert at[rid := RevokeLocked][rid := RevokeDeleted] == at[rid := RevokeDeleted];
    }
    assert at[rid := RevokeDeleted] - {rid} == at - {rid};
  }

  lemma EnrollMoves(db: Db, users: map<Id, Secret>, at: map<nat, Phase>, id: Id, rid: nat, m: Move)
    requires rid in at && m.Go? && m.rid == rid
    ensures at[rid].Enrolled? ==>
      Moved(Overlap(db, users, at), id, m) == Overlap(db, users[id := at[rid].secret], at[rid := Provisioning])
    ensures at[rid].Provisioning? ==>
      Moved(Overlap(db, users, at), id, m)
      == if m.provisioned then Overlap(Sql(db, SetSsh(id, m.pubkey, m.username)), users, at - {rid})
         else Overlap(db, users - {id}, at[rid := RollingBack])
    ensures at[rid].RollingBack? ==>
      Moved(Overlap(db, users, at), id, m) == Overlap(Sql(db, DeleteDevice(id)), users, at - {rid})
  {
  }

  /** The whole revoke between the two halves of the kick. */
  lemma KickCanFinishLast(o: Overlap, id: Id, secret: Secret, now: Time)
    requires id in o.db.devices && o.at == map[0 := KickFound(secret), 1 := RevokeFound]
    ensures LeavesUserOnly(o, id, [Proceed(0, now), Proceed(1, now), Proceed(1, now), Proceed(1, now), Proceed(0, now)])
  {
    var kick, revoke := Proceed(0, now), Proceed(1, now);
    PlayOfFive(o, id, kick, revoke, revoke, revoke, kick);
    RevokedRow(o.db, id, now);
    KickMoves(o.db, o.users, o.at, id, 0, secret, now);
    var half := map[0 := KickRemoved(secret), 1 := RevokeFound];
    assert o.at[0 := KickRemoved(secret)] == half;
    RevokeMoves(o.db, o.users - {id}, half, id, 1, now);
    var last := half - {1};
    KickMoves(Revoked(o.db, id, now), o.users - {id} - {id}, last, id, 0, secret, now);
    assert last[0] == KickRemoved(secret) && last - {0} == map[];
  }

  /** The kick between RemoveDevice and the delete of a rollback. */
  lemma KickCanOutliveRollback(o: Overlap, id: Id, secret: Secret, enrolled: Secret, now: Time)
    requires id in o.db.devices && o.at == map[0 := KickFound(secret), 1 := Enrolled(enrolled)]
    ensures LeavesUserOnly(o, id, [Fail(1, now), Fail(1, now), Proceed(0, now), Proceed(0, now), Fail(1, now)])
  {
    var kick, enroll := Proceed(0, now), Fail(1, now);
    PlayOfFive(o, id, enroll, enroll, kick, kick, enroll);
    AccountsChanged(o.db, DeleteDevice(id), id);
    EnrollMoves(o.db, o.users, o.at, id, 1, enroll);
    var users := o.users[id := enrolled];
    EnrollMoves(o.db, users, o.at[1 := Provisioning], id, 1, enroll);
    var half := map[0 := KickFound(secret), 1 := RollingBack];
    assert o.at[1 := Provisioning][1 := RollingBack] == half;
    KickMoves(o.db, users - {id}, half, id, 0, secret, now);
    KickMoves(o.db, users - {id} - {id}, half[0 := KickRemoved(secret)], id, 0, secret, now);
    var kicked := half[0 := KickRemoved(secret)] - {0};
    EnrollMoves(o.db, (users - {id} - {id})[id := secret], kicked, id, 1, enroll);
    assert kicked - {1} == map[];
  }

  /** The whole revoke between the commit of an enroll and AddDevice. */
  lemma EnrollCanFinishLast(o: Overlap, id: Id, secret: Secret, now: Time)
    requires id in o.db.devices && o.at == map[0 := Enrolled(secret), 1 := RevokeFound]
    ensures LeavesUserOnly(o, id, [Proceed(1, now), Proceed(1, now), Proceed(1, now), Proceed(0, now), Proceed(0, now)])
  {
    var enroll, revoke := Proceed(0, now), Proceed(1, now);
    PlayOfFive(o, id, revoke, revoke, revoke, enroll, enroll);
    RevokedRow(o.db, id, now);
    RevokeMoves(o.db, o.users, o.at, id, 1, now);
    var gone, users := Revoked(o.db, id, now), o.users - {id};
    EnrollMoves(gone, users, o.at - {1}, id, 0, enroll);
    EnrollMoves(gone, users[id := secret], (o.at - {1})[0 := Provisioning], id, 0, enroll);
    AccountsLeft(gone, SetSsh(id, "", ""), id);
    assert (o.at - {1})[0 := Provisioning] - {0} == map[];
  }
}
