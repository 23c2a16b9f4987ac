/** Offline alerts: one round of `maybePushBarkAlerts` after the other, with the pushes of a round in
flight at once and every other handler at work in between.
*/
module OfflineAlerts {
  import opened Wrappers
  import opened Timestamps
  import opened Sorting
  import opened Schema
  import Store

  datatype Settings = Settings(enabled: bool, url: string, thresholdSeconds: int)

  const ZERO_TIME: Time := Civil(1, 1, 1, 0, 0, 0, 0)
  const MAX_DURATION := 0x7FFF_FFFF_FFFF_FFFF

  /** int64 arithmetic wraps around. */
  function Wrap64(x: int): int {
    (x + MAX_DURATION + 1) % (2 * (MAX_DURATION + 1)) - MAX_DURATION - 1
  }

  function Saturate(d: int): int {
    if d > MAX_DURATION then MAX_DURATION else if d < -MAX_DURATION - 1 then -MAX_DURATION - 1 else d
  }

  /** `now.Sub(seen)`, which saturates. */
  function Since(now: Time, seen: Time): int {
    Saturate(Instant(now) - Instant(seen))
  }

  predicate IsOffline(d: Device, now: Time, threshold: int) {
    d.lastSeen.None? || d.lastSeen.value == ZERO_TIME || Since(now, d.lastSeen.value) > threshold
  }

  predicate Active(settings: Settings) {
    settings.enabled && settings.url != ""
  }

  // ---------------- The machine ----------------

  /** A round under way: the rows it listed, those not looked at yet, and the pushes in flight. */
  datatype Round = Round(rows: map<Id, Device>, unvisited: set<Id>, pushing: set<Id>, now: Time, threshold: int)

  datatype State = State(db: Db, round: Option<Round>)

  datatype Step =
    | Begin(settings: Settings, now: Time)
    | Visit(id: Id)
    | Pushed(id: Id, ok: bool, at: Time)
    | End
    | Elsewhere(statement: Statement)

  predicate OffAlerts(st: Statement) {
    !st.MarkAlerted? && !st.ClearAlert?
  }

  predicate Looks(s: State, id: Id) {
    s.round.Some? && id in s.round.value.unvisited && id in s.round.value.rows
  }

  predicate SeesOffline(s: State, id: Id)
    requires Looks(s, id)
  {
    var r := s.round.value;
    IsOffline(r.rows[id], r.now, r.threshold)
  }

  predicate InFlight(s: State, id: Id) {
    s.round.Some? && id in s.round.value.pushing
  }

  function Next(s: State, step: Step): State {
    match step
    case Begin(settings, now) =>
      if s.round.Some? || !Active(settings) then s
      else s.(round := Some(Round(s.db.devices, s.db.devices.Keys, {}, now, Threshold(settings.thresholdSeconds))))
    case Visit(id) =>
      if !Looks(s, id) then s
      else
        var r := s.round.value.(unvisited := s.round.value.unvisited - {id});
        if !SeesOffline(s, id) then State(if id in s.db.alerts then Execute(s.db, ClearAlert(id)).db else s.db, Some(r))
        else if id in s.db.alerts then s.(round := Some(r))
        else s.(round := Some(r.(pushing := r.pushing + {id})))
    case Pushed(id, ok, at) =>
      if !InFlight(s, id) then s
      else
        var r := s.round.value;
        State(if ok then Execute(s.db, MarkAlerted(id, at)).db else s.db, Some(r.(pushing := r.pushing - {id})))
    case End =>
      if s.round.Some? && s.round.value.unvisited == {} && s.round.value.pushing == {} then s.(round := None) else s
    case Elsewhere(st) => if OffAlerts(st) then s.(db := Execute(s.db, st).db) else s
  }

  function Run(s: State, steps: seq<Step>): State {
    if steps == [] then s else Next(Run(s, steps[..|steps| - 1]), steps[|steps| - 1])
  }

  function At(s: State, steps: seq<Step>, i: nat): State
    requires i <= |steps|
  {
    Run(s, steps[..i])
  }

  lemma AtNext(s: State, steps: seq<Step>, i: nat)
    requires i < |steps|
    ensures At(s, steps, i + 1) == Next(At(s, steps, i), steps[i])
  {
    assert steps[..i + 1][..i] == steps[..i];
  }

  // ---------------- What a round takes for offline ----------------

  /** `time.Duration(seconds) * time.Second`. */
  function Threshold(seconds: int): int {
    Wrap64(seconds * NANOS)
  }

  lemma WrapNear(x: int)
    ensures -MAX_DURATION - 1 <= Wrap64(x) <= MAX_DURATION
    ensures -MAX_DURATION - 1 <= x <= MAX_DURATION ==> Wrap64(x) == x
  {
  }

  lemma WrapKeepsParity(x: int)
    ensures (x - Wrap64(x)) % 2 == 0
  {
    var y := x + 9_223_372_036_854_775_808;
    var q := y / 18_446_744_073_709_551_616;
    assert y == 18_446_744_073_709_551_616 * q + y % 18_446_744_073_709_551_616;
    assert x - Wrap64(x) == 2 * (9_223_372_036_854_775_808 * q);
  }

  lemma NeverTheLargest(seconds: int)
    ensures Threshold(seconds) != MAX_DURATION
  {
    WrapKeepsParity(seconds * NANOS);
    assert seconds * NANOS == 2 * (seconds * 500_000_000);
    assert MAX_DURATION % 2 == 1;
  }

  /** The comparison with the threshold is right for every time that has gone by exactly when the seconds fit a
  duration of 64 bits in nanoseconds. */
  lemma ThresholdIsRightIff(seconds: int)
    ensures (forall gone :: Saturate(gone) > Threshold(seconds) <==> gone > seconds * 1_000_000_000)
      <==> -9_223_372_036 <= seconds <= 9_223_372_036
  {
    WrapNear(seconds * NANOS);
    NeverTheLargest(seconds);
    if seconds > 9_223_372_036 {
      assert Saturate(MAX_DURATION) > Threshold(seconds) && !(MAX_DURATION > seconds * 1_000_000_000);
    }
    if seconds < -9_223_372_036 {
      var least := -MAX_DURATION - 1;
      assert !(Saturate(least) > Threshold(seconds)) && least > seconds * 1_000_000_000;
    }
  }

  /** A round begins exactly when none is under way and alerts are switched on with a URL. It then looks at every
  device, and takes one for offline exactly when it was never seen or not within the configured seconds. */
  lemma RoundMeans(s: State, settings: Settings, now: Time, id: Id)
    requires -9_223_372_036 <= settings.thresholdSeconds <= 9_223_372_036
    ensures var after := Next(s, Begin(settings, now));
      && (after != s <==> s.round.None? && settings.enabled && settings.url != "")
      && (after != s ==> after.db == s.db && (Looks(after, id) <==> id in s.db.devices))
      && (after != s && id in s.db.devices ==>
            var seen := s.db.devices[id].lastSeen;
            SeesOffline(after, id) <==>
              || seen.None? || seen.value == Civil(1, 1, 1, 0, 0, 0, 0)
              || Instant(now) - Instant(seen.value) > settings.thresholdSeconds * 1_000_000_000)
  {
    ThresholdIsRightIff(settings.thresholdSeconds);
    var after := Next(s, Begin(settings, now));
    if after != s && id in s.db.devices && s.db.devices[id].lastSeen.Some? {
      var gone := Instant(now) - Instant(s.db.devices[id].lastSeen.value);
      var seconds := settings.thresholdSeconds;
      assert Saturate(gone) > Threshold(seconds) <==> gone > seconds * 1_000_000_000;
    }
  }

  // ---------------- The invariant ----------------

  /** A device looked at and waiting for no push, or unalerted while its push is in flight. */
  ghost predicate DeviceOk(s: State, id: Id) {
    InFlight(s, id) ==> id !in s.round.value.unvisited && id !in s.db.alerts
  }

  lemma AlertsElsewhere(db: Db, st: Statement, id: Id)
    requires OffAlerts(st)
    ensures id in Execute(db, st).db.alerts <==> id in db.alerts && !(st == DeleteDevice(id) && id in db.devices)
  {
  }

  lemma NextKeepsDevice(s: State, step: Step, id: Id)
    requires DeviceOk(s, id)
    ensures DeviceOk(Next(s, step), id)
  {
    if step.Elsewhere? && OffAlerts(step.statement) {
      AlertsElsewhere(s.db, step.statement, id);
    }
  }

  lemma {:induction false} AtKeepsDevice(s: State, steps: seq<Step>, i: nat, id: Id)
    requires i <= |steps| && DeviceOk(s, id)
    ensures DeviceOk(At(s, steps, i), id)
  {
    if i > 0 {
      AtKeepsDevice(s, steps, i - 1, id);
      AtNext(s, steps, i - 1);
      NextKeepsDevice(At(s, steps, i - 1), steps[i - 1], id);
    }
  }

  // ---------------- One alert per outage ----------------

  /** A push for the device comes back successful at this step. */
  ghost predicate Delivered(s: State, step: Step, id: Id) {
    step.Pushed? && step.id == id && step.ok && InFlight(s, id)
  }

  /** The round looks at the device, finds it online, and clears its alert. */
  ghost predicate SeenOnline(s: State, step: Step, id: Id) {
    step == Visit(id) && Looks(s, id) && !SeesOffline(s, id)
  }

  lemma AlertHolds(s: State, step: Step, id: Id)
    requires id in s.db.alerts && !InFlight(s, id) && !SeenOnline(s, step, id)
    requires step == Elsewhere(DeleteDevice(id)) ==> id !in s.db.devices
    ensures var after := Next(s, step); id in after.db.alerts && !InFlight(after, id)
  {
    if step.Elsewhere? && OffAlerts(step.statement) {
      AlertsElsewhere(s.db, step.statement, id);
    }
  }

  /** The row is there before each of the steps i, ..., j. */
  ghost predicate RowStays(s: State, steps: seq<Step>, i: nat, j: nat, id: Id)
    requires i <= j < |steps|
  {
    forall k :: i <= k <= j ==> id in At(s, steps, k).db.devices
  }

  lemma DeletedIsGone(s: State, id: Id)
    ensures id !in Next(s, Elsewhere(DeleteDevice(id))).db.devices
  {
  }

  lemma {:induction false} FindsOnline(s: State, steps: seq<Step>, i: nat, j: nat, id: Id) returns (k: nat)
    requires i <= j < |steps| && RowStays(s, steps, i, j, id)
    requires id in At(s, steps, i).db.alerts && !InFlight(At(s, steps, i), id)
    requires id !in At(s, steps, j).db.alerts || InFlight(At(s, steps, j), id)
    ensures i <= k < j && SeenOnline(At(s, steps, k), steps[k], id) && id !in At(s, steps, k + 1).db.alerts
    decreases j - i
  {
    k := i;
    AtNext(s, steps, i);
    if !SeenOnline(At(s, steps, i), steps[i], id) {
      assert id in At(s, steps, i + 1).db.devices;
      DeletedIsGone(At(s, steps, i), id);
      AlertHolds(At(s, steps, i), steps[i], id);
      k := FindsOnline(s, steps, i + 1, j, id);
    }
  }

  /** Between two delivered pushes for one row, some round saw the device online and cleared its alert. */
  lemma OnePushPerOutage(s: State, steps: seq<Step>, i: nat, j: nat, id: Id) returns (k: nat)
    requires DeviceOk(s, id) && i < j < |steps| && RowStays(s, steps, i, j, id)
    requires Delivered(At(s, steps, i), steps[i], id) && Delivered(At(s, steps, j), steps[j], id)
    ensures i < k < j && SeenOnline(At(s, steps, k), steps[k], id) && id !in At(s, steps, k + 1).db.alerts
  {
    AtNext(s, steps, i);
    assert id in At(s, steps, i).db.devices;
    k := FindsOnline(s, steps, i + 1, j, id);
  }

  // ---------------- A failed push is tried again ----------------

  lemma NoAlertHolds(s: State, step: Step, id: Id)
    requires id !in s.db.alerts && !Delivered(s, step, id)
    ensures id !in Next(s, step).db.alerts
  {
    if step.Elsewhere? && OffAlerts(step.statement) {
      AlertsElsewhere(s.db, step.statement, id);
    }
  }

  lemma {:induction false} NoAlertUntilDelivered(s: State, steps: seq<Step>, i: nat, j: nat, id: Id)
    requires i <= j <= |steps| && id !in At(s, steps, i).db.alerts
    requires forall k :: i <= k < j ==> !Delivered(At(s, steps, k), steps[k], id)
    ensures id !in At(s, steps, j).db.alerts
  {
    if i < j {
      NoAlertUntilDelivered(s, steps, i, j - 1, id);
      AtNext(s, steps, j - 1);
      NoAlertHolds(At(s, steps, j - 1), steps[j - 1], id);
    }
  }

  /** A push that fails leaves the device unalerted: the next look that finds it offline pushes again. */
  lemma FailedPushIsRetried(s: State, steps: seq<Step>, i: nat, j: nat, id: Id)
    requires DeviceOk(s, id) && i < j < |steps|
    requires steps[i].Pushed? && steps[i].id == id && !steps[i].ok && InFlight(At(s, steps, i), id)
    requires steps[j] == Visit(id) && Looks(At(s, steps, j), id) && SeesOffline(At(s, steps, j), id)
    requires forall k :: i < k < j ==> !Delivered(At(s, steps, k), steps[k], id)
    ensures InFlight(At(s, steps, j + 1), id)
  {
    AtKeepsDevice(s, steps, i, id);
    AtNext(s, steps, i);
    NoAlertUntilDelivered(s, steps, i + 1, j, id);
    AtNext(s, steps, j);
  }

  // ---------------- A device that keeps polling ----------------

  /** A device whose bootstrap poll is recent is neither swept offline nor alerted about. */
  lemma PollingDeviceIsLeftAlone(db: Db, id: Id, seen: Time, cutoff: Time, now: Time, threshold: int)
    requires id in db.devices && seen != ZERO_TIME
    requires Instant(cutoff) + NANOS <= Instant(seen) && Since(now, seen) <= threshold
    ensures var d := Execute(Execute(db, SetStatus(id, Online, seen)).db, MarkStale(cutoff)).db.devices[id];
      d == db.devices[id].(status := Online, lastSeen := Some(seen)) && !IsOffline(d, now, threshold)
  {
    CutoffWithinOneSecond(seen, cutoff);
  }

  // ---------------- The round itself ----------------

  /** One device of a round whose push, if it makes one, comes back at once. */
  function VisitSteps(id: Id, ok: bool, at: Time): seq<Step> {
    [Visit(id), Pushed(id, ok, at)]
  }

  function RoundSteps(order: seq<Device>, reachable: set<Id>, at: Time): seq<Step> {
    if order == [] then []
    else
      var last := order[|order| - 1].id;
      RoundSteps(order[..|order| - 1], reachable, at) + VisitSteps(last, last in reachable, at)
  }

  lemma RunVisit(s: State, steps: seq<Step>, id: Id, ok: bool, at: Time)
    ensures Run(s, steps + VisitSteps(id, ok, at)) == Next(Next(Run(s, steps), Visit(id)), Pushed(id, ok, at))
  {
    var longer := steps + VisitSteps(id, ok, at);
    assert longer[..|longer| - 1] == steps + [Visit(id)];
    assert (steps + [Visit(id)])[..|steps|] == steps;
  }

  /** What one device's turn does to the database when its push comes back at once. */
  function Visited(db: Db, d: Device, now: Time, threshold: int, ok: bool, at: Time): Db {
    if !IsOffline(d, now, threshold) then (if d.id in db.alerts then Execute(db, ClearAlert(d.id)).db else db)
    else if d.id in db.alerts || !ok then db
    else Execute(db, MarkAlerted(d.id, at)).db
  }

  lemma VisitAlone(db: Db, r: Round, id: Id, ok: bool, at: Time)
    requires id in r.unvisited && id in r.rows && r.rows[id].id == id && r.pushing == {}
    ensures Next(Next(State(db, Some(r)), Visit(id)), Pushed(id, ok, at))
      == State(Visited(db, r.rows[id], r.now, r.threshold, ok, at), Some(r.(unvisited := r.unvisited - {id})))
  {
    assert r.pushing + {id} - {id} == r.pushing;
  }

  method VisitDevice(store: Store.Store, d: Device, now: Time, threshold: int, reachable: set<Id>, at: Time)
    modifies store
    ensures store.View() == old(store.View()).(alerts := store.alerts)
    ensures !IsOffline(d, now, threshold) ==> store.alerts == old(store.alerts) - {d.id}
    ensures IsOffline(d, now, threshold) && d.id in old(store.alerts) ==> store.alerts == old(store.alerts)
    ensures IsOffline(d, now, threshold) && d.id !in old(store.alerts) ==>
      store.alerts == if d.id in reachable && d.id in store.devices then old(store.alerts)[d.id := at]
                      else old(store.alerts)
    ensures store.View() == Visited(old(store.View()), d, now, threshold, d.id in reachable, at)
  {
    var offline := IsOffline(d, now, threshold);
    var alerted := store.IsDeviceAlerted(d.id);
    if !offline {
      if alerted {
        store.ClearDeviceAlert(d.id);
      }
      return;
    }
    if alerted {
      return;
    }
    if d.id in reachable {
      var outcome := store.MarkDeviceAlerted(d.id, at);
    }
  }

  function IdsOf(ds: seq<Device>): set<Id> {
    set d | d in ds :: d.id
  }

  lemma NextUnvisited(devices: Devices, ds: seq<Device>, n: nat)
    requires DevicesOk(devices) && Enumerates(ds, devices.Values) && n < |ds|
    ensures ds[n].id in devices && devices[ds[n].id] == ds[n] && ds[n].id !in IdsOf(ds[..n])
    ensures IdsOf(ds[..n + 1]) == IdsOf(ds[..n]) + {ds[n].id}
  {
    assert ds[n] in ds;
    assert ds[..n + 1] == ds[..n] + [ds[n]];
    forall i | 0 <= i < n ensures ds[i].id != ds[n].id {
      assert ds[i] in ds;
    }
  }

  lemma AllVisited(devices: Devices, ds: seq<Device>)
    requires DevicesOk(devices) && Enumerates(ds, devices.Values)
    ensures devices.Keys - IdsOf(ds) == {}
  {
    forall k | k in devices ensures k in IdsOf(ds) {
      assert devices[k] in ds && devices[k].id == k;
    }
  }

  lemma RoundAdvances(begun: State, db: Db, rows: Devices, ds: seq<Device>, n: nat, now: Time, threshold: int,
                      reachable: set<Id>, at: Time)
    requires DevicesOk(rows) && Enumerates(ds, rows.Values) && n < |ds|
    requires Run(begun, RoundSteps(ds[..n], reachable, at))
      == State(db, Some(Round(rows, rows.Keys - IdsOf(ds[..n]), {}, now, threshold)))
    ensures Run(begun, RoundSteps(ds[..n + 1], reachable, at))
      == State(Visited(db, ds[n], now, threshold, ds[n].id in reachable, at),
               Some(Round(rows, rows.Keys - IdsOf(ds[..n + 1]), {}, now, threshold)))
  {
    var d := ds[n];
    var r := Round(rows, rows.Keys - IdsOf(ds[..n]), {}, now, threshold);
    NextUnvisited(rows, ds, n);
    assert ds[..n + 1][..n] == ds[..n];
    RunVisit(begun, RoundSteps(ds[..n], reachable, at), d.id, d.id in reachable, at);
    VisitAlone(db, r, d.id, d.id in reachable, at);
    assert r.unvisited - {d.id} == rows.Keys - IdsOf(ds[..n + 1]);
  }

  /** Of the devices looked at, exactly those are alerted that are offline and were alerted or could be pushed. */
  ghost predicate RoundAlerts(before: map<Id, Time>, alerts: map<Id, Time>, rows: Devices, seen: set<Id>, now: Time,
                              threshold: int, reachable: set<Id>)
  {
    forall id :: id in rows ==>
      (id in alerts <==>
        if id in seen then IsOffline(rows[id], now, threshold) && (id in before || id in reachable) else id in before)
  }

  lemma AlertsAdvance(before: map<Id, Time>, db: Db, rows: Devices, d: Device, seen: set<Id>, now: Time,
                      threshold: int, reachable: set<Id>, at: Time)
    requires RoundAlerts(before, db.alerts, rows, seen, now, threshold, reachable)
    requires db.devices == rows && d.id in rows && rows[d.id] == d && d.id !in seen
    ensures RoundAlerts(before, Visited(db, d, now, threshold, d.id in reachable, at).alerts, rows, seen + {d.id},
                        now, threshold, reachable)
  {
  }

  /** `maybePushBarkAlerts` run alone; `reachable` are the devices whose push would get through. */
  method MaybePushBarkAlerts(store: Store.Store, settings: Settings, now: Time, reachable: set<Id>, at: Time)
    returns (ghost order: seq<Device>)
    requires DevicesOk(store.devices)
    modifies store
    ensures Enumerates(order, old(store.devices).Values)
    ensures var begun := Next(State(old(store.View()), None), Begin(settings, now));
      Active(settings) ==> State(store.View(), None) == Next(Run(begun, RoundSteps(order, reachable, at)), End)
    ensures !Active(settings) ==> store.View() == old(store.View())
    ensures store.View() == old(store.View()).(alerts := store.alerts)
    ensures var rows := old(store.devices);
      settings.enabled && settings.url != "" ==> RoundAlerts(
        old(store.alerts), store.alerts, rows, rows.Keys, now, Threshold(settings.thresholdSeconds), reachable)
  {
    var devices := store.ListDevices();
    order := devices;
    if !Active(settings) {
      return;
    }
    var threshold := Threshold(settings.thresholdSeconds);
    ghost var rows := store.devices;
    ghost var begun := Next(State(store.View(), None), Begin(settings, now));
    assert rows.Keys - IdsOf(devices[..0]) == rows.Keys;
    for n := 0 to |devices|
      invariant Run(begun, RoundSteps(devices[..n], reachable, at))
        == State(store.View(), Some(Round(rows, rows.Keys - IdsOf(devices[..n]), {}, now, threshold)))
      invariant store.View() == old(store.View()).(alerts := store.alerts)
      invariant RoundAlerts(old(store.alerts), store.alerts, rows, IdsOf(devices[..n]), now, threshold, reachable)
    {
      var d := devices[n];
      NextUnvisited(rows, devices, n);
      AlertsAdvance(old(store.alerts), store.View(), rows, d, IdsOf(devices[..n]), now, threshold, reachable, at);
      RoundAdvances(begun, store.View(), rows, devices, n, now, threshold, reachable, at);
      VisitDevice(store, d, now, threshold, reachable, at);
    }
    assert devices[..|devices|] == devices;
    AllVisited(rows, devices);
    assert rows.Keys == rows.Keys * IdsOf(devices);
  }
}
