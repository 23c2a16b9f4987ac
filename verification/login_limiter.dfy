/** The limit on failed logins: `Allow` runs before the password check, `RecordFailure` after it, and
any number of logins can sit in between. Times are in nanoseconds.
*/
module LoginLimiter {
  datatype Ip = Ip(text: string)

  datatype Limits = Limits(maxFail: int, window: int)

  const DEFAULTS := Limits(5, 60_000_000_000)

  // ---------------- Failure times ----------------

  /** The times after the cutoff, in order. */
  function Recent(ts: seq<int>, cutoff: int): seq<int> {
    if ts == [] then []
    else Recent(ts[..|ts| - 1], cutoff) + (if ts[|ts| - 1] > cutoff then [ts[|ts| - 1]] else [])
  }

  /** How many of the times lie in [from, till). */
  function Within(ts: seq<int>, from: int, till: int): nat {
    if ts == [] then 0
    else Within(ts[..|ts| - 1], from, till) + (if from <= ts[|ts| - 1] < till then 1 else 0)
  }

  /** How many of the times lie in the half-open span of this length. */
  function Span(ts: seq<int>, from: int, length: int): nat {
    Within(ts, from, from + length)
  }

  /** `Recent` keeps every occurrence of a later time and none of another. */
  lemma {:induction false} RecentCounts(ts: seq<int>, cutoff: int, t: int)
    ensures multiset(Recent(ts, cutoff))[t] == if t > cutoff then multiset(ts)[t] else 0
  {
    if ts != [] {
      RecentCounts(ts[..|ts| - 1], cutoff, t);
      assert ts == ts[..|ts| - 1] + [ts[|ts| - 1]];
    }
  }

  /** And a span counts the times from its start on that are not from its end on. */
  lemma {:induction false} WithinCounts(ts: seq<int>, from: int, till: int)
    requires from <= till
    ensures Within(ts, from, till) == |Recent(ts, from - 1)| - |Recent(ts, till - 1)|
  {
    if ts != [] {
      WithinCounts(ts[..|ts| - 1], from, till);
    }
  }

  lemma RecentAppend(ts: seq<int>, t: int, cutoff: int)
    ensures Recent(ts + [t], cutoff) == Recent(ts, cutoff) + (if t > cutoff then [t] else [])
  {
    assert (ts + [t])[..|ts|] == ts;
  }

  lemma WithinAppend(ts: seq<int>, t: int, from: int, till: int)
    ensures Within(ts + [t], from, till) == Within(ts, from, till) + (if from <= t < till then 1 else 0)
  {
    assert (ts + [t])[..|ts|] == ts;
  }

  lemma {:induction false} RecentTwice(ts: seq<int>, early: int, late: int)
    requires early <= late
    ensures Recent(Recent(ts, early), late) == Recent(ts, late)
  {
    if ts != [] {
      var n := |ts| - 1;
      RecentTwice(ts[..n], early, late);
      if ts[n] > early {
        RecentAppend(Recent(ts[..n], early), ts[n], late);
      } else {
        assert Recent(ts, early) == Recent(ts[..n], early);
      }
    }
  }

  lemma {:induction false} WithinRecent(ts: seq<int>, cutoff: int, from: int, till: int)
    requires from > cutoff
    ensures Within(ts, from, till) <= |Recent(ts, cutoff)|
  {
    if ts != [] {
      WithinRecent(ts[..|ts| - 1], cutoff, from, till);
    }
  }

  lemma RecentAt(ts: seq<int>, n: nat, cutoff: int)
    requires n < |ts|
    ensures Recent(ts[..n + 1], cutoff) == Recent(ts[..n], cutoff) + (if ts[n] > cutoff then [ts[n]] else [])
  {
    assert ts[..n + 1] == ts[..n] + [ts[n]];
    RecentAppend(ts[..n], ts[n], cutoff);
  }

  /** Writing one place of a slice leaves the part that is still to be read alone. */
  lemma KeepOne(arr: seq<int>, kept: nat, n: nat, t: int)
    requires kept <= n < |arr|
    ensures arr[kept := t][..kept + 1] == arr[..kept] + [t] && arr[kept := t][n + 1..] == arr[n + 1..]
  {
  }

  // ---------------- The limiter ----------------

  function Times(failures: map<Ip, seq<int>>, ip: Ip): seq<int> {
    if ip in failures then failures[ip] else []
  }

  function Noted(m: map<Ip, seq<int>>, ip: Ip, now: int): map<Ip, seq<int>> {
    m[ip := Times(m, ip) + [now]]
  }

  function Swept(m: map<Ip, seq<int>>, ip: Ip, cutoff: int): map<Ip, seq<int>> {
    if Recent(Times(m, ip), cutoff) == [] then m - {ip} else m[ip := Recent(Times(m, ip), cutoff)]
  }

  class LoginRateLimiter {
    var failures: map<Ip, seq<int>>
    const limits: Limits

    constructor (limits: Limits)
      ensures failures == map[] && this.limits == limits
    {
      failures, this.limits := map[], limits;
    }

    /** Compacts one address's slice in place: what is read at `n` was not overwritten, as `kept <= n`. */
    method GcLocked(ip: Ip, cutoff: int)
      modifies this
      ensures failures == Swept(old(failures), ip, cutoff)
    {
      var arr := Times(failures, ip);
      ghost var before := arr;
      var kept := 0;
      for n := 0 to |arr|
        invariant kept <= n <= |arr| == |before| && failures == old(failures)
        invariant arr[n..] == before[n..]
        invariant arr[..kept] == Recent(before[..n], cutoff)
      {
        RecentAt(before, n, cutoff);
        var t := arr[n];
        assert t == arr[n..][0] == before[n];
        assert arr[n + 1..] == before[n + 1..];
        if t > cutoff {
          KeepOne(arr, kept, n, t);
          arr := arr[kept := t];
          kept := kept + 1;
        }
      }
      assert before[..|arr|] == before;
      if kept == 0 {
        failures := failures - {ip};
      } else {
        failures := failures[ip := arr[..kept]];
      }
    }

    method Allow(ip: Ip, now: int) returns (allowed: bool)
      modifies this
      ensures failures == Swept(old(failures), ip, now - limits.window)
      ensures allowed <==> |Recent(Times(old(failures), ip), now - limits.window)| < limits.maxFail
    {
      GcLocked(ip, now - limits.window);
      allowed := |Times(failures, ip)| < limits.maxFail;
    }

    method RecordFailure(ip: Ip, now: int)
      modifies this
      ensures failures == Noted(old(failures), ip, now)
    {
      failures := failures[ip := Times(failures, ip) + [now]];
    }
  }

  // ---------------- Logins in flight ----------------

  /** `past` is every failure ever recorded; `failures` is what the limiter still holds. */
  datatype State = State(failures: map<Ip, seq<int>>, past: map<Ip, seq<int>>, flight: multiset<Ip>, clock: int)

  datatype Step =
    | Arrive(ip: Ip, now: int)   // Allow
    | Fail(ip: Ip, now: int)     // unknown user or wrong password: RecordFailure
    | Leave(ip: Ip, now: int)    // logged in, bad request or server error

  const START := State(map[], map[], multiset{}, 0)

  function Next(c: Limits, s: State, step: Step): State {
    match step
    case Arrive(ip, now) =>
      var kept := Swept(s.failures, ip, now - c.window);
      State(kept, s.past, if |Times(kept, ip)| < c.maxFail then s.flight + multiset{ip} else s.flight, now)
    case Fail(ip, now) =>
      if ip in s.flight then State(Noted(s.failures, ip, now), Noted(s.past, ip, now), s.flight - multiset{ip}, now)
      else s.(clock := now)
    case Leave(ip, now) => s.(flight := s.flight - multiset{ip}, clock := now)
  }

  /** How the rest of a login goes once it is let through. */
  datatype Login = Malformed | NoCredentials | StoreFails | UnknownUser | WrongPassword | SessionFails | LoggedIn

  datatype Answer = TooManyRequests | BadRequest | ServerError | Unauthorized | Session

  /** `HandleLogin` is its two steps: an arrival, then one failure or a departure. */
  method HandleLogin(limiter: LoginRateLimiter, ip: Ip, now: int, later: int, login: Login) returns (answer: Answer)
    modifies limiter
    ensures var c := limiter.limits;
      var arrived := Next(c, State(old(limiter.failures), map[], multiset{}, now), Arrive(ip, now));
      && (answer == TooManyRequests <==> ip !in arrived.flight)
      && (answer == Unauthorized <==> ip in arrived.flight && (login.UnknownUser? || login.WrongPassword?))
      && (answer == BadRequest <==> ip in arrived.flight && (login.Malformed? || login.NoCredentials?))
      && (answer == ServerError <==> ip in arrived.flight && (login.StoreFails? || login.SessionFails?))
      && (answer == Session <==> ip in arrived.flight && login.LoggedIn?)
      && var ending := if answer == Unauthorized then Fail(ip, later) else Leave(ip, later);
        limiter.failures == Next(c, arrived, ending).failures
  {
    var allowed := limiter.Allow(ip, now);
    if !allowed {
      return TooManyRequests;
    }
    match login
    case Malformed => return BadRequest;
    case NoCredentials => return BadRequest;
    case StoreFails => return ServerError;
    case UnknownUser =>
      limiter.RecordFailure(ip, later);
      return Unauthorized;
    case WrongPassword =>
      limiter.RecordFailure(ip, later);
      return Unauthorized;
    case SessionFails => return ServerError;
    case LoggedIn => return Session;
  }

  function Run(c: Limits, steps: seq<Step>): State {
    if steps == [] then START else Next(c, Run(c, steps[..|steps| - 1]), steps[|steps| - 1])
  }

  ghost predicate ClockForward(c: Limits, steps: seq<Step>) {
    steps == [] ||
    var init, last := steps[..|steps| - 1], steps[|steps| - 1];
    ClockForward(c, init) && last.now >= Run(c, init).clock
  }

  ghost predicate InFlightAtMost(c: Limits, steps: seq<Step>, ip: Ip, most: int) {
    steps == [] || (InFlightAtMost(c, steps[..|steps| - 1], ip, most) && Run(c, steps).flight[ip] <= most)
  }

  /** The clock does not go back, and at most `most` logins of this address are in flight at a time. */
  ghost predicate Fits(c: Limits, steps: seq<Step>, ip: Ip, most: int) {
    ClockForward(c, steps) && InFlightAtMost(c, steps, ip, most)
  }

  /** What the limiter has dropped is too old for any later `Allow`. */
  ghost predicate NothingLost(c: Limits, s: State, ip: Ip) {
    Recent(Times(s.failures, ip), s.clock - c.window) == Recent(Times(s.past, ip), s.clock - c.window)
  }

  /** Logins in flight could still fail now: they count as if they had. */
  ghost predicate RoomLeft(c: Limits, s: State, ip: Ip, most: int) {
    forall from, till :: from > s.clock - c.window ==>
      Within(Times(s.past, ip), from, till) + s.flight[ip] <= c.maxFail - 1 + most
  }

  ghost predicate SpansBounded(c: Limits, s: State, ip: Ip, most: int) {
    forall from :: Span(Times(s.past, ip), from, c.window) <= c.maxFail - 1 + most
  }

  /** What a step can do to one address: nothing, or its failures are swept, or one is noted. */
  ghost predicate Moves(c: Limits, s: State, after: State, now: int, ip: Ip) {
    var held, ever := Times(s.failures, ip), Times(s.past, ip);
    || (Times(after.failures, ip) == held && Times(after.past, ip) == ever)
    || (Times(after.failures, ip) == Recent(held, now - c.window) && Times(after.past, ip) == ever)
    || (Times(after.failures, ip) == held + [now] && Times(after.past, ip) == ever + [now])
  }

  lemma NextMoves(c: Limits, s: State, step: Step, ip: Ip)
    ensures Moves(c, s, Next(c, s, step), step.now, ip) && Next(c, s, step).clock == step.now
  {
  }

  lemma SweepLosesNothing(held: seq<int>, ever: seq<int>, early: int, late: int)
    requires early <= late && Recent(held, early) == Recent(ever, early)
    ensures Recent(held, late) == Recent(ever, late) && Recent(Recent(held, late), late) == Recent(ever, late)
  {
    RecentTwice(held, early, late);
    RecentTwice(ever, early, late);
    RecentTwice(held, late, late);
  }

  lemma NoteLosesNothing(held: seq<int>, ever: seq<int>, t: int, late: int)
    requires Recent(held, late) == Recent(ever, late)
    ensures Recent(held + [t], late) == Recent(ever + [t], late)
  {
    RecentAppend(held, t, late);
    RecentAppend(ever, t, late);
  }

  lemma MovesLoseNothing(c: Limits, s: State, after: State, now: int, ip: Ip)
    requires NothingLost(c, s, ip) && Moves(c, s, after, now, ip) && s.clock <= now == after.clock
    ensures NothingLost(c, after, ip)
  {
    var held, ever := Times(s.failures, ip), Times(s.past, ip);
    SweepLosesNothing(held, ever, s.clock - c.window, now - c.window);
    NoteLosesNothing(held, ever, now, now - c.window);
  }

  lemma NothingLostNext(c: Limits, s: State, step: Step, ip: Ip)
    requires NothingLost(c, s, ip) && step.now >= s.clock && c.window >= 0
    ensures NothingLost(c, Next(c, s, step), ip)
  {
    NextMoves(c, s, step, ip);
    MovesLoseNothing(c, s, Next(c, s, step), step.now, ip);
  }

  /** What a step does to the room left: nothing, or a login in flight becomes a failure, or `Allow`
  has just counted fewer than maxFail. */
  lemma NextFlight(c: Limits, s: State, step: Step, ip: Ip)
    ensures var after := Next(c, s, step);
      var ever := Times(s.past, ip);
      || (Times(after.past, ip) == ever && after.flight[ip] <= s.flight[ip])
      || (Times(after.past, ip) == ever + [step.now] && after.flight[ip] == s.flight[ip] - 1)
      || (Times(after.past, ip) == ever
          && Times(after.failures, ip) == Recent(Times(s.failures, ip), step.now - c.window)
          && |Times(after.failures, ip)| < c.maxFail)
  {
  }

  lemma RoomLeftNext(c: Limits, s: State, step: Step, ip: Ip, most: int)
    requires NothingLost(c, s, ip) && RoomLeft(c, s, ip, most) && step.now >= s.clock && c.window >= 0
    requires Next(c, s, step).flight[ip] <= most
    ensures RoomLeft(c, Next(c, s, step), ip, most)
  {
    var after := Next(c, s, step);
    var late := step.now - c.window;
    SweepLosesNothing(Times(s.failures, ip), Times(s.past, ip), s.clock - c.window, late);
    forall from: int, till: int | from > late
      ensures Within(Times(after.past, ip), from, till) + after.flight[ip] <= c.maxFail - 1 + most
    {
      RoomAt(c, s, step, ip, most, from, till);
    }
  }

  lemma RoomAt(c: Limits, s: State, step: Step, ip: Ip, most: int, from: int, till: int)
    requires RoomLeft(c, s, ip, most) && step.now >= s.clock && from > step.now - c.window
    requires Recent(Times(s.failures, ip), step.now - c.window) == Recent(Times(s.past, ip), step.now - c.window)
    requires Next(c, s, step).flight[ip] <= most
    ensures var after := Next(c, s, step);
      Within(Times(after.past, ip), from, till) + after.flight[ip] <= c.maxFail - 1 + most
  {
    var ever := Times(s.past, ip);
    var after := Next(c, s, step);
    NextFlight(c, s, step, ip);
    assert Within(ever, from, till) + s.flight[ip] <= c.maxFail - 1 + most;
    assert Times(after.past, ip) == ever || Times(after.past, ip) == ever + [step.now];
    WithinAppend(ever, step.now, from, till);
    WithinRecent(ever, step.now - c.window, from, till);
  }

  lemma SpansBoundedNext(c: Limits, s: State, step: Step, ip: Ip, most: int)
    requires SpansBounded(c, s, ip, most) && RoomLeft(c, Next(c, s, step), ip, most)
    ensures SpansBounded(c, Next(c, s, step), ip, most)
  {
    var after := Next(c, s, step);
    forall from ensures Span(Times(after.past, ip), from, c.window) <= c.maxFail - 1 + most {
      WithinAppend(Times(s.past, ip), step.now, from, from + c.window);
      if from > step.now - c.window {
        assert Within(Times(after.past, ip), from, from + c.window) + after.flight[ip] <= c.maxFail - 1 + most;
      } else {
        assert Span(Times(s.past, ip), from, c.window) <= c.maxFail - 1 + most;
      }
    }
  }

  lemma {:induction false} RunLosesNothing(c: Limits, steps: seq<Step>, ip: Ip)
    requires c.window >= 0 && ClockForward(c, steps)
    ensures NothingLost(c, Run(c, steps), ip)
  {
    if steps != [] {
      var n := |steps| - 1;
      RunLosesNothing(c, steps[..n], ip);
      NothingLostNext(c, Run(c, steps[..n]), steps[n], ip);
    }
  }

  lemma {:induction false} RunKeepsBounds(c: Limits, steps: seq<Step>, ip: Ip, most: int)
    requires c.maxFail >= 1 && c.window >= 0 && most >= 0 && Fits(c, steps, ip, most)
    ensures var s := Run(c, steps); RoomLeft(c, s, ip, most) && SpansBounded(c, s, ip, most)
  {
    if steps != [] {
      var n := |steps| - 1;
      RunKeepsBounds(c, steps[..n], ip, most);
      RunLosesNothing(c, steps[..n], ip);
      RoomLeftNext(c, Run(c, steps[..n]), steps[n], ip, most);
      SpansBoundedNext(c, Run(c, steps[..n]), steps[n], ip, most);
    }
  }

  /** Under concurrency the limit is soft by what is in flight, and by no more: every span [from,
  from + window) holds at most maxFail - 1 + most failures of an address. */
  lemma FailuresPerWindow(c: Limits, steps: seq<Step>, ip: Ip, most: int, from: int)
    requires c.maxFail >= 1 && c.window >= 0 && most >= 0 && Fits(c, steps, ip, most)
    ensures Span(Times(Run(c, steps).past, ip), from, c.window) <= c.maxFail - 1 + most
  {
    RunKeepsBounds(c, steps, ip, most);
  }

  /** With the limits the server has: with at most `most` logins of an address in flight, no minute sees more than
  4 + most failures of it. */
  lemma FailuresPerMinute(steps: seq<Step>, ip: Ip, most: int, from: int)
    requires most >= 0 && Fits(DEFAULTS, steps, ip, most)
    ensures Within(Times(Run(DEFAULTS, steps).past, ip), from, from + 60 * 1_000_000_000) <= 4 + most
  {
    FailuresPerWindow(DEFAULTS, steps, ip, most, from);
  }

  lemma StillThere(c: Limits, s: State, ip: Ip, now: int)
    requires NothingLost(c, s, ip) && now >= s.clock
    ensures Recent(Times(s.failures, ip), now - c.window) == Recent(Times(s.past, ip), now - c.window)
  {
    SweepLosesNothing(Times(s.failures, ip), Times(s.past, ip), s.clock - c.window, now - c.window);
  }

  lemma Admitted(c: Limits, s: State, ip: Ip, now: int)
    ensures Next(c, s, Arrive(ip, now)).flight[ip] > s.flight[ip] <==>
      |Recent(Times(s.failures, ip), now - c.window)| < c.maxFail
  {
  }

  /** `Allow` decides as if no failure had ever been dropped. */
  lemma AllowSeesWholePast(c: Limits, steps: seq<Step>, ip: Ip, now: int)
    requires c.window >= 0 && ClockForward(c, steps) && now >= Run(c, steps).clock
    ensures var s := Run(c, steps);
      Next(c, s, Arrive(ip, now)).flight[ip] > s.flight[ip] <==> |Recent(Times(s.past, ip), now - c.window)| < c.maxFail
  {
    var s := Run(c, steps);
    RunLosesNothing(c, steps, ip);
    StillThere(c, s, ip, now);
    Admitted(c, s, ip, now);
  }

  // ---------------- The bound is reached ----------------

  function Zeros(n: nat): seq<int> {
    if n == 0 then [] else Zeros(n - 1) + [0]
  }

  lemma {:induction false} ZerosCount(n: nat, window: int)
    requires window >= 1
    ensures |Zeros(n)| == n && Recent(Zeros(n), 0 - window) == Zeros(n) && Span(Zeros(n), 0, window) == n
  {
    if n > 0 {
      ZerosCount(n - 1, window);
      RecentAppend(Zeros(n - 1), 0, 0 - window);
      WithinAppend(Zeros(n - 1), 0, 0, window);
    }
  }

  /** All at one instant: so many failures, so many logins in flight. */
  ghost predicate Stands(c: Limits, steps: seq<Step>, ip: Ip, most: int, failed: nat, waiting: int) {
    var s := Run(c, steps);
    && Times(s.failures, ip) == Times(s.past, ip) == Zeros(failed)
    && s.flight[ip] == waiting && s.clock == 0 && Fits(c, steps, ip, most)
  }

  lemma FitsOneMore(c: Limits, steps: seq<Step>, step: Step, ip: Ip, most: int)
    requires Fits(c, steps, ip, most) && step.now >= Run(c, steps).clock
    requires Next(c, Run(c, steps), step).flight[ip] <= most
    ensures Fits(c, steps + [step], ip, most) && Run(c, steps + [step]) == Next(c, Run(c, steps), step)
  {
    assert (steps + [step])[..|steps|] == steps;
  }

  lemma ArrivesAtZero(c: Limits, s: State, ip: Ip, failed: nat)
    requires c.window >= 1 && failed < c.maxFail && Times(s.failures, ip) == Zeros(failed)
    ensures var after := Next(c, s, Arrive(ip, 0));
      && Times(after.failures, ip) == Zeros(failed) && after.past == s.past
      && after.flight[ip] == s.flight[ip] + 1 && after.clock == 0
  {
    ZerosCount(failed, c.window);
  }

  lemma OneArrives(c: Limits, steps: seq<Step>, ip: Ip, most: int, failed: nat, waiting: int)
    returns (longer: seq<Step>)
    requires c.window >= 1 && failed < c.maxFail && waiting <= most && Stands(c, steps, ip, most, failed, waiting - 1)
    ensures Stands(c, longer, ip, most, failed, waiting)
  {
    longer := steps + [Arrive(ip, 0)];
    ArrivesAtZero(c, Run(c, steps), ip, failed);
    FitsOneMore(c, steps, Arrive(ip, 0), ip, most);
  }

  lemma OneFails(c: Limits, steps: seq<Step>, ip: Ip, most: int, failed: nat, waiting: int)
    returns (longer: seq<Step>)
    requires failed >= 1 && 0 <= waiting < most && Stands(c, steps, ip, most, failed - 1, waiting + 1)
    ensures Stands(c, longer, ip, most, failed, waiting)
  {
    longer := steps + [Fail(ip, 0)];
    FitsOneMore(c, steps, Fail(ip, 0), ip, most);
  }

  lemma OneByOne(c: Limits, ip: Ip, most: int, failed: nat) returns (steps: seq<Step>)
    requires c.window >= 1 && most >= 1 && failed < c.maxFail
    ensures Stands(c, steps, ip, most, failed, 0)
  {
    if failed == 0 {
      steps := [];
    } else {
      var before := OneByOne(c, ip, most, failed - 1);
      var arrived := OneArrives(c, before, ip, most, failed - 1, 1);
      steps := OneFails(c, arrived, ip, most, failed, 0);
    }
  }

  lemma ThenTogether(c: Limits, ip: Ip, most: int, failed: nat, waiting: nat) returns (steps: seq<Step>)
    requires c.window >= 1 && 1 <= most && failed == c.maxFail - 1 && waiting <= most
    ensures Stands(c, steps, ip, most, failed, waiting)
  {
    if waiting == 0 {
      steps := OneByOne(c, ip, most, failed);
    } else {
      var before := ThenTogether(c, ip, most, failed, waiting - 1);
      steps := OneArrives(c, before, ip, most, failed, waiting);
    }
  }

  lemma ThenAllFail(c: Limits, ip: Ip, most: int, failed: nat, waiting: nat) returns (steps: seq<Step>)
    requires c.window >= 1 && 1 <= most && 1 <= c.maxFail && failed + waiting == c.maxFail - 1 + most && waiting <= most
    ensures Stands(c, steps, ip, most, failed, waiting)
    decreases failed
  {
    if waiting == most {
      steps := ThenTogether(c, ip, most, failed, waiting);
    } else {
      var before := ThenAllFail(c, ip, most, failed - 1, waiting + 1);
      steps := OneFails(c, before, ip, most, failed, waiting);
    }
  }

  /** maxFail - 1 failures one after the other, then `most` logins that all pass `Allow` before any of
  them fails: the bound of FailuresPerWindow cannot be lowered. */
  lemma BoundIsReached(c: Limits, ip: Ip, most: int) returns (steps: seq<Step>)
    requires c.maxFail >= 1 && c.window >= 1 && most >= 1
    ensures Fits(c, steps, ip, most) && Span(Times(Run(c, steps).past, ip), 0, c.window) == c.maxFail - 1 + most
  {
    var failed := c.maxFail - 1 + most;
    steps := ThenAllFail(c, ip, most, failed, 0);
    ZerosCount(failed, c.window);
  }
}
