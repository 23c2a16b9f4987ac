/** The client daemon: fetch the bootstrap, run the tunnel, poll for changes, start again.

What the world does (answers, tunnel errors, the context) is an input; a session is the events of
`runOnce` and of the `watchReload` goroutine beside it, in the order they happen.
*/
module Daemon {
  import opened Wrappers
  import opened ChiselSpec
  import opened Bootstrap
  import Schema
  import opened Guarantees
  import ReloadKey

  /** The answer to a bootstrap request. */
  datatype Fetch = Got(boot: Bootstrap) | Refused | FetchCanceled | Unreachable

  /** How a run of `runOnce` ends. */
  datatype End = Canceled | Unauthorized | ReloadRequested | Failed | Clean

  datatype StopReason = Changed | Revoked

  datatype Event =
    | Poll(answer: Fetch)        // watchReload's ticker
    | TunnelEnds(how: End)        // cli.Run returns
    | StopTaken                  // the select in runOnce receives from stopCh
    | ContextEnds(deadline: bool)

  /** What the tunnel runs, whether watchReload still does, and what it put into stopCh. */
  datatype Session = Session(
    remotes: seq<Remote>, locals: seq<Local>, watching: bool, stop: Option<StopReason>, end: Option<End>)

  /** The text the daemon hashes for a bootstrap. */
  function TextOf(b: Bootstrap): string {
    ReloadKey.CanonicalText(RemoteRules(b), LocalRules(b))
  }

  function Open(b: Bootstrap): Session {
    Session(RemoteRules(b), LocalRules(b), true, None, None)
  }

  /** The tunnel client reports success, cancellation or some other error. */
  function TunnelEnd(end: End): End {
    if end.Canceled? || end.Clean? then end else Failed
  }

  function Next(s: Session, e: Event): Session {
    if s.end.Some? then s
    else
      match e
      case Poll(answer) =>
        if !s.watching then s
        else if answer.Refused? then s.(watching := false, stop := Some(Revoked))
        else if answer.Got? && TextOf(answer.boot) != ReloadKey.CanonicalText(s.remotes, s.locals) then
          s.(watching := false, stop := Some(Changed))
        else s
      case TunnelEnds(end) => s.(end := Some(TunnelEnd(end)))
      case StopTaken =>
        if s.stop.None? then s else s.(end := Some(if s.stop.value.Revoked? then Unauthorized else ReloadRequested))
      case ContextEnds(deadline) => s.(end := Some(if deadline then Failed else Canceled))
  }

  function After(b: Bootstrap, events: seq<Event>): Session {
    if events == [] then Open(b) else Next(After(b, events[..|events| - 1]), events[|events| - 1])
  }

  predicate Buildable(b: Bootstrap) {
    && (forall i :: 0 <= i < |b.remotes| ==> ValidRemote(RemoteRules(b)[i]))
    && (forall i :: 0 <= i < |b.locals| ==> ValidLocal(LocalRules(b)[i]))
  }

  // ---------------- How a session ends, over its events ----------------

  /** A poll that makes the watch stop: refused, or with another text than the one the session began with. */
  predicate Stops(b: Bootstrap, e: Event) {
    e.Poll? && (e.answer.Refused? || (e.answer.Got? && TextOf(e.answer.boot) != TextOf(b)))
  }

  ghost predicate FirstStop(b: Bootstrap, events: seq<Event>, p: nat) {
    p < |events| && Stops(b, events[p]) && forall q :: 0 <= q < p ==> !Stops(b, events[q])
  }

  /** The select has something to receive: the tunnel's error, the stop of an earlier poll, or the context. */
  ghost predicate Decides(b: Bootstrap, events: seq<Event>, i: nat)
    requires i < |events|
  {
    || events[i].TunnelEnds? || events[i].ContextEnds?
    || (events[i].StopTaken? && exists p :: 0 <= p < i && Stops(b, events[p]))
  }

  ghost predicate FirstDecision(b: Bootstrap, events: seq<Event>, i: nat) {
    i < |events| && Decides(b, events, i) && forall j :: 0 <= j < i ==> !Decides(b, events, j)
  }

  /** What the event that is received first means for the session. */
  ghost predicate Ending(b: Bootstrap, events: seq<Event>, i: nat, end: End)
    requires i < |events|
  {
    match events[i]
    case TunnelEnds(how) =>
      && (how.Canceled? ==> end == Canceled) && (how.Clean? ==> end == Clean)
      && (!how.Canceled? && !how.Clean? ==> end == Failed)
    case ContextEnds(deadline) => end == if deadline then Failed else Canceled
    case StopTaken =>
      exists p :: 0 <= p < i && FirstStop(b, events, p)
                  && end == if events[p] == Poll(Refused) then Unauthorized else ReloadRequested
    case Poll(_) => false
  }

  /** None while nothing has been received; afterwards what came first decides. */
  ghost predicate EndsBy(b: Bootstrap, events: seq<Event>, end: Option<End>) {
    && (end.None? <==> forall i :: 0 <= i < |events| ==> !Decides(b, events, i))
    && (forall i :: 0 <= i < |events| && FirstDecision(b, events, i) ==> end.Some? && Ending(b, events, i, end.value))
  }

  /** The fetch succeeded and a tunnel could be built. */
  ghost predicate Runs(hasIdentity: bool, fetch: Fetch) {
    fetch.Got? && hasIdentity && RulesPass(RemoteRules(fetch.boot), LocalRules(fetch.boot))
  }

  /** What the watch has put into stopCh goes back to its first stopping poll, unless the session was over. */
  ghost predicate StopIs(b: Bootstrap, events: seq<Event>, stop: Option<StopReason>) {
    && (stop.None? <==> forall p :: 0 <= p < |events| ==> !Stops(b, events[p]))
    && (forall p :: 0 <= p < |events| && FirstStop(b, events, p) ==>
          stop == Some(if events[p] == Poll(Refused) then Revoked else Changed))
  }

  lemma {:induction false} SessionStop(b: Bootstrap, events: seq<Event>)
    ensures After(b, events).end.None? ==> StopIs(b, events, After(b, events).stop)
  {
    if events != [] && After(b, events).end.None? {
      var n := |events| - 1;
      SessionStop(b, events[..n]);
      SessionRules(b, events[..n]);
      NextStop(b, After(b, events[..n]), events[n]);
      StopNext(b, events, n, After(b, events[..n]).stop, After(b, events).stop);
    }
  }

  /** The first poll that stops the watch is the one that is kept. */
  lemma NextStop(b: Bootstrap, s: Session, e: Event)
    requires s.remotes == RemoteRules(b) && s.locals == LocalRules(b) && (s.watching <==> s.stop.None?) && s.end.None?
    ensures Next(s, e).stop
      == if s.stop.None? && Stops(b, e) then Some(if e == Poll(Refused) then Revoked else Changed) else s.stop
  {
  }

  lemma StopNext(b: Bootstrap, events: seq<Event>, n: nat, stop: Option<StopReason>, after: Option<StopReason>)
    requires n == |events| - 1 && StopIs(b, events[..n], stop)
    requires after == if stop.None? && Stops(b, events[n])
                      then Some(if events[n] == Poll(Refused) then Revoked else Changed) else stop
    ensures StopIs(b, events, after)
  {
    if stop.Some? {
      StopKept(b, events, n, stop);
    } else {
      StopNew(b, events, n);
    }
  }

  lemma StopKept(b: Bootstrap, events: seq<Event>, n: nat, stop: Option<StopReason>)
    requires n == |events| - 1 && StopIs(b, events[..n], stop) && stop.Some?
    ensures StopIs(b, events, stop)
  {
    var q :| 0 <= q < n && Stops(b, events[..n][q]);
    assert Stops(b, events[q]);
    forall p | 0 <= p < |events| && FirstStop(b, events, p)
      ensures stop == Some(if events[p] == Poll(Refused) then Revoked else Changed)
    {
      assert p <= q && FirstStop(b, events[..n], p) && events[..n][p] == events[p];
    }
  }

  lemma StopNew(b: Bootstrap, events: seq<Event>, n: nat)
    requires n == |events| - 1 && StopIs(b, events[..n], None)
    ensures var e := events[n];
      StopIs(b, events, if Stops(b, e) then Some(if e == Poll(Refused) then Revoked else Changed) else None)
  {
    forall p | 0 <= p < n ensures !Stops(b, events[p]) {
      assert events[..n][p] == events[p];
    }
  }

  lemma {:induction false} SomeFirstStop(b: Bootstrap, events: seq<Event>, p: nat) returns (q: nat)
    requires p < |events| && Stops(b, events[p])
    ensures q <= p && FirstStop(b, events, q)
  {
    q := p;
    if r :| 0 <= r < p && Stops(b, events[r]) {
      q := SomeFirstStop(b, events, r);
    }
  }

  /** Later events change nothing about earlier ones. */
  lemma PrefixReads(b: Bootstrap, events: seq<Event>, n: nat, i: nat)
    requires i < n <= |events|
    ensures Decides(b, events, i) <==> Decides(b, events[..n], i)
    ensures forall end :: Ending(b, events, i, end) <==> Ending(b, events[..n], i, end)
  {
    assert forall p :: 0 <= p < i ==> events[..n][p] == events[p];
    assert forall p :: 0 <= p < i ==> (FirstStop(b, events, p) <==> FirstStop(b, events[..n], p));
  }

  /** `runOnce` ends as the first event that its select can receive says. */
  lemma {:induction false} SessionEnd(b: Bootstrap, events: seq<Event>)
    ensures EndsBy(b, events, After(b, events).end)
  {
    if events != [] {
      var n := |events| - 1;
      SessionEnd(b, events[..n]);
      SessionStop(b, events[..n]);
      forall i | 0 <= i < n
        ensures Decides(b, events, i) <==> Decides(b, events[..n], i)
        ensures forall end :: Ending(b, events, i, end) <==> Ending(b, events[..n], i, end)
      {
        PrefixReads(b, events, n, i);
      }
      if After(b, events[..n]).end.None? {
        LastDecides(b, events, n);
      }
    }
  }

  lemma LastDecides(b: Bootstrap, events: seq<Event>, n: nat)
    requires n == |events| - 1 && After(b, events[..n]).end.None?
    requires StopIs(b, events[..n], After(b, events[..n]).stop)
    ensures After(b, events).end.Some? <==> Decides(b, events, n)
    ensures Decides(b, events, n) ==> Ending(b, events, n, After(b, events).end.value)
  {
    var s := After(b, events[..n]);
    NextEnd(s, events[n]);
    if events[n].StopTaken? {
      StopDecides(b, events, n, s.stop);
    }
  }

  /** What one event does to a session that has not ended. */
  lemma NextEnd(s: Session, e: Event)
    requires s.end.None?
    ensures e.Poll? ==> Next(s, e).end.None?
    ensures e.TunnelEnds? ==> Next(s, e).end == Some(TunnelEnd(e.how))
    ensures e.ContextEnds? ==> Next(s, e).end == Some(if e.deadline then Failed else Canceled)
    ensures e.StopTaken? && s.stop.None? ==> Next(s, e).end.None?
    ensures e.StopTaken? && s.stop == Some(Revoked) ==> Next(s, e).end == Some(Unauthorized)
    ensures e.StopTaken? && s.stop == Some(Changed) ==> Next(s, e).end == Some(ReloadRequested)
  {
  }

  lemma StopDecides(b: Bootstrap, events: seq<Event>, n: nat, stop: Option<StopReason>)
    requires n < |events| && StopIs(b, events[..n], stop)
    ensures stop.Some? <==> exists p :: 0 <= p < n && Stops(b, events[p])
    ensures stop.Some? ==> exists p :: 0 <= p < n && FirstStop(b, events, p)
                                       && stop == Some(if events[p] == Poll(Refused) then Revoked else Changed)
  {
    assert forall p :: 0 <= p < n ==> events[..n][p] == events[p];
    if stop.Some? {
      var p :| 0 <= p < n && Stops(b, events[..n][p]);
      var q := SomeFirstStop(b, events[..n], p);
      assert FirstStop(b, events, q) && events[..n][q] == events[q];
    }
    if p :| 0 <= p < n && Stops(b, events[p]) {
      assert Stops(b, events[..n][p]);
    }
  }

  /** None while the session still runs. */
  function Outcome(hasIdentity: bool, fetch: Fetch, events: seq<Event>): Option<End> {
    match fetch
    case Refused => Some(Unauthorized)
    case FetchCanceled => Some(Canceled)
    case Unreachable => Some(Failed)
    case Got(b) => if !hasIdentity || !Buildable(b) then Some(Failed) else After(b, events).end
  }

  /** `runOnce`, with `watchReload` beside it. */
  method RunOnce(hasIdentity: bool, fetch: Fetch, events: seq<Event>) returns (end: Option<End>)
    ensures fetch.Refused? ==> end == Some(Unauthorized)
    ensures fetch.FetchCanceled? ==> end == Some(Canceled)
    ensures fetch.Unreachable? ==> end == Some(Failed)
    ensures fetch.Got? && !Runs(hasIdentity, fetch) ==> end == Some(Failed)
    ensures Runs(hasIdentity, fetch) ==> EndsBy(fetch.boot, events, end)
    ensures end == Outcome(hasIdentity, fetch, events)
  {
    match fetch
    case Refused => return Some(Unauthorized);
    case FetchCanceled => return Some(Canceled);
    case Unreachable => return Some(Failed);
    case Got(boot) =>
      var remotes, locals := BootToSpecs(boot);
      if !hasIdentity {
        return Some(Failed);
      }
      var specs := EncodeSpecs(remotes, locals);
      if specs.None? {
        return Some(Failed);
      }
      end := Watch(boot, remotes, locals, events);
      SessionEnd(boot, events);
  }

  /** The select of `runOnce` over the tunnel's end, the stop reason and the context. */
  method Watch(boot: Bootstrap, remotes: seq<Remote>, locals: seq<Local>, events: seq<Event>)
    returns (end: Option<End>)
    requires remotes == RemoteRules(boot) && locals == LocalRules(boot)
    ensures end == After(boot, events).end
  {
    var baseline := ReloadKey.HashSpecs(remotes, locals);
    var watching, stop := true, None;
    end := None;
    for n := 0 to |events|
      invariant After(boot, events[..n]) == Session(remotes, locals, watching, stop, end)
    {
      assert events[..n + 1][..n] == events[..n];
      if end.Some? {
        continue;
      }
      match events[n] {
        case Poll(answer) =>
          if watching {
            watching, stop := WatchReload(baseline, answer, stop);
          }
        case TunnelEnds(how) =>
          end := Some(TunnelEnd(how));
        case StopTaken =>
          if stop.Some? {
            end := Some(if stop.value.Revoked? then Unauthorized else ReloadRequested);
          }
        case ContextEnds(deadline) =>
          end := Some(if deadline then Failed else Canceled);
      }
    }
    assert events[..|events|] == events;
  }

  /** One turn of `watchReload`'s loop: whether it goes on, and what stopCh holds then. */
  method WatchReload(baseline: string, answer: Fetch, stop: Option<StopReason>)
    returns (watching: bool, after: Option<StopReason>)
    ensures answer.Refused? ==> !watching
    ensures answer.Got? ==> (watching <==> TextOf(answer.boot) == baseline)
    ensures !answer.Refused? && !answer.Got? ==> watching
    ensures after == if watching then stop else Some(if answer.Refused? then Revoked else Changed)
  {
    match answer
    case Refused => return false, Some(Revoked);
    case FetchCanceled => return true, stop;
    case Unreachable => return true, stop;
    case Got(boot) =>
      var remotes, locals := BootToSpecs(boot);
      var text := ReloadKey.HashSpecs(remotes, locals);
      if text != baseline {
        return false, Some(Changed);
      }
      return true, stop;
  }

  // ---------------- The tunnel runs what the server says ----------------

  ghost predicate Agree(b: Bootstrap, c: Bootstrap) {
    ReloadKey.SameRules(RemoteRules(b), LocalRules(b), RemoteRules(c), LocalRules(c))
  }

  lemma SendableTexts(b: Bootstrap, c: Bootstrap, deviceId: Schema.Id)
    requires Sendable(b, deviceId) && Sendable(c, deviceId)
    ensures TextOf(b) == TextOf(c) <==> Agree(b, c)
  {
    ReloadTextIsFaithful(b, c, deviceId);
  }

  /** What the server sends can always be built into a tunnel client. */
  lemma SendableIsBuildable(b: Bootstrap, deviceId: Schema.Id)
    requires Sendable(b, deviceId)
    ensures Buildable(b)
  {
    BootstrapsRun(deviceId, b);
    forall i | 0 <= i < |b.remotes| ensures ValidRemote(RemoteRules(b)[i]) {
      assert RemoteRules(b)[i] in RemoteRules(b);
    }
    forall i | 0 <= i < |b.locals| ensures ValidLocal(LocalRules(b)[i]) {
      assert LocalRules(b)[i] in LocalRules(b);
    }
  }

  /** A session never changes its rules, and once it has stopped watching it stays so. */
  lemma {:induction false} SessionRules(b: Bootstrap, events: seq<Event>)
    ensures var s := After(b, events);
      s.remotes == RemoteRules(b) && s.locals == LocalRules(b) && (s.watching <==> s.stop.None?)
  {
    if events != [] {
      SessionRules(b, events[..|events| - 1]);
    }
  }

  /** A poll with the same text is passed over. */
  lemma SameTextGoesOn(b: Bootstrap, events: seq<Event>, c: Bootstrap)
    requires After(b, events).watching && After(b, events).end.None?
    requires TextOf(b) == TextOf(c)
    ensures After(b, events + [Poll(Got(c))]) == After(b, events) && After(b, events).remotes == RemoteRules(b)
  {
    SessionRules(b, events);
    assert (events + [Poll(Got(c))])[..|events|] == events;
  }

  /** While watchReload goes on after a successful poll, the tunnel runs exactly the polled rules, up to
  their order and BindLocal; and it stops with a reload request exactly when they differ. */
  lemma WatchIsFaithful(b: Bootstrap, events: seq<Event>, c: Bootstrap, deviceId: Schema.Id)
    requires Sendable(b, deviceId) && Sendable(c, deviceId)
    requires After(b, events).watching && After(b, events).end.None?
    ensures var s := After(b, events + [Poll(Got(c))]);
      && (s.watching <==> Agree(b, c))
      && (s.stop == Some(Changed) <==> !Agree(b, c))
      && s.remotes == RemoteRules(b) && s.locals == LocalRules(b)
  {
    SendableTexts(b, c, deviceId);
    SessionRules(b, events);
    PollDecides(After(b, events), b, c);
    assert (events + [Poll(Got(c))])[..|events|] == events;
  }

  lemma PollDecides(s: Session, b: Bootstrap, c: Bootstrap)
    requires s.watching && s.end.None? && s.stop.None? && s.remotes == RemoteRules(b) && s.locals == LocalRules(b)
    ensures var after := Next(s, Poll(Got(c)));
      && (after.watching <==> TextOf(c) == TextOf(b))
      && (after.stop == Some(Changed) <==> TextOf(c) != TextOf(b))
      && after.remotes == s.remotes && after.locals == s.locals
  {
  }

  /** A session ends as "unauthorized" only after a poll was refused, and as "reload" only after a poll
  brought other rules. */
  lemma {:induction false} WhyItStopped(b: Bootstrap, events: seq<Event>, deviceId: Schema.Id) returns (i: nat)
    requires Sendable(b, deviceId) && After(b, events).stop.Some?
    requires forall k :: 0 <= k < |events| && events[k].Poll? && events[k].answer.Got? ==>
      Sendable(events[k].answer.boot, deviceId)
    ensures i < |events| && events[i].Poll?
    ensures After(b, events).stop == Some(Revoked) ==> events[i].answer.Refused?
    ensures After(b, events).stop == Some(Changed) ==> events[i].answer.Got? && !Agree(b, events[i].answer.boot)
  {
    var n := |events| - 1;
    SessionRules(b, events[..n]);
    if After(b, events[..n]).stop.Some? {
      i := WhyItStopped(b, events[..n], deviceId);
    } else {
      i := n;
      if events[n].answer.Got? {
        SendableTexts(events[n].answer.boot, b, deviceId);
        assert Agree(events[n].answer.boot, b) <==> Agree(b, events[n].answer.boot);
      }
    }
  }

  lemma {:induction false} EndsMatchStops(b: Bootstrap, events: seq<Event>)
    ensures After(b, events).end == Some(Unauthorized) ==> After(b, events).stop == Some(Revoked)
    ensures After(b, events).end == Some(ReloadRequested) ==> After(b, events).stop == Some(Changed)
  {
    if events != [] {
      EndsMatchStops(b, events[..|events| - 1]);
    }
  }

  // ---------------- Backoff ----------------

  function Pow2(k: nat): nat {
    if k == 0 then 1 else 2 * Pow2(k - 1)
  }

  const MAX_BACKOFF := 60

  /** Seconds to wait after the k-th failure in a row. */
  function Wait(k: nat): nat
    requires k >= 1
  {
    if Pow2(k - 1) < MAX_BACKOFF then Pow2(k - 1) else MAX_BACKOFF
  }

  /** 1, 2, 4, 8, 16 and 32 seconds, then always a minute. */
  lemma {:induction false} Waits(k: nat)
    requires k >= 1
    ensures k <= 6 ==> Wait(k) == [1, 2, 4, 8, 16, 32][k - 1]
    ensures k > 6 ==> Wait(k) == 60
  {
    if k > 1 {
      Waits(k - 1);
      WaitDoubles(k - 1);
    }
  }

  lemma WaitDoubles(k: nat)
    requires k >= 1
    ensures Wait(k + 1) == if Wait(k) * 2 > MAX_BACKOFF then MAX_BACKOFF else Wait(k) * 2
  {
  }

  /** One turn of `Run`'s loop, as the world has it. */
  datatype Attempt = Attempt(contextEnded: bool, fetch: Fetch, events: seq<Event>, contextEndsInWait: bool)

  datatype Exit = ContextOver | RunCanceled | RunUnauthorized

  function EndOf(hasIdentity: bool, a: Attempt): Option<End> {
    Outcome(hasIdentity, a.fetch, a.events)
  }

  function ExitOf(hasIdentity: bool, a: Attempt): Option<Exit> {
    if a.contextEnded then Some(ContextOver)
    else
      match EndOf(hasIdentity, a)
      case Some(Canceled) => Some(RunCanceled)
      case Some(Unauthorized) => Some(RunUnauthorized)
      case Some(Failed) => if a.contextEndsInWait then Some(ContextOver) else None
      case _ => None
  }

  /** An event of a session that is received before all others, and what it was. */
  ghost predicate ReceivedFirst(a: Attempt, e: Event)
    requires a.fetch.Got?
  {
    exists i :: 0 <= i < |a.events| && FirstDecision(a.fetch.boot, a.events, i) && a.events[i] == e
  }

  /** The stop reason is received first, and it goes back to a refused poll. */
  ghost predicate RefusedFirst(a: Attempt)
    requires a.fetch.Got?
  {
    exists i, p :: 0 <= p < i < |a.events| && FirstDecision(a.fetch.boot, a.events, i) && a.events[i] == StopTaken
                   && FirstStop(a.fetch.boot, a.events, p) && a.events[p] == Poll(Refused)
  }

  /** A refused fetch ends the daemon; one that finds no server never does, but waits and turns again. */
  lemma FetchDecides(hasIdentity: bool, a: Attempt)
    requires !a.contextEnded
    ensures a.fetch.Refused? ==> ExitOf(hasIdentity, a) == Some(RunUnauthorized)
    ensures a.fetch.FetchCanceled? ==> ExitOf(hasIdentity, a) == Some(RunCanceled)
    ensures a.fetch.Unreachable? || (a.fetch.Got? && !Runs(hasIdentity, a.fetch)) ==>
      && EndOf(hasIdentity, a) == Some(Failed)
      && ExitOf(hasIdentity, a) == if a.contextEndsInWait then Some(ContextOver) else None
  {
  }

  /** Apart from its context, the daemon leaves for two reasons only. It was canceled: during the fetch, or because
  the tunnel's cancellation or that of the context was received first. Or it was refused: by the fetch, or by the
  poll that stopped the watch. */
  lemma WhenItLeaves(hasIdentity: bool, a: Attempt)
    requires !a.contextEnded
    ensures ExitOf(hasIdentity, a) == Some(RunCanceled) <==>
      || a.fetch.FetchCanceled?
      || (Runs(hasIdentity, a.fetch)
          && (ReceivedFirst(a, TunnelEnds(Canceled)) || ReceivedFirst(a, ContextEnds(false))))
    ensures ExitOf(hasIdentity, a) == Some(RunUnauthorized) <==>
      a.fetch.Refused? || (Runs(hasIdentity, a.fetch) && RefusedFirst(a))
  {
    if Runs(hasIdentity, a.fetch) {
      EndReceived(a, After(a.fetch.boot, a.events).end);
    }
  }

  lemma EndReceived(a: Attempt, end: Option<End>)
    requires a.fetch.Got? && end == After(a.fetch.boot, a.events).end
    ensures end == Some(Canceled) <==> ReceivedFirst(a, TunnelEnds(Canceled)) || ReceivedFirst(a, ContextEnds(false))
    ensures end == Some(Unauthorized) <==> RefusedFirst(a)
  {
    SessionEnd(a.fetch.boot, a.events);
    if end.Some? {
      var i := SomeDecision(a.fetch.boot, a.events);
      OneDecision(a, i);
    }
  }

  lemma {:induction false} FirstOfDecisions(b: Bootstrap, events: seq<Event>, i: nat) returns (j: nat)
    requires i < |events| && Decides(b, events, i)
    ensures j <= i && FirstDecision(b, events, j)
  {
    j := i;
    if k :| 0 <= k < i && Decides(b, events, k) {
      j := FirstOfDecisions(b, events, k);
    }
  }

  lemma SomeDecision(b: Bootstrap, events: seq<Event>) returns (i: nat)
    requires exists j :: 0 <= j < |events| && Decides(b, events, j)
    ensures FirstDecision(b, events, i)
  {
    var j :| 0 <= j < |events| && Decides(b, events, j);
    i := FirstOfDecisions(b, events, j);
  }

  lemma OneDecision(a: Attempt, i: nat)
    requires a.fetch.Got? && FirstDecision(a.fetch.boot, a.events, i)
    ensures forall e :: ReceivedFirst(a, e) <==> a.events[i] == e
    ensures RefusedFirst(a) <==> a.events[i] == StopTaken && Ending(a.fetch.boot, a.events, i, Unauthorized)
  {
    var b := a.fetch.boot;
    assert forall j :: FirstDecision(b, a.events, j) ==> j == i;
    if a.events[i].StopTaken? && Ending(b, a.events, i, Unauthorized) {
      var p :| 0 <= p < i && FirstStop(b, a.events, p) && a.events[p] == Poll(Refused);
    }
  }

  /** The loop turns again. */
  predicate GoesOn(hasIdentity: bool, a: Attempt) {
    ExitOf(hasIdentity, a).None? && EndOf(hasIdentity, a).Some?
  }

  /** How many attempts in a row, up to the last one, have failed. */
  function Streak(hasIdentity: bool, attempts: seq<Attempt>): nat {
    if attempts == [] || EndOf(hasIdentity, attempts[|attempts| - 1]) != Some(Failed) then 0
    else 1 + Streak(hasIdentity, attempts[..|attempts| - 1])
  }

  function WaitAfter(hasIdentity: bool, attempts: seq<Attempt>): nat {
    if Streak(hasIdentity, attempts) == 0 then 0 else Wait(Streak(hasIdentity, attempts))
  }

  lemma NextStreak(hasIdentity: bool, attempts: seq<Attempt>, n: nat)
    requires n < |attempts|
    ensures Streak(hasIdentity, attempts[..n + 1])
      == if EndOf(hasIdentity, attempts[n]) == Some(Failed) then Streak(hasIdentity, attempts[..n]) + 1 else 0
  {
    assert attempts[..n + 1][..n] == attempts[..n];
  }

  ghost predicate WaitsRight(hasIdentity: bool, attempts: seq<Attempt>, waits: seq<nat>) {
    |waits| <= |attempts| && forall i :: 0 <= i < |waits| ==> waits[i] == WaitAfter(hasIdentity, attempts[..i + 1])
  }

  lemma OneMoreWait(hasIdentity: bool, attempts: seq<Attempt>, waits: seq<nat>, wait: nat)
    requires WaitsRight(hasIdentity, attempts, waits) && |waits| < |attempts|
    requires wait == WaitAfter(hasIdentity, attempts[..|waits| + 1])
    ensures WaitsRight(hasIdentity, attempts, waits + [wait])
  {
  }

  /** `Run`: it leaves only through `ExitOf`, and waits min(2^(k-1), 60) seconds after the k-th failure in a
  row and not at all after a reload or a clean end. */
  method Run(hasIdentity: bool, attempts: seq<Attempt>) returns (exit: Option<Exit>, turns: nat, waits: seq<nat>)
    ensures turns <= |attempts| && forall i :: 0 <= i < turns ==> GoesOn(hasIdentity, attempts[i])
    ensures if turns == |attempts| then exit.None?
            else !GoesOn(hasIdentity, attempts[turns]) && exit == ExitOf(hasIdentity, attempts[turns])
    ensures |waits| == if turns < |attempts| && !attempts[turns].contextEnded
                          && EndOf(hasIdentity, attempts[turns]) == Some(Failed)
                       then turns + 1 else turns
    ensures WaitsRight(hasIdentity, attempts, waits)
  {
    var backoff := 1;
    waits := [];
    turns := 0;
    while turns < |attempts|
      invariant turns == |waits| <= |attempts| && backoff == Wait(Streak(hasIdentity, attempts[..turns]) + 1)
      invariant forall i :: 0 <= i < turns ==> GoesOn(hasIdentity, attempts[i])
      invariant WaitsRight(hasIdentity, attempts, waits)
    {
      var a := attempts[turns];
      NextStreak(hasIdentity, attempts, turns);
      WaitDoubles(Streak(hasIdentity, attempts[..turns]) + 1);
      if a.contextEnded {
        return Some(ContextOver), turns, waits;
      }
      var end := RunOnce(hasIdentity, a.fetch, a.events);
      if end.None? {
        return None, turns, waits;
      }
      if end.value.Canceled? {
        return Some(RunCanceled), turns, waits;
      }
      if end.value.Unauthorized? {
        return Some(RunUnauthorized), turns, waits;
      }
      if end.value.Failed? {
        OneMoreWait(hasIdentity, attempts, waits, backoff);
        waits := waits + [backoff];
        if a.contextEndsInWait {
          return Some(ContextOver), turns, waits;
        }
        backoff := backoff * 2;
        if backoff > MAX_BACKOFF {
          backoff := MAX_BACKOFF;
        }
      } else {
        OneMoreWait(hasIdentity, attempts, waits, 0);
        backoff := 1;
        waits := waits + [0];
      }
      turns := turns + 1;
    }
    return None, turns, waits;
  }

  /** With an identity and what the server really sends, the daemon gives up for good only when the server
  refused it: at the start of an attempt or in a poll. */
  lemma GivesUpOnlyWhenRefused(a: Attempt, deviceId: Schema.Id)
    requires ExitOf(true, a) == Some(RunUnauthorized)
    requires a.fetch.Got? ==> Sendable(a.fetch.boot, deviceId)
    requires forall k :: 0 <= k < |a.events| && a.events[k].Poll? && a.events[k].answer.Got? ==>
      Sendable(a.events[k].answer.boot, deviceId)
    ensures a.fetch.Refused? || Poll(Refused) in a.events
  {
    if a.fetch.Got? {
      EndsMatchStops(a.fetch.boot, a.events);
      var i := WhyItStopped(a.fetch.boot, a.events, deviceId);
      assert a.events[i] == Poll(Refused);
    }
  }
}
