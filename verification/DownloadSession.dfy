/** The session all range requests of one logical download share: one task slot, a limit on
    parallel requests, and a grace timer that may fire too late
    (internal/drive/limiter.go, AcquireDownloadSession). */
module DownloadSession {
  import opened Text

  type SessionId = nat
  type Request = nat
  type Timer = nat

  /** gate: gateRelease is set. idle: the timer the session believes is armed. got and
      returned record how often a slot came and went back. */
  datatype Session = Session(
    key: string, ready: bool, failed: bool, active: int, gate: bool, idle: Option<Timer>, got: nat, returned: nat)

  /** timers holds every timer function that may still run: Stop is too late for one that
      has fired and waits for the lock. */
  datatype Sessions = Sessions(
    current: map<string, SessionId>, all: seq<Session>, waiting: map<Request, SessionId>, requests: map<Request, SessionId>,
    timers: map<Timer, SessionId>, maxConns: int)

  datatype Event =
    | Arrive(key: string, r: Request, late: bool)
    | Join(r: Request)
    | GiveUp(r: Request)
    | Admitted(id: SessionId, ok: bool, r: Request)
    | EndRequest(r: Request, grace: bool, t: Timer)
    | Fire(t: Timer)

  predicate Enabled(s: Sessions, e: Event) {
    match e
    case Arrive(_, r, _) => r !in s.waiting && r !in s.requests
    case Join(r) => r in s.waiting && r !in s.requests && s.waiting[r] < |s.all| && s.all[s.waiting[r]].ready
    case GiveUp(r) => r in s.waiting
    case Admitted(id, _, r) => id < |s.all| && !s.all[id].ready && r !in s.requests && r !in s.waiting
    case EndRequest(r, _, t) => r in s.requests && s.requests[r] < |s.all| && t !in s.timers
    case Fire(t) => t in s.timers && s.timers[t] < |s.all|
  }

  function Forget(current: map<string, SessionId>, key: string, id: SessionId): map<string, SessionId> {
    if key in current && current[key] == id then current - {key} else current
  }

  /** finishDownloadSessionLocked. */
  function Finished(s: Sessions, id: SessionId): Sessions
    requires id < |s.all|
  {
    var x := s.all[id];
    s.(current := Forget(s.current, x.key, id),
       all := s.all[id := x.(idle := None, gate := false, returned := x.returned + if x.gate then 1 else 0)])
  }

  function Next(s: Sessions, e: Event): Sessions
    requires Enabled(s, e)
  {
    match e
    case Arrive(key, r, late) =>
      if key in s.current && s.current[key] < |s.all| then
        var id := s.current[key];
        var x := s.all[id];
        s.(waiting := s.waiting[r := id],
           all := s.all[id := x.(idle := None)],
           timers := if x.idle.Some? && !late then s.timers - {x.idle.value} else s.timers)
      else
        s.(current := s.current[key := |s.all|], all := s.all + [Session(key, false, false, 0, false, None, 0, 0)])
    case Join(r) =>
      var id := s.waiting[r];
      var x := s.all[id];
      var left := s.(waiting := s.waiting - {r});
      if x.failed || !(x.key in s.current && s.current[x.key] == id) || x.active >= s.maxConns then left
      else left.(all := s.all[id := x.(active := x.active + 1)], requests := s.requests[r := id])
    case GiveUp(r) => s.(waiting := s.waiting - {r})
    case Admitted(id, ok, r) =>
      var x := s.all[id].(ready := true);
      if ok then s.(all := s.all[id := x.(got := x.got + 1, gate := true, active := 1)], requests := s.requests[r := id])
      else s.(all := s.all[id := x.(failed := true)], current := Forget(s.current, x.key, id))
    case EndRequest(r, grace, t) =>
      var id := s.requests[r];
      var x := s.all[id].(active := if s.all[id].active > 0 then s.all[id].active - 1 else s.all[id].active);
      var left := s.(requests := s.requests - {r}, all := s.all[id := x]);
      if x.active > 0 || x.idle.Some? then left
      else if !grace then Finished(left, id)
      else left.(all := s.all[id := x.(idle := Some(t))], timers := s.timers[t := id])
    case Fire(t) =>
      var id := s.timers[t];
      var fired := s.(timers := s.timers - {t});
      if s.all[id].active > 0 then fired.(all := s.all[id := s.all[id].(idle := None)])
      else Finished(fired, id)
  }

  // ------------------------------------------------------------ what every state keeps

  function Joined(requests: map<Request, SessionId>, id: SessionId): set<Request> {
    set r | r in requests && requests[r] == id
  }

  predicate IsCurrent(s: Sessions, id: SessionId)
    requires id < |s.all|
  {
    s.all[id].key in s.current && s.current[s.all[id].key] == id
  }

  predicate SessionOk(s: Sessions, id: SessionId)
    requires id < |s.all|
  {
    var x := s.all[id];
    && x.active == |Joined(s.requests, id)| && x.active <= s.maxConns
    && x.got <= 1 && x.returned <= x.got && (x.gate <==> x.got == 1 && x.returned == 0)
    && (!x.ready ==> x.got == 0 && !x.failed && x.active == 0 && IsCurrent(s, id))
    && (x.failed ==> x.ready && x.got == 0)
    && (x.active > 0 ==> x.gate)
    && (x.ready ==> (x.gate <==> IsCurrent(s, id)))
  }

  ghost predicate Kept(s: Sessions) {
    && s.maxConns >= 1
    && (forall key | key in s.current :: s.current[key] < |s.all| && s.all[s.current[key]].key == key)
    && (forall r | r in s.waiting :: s.waiting[r] < |s.all|)
    && (forall r | r in s.requests :: s.requests[r] < |s.all| && r !in s.waiting)
    && (forall t | t in s.timers :: s.timers[t] < |s.all| && s.all[s.timers[t]].ready)
    && forall id: nat | id < |s.all| :: SessionOk(s, id)
  }

  lemma JoinedMore(requests: map<Request, SessionId>, r: Request, id: SessionId, k: SessionId)
    requires r !in requests
    ensures |Joined(requests[r := id], k)| == |Joined(requests, k)| + if k == id then 1 else 0
  {
    assert Joined(requests[r := id], k) == Joined(requests, k) + if k == id then {r} else {};
  }

  lemma JoinedLess(requests: map<Request, SessionId>, r: Request, k: SessionId)
    requires r in requests
    ensures |Joined(requests - {r}, k)| == |Joined(requests, k)| - if k == requests[r] then 1 else 0
  {
    assert Joined(requests - {r}, k) == Joined(requests, k) - {r};
  }

  lemma ArriveKept(s: Sessions, key: string, r: Request, late: bool)
    requires Kept(s) && Enabled(s, Arrive(key, r, late))
    ensures Kept(Next(s, Arrive(key, r, late)))
  {
    var t := Next(s, Arrive(key, r, late));
    forall k: nat | k < |t.all| ensures SessionOk(t, k) {
      ArriveOk(s, key, r, late, k);
    }
    hide SessionOk;
  }

  lemma ArriveOk(s: Sessions, key: string, r: Request, late: bool, k: nat)
    requires Kept(s) && Enabled(s, Arrive(key, r, late)) && k < |Next(s, Arrive(key, r, late)).all|
    ensures SessionOk(Next(s, Arrive(key, r, late)), k)
  {
    if k < |s.all| { assert SessionOk(s, k); } else { assert Joined(s.requests, k) == {}; }
    hide Joined;
  }

  lemma JoinKept(s: Sessions, r: Request)
    requires Kept(s) && Enabled(s, Join(r))
    ensures Kept(Next(s, Join(r)))
  {
    var t, id := Next(s, Join(r)), s.waiting[r];
    assert SessionOk(s, id);
    forall k: nat | k < |s.all| ensures SessionOk(t, k) {
      assert SessionOk(s, k);
      JoinedMore(s.requests, r, id, k);
      hide Joined;
    }
    hide SessionOk;
  }

  lemma AdmittedKept(s: Sessions, id: SessionId, ok: bool, r: Request)
    requires Kept(s) && Enabled(s, Admitted(id, ok, r))
    ensures Kept(Next(s, Admitted(id, ok, r)))
  {
    var t := Next(s, Admitted(id, ok, r));
    assert SessionOk(s, id);
    forall k: nat | k < |s.all| ensures SessionOk(t, k) {
      assert SessionOk(s, k);
      JoinedMore(s.requests, r, id, k);
      hide Joined;
    }
    hide SessionOk;
  }

  /** Ending a session in which no request is active. */
  lemma FinishedKept(s: Sessions, id: SessionId)
    requires Kept(s) && id < |s.all| && s.all[id].active == 0 && s.all[id].ready
    ensures Kept(Finished(s, id))
  {
    var t := Finished(s, id);
    assert SessionOk(s, id);
    forall k: nat | k < |s.all| ensures SessionOk(t, k) {
      assert SessionOk(s, k);
      hide Joined;
    }
    hide SessionOk;
  }

  lemma RequestGone(s: Sessions, r: Request)
    requires Kept(s) && r in s.requests
    ensures var id := s.requests[r];
            && s.all[id].active > 0 && s.all[id].ready
            && Kept(s.(requests := s.requests - {r}, all := s.all[id := s.all[id].(active := s.all[id].active - 1)]))
  {
    var id := s.requests[r];
    var t := s.(requests := s.requests - {r}, all := s.all[id := s.all[id].(active := s.all[id].active - 1)]);
    assert SessionOk(s, id);
    assert r in Joined(s.requests, id);
    forall k: nat | k < |s.all| ensures SessionOk(t, k) {
      assert SessionOk(s, k);
      JoinedLess(s.requests, r, k);
      hide Joined;
    }
    hide SessionOk;
  }

  lemma TimerKept(s: Sessions, id: SessionId, idle: Option<Timer>, timers: map<Timer, SessionId>)
    requires Kept(s) && id < |s.all| && forall t | t in timers :: timers[t] < |s.all| && s.all[timers[t]].ready
    ensures Kept(s.(all := s.all[id := s.all[id].(idle := idle)], timers := timers))
  {
    var t := s.(all := s.all[id := s.all[id].(idle := idle)], timers := timers);
    forall k: nat | k < |s.all| ensures SessionOk(t, k) {
      assert SessionOk(s, k);
      hide Joined;
    }
    hide SessionOk;
  }

  /** The four ways a request can end, spelled out on the state. */
  lemma EndRequestCases(s: Sessions, r: Request, grace: bool, t: Timer)
    requires Enabled(s, EndRequest(r, grace, t))
    ensures var id, after := s.requests[r], Next(s, EndRequest(r, grace, t));
            var x := s.all[id].(active := if s.all[id].active > 0 then s.all[id].active - 1 else s.all[id].active);
            && after.requests == s.requests - {r} && after.waiting == s.waiting && after.maxConns == s.maxConns
            && (x.active > 0 || x.idle.Some? ==> after.all == s.all[id := x] && after.current == s.current && after.timers == s.timers)
            && (x.active <= 0 && x.idle.None? && grace ==>
                  after.all == s.all[id := x.(idle := Some(t))] && after.current == s.current && after.timers == s.timers[t := id])
            && (x.active <= 0 && x.idle.None? && !grace ==>
                  after == Finished(s.(requests := s.requests - {r}, all := s.all[id := x]), id))
            && id < |after.all|
            && after.all[id].returned == x.returned + if x.active <= 0 && x.idle.None? && !grace && x.gate then 1 else 0
  {
  }

  lemma EndRequestKept(s: Sessions, r: Request, grace: bool, t: Timer)
    requires Kept(s) && Enabled(s, EndRequest(r, grace, t))
    ensures Kept(Next(s, EndRequest(r, grace, t)))
  {
    var id := s.requests[r];
    RequestGone(s, r);
    var left := s.(requests := s.requests - {r}, all := s.all[id := s.all[id].(active := s.all[id].active - 1)]);
    hide Kept, SessionOk;
    if left.all[id].active <= 0 && left.all[id].idle.None? {
      ActiveNatural(left, id);
      if grace {
        KeptTimers(left);
        TimerKept(left, id, Some(t), left.timers[t := id]);
        assert Next(s, EndRequest(r, grace, t)) == left.(all := left.all[id := left.all[id].(idle := Some(t))], timers := left.timers[t := id]);
      } else {
        FinishedKept(left, id);
      }
    }
  }

  lemma ActiveNatural(s: Sessions, id: SessionId)
    requires Kept(s) && id < |s.all|
    ensures s.all[id].active >= 0
  {
    assert SessionOk(s, id);
  }

  lemma KeptTimers(s: Sessions)
    requires Kept(s)
    ensures forall t | t in s.timers :: s.timers[t] < |s.all| && s.all[s.timers[t]].ready
  {
  }

  lemma TimersLess(s: Sessions, t: Timer)
    requires Kept(s)
    ensures Kept(s.(timers := s.timers - {t}))
  {
    forall k: nat | k < |s.all| ensures SessionOk(s.(timers := s.timers - {t}), k) { assert SessionOk(s, k); }
    hide SessionOk;
  }

  /** A timer function runs, in time or too late. */
  lemma FireKept(s: Sessions, t: Timer)
    requires Kept(s) && Enabled(s, Fire(t))
    ensures Kept(Next(s, Fire(t)))
  {
    var id := s.timers[t];
    ActiveNatural(s, id);
    KeptTimers(s);
    TimersLess(s, t);
    hide Kept, SessionOk;
    if s.all[id].active > 0 {
      TimerKept(s, id, None, s.timers - {t});
    } else {
      FinishedKept(s.(timers := s.timers - {t}), id);
    }
  }

  lemma StepKept(s: Sessions, e: Event)
    requires Kept(s) && Enabled(s, e)
    ensures Kept(Next(s, e))
  {
    match e
    case Arrive(key, r, late) => ArriveKept(s, key, r, late);
    case Join(r) => JoinKept(s, r);
    case GiveUp(r) =>
      forall k: nat | k < |s.all| ensures SessionOk(Next(s, e), k) { assert SessionOk(s, k); }
    case Admitted(id, ok, r) => AdmittedKept(s, id, ok, r);
    case EndRequest(r, grace, t) => EndRequestKept(s, r, grace, t);
    case Fire(t) => FireKept(s, t);
  }

  // ------------------------------------------------------------ what each section does

  /** A request that gives up no longer waits, and that is all. */
  lemma GiveUpEffect(s: Sessions, r: Request)
    requires Enabled(s, GiveUp(r))
    ensures Next(s, GiveUp(r)) == s.(waiting := s.waiting - {r})
  {
  }

  /** Only the request, and at most the session it is about, have changed. */
  predicate OnlyAbout(s: Sessions, t: Sessions, r: Request, id: SessionId) {
    && |t.all| == |s.all| && t.maxConns == s.maxConns
    && (forall k: nat | k < |s.all| && k != id :: t.all[k] == s.all[k])
    && t.requests - {r} == s.requests - {r} && t.waiting - {r} == s.waiting - {r}
  }

  /** The first request for a key makes its session; another one waits for that, and stops
      its grace timer unless that is late. */
  lemma ArriveEffect(s: Sessions, key: string, r: Request, late: bool)
    requires Kept(s) && Enabled(s, Arrive(key, r, late))
    ensures var t := Next(s, Arrive(key, r, late));
            && t.requests == s.requests
            && (key !in s.current ==>
                  && |t.all| == |s.all| + 1 && t.all[..|s.all|] == s.all && t.current == s.current[key := |s.all|]
                  && !t.all[|s.all|].ready && t.waiting == s.waiting && t.timers == s.timers)
            && (key in s.current ==>
                  var id := s.current[key];
                  && |t.all| == |s.all| && t.current == s.current && t.waiting == s.waiting[r := id] && t.all[id].idle.None?
                  && t.all == s.all[id := s.all[id].(idle := None)]
                  && t.timers == if s.all[id].idle.Some? && !late then s.timers - {s.all[id].idle.value} else s.timers)
  {
    hide SessionOk;
  }

  /** A request that waited enters exactly when the session has not failed, is still the
      key's, and has a connection free; it is counted then. */
  lemma JoinEffect(s: Sessions, r: Request)
    requires Kept(s) && Enabled(s, Join(r))
    ensures var t, id := Next(s, Join(r)), s.waiting[r];
            var x := s.all[id];
            && OnlyAbout(s, t, r, id) && r !in t.waiting && t.current == s.current && t.timers == s.timers
            && (r in t.requests <==> !x.failed && IsCurrent(s, id) && x.active < s.maxConns)
            && (r in t.requests ==> t.requests[r] == id)
            && t.all[id] == x.(active := x.active + if r in t.requests then 1 else 0)
  {
    hide SessionOk;
  }

  /** When the creator's acquisition ends the session is ready: with a slot its creator is in,
      without one it has failed and the key is free again. */
  lemma AdmittedEffect(s: Sessions, id: SessionId, ok: bool, r: Request)
    requires Kept(s) && Enabled(s, Admitted(id, ok, r))
    ensures var t, y := Next(s, Admitted(id, ok, r)), Next(s, Admitted(id, ok, r)).all[id];
            && OnlyAbout(s, t, r, id) && y.ready && (r in t.requests <==> ok) && t.timers == s.timers
            && (ok ==> t.requests[r] == id && y.active == 1 && y.gate && y.got == 1 && y.returned == 0 && t.current == s.current)
            && (!ok ==> y.failed && !y.gate && y.got == 0 && t.current == s.current - {y.key})
  {
    assert SessionOk(s, id);
    hide Joined;
  }

  /** A request that ends is counted out. The last one arms the timer where there is a grace
      period, and gives the slot back and frees the key where there is none. */
  lemma EndEffect(s: Sessions, r: Request, grace: bool, timer: Timer)
    requires Kept(s) && Enabled(s, EndRequest(r, grace, timer))
    ensures var t, id := Next(s, EndRequest(r, grace, timer)), s.requests[r];
            var x, y := s.all[id], t.all[id];
            && OnlyAbout(s, t, r, id) && r !in t.requests && t.waiting == s.waiting && y.active == x.active - 1
            && (x.active > 1 ==> y.gate && y.returned == 0 && t.current == s.current && t.timers == s.timers && y.idle == x.idle)
            && (x.active == 1 && x.idle.None? && grace ==>
                  y.gate && y.idle == Some(timer) && t.timers == s.timers[timer := id] && t.current == s.current)
            && (x.active == 1 && x.idle.None? && !grace ==>
                  !y.gate && y.returned == 1 && t.current == s.current - {x.key} && t.timers == s.timers)
  {
    var id := s.requests[r];
    assert SessionOk(s, id);
    assert r in Joined(s.requests, id);
    assert s.all[id].active > 0;
    hide Joined;
  }

  /** A timer that finds a request at work does nothing but disarm; otherwise it gives the
      slot back, if it is still there, and frees the key, if it is still this session's. */
  lemma FireEffect(s: Sessions, timer: Timer)
    requires Kept(s) && Enabled(s, Fire(timer))
    ensures var t, id := Next(s, Fire(timer)), s.timers[timer];
            var x, y := s.all[id], t.all[id];
            && t.requests == s.requests && t.waiting == s.waiting && t.timers == s.timers - {timer}
            && (forall k: nat | k < |s.all| && k != id :: t.all[k] == s.all[k]) && |t.all| == |s.all| && y.idle.None?
            && (x.active > 0 ==> y == x.(idle := None) && t.current == s.current)
            && (x.active == 0 ==> !y.gate && y.returned == x.got && (x.gate ==> t.current == s.current - {x.key}))
            && (!x.gate ==> t.current == s.current)
  {
    assert SessionOk(s, s.timers[timer]);
    hide Joined;
  }

  predicate IsRun(s: Sessions, events: seq<Event>)
    decreases |events|
  {
    events == [] || (Enabled(s, events[0]) && IsRun(Next(s, events[0]), events[1..]))
  }

  function After(s: Sessions, events: seq<Event>): Sessions
    requires IsRun(s, events)
    decreases |events|
  {
    if events == [] then s else After(Next(s, events[0]), events[1..])
  }

  function NoSessions(maxConns: int): Sessions {
    Sessions(map[], [], map[], map[], map[], maxConns)
  }

  lemma {:induction false} RunKept(s: Sessions, events: seq<Event>)
    requires Kept(s) && IsRun(s, events)
    ensures Kept(After(s, events)) && After(s, events).maxConns == s.maxConns
    decreases |events|
  {
    if events != [] {
      StepKept(s, events[0]);
      assert Next(s, events[0]).maxConns == s.maxConns;
      hide Kept, Enabled, Next;
      RunKept(Next(s, events[0]), events[1..]);
    }
  }

  /** However requests, cancellations and timers interleave, stopped too late or not: a
      session with requests in flight holds its slot and is the one in the map, its
      requests never exceed the limit, and its slot goes back at most once and never under
      a request. */
  lemma SlotSafe(maxConns: int, events: seq<Event>, id: SessionId)
    requires maxConns >= 1 && IsRun(NoSessions(maxConns), events) && id < |After(NoSessions(maxConns), events).all|
    ensures var s := After(NoSessions(maxConns), events);
            var x := s.all[id];
            && x.active == |Joined(s.requests, id)| <= maxConns
            && x.returned <= x.got <= 1
            && (x.active > 0 ==> x.got == 1 && x.returned == 0 && IsCurrent(s, id))
            && (x.got == 1 && x.returned == 0 ==> IsCurrent(s, id))
  {
    assert Kept(NoSessions(maxConns));
    RunKept(NoSessions(maxConns), events);
    hide IsRun, After, Joined;
    assert SessionOk(After(NoSessions(maxConns), events), id);
  }

  /** A timer that fires after its session ended returns no slot again, and leaves a newer
      session with the same key alone. */
  lemma StaleTimerHarmless(s: Sessions, t: Timer)
    requires Kept(s) && Enabled(s, Fire(t)) && s.all[s.timers[t]].returned == 1
    ensures var n := Next(s, Fire(t));
            && n.current == s.current && n.requests == s.requests
            && forall k: nat | k < |s.all| ::
                 n.all[k].returned == s.all[k].returned && n.all[k].gate == s.all[k].gate && n.all[k].active == s.all[k].active
  {
    assert SessionOk(s, s.timers[t]);
    hide SessionOk, Joined;
  }

  // ------------------------------------------------------------ the service's critical sections

  datatype Entry = Entered | Restart | SessionFailed | TooMany

  /** The part of the service that downloadSessionsMu guards. Each method is one critical
      section; giveBack tells that it called the slot's release. */
  class DownloadSessions {
    var current: map<string, SessionId>
    var all: seq<Session>
    var waiting: map<Request, SessionId>
    var requests: map<Request, SessionId>
    var timers: map<Timer, SessionId>
    const maxConns: int

    ghost function Ledger(): Sessions
      reads this
    {
      Sessions(current, all, waiting, requests, timers, maxConns)
    }

    constructor (maxConns: int)
      requires maxConns >= 1
      ensures Ledger() == NoSessions(maxConns) && Kept(Ledger())
    {
      this.maxConns := maxConns;
      current, all, waiting, requests, timers := map[], [], map[], map[], map[];
    }

    /** AcquireDownloadSession until it has to wait; late: Stop missed the idle timer. */
    method Arrive(key: string, r: Request, late: bool) returns (created: Option<SessionId>)
      requires Kept(Ledger()) && Enabled(Ledger(), Event.Arrive(key, r, late))
      modifies this
      ensures Ledger() == Next(old(Ledger()), Event.Arrive(key, r, late)) && Kept(Ledger())
      ensures created == if key in old(current) then None else Some(|old(all)|)
      ensures key in old(current) ==> all[old(current)[key]].idle.None?
    {
      StepKept(Ledger(), Event.Arrive(key, r, late));
      if key in current {
        var id := current[key];
        if all[id].idle.Some? && !late {
          timers := timers - {all[id].idle.value};
        }
        all := all[id := all[id].(idle := None)];
        waiting := waiting[r := id];
        return None;
      }
      created := Some(|all|);
      current := current[key := |all|];
      all := all + [Session(key, false, false, 0, false, None, 0, 0)];
    }

    /** A request that waited for the session goes on. */
    method Join(r: Request) returns (how: Entry)
      requires Kept(Ledger()) && Enabled(Ledger(), Event.Join(r))
      modifies this
      ensures Ledger() == Next(old(Ledger()), Event.Join(r)) && Kept(Ledger())
      ensures how.Entered? <==> r in requests
      ensures how.Entered? ==> all[old(waiting)[r]].gate && all[old(waiting)[r]].active <= maxConns
      ensures how.TooMany? ==> old(all)[old(waiting)[r]].active == maxConns
    {
      StepKept(Ledger(), Event.Join(r));
      var id := waiting[r];
      var x := all[id];
      assert SessionOk(Ledger(), id);
      waiting := waiting - {r};
      if x.failed {
        return SessionFailed;
      }
      if x.key !in current || current[x.key] != id {
        return Restart;
      }
      if x.active >= maxConns {
        return TooMany;
      }
      all := all[id := x.(active := x.active + 1)];
      requests := requests[r := id];
      how := Entered;
    }

    /** The creator's acquisition has ended, well or not. */
    method Admitted(id: SessionId, ok: bool, r: Request)
      requires Kept(Ledger()) && Enabled(Ledger(), Event.Admitted(id, ok, r))
      modifies this
      ensures Ledger() == Next(old(Ledger()), Event.Admitted(id, ok, r)) && Kept(Ledger())
      ensures ok <==> r in requests
    {
      StepKept(Ledger(), Event.Admitted(id, ok, r));
      var x := all[id].(ready := true);
      if ok {
        all := all[id := x.(got := x.got + 1, gate := true, active := 1)];
        requests := requests[r := id];
      } else {
        if x.key in current && current[x.key] == id {
          current := current - {x.key};
        }
        all := all[id := x.(failed := true)];
      }
    }

    /** A request ends; the last one arms the grace timer, or ends the session at once. */
    method EndRequest(r: Request, grace: bool, t: Timer) returns (giveBack: bool)
      requires Kept(Ledger()) && Enabled(Ledger(), Event.EndRequest(r, grace, t))
      modifies this
      ensures Ledger() == Next(old(Ledger()), Event.EndRequest(r, grace, t)) && Kept(Ledger())
      ensures giveBack <==> all[old(requests)[r]].returned > old(all)[old(requests)[r]].returned
    {
      StepKept(Ledger(), Event.EndRequest(r, grace, t));
      ghost var after := Next(Ledger(), Event.EndRequest(r, grace, t));
      EndRequestCases(Ledger(), r, grace, t);
      hide Next, Kept, SessionOk, Joined, Finished;
      giveBack := false;
      var id := requests[r];
      var x := all[id];
      requests := requests - {r};
      if x.active > 0 {
        x := x.(active := x.active - 1);
      }
      if x.active > 0 || x.idle.Some? {
        all := all[id := x];
      } else if grace {
        all := all[id := x.(idle := Some(t))];
        timers := timers[t := id];
      } else {
        giveBack := x.gate;
        Finish(id, x);
      }
      assert Ledger() == after;
    }

    /** The timer function. */
    method Fire(t: Timer) returns (giveBack: bool)
      requires Kept(Ledger()) && Enabled(Ledger(), Event.Fire(t))
      modifies this
      ensures Ledger() == Next(old(Ledger()), Event.Fire(t)) && Kept(Ledger())
      ensures giveBack <==> all[old(timers)[t]].returned > old(all)[old(timers)[t]].returned
      ensures giveBack ==> old(all)[old(timers)[t]].active == 0
    {
      StepKept(Ledger(), Event.Fire(t));
      ghost var after := Next(Ledger(), Event.Fire(t));
      var id := timers[t];
      var x := all[id];
      ActiveNatural(Ledger(), id);
      timers := timers - {t};
      if x.active > 0 {
        giveBack := false;
        all := all[id := x.(idle := None)];
      } else {
        giveBack := x.gate;
        Finish(id, x);
      }
      assert Ledger() == after;
      hide Kept, Next;
    }

    method Finish(id: SessionId, x: Session)
      requires id < |all|
      modifies this`current, this`all
      ensures Ledger() == Finished(old(Ledger()).(all := old(all)[id := x]), id)
    {
      if x.key in current && current[x.key] == id {
        current := current - {x.key};
      }
      all := all[id := x.(idle := None, gate := false, returned := x.returned + if x.gate then 1 else 0)];
    }
  }
}
