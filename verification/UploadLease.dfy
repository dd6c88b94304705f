/** The lease all segment requests of one browser upload share, and the one task slot
    behind it (internal/drive/limiter.go, AcquireUploadJob and ReleaseUploadJob). */
module UploadLease {
  import opened Text

  type JobId = string
  type LeaseId = nat
  type Request = nat

  /** gate: gateRelease is set, so the slot is still this lease's to return. got and
      returned record how often a slot came to the lease and went back. */
  datatype Lease = Lease(job: JobId, ready: bool, failed: bool, active: int, closed: bool, gate: bool, got: nat, returned: nat)

  /** jobs is the service's map. leases lists all that were ever made; waiting and requests
      are the HTTP requests that wait for a lease and those that have joined one. */
  datatype Leases = Leases(
    jobs: map<JobId, LeaseId>, leases: seq<Lease>, waiting: map<Request, LeaseId>, requests: map<Request, LeaseId>)

  datatype Event =
    | Arrive(job: JobId, r: Request)
    | Join(r: Request)
    | GiveUp(r: Request)
    | Admitted(l: LeaseId, ok: bool, r: Request)
    | EndRequest(r: Request)
    | ReleaseJob(job: JobId)

  predicate Enabled(s: Leases, e: Event) {
    match e
    case Arrive(_, r) => r !in s.waiting && r !in s.requests
    case Join(r) => r in s.waiting && r !in s.requests && s.waiting[r] < |s.leases| && s.leases[s.waiting[r]].ready
    case GiveUp(r) => r in s.waiting
    case Admitted(l, _, r) => l < |s.leases| && !s.leases[l].ready && r !in s.requests && r !in s.waiting
    case EndRequest(r) => r in s.requests && s.requests[r] < |s.leases|
    case ReleaseJob(_) => true
  }

  /** delete(s.uploadJobs, id), if it is still this lease. */
  function Forget(jobs: map<JobId, LeaseId>, job: JobId, l: LeaseId): map<JobId, LeaseId> {
    if job in jobs && jobs[job] == l then jobs - {job} else jobs
  }

  /** The slot goes back, if the lease still has it. */
  function GiveBack(lease: Lease): Lease {
    if lease.gate then lease.(gate := false, returned := lease.returned + 1) else lease
  }

  function Next(s: Leases, e: Event): Leases
    requires Enabled(s, e)
  {
    match e
    case Arrive(job, r) =>
      if job !in s.jobs then
        s.(jobs := s.jobs[job := |s.leases|], leases := s.leases + [Lease(job, false, false, 0, false, false, 0, 0)])
      else if s.jobs[job] < |s.leases| && s.leases[s.jobs[job]].closed then s
      else s.(waiting := s.waiting[r := s.jobs[job]])
    case Join(r) =>
      var l := s.waiting[r];
      var left := s.(waiting := s.waiting - {r});
      if s.leases[l].failed || s.leases[l].closed then left
      else left.(leases := s.leases[l := s.leases[l].(active := s.leases[l].active + 1)], requests := s.requests[r := l])
    case GiveUp(r) => s.(waiting := s.waiting - {r})
    case Admitted(l, ok, r) =>
      var lease := s.leases[l].(ready := true);
      if ok && !lease.closed then
        s.(leases := s.leases[l := lease.(got := lease.got + 1, gate := true, active := 1)], requests := s.requests[r := l])
      else
        var over := lease.(failed := true, got := lease.got + (if ok then 1 else 0), returned := lease.returned + if ok then 1 else 0);
        s.(leases := s.leases[l := over], jobs := Forget(s.jobs, lease.job, l))
    case EndRequest(r) =>
      var l := s.requests[r];
      var lease := s.leases[l].(active := if s.leases[l].active > 0 then s.leases[l].active - 1 else s.leases[l].active);
      var left := s.(requests := s.requests - {r});
      if lease.closed && lease.active == 0 then
        left.(leases := s.leases[l := GiveBack(lease)], jobs := Forget(s.jobs, lease.job, l))
      else left.(leases := s.leases[l := lease])
    case ReleaseJob(job) =>
      if job !in s.jobs || s.jobs[job] >= |s.leases| then s
      else
        var l := s.jobs[job];
        var lease := s.leases[l].(closed := true);
        if lease.active == 0 && lease.gate then
          s.(leases := s.leases[l := GiveBack(lease)], jobs := s.jobs - {job})
        else s.(leases := s.leases[l := lease])
  }

  // ------------------------------------------------------------ what every state keeps

  function Joined(requests: map<Request, LeaseId>, l: LeaseId): set<Request> {
    set r | r in requests && requests[r] == l
  }

  predicate InMap(s: Leases, l: LeaseId)
    requires l < |s.leases|
  {
    s.leases[l].job in s.jobs && s.jobs[s.leases[l].job] == l
  }

  predicate LeaseOk(s: Leases, l: LeaseId)
    requires l < |s.leases|
  {
    var x := s.leases[l];
    && x.active == |Joined(s.requests, l)|
    && x.got <= 1 && x.returned <= x.got && (x.gate <==> x.got == 1 && x.returned == 0)
    && (!x.ready ==> x.got == 0 && !x.failed && InMap(s, l))
    && (x.failed ==> !x.gate && !InMap(s, l))
    && (x.active > 0 ==> x.gate)
    && (x.gate ==> x.ready && InMap(s, l) && (x.closed ==> x.active > 0))
    && (x.ready && !x.gate ==> (x.closed || x.failed) && !InMap(s, l))
  }

  ghost predicate Kept(s: Leases) {
    && (forall job | job in s.jobs :: s.jobs[job] < |s.leases| && s.leases[s.jobs[job]].job == job)
    && (forall r | r in s.waiting :: s.waiting[r] < |s.leases|)
    && (forall r | r in s.requests :: s.requests[r] < |s.leases| && r !in s.waiting)
    && forall l: nat | l < |s.leases| :: LeaseOk(s, l)
  }

  lemma JoinedMore(requests: map<Request, LeaseId>, r: Request, l: LeaseId, k: LeaseId)
    requires r !in requests
    ensures |Joined(requests[r := l], k)| == |Joined(requests, k)| + if k == l then 1 else 0
  {
    assert Joined(requests[r := l], k) == Joined(requests, k) + if k == l then {r} else {};
  }

  lemma JoinedLess(requests: map<Request, LeaseId>, r: Request, k: LeaseId)
    requires r in requests
    ensures |Joined(requests - {r}, k)| == |Joined(requests, k)| - if k == requests[r] then 1 else 0
  {
    assert Joined(requests - {r}, k) == Joined(requests, k) - {r};
  }

  lemma NoneJoined(s: Leases)
    requires Kept(s)
    ensures Joined(s.requests, |s.leases|) == {}
  {
  }

  lemma ArriveKept(s: Leases, job: JobId, r: Request)
    requires Kept(s) && Enabled(s, Arrive(job, r))
    ensures Kept(Next(s, Arrive(job, r)))
  {
    var t := Next(s, Arrive(job, r));
    if job !in s.jobs {
      NoneJoined(s);
      forall k: nat | k < |s.leases| ensures LeaseOk(t, k) {
        assert LeaseOk(s, k);
      }
      assert LeaseOk(t, |s.leases|);
    } else {
      forall k: nat | k < |s.leases| ensures LeaseOk(t, k) { assert LeaseOk(s, k); }
    }
  }

  lemma JoinKept(s: Leases, r: Request)
    requires Kept(s) && Enabled(s, Join(r))
    ensures Kept(Next(s, Join(r)))
  {
    var t, l := Next(s, Join(r)), s.waiting[r];
    assert LeaseOk(s, l);
    forall k: nat | k < |s.leases| ensures LeaseOk(t, k) {
      assert LeaseOk(s, k);
      JoinedMore(s.requests, r, l, k);
      hide Joined;
    }
    hide LeaseOk;
  }

  lemma AdmittedKept(s: Leases, l: LeaseId, ok: bool, r: Request)
    requires Kept(s) && Enabled(s, Admitted(l, ok, r))
    ensures Kept(Next(s, Admitted(l, ok, r)))
  {
    var t := Next(s, Admitted(l, ok, r));
    assert LeaseOk(s, l);
    forall k: nat | k < |s.leases| ensures LeaseOk(t, k) {
      assert LeaseOk(s, k);
      JoinedMore(s.requests, r, l, k);
      hide Joined;
    }
    hide LeaseOk;
  }

  lemma EndRequestKept(s: Leases, r: Request)
    requires Kept(s) && Enabled(s, EndRequest(r))
    ensures Kept(Next(s, EndRequest(r)))
  {
    var t, l := Next(s, EndRequest(r)), s.requests[r];
    assert LeaseOk(s, l);
    assert s.leases[l].active > 0 by { assert r in Joined(s.requests, l); }
    forall k: nat | k < |s.leases| ensures LeaseOk(t, k) {
      assert LeaseOk(s, k);
      JoinedLess(s.requests, r, k);
      hide Joined;
    }
    hide LeaseOk;
  }

  lemma ReleaseJobKept(s: Leases, job: JobId)
    requires Kept(s)
    ensures Kept(Next(s, ReleaseJob(job)))
  {
    var t := Next(s, ReleaseJob(job));
    if job in s.jobs {
      var l := s.jobs[job];
      assert LeaseOk(s, l);
      forall k: nat | k < |s.leases| ensures LeaseOk(t, k) {
        assert LeaseOk(s, k);
        hide Joined;
      }
    }
    hide LeaseOk;
  }

  lemma StepKept(s: Leases, e: Event)
    requires Kept(s) && Enabled(s, e)
    ensures Kept(Next(s, e))
  {
    match e
    case Arrive(job, r) => ArriveKept(s, job, r);
    case Join(r) => JoinKept(s, r);
    case GiveUp(r) =>
      forall k: nat | k < |s.leases| ensures LeaseOk(Next(s, e), k) { assert LeaseOk(s, k); }
    case Admitted(l, ok, r) => AdmittedKept(s, l, ok, r);
    case EndRequest(r) => EndRequestKept(s, r);
    case ReleaseJob(job) => ReleaseJobKept(s, job);
  }

  // ------------------------------------------------------------ what each section does

  /** A request that gives up no longer waits, and that is all. */
  lemma GiveUpEffect(s: Leases, r: Request)
    requires Enabled(s, GiveUp(r))
    ensures Next(s, GiveUp(r)) == s.(waiting := s.waiting - {r})
  {
  }

  /** Only the request, and at most the lease it is about, have changed. */
  predicate OnlyAbout(s: Leases, t: Leases, r: Request, l: LeaseId) {
    && |t.leases| == |s.leases|
    && (forall k: nat | k < |s.leases| && k != l :: t.leases[k] == s.leases[k])
    && t.requests - {r} == s.requests - {r} && t.waiting - {r} == s.waiting - {r}
  }

  /** The first request of a job makes its lease, the others wait for it, and a job that is
      being closed refuses. */
  lemma ArriveEffect(s: Leases, job: JobId, r: Request)
    requires Kept(s) && Enabled(s, Arrive(job, r))
    ensures var t := Next(s, Arrive(job, r));
            && t.requests == s.requests
            && (job !in s.jobs ==>
                  && t.leases[..|s.leases|] == s.leases && |t.leases| == |s.leases| + 1 && t.jobs == s.jobs[job := |s.leases|]
                  && !t.leases[|s.leases|].ready && !t.leases[|s.leases|].closed && t.waiting == s.waiting)
            && (job in s.jobs ==>
                  && t.leases == s.leases && t.jobs == s.jobs
                  && t.waiting == if s.leases[s.jobs[job]].closed then s.waiting else s.waiting[r := s.jobs[job]])
  {
  }

  /** A request that waited enters exactly when the lease has not failed and is not closed,
      and is counted then. */
  lemma JoinEffect(s: Leases, r: Request)
    requires Kept(s) && Enabled(s, Join(r))
    ensures var t, l := Next(s, Join(r)), s.waiting[r];
            && OnlyAbout(s, t, r, l) && r !in t.waiting && t.jobs == s.jobs
            && (r in t.requests <==> !s.leases[l].failed && !s.leases[l].closed)
            && (r in t.requests ==> t.requests[r] == l)
            && t.leases[l] == s.leases[l].(active := s.leases[l].active + if r in t.requests then 1 else 0)
  {
    hide LeaseOk;
  }

  /** When the creator's acquisition ends the lease is ready. With a slot and still open it
      holds the slot and its creator is in; closed meanwhile, the slot goes straight back;
      without a slot it has failed. In the last two cases the job is forgotten. */
  lemma AdmittedEffect(s: Leases, l: LeaseId, ok: bool, r: Request)
    requires Kept(s) && Enabled(s, Admitted(l, ok, r))
    ensures var t, x := Next(s, Admitted(l, ok, r)), s.leases[l];
            var y := t.leases[l];
            && OnlyAbout(s, t, r, l) && y.ready && y.closed == x.closed
            && (r in t.requests <==> ok && !x.closed) && (r in t.requests ==> t.requests[r] == l && y.active == 1)
            && (ok && !x.closed ==> y.gate && y.got == 1 && y.returned == 0 && !y.failed && t.jobs == s.jobs)
            && (ok && x.closed ==> y.failed && !y.gate && y.got == 1 && y.returned == 1)
            && (!ok ==> y.failed && !y.gate && y.got == 0 && y.returned == 0)
            && (!ok || x.closed ==> t.jobs == s.jobs - {x.job})
  {
    assert LeaseOk(s, l);
    hide Joined;
  }

  /** A request that ends is counted out; the last one of a closed lease takes the slot back
      and the job is forgotten. */
  lemma EndEffect(s: Leases, r: Request)
    requires Kept(s) && Enabled(s, EndRequest(r))
    ensures var t, l := Next(s, EndRequest(r)), s.requests[r];
            var x, y := s.leases[l], t.leases[l];
            && OnlyAbout(s, t, r, l) && r !in t.requests && t.waiting == s.waiting && y.active == x.active - 1
            && (x.closed && x.active == 1 ==> !y.gate && y.returned == 1 && t.jobs == s.jobs - {x.job})
            && (!x.closed || x.active > 1 ==> y.gate && y.returned == 0 && t.jobs == s.jobs)
  {
    var l := s.requests[r];
    assert LeaseOk(s, l);
    assert r in Joined(s.requests, l);
    assert s.leases[l].active > 0;
    hide Joined;
  }

  /** Releasing a job closes its lease; an idle slot goes back at once, one in use with the
      last request. */
  lemma ReleaseEffect(s: Leases, job: JobId)
    requires Kept(s)
    ensures var t := Next(s, ReleaseJob(job));
            && t.requests == s.requests && t.waiting == s.waiting
            && (job !in s.jobs ==> t == s)
            && (job in s.jobs ==>
                  var l := s.jobs[job];
                  var x, y := s.leases[l], t.leases[l];
                  && |t.leases| == |s.leases| && (forall k: nat | k < |s.leases| && k != l :: t.leases[k] == s.leases[k])
                  && y.closed
                  && (x.ready && x.active == 0 ==> !y.gate && y.returned == 1 && t.jobs == s.jobs - {job})
                  && (!x.ready || x.active > 0 ==> y == x.(closed := true) && t.jobs == s.jobs))
  {
    if job in s.jobs { assert LeaseOk(s, s.jobs[job]); }
    hide Joined;
  }

  // ------------------------------------------------------------ runs

  predicate IsRun(s: Leases, events: seq<Event>)
    decreases |events|
  {
    events == [] || (Enabled(s, events[0]) && IsRun(Next(s, events[0]), events[1..]))
  }

  function After(s: Leases, events: seq<Event>): Leases
    requires IsRun(s, events)
    decreases |events|
  {
    if events == [] then s else After(Next(s, events[0]), events[1..])
  }

  const NO_LEASES: Leases := Leases(map[], [], map[], map[])

  lemma {:induction false} RunKept(s: Leases, events: seq<Event>)
    requires Kept(s) && IsRun(s, events)
    ensures Kept(After(s, events))
    decreases |events|
  {
    if events != [] {
      StepKept(s, events[0]);
      hide Kept, Enabled, Next;
      RunKept(Next(s, events[0]), events[1..]);
    }
  }

  /** However requests, cancellations, releases and a pending acquisition interleave: a
      lease's slot goes back at most once, never while a request of that lease is active,
      and is not lost: until it has gone back, the job can still be found and closed. */
  lemma SlotSafe(events: seq<Event>, l: LeaseId)
    requires IsRun(NO_LEASES, events) && l < |After(NO_LEASES, events).leases|
    ensures var s := After(NO_LEASES, events);
            var x := s.leases[l];
            && x.returned <= x.got <= 1
            && x.active == |Joined(s.requests, l)|
            && (x.returned == 1 ==> x.active == 0)
            && (x.got == 1 && x.returned == 0 ==> InMap(s, l))
  {
    assert Kept(NO_LEASES);
    RunKept(NO_LEASES, events);
    hide IsRun, After, Joined;
    assert LeaseOk(After(NO_LEASES, events), l);
  }

  /** Once closed or failed, a lease is never reopened and admits no request. */
  lemma {:induction false} ClosedAdmitsNone(s: Leases, events: seq<Event>, l: LeaseId)
    requires Kept(s) && IsRun(s, events) && l < |s.leases| && (s.leases[l].closed || s.leases[l].failed)
    ensures var t := After(s, events);
            && l < |t.leases| && (t.leases[l].closed || t.leases[l].failed)
            && t.leases[l].active <= s.leases[l].active
            && Joined(t.requests, l) <= Joined(s.requests, l)
    decreases |events|
  {
    if events != [] {
      var t := Next(s, events[0]);
      StepKept(s, events[0]);
      ClosedStep(s, events[0], l);
      hide Kept, Enabled, Next;
      ClosedAdmitsNone(t, events[1..], l);
    }
  }

  lemma ClosedStep(s: Leases, e: Event, l: LeaseId)
    requires Kept(s) && Enabled(s, e) && l < |s.leases| && (s.leases[l].closed || s.leases[l].failed)
    ensures var t := Next(s, e);
            && l < |t.leases| && (t.leases[l].closed || t.leases[l].failed)
            && t.leases[l].active <= s.leases[l].active
            && Joined(t.requests, l) <= Joined(s.requests, l)
  {
    assert LeaseOk(s, l);
    hide LeaseOk, InMap;
  }

  // ------------------------------------------------------------ the service's critical sections

  datatype Arrival = Created(l: LeaseId) | MustWait | TaskClosed

  datatype Entry = Entered | LeaseFailed | EntryClosed

  /** The part of the service that uploadJobsMu guards. Each method is one critical section;
      giveBack tells that the task slot is released once the lock is. */
  class UploadJobs {
    var jobs: map<JobId, LeaseId>
    var leases: seq<Lease>
    var waiting: map<Request, LeaseId>
    var requests: map<Request, LeaseId>

    ghost function Ledger(): Leases
      reads this
    {
      Leases(jobs, leases, waiting, requests)
    }

    constructor ()
      ensures Ledger() == NO_LEASES && Kept(Ledger())
    {
      jobs, leases, waiting, requests := map[], [], map[], map[];
    }

    /** AcquireUploadJob until it has to wait, for the lease or for a slot. */
    method Arrive(job: JobId, r: Request) returns (how: Arrival)
      requires Kept(Ledger()) && Enabled(Ledger(), Event.Arrive(job, r))
      modifies this
      ensures Ledger() == Next(old(Ledger()), Event.Arrive(job, r)) && Kept(Ledger())
      ensures how.Created? <==> job !in old(jobs)
      ensures how.TaskClosed? <==> job in old(jobs) && old(leases)[old(jobs)[job]].closed
      ensures how.Created? ==> jobs[job] == how.l && how.l == |old(leases)|
    {
      StepKept(Ledger(), Event.Arrive(job, r));
      if job in jobs {
        if leases[jobs[job]].closed {
          return TaskClosed;
        }
        waiting := waiting[r := jobs[job]];
        return MustWait;
      }
      how := Created(|leases|);
      jobs := jobs[job := |leases|];
      leases := leases + [Lease(job, false, false, 0, false, false, 0, 0)];
    }

    /** A request that waited for the lease goes on. */
    method Join(r: Request) returns (how: Entry)
      requires Kept(Ledger()) && Enabled(Ledger(), Event.Join(r))
      modifies this
      ensures Ledger() == Next(old(Ledger()), Event.Join(r)) && Kept(Ledger())
      ensures how.Entered? <==> r in requests
      ensures how.Entered? ==> !old(leases)[old(waiting)[r]].closed && leases[old(waiting)[r]].gate
    {
      StepKept(Ledger(), Event.Join(r));
      var l := waiting[r];
      assert LeaseOk(Ledger(), l);
      waiting := waiting - {r};
      if leases[l].failed {
        return LeaseFailed;
      }
      if leases[l].closed {
        return EntryClosed;
      }
      leases := leases[l := leases[l].(active := leases[l].active + 1)];
      requests := requests[r := l];
      how := Entered;
    }

    /** The creator's acquisition has ended, well or not. */
    method Admitted(l: LeaseId, ok: bool, r: Request) returns (entered: bool, giveBack: bool)
      requires Kept(Ledger()) && Enabled(Ledger(), Event.Admitted(l, ok, r))
      modifies this
      ensures Ledger() == Next(old(Ledger()), Event.Admitted(l, ok, r)) && Kept(Ledger())
      ensures entered <==> ok && !old(leases)[l].closed
      ensures giveBack <==> leases[l].returned > old(leases)[l].returned
    {
      StepKept(Ledger(), Event.Admitted(l, ok, r));
      var lease := leases[l].(ready := true);
      giveBack := ok && lease.closed;
      entered := ok && !lease.closed;
      if entered {
        leases := leases[l := lease.(got := lease.got + 1, gate := true, active := 1)];
        requests := requests[r := l];
      } else {
        var had := if ok then 1 else 0;
        leases := leases[l := lease.(failed := true, got := lease.got + had, returned := lease.returned + had)];
        if lease.job in jobs && jobs[lease.job] == l {
          jobs := jobs - {lease.job};
        }
      }
    }

    /** A request ends; calling its release again does nothing. */
    method EndRequest(r: Request) returns (giveBack: bool)
      requires Kept(Ledger())
      modifies this
      ensures Kept(Ledger())
      ensures r !in old(requests) ==> Ledger() == old(Ledger()) && !giveBack
      ensures r in old(requests) ==>
                && Enabled(old(Ledger()), Event.EndRequest(r)) && Ledger() == Next(old(Ledger()), Event.EndRequest(r))
                && (giveBack <==> leases[old(requests)[r]].returned > old(leases)[old(requests)[r]].returned)
    {
      giveBack := false;
      if r !in requests {
        return;
      }
      StepKept(Ledger(), Event.EndRequest(r));
      ghost var after := Next(Ledger(), Event.EndRequest(r));
      var l := requests[r];
      var lease := leases[l];
      requests := requests - {r};
      if lease.active > 0 {
        lease := lease.(active := lease.active - 1);
      }
      if lease.closed && lease.active == 0 {
        if lease.job in jobs && jobs[lease.job] == l {
          jobs := jobs - {lease.job};
        }
        if lease.gate {
          giveBack := true;
          lease := lease.(gate := false, returned := lease.returned + 1);
        }
      }
      leases := leases[l := lease];
      assert Ledger() == after;
      hide Kept, Next;
    }

    /** ReleaseUploadJob, for a job that may never have been admitted or is already gone. */
    method ReleaseJob(job: JobId) returns (giveBack: bool)
      requires Kept(Ledger())
      modifies this
      ensures Ledger() == Next(old(Ledger()), Event.ReleaseJob(job)) && Kept(Ledger())
      ensures job in old(jobs) ==> leases[old(jobs)[job]].closed
      ensures giveBack <==> job in old(jobs) && leases[old(jobs)[job]].returned > old(leases)[old(jobs)[job]].returned
    {
      StepKept(Ledger(), Event.ReleaseJob(job));
      giveBack := false;
      if job !in jobs {
        return;
      }
      var l := jobs[job];
      var lease := leases[l].(closed := true);
      if lease.active == 0 && lease.gate {
        jobs := jobs - {job};
        giveBack := true;
        lease := lease.(gate := false, returned := lease.returned + 1);
      }
      leases := leases[l := lease];
    }
  }
}
