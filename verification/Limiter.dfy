/** The task limiter: a resizable semaphore with a first-come, first-served queue
    (internal/drive/limiter.go, taskLimiter). */
module Limiter {

  type Ticket = nat

  /** limit, active and queue are the limiter's own fields. The rest is history: the
      tickets in order of arrival, in order of being granted, those that left the queue
      ungranted, and those whose slot has not come back. */
  datatype Slots = Slots(
    limit: int, active: int, queue: seq<Ticket>,
    arrived: seq<Ticket>, granted: seq<Ticket>, gone: set<Ticket>, held: set<Ticket>)

  datatype Event = Arrive(t: Ticket) | Cancel(t: Ticket) | Release(t: Ticket) | SetLimit(n: int)

  function Fresh(limit: int): Slots {
    Slots(if limit < 1 then 1 else limit, 0, [], [], [], {}, {})
  }

  /** Hand the next slot to the head of the queue. */
  function Granted(s: Slots): Slots
    requires s.queue != []
  {
    var t := s.queue[0];
    s.(queue := s.queue[1..], active := s.active + 1, granted := s.granted + [t], held := s.held + {t})
  }

  /** dispatchLocked: while there is room and somebody waits. */
  function Dispatched(s: Slots): Slots
    decreases |s.queue|
  {
    if s.active < s.limit && s.queue != [] then Dispatched(Granted(s)) else s
  }

  function Returned(s: Slots, t: Ticket): Slots {
    s.(active := if s.active > 0 then s.active - 1 else s.active, held := s.held - {t})
  }

  function Removed(queue: seq<Ticket>, t: Ticket): seq<Ticket> {
    if queue == [] then [] else if queue[0] == t then queue[1..] else [queue[0]] + Removed(queue[1..], t)
  }

  /** A ticket is used for one acquisition; it is cancelled only while it waits or holds a
      slot its owner has not seen yet, and released at most once. */
  predicate Enabled(s: Slots, e: Event) {
    match e
    case Arrive(t) => t !in s.arrived
    case Cancel(t) => t in s.queue || t in s.held
    case Release(t) => t in s.held
    case SetLimit(_) => true
  }

  function Next(s: Slots, e: Event): Slots
    requires Enabled(s, e)
  {
    match e
    case Arrive(t) =>
      var waiting := s.(queue := s.queue + [t], arrived := s.arrived + [t]);
      if s.active < s.limit && s.queue == [] then Granted(waiting) else waiting
    case Cancel(t) =>
      if t in s.held then Dispatched(Returned(s, t))
      else Dispatched(s.(queue := Removed(s.queue, t), gone := s.gone + {t}))
    case Release(t) => Dispatched(Returned(s, t))
    case SetLimit(n) =>
      var limit := if n < 1 then 1 else n;
      if limit == s.limit then s else Dispatched(s.(limit := limit))
  }

  // ------------------------------------------------------------ what every state keeps

  predicate Distinct(s: seq<Ticket>) {
    forall i, j | 0 <= i < j < |s| :: s[i] != s[j]
  }

  /** The arrivals that have not left the queue. */
  function Staying(arrived: seq<Ticket>, gone: set<Ticket>): seq<Ticket> {
    if arrived == [] then []
    else
      var last := arrived[|arrived| - 1];
      Staying(arrived[..|arrived| - 1], gone) + if last in gone then [] else [last]
  }

  /** Everything but the wake-up rule: the count is right, and grants follow the order of
      arrival among those that stayed. */
  predicate Sound(s: Slots) {
    && s.limit >= 1 && s.active == |s.held|
    && Distinct(s.arrived)
    && Staying(s.arrived, s.gone) == s.granted + s.queue
    && (forall t | t in s.held :: t in s.granted)
    && (forall t | t in s.granted + s.queue :: t in s.arrived && t !in s.gone)
    && (forall t | t in s.gone :: t in s.arrived)
    && Distinct(s.granted + s.queue)
  }

  /** No lost wake-up: nobody waits while a slot is free. */
  predicate Kept(s: Slots) {
    Sound(s) && (s.queue != [] ==> s.active >= s.limit)
  }

  lemma FreshKept(limit: int)
    ensures Kept(Fresh(limit)) && Fresh(limit).limit == (if limit >= 1 then limit else 1) && Fresh(limit).active == 0
  {
  }

  lemma GrantedSound(s: Slots)
    requires Sound(s) && s.queue != []
    ensures Sound(Granted(s))
  {
    var t, u := s.queue[0], Granted(s);
    assert s.granted + s.queue == u.granted + u.queue;
    assert (s.granted + s.queue)[|s.granted|] == t;
    forall k | 0 <= k < |s.granted| ensures s.granted[k] != t {
      assert (s.granted + s.queue)[k] == s.granted[k];
    }
    assert t !in s.held;
  }

  lemma {:induction false} DispatchedKept(s: Slots)
    requires Sound(s)
    ensures Kept(Dispatched(s))
    ensures Dispatched(s).active >= s.active && Dispatched(s).limit == s.limit
    ensures s.granted <= Dispatched(s).granted
    decreases |s.queue|
  {
    if s.active < s.limit && s.queue != [] {
      GrantedSound(s);
      hide Sound;
      DispatchedKept(Granted(s));
    }
  }

  lemma ReturnedSound(s: Slots, t: Ticket)
    requires Sound(s) && t in s.held
    ensures Sound(Returned(s, t)) && Returned(s, t).active == s.active - 1
  {
    assert |s.held - {t}| == |s.held| - 1;
    assert |s.held| > 0;
    hide Staying, Distinct;
  }

  lemma {:induction false} RemovedIs(queue: seq<Ticket>, t: Ticket)
    requires Distinct(queue) && t in queue
    ensures |Removed(queue, t)| == |queue| - 1 && t !in Removed(queue, t) && Distinct(Removed(queue, t))
    ensures forall x :: x in Removed(queue, t) <==> x in queue && x != t
  {
    if queue[0] != t {
      assert queue == [queue[0]] + queue[1..];
      RemovedIs(queue[1..], t);
      DistinctCons(queue[0], Removed(queue[1..], t));
    }
  }

  lemma DistinctCons(t: Ticket, s: seq<Ticket>)
    requires Distinct(s) && t !in s
    ensures Distinct([t] + s)
  {
  }

  lemma {:induction false} RemovedAbsent(s: seq<Ticket>, t: Ticket)
    requires t !in s
    ensures Removed(s, t) == s
  {
    if s != [] {
      assert s == [s[0]] + s[1..];
      RemovedAbsent(s[1..], t);
    }
  }

  /** Leaving the queue is leaving the arrivals. */
  lemma {:induction false} StayingWithout(arrived: seq<Ticket>, gone: set<Ticket>, t: Ticket)
    requires Distinct(Staying(arrived, gone)) && Distinct(arrived)
    ensures Staying(arrived, gone + {t}) == Removed(Staying(arrived, gone), t)
  {
    if arrived != [] {
      var rest, last := arrived[..|arrived| - 1], arrived[|arrived| - 1];
      var was := Staying(rest, gone);
      StayingMembers(rest, gone);
      assert Staying(arrived, gone) == was + if last in gone then [] else [last];
      assert forall i | 0 <= i < |was| :: Staying(arrived, gone)[i] == was[i];
      StayingWithout(rest, gone, t);
      if last !in gone {
        RemovedAppend(was, last, t);
        if t == last { RemovedAbsent(was, t); }
      } else {
        assert was + [] == was;
      }
    }
  }

  lemma {:induction false} StayingMembers(arrived: seq<Ticket>, gone: set<Ticket>)
    ensures forall t :: t in Staying(arrived, gone) <==> t in arrived && t !in gone
  {
    if arrived != [] {
      var rest, last := arrived[..|arrived| - 1], arrived[|arrived| - 1];
      StayingMembers(rest, gone);
      assert arrived == rest + [last];
    }
  }

  lemma {:induction false} RemovedAppend(s: seq<Ticket>, last: Ticket, t: Ticket)
    requires last !in s
    ensures Removed(s + [last], t) == if t == last then s else Removed(s, t) + [last]
  {
    if s == [] {
      assert s + [last] == [last] && [last][1..] == [];
    } else {
      assert (s + [last])[0] == s[0] && (s + [last])[1..] == s[1..] + [last];
      RemovedAppend(s[1..], last, t);
    }
  }

  lemma {:induction false} RemovedFromTail(a: seq<Ticket>, b: seq<Ticket>, t: Ticket)
    requires t !in a
    ensures Removed(a + b, t) == a + Removed(b, t)
  {
    if a == [] {
      assert a + b == b;
    } else {
      assert (a + b)[0] == a[0] && (a + b)[1..] == a[1..] + b;
      RemovedFromTail(a[1..], b, t);
    }
  }

  lemma CancelledSound(s: Slots, t: Ticket)
    requires Sound(s) && t in s.queue
    ensures Sound(s.(queue := Removed(s.queue, t), gone := s.gone + {t}))
  {
    var all := s.granted + s.queue;
    var i :| 0 <= i < |s.queue| && s.queue[i] == t;
    assert all[|s.granted| + i] == t;
    forall k | 0 <= k < |s.granted| ensures s.granted[k] != t { assert all[k] == s.granted[k]; }
    RemovedIs(all, t);
    StayingWithout(s.arrived, s.gone, t);
    RemovedFromTail(s.granted, s.queue, t);
    hide Staying, Removed, Distinct;
  }

  lemma ArrivedSound(s: Slots, t: Ticket)
    requires Sound(s) && t !in s.arrived
    ensures Sound(s.(queue := s.queue + [t], arrived := s.arrived + [t]))
  {
    var arrived := s.arrived + [t];
    assert arrived[..|arrived| - 1] == s.arrived;
    assert s.granted + (s.queue + [t]) == (s.granted + s.queue) + [t];
    assert t !in s.gone && t !in s.granted + s.queue;
  }

  /** Every arrival, cancellation, release and change of the limit keeps it. */
  lemma StepKept(s: Slots, e: Event)
    requires Kept(s) && Enabled(s, e)
    ensures Kept(Next(s, e))
  {
    match e
    case Arrive(t) =>
      ArrivedSound(s, t);
      var waiting := s.(queue := s.queue + [t], arrived := s.arrived + [t]);
      hide Sound;
      if s.active < s.limit && s.queue == [] {
        GrantedSound(waiting);
        assert Granted(waiting).queue == [];
      }
    case Cancel(t) =>
      if t in s.held { ReturnedSound(s, t); } else { CancelledSound(s, t); }
      hide Sound;
      DispatchedKept(if t in s.held then Returned(s, t) else s.(queue := Removed(s.queue, t), gone := s.gone + {t}));
    case Release(t) =>
      ReturnedSound(s, t);
      DispatchedKept(Returned(s, t));
    case SetLimit(n) =>
      DispatchedKept(s.(limit := if n < 1 then 1 else n));
  }

  /** t has come out of s by granting slots to some of those that wait. */
  ghost predicate Grants(s: Slots, t: Slots) {
    && t.limit == s.limit
    && (forall x | x in s.held :: x in t.held)
    && (forall x | x in s.queue :: x in t.queue || x in t.held)
    && (forall x | x in t.held :: x in s.held || x in s.queue)
    && (forall x | x in t.queue :: x in s.queue)
  }

  lemma {:induction false} DispatchedGrants(s: Slots)
    ensures Grants(s, Dispatched(s))
    decreases |s.queue|
  {
    if s.active < s.limit && s.queue != [] {
      assert s.queue == [s.queue[0]] + s.queue[1..];
      DispatchedGrants(Granted(s));
    }
  }

  /** An arrival gets a slot exactly when one is free, and waits last in line otherwise. */
  lemma ArrivalEffect(s: Slots, x: Ticket)
    requires Kept(s) && Enabled(s, Arrive(x))
    ensures var t := Next(s, Arrive(x));
            if s.active < s.limit then t == s.(active := s.active + 1, arrived := s.arrived + [x], granted := s.granted + [x], held := s.held + {x})
            else t == s.(queue := s.queue + [x], arrived := s.arrived + [x])
  {
    hide Sound;
    assert s.queue == [] ==> s.queue + [x] == [x] && [x][1..] == [];
  }

  /** Who gives up or returns a slot has neither a slot nor a place afterwards. Nobody else
      loses either, and slots go only to those who waited. */
  lemma DepartureEffect(s: Slots, e: Event)
    requires Kept(s) && Enabled(s, e) && (e.Cancel? || e.Release?)
    ensures var t := Next(s, e);
            && e.t !in t.held && e.t !in t.queue && t.limit == s.limit
            && (forall x | x in s.held && x != e.t :: x in t.held)
            && (forall x | x in s.queue && x != e.t :: x in t.queue || x in t.held)
            && (forall x | x in t.held :: x in s.held || x in s.queue)
            && (forall x | x in t.queue :: x in s.queue)
  {
    var x := e.t;
    if x in s.held {
      if x in s.queue { QueuedNotHeld(s, x); }
      DispatchedGrants(Returned(s, x));
    } else {
      CancelledGone(s, x);
      DistinctTail(s.granted, s.queue);
      RemovedIs(s.queue, x);
      DispatchedGrants(s.(queue := Removed(s.queue, x), gone := s.gone + {x}));
    }
    hide Sound, Dispatched, Removed;
  }

  /** A new limit holds from now on, one at least; slots in use are not taken back. */
  lemma LimitEffect(s: Slots, n: int)
    requires Kept(s)
    ensures var t := Next(s, SetLimit(n));
            && t.limit == (if n < 1 then 1 else n)
            && (forall x | x in s.held :: x in t.held)
            && (forall x | x in s.queue :: x in t.queue || x in t.held)
            && (forall x | x in t.held :: x in s.held || x in s.queue)
  {
    var limit := if n < 1 then 1 else n;
    DispatchedGrants(s.(limit := limit));
    hide Sound, Dispatched;
  }

  predicate IsRun(s: Slots, events: seq<Event>)
    decreases |events|
  {
    events == [] || (Enabled(s, events[0]) && IsRun(Next(s, events[0]), events[1..]))
  }

  function After(s: Slots, events: seq<Event>): Slots
    requires IsRun(s, events)
    decreases |events|
  {
    if events == [] then s else After(Next(s, events[0]), events[1..])
  }

  /** In every reachable state the active count is the slots granted and not returned,
      nobody waits while a slot is free, and slots were granted in order of arrival among
      those that did not give up. */
  lemma {:induction false} RunKept(s: Slots, events: seq<Event>)
    requires Kept(s) && IsRun(s, events)
    ensures var t := After(s, events);
            && Kept(t) && t.active == |t.held| && (t.queue != [] ==> t.active >= t.limit)
            && Staying(t.arrived, t.gone) == t.granted + t.queue
    decreases |events|
  {
    if events != [] {
      StepKept(s, events[0]);
      hide Kept, Enabled, Next;
      RunKept(Next(s, events[0]), events[1..]);
    }
  }

  // ------------------------------------------------------------ the limiter itself

  class TaskLimiter {
    var limit: int
    var active: int
    var queue: seq<Ticket>
    ghost var slots: Slots

    ghost predicate Valid()
      reads this
    {
      Kept(slots) && slots.limit == limit && slots.active == active && slots.queue == queue
    }

    constructor (limit: int)
      ensures Valid() && slots == Fresh(limit)
    {
      this.limit := if limit < 1 then 1 else limit;
      this.active, this.queue, this.slots := 0, [], Fresh(limit);
    }

    /** acquire up to the point where the caller waits; granted says it need not. */
    method Arrive(t: Ticket) returns (granted: bool)
      requires Valid() && t !in slots.arrived
      modifies this
      ensures Valid() && slots == Next(old(slots), Event.Arrive(t)) && (granted <==> t in slots.held)
    {
      StepKept(slots, Event.Arrive(t));
      assert t !in slots.held;
      slots := Next(slots, Event.Arrive(t));
      if active < limit && |queue| == 0 {
        active := active + 1;
        granted := true;
      } else {
        queue := queue + [t];
        granted := false;
      }
    }

    /** The waiting caller's context ended. A slot granted in the same moment goes back. */
    method Cancel(t: Ticket)
      requires Valid() && (t in slots.queue || t in slots.held)
      modifies this
      ensures Valid() && slots == Next(old(slots), Event.Cancel(t)) && t !in slots.held && t !in slots.queue
    {
      ghost var before := slots;
      StepKept(slots, Event.Cancel(t));
      CancelledGone(slots, t);
      if t in queue {
        queue := RemoveFrom(queue, t);
        QueuedNotHeld(before, t);
        slots := before.(queue := Removed(before.queue, t), gone := before.gone + {t});
        CancelledSound(before, t);
      } else {
        active := active - 1;
        slots := Returned(before, t);
        ReturnedSound(before, t);
      }
      Dispatch();
    }

    method Release(t: Ticket)
      requires Valid() && t in slots.held
      modifies this
      ensures Valid() && slots == Next(old(slots), Event.Release(t))
    {
      StepKept(slots, Event.Release(t));
      ReturnedSound(slots, t);
      if active > 0 {
        active := active - 1;
      }
      slots := Returned(slots, t);
      Dispatch();
    }

    method SetLimit(n: int)
      requires Valid()
      modifies this
      ensures Valid() && slots == Next(old(slots), Event.SetLimit(n))
    {
      StepKept(slots, Event.SetLimit(n));
      var clamped := if n < 1 then 1 else n;
      if limit == clamped {
        return;
      }
      limit := clamped;
      slots := slots.(limit := clamped);
      Dispatch();
    }

    /** dispatchLocked. */
    method Dispatch()
      requires Sound(slots) && slots.limit == limit && slots.active == active && slots.queue == queue
      modifies this
      ensures slots == Dispatched(old(slots)) && Valid()
    {
      DispatchedKept(slots);
      while active < limit && |queue| > 0
        invariant Sound(slots) && slots.limit == limit && slots.active == active && slots.queue == queue
        invariant Dispatched(slots) == Dispatched(old(slots))
        decreases |queue|
      {
        GrantedSound(slots);
        hide Sound;
        slots := Granted(slots);
        queue := queue[1..];
        active := active + 1;
      }
    }

    /** The search for the waiter in the queue. */
    static method RemoveFrom(queue: seq<Ticket>, t: Ticket) returns (rest: seq<Ticket>)
      ensures rest == Removed(queue, t)
    {
      hide Removed;
      assert queue[0..] == queue && queue[..0] == [];
      for i := 0 to |queue|
        invariant Removed(queue, t) == queue[..i] + Removed(queue[i..], t)
      {
        RemovedStep(queue, i, t);
        if queue[i] == t {
          return queue[..i] + queue[i + 1..];
        }
        assert queue[..i + 1] == queue[..i] + [queue[i]];
      }
      RemovedNone(t);
      assert queue[..|queue|] == queue && queue[|queue|..] == [];
      rest := queue;
    }
  }

  lemma RemovedStep(queue: seq<Ticket>, i: nat, t: Ticket)
    requires i < |queue|
    ensures Removed(queue[i..], t) == if queue[i] == t then queue[i + 1..] else [queue[i]] + Removed(queue[i + 1..], t)
  {
    assert queue[i..][1..] == queue[i + 1..];
  }

  lemma RemovedNone(t: Ticket)
    ensures Removed([], t) == []
  {
  }

  lemma QueuedNotHeld(s: Slots, t: Ticket)
    requires Sound(s) && t in s.queue
    ensures t !in s.held
  {
    var all := s.granted + s.queue;
    var i :| 0 <= i < |s.queue| && s.queue[i] == t;
    assert all[|s.granted| + i] == t;
    forall k | 0 <= k < |s.granted| ensures s.granted[k] != t { assert all[k] == s.granted[k]; }
  }

  lemma DistinctTail(a: seq<Ticket>, b: seq<Ticket>)
    requires Distinct(a + b)
    ensures Distinct(b)
  {
    forall i, j | 0 <= i < j < |b| ensures b[i] != b[j] {
      assert (a + b)[|a| + i] == b[i] && (a + b)[|a| + j] == b[j];
    }
  }

  /** A cancelled ticket neither waits nor holds a slot, so it will never be granted one. */
  lemma CancelledGone(s: Slots, t: Ticket)
    requires Kept(s) && Enabled(s, Cancel(t))
    ensures t !in Next(s, Cancel(t)).held && t !in Next(s, Cancel(t)).queue
  {
    if t in s.queue {
      QueuedNotHeld(s, t);
      CancelledSound(s, t);
      DistinctTail(s.granted, s.queue);
      RemovedIs(s.queue, t);
      StaysAway(s.(queue := Removed(s.queue, t), gone := s.gone + {t}), t);
    } else {
      StaysAway(Returned(s, t), t);
    }
  }

  lemma {:induction false} StaysAway(s: Slots, t: Ticket)
    requires t !in s.queue && t !in s.held
    ensures t !in Dispatched(s).held && t !in Dispatched(s).queue
    decreases |s.queue|
  {
    if s.active < s.limit && s.queue != [] {
      assert s.queue[0] in s.queue;
      StaysAway(Granted(s), t);
    }
  }
}
