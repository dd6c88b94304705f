/** Choosing an account, and pairing a task slot with a quota reservation
    (internal/drive/schedule.go). */
module Schedule {
  import opened Limiter
  import opened Quota
  import opened Text

  // ------------------------------------------------------------ which account

  /** An account as the scheduler sees it: usable or not, and its books for the direction. */
  datatype Account = Account(id: string, available: bool, used: int, reserved: int, limit: int)

  predicate CanStart(a: Account, size: int) {
    a.available && MayStart(a.used, a.reserved, a.limit, size)
  }

  predicate CanFit(a: Account, size: int) {
    CanStart(a, size) && Fits(a.used, a.reserved, a.limit, size)
  }

  /** firstAccountForTransfer: the first account that fits the content; only when there is
      none, the first that may start it. */
  method FirstAccount(accounts: seq<Account>, size: int) returns (pick: Option<nat>)
    ensures pick.None? <==> forall k | 0 <= k < |accounts| :: !CanStart(accounts[k], size)
    ensures pick.Some? ==> pick.value < |accounts| && CanStart(accounts[pick.value], size)
    ensures pick.Some? && CanFit(accounts[pick.value], size) ==> forall k | 0 <= k < pick.value :: !CanFit(accounts[k], size)
    ensures pick.Some? && !CanFit(accounts[pick.value], size) ==>
              && (forall k | 0 <= k < |accounts| :: !CanFit(accounts[k], size))
              && forall k | 0 <= k < pick.value :: !CanStart(accounts[k], size)
  {
    for i := 0 to |accounts|
      invariant forall k | 0 <= k < i :: !CanFit(accounts[k], size)
    {
      if CanFit(accounts[i], size) {
        return Some(i);
      }
    }
    for i := 0 to |accounts|
      invariant forall k | 0 <= k < i :: !CanStart(accounts[k], size)
    {
      if CanStart(accounts[i], size) {
        return Some(i);
      }
    }
    pick := None;
  }

  /** An account can take a content when it is available and its books allow it: the content
      fits, or nothing is reserved and the limit is not reached. */
  lemma CanTake(a: Account, size: int)
    requires a.reserved >= 0
    ensures CanFit(a, size) <==> a.available && (size <= 0 || a.limit <= 0 || a.used + a.reserved + size <= a.limit)
    ensures CanStart(a, size) <==> CanFit(a, size) || (a.available && a.reserved == 0 && a.used < a.limit)
  {
    FitsMayStart(a.used, a.reserved, a.limit, size);
  }

  // ------------------------------------------------------------ the retry loop, many at once

  /** Where one call of acquire stands. Trying: at the top of its loop. Settled: its lease
      has settled the reservation and still has to return the slot. */
  datatype Task = Trying | Waiting(t: Ticket) | HasSlot(t: Ticket) | Leased(t: Ticket, r: nat) | Settled(t: Ticket) | Ended

  datatype Admission = Admission(slots: Slots, books: Books, tasks: map<nat, Task>, next: Ticket)

  datatype Step =
    | Begin(i: nat)
    | Enter(i: nat)
    | Awake(i: nat)
    | GiveUp(i: nat)
    | NoAccountLeft(i: nat)
    | Refused(i: nat)
    | Accepted(i: nat, key: Key, limit: int, size: int)
    | Fails(i: nat)
    | Settle(i: nat, bytes: int)
    | Finish(i: nat)
    | Return(i: nat)
    | NewLimit(n: int)

  predicate Enabled(a: Admission, e: Step) {
    match e
    case Begin(i) => i !in a.tasks
    case Enter(i) => i in a.tasks && a.tasks[i].Trying?
    case Awake(i) => i in a.tasks && a.tasks[i].Waiting? && a.tasks[i].t in a.slots.held
    case GiveUp(i) => i in a.tasks && a.tasks[i].Waiting?
    case NoAccountLeft(i) => i in a.tasks && a.tasks[i].HasSlot?
    case Refused(i) => i in a.tasks && a.tasks[i].HasSlot?
    case Accepted(i, key, limit, size) =>
      i in a.tasks && a.tasks[i].HasSlot? && MayStart(At(a.books.used, key), At(a.books.reserved, key), limit, size)
    case Fails(i) => i in a.tasks && a.tasks[i].Trying?
    case Settle(i, _) => i in a.tasks && a.tasks[i].Leased? && a.tasks[i].r < |a.books.res|
    case Finish(i) => i in a.tasks && a.tasks[i].Leased? && a.tasks[i].r < |a.books.res|
    case Return(i) => i in a.tasks && a.tasks[i].Settled?
    case NewLimit(_) => true
  }

  /** The limiter's part of a step, if any. */
  function SlotEvent(a: Admission, e: Step): Option<Limiter.Event>
    requires Enabled(a, e)
  {
    match e
    case Enter(i) => Some(Arrive(a.next))
    case GiveUp(i) => Some(Cancel(a.tasks[i].t))
    case NoAccountLeft(i) => Some(Release(a.tasks[i].t))
    case Refused(i) => Some(Release(a.tasks[i].t))
    case Return(i) => Some(Release(a.tasks[i].t))
    case NewLimit(n) => Some(SetLimit(n))
    case _ => None
  }

  function NextSlots(a: Admission, e: Step): Slots
    requires Enabled(a, e)
  {
    var event := SlotEvent(a, e);
    if event.Some? && Limiter.Enabled(a.slots, event.value) then Limiter.Next(a.slots, event.value) else a.slots
  }

  function NextBooks(a: Admission, e: Step): Books
    requires Enabled(a, e)
  {
    match e
    case Accepted(i, key, limit, size) => Reserved(a.books, key, size)
    case Settle(i, bytes) => ActualSet(a.books, a.tasks[i].r, bytes)
    case Finish(i) => Committed(a.books, a.tasks[i].r)
    case _ => a.books
  }

  function NextTasks(a: Admission, e: Step): map<nat, Task>
    requires Enabled(a, e)
  {
    match e
    case Begin(i) => a.tasks[i := Trying]
    case Enter(i) => a.tasks[i := Waiting(a.next)]
    case Awake(i) => a.tasks[i := HasSlot(a.tasks[i].t)]
    case GiveUp(i) => a.tasks[i := Ended]
    case NoAccountLeft(i) => a.tasks[i := Trying]
    case Refused(i) => a.tasks[i := Trying]
    case Accepted(i, _, _, _) => a.tasks[i := Leased(a.tasks[i].t, |a.books.res|)]
    case Fails(i) => a.tasks[i := Ended]
    case Finish(i) => a.tasks[i := Settled(a.tasks[i].t)]
    case Return(i) => a.tasks[i := Ended]
    case _ => a.tasks
  }

  function Next(a: Admission, e: Step): Admission
    requires Enabled(a, e)
  {
    Admission(NextSlots(a, e), NextBooks(a, e), NextTasks(a, e), if e.Enter? then a.next + 1 else a.next)
  }

  // ------------------------------------------------------------ what every state keeps

  function TicketOf(task: Task): Option<Ticket> {
    match task
    case Waiting(t) => Some(t)
    case HasSlot(t) => Some(t)
    case Leased(t, _) => Some(t)
    case Settled(t) => Some(t)
    case _ => None
  }

  predicate HoldsSlot(task: Task) {
    task.HasSlot? || task.Leased? || task.Settled?
  }

  predicate InUse(s: Slots, t: Ticket) {
    t in s.queue || t in s.held
  }

  /** Slots and places in the queue belong to calls still under way, one each. */
  ghost predicate SlotsOwned(slots: Slots, tasks: map<nat, Task>, next: Ticket) {
    && Limiter.Kept(slots)
    && (forall t | t in slots.arrived :: t < next)
    && (forall i | i in tasks && TicketOf(tasks[i]).Some? :: InUse(slots, TicketOf(tasks[i]).value))
    && (forall i | i in tasks && HoldsSlot(tasks[i]) :: tasks[i].t in slots.held)
    && (forall i, j | i in tasks && j in tasks && TicketOf(tasks[i]).Some? && TicketOf(tasks[i]) == TicketOf(tasks[j]) :: i == j)
    && (forall t: Ticket | InUse(slots, t) :: exists i :: i in tasks && TicketOf(tasks[i]) == Some(t))
  }

  predicate HoldsReservation(tasks: map<nat, Task>, i: nat, r: nat) {
    i in tasks && tasks[i].Leased? && tasks[i].r == r
  }

  /** Uncommitted reservations belong to leases, one each. */
  ghost predicate ReservationsOwned(books: Books, tasks: map<nat, Task>) {
    && (forall i | i in tasks && tasks[i].Leased? :: tasks[i].r < |books.res| && !books.res[tasks[i].r].committed)
    && (forall i, j | i in tasks && j in tasks && tasks[i].Leased? && tasks[j].Leased? && tasks[i].r == tasks[j].r :: i == j)
    && (forall r: nat | r < |books.res| && !books.res[r].committed :: exists i :: HoldsReservation(tasks, i, r))
  }

  ghost predicate Paired(a: Admission) {
    SlotsOwned(a.slots, a.tasks, a.next) && ReservationsOwned(a.books, a.tasks)
  }

  /** Dispatching moves tickets from the queue to slots and loses none. */
  lemma {:induction false} DispatchedInUse(s: Slots, t: Ticket)
    ensures InUse(Dispatched(s), t) <==> InUse(s, t)
    ensures t in s.held ==> t in Dispatched(s).held
    ensures Dispatched(s).arrived == s.arrived
    decreases |s.queue|
  {
    if s.active < s.limit && s.queue != [] {
      assert s.queue == [s.queue[0]] + s.queue[1..];
      DispatchedInUse(Granted(s), t);
    }
  }

  /** What one limiter event does to the tickets in use. */
  lemma EventInUse(s: Slots, e: Limiter.Event, t: Ticket)
    requires Limiter.Kept(s) && Limiter.Enabled(s, e)
    ensures e.Arrive? ==> (InUse(Limiter.Next(s, e), t) <==> InUse(s, t) || t == e.t)
    ensures e.Cancel? || e.Release? ==> (InUse(Limiter.Next(s, e), t) <==> InUse(s, t) && t != e.t)
    ensures e.SetLimit? ==> (InUse(Limiter.Next(s, e), t) <==> InUse(s, t))
    ensures t in s.held && (e.Cancel? || e.Release? ==> t != e.t) ==> t in Limiter.Next(s, e).held
    ensures Limiter.Next(s, e).arrived == if e.Arrive? then s.arrived + [e.t] else s.arrived
  {
    match e
    case Arrive(u) =>
    case Cancel(u) =>
      if u in s.held {
        HeldNotQueued(s, u);
        DispatchedInUse(Returned(s, u), t);
      } else {
        DistinctTail(s.granted, s.queue);
        RemovedIs(s.queue, u);
        DispatchedInUse(s.(queue := Removed(s.queue, u), gone := s.gone + {u}), t);
      }
    case Release(u) =>
      HeldNotQueued(s, u);
      DispatchedInUse(Returned(s, u), t);
    case SetLimit(n) => DispatchedInUse(s.(limit := if n < 1 then 1 else n), t);
  }

  lemma HeldNotQueued(s: Slots, t: Ticket)
    requires Sound(s) && t in s.held
    ensures t !in s.queue
  {
    if t in s.queue { QueuedNotHeld(s, t); }
  }

  /** The event a step hands the limiter is one the limiter allows. */
  lemma SlotEventEnabled(a: Admission, e: Step)
    requires Paired(a) && Enabled(a, e) && SlotEvent(a, e).Some?
    ensures Limiter.Enabled(a.slots, SlotEvent(a, e).value)
    ensures Limiter.Kept(NextSlots(a, e))
  {
    hide Limiter.Kept, ReservationsOwned;
    StepKept(a.slots, SlotEvent(a, e).value);
  }

  /** The ticket a step brings in, and the one it gives back. */
  function Coming(a: Admission, e: Step): Option<Ticket> {
    if e.Enter? then Some(a.next) else None
  }

  function Leaving(a: Admission, e: Step): Option<Ticket>
    requires Enabled(a, e)
  {
    match e
    case GiveUp(i) => TicketOf(a.tasks[i])
    case NoAccountLeft(i) => TicketOf(a.tasks[i])
    case Refused(i) => TicketOf(a.tasks[i])
    case Return(i) => TicketOf(a.tasks[i])
    case _ => None
  }

  /** s' has the tickets of s in use, but for those coming and leaving. */
  ghost predicate Moves(s: Slots, s': Slots, coming: Option<Ticket>, leaving: Option<Ticket>) {
    && (forall t: Ticket :: InUse(s', t) <==> (InUse(s, t) || Some(t) == coming) && Some(t) != leaving)
    && (forall t | t in s.held && Some(t) != leaving :: t in s'.held)
    && s'.arrived == if coming.Some? then s.arrived + [coming.value] else s.arrived
  }

  lemma EventMoves(s: Slots, e: Limiter.Event)
    requires Limiter.Kept(s) && Limiter.Enabled(s, e)
    ensures Moves(s, Limiter.Next(s, e), if e.Arrive? then Some(e.t) else None, if e.Cancel? || e.Release? then Some(e.t) else None)
  {
    hide Limiter.Kept, Limiter.Next, Limiter.Enabled, InUse;
    forall t: Ticket
      ensures e.Arrive? ==> (InUse(Limiter.Next(s, e), t) <==> InUse(s, t) || t == e.t)
      ensures e.Cancel? || e.Release? ==> (InUse(Limiter.Next(s, e), t) <==> InUse(s, t) && t != e.t)
      ensures e.SetLimit? ==> (InUse(Limiter.Next(s, e), t) <==> InUse(s, t))
      ensures t in s.held && (e.Cancel? || e.Release? ==> t != e.t) ==> t in Limiter.Next(s, e).held
    {
      EventInUse(s, e, t);
    }
    EventInUse(s, e, 0);
  }

  lemma EventIs(a: Admission, e: Step)
    requires Enabled(a, e)
    ensures var event := SlotEvent(a, e);
            if event.None? then Coming(a, e).None? && Leaving(a, e).None?
            else
              && Coming(a, e) == (if event.value.Arrive? then Some(event.value.t) else None)
              && Leaving(a, e) == if event.value.Cancel? || event.value.Release? then Some(event.value.t) else None
  {
  }

  lemma StepMoves(a: Admission, e: Step)
    requires Paired(a) && Enabled(a, e)
    ensures Moves(a.slots, NextSlots(a, e), Coming(a, e), Leaving(a, e)) && Limiter.Kept(NextSlots(a, e))
  {
    assert Limiter.Kept(a.slots);
    EventIs(a, e);
    if SlotEvent(a, e).Some? {
      SlotEventEnabled(a, e);
      assert NextSlots(a, e) == Limiter.Next(a.slots, SlotEvent(a, e).value);
      hide *;
      EventMoves(a.slots, SlotEvent(a, e).value);
    } else {
      hide Limiter.Kept, InUse, ReservationsOwned, SlotsOwned;
    }
  }

  lemma NewTicketUnused(a: Admission)
    requires Paired(a)
    ensures !InUse(a.slots, a.next)
  {
    if InUse(a.slots, a.next) {
      InUseArrived(a.slots, a.next);
    }
  }

  lemma InUseArrived(s: Slots, t: Ticket)
    requires Sound(s) && InUse(s, t)
    ensures t in s.arrived
  {
    if t in s.queue {
      var i :| 0 <= i < |s.queue| && s.queue[i] == t;
      assert (s.granted + s.queue)[|s.granted| + i] == t;
    } else {
      var i :| 0 <= i < |s.granted| && s.granted[i] == t;
      assert (s.granted + s.queue)[i] == t;
    }
  }

  lemma SlotsStayOwned(a: Admission, e: Step)
    requires Paired(a) && Enabled(a, e)
    ensures SlotsOwned(NextSlots(a, e), NextTasks(a, e), Next(a, e).next)
  {
    assert SlotsOwned(a.slots, a.tasks, a.next);
    StepMoves(a, e);
    NewTicketUnused(a);
    TaskMoves(a, e);
    hide *;
    if e.Settle? || e.NewLimit? {
      OwnedUnmoved(a.slots, NextSlots(a, e), a.tasks, a.next);
    } else {
      OwnedMoved(a.slots, NextSlots(a, e), a.tasks, a.next, e.i, NextTasks(a, e)[e.i], Coming(a, e), Leaving(a, e));
    }
  }

  lemma TaskMoves(a: Admission, e: Step)
    requires Paired(a) && Enabled(a, e)
    ensures Next(a, e).next == if Coming(a, e).Some? then a.next + 1 else a.next
    ensures if e.Settle? || e.NewLimit? then NextTasks(a, e) == a.tasks && Coming(a, e).None? && Leaving(a, e).None?
            else
              var had := if e.i in a.tasks then TicketOf(a.tasks[e.i]) else None;
              && e.i in NextTasks(a, e) && NextTasks(a, e) == a.tasks[e.i := NextTasks(a, e)[e.i]]
              && (Coming(a, e).Some? ==> Coming(a, e).value == a.next && Leaving(a, e).None? && had.None?)
              && (Leaving(a, e).Some? ==> Leaving(a, e) == had)
              && TicketOf(NextTasks(a, e)[e.i]) ==
                 (if Leaving(a, e).Some? then None else if Coming(a, e).Some? then Coming(a, e) else had)
              && (HoldsSlot(NextTasks(a, e)[e.i]) ==> NextTasks(a, e)[e.i].t in a.slots.held)
  {
    hide Limiter.Kept, ReservationsOwned, NextSlots, NextBooks, InUse;
  }

  lemma OwnedUnmoved(s: Slots, s': Slots, tasks: map<nat, Task>, next: Ticket)
    requires SlotsOwned(s, tasks, next) && Moves(s, s', None, None) && Limiter.Kept(s')
    ensures SlotsOwned(s', tasks, next)
  {
    hide Limiter.Kept, InUse;
  }

  /** One call moves on: with the ticket it had, a new one, or none. */
  lemma OwnedMoved(s: Slots, s': Slots, tasks: map<nat, Task>, next: Ticket, i: nat, task: Task,
                   coming: Option<Ticket>, leaving: Option<Ticket>)
    requires SlotsOwned(s, tasks, next) && Moves(s, s', coming, leaving) && Limiter.Kept(s')
    requires coming.Some? ==> coming.value == next && leaving.None? && !InUse(s, next)
    requires var had := if i in tasks then TicketOf(tasks[i]) else None;
             && (leaving.Some? ==> leaving == had)
             && (coming.Some? ==> had.None?)
             && TicketOf(task) == if leaving.Some? then None else if coming.Some? then coming else had
    requires HoldsSlot(task) ==> task.t in s.held
    ensures SlotsOwned(s', tasks[i := task], if coming.Some? then next + 1 else next)
  {
    hide Limiter.Kept, InUse;
    var tasks' := tasks[i := task];
    forall t: Ticket | InUse(s', t) ensures exists j :: j in tasks' && TicketOf(tasks'[j]) == Some(t) {
      if Some(t) == coming {
        assert TicketOf(tasks'[i]) == Some(t);
      } else {
        var j :| j in tasks && TicketOf(tasks[j]) == Some(t);
        assert TicketOf(tasks'[j]) == Some(t);
      }
    }
  }

  lemma ReservationsStayOwned(a: Admission, e: Step)
    requires ReservationsOwned(a.books, a.tasks) && Enabled(a, e)
    ensures ReservationsOwned(NextBooks(a, e), NextTasks(a, e))
  {
    var books, tasks := NextBooks(a, e), NextTasks(a, e);
    forall r: nat | r < |books.res| && !books.res[r].committed ensures exists i :: HoldsReservation(tasks, i, r) {
      if r == |a.books.res| {
        assert HoldsReservation(tasks, e.i, r);
      } else {
        assert !a.books.res[r].committed;
        var i :| HoldsReservation(a.tasks, i, r);
        assert HoldsReservation(tasks, i, r);
      }
    }
  }

  lemma StepPaired(a: Admission, e: Step)
    requires Paired(a) && Enabled(a, e)
    ensures Paired(Next(a, e))
  {
    SlotsStayOwned(a, e);
    ReservationsStayOwned(a, e);
    hide SlotsOwned, ReservationsOwned, NextSlots, NextBooks, NextTasks;
  }

  /** A step moves its own call alone. A call that finds no account, is refused or gives up
      has lost its slot or its place; one whose account accepts it keeps the slot and opens a
      reservation; finishing settles that reservation, and returning frees the slot. */
  lemma CallMoves(a: Admission, e: Step)
    requires Paired(a) && Enabled(a, e) && !e.NewLimit?
    ensures var x := Next(a, e);
            && e.i in x.tasks && (forall j | j in a.tasks && j != e.i :: j in x.tasks && x.tasks[j] == a.tasks[j])
            && (e.Enter? ==> x.tasks[e.i] == Waiting(a.next) && InUse(x.slots, a.next) && !InUse(a.slots, a.next))
            && (e.Awake? ==> x.tasks[e.i] == HasSlot(a.tasks[e.i].t))
            && (e.GiveUp? || e.Fails? || e.Return? ==> x.tasks[e.i].Ended?)
            && (e.NoAccountLeft? || e.Refused? || e.Begin? ==> x.tasks[e.i].Trying?)
            && (e.GiveUp? || e.NoAccountLeft? || e.Refused? || e.Return? ==> !InUse(x.slots, a.tasks[e.i].t))
            && (e.Accepted? ==> x.tasks[e.i] == Leased(a.tasks[e.i].t, |a.books.res|) && |x.books.res| == |a.books.res| + 1)
            && (e.Settle? ==> x.tasks == a.tasks && x.slots == a.slots)
            && (e.Finish? ==> x.tasks[e.i] == Settled(a.tasks[e.i].t) && x.slots == a.slots && x.books.res[a.tasks[e.i].r].committed)
            && (!e.Accepted? && !e.Settle? && !e.Finish? ==> x.books == a.books)
  {
    StepMoves(a, e);
    NewTicketUnused(a);
    hide Limiter.Kept, Limiter.Next, Limiter.Enabled, ReservationsOwned, SlotsOwned, InUse;
  }

  predicate IsRun(a: Admission, steps: seq<Step>)
    decreases |steps|
  {
    steps == [] || (Enabled(a, steps[0]) && IsRun(Next(a, steps[0]), steps[1..]))
  }

  function After(a: Admission, steps: seq<Step>): Admission
    requires IsRun(a, steps)
    decreases |steps|
  {
    if steps == [] then a else After(Next(a, steps[0]), steps[1..])
  }

  lemma {:induction false} RunPaired(a: Admission, steps: seq<Step>)
    requires Paired(a) && IsRun(a, steps)
    ensures Paired(After(a, steps))
    decreases |steps|
  {
    if steps != [] {
      StepPaired(a, steps[0]);
      hide Paired, Enabled, Next;
      RunPaired(Next(a, steps[0]), steps[1..]);
    }
  }

  /** Any number of calls in any interleaving: one that got its lease has exactly one slot
      and one open reservation; one that is over, or is about to try again, has neither; one
      that is just settling keeps its slot until the reservation is settled and returns it;
      and no slot or reservation is left without a call it belongs to. */
  lemma OneSlotOneReservationOrNeither(limit: int, steps: seq<Step>)
    requires IsRun(Admission(Fresh(limit), Books(map[], map[], []), map[], 0), steps)
    ensures var a := After(Admission(Fresh(limit), Books(map[], map[], []), map[], 0), steps);
            && (forall i | i in a.tasks && a.tasks[i].Leased? ::
                  && a.tasks[i].t in a.slots.held && a.tasks[i].r < |a.books.res| && !a.books.res[a.tasks[i].r].committed
                  && forall j | j in a.tasks && j != i :: TicketOf(a.tasks[j]) != Some(a.tasks[i].t) && !HoldsReservation(a.tasks, j, a.tasks[i].r))
            && (forall i | i in a.tasks && a.tasks[i].Settled? :: a.tasks[i].t in a.slots.held)
            && (forall t | t in a.slots.held :: exists i :: i in a.tasks && TicketOf(a.tasks[i]) == Some(t))
            && (forall r: nat | r < |a.books.res| && !a.books.res[r].committed :: exists i :: HoldsReservation(a.tasks, i, r))
  {
    var start := Admission(Fresh(limit), Books(map[], map[], []), map[], 0);
    RunPaired(start, steps);
    hide IsRun, After, Limiter.Kept;
    var a := After(start, steps);
    forall t | t in a.slots.held ensures InUse(a.slots, t) {}
  }
}
