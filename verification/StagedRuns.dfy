/** Staging calls, workers, cancellation, sweeps and restarts over the staged-download cache:
    every interleaving of their database writes, and what it leaves of the byte limit
    (internal/drive/download.go). */
module StagedRuns {
  import opened Text
  import opened StagedCache
  import opened Sums

  // ------------------------------------------------------------ the state

  /** Where a worker is: scheduled, or registered with its cancel function, its row running,
      the destination stored, the finished copy stored. wid tells registrations apart: a job
      that is resumed gets a fresh worker with a context of its own. */
  datatype Worker = Scheduled | At(phase: Phase, wid: nat)

  datatype Phase = Registered | Started | Pathed | Stored

  type Op = nat

  /** A CancelStaged call after its lookup; since: registrations from this one on are later
      than the lookup. */
  datatype Cancel = Cancel(id: Id, since: nat, marked: bool)

  /** A StartStaged call that holds stageMu: the usage it has measured, whether it has listed
      candidates, and those it has not come to yet. */
  datatype Staging = Staging(file: Id, size: nat, used: Option<nat>, listed: bool, rest: seq<Candidate>)

  /** stopped: workers whose context has been cancelled; their database writes fail.
      raced: the jobs whose status was ever overwritten under a worker that was not stopped,
      or set to running again, and their sizes; revived: those of the second kind. */
  datatype Cache = Cache(
    rows: Rows, workers: map<Id, Worker>, stopped: set<nat>, next: nat, cancels: map<Op, Cancel>,
    raced: map<Id, nat>, revived: set<Id>, lock: Option<Staging>)

  const EMPTY_CACHE: Cache := Cache(map[], map[], {}, 0, map[], map[], {}, None)

  /** Each event is one database query or write, or one critical section. Only staging calls
      exclude one another. SetStatus is an unconditional status write: ResumeStaged's for a
      job whose file is gone, or a client's progress report. */
  datatype Event =
    | BeginStage(file: Id, size: nat)
    | Measure
    | ListEvictable(list: seq<Candidate>)
    | Evict(done: bool)
    | Insert(id: Id, now: int)
    | AbandonStage
    | Resume(id: Id)
    | WorkerRegisters(id: Id)
    | WorkerStarts(id: Id)
    | WorkerPaths(id: Id)
    | WorkerStores(id: Id, expires: int)
    | WorkerReady(id: Id)
    | WorkerClears(id: Id)
    | WorkerFails(id: Id)
    | WorkerQuits(id: Id)
    | Lookup(op: Op, id: Id)
    | MarkCancelled(op: Op)
    | ClearPath(op: Op)
    | SetStatus(id: Id, status: Status)
    | DeleteRow(id: Id)
    | DeleteFile(id: Id)
    | ExpirePath(id: Id)
    | ExpireRow(id: Id)
    | Touch(id: Id, now: int)
    | Restart

  predicate InPhase(s: Cache, id: Id, phase: Phase) {
    id in s.workers && s.workers[id].At? && s.workers[id].phase == phase
  }

  predicate Stopped(s: Cache, id: Id) {
    id in s.workers && s.workers[id].At? && s.workers[id].wid in s.stopped
  }

  /** A worker past its start that may still write. */
  predicate Live(s: Cache, id: Id) {
    id in s.workers && s.workers[id].At? && s.workers[id].phase != Registered && s.workers[id].wid !in s.stopped
  }

  predicate NoActive(rows: Rows, file: Id) {
    forall k | k in rows && rows[k].file == Some(file) :: !Active(rows[k])
  }

  /** The measured bytes and the new file's fit under the limit. */
  predicate Fits(st: Staging, limit: nat) {
    st.used.Some? && st.used.value + st.size <= limit
  }

  ghost predicate StagingEnabled(s: Cache, limit: nat, e: Event) {
    match e
    case BeginStage(file, _) => s.lock.None? && NoActive(s.rows, file)
    case Measure => s.lock.Some? && s.lock.value.used.None?
    case ListEvictable(list) =>
      && s.lock.Some? && s.lock.value.used.Some? && !s.lock.value.listed && !Fits(s.lock.value, limit)
      && IsListing(s.rows, list)
    case Evict(_) => s.lock.Some? && s.lock.value.listed && s.lock.value.rest != [] && !Fits(s.lock.value, limit)
    case Insert(id, _) =>
      s.lock.Some? && Fits(s.lock.value, limit) && id !in s.rows && id !in s.workers && id !in s.raced
    case AbandonStage => s.lock.Some?
    case _ => true
  }

  ghost predicate Enabled(s: Cache, limit: nat, e: Event) {
    match e
    case Resume(id) => id !in s.workers
    case WorkerRegisters(id) => id in s.workers && s.workers[id].Scheduled?
    case WorkerStarts(id) => InPhase(s, id, Registered)
    case WorkerPaths(id) => InPhase(s, id, Started)
    case WorkerStores(id, _) => InPhase(s, id, Pathed)
    case WorkerReady(id) => InPhase(s, id, Stored)
    case WorkerClears(id) => id in s.workers && s.workers[id].At?
    case WorkerFails(id) => id in s.workers && s.workers[id].At?
    case WorkerQuits(id) => Stopped(s, id)
    case Lookup(op, _) => op !in s.cancels
    case MarkCancelled(op) => op in s.cancels && !s.cancels[op].marked
    case ClearPath(op) => op in s.cancels && s.cancels[op].marked
    case SetStatus(_, status) => status == Running || status == Complete || status == Failed || status == Cancelled
    case ExpirePath(id) => id in s.rows && (!Active(s.rows[id]) || id in s.revived)
    case ExpireRow(id) => id in s.rows && (!Active(s.rows[id]) || id in s.revived)
    case _ => StagingEnabled(s, limit, e)
  }

  // ------------------------------------------------------------ what an event does

  /** The job whose row an event updates, if any. */
  function Job(s: Cache, e: Event): Option<Id> {
    match e
    case WorkerStarts(id) => Some(id)
    case WorkerPaths(id) => Some(id)
    case WorkerStores(id, _) => Some(id)
    case WorkerReady(id) => Some(id)
    case WorkerClears(id) => Some(id)
    case WorkerFails(id) => Some(id)
    case MarkCancelled(op) => if op in s.cancels then Some(s.cancels[op].id) else None
    case ClearPath(op) => if op in s.cancels then Some(s.cancels[op].id) else None
    case SetStatus(id, _) => Some(id)
    case DeleteFile(id) => Some(id)
    case ExpirePath(id) => Some(id)
    case ExpireRow(id) => Some(id)
    case Touch(id, _) => Some(id)
    case _ => None
  }

  /** What an event makes of its job's row: an UPDATE, conditional where the code's is. A
      stopped worker's has no effect, but for those of a failure it had begun to record. */
  function Updated(s: Cache, e: Event, r: Row): Row {
    match e
    case WorkerStarts(id) => if !Stopped(s, id) && Active(r) then r.(status := Running) else r
    case WorkerPaths(id) => if Stopped(s, id) then r else r.(hasPath := true, expires := 0)
    case WorkerStores(id, expires) => if Stopped(s, id) then r else r.(hasPath := true, expires := expires)
    case WorkerReady(id) => if !Stopped(s, id) && r.status == Running then r.(status := Ready) else r
    case WorkerClears(id) => r.(hasPath := false, expires := 0)
    case WorkerFails(id) => if Active(r) then r.(status := Failed) else r
    case MarkCancelled(op) => if Active(r) || r.status == Ready then r.(status := Cancelled) else r
    case ClearPath(op) => r.(hasPath := false, expires := 0)
    case SetStatus(_, status) => r.(status := status)
    case DeleteFile(_) => r.(file := None)
    case ExpirePath(_) => r.(hasPath := false, expires := 0)
    case ExpireRow(_) => r.(status := Expired)
    case Touch(_, now) => r.(lastUsed := now)
    case _ => r
  }

  /** The candidate that makeRoomFor is about to delete. */
  function Due(s: Cache): Option<Candidate> {
    if s.lock.Some? && s.lock.value.rest != [] then Some(s.lock.value.rest[0]) else None
  }

  /** A row that is gone by then cannot be deleted any more: the DELETE reports an error. */
  predicate Evicts(s: Cache, e: Event) {
    e.Evict? && e.done && Due(s).Some? && Due(s).value.id in s.rows
  }

  function NextRows(s: Cache, e: Event): Rows {
    match e
    case Insert(id, now) =>
      if s.lock.Some? then s.rows[id := Row(Some(s.lock.value.file), s.lock.value.size, Pending, false, 0, now)] else s.rows
    case Evict(_) => if Evicts(s, e) then s.rows - {Due(s).value.id} else s.rows
    case DeleteRow(id) => s.rows - {id}
    case _ =>
      var j := Job(s, e);
      if j.Some? && j.value in s.rows then s.rows[j.value := Updated(s, e, s.rows[j.value])] else s.rows
  }

  /** makeRoomFor's own count and list. */
  ghost function NextLock(s: Cache, e: Event): Option<Staging> {
    match e
    case BeginStage(file, size) => Some(Staging(file, size, None, false, []))
    case Measure => if s.lock.Some? then Some(s.lock.value.(used := Some(Usage(s.rows)))) else None
    case ListEvictable(list) => if s.lock.Some? then Some(s.lock.value.(listed := true, rest := list)) else None
    case Evict(_) =>
      if Due(s).None? || s.lock.value.used.None? then s.lock
      else
        var used := s.lock.value.used.value;
        Some(s.lock.value.(used := Some(if Evicts(s, e) then Less(used, Due(s).value.size) else used),
                           rest := s.lock.value.rest[1..]))
    case Insert(_, _) => None
    case AbandonStage => None
    case Restart => None
    case _ => s.lock
  }

  /** A worker goes on to the next phase, or ends because its context or its row is gone. */
  function Moved(s: Cache, id: Id, phase: Phase, ok: bool): map<Id, Worker> {
    if id in s.workers && s.workers[id].At? && !Stopped(s, id) && ok then s.workers[id := s.workers[id].(phase := phase)]
    else s.workers - {id}
  }

  function NextWorkers(s: Cache, e: Event): map<Id, Worker> {
    match e
    case Insert(id, _) => s.workers[id := Scheduled]
    case Resume(id) => s.workers[id := Scheduled]
    case WorkerRegisters(id) => s.workers[id := At(Registered, s.next)]
    case WorkerStarts(id) => Moved(s, id, Started, id in s.rows && Active(s.rows[id]))
    case WorkerPaths(id) => Moved(s, id, Pathed, id in s.rows)
    case WorkerStores(id, _) => Moved(s, id, Stored, id in s.rows)
    case WorkerReady(id) => s.workers - {id}
    case WorkerFails(id) => s.workers - {id}
    case WorkerQuits(id) => s.workers - {id}
    case Restart => map[]
    case _ => s.workers
  }

  /** The lookup finds what the worker has registered, from its start to its end. */
  function NextStopped(s: Cache, e: Event): set<nat> {
    if e.Lookup? && e.id in s.workers && s.workers[e.id].At? then s.stopped + {s.workers[e.id].wid} else s.stopped
  }

  function NextCancels(s: Cache, e: Event): map<Op, Cancel> {
    match e
    case Lookup(op, id) => s.cancels[op := Cancel(id, s.next, false)]
    case MarkCancelled(op) => if op in s.cancels then s.cancels[op := s.cancels[op].(marked := true)] else s.cancels
    case Restart => map[]
    case _ => s.cancels
  }

  /** A write that sets a job to running that was not. */
  predicate Revives(s: Cache, e: Event) {
    e.SetStatus? && e.status == Running && e.id in s.rows && !Active(s.rows[e.id])
  }

  /** A write that takes a job's status away from its worker without stopping it, or gives
      the job a reservation again. */
  predicate Races(s: Cache, e: Event) {
    || Revives(s, e)
    || (&& ((e.MarkCancelled? && e.op in s.cancels) || (e.SetStatus? && e.status != Running))
        && Job(s, e).value in s.rows && Live(s, Job(s, e).value))
  }

  function NextRaced(s: Cache, e: Event): map<Id, nat> {
    if Races(s, e) then s.raced[Job(s, e).value := s.rows[Job(s, e).value].size] else s.raced
  }

  ghost function Next(s: Cache, e: Event): Cache {
    Cache(NextRows(s, e), NextWorkers(s, e), NextStopped(s, e), if e.WorkerRegisters? then s.next + 1 else s.next,
          NextCancels(s, e), NextRaced(s, e), if Revives(s, e) then s.revived + {e.id} else s.revived, NextLock(s, e))
  }

  /** What an event makes of one job's row: it goes only when it is deleted or evicted, each
      status is written by its own events alone, and only where the row's status allows it;
      the path and its expiry are stored and cleared together. */
  lemma JobAfter(s: Cache, limit: nat, e: Event, id: Id)
    requires Enabled(s, limit, e) && id in s.rows
    ensures var rows := Next(s, e).rows;
            && (id !in rows <==> e == DeleteRow(id) || (e.Evict? && e.done && s.lock.value.rest[0].id == id))
            && (id in rows ==> StatusWritten(s, e, id, s.rows[id].status, rows[id].status) && CopyWritten(s, e, id, s.rows[id], rows[id]))
  {
    RowIs(s, limit, e, id);
    if Job(s, e) == Some(id) {
      Writes(s, limit, e, id);
    } else {
      WritesNothing(s, limit, e, id);
    }
    assert Next(s, e).rows == NextRows(s, e);
    hide *;
  }

  lemma WritesNothing(s: Cache, limit: nat, e: Event, id: Id)
    requires Enabled(s, limit, e) && id in s.rows && Job(s, e) != Some(id)
    ensures StatusWritten(s, e, id, s.rows[id].status, s.rows[id].status) && CopyWritten(s, e, id, s.rows[id], s.rows[id])
  {
    hide Stopped, StagingEnabled;
  }

  lemma RowIs(s: Cache, limit: nat, e: Event, id: Id)
    requires Enabled(s, limit, e) && id in s.rows
    ensures var rows := NextRows(s, e);
            && (id !in rows <==> e == DeleteRow(id) || (e.Evict? && e.done && s.lock.value.rest[0].id == id))
            && (id in rows ==> rows[id] == if Job(s, e) == Some(id) then Updated(s, e, s.rows[id]) else s.rows[id])
  {
    hide Updated;
  }

  lemma Writes(s: Cache, limit: nat, e: Event, id: Id)
    requires Enabled(s, limit, e) && id in s.rows && Job(s, e) == Some(id)
    ensures StatusWritten(s, e, id, s.rows[id].status, Updated(s, e, s.rows[id]).status)
    ensures CopyWritten(s, e, id, s.rows[id], Updated(s, e, s.rows[id]))
  {
    hide Stopped, StagingEnabled;
  }

  predicate StatusWritten(s: Cache, e: Event, id: Id, was: Status, now: Status) {
    && (e.WorkerStarts? && e.id == id && !Stopped(s, id) && was in {Pending, Running} ==> now == Running)
    && (e.WorkerReady? && e.id == id && !Stopped(s, id) && was == Running ==> now == Ready)
    && (e.WorkerFails? && e.id == id && was in {Pending, Running} ==> now == Failed)
    && (e.MarkCancelled? && e.op in s.cancels && s.cancels[e.op].id == id && was in {Pending, Running, Ready} ==> now == Cancelled)
    && (e.SetStatus? && e.id == id ==> now == e.status)
    && (e.ExpireRow? && e.id == id ==> now == Expired)
    && (now != was ==>
          || (now == Running && was == Pending && e == WorkerStarts(id) && !Stopped(s, id))
          || (now == Ready && was == Running && e == WorkerReady(id) && !Stopped(s, id))
          || (now == Failed && was in {Pending, Running} && e == WorkerFails(id))
          || (now == Cancelled && was in {Pending, Running, Ready} && e.MarkCancelled? && e.op in s.cancels && s.cancels[e.op].id == id)
          || (now == Expired && e == ExpireRow(id))
          || e == SetStatus(id, now))
  }

  predicate CopyWritten(s: Cache, e: Event, id: Id, was: Row, now: Row) {
    && now.size == was.size
    && now.file == (if e == DeleteFile(id) then None else was.file)
    && now.lastUsed == (if e.Touch? && e.id == id then e.now else was.lastUsed)
    && (if (e.WorkerPaths? || e.WorkerStores?) && e.id == id && !Stopped(s, id) then
          now.hasPath && now.expires == if e.WorkerStores? then e.expires else 0
        else if e == WorkerClears(id) || e == ExpirePath(id) || (e.ClearPath? && e.op in s.cancels && s.cancels[e.op].id == id) then
          !now.hasPath && now.expires == 0
        else now.hasPath == was.hasPath && now.expires == was.expires)
  }

  /** A new job's row is pending, for the file that is being staged, and nothing else makes a
      row. */
  lemma NewJob(s: Cache, limit: nat, e: Event, id: Id)
    requires Enabled(s, limit, e) && id !in s.rows
    ensures id in Next(s, e).rows <==> e.Insert? && e.id == id
    ensures e.Insert? && e.id == id ==>
              Next(s, e).rows[id] == Row(Some(s.lock.value.file), s.lock.value.size, Pending, false, 0, e.now)
  {
  }

  // ------------------------------------------------------------ what every state keeps

  /** A registered worker belongs to a registration that has been; a live worker's row is
      running, gone, or was overwritten behind its back. */
  predicate WorkerOk(s: Cache, id: Id) {
    && (id in s.workers && s.workers[id].At? ==> s.workers[id].wid < s.next)
    && (Live(s, id) && id in s.rows ==> s.rows[id].status == Running || id in s.raced)
  }

  predicate OneActive(rows: Rows) {
    forall a, b | a in rows && b in rows && rows[a].file.Some? && rows[a].file == rows[b].file
                  && Active(rows[a]) && Active(rows[b]) :: a == b
  }

  ghost predicate JobsKept(s: Cache) {
    && (forall id :: WorkerOk(s, id))
    && s.revived <= s.raced.Keys && OneActive(s.rows - s.revived)
    && (s.lock.Some? ==> NoActive(s.rows - s.revived, s.lock.value.file))
  }

  /** A worker that had registered when a cancel looked for it is stopped. */
  predicate CancelOk(s: Cache, op: Op)
    requires op in s.cancels
  {
    var c := s.cancels[op];
    && c.since <= s.next
    && (c.id in s.workers && s.workers[c.id].At? && s.workers[c.id].wid < c.since ==> s.workers[c.id].wid in s.stopped)
  }

  predicate CancelsKept(s: Cache) {
    forall op | op in s.cancels :: CancelOk(s, op)
  }

  /** The rows that have not raced, and the jobs that have and whose rows are gone. */
  function Calm(s: Cache): Rows {
    s.rows - s.raced.Keys
  }

  function Lost(s: Cache): map<Id, nat> {
    s.raced - s.rows.Keys
  }

  /** What a count has to stand for while the listed rows are still to come: each listed row
      that is there with the size it was listed with, any other with what it takes up. */
  ghost function Claim(rows: Rows, list: seq<Candidate>): nat {
    if list == [] then Usage(rows)
    else if list[0].id in rows then list[0].size + Claim(rows - {list[0].id}, list[1..])
    else Claim(rows, list[1..])
  }

  predicate Sized(rows: Rows, list: seq<Candidate>) {
    forall c | c in list && c.id in rows :: c.size == rows[c.id].size
  }

  ghost predicate LockKept(s: Cache, st: Staging) {
    && (st.used.None? ==> !st.listed) && (!st.listed ==> st.rest == []) && Sized(s.rows, st.rest)
    && (st.used.Some? ==> Claim(Calm(s), st.rest) <= st.used.value + Total(Lost(s)))
  }

  ghost predicate RoomKept(s: Cache, limit: nat) {
    && Usage(Calm(s)) <= limit + Total(Lost(s))
    && (forall id | id in s.raced && id in s.rows :: s.raced[id] == s.rows[id].size)
    && (s.lock.Some? ==> LockKept(s, s.lock.value))
  }

  ghost predicate Kept(s: Cache, limit: nat) {
    JobsKept(s) && CancelsKept(s) && RoomKept(s, limit)
  }

  // ------------------------------------------------------------ usage and claims

  predicate Lighter(small: Rows, big: Rows) {
    forall k | k in small :: k in big && small[k].size == big[k].size && Weight(small[k]) <= Weight(big[k])
  }

  lemma LighterUsage(small: Rows, big: Rows)
    requires Lighter(small, big)
    ensures Usage(small) <= Usage(big)
  {
    TotalMore(Weights(small), Weights(big));
  }

  lemma {:induction false} LighterClaim(small: Rows, big: Rows, list: seq<Candidate>)
    requires Lighter(small, big)
    ensures Claim(small, list) <= Claim(big, list)
  {
    if list == [] {
      LighterUsage(small, big);
    } else if list[0].id in big {
      LighterClaim(small - {list[0].id}, big - {list[0].id}, list[1..]);
      assert list[0].id !in small ==> small - {list[0].id} == small;
    } else {
      LighterClaim(small, big, list[1..]);
    }
  }

  lemma {:induction false} ClaimCovers(rows: Rows, list: seq<Candidate>)
    requires Sized(rows, list)
    ensures Usage(rows) <= Claim(rows, list)
  {
    if list != [] {
      var k := list[0].id;
      if k in rows {
        ClaimCovers(rows - {k}, list[1..]);
        UsageSplit(rows, k);
        assert list[0] in list && Weight(rows[k]) <= list[0].size;
      } else {
        ClaimCovers(rows, list[1..]);
      }
      hide Usage;
    }
  }

  lemma {:induction false} ClaimOfCounted(rows: Rows, list: seq<Candidate>)
    requires forall c | c in list && c.id in rows :: c.size == Weight(rows[c.id])
    ensures Claim(rows, list) == Usage(rows)
  {
    if list != [] {
      var k := list[0].id;
      if k in rows {
        ClaimOfCounted(rows - {k}, list[1..]);
        UsageSplit(rows, k);
        assert list[0] in list;
      } else {
        ClaimOfCounted(rows, list[1..]);
      }
      hide Usage, Weight;
    }
  }

  /** Leaving a listed row where it is. */
  lemma {:induction false} ClaimSkip(rows: Rows, k: Id, list: seq<Candidate>)
    requires k in rows && Sized(rows, list)
    ensures Claim(rows, list) <= rows[k].size + Claim(rows - {k}, list)
  {
    if list == [] {
      UsageSplit(rows, k);
    } else {
      var j := list[0].id;
      assert list[0] in list;
      if j in rows && j != k {
        ClaimSkip(rows - {j}, k, list[1..]);
        assert rows - {j} - {k} == rows - {k} - {j};
      } else if j !in rows {
        ClaimSkip(rows, k, list[1..]);
      }
    }
  }

  // ------------------------------------------------------------ one event

  /** No event but an insertion brings a row in, and each changes at most its job's. */
  lemma RowAfter(s: Cache, e: Event, k: Id)
    requires (e.Insert? ==> e.id != k) && k in NextRows(s, e)
    ensures k in s.rows
    ensures NextRows(s, e)[k] == if Job(s, e) == Some(k) then Updated(s, e, s.rows[k]) else s.rows[k]
  {
    hide Updated;
  }

  lemma UpdatedLighter(s: Cache, limit: nat, e: Event, k: Id)
    requires WorkerOk(s, k) && s.revived <= s.raced.Keys && Enabled(s, limit, e)
    requires k in s.rows && Job(s, e) == Some(k)
    ensures Updated(s, e, s.rows[k]).size == s.rows[k].size
    ensures k !in NextRaced(s, e) ==> Weight(Updated(s, e, s.rows[k])) <= Weight(s.rows[k])
  {
    hide StagingEnabled;
  }

  lemma RacedAfter(s: Cache, e: Event, k: Id)
    requires k in s.raced
    ensures k in NextRaced(s, e) && (k !in s.rows ==> NextRaced(s, e)[k] == s.raced[k])
  {
    hide Updated, Live;
  }

  lemma StepLighter(s: Cache, limit: nat, e: Event)
    requires JobsKept(s) && Enabled(s, limit, e) && !e.Insert?
    ensures Lighter(Calm(Next(s, e)), Calm(s)) && NextRows(s, e).Keys <= s.rows.Keys
    ensures forall k | k in NextRows(s, e) :: NextRows(s, e)[k].size == s.rows[k].size
  {
    forall k | k in NextRows(s, e)
      ensures k in s.rows && NextRows(s, e)[k].size == s.rows[k].size
      ensures k !in NextRaced(s, e) ==> Weight(NextRows(s, e)[k]) <= Weight(s.rows[k])
    {
      RowAfter(s, e, k);
      assert WorkerOk(s, k);
      hide *;
      if Job(s, e) == Some(k) { UpdatedLighter(s, limit, e, k); }
    }
    forall k | k in s.raced ensures k in NextRaced(s, e) { RacedAfter(s, e, k); }
    hide NextRows, NextRaced, Enabled, JobsKept, Weight, NextLock, NextWorkers, NextStopped, NextCancels;
  }

  lemma StepLost(s: Cache, limit: nat, e: Event)
    requires Enabled(s, limit, e)
    ensures forall k | k in Lost(s) :: k in Lost(Next(s, e)) && Lost(Next(s, e))[k] == s.raced[k]
    ensures Total(Lost(s)) <= Total(Lost(Next(s, e)))
  {
    forall k | k in Lost(s) ensures k in NextRaced(s, e) && NextRaced(s, e)[k] == s.raced[k] && k !in NextRows(s, e) {
      RacedAfter(s, e, k);
      if !e.Insert? && k in NextRows(s, e) { RowAfter(s, e, k); }
      hide NextRaced, Updated;
    }
    hide Total, NextRows, NextRaced, NextLock, NextWorkers, NextStopped, NextCancels, Enabled;
    TotalMore(Lost(s), Lost(Next(s, e)));
  }

  lemma StepSizes(s: Cache, limit: nat, e: Event)
    requires JobsKept(s) && RoomKept(s, limit) && Enabled(s, limit, e)
    ensures forall id | id in Next(s, e).raced && id in Next(s, e).rows :: Next(s, e).raced[id] == Next(s, e).rows[id].size
  {
    if !e.Insert? {
      StepLighter(s, limit, e);
      hide NextRows, Lighter, Usage, Total, JobsKept, LockKept, NextLock;
    }
    hide Usage, Total, JobsKept, LockKept, NextLock;
  }

  lemma StepUsage(s: Cache, limit: nat, e: Event)
    requires JobsKept(s) && RoomKept(s, limit) && Enabled(s, limit, e)
    ensures Usage(Calm(Next(s, e))) <= limit + Total(Lost(Next(s, e)))
  {
    StepLost(s, limit, e);
    if e.Insert? {
      InsertFits(s, limit, e);
    } else {
      StepLighter(s, limit, e);
      hide Lighter, Usage, Total, Calm, Lost, JobsKept, LockKept, Next, Enabled;
      LighterUsage(Calm(Next(s, e)), Calm(s));
    }
  }

  lemma InsertFits(s: Cache, limit: nat, e: Event)
    requires RoomKept(s, limit) && Enabled(s, limit, e) && e.Insert?
    ensures Usage(Calm(Next(s, e))) <= limit + Total(Lost(s))
  {
    var st := s.lock.value;
    var row := Row(Some(st.file), st.size, Pending, false, 0, e.now);
    assert Calm(Next(s, e)) == Calm(s)[e.id := row] && e.id !in Calm(s);
    assert Sized(Calm(s), st.rest);
    hide Usage, Total, Claim, Next;
    ClaimCovers(Calm(s), st.rest);
    UsagePut(Calm(s), e.id, row);
  }

  lemma StepLock(s: Cache, limit: nat, e: Event)
    requires JobsKept(s) && RoomKept(s, limit) && Enabled(s, limit, e) && Next(s, e).lock.Some?
    ensures LockKept(Next(s, e), Next(s, e).lock.value)
  {
    match e
    case BeginStage(_, _) =>
    case Measure => MeasureKeeps(s);
    case ListEvictable(list) => ListKeeps(s, limit, list);
    case Evict(_) => EvictKeeps(s, limit, e);
    case Insert(_, _) =>
    case AbandonStage =>
    case Restart =>
    case _ => OtherKeeps(s, limit, e);
  }

  lemma MeasureKeeps(s: Cache)
    requires s.lock.Some? && s.lock.value.used.None? && LockKept(s, s.lock.value)
    ensures LockKept(Next(s, Measure), Next(s, Measure).lock.value)
  {
    var t := Next(s, Measure);
    assert t.rows == s.rows && t.raced == s.raced && t.lock.value.rest == [];
    hide Usage, Total, Next;
    LighterUsage(Calm(s), s.rows);
  }

  lemma ListKeeps(s: Cache, limit: nat, list: seq<Candidate>)
    requires s.lock.Some? && LockKept(s, s.lock.value) && Enabled(s, limit, ListEvictable(list))
    ensures LockKept(Next(s, ListEvictable(list)), Next(s, ListEvictable(list)).lock.value)
  {
    var t := Next(s, ListEvictable(list));
    assert t.rows == s.rows && t.raced == s.raced && t.lock.value.rest == list && s.lock.value.rest == [];
    assert forall c | c in list :: c.id in Ids(list);
    assert Claim(Calm(s), []) == Usage(Calm(s));
    hide Usage, Total, Claim, Next;
    ClaimOfCounted(Calm(s), list);
  }

  /** What the claim loses when a listed row is deleted; if the row had raced, the loss is
      booked instead. */
  lemma EvictedClaim(s: Cache, rows: Rows, list: seq<Candidate>)
    requires list != [] && Sized(s.rows, list) && rows == s.rows - {list[0].id} && list[0].id in s.rows
    requires forall id | id in s.raced && id in s.rows :: s.raced[id] == s.rows[id].size
    ensures var t := s.(rows := rows);
            Claim(Calm(t), list[1..]) + list[0].size + Total(Lost(s)) == Claim(Calm(s), list) + Total(Lost(t))
  {
    var t, c := s.(rows := rows), list[0];
    assert c in list;
    if c.id in s.raced {
      assert Calm(t) == Calm(s) && Lost(t) == Lost(s)[c.id := c.size];
      TotalSplit(Lost(t), c.id);
      assert Lost(t) - {c.id} == Lost(s);
    } else {
      assert Calm(t) == Calm(s) - {c.id} && Lost(t) == Lost(s);
    }
    hide Total, Usage;
  }

  lemma EvictKeeps(s: Cache, limit: nat, e: Event)
    requires RoomKept(s, limit) && s.lock.Some? && Enabled(s, limit, e) && e.Evict?
    ensures LockKept(Next(s, e), Next(s, e).lock.value)
  {
    var t, st := Next(s, e), s.lock.value;
    var c := st.rest[0];
    assert c in st.rest && t.raced == s.raced && t.lock.value.rest == st.rest[1..];
    if Evicts(s, e) {
      EvictedClaim(s, t.rows, st.rest);
      assert Calm(t) == Calm(s.(rows := t.rows)) && Lost(t) == Lost(s.(rows := t.rows));
    } else {
      assert t.rows == s.rows && Calm(t) == Calm(s) && Lost(t) == Lost(s);
      if c.id in Calm(s) { ClaimSkip(Calm(s), c.id, st.rest[1..]); }
    }
    hide Usage, Total, Next, Enabled, Calm, Lost;
  }

  lemma OtherKeeps(s: Cache, limit: nat, e: Event)
    requires JobsKept(s) && RoomKept(s, limit) && s.lock.Some? && Enabled(s, limit, e)
    requires !e.Insert? && Next(s, e).lock == s.lock
    ensures LockKept(Next(s, e), s.lock.value)
  {
    StepLost(s, limit, e);
    StepLighter(s, limit, e);
    assert Sized(Next(s, e).rows, s.lock.value.rest) by { hide Updated, Job, JobsKept, Usage, Total, Claim, Lost, Calm; }
    hide Lighter, Sized, Usage, Total, Calm, Lost, Claim, JobsKept, Next, Enabled;
    LighterClaim(Calm(Next(s, e)), Calm(s), s.lock.value.rest);
  }

  lemma StepRoom(s: Cache, limit: nat, e: Event)
    requires JobsKept(s) && RoomKept(s, limit) && Enabled(s, limit, e)
    ensures RoomKept(Next(s, e), limit)
  {
    hide JobsKept, LockKept, Usage, Total, Calm, Lost, Enabled, Next;
    StepUsage(s, limit, e);
    StepSizes(s, limit, e);
    if Next(s, e).lock.Some? { StepLock(s, limit, e); }
  }

  /** A worker comes to life by starting a row that is active. */
  lemma LiveBefore(s: Cache, limit: nat, e: Event, id: Id)
    requires Enabled(s, limit, e) && Live(Next(s, e), id)
    ensures Live(s, id) || (e == WorkerStarts(id) && !Stopped(s, id) && id in s.rows && Active(s.rows[id]))
    ensures !e.Insert? || e.id != id
    ensures e != WorkerReady(id) && e != WorkerFails(id) && !e.Restart?
  {
    hide NextRows, NextLock, NextCancels, NextRaced;
  }

  /** A write that does not race leaves a live worker's row running. */
  lemma StillRunning(s: Cache, limit: nat, e: Event, id: Id)
    requires s.revived <= s.raced.Keys && Enabled(s, limit, e) && id in s.rows && Job(s, e) == Some(id)
    requires id !in NextRaced(s, e) && e != WorkerReady(id) && e != WorkerFails(id)
    requires if e == WorkerStarts(id) then !Stopped(s, id) && Active(s.rows[id])
             else Live(s, id) && s.rows[id].status == Running
    ensures Updated(s, e, s.rows[id]).status == Running
  {
    hide StagingEnabled;
  }

  lemma StepWorker(s: Cache, limit: nat, e: Event, id: Id)
    requires WorkerOk(s, id) && s.revived <= s.raced.Keys && Enabled(s, limit, e)
    ensures WorkerOk(Next(s, e), id)
  {
    if Live(Next(s, e), id) && id in NextRows(s, e) && id !in NextRaced(s, e) {
      LiveBefore(s, limit, e, id);
      RowAfter(s, e, id);
      if id in s.raced { RacedAfter(s, e, id); }
      hide *;
      if Job(s, e) == Some(id) { StillRunning(s, limit, e, id); }
    }
    hide NextRows, NextLock, NextCancels, NextRaced;
  }

  lemma FewerActive(was: Rows, now: Rows)
    requires OneActive(was)
    requires forall k | k in now ::
               k in was && (now[k].file == None || now[k].file == was[k].file) && (Active(now[k]) ==> Active(was[k]))
    ensures OneActive(now) && forall file :: NoActive(was, file) ==> NoActive(now, file)
  {
    hide Active;
  }

  lemma StepOneActive(s: Cache, limit: nat, e: Event)
    requires JobsKept(s) && Enabled(s, limit, e)
    ensures OneActive(Next(s, e).rows - Next(s, e).revived)
    ensures Next(s, e).lock.Some? ==> NoActive(Next(s, e).rows - Next(s, e).revived, Next(s, e).lock.value.file)
  {
    var was, now := s.rows - s.revived, Next(s, e).rows - Next(s, e).revived;
    if e.Insert? {
      var row := Row(Some(s.lock.value.file), s.lock.value.size, Pending, false, 0, e.now);
      assert now == was[e.id := row] && Next(s, e).lock == None;
    } else {
      forall k | k in now
        ensures k in was && (now[k].file == None || now[k].file == was[k].file) && (Active(now[k]) ==> Active(was[k]))
      {
        OnlyRevived(s, limit, e, k);
      }
      FewerActive(was, now);
      assert e.BeginStage? ==> now == was && forall k | k in was :: was[k] == s.rows[k];
      hide NextRows, Active, OneActive;
    }
    hide WorkerOk, IsListing, Usage, NextWorkers, NextStopped, NextCancels, NextRaced;
  }

  lemma OnlyRevived(s: Cache, limit: nat, e: Event, k: Id)
    requires Enabled(s, limit, e) && !e.Insert? && k in NextRows(s, e) && k !in Next(s, e).revived
    ensures k in s.rows && (NextRows(s, e)[k].file == None || NextRows(s, e)[k].file == s.rows[k].file)
    ensures Active(NextRows(s, e)[k]) ==> Active(s.rows[k])
  {
    RowAfter(s, e, k);
    hide NextRows, NextLock, NextWorkers, NextRaced, NextCancels, NextStopped, StagingEnabled;
  }

  lemma WidAfter(s: Cache, e: Event, id: Id)
    requires id in NextWorkers(s, e) && NextWorkers(s, e)[id].At?
    ensures || (e == WorkerRegisters(id) && NextWorkers(s, e)[id].wid == s.next)
            || (id in s.workers && s.workers[id].At? && s.workers[id].wid == NextWorkers(s, e)[id].wid)
  {
    hide Stopped;
  }

  lemma StepCancel(s: Cache, limit: nat, e: Event, op: Op)
    requires Enabled(s, limit, e) && op in Next(s, e).cancels && (op in s.cancels ==> CancelOk(s, op))
    requires forall id :: WorkerOk(s, id)
    ensures CancelOk(Next(s, e), op)
  {
    var id := Next(s, e).cancels[op].id;
    assert WorkerOk(s, id);
    if id in NextWorkers(s, e) && NextWorkers(s, e)[id].At? { WidAfter(s, e, id); }
    hide NextWorkers, NextRows, NextLock, NextRaced, StagingEnabled, Revives;
  }

  lemma StepKept(s: Cache, limit: nat, e: Event)
    requires Kept(s, limit) && Enabled(s, limit, e)
    ensures Kept(Next(s, e), limit)
  {
    StepRoom(s, limit, e);
    StepOneActive(s, limit, e);
    forall id ensures WorkerOk(Next(s, e), id) { StepWorker(s, limit, e, id); }
    forall op | op in Next(s, e).cancels ensures CancelOk(Next(s, e), op) { StepCancel(s, limit, e, op); }
    hide RoomKept, WorkerOk, CancelOk, OneActive, NoActive, NextRows, NextLock, Enabled, NextWorkers, NextCancels, Usage;
  }

  // ------------------------------------------------------------ runs

  ghost predicate IsRun(s: Cache, limit: nat, events: seq<Event>)
    decreases |events|
  {
    events == [] || (Enabled(s, limit, events[0]) && IsRun(Next(s, events[0]), limit, events[1..]))
  }

  ghost function After(s: Cache, events: seq<Event>): Cache
    decreases |events|
  {
    if events == [] then s else After(Next(s, events[0]), events[1..])
  }

  lemma EmptyKept(limit: nat)
    ensures Kept(EMPTY_CACHE, limit)
  {
    var none: Rows := map[];
    assert Calm(EMPTY_CACHE) == none && Weights(none) == map[];
  }

  lemma {:induction false} RunKept(s: Cache, limit: nat, events: seq<Event>)
    requires Kept(s, limit) && IsRun(s, limit, events)
    ensures Kept(After(s, events), limit)
    decreases |events|
  {
    if events != [] {
      StepKept(s, limit, events[0]);
      hide Kept, Enabled, Next;
      RunKept(Next(s, events[0]), limit, events[1..]);
    }
  }

  /** What the rows that have raced take up is part of what has raced. */
  lemma RacedUsage(s: Cache)
    requires forall id | id in s.raced && id in s.rows :: s.raced[id] == s.rows[id].size
    ensures Usage(s.rows) + Total(Lost(s)) <= Usage(Calm(s)) + Total(s.raced)
  {
    hide Total;
    var w := Weights(s.rows);
    TotalParts(w, s.raced.Keys);
    TotalParts(s.raced, s.rows.Keys);
    assert w - s.raced.Keys == Weights(Calm(s));
    TotalMore(w - (w.Keys - s.raced.Keys), s.raced - (s.raced.Keys - s.rows.Keys));
  }

  /** With a fixed limit, after every interleaving of staging calls, worker writes,
      cancellation, status reports, expiry, deletion, eviction and restarts: no file is being
      staged twice at once, and usage exceeds the limit at most by the sizes of the jobs that
      have ever raced, evicted ones included. */
  lemma RunBounded(limit: nat, events: seq<Event>)
    requires IsRun(EMPTY_CACHE, limit, events)
    ensures var s := After(EMPTY_CACHE, events);
            OneActive(s.rows - s.revived) && Usage(s.rows) <= limit + Total(s.raced)
  {
    EmptyKept(limit);
    RunKept(EMPTY_CACHE, limit, events);
    hide Usage, Total, OneActive, IsRun, After, Calm, Lost, LockKept;
    RacedUsage(After(EMPTY_CACHE, events));
  }

  /** So a run in which no job races keeps the limit all along ... */
  lemma RunWithinLimit(limit: nat, events: seq<Event>)
    requires IsRun(EMPTY_CACHE, limit, events) && After(EMPTY_CACHE, events).raced == map[]
    ensures OneActive(After(EMPTY_CACHE, events).rows) && Usage(After(EMPTY_CACHE, events).rows) <= limit
  {
    EmptyKept(limit);
    RunKept(EMPTY_CACHE, limit, events);
    var s, none: map<Id, nat> := After(EMPTY_CACHE, events), map[];
    hide OneActive, IsRun, After, LockKept, Usage;
    assert s.revived == {} && s.rows - s.revived == s.rows && Calm(s) == s.rows && Lost(s) == none;
  }

  /** ... and a job comes to race exactly when a cancel whose lookup came before the present
      worker registered marks the row after that worker has started, when a status is
      reported over a live worker, or when a job that has ended is reported as running. */
  lemma RaceOpensIff(s: Cache, limit: nat, e: Event, id: Id)
    requires Kept(s, limit) && Enabled(s, limit, e) && id !in s.raced
    ensures id in Next(s, e).raced <==>
            && id in s.rows
            && (|| (&& e.MarkCancelled? && s.cancels[e.op].id == id && Live(s, id)
                    && s.cancels[e.op].since <= s.workers[id].wid)
                || (e.SetStatus? && e.id == id && if e.status == Running then !Active(s.rows[id]) else Live(s, id)))
  {
    assert e.MarkCancelled? ==> CancelOk(s, e.op);
    hide RoomKept, JobsKept, NextRows, NextWorkers, NextLock, StagingEnabled;
  }

  /** What has raced is never forgotten. */
  lemma {:induction false} RacedStays(s: Cache, events: seq<Event>, id: Id)
    requires id in s.raced
    ensures id in After(s, events).raced
    decreases |events|
  {
    if events != [] {
      RacedAfter(s, events[0], id);
      hide NextRaced;
      RacedStays(Next(s, events[0]), events[1..], id);
    }
  }

  /** A cancelled job is not revived: whatever its workers, sweeps and restarts still write,
      it stays cancelled or expired until its row is gone. */
  lemma {:induction false} CancelledStays(s: Cache, limit: nat, events: seq<Event>, id: Id)
    requires IsRun(s, limit, events)
    requires forall e | e in events :: !(e.SetStatus? && e.id == id) && !(e.Insert? && e.id == id)
    requires id in s.rows ==> s.rows[id].status == Cancelled || s.rows[id].status == Expired
    ensures id in After(s, events).rows ==>
              After(s, events).rows[id].status == Cancelled || After(s, events).rows[id].status == Expired
    decreases |events|
  {
    if events != [] {
      var e := events[0];
      assert e in events && forall d | d in events[1..] :: d in events;
      if id in NextRows(s, e) { RowAfter(s, e, id); }
      hide NextRows, Enabled, NextLock, NextWorkers, NextRaced, NextCancels;
      CancelledStays(Next(s, e), limit, events[1..], id);
    }
  }

  lemma {:induction false} RunAppend(s: Cache, limit: nat, a: seq<Event>, b: seq<Event>)
    requires IsRun(s, limit, a) && IsRun(After(s, a), limit, b)
    ensures IsRun(s, limit, a + b) && After(s, a + b) == After(After(s, a), b)
    decreases |a|
  {
    hide Enabled, Next;
    if a == [] {
      assert a + b == b;
    } else {
      RunAppend(Next(s, a[0]), limit, a[1..], b);
      assert (a + b)[0] == a[0] && (a + b)[1..] == a[1..] + b;
    }
  }

  function Evictions(n: nat): seq<Event> {
    seq(n, i => Evict(true))
  }

  /** With nothing in between, the events of an eviction do what MakeRoomFor does. */
  lemma {:induction false} EvictionsMakeRoom(s: Cache, limit: nat, n: nat)
    requires s.lock.Some? && s.lock.value.used.Some? && s.lock.value.listed && n <= |s.lock.value.rest|
    requires var st := s.lock.value;
             forall i | 0 <= i < n :: Spent(s.rows, st.used.value, st.rest[..i]) + st.size > limit
    ensures IsRun(s, limit, Evictions(n))
    ensures var st := s.lock.value;
            After(s, Evictions(n)) ==
            s.(rows := s.rows - Ids(st.rest[..n]),
               lock := Some(st.(used := Some(Spent(s.rows, st.used.value, st.rest[..n])), rest := st.rest[n..])))
  {
    var st := s.lock.value;
    if n == 0 {
      assert s.rows - Ids(st.rest[..0]) == s.rows && st.rest[0..] == st.rest;
    } else {
      EvictionsMakeRoom(s, limit, n - 1);
      NextSpent(s.rows, st.used.value, st.rest, n - 1);
      var was := After(s, Evictions(n - 1));
      EvictNext(was, limit);
      assert st.rest[n - 1..][0] == st.rest[n - 1] && st.rest[n - 1..][1..] == st.rest[n..];
      RunAppend(s, limit, Evictions(n - 1), [Evict(true)]);
      assert Evictions(n) == Evictions(n - 1) + [Evict(true)];
      hide Spent, Ids, IsRun, After, Enabled, Next;
    }
  }

  lemma EvictNext(s: Cache, limit: nat)
    requires s.lock.Some? && s.lock.value.used.Some? && s.lock.value.listed && s.lock.value.rest != []
    requires s.lock.value.used.value + s.lock.value.size > limit
    ensures IsRun(s, limit, [Evict(true)])
    ensures var st, c := s.lock.value, s.lock.value.rest[0];
            After(s, [Evict(true)]) ==
            if c.id in s.rows
            then s.(rows := s.rows - {c.id},
                    lock := Some(st.(used := Some(Less(st.used.value, c.size)), rest := st.rest[1..])))
            else s.(lock := Some(st.(rest := st.rest[1..])))
  {
    assert [Evict(true)][1..] == [];
  }

  // ------------------------------------------------------------ the bound is attained

  lemma RunFrom(s: Cache, limit: nat, events: seq<Event>, i: nat)
    requires i < |events| && Enabled(s, limit, events[i]) && IsRun(Next(s, events[i]), limit, events[i + 1..])
    ensures IsRun(s, limit, events[i..]) && After(s, events[i..]) == After(Next(s, events[i]), events[i + 1..])
  {
    hide Enabled, Next;
    assert events[i..][0] == events[i] && events[i..][1..] == events[i + 1..];
  }

  function NewRow(file: Id, size: nat): Row {
    Row(Some(file), size, Pending, false, 0, 0)
  }

  function Staged(s: Cache, id: Id, file: Id, size: nat): Cache {
    s.(rows := s.rows[id := NewRow(file, size)], workers := s.workers[id := Scheduled], lock := None)
  }

  /** A staging call that finds room without evicting anything. */
  function Stage(id: Id, file: Id, size: nat): seq<Event> {
    [BeginStage(file, size), Measure, Insert(id, 0)]
  }

  lemma StageRun(s: Cache, limit: nat, id: Id, file: Id, size: nat)
    requires s.lock.None? && NoActive(s.rows, file) && Usage(s.rows) + size <= limit
    requires id !in s.rows && id !in s.workers && id !in s.raced
    ensures IsRun(s, limit, Stage(id, file, size)) && After(s, Stage(id, file, size)) == Staged(s, id, file, size)
  {
    var begun := s.(lock := Some(Staging(file, size, None, false, [])));
    var measured := s.(lock := Some(Staging(file, size, Some(Usage(s.rows)), false, [])));
    hide Usage;
    var events := Stage(id, file, size);
    assert Next(s, events[0]) == begun && Next(begun, events[1]) == measured;
    assert Next(measured, events[2]) == Staged(s, id, file, size);
    RunFrom(measured, limit, events, 2);
    RunFrom(begun, limit, events, 1);
    RunFrom(s, limit, events, 0);
    assert events[0..] == events;
  }

  /** The lookup of a cancel, and then the worker that it has missed. */
  function Missed(id: Id): seq<Event> {
    [Lookup(0, id), WorkerRegisters(id), WorkerStarts(id)]
  }

  lemma MissedRun(s: Cache, limit: nat, id: Id)
    requires id in s.rows && s.rows[id].status == Pending && id in s.workers && s.workers[id] == Scheduled
    requires s.cancels == map[] && s.next !in s.stopped
    ensures IsRun(s, limit, Missed(id))
    ensures After(s, Missed(id)) ==
            s.(rows := s.rows[id := s.rows[id].(status := Running)], workers := s.workers[id := At(Started, s.next)],
               next := s.next + 1, cancels := s.cancels[0 := Cancel(id, s.next, false)])
  {
    var a := s.(cancels := s.cancels[0 := Cancel(id, s.next, false)]);
    var b := a.(workers := s.workers[id := At(Registered, s.next)], next := s.next + 1);
    var events := Missed(id);
    assert Next(s, events[0]) == a && Next(a, events[1]) == b;
    hide Usage, NoActive;
    RunFrom(b, limit, events, 2);
    RunFrom(a, limit, events, 1);
    RunFrom(s, limit, events, 0);
    assert events[0..] == events;
  }

  /** A whole worker, from its start to its end. */
  function WholeWorker(id: Id, expires: int): seq<Event> {
    [WorkerRegisters(id), WorkerStarts(id), WorkerPaths(id), WorkerStores(id, expires), WorkerReady(id)]
  }

  /** A worker that no one stops brings its job from pending to ready, with the copy kept until
      the given time, and is done. */
  lemma UndisturbedIsReady(s: Cache, limit: nat, id: Id, expires: int)
    requires id in s.rows && s.rows[id].status == Pending && id in s.workers && s.workers[id].Scheduled?
    requires s.next !in s.stopped
    ensures IsRun(s, limit, WholeWorker(id, expires))
    ensures After(s, WholeWorker(id, expires)) ==
            s.(rows := s.rows[id := s.rows[id].(status := Ready, hasPath := true, expires := expires)],
               workers := s.workers - {id}, next := s.next + 1)
  {
    var events := WholeWorker(id, expires);
    var a := s.(workers := s.workers[id := At(Registered, s.next)], next := s.next + 1);
    var b := WorkerAt(a, id, a.rows[id].(status := Running), Started);
    var c := WorkerAt(b, id, b.rows[id].(hasPath := true, expires := 0), Pathed);
    var d := WorkerAt(c, id, c.rows[id].(hasPath := true, expires := expires), Stored);
    FirstSteps(s, limit, id);
    LastSteps(b, limit, id, expires);
    var ready := Next(d, events[4]);
    assert ready == s.(rows := s.rows[id := s.rows[id].(status := Ready, hasPath := true, expires := expires)],
                       workers := s.workers - {id}, next := s.next + 1) by {
      hide Next, Enabled, IsRun, After;
    }
    assert IsRun(ready, limit, events[5..]) && After(ready, events[5..]) == ready by {
      hide Next, Enabled;
    }
    hide *;
    RunFrom(d, limit, events, 4);
    RunFrom(c, limit, events, 3);
    RunFrom(b, limit, events, 2);
    RunFrom(a, limit, events, 1);
    RunFrom(s, limit, events, 0);
    assert events[0..] == events;
  }

  lemma FirstSteps(s: Cache, limit: nat, id: Id)
    requires id in s.rows && s.rows[id].status == Pending && id in s.workers && s.workers[id].Scheduled?
    requires s.next !in s.stopped
    ensures var a := s.(workers := s.workers[id := At(Registered, s.next)], next := s.next + 1);
            && Enabled(s, limit, WorkerRegisters(id)) && Next(s, WorkerRegisters(id)) == a
            && Enabled(a, limit, WorkerStarts(id))
            && Next(a, WorkerStarts(id)) == WorkerAt(a, id, a.rows[id].(status := Running), Started)
  {
    hide Usage, NoActive;
  }

  lemma LastSteps(b: Cache, limit: nat, id: Id, expires: int)
    requires id in b.rows && b.rows[id].status == Running && InPhase(b, id, Started) && b.workers[id].wid !in b.stopped
    ensures var c := WorkerAt(b, id, b.rows[id].(hasPath := true, expires := 0), Pathed);
            var d := WorkerAt(c, id, c.rows[id].(hasPath := true, expires := expires), Stored);
            && Enabled(b, limit, WorkerPaths(id)) && Next(b, WorkerPaths(id)) == c
            && Enabled(c, limit, WorkerStores(id, expires)) && Next(c, WorkerStores(id, expires)) == d
            && Enabled(d, limit, WorkerReady(id))
            && Next(d, WorkerReady(id)) ==
               d.(rows := b.rows[id := b.rows[id].(status := Ready, hasPath := true, expires := expires)], workers := b.workers - {id})
  {
    hide Usage, NoActive;
    var c := WorkerAt(b, id, b.rows[id].(hasPath := true, expires := 0), Pathed);
    assert Next(b, WorkerPaths(id)) == c;
    assert WorkerAt(c, id, c.rows[id].(hasPath := true, expires := expires), Stored).workers - {id} == b.workers - {id};
  }

  function WorkerAt(s: Cache, id: Id, row: Row, phase: Phase): Cache
    requires id in s.workers && s.workers[id].At?
  {
    s.(rows := s.rows[id := row], workers := s.workers[id := s.workers[id].(phase := phase)])
  }

  /** The rest of that cancel, after the worker has started. */
  lemma MarkRun(s: Cache, limit: nat, id: Id)
    requires id in s.rows && s.rows[id].status == Running && Live(s, id)
    requires 0 in s.cancels && s.cancels[0].id == id && !s.cancels[0].marked
    ensures IsRun(s, limit, [MarkCancelled(0), ClearPath(0)])
    ensures After(s, [MarkCancelled(0), ClearPath(0)]) ==
            s.(rows := s.rows[id := s.rows[id].(status := Cancelled, hasPath := false, expires := 0)],
               cancels := s.cancels[0 := s.cancels[0].(marked := true)], raced := s.raced[id := s.rows[id].size])
  {
    var events := [MarkCancelled(0), ClearPath(0)];
    hide Usage, NoActive;
    RunFrom(Next(s, events[0]), limit, events, 1);
    RunFrom(s, limit, events, 0);
    assert events[0..] == events;
  }

  /** A job is staged and races. */
  function RacedJob(id: Id, file: Id, size: nat): seq<Event> {
    Stage(id, file, size) + (Missed(id) + [MarkCancelled(0), ClearPath(0)])
  }

  function RacedRow(file: Id, size: nat, hasPath: bool): Row {
    Row(Some(file), size, Cancelled, hasPath, 0, 0)
  }

  /** What is left of it: a row that takes up nothing, under a worker that goes on. */
  function AfterRace(s: Cache, id: Id, file: Id, size: nat): Cache {
    s.(rows := s.rows[id := RacedRow(file, size, false)], workers := s.workers[id := At(Started, s.next)], next := s.next + 1,
       cancels := s.cancels[0 := Cancel(id, s.next, true)], raced := s.raced[id := size], lock := None)
  }

  lemma PutTwice<K, V>(m: map<K, V>, k: K, a: V, b: V)
    ensures m[k := a][k := b] == m[k := b]
  {
  }

  lemma RacedJobRun(s: Cache, limit: nat, id: Id, file: Id, size: nat)
    requires s.lock.None? && NoActive(s.rows, file) && Usage(s.rows) + size <= limit
    requires id !in s.rows && id !in s.workers && id !in s.raced && s.cancels == map[] && s.next !in s.stopped
    ensures IsRun(s, limit, RacedJob(id, file, size)) && After(s, RacedJob(id, file, size)) == AfterRace(s, id, file, size)
  {
    hide IsRun, After, Usage, NoActive;
    StageRun(s, limit, id, file, size);
    var staged := Staged(s, id, file, size);
    MissedRun(staged, limit, id);
    var missed := After(staged, Missed(id));
    MarkRun(missed, limit, id);
    PutTwice(s.workers, id, Scheduled, At(Started, s.next));
    PutTwice(s.rows, id, NewRow(file, size), NewRow(file, size).(status := Running));
    PutTwice(s.rows, id, NewRow(file, size).(status := Running), RacedRow(file, size, false));
    PutTwice(s.cancels, 0, Cancel(id, s.next, false), Cancel(id, s.next, true));
    assert After(missed, [MarkCancelled(0), ClearPath(0)]) == AfterRace(s, id, file, size);
    hide *;
    RunAppend(staged, limit, Missed(id), [MarkCancelled(0), ClearPath(0)]);
    RunAppend(s, limit, Stage(id, file, size), Missed(id) + [MarkCancelled(0), ClearPath(0)]);
  }

  lemma OneRow(id: Id, row: Row)
    ensures Usage(map[id := row]) == Weight(row)
  {
    var none: Rows := map[];
    UsagePut(none, id, row);
    assert none[id := row] == map[id := row] && none - {id} == none && Weights(none) == map[];
  }

  lemma TwoRows(rows: Rows, j: Id, a: Row, k: Id, b: Row)
    requires j != k && rows == map[j := a, k := b]
    ensures Usage(rows) == Weight(a) + Weight(b)
  {
    OneRow(j, a);
    UsageSplit(rows, k);
    assert rows - {k} == map[j := a];
  }

  lemma OneRaced(id: Id, size: nat)
    ensures Total(map[id := size]) == size
  {
    TotalSplit(map[id := size], id);
    assert map[id := size] - {id} == map[];
  }

  /** a is cancelled by a call that looked before the worker had registered, b is staged into
      the room that seems free, and then a's worker goes on. */
  function LateRun(size: nat): seq<Event> {
    RacedJob("a", "f", size) + (Stage("b", "g", size) + [WorkerPaths("a")])
  }

  lemma LateRunEnds(size: nat)
    ensures IsRun(EMPTY_CACHE, size, LateRun(size))
    ensures var s := After(EMPTY_CACHE, LateRun(size));
            s.rows == map["a" := RacedRow("f", size, true), "b" := NewRow("g", size)] && s.raced == map["a" := size]
  {
    var raced := AfterRace(EMPTY_CACHE, "a", "f", size);
    var full := Staged(raced, "b", "g", size);
    hide IsRun, After, Usage;
    NoUsage();
    assert raced.rows == map["a" := RacedRow("f", size, false)];
    OneRow("a", RacedRow("f", size, false));
    RacedJobRun(EMPTY_CACHE, size, "a", "f", size);
    StageRun(raced, size, "b", "g", size);
    PathRun(full, size, "a", 0);
    RunAppend(raced, size, Stage("b", "g", size), [WorkerPaths("a")]);
    RunAppend(EMPTY_CACHE, size, RacedJob("a", "f", size), Stage("b", "g", size) + [WorkerPaths("a")]);
  }

  lemma NoUsage()
    ensures Usage(map[]) == 0
  {
    var none: Rows := map[];
    assert Weights(none) == map[];
  }

  /** A worker that was not stopped stores its path. */
  lemma PathRun(s: Cache, limit: nat, id: Id, wid: nat)
    requires id in s.rows && id in s.workers && s.workers[id] == At(Started, wid) && wid !in s.stopped
    ensures IsRun(s, limit, [WorkerPaths(id)])
    ensures After(s, [WorkerPaths(id)]) ==
            s.(rows := s.rows[id := s.rows[id].(hasPath := true, expires := 0)], workers := s.workers[id := At(Pathed, wid)])
  {
    assert [WorkerPaths(id)][1..] == [];
  }

  /** The bound is attained: twice the limit is in use, by a job that has raced and a new one. */
  lemma RaceExceedsLimit(size: nat)
    ensures IsRun(EMPTY_CACHE, size, LateRun(size))
    ensures var s := After(EMPTY_CACHE, LateRun(size)); Usage(s.rows) == size + Total(s.raced) == 2 * size
  {
    LateRunEnds(size);
    hide IsRun, After, Usage, Total;
    TwoRows(After(EMPTY_CACHE, LateRun(size)).rows, "a", RacedRow("f", size, true), "b", NewRow("g", size));
    OneRaced("a", size);
  }

  /** The same race, but the room for b is made by deleting a's row: a's worker stores its path
      after the usage has been measured and before the candidates are listed, so that its size
      is subtracted although it was never counted. */
  function EvictedRun(size: nat): seq<Event> {
    Stage("d", "h", size) + (RacedJob("a", "f", size) + (Measured(size) + Squeezed(size)))
  }

  function Measured(size: nat): seq<Event> {
    [BeginStage("g", 2 * size), Measure, WorkerPaths("a")]
  }

  function Squeezed(size: nat): seq<Event> {
    [ListEvictable([Candidate("a", size)]), Evict(true), Insert("b", 0)]
  }

  lemma MeasuredRun(s: Cache, size: nat)
    requires size > 0 && s.lock.None? && "a" in s.workers && s.workers["a"] == At(Started, 0) && s.stopped == {}
    requires s.rows == map["d" := NewRow("h", size), "a" := RacedRow("f", size, false)]
    ensures IsRun(s, 2 * size, Measured(size))
    ensures After(s, Measured(size)) ==
            s.(rows := map["d" := NewRow("h", size), "a" := RacedRow("f", size, true)], workers := s.workers["a" := At(Pathed, 0)],
               lock := Some(Staging("g", 2 * size, Some(size), false, [])))
  {
    var begun := s.(lock := Some(Staging("g", 2 * size, None, false, [])));
    var measured := s.(lock := Some(Staging("g", 2 * size, Some(size), false, [])));
    TwoRows(s.rows, "d", NewRow("h", size), "a", RacedRow("f", size, false));
    PathRun(measured, 2 * size, "a", 0);
    hide Usage, IsRun, After;
    assert s.rows["a" := RacedRow("f", size, true)] == map["d" := NewRow("h", size), "a" := RacedRow("f", size, true)];
    MeasureRun(s, begun, measured, 2 * size, "g", 2 * size);
    assert [BeginStage("g", 2 * size), Measure] + [WorkerPaths("a")] == Measured(size);
    hide *;
    RunAppend(s, 2 * size, [BeginStage("g", 2 * size), Measure], [WorkerPaths("a")]);
  }

  lemma MeasureRun(s: Cache, begun: Cache, measured: Cache, limit: nat, file: Id, size: nat)
    requires s.lock.None? && NoActive(s.rows, file)
    requires begun == s.(lock := Some(Staging(file, size, None, false, [])))
    requires measured == s.(lock := Some(Staging(file, size, Some(Usage(s.rows)), false, [])))
    ensures IsRun(s, limit, [BeginStage(file, size), Measure]) && After(s, [BeginStage(file, size), Measure]) == measured
  {
    hide Usage;
    var events := [BeginStage(file, size), Measure];
    assert Next(s, events[0]) == begun && Next(begun, events[1]) == measured;
    RunFrom(begun, limit, events, 1);
    RunFrom(s, limit, events, 0);
    assert events[0..] == events;
  }

  /** One candidate is listed, deleted, and its room taken. */
  lemma SqueezedRun(s: Cache, left: Rows, c: Candidate, limit: nat, id: Id)
    requires s.lock.Some? && !s.lock.value.listed && s.lock.value.used.Some?
    requires s.lock.value.used.value + s.lock.value.size > limit >= Less(s.lock.value.used.value, c.size) + s.lock.value.size
    requires IsListing(s.rows, [c]) && left == s.rows - {c.id} && id !in s.rows && id !in s.workers && id !in s.raced
    ensures IsRun(s, limit, [ListEvictable([c]), Evict(true), Insert(id, 0)])
    ensures var t := After(s, [ListEvictable([c]), Evict(true), Insert(id, 0)]);
            t.rows == left[id := NewRow(s.lock.value.file, s.lock.value.size)] && t.raced == s.raced
  {
    var events, st := [ListEvictable([c]), Evict(true), Insert(id, 0)], s.lock.value;
    var listed := s.(lock := Some(st.(listed := true, rest := [c])));
    var freed := Next(listed, Evict(true));
    assert c in [c] && Next(s, events[0]) == listed;
    assert freed.rows == left && freed.lock == Some(st.(used := Some(Less(st.used.value, c.size)), listed := true, rest := [c][1..]));
    assert freed.workers == s.workers && freed.raced == s.raced;
    hide Usage, IsListing;
    RunFrom(freed, limit, events, 2);
    RunFrom(listed, limit, events, 1);
    RunFrom(s, limit, events, 0);
    assert events[0..] == events;
  }

  lemma EvictedRunEnds(size: nat)
    requires size > 0
    ensures IsRun(EMPTY_CACHE, 2 * size, EvictedRun(size))
    ensures var s := After(EMPTY_CACHE, EvictedRun(size));
            s.rows == map["d" := NewRow("h", size), "b" := NewRow("g", 2 * size)] && s.raced == map["a" := size]
  {
    var staged := Staged(EMPTY_CACHE, "d", "h", size);
    var raced := AfterRace(staged, "a", "f", size);
    hide IsRun, After, Usage;
    NoUsage();
    assert staged.rows == map["d" := NewRow("h", size)];
    OneRow("d", NewRow("h", size));
    StageRun(EMPTY_CACHE, 2 * size, "d", "h", size);
    RacedJobRun(staged, 2 * size, "a", "f", size);
    MeasuredRun(raced, size);
    var measured := After(raced, Measured(size));
    SqueezedRun(measured, staged.rows, Candidate("a", size), 2 * size, "b");
    assert staged.rows["b" := NewRow("g", 2 * size)] == map["d" := NewRow("h", size), "b" := NewRow("g", 2 * size)];
    RunAppend(raced, 2 * size, Measured(size), Squeezed(size));
    RunAppend(staged, 2 * size, RacedJob("a", "f", size), Measured(size) + Squeezed(size));
    RunAppend(EMPTY_CACHE, 2 * size, Stage("d", "h", size), RacedJob("a", "f", size) + (Measured(size) + Squeezed(size)));
  }

  /** Three halves of the limit are in use, none of it by a job that has raced. */
  lemma EvictedRaceExceedsLimit(size: nat)
    requires size > 0
    ensures IsRun(EMPTY_CACHE, 2 * size, EvictedRun(size))
    ensures var s := After(EMPTY_CACHE, EvictedRun(size));
            Usage(s.rows) == 2 * size + Total(s.raced) == 3 * size && s.raced.Keys !! s.rows.Keys
  {
    EvictedRunEnds(size);
    hide IsRun, After, Usage, Total;
    TwoRows(After(EMPTY_CACHE, EvictedRun(size)).rows, "d", NewRow("h", size), "b", NewRow("g", 2 * size));
    OneRaced("a", size);
  }
}
