/** The concurrent chunk pipeline of one window: a pump, up to concurrency fetchers and one
    reader, in any interleaving (internal/reader/chunk.go). */
module ChunkPipe {
  import opened Chunks
  import opened Geometry
  import opened Text

  datatype Result = Data(data: Bytes) | Failure

  /** What is fixed for one window. */
  datatype Window = Window(doc: Bytes, start: int, end: int, plan: ChunkPlan, concurrency: nat, buffers: nat)

  predicate ValidWindow(w: Window) {
    IsPlan(w.plan, w.start, w.end) && w.concurrency >= 1 && w.buffers >= 1
  }

  /** held: the pump has a semaphore slot but has not published its future yet.
      issued: futures published; taken: futures the reader has received from the queue.
      flying: fetches holding a slot; done: results waiting in their futures.
      waiting: the reader holds future taken - 1 and waits for its result.
      out: bytes delivered; failed: some Read has returned an error. */
  datatype Pipe = Pipe(
    held: bool, issued: nat, taken: nat, flying: set<nat>, done: map<nat, Result>, waiting: bool,
    cur: Bytes, remain: int, out: Bytes, pumpDone: bool, cancelled: bool, failed: bool)

  datatype Event =
    | Acquire
    | Publish
    | PumpStops
    | PumpEnds
    | FetchDone(idx: nat)
    | FetchFails(idx: nat)
    | TakeFuture
    | Receive
    | ReadCancelled
    | ReadClosed
    | CopyOut(n: nat)
    | Close

  function Opened(w: Window): Pipe {
    Pipe(false, 0, 0, {}, map[], false, [], w.plan.length, [], false, false, false)
  }

  function Min(a: int, b: int): int {
    if a <= b then a else b
  }

  /** Source.Chunk returns doc[offset .. offset + limit], cut at the document's end. */
  function Fetched(w: Window, idx: int): Bytes {
    var from, to := Offset(w.plan, idx), Min(Offset(w.plan, idx) + w.plan.chunkSize, |w.doc|);
    if from < 0 || from > to then [] else w.doc[from..to]
  }

  /** A successful fetch; the first one has its head trimmed, or is too short for that. */
  function Trimmed(w: Window, idx: nat): Result {
    var data := Fetched(w, idx);
    if idx == 0 && w.plan.leftCut > 0 then
      if w.plan.leftCut >= |data| then Failure else Data(data[w.plan.leftCut..])
    else Data(data)
  }

  predicate Reading(s: Pipe) {
    s.remain > 0 && s.cur == [] && !s.waiting
  }

  predicate Enabled(w: Window, s: Pipe, e: Event) {
    match e
    case Acquire => !s.pumpDone && !s.held && s.issued < w.plan.count && |s.flying| < w.concurrency
    case Publish => !s.pumpDone && s.held && s.issued - s.taken < w.buffers
    case PumpStops => !s.pumpDone && s.cancelled
    case PumpEnds => !s.pumpDone && !s.held && s.issued >= w.plan.count
    case FetchDone(idx) => idx in s.flying
    case FetchFails(idx) => idx in s.flying
    case TakeFuture => Reading(s) && s.taken < s.issued
    case Receive => s.waiting && s.taken >= 1 && s.taken - 1 in s.done
    case ReadCancelled => s.cancelled && s.remain > 0 && s.cur == []
    case ReadClosed => Reading(s) && s.pumpDone && s.taken == s.issued
    case CopyOut(n) => s.remain > 0 && s.cur != [] && 1 <= n <= Min(|s.cur|, s.remain)
    case Close => true
  }

  function Next(w: Window, s: Pipe, e: Event): Pipe
    requires Enabled(w, s, e)
  {
    match e
    case Acquire => s.(held := true)
    case Publish => s.(held := false, issued := s.issued + 1, flying := s.flying + {s.issued})
    case PumpStops => s.(held := false, pumpDone := true)
    case PumpEnds => s.(pumpDone := true)
    case FetchDone(idx) =>
      var r := Trimmed(w, idx);
      s.(flying := s.flying - {idx}, done := s.done[idx := r], cancelled := s.cancelled || r.Failure?)
    case FetchFails(idx) => s.(flying := s.flying - {idx}, done := s.done[idx := Failure], cancelled := true)
    case TakeFuture => s.(taken := s.taken + 1, waiting := true)
    case Receive =>
      var r := s.done[s.taken - 1 as nat];
      if r.Failure? || r.data == [] then s.(waiting := false, failed := true)
      else s.(waiting := false, cur := r.data)
    case ReadCancelled => s.(waiting := false, failed := true)
    case ReadClosed => s.(failed := true)
    case CopyOut(n) =>
      var cur := if |s.cur| > s.remain then s.cur[..s.remain] else s.cur;
      s.(out := s.out + cur[..n], cur := cur[n..], remain := s.remain - n)
    case Close => s.(cancelled := true)
  }

  // ------------------------------------------------------------ what every state keeps

  /** Slots and queue: the semaphore and the channel's capacity are never exceeded. */
  predicate Bounded(w: Window, s: Pipe) {
    && |s.flying| + (if s.held then 1 else 0) <= w.concurrency
    && s.taken <= s.issued <= w.plan.count
    && s.issued - s.taken <= w.buffers
    && (s.held ==> !s.pumpDone && s.issued < w.plan.count)
    && (s.waiting ==> s.taken >= 1)
    && (forall i | i in s.flying :: i < s.issued && i !in s.done)
    && (forall i | i in s.done :: i < s.issued)
    && (forall i: nat | i < s.issued :: i in s.flying || i in s.done)
    && (s.pumpDone ==> s.issued == w.plan.count || s.cancelled)
  }

  /** How far the first k chunks reach into the document. */
  function Reach(w: Window, k: int): int {
    if k <= 0 then w.start else Min(Offset(w.plan, k), |w.doc|)
  }

  function Received(s: Pipe): int {
    if s.waiting then s.taken - 1 else s.taken
  }

  function Pos(w: Window, s: Pipe): int { w.start + |s.out| }

  /** Until a Read has failed, the delivered bytes are the range's own, in order. */
  predicate InOrder(w: Window, s: Pipe) {
    && |s.out| + s.remain == w.plan.length && s.remain >= 0
    && (s.waiting ==> s.cur == [] && s.remain > 0)
    && if |w.doc| < w.start || w.start < 0 then s.out == [] && s.cur == []
       else
         && Pos(w, s) + |s.cur| <= |w.doc|
         && s.out == w.doc[w.start..Pos(w, s)]
         && s.cur == w.doc[Pos(w, s)..Pos(w, s) + |s.cur|]
         && (|| Pos(w, s) + |s.cur| == Reach(w, Received(s))
             || (Pos(w, s) + |s.cur| == w.end + 1 && w.end + 1 <= Reach(w, Received(s))))
  }

  predicate TrueResults(w: Window, s: Pipe) {
    && (forall i | i in s.done && s.done[i].Data? :: s.done[i] == Trimmed(w, i))
    && (forall i | i in s.done && s.done[i].Failure? :: s.cancelled)
  }

  predicate Kept(w: Window, s: Pipe) {
    ValidWindow(w) && Bounded(w, s) && TrueResults(w, s) && (s.failed || InOrder(w, s))
  }

  lemma OpenedKept(w: Window)
    requires ValidWindow(w)
    ensures Kept(w, Opened(w))
  {
    FetchesCover(w.plan, w.start, w.end);
    if w.start <= |w.doc| { assert w.doc[w.start..w.start] == []; }
    hide IsPlan;
  }

  lemma StepBounded(w: Window, s: Pipe, e: Event)
    requires Bounded(w, s) && Enabled(w, s, e)
    ensures Bounded(w, Next(w, s, e))
  {
    if e.FetchDone? || e.FetchFails? {
      LandedStep(w, s, e);
      hide *;
      LandedBounded(w, s, Next(w, s, e), e.idx);
    } else if e.Publish? {
      PublishBounded(w, s);
    } else if e.Receive? || e.CopyOut? || e.ReadCancelled? || e.ReadClosed? {
      hide *;
    } else {
    }
  }

  /** Who does what: bytes are delivered by copying alone, and from the front of those at
      hand; a failed fetch and Close cancel for good; the pump is done once it has stopped or
      has published every chunk; a read answers with an error exactly when it is cancelled,
      finds the queue closed, or receives a failure or an empty chunk. */
  lemma NextEffects(w: Window, s: Pipe, e: Event)
    requires Bounded(w, s) && Enabled(w, s, e)
    ensures var t := Next(w, s, e);
            && t.out == (if e.CopyOut? then s.out + s.cur[..e.n] else s.out)
            && t.remain == (if e.CopyOut? then s.remain - e.n else s.remain)
            && (t.cancelled <==> s.cancelled || e.Close? || e.FetchFails? || (e.FetchDone? && Trimmed(w, e.idx).Failure?))
            && (t.pumpDone <==> s.pumpDone || e.PumpStops? || e.PumpEnds?) && (e.PumpStops? || e.PumpEnds? ==> !t.held)
            && (t.failed <==> s.failed || e.ReadCancelled? || e.ReadClosed?
                              || (e.Receive? && (s.done[s.taken - 1 as nat].Failure? || s.done[s.taken - 1 as nat].data == [])))
            && (t.waiting <==> (s.waiting && !e.Receive? && !e.ReadCancelled?) || e.TakeFuture?)
            && t.taken == s.taken + (if e.TakeFuture? then 1 else 0) && t.issued == s.issued + (if e.Publish? then 1 else 0)
            && (e.Receive? && !t.failed ==> t.cur == s.done[s.taken - 1 as nat].data)
            && (e.FetchDone? ==> t.done == s.done[e.idx := Trimmed(w, e.idx)])
            && (e.FetchFails? ==> t.done == s.done[e.idx := Failure])
            && (!e.FetchDone? && !e.FetchFails? ==> t.done == s.done)
  {
    hide Trimmed;
  }

  lemma PublishBounded(w: Window, s: Pipe)
    requires Bounded(w, s) && Enabled(w, s, Publish)
    ensures Bounded(w, Next(w, s, Publish))
  {
    var t := Next(w, s, Publish);
    assert s.issued !in s.flying;
    assert t.flying == s.flying + {s.issued} && |t.flying| == |s.flying| + 1;
  }

  lemma LandedStep(w: Window, s: Pipe, e: Event)
    requires Enabled(w, s, e) && (e.FetchDone? || e.FetchFails?)
    ensures var t := Next(w, s, e);
            && e.idx in s.flying && t.flying == s.flying - {e.idx} && t.done.Keys == s.done.Keys + {e.idx}
            && t.held == s.held && t.issued == s.issued && t.taken == s.taken && t.waiting == s.waiting && t.pumpDone == s.pumpDone
            && (s.cancelled ==> t.cancelled)
  {
    hide Trimmed;
  }

  lemma LandedBounded(w: Window, s: Pipe, t: Pipe, idx: nat)
    requires Bounded(w, s) && idx in s.flying
    requires t.flying == s.flying - {idx} && t.done.Keys == s.done.Keys + {idx}
    requires t.held == s.held && t.issued == s.issued && t.taken == s.taken && t.waiting == s.waiting && t.pumpDone == s.pumpDone
    requires s.cancelled ==> t.cancelled
    ensures Bounded(w, t)
  {
    assert |t.flying| == |s.flying| - 1;
    assert forall i | i in t.done :: i in t.done.Keys;
  }

  lemma StepResults(w: Window, s: Pipe, e: Event)
    requires TrueResults(w, s) && Enabled(w, s, e)
    ensures TrueResults(w, Next(w, s, e))
  {
    hide Trimmed;
  }

  /** The bytes of chunk k, when the previous chunks end at pos. */
  lemma ChunkData(w: Window, k: nat, pos: int)
    requires ValidWindow(w) && w.start <= |w.doc| && k < w.plan.count && pos == Reach(w, k)
    requires Trimmed(w, k).Data? && Trimmed(w, k).data != []
    ensures 0 <= pos < Reach(w, k + 1) <= |w.doc| && Trimmed(w, k).data == w.doc[pos..Reach(w, k + 1)]
  {
    FetchesCover(w.plan, w.start, w.end);
    FetchAligned(w.plan, w.start, w.end, k);
    NextOffset(w.plan, k);
    assert w.plan.chunkSize > 0 by { ChunksPerBlock(w.plan.chunkSize); }
    var from, to := Offset(w.plan, k), Min(Offset(w.plan, k) + w.plan.chunkSize, |w.doc|);
    hide IsPlan;
    if k == 0 && w.plan.leftCut > 0 {
      SliceOfSlice(w.doc, from, to, w.plan.leftCut, to - from);
    }
  }

  lemma NextOffset(p: ChunkPlan, k: int)
    ensures Offset(p, k + 1) == Offset(p, k) + p.chunkSize
  {
  }

  lemma StepInOrder(w: Window, s: Pipe, e: Event)
    requires Kept(w, s) && !s.failed && Enabled(w, s, e)
    ensures Next(w, s, e).failed || InOrder(w, Next(w, s, e))
  {
    hide ValidWindow, Trimmed, Offset;
    match e
    case Receive => ReceiveInOrder(w, s);
    case CopyOut(n) => CopyInOrder(w, s, n);
    case _ => hide Reach;
  }

  lemma ReceiveInOrder(w: Window, s: Pipe)
    requires Kept(w, s) && !s.failed && Enabled(w, s, Receive)
    ensures Next(w, s, Receive).failed || InOrder(w, Next(w, s, Receive))
  {
    var k: nat := s.taken - 1;
    var r := s.done[k];
    if r.Data? && r.data != [] {
      WindowEnd(w);
      assert r == Trimmed(w, k) && k < w.plan.count && s.waiting && InOrder(w, s) && ValidWindow(w);
      assert Next(w, s, Receive) == s.(waiting := false, cur := r.data);
      assert w.start <= |w.doc| ==> Pos(w, s) == Reach(w, k);
      hide *;
      if w.start <= |w.doc| {
        ChunkData(w, k, Pos(w, s));
        NewChunkInOrder(w, s, k, r.data);
      } else {
        NothingBeyond(w, k);
      }
    }
  }

  lemma NewChunkInOrder(w: Window, s: Pipe, k: nat, data: Bytes)
    requires InOrder(w, s) && s.waiting && k == s.taken - 1 && w.start >= 0 && w.start <= |w.doc|
    requires Pos(w, s) == Reach(w, k) && 0 <= Pos(w, s) < Reach(w, k + 1) <= |w.doc| && data == w.doc[Pos(w, s)..Reach(w, k + 1)]
    ensures InOrder(w, s.(waiting := false, cur := data))
  {
    hide Reach;
  }

  lemma WindowEnd(w: Window)
    requires ValidWindow(w)
    ensures w.plan.length == w.end - w.start + 1 && 0 <= w.start <= w.end
  {
  }

  /** A document that ends before the range has nothing to deliver. */
  lemma NothingBeyond(w: Window, k: nat)
    requires ValidWindow(w) && |w.doc| < w.start && k < w.plan.count
    ensures Trimmed(w, k).Failure? || Trimmed(w, k).data == []
  {
    FetchesCover(w.plan, w.start, w.end);
    FetchAligned(w.plan, w.start, w.end, k);
    ChunksPerBlock(w.plan.chunkSize);
    NextOffset(w.plan, 0);
    if k > 0 { LaterOffset(w.plan, k); }
    hide IsPlan;
  }

  lemma LaterOffset(p: ChunkPlan, k: nat)
    requires k >= 1 && p.chunkSize > 0
    ensures Offset(p, k) >= Offset(p, 1)
  {
    MulMono(1, k, p.chunkSize);
  }

  lemma CopyInOrder(w: Window, s: Pipe, n: nat)
    requires Kept(w, s) && !s.failed && Enabled(w, s, CopyOut(n))
    ensures InOrder(w, Next(w, s, CopyOut(n)))
  {
    WindowEnd(w);
    var size := Min(|s.cur|, s.remain);
    assert InOrder(w, s) && 0 <= w.start <= |w.doc| && n <= size && s.remain > 0;
    assert (if |s.cur| > s.remain then s.cur[..s.remain] else s.cur) == s.cur[..size];
    assert Next(w, s, CopyOut(n)) == s.(out := s.out + s.cur[..size][..n], cur := s.cur[..size][n..], remain := s.remain - n);
    hide *;
    CopyFrom(w, s, n, size);
  }

  lemma CopyFrom(w: Window, s: Pipe, n: nat, size: int)
    requires InOrder(w, s) && 0 <= w.start <= |w.doc| && w.plan.length == w.end - w.start + 1
    requires n <= size && s.remain > 0 && s.cur != [] && size == if |s.cur| <= s.remain then |s.cur| else s.remain
    ensures InOrder(w, s.(out := s.out + s.cur[..size][..n], cur := s.cur[..size][n..], remain := s.remain - n))
  {
    MoveBytes(w.doc, w.start, Pos(w, s), Pos(w, s) + |s.cur|, size, n);
    hide Reach;
  }

  lemma MoveBytes(doc: Bytes, a: int, b: int, c: int, size: int, n: int)
    requires 0 <= a <= b <= c <= |doc| && 0 <= n <= size <= c - b
    ensures doc[a..b] + doc[b..c][..size][..n] == doc[a..b + n]
    ensures doc[b..c][..size][n..] == doc[b + n..b + size]
  {
    SliceOfSlice(doc, b, c, 0, size);
    SliceOfSlice(doc, b, b + size, 0, n);
    SliceOfSlice(doc, b, b + size, n, size);
    Adjacent(doc, a, b, b + n);
    assert doc[b..c][..size] == doc[b..c][0..size] && doc[b..b + size][..n] == doc[b..b + size][0..n];
    assert doc[b..b + size][n..] == doc[b..b + size][n..size];
  }

  /** Whatever the interleaving, the next step keeps all of it. */
  lemma StepKept(w: Window, s: Pipe, e: Event)
    requires Kept(w, s) && Enabled(w, s, e)
    ensures Kept(w, Next(w, s, e))
  {
    StepBounded(w, s, e);
    StepResults(w, s, e);
    if s.failed {
      assert Next(w, s, e).failed;
    } else {
      StepInOrder(w, s, e);
    }
    hide ValidWindow, Bounded, TrueResults, InOrder;
  }

  // ------------------------------------------------------------ runs

  predicate IsRun(w: Window, s: Pipe, events: seq<Event>)
    decreases |events|
  {
    events == [] || (Enabled(w, s, events[0]) && IsRun(w, Next(w, s, events[0]), events[1..]))
  }

  function After(w: Window, s: Pipe, events: seq<Event>): Pipe
    requires IsRun(w, s, events)
    decreases |events|
  {
    if events == [] then s else After(w, Next(w, s, events[0]), events[1..])
  }

  lemma {:induction false} RunKept(w: Window, s: Pipe, events: seq<Event>)
    requires Kept(w, s) && IsRun(w, s, events)
    ensures Kept(w, After(w, s, events))
    decreases |events|
  {
    if events != [] {
      StepKept(w, s, events[0]);
      hide Kept, Enabled, Next;
      RunKept(w, Next(w, s, events[0]), events[1..]);
    }
  }

  /** Every run of issuing, completing, failing, reading and closing: at most concurrency
      slots are in use, at most buffers futures wait, and until a Read fails the bytes
      delivered are a prefix of the range. */
  lemma DeliversPrefix(w: Window, events: seq<Event>)
    requires ValidWindow(w) && IsRun(w, Opened(w), events)
    ensures var s := After(w, Opened(w), events);
            && |s.flying| + (if s.held then 1 else 0) <= w.concurrency
            && 0 <= s.issued - s.taken <= w.buffers
            && (!s.failed ==>
                  && |s.out| + s.remain == w.end - w.start + 1
                  && (s.out == [] || (w.start + |s.out| <= |w.doc| && s.out == w.doc[w.start..w.start + |s.out|])))
  {
    OpenedKept(w);
    RunKept(w, Opened(w), events);
    WindowEnd(w);
    hide IsRun, After, ValidWindow, TrueResults;
  }

  // ------------------------------------------------------------ progress

  /** Everything but a failing fetch and giving up. */
  predicate IsProgress(e: Event) {
    !e.FetchFails? && !e.Close? && !e.PumpStops? && !e.ReadCancelled?
  }

  /** What is left to do, counted in steps. */
  function Work(w: Window, s: Pipe): int {
    6 * (w.plan.count - s.issued) - (if s.held then 1 else 0) + |s.flying| + 2 * (s.issued - s.taken)
    + (if s.waiting then 1 else 0) + s.remain + (if s.pumpDone then 0 else 1)
  }

  /** While nothing has failed and bytes are owed, somebody can move. */
  lemma SomeStepEnabled(w: Window, s: Pipe) returns (e: Event)
    requires Kept(w, s) && !s.failed && !s.cancelled && s.remain > 0 && w.end < |w.doc|
    ensures IsProgress(e) && Enabled(w, s, e)
  {
    if s.cur != [] {
      e := CopyOut(1);
    } else if s.waiting {
      e := if s.taken - 1 in s.done then Receive else FetchDone(s.taken - 1);
      assert s.taken - 1 in s.flying || s.taken - 1 in s.done;
    } else if s.taken < s.issued {
      e := TakeFuture;
    } else if s.issued < w.plan.count {
      e := if s.held then Publish else if s.flying == {} then Acquire else FetchDone(Oldest(s.flying));
    } else {
      AllReceived(w, s);
      e := Close;
    }
  }

  ghost function Oldest(s: set<nat>): nat
    requires s != {}
    ensures Oldest(s) in s
  {
    var i :| i in s; i
  }

  /** The chunks of the plan together reach the end of the range. */
  lemma AllReceived(w: Window, s: Pipe)
    requires Kept(w, s) && !s.failed && w.end < |w.doc| && s.cur == [] && !s.waiting && s.taken == w.plan.count
    ensures s.remain <= 0
  {
    FetchesCover(w.plan, w.start, w.end);
    WindowEnd(w);
    hide IsPlan, Bounded, TrueResults, Offset;
  }

  /** And every such step leaves less to do. */
  lemma StepDoesWork(w: Window, s: Pipe, e: Event)
    requires Kept(w, s) && Enabled(w, s, e) && IsProgress(e)
    ensures Next(w, s, e).failed || (0 <= Work(w, Next(w, s, e)) < Work(w, s))
  {
    StepKept(w, s, e);
    assert s.issued !in s.flying;
    hide *;
    WorkNatural(w, Next(w, s, e));
    StepLowersWork(w, s, e);
  }

  lemma StepLowersWork(w: Window, s: Pipe, e: Event)
    requires Enabled(w, s, e) && IsProgress(e) && s.issued !in s.flying
    ensures Next(w, s, e).failed || Work(w, Next(w, s, e)) < Work(w, s)
  {
    hide Trimmed;
    if e.Publish? {
      assert |Next(w, s, e).flying| == |s.flying| + 1;
    } else if e.FetchDone? {
      assert |Next(w, s, e).flying| == |s.flying| - 1;
    }
  }

  lemma WorkNatural(w: Window, s: Pipe)
    requires Kept(w, s)
    ensures s.failed || Work(w, s) >= 0
  {
    hide Reach, Trimmed, TrueResults;
  }

  /** Left alone, with a document that holds the range, nothing fails. */
  lemma NothingFails(w: Window, s: Pipe, e: Event)
    requires Kept(w, s) && !s.failed && !s.cancelled && w.end < |w.doc| && Enabled(w, s, e) && IsProgress(e)
    ensures !Next(w, s, e).failed && !Next(w, s, e).cancelled
  {
    assert ValidWindow(w) && s.issued <= w.plan.count;
    if e.FetchDone? {
      assert e.idx < w.plan.count;
      ChunkHolds(w, e.idx);
      hide Trimmed, Kept, ValidWindow;
    } else if e.Receive? {
      ReceiveWorks(w, s);
    } else if e.ReadClosed? {
      AllReceived(w, s);
    } else {
      hide Trimmed, Kept, ValidWindow;
    }
  }

  lemma ReceiveWorks(w: Window, s: Pipe)
    requires Kept(w, s) && !s.failed && !s.cancelled && w.end < |w.doc| && Enabled(w, s, Receive)
    ensures !Next(w, s, Receive).failed && !Next(w, s, Receive).cancelled
  {
    var k: nat := s.taken - 1;
    assert ValidWindow(w) && k < w.plan.count && s.done[k] == Trimmed(w, k);
    hide *;
    ChunkHolds(w, k);
  }

  lemma ChunkHolds(w: Window, k: nat)
    requires ValidWindow(w) && w.end < |w.doc| && k < w.plan.count
    ensures Trimmed(w, k).Data? && Trimmed(w, k).data != []
  {
    FetchesCover(w.plan, w.start, w.end);
    FetchAligned(w.plan, w.start, w.end, k);
    ChunksPerBlock(w.plan.chunkSize);
    MulMono(k, w.plan.count - 1, w.plan.chunkSize);
    hide IsPlan;
  }

  predicate AllProgress(events: seq<Event>) {
    forall e | e in events :: IsProgress(e)
  }

  lemma {:induction false} ProgressRun(w: Window, s: Pipe, events: seq<Event>)
    requires Kept(w, s) && !s.failed && !s.cancelled && w.end < |w.doc| && IsRun(w, s, events) && AllProgress(events)
    ensures var t := After(w, s, events);
            Kept(w, t) && !t.failed && !t.cancelled && |events| <= Work(w, s) - Work(w, t)
    decreases |events|
  {
    if events != [] {
      var t := Next(w, s, events[0]);
      StepKept(w, s, events[0]);
      NothingFails(w, s, events[0]);
      StepDoesWork(w, s, events[0]);
      hide Kept, Enabled, Next, IsProgress, Work;
      ProgressRun(w, t, events[1..]);
    }
  }

  /** Without failures the pipeline never stalls, takes a bounded number of steps, and
      stops only when it has delivered the whole range. */
  lemma DeliversAll(w: Window, events: seq<Event>)
    requires ValidWindow(w) && w.end < |w.doc| && IsRun(w, Opened(w), events) && AllProgress(events)
    ensures |events| <= Work(w, Opened(w))
    ensures var s := After(w, Opened(w), events);
            || (s.remain == 0 && s.out == w.doc[w.start..w.end + 1])
            || exists e :: IsProgress(e) && Enabled(w, s, e)
  {
    OpenedKept(w);
    ProgressRun(w, Opened(w), events);
    var s := After(w, Opened(w), events);
    WorkNatural(w, s);
    WindowEnd(w);
    hide IsRun, After, Work, IsProgress, ValidWindow, Bounded, TrueResults;
    assert InOrder(w, s);
    if s.remain > 0 {
      var e := SomeStepEnabled(w, s);
    }
  }

  /** After an error the guarantee ends: the future of the failed chunk is gone, so a
      reader that reads on gets the next chunk's bytes in its place. */
  lemma ErrorSkipsChunk(w: Window) returns (events: seq<Event>)
    requires ValidWindow(w) && w.plan.count >= 2 && w.concurrency >= 2 && w.buffers >= 2 && w.end < |w.doc|
    ensures IsRun(w, Opened(w), events)
    ensures var s := After(w, Opened(w), events);
            s.failed && 0 <= Offset(w.plan, 1) < |w.doc| && s.out == [w.doc[Offset(w.plan, 1)]]
  {
    ChunkHolds(w, 1);
    ChunkData(w, 1, Reach(w, 1));
    FetchesCover(w.plan, w.start, w.end);
    MulMono(1, w.plan.count - 1, w.plan.chunkSize);
    var data := Trimmed(w, 1).data;
    assert data == w.doc[Offset(w.plan, 1)..Reach(w, 2)];
    assert w.plan.length > 0 && Trimmed(w, 1).Data? && data != [] && data[0] == w.doc[Offset(w.plan, 1)];
    hide Trimmed, Offset, ValidWindow, Reach;
    var s0 := Opened(w);
    var s4 := s0.(issued := 2, flying := {0, 1});
    var start := [Acquire, Publish, Acquire, Publish];
    FirstFour(w);
    var s6 := s4.(flying := {}, done := map[1 := Trimmed(w, 1), 0 := Failure], cancelled := true);
    FourMore(w, s4);
    LastThree(w, s6.(taken := 1, failed := true), data);
    RunJoin(w, s0, start, [FetchDone(1), FetchFails(0), TakeFuture, Receive]);
    RunJoin(w, s0, start + [FetchDone(1), FetchFails(0), TakeFuture, Receive], [TakeFuture, Receive, CopyOut(1)]);
    events := start + [FetchDone(1), FetchFails(0), TakeFuture, Receive] + [TakeFuture, Receive, CopyOut(1)];
  }

  lemma RunOne(w: Window, s: Pipe, e: Event, rest: seq<Event>)
    requires Enabled(w, s, e) && IsRun(w, Next(w, s, e), rest)
    ensures IsRun(w, s, [e] + rest) && After(w, s, [e] + rest) == After(w, Next(w, s, e), rest)
  {
    assert ([e] + rest)[1..] == rest;
  }

  lemma {:induction false} RunJoin(w: Window, s: Pipe, run: seq<Event>, more: seq<Event>)
    requires IsRun(w, s, run) && IsRun(w, After(w, s, run), more)
    ensures IsRun(w, s, run + more) && After(w, s, run + more) == After(w, After(w, s, run), more)
    decreases |run|
  {
    hide Enabled, Next;
    if run == [] {
      assert run + more == more;
    } else {
      assert (run + more)[0] == run[0] && (run + more)[1..] == run[1..] + more;
      RunJoin(w, Next(w, s, run[0]), run[1..], more);
    }
  }

  lemma FirstFour(w: Window)
    requires w.plan.count >= 2 && w.concurrency >= 2 && w.buffers >= 2
    ensures IsRun(w, Opened(w), [Acquire, Publish, Acquire, Publish])
    ensures After(w, Opened(w), [Acquire, Publish, Acquire, Publish]) == Opened(w).(issued := 2, flying := {0, 1})
  {
    var s0 := Opened(w);
    var s1 := Next(w, s0, Acquire);
    var s2 := Next(w, s1, Publish);
    assert s2.flying == {0} && |s2.flying| == 1;
    var s3 := Next(w, s2, Acquire);
    var s4 := Next(w, s3, Publish);
    assert s4 == s0.(issued := 2, flying := {0, 1});
    hide Enabled, Next;
    RunOne(w, s3, Publish, []);
    RunOne(w, s2, Acquire, [Publish]);
    RunOne(w, s1, Publish, [Acquire, Publish]);
    RunOne(w, s0, Acquire, [Publish, Acquire, Publish]);
    assert [Acquire] + [Publish, Acquire, Publish] == [Acquire, Publish, Acquire, Publish];
    assert [Publish] + [Acquire, Publish] == [Publish, Acquire, Publish] && [Acquire] + [Publish] == [Acquire, Publish];
  }

  lemma FourMore(w: Window, s: Pipe)
    requires s == Opened(w).(issued := 2, flying := {0, 1}) && w.plan.length > 0 && Trimmed(w, 1).Data?
    ensures var run := [FetchDone(1), FetchFails(0), TakeFuture, Receive];
            && IsRun(w, s, run)
            && After(w, s, run) == s.(flying := {}, done := map[1 := Trimmed(w, 1), 0 := Failure], cancelled := true, taken := 1, failed := true)
  {
    hide Trimmed;
    var s1 := Next(w, s, FetchDone(1));
    assert s1.flying == {0} && s1.done == map[1 := Trimmed(w, 1)];
    var s2 := Next(w, s1, FetchFails(0));
    var s3 := Next(w, s2, TakeFuture);
    var s4 := Next(w, s3, Receive);
    assert s4 == s.(flying := {}, done := map[1 := Trimmed(w, 1), 0 := Failure], cancelled := true, taken := 1, failed := true);
    hide Enabled, Next;
    RunOne(w, s3, Receive, []);
    RunOne(w, s2, TakeFuture, [Receive]);
    RunOne(w, s1, FetchFails(0), [TakeFuture, Receive]);
    RunOne(w, s, FetchDone(1), [FetchFails(0), TakeFuture, Receive]);
    assert [FetchDone(1)] + [FetchFails(0), TakeFuture, Receive] == [FetchDone(1), FetchFails(0), TakeFuture, Receive];
    assert [FetchFails(0)] + [TakeFuture, Receive] == [FetchFails(0), TakeFuture, Receive] && [TakeFuture] + [Receive] == [TakeFuture, Receive];
  }

  lemma LastThree(w: Window, s: Pipe, data: Bytes)
    requires s.remain > 0 && s.cur == [] && !s.waiting && s.taken == 1 && s.issued == 2 && s.out == [] && s.failed
    requires 1 in s.done && s.done[1] == Data(data) && data != []
    ensures var run := [TakeFuture, Receive, CopyOut(1)];
            IsRun(w, s, run) && After(w, s, run).out == [data[0]] && After(w, s, run).failed
  {
    var s1 := Next(w, s, TakeFuture);
    var s2 := Next(w, s1, Receive);
    var s3 := Next(w, s2, CopyOut(1));
    assert s3.out == [data[0]] && s3.failed;
    hide Enabled, Next;
    RunOne(w, s2, CopyOut(1), []);
    RunOne(w, s1, Receive, [CopyOut(1)]);
    RunOne(w, s, TakeFuture, [Receive, CopyOut(1)]);
    assert [TakeFuture] + [Receive, CopyOut(1)] == [TakeFuture, Receive, CopyOut(1)] && [Receive] + [CopyOut(1)] == [Receive, CopyOut(1)];
  }
}
