/** Upload jobs: a bitset over 1-based segment indices, the bytes it stands for, and the
    conditional status transitions (internal/database/models.go, jobs.go). */
module UploadJob {
  import opened Geometry

  type Mask = seq<bv8>

  /** 1 << k. */
  function Bit(k: nat): bv8
    requires k < 8
  {
    if k == 0 then 1 else if k == 1 then 2 else if k == 2 then 4 else if k == 3 then 8
    else if k == 4 then 16 else if k == 5 then 32 else if k == 6 then 64 else 128
  }

  lemma BitApart(a: nat, b: nat)
    requires a < 8 && b < 8
    ensures Bit(a) & Bit(b) == if a == b then Bit(a) else 0
    ensures Bit(a) != 0
  {
  }

  predicate HasBit(m: bv8, k: nat)
    requires k < 8
  {
    m & Bit(k) != 0
  }

  /** Setting one bit of a byte sets that bit and no other. */
  lemma BitSet(m: bv8, a: nat, b: nat)
    requires a < 8 && b < 8
    ensures HasBit(m | Bit(a), b) <==> HasBit(m, b) || a == b
    ensures !HasBit(0, b)
  {
    BitApart(a, b);
    BitApart(b, b);
  }

  predicate MaskHas(mask: Mask, idx: int) {
    idx >= 1 && (idx - 1) / 8 < |mask| && HasBit(mask[(idx - 1) / 8], (idx - 1) % 8)
  }

  function Zeros(n: nat): (r: Mask)
    ensures |r| == n && forall k | 0 <= k < n :: r[k] == 0
  {
    if n == 0 then [] else Zeros(n - 1) + [0]
  }

  /** NewMask: nothing is done yet. */
  function NewMask(n: int): Mask {
    if n <= 0 then [] else Zeros((n + 7) / 8)
  }

  lemma NewMaskEmpty(n: int, idx: int)
    ensures !MaskHas(NewMask(n), idx)
  {
    if idx >= 1 { BitSet(0, 0, (idx - 1) % 8); }
    hide HasBit;
  }

  function MaskWith(mask: Mask, idx: int): Mask {
    if idx < 1 then mask
    else
      var b := (idx - 1) / 8;
      var grown := if |mask| <= b then mask + Zeros(b + 1 - |mask|) else mask;
      grown[b := grown[b] | Bit((idx - 1) % 8)]
  }

  /** Exactly one index is added, whatever the mask's length. */
  lemma MaskWithHas(mask: Mask, idx: int, j: int)
    requires idx >= 1
    ensures MaskHas(MaskWith(mask, idx), j) <==> MaskHas(mask, j) || j == idx
  {
    if j >= 1 {
      IndexSplit(idx, j);
      hide HasBit, Bit;
      ByteWithHas(mask, (idx - 1) / 8, (idx - 1) % 8, (j - 1) / 8, (j - 1) % 8);
    }
  }

  lemma ByteWithHas(mask: Mask, b: nat, k: nat, c: nat, l: nat)
    requires k < 8 && l < 8
    ensures var grown := if |mask| <= b then mask + Zeros(b + 1 - |mask|) else mask;
            var out := grown[b := grown[b] | Bit(k)];
            c < |out| && HasBit(out[c], l) <==> (c < |mask| && HasBit(mask[c], l)) || (b == c && k == l)
  {
    var grown := if |mask| <= b then mask + Zeros(b + 1 - |mask|) else mask;
    BitSet(grown[b], k, l);
    BitSet(0, k, l);
    hide HasBit, Bit;
  }

  lemma IndexSplit(i: int, j: int)
    requires i >= 1 && j >= 1
    ensures i == j <==> (i - 1) / 8 == (j - 1) / 8 && (i - 1) % 8 == (j - 1) % 8
  {
  }

  /** MaskSet, growing the bitset byte by byte. */
  method MaskSet(mask: Mask, idx: int) returns (out: Mask)
    ensures out == MaskWith(mask, idx)
    ensures forall j :: MaskHas(out, j) <==> MaskHas(mask, j) || (idx >= 1 && j == idx)
  {
    if idx < 1 {
      return mask;
    }
    forall j ensures MaskHas(MaskWith(mask, idx), j) <==> MaskHas(mask, j) || j == idx { MaskWithHas(mask, idx, j); }
    hide MaskHas, Bit;
    var b := (idx - 1) / 8;
    out := mask;
    while |out| <= b
      invariant |out| >= |mask| && (|out| <= b + 1 || out == mask)
      invariant out == mask + Zeros(|out| - |mask|)
      decreases b - |out|
    {
      out := out + [0];
    }
    out := out[b := out[b] | Bit((idx - 1) % 8)];
  }

  /** Every index up to count is set. */
  predicate AllSet(mask: Mask, count: int) {
    forall i | 1 <= i <= count :: MaskHas(mask, i)
  }

  method Done(mask: Mask, count: int) returns (done: bool)
    ensures done <==> AllSet(mask, count)
  {
    var i := 1;
    while i <= count
      invariant i >= 1 && forall k | 1 <= k < i :: MaskHas(mask, k)
    {
      if !MaskHas(mask, i) {
        return false;
      }
      i := i + 1;
    }
    done := true;
  }

  /** PendingSegments: what is left to upload, in order. */
  method PendingSegments(mask: Mask, count: int) returns (out: seq<int>)
    ensures forall i :: i in out <==> 1 <= i <= count && !MaskHas(mask, i)
    ensures forall a, b | 0 <= a < b < |out| :: out[a] < out[b]
    ensures out == [] <==> AllSet(mask, count)
  {
    out := [];
    hide MaskHas;
    var i := 1;
    while i <= count
      invariant 1 <= i && (i <= count + 1 || out == [])
      invariant forall k | k in out :: 1 <= k < i && !MaskHas(mask, k)
      invariant forall k | 1 <= k < i && !MaskHas(mask, k) :: k in out
      invariant forall a, b | 0 <= a < b < |out| :: out[a] < out[b]
    {
      if !MaskHas(mask, i) {
        assert forall a | 0 <= a < |out| :: out[a] in out;
        out := out + [i];
      }
      i := i + 1;
    }
    if out == [] {
      assert AllSet(mask, count);
    } else {
      assert out[0] in out;
      assert !AllSet(mask, count);
    }
  }

  // ------------------------------------------------------------ the job

  datatype JobStatus = JobPending | JobRunning | JobComplete | JobFailed | JobCancelled {
    predicate Aborted() { JobFailed? || JobCancelled? }
  }

  datatype Job = Job(size: int, segmentSize: int, count: int, mask: Mask, uploaded: int, status: JobStatus)

  /** Begin's job: the geometry of the file, nothing landed. */
  function Begun(size: int, segmentSize: int): Job
    requires segmentSize > 0
  {
    Job(size, segmentSize, SegmentCount(size, segmentSize), NewMask(SegmentCount(size, segmentSize)), 0, JobPending)
  }

  /** MarkSegmentDone, one transaction; an aborted job is left alone. */
  function Marked(job: Job, idx: int, bytes: int): Job {
    if job.status.Aborted() then job
    else
      var mask := if MaskHas(job.mask, idx) then job.mask else MaskWith(job.mask, idx);
      job.(mask := mask,
           uploaded := job.uploaded + (if MaskHas(job.mask, idx) then 0 else bytes),
           status := if AllSet(mask, job.count) then JobComplete else JobRunning)
  }

  /** SetJobStatusIf. */
  function SetIf(job: Job, status: JobStatus, from: set<JobStatus>): Job {
    if job.status in from then job.(status := status) else job
  }

  /** Bytes of the segments up to n whose bit is set. */
  function BytesSet(job: Job, n: int): int {
    if n <= 0 then 0
    else BytesSet(job, n - 1) + if MaskHas(job.mask, n) then SegmentSize(job.size, job.segmentSize, n) else 0
  }

  /** What a landed segment may do: its index is in range and its length is the
      segment's own, as PutSegment checks. */
  datatype Event = Land(idx: int) | Start | Abort(status: JobStatus)

  predicate Enabled(job: Job, e: Event) {
    match e
    case Land(idx) => 1 <= idx <= job.count
    case Start => true
    case Abort(status) => status.Aborted()
  }

  /** Conditional transitions only: a transfer starts and aborts from pending or running. */
  function Next(job: Job, e: Event): Job {
    match e
    case Land(idx) => Marked(job, idx, SegmentSize(job.size, job.segmentSize, idx))
    case Start => SetIf(job, JobRunning, {JobPending, JobRunning})
    case Abort(status) => SetIf(job, status, {JobPending, JobRunning})
  }

  predicate Kept(job: Job) {
    && job.segmentSize > 0 && job.size >= 0 && job.count == SegmentCount(job.size, job.segmentSize)
    && job.uploaded == BytesSet(job, job.count)
    && (!job.status.Aborted() ==> (job.status == JobComplete <==> AllSet(job.mask, job.count)))
  }

  lemma {:induction false} SameBitsSameBytes(a: Job, b: Job, n: nat)
    requires a.size == b.size && a.segmentSize == b.segmentSize
    requires forall i | 1 <= i <= n :: MaskHas(a.mask, i) <==> MaskHas(b.mask, i)
    ensures BytesSet(a, n) == BytesSet(b, n)
  {
    hide MaskHas;
    if n > 0 { SameBitsSameBytes(a, b, n - 1); }
  }

  lemma {:induction false} OneMoreBit(a: Job, b: Job, idx: int, n: nat)
    requires a.size == b.size && a.segmentSize == b.segmentSize && 1 <= idx <= n && !MaskHas(a.mask, idx)
    requires forall i :: MaskHas(b.mask, i) <==> MaskHas(a.mask, i) || i == idx
    ensures BytesSet(b, n) == BytesSet(a, n) + SegmentSize(a.size, a.segmentSize, idx)
  {
    hide MaskHas, SegmentSize;
    if idx == n {
      SameBitsSameBytes(a, b, n - 1);
    } else {
      OneMoreBit(a, b, idx, n - 1);
    }
  }

  lemma StepKept(job: Job, e: Event)
    requires Kept(job) && Enabled(job, e)
    ensures Kept(Next(job, e))
  {
    var after := Next(job, e);
    if e.Land? && !job.status.Aborted() && !MaskHas(job.mask, e.idx) {
      forall j ensures MaskHas(after.mask, j) <==> MaskHas(job.mask, j) || j == e.idx { MaskWithHas(job.mask, e.idx, j); }
      OneMoreBit(job, after, e.idx, job.count);
    } else {
      hide MaskHas;
      SameBitsSameBytes(job, after, job.count);
    }
    hide MaskHas, MaskWith, SegmentSize;
  }

  predicate IsRun(job: Job, events: seq<Event>)
    decreases |events|
  {
    events == [] || (Enabled(job, events[0]) && IsRun(Next(job, events[0]), events[1..]))
  }

  function After(job: Job, events: seq<Event>): Job
    decreases |events|
  {
    if events == [] then job else After(Next(job, events[0]), events[1..])
  }

  lemma BegunKept(size: int, segmentSize: int)
    requires segmentSize > 0 && size >= 0
    ensures Kept(Begun(size, segmentSize))
  {
    var job := Begun(size, segmentSize);
    forall i ensures !MaskHas(job.mask, i) { NewMaskEmpty(job.count, i); }
    hide MaskHas;
    NothingSet(job, job.count);
    assert !MaskHas(job.mask, 1);
  }

  lemma {:induction false} NothingSet(job: Job, n: nat)
    requires forall i :: !MaskHas(job.mask, i)
    ensures BytesSet(job, n) == 0
  {
    if n > 0 { NothingSet(job, n - 1); }
  }

  lemma {:induction false} RunKept(job: Job, events: seq<Event>)
    requires Kept(job) && IsRun(job, events)
    ensures Kept(After(job, events))
    ensures After(job, events).size == job.size && After(job, events).count == job.count
            && After(job, events).segmentSize == job.segmentSize
    decreases |events|
  {
    if events != [] {
      StepKept(job, events[0]);
      assert Next(job, events[0]).size == job.size && Next(job, events[0]).count == job.count
             && Next(job, events[0]).segmentSize == job.segmentSize;
      hide Kept, Enabled, Next;
      RunKept(Next(job, events[0]), events[1..]);
    }
  }

  /** All bits stand for the whole file, fewer for less. */
  lemma {:induction false} BytesOfBits(job: Job, n: nat)
    requires job.segmentSize > 0 && job.size > 0 && n <= SegmentCount(job.size, job.segmentSize)
    ensures 0 <= BytesSet(job, n) <= SizeOfFirst(job.size, job.segmentSize, n)
    ensures BytesSet(job, n) == SizeOfFirst(job.size, job.segmentSize, n) <==> AllSet(job.mask, n)
  {
    hide MaskHas;
    if n > 0 {
      BytesOfBits(job, n - 1);
      SegmentsTile(job.size, job.segmentSize, n);
    }
  }

  /** In any order, with any repetition and any aborts: the uploaded bytes are those of the
      landed segments, counted once; a non-empty job that was not aborted is complete
      exactly when all segments have landed, which is exactly when all bytes are up. */
  lemma CompleteIffAll(size: int, segmentSize: int, events: seq<Event>)
    requires segmentSize > 0 && size > 0 && IsRun(Begun(size, segmentSize), events)
    ensures var job := After(Begun(size, segmentSize), events);
            && job.uploaded == BytesSet(job, job.count)
            && 0 <= job.uploaded <= size
            && (job.uploaded == size <==> AllSet(job.mask, job.count))
            && (!job.status.Aborted() ==> (job.status == JobComplete <==> AllSet(job.mask, job.count)))
  {
    BegunKept(size, segmentSize);
    RunKept(Begun(size, segmentSize), events);
    var job := After(Begun(size, segmentSize), events);
    hide After, IsRun, MaskHas, AllSet;
    BytesOfBits(job, job.count);
    SegmentsTile(size, segmentSize, job.count);
  }

  /** A job that is under way can be started and aborted, and a segment that lands is marked. */
  lemma EventTakes(job: Job, e: Event)
    requires Enabled(job, e) && (job.status == JobPending || job.status == JobRunning)
    ensures e.Start? ==> Next(job, e) == job.(status := JobRunning)
    ensures e.Abort? ==> Next(job, e) == job.(status := e.status)
    ensures e.Land? ==> MaskHas(Next(job, e).mask, e.idx) && Next(job, e).status == if AllSet(Next(job, e).mask, job.count) then JobComplete else JobRunning
  {
    if e.Land? && !MaskHas(job.mask, e.idx) { MaskWithHas(job.mask, e.idx, e.idx); }
    hide MaskHas, MaskWith, AllSet;
  }

  /** An aborted job stays as it is. */
  lemma {:induction false} AbortedStays(job: Job, events: seq<Event>)
    requires job.status.Aborted() && IsRun(job, events)
    ensures After(job, events) == job
    decreases |events|
  {
    if events != [] {
      AbortedStays(job, events[1..]);
    }
  }

  // ------------------------------------------------------------ the row

  class JobRow {
    var job: Job

    constructor (job: Job)
      ensures this.job == job
    {
      this.job := job;
    }

    method MarkSegmentDone(idx: int, bytes: int) returns (ok: bool)
      modifies this
      ensures job == Marked(old(job), idx, bytes)
      ensures ok <==> !old(job).status.Aborted()
      ensures !ok ==> job == old(job)
      ensures ok ==> forall j :: MaskHas(job.mask, j) <==> MaskHas(old(job).mask, j) || (idx >= 1 && j == idx)
      ensures ok ==> job.uploaded == old(job).uploaded + if MaskHas(old(job).mask, idx) then 0 else bytes
      ensures ok ==> job.status == if AllSet(job.mask, job.count) then JobComplete else JobRunning
      ensures ok ==> job.size == old(job).size && job.segmentSize == old(job).segmentSize && job.count == old(job).count
    {
      if job.status.Aborted() {
        return false;
      }
      var mask, uploaded := job.mask, job.uploaded;
      if !MaskHas(mask, idx) {
        mask := MaskSet(mask, idx);
        uploaded := uploaded + bytes;
      }
      var status := JobRunning;
      var done := Done(mask, job.count);
      if done {
        status := JobComplete;
      }
      job := job.(mask := mask, uploaded := uploaded, status := status);
      ok := true;
    }

    method SetStatusIf(status: JobStatus, from: set<JobStatus>) returns (applied: bool)
      modifies this
      ensures job == SetIf(old(job), status, from) && (applied <==> old(job).status in from)
      ensures job == if applied then old(job).(status := status) else old(job)
    {
      applied := job.status in from;
      if applied {
        job := job.(status := status);
      }
    }
  }
}
