/** One segmented file as a seekable stream (internal/reader/reader.go, chunk.go). */
module Reader {
  import opened Chunks
  import opened ChunkPipe
  import opened Geometry

  datatype Status = More | Eof | Broken

  const INITIAL_WINDOW := 1048576
  const MAX_WINDOW := 33554432
  const CONCURRENCY := 6
  const BUFFERS := 8

  // ------------------------------------------------------------ what the reader sees of the pipeline

  /** The reading end: chunks received, the bytes at hand, the bytes owed, and whether an
      error was returned. */
  datatype Reading = Reading(next: int, cur: Bytes, remain: int, dead: bool)

  function ReadingOf(s: Pipe): Reading {
    Reading(Received(s), s.cur, s.remain, s.failed)
  }

  /** The next chunk arrives, in order and as the plan has it. */
  predicate ChunkArrives(w: Window, a: Reading, b: Reading)
    requires ValidWindow(w)
  {
    && a.cur == [] && 0 <= a.next < w.plan.count
    && Trimmed(w, a.next).Data? && b == a.(next := a.next + 1, cur := Trimmed(w, a.next).data)
  }

  predicate ErrorArrives(a: Reading, b: Reading) {
    a.cur == [] && b.cur == [] && b.dead && b.remain == a.remain
  }

  predicate BytesLeave(a: Reading, b: Reading) {
    exists n :: 1 <= n <= |Owed(a)| && b == a.(cur := Owed(a)[n..], remain := a.remain - n)
  }

  function Owed(a: Reading): Bytes {
    if |a.cur| > a.remain >= 0 then a.cur[..a.remain] else a.cur
  }

  predicate ReadingStep(w: Window, a: Reading, b: Reading)
    requires ValidWindow(w)
  {
    !a.dead && a.remain > 0 && (ChunkArrives(w, a, b) || ErrorArrives(a, b) || BytesLeave(a, b))
  }

  /** Whatever the pump and the fetchers do, the reading end sees nothing or takes one step
      of the sequential reader: the concurrent pipeline refines it. */
  lemma PipeRefinesReader(w: Window, s: Pipe, e: Event)
    requires Kept(w, s) && ChunkPipe.Enabled(w, s, e) && !s.failed
    ensures ReadingOf(ChunkPipe.Next(w, s, e)) == ReadingOf(s) || ReadingStep(w, ReadingOf(s), ReadingOf(ChunkPipe.Next(w, s, e)))
  {
    var a, b := ReadingOf(s), ReadingOf(ChunkPipe.Next(w, s, e));
    hide Trimmed, Reach, IsPlan;
    match e
    case Receive =>
      assert Received(s) == s.taken - 1;
      assert b.dead || ChunkArrives(w, a, b);
    case CopyOut(n) =>
      assert b == a.(cur := Owed(a)[n..], remain := a.remain - n);
    case _ =>
  }

  /** The offset in the segment of the next byte to deliver. */
  function AtOf(w: Window, a: Reading): int {
    w.end + 1 - a.remain
  }

  /** The bytes at hand are the document's own, from the next byte on, as far as the chunks
      received reach or the window does. */
  predicate ReadingOk(w: Window, a: Reading) {
    && ValidWindow(w) && w.end < |w.doc|
    && (!a.dead ==>
          && 0 <= a.next <= w.plan.count && 0 <= a.remain <= w.end - w.start + 1
          && var at := AtOf(w, a);
          && at + |a.cur| <= |w.doc| && a.cur == w.doc[at..at + |a.cur|]
          && (at + |a.cur| == Reach(w, a.next) || (at + |a.cur| == w.end + 1 && w.end + 1 <= Reach(w, a.next))))
  }

  /** While bytes are owed and none are at hand, not all chunks have been taken. */
  lemma NotAllTaken(w: Window, a: Reading)
    requires ReadingOk(w, a) && !a.dead && a.remain > 0 && a.cur == []
    ensures a.next < w.plan.count && AtOf(w, a) == Reach(w, a.next)
  {
    FetchesCover(w.plan, w.start, w.end);
  }

  lemma NextChunk(w: Window, next: nat, at: int)
    requires ValidWindow(w) && w.end < |w.doc| && next < w.plan.count && at == Reach(w, next)
    ensures Trimmed(w, next).Data? && Trimmed(w, next).data != []
    ensures 0 <= at < Reach(w, next + 1) <= |w.doc| && Trimmed(w, next).data == w.doc[at..Reach(w, next + 1)]
  {
    hide *;
    WindowEnd(w);
    ChunkHolds(w, next);
    ChunkData(w, next, at);
  }

  lemma ChunkKeepsOk(w: Window, a: Reading, b: Reading)
    requires ReadingOk(w, a) && !a.dead && a.remain > 0 && ChunkArrives(w, a, b)
    ensures ReadingOk(w, b) && b.cur != []
  {
    NotAllTaken(w, a);
    NextChunk(w, a.next, AtOf(w, a));
    hide Trimmed, Reach, IsPlan;
  }

  /** What a copy of n bytes finds at hand and leaves behind. */
  lemma CopyKeepsOk(w: Window, a: Reading, n: nat)
    requires ReadingOk(w, a) && !a.dead && 1 <= n <= |Owed(a)|
    ensures ReadingOk(w, a.(cur := Owed(a)[n..], remain := a.remain - n))
    ensures 0 <= AtOf(w, a) && AtOf(w, a) + n <= w.end + 1 <= |w.doc| && Owed(a)[..n] == w.doc[AtOf(w, a)..AtOf(w, a) + n]
  {
    var at, size := AtOf(w, a), |Owed(a)|;
    WindowEnd(w);
    hide ValidWindow, Reach;
    assert Owed(a) == a.cur[..size];
    MoveBytes(w.doc, at, at, at + |a.cur|, size, n);
    assert w.doc[at..at] == [];
  }

  /** Every step of the sequential reader keeps that, so whatever the pipeline does, its
      reading end is one that Read can be called on. */
  lemma ReadingStepKeepsOk(w: Window, a: Reading, b: Reading)
    requires ReadingOk(w, a) && ReadingStep(w, a, b)
    ensures ReadingOk(w, b)
  {
    if ChunkArrives(w, a, b) {
      ChunkKeepsOk(w, a, b);
    } else if BytesLeave(a, b) {
      var n :| 1 <= n <= |Owed(a)| && b == a.(cur := Owed(a)[n..], remain := a.remain - n);
      hide ReadingOk, Owed, ChunkArrives;
      CopyKeepsOk(w, a, n);
    }
    hide Trimmed, Reach, ValidWindow, BytesLeave, ChunkArrives;
  }

  /** The reading end of a window's pipeline: chunks arrive in order, or an error does. */
  class ChunkReader {
    const w: Window
    var next: nat
    var cur: Bytes
    var remain: int
    var dead: bool

    ghost predicate Valid()
      reads this
    {
      ReadingOk(w, View())
    }

    ghost function View(): Reading
      reads this
    {
      Reading(next, cur, remain, dead)
    }

    /** The offset in the segment of the next byte to deliver. */
    ghost function At(): int
      reads this
    {
      AtOf(w, View())
    }

    constructor (doc: Bytes, start: int, end: int, concurrency: nat, buffers: nat)
      requires 0 <= start <= end < |doc| && concurrency >= 1 && buffers >= 1
      ensures Valid() && !dead && remain == end - start + 1
      ensures w.doc == doc && w.start == start && w.end == end && fresh(this)
      ensures View() == ReadingOf(Opened(w))
    {
      var size := ChunkSize(start, end);
      this.w := Window(doc, start, end, PlanChunks(start, end, size), concurrency, buffers);
      this.next, this.cur, this.remain, this.dead := 0, [], end - start + 1, false;
      new;
      assert doc[start..start] == [];
    }

    /** Read into a buffer of the given size. Any chunk may fail to arrive. */
    method Read(limit: int) returns (data: Bytes, status: Status)
      requires Valid() && !dead && limit > 0
      modifies this
      ensures Valid()
      ensures old(remain) == 0 ==> data == [] && status == Eof && !dead
      ensures old(remain) > 0 && status != Broken ==> data != []
      ensures status == Broken <==> dead
      ensures dead ==> data == []
      ensures !dead ==> |data| <= limit && remain == old(remain) - |data| && (status == Eof <==> remain == 0)
      ensures 0 <= old(At()) && old(At()) + |data| <= w.end + 1
      ensures data == w.doc[old(At())..old(At()) + |data|]
    {
      InRange();
      if remain <= 0 {
        return [], Eof;
      }
      Fill();
      if dead {
        return [], Broken;
      }
      data := CopyOut(limit);
      status := if remain <= 0 then Eof else More;
    }

    lemma InRange()
      requires Valid() && !dead
      ensures 0 <= w.start <= At() <= w.end + 1 <= |w.doc| && w.doc[At()..At()] == [] && remain >= 0
    {
    }

    /** The loop that waits for the next chunk. */
    method Fill()
      requires Valid() && !dead && remain > 0
      modifies this
      ensures Valid() && remain == old(remain) && (!dead ==> cur != [])
      ensures View() == old(View()) || ReadingStep(w, old(View()), View())
    {
      while cur == []
        invariant Valid() && !dead && remain == old(remain) > 0
        invariant View() == old(View()) || (cur != [] && ReadingStep(w, old(View()), View()))
        decreases w.plan.count - next
      {
        ghost var before := View();
        NotAllTaken(w, before);
        if * {
          dead := true;
          return;
        }
        NextChunk(w, next, At());
        hide Trimmed, Reach, IsPlan;
        cur, next := Trimmed(w, next).data, next + 1;
        ChunkKeepsOk(w, before, View());
        hide ReadingOk;
      }
    }

    method CopyOut(limit: int) returns (data: Bytes)
      requires Valid() && !dead && remain > 0 && cur != [] && limit > 0
      modifies this`cur, this`remain
      ensures Valid() && !dead && 0 < |data| <= limit && |data| <= old(remain) && remain == old(remain) - |data|
      ensures 0 <= old(At()) && old(At()) + |data| <= w.end + 1 && data == w.doc[old(At())..old(At()) + |data|]
      ensures ReadingStep(w, old(View()), View())
    {
      hide ReadingOk, ValidWindow, ChunkArrives;
      ghost var before := View();
      var size := if |cur| > remain then remain else |cur|;
      var n := if limit < size then limit else size;
      assert cur[..size] == Owed(before);
      CopyKeepsOk(w, before, n);
      assert BytesLeave(before, before.(cur := Owed(before)[n..], remain := before.remain - n));
      data := cur[..size][..n];
      cur, remain := cur[..size][n..], remain - n;
    }
  }

  datatype Whence = SeekStart | SeekCurrent | SeekEnd

  /** The documents are the segments of the content, all of them. */
  ghost predicate Holds(content: Bytes, segSize: int, docs: seq<Bytes>)
    requires segSize > 0
  {
    |docs| == SegmentCount(|content|, segSize)
    && forall s | 1 <= s <= |docs| :: docs[s - 1] == Part(content, segSize, s)
  }

  /** Where an offset of the file lies: in which segment, and how far into it. */
  lemma Located(content: Bytes, segSize: int, docs: seq<Bytes>, pos: int)
    requires segSize > 0 && Holds(content, segSize, docs) && 0 <= pos < |content|
    ensures var s := pos / segSize + 1;
            && 1 <= s <= |docs| && pos == (s - 1) * segSize + pos % segSize && 0 <= pos % segSize < |docs[s - 1]|
            && |docs[s - 1]| == Min((s - 1) * segSize + segSize, |content|) - (s - 1) * segSize
  {
    var s := pos / segSize + 1;
    DivBounds(pos, segSize);
    CountBounds(|content|, segSize);
    if s > |docs| { MulMono(|docs|, s - 1, segSize); }
    assert docs[s - 1] == Part(content, segSize, s);
  }

  lemma SegmentBytes(content: Bytes, segSize: int, docs: seq<Bytes>, s: int, a: int, b: int)
    requires segSize > 0 && Holds(content, segSize, docs) && 1 <= s <= |docs| && 0 <= a <= b <= |docs[s - 1]|
    ensures var base := (s - 1) * segSize;
            0 <= base && (a < b ==> base + b <= |content| && docs[s - 1][a..b] == content[base + a..base + b])
  {
    var base := (s - 1) * segSize;
    MulMono(0, s - 1, segSize);
    assert docs[s - 1] == Part(content, segSize, s);
    if a < b {
      SliceOfSlice(content, base, base + |docs[s - 1]|, a, b);
    }
  }

  /** The whole file, whatever number of documents holds it. */
  class File {
    ghost const content: Bytes
    const docs: seq<Bytes>
    const size: int
    const segSize: int
    var pos: int
    var cur: ChunkReader?
    var window: int
    ghost var seg: int

    /** The file is well formed, whatever has become of the open window. */
    ghost predicate Sound()
      reads this
    {
      segSize > 0 && size == |content| && pos >= 0 && window > 0 && Holds(content, segSize, docs)
    }

    ghost predicate Valid()
      reads this, cur
    {
      Sound() && (cur != null ==> cur.Valid() && !cur.dead && InStep(cur))
    }

    /** The open window delivers the bytes from pos on, and lies inside one segment. */
    ghost predicate InStep(c: ChunkReader)
      reads this, c
    {
      1 <= seg <= |docs| && c.w.doc == docs[seg - 1] && pos == (seg - 1) * segSize + c.At()
    }

    constructor (ghost content: Bytes, docs: seq<Bytes>, size: int, segSize: int)
      requires segSize > 0 && size == |content| && Holds(content, segSize, docs)
      ensures Valid() && pos == 0 && cur == null && this.content == content && this.segSize == segSize
    {
      this.content, this.docs, this.segSize, this.size := content, docs, segSize, size;
      this.pos, this.cur, this.window, this.seg := 0, null, INITIAL_WINDOW, 1;
    }

    /** Any sequence of reads yields the content's own bytes from the position on, and the
        end of file exactly at its end; a failed read yields nothing. */
    method Read(limit: nat) returns (data: Bytes, status: Status)
      requires Valid()
      modifies this, cur
      ensures Sound() && (cur == null || cur == old(cur) || fresh(cur))
      ensures status != Broken || cur == null ==> Valid()
      ensures |data| <= limit && pos == old(pos) + |data|
      ensures data != [] ==> pos <= size && data == content[old(pos)..pos]
      ensures limit == 0 ==> status == More
      ensures limit > 0 && status != Broken ==> (status == Eof <==> pos >= size)
      ensures limit > 0 && old(pos) < size && status != Broken ==> data != []
      ensures status == Broken ==> data == []
    {
      if limit == 0 {
        return [], More;
      }
      while true
        invariant Valid() && pos == old(pos) && (cur == null || cur == old(cur) || fresh(cur))
        decreases if cur != null && cur.remain == 0 then 1 else 0
      {
        if pos >= size {
          return [], Eof;
        }
        if cur == null {
          var open := OpenAt();
          if !open {
            return [], Broken;
          }
        }
        data, status := ReadWindow(limit);
        if status == Eof {
          cur := null;
          if window < MAX_WINDOW {
            window := window * 2;
          }
          if data != [] {
            status := if pos >= size then Eof else More;
            return;
          }
        } else {
          return;
        }
      }
    }

    /** One Read of the open window. */
    method ReadWindow(limit: nat) returns (data: Bytes, status: Status)
      requires Valid() && cur != null && limit > 0 && pos < size
      modifies this, cur
      ensures window == old(window) && cur == old(cur)
      ensures Sound() && if status == Broken then data == [] && pos == old(pos) else Valid()
      ensures |data| <= limit && pos == old(pos) + |data|
      ensures data != [] ==> pos <= size && data == content[old(pos)..pos]
      ensures status == More ==> data != [] && pos < size
      ensures status == Eof ==> data != [] || old(cur.remain) == 0
    {
      ghost var at := cur.At();
      data, status := cur.Read(limit);
      SegmentBytes(content, segSize, docs, seg, at, at + |data|);
      if status == More {
        SegmentBytes(content, segSize, docs, seg, cur.At(), cur.At() + 1);
      }
      hide Holds, ValidWindow, Reach;
      pos := pos + |data|;
    }

    /** openAt: a window never crosses a segment boundary. */
    method OpenAt() returns (ok: bool)
      requires Valid() && cur == null && pos < size
      modifies this`cur, this`seg
      ensures ok ==> Valid() && cur != null && fresh(cur) && cur.remain > 0
      ensures !ok ==> cur == null && Valid()
    {
      var segIdx := pos / segSize + 1;
      var segStart := pos % segSize;
      var base := (segIdx - 1) * segSize;
      var segEnd := Min(base + segSize, size) - 1 - base;
      Located(content, segSize, docs, pos);
      var end := segEnd;
      if window < MAX_WINDOW && segStart + window - 1 < end {
        end := segStart + window - 1;
      }
      if * {
        return false;
      }
      cur := new ChunkReader(docs[segIdx - 1], segStart, end, CONCURRENCY, BUFFERS);
      seg := segIdx;
      ok := true;
    }

    /** Seek repositions and touches nothing else of the file; moving away also leaves a
        window behind whose reader has failed. */
    method Seek(offset: int, whence: Whence) returns (abs: int, ok: bool)
      requires Sound()
      modifies this
      ensures Sound()
      ensures old(Valid()) || pos != old(pos) ==> Valid()
      ensures abs == match whence case SeekStart => offset case SeekCurrent => old(pos) + offset case SeekEnd => size + offset
      ensures ok <==> abs >= 0
      ensures pos == if ok then abs else old(pos)
      ensures pos != old(pos) ==> cur == null && window == INITIAL_WINDOW
      ensures pos == old(pos) ==> cur == old(cur) && window == old(window)
    {
      abs := match whence case SeekStart => offset case SeekCurrent => pos + offset case SeekEnd => size + offset;
      if abs < 0 {
        return abs, false;
      }
      if abs != pos {
        cur := null;
        window := INITIAL_WINDOW;
      }
      pos := abs;
      ok := true;
    }
  }
}
