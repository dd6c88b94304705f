/** Segment and chunk arithmetic: how a file is cut into Telegram documents, and byte
    ranges into segments and aligned fetches (internal/config/config.go,
    internal/drive/upload.go, internal/api/stream.go, internal/reader/plan.go, chunk.go). */
module Geometry {
  import opened Text

  /** A byte range inside one segment; index is 1-based, start and end inclusive. */
  datatype SegRange = SegRange(index: int, start: int, end: int) {
    function Len(): int { end - start + 1 }
  }

  datatype Ranges = Ranges(ranges: seq<SegRange>) | BadRange

  /** SegmentCount: a zero-byte file still occupies one object. */
  method CountSegments(size: int, segmentSize: int) returns (n: int)
    requires segmentSize > 0
    ensures n == SegmentCount(size, segmentSize)
  {
    if size <= 0 {
      return 1;
    }
    CeilingDivision(size, segmentSize);
    hide SegmentCount;
    n := size / segmentSize;
    if size % segmentSize != 0 {
      n := n + 1;
    }
  }

  lemma CeilingDivision(size: int, segmentSize: int)
    requires segmentSize > 0 && size > 0
    ensures SegmentCount(size, segmentSize) == size / segmentSize + if size % segmentSize != 0 then 1 else 0
  {
    var q, r := size / segmentSize, size % segmentSize;
    assert size == q * segmentSize + r;
    DivIs(size + segmentSize - 1, segmentSize, if r != 0 then q + 1 else q);
  }

  /** The least positive number of segments that hold the file. */
  function SegmentCount(size: int, segmentSize: int): (n: int)
    requires segmentSize > 0
    ensures n >= 1
  {
    if size <= 0 then 1 else (size + segmentSize - 1) / segmentSize
  }

  /** The exact byte count of a segment. */
  function SegmentSize(size: int, segmentSize: int, index: int): int {
    var start := (index - 1) * segmentSize;
    if start >= size then 0
    else if segmentSize <= size - start then segmentSize else size - start
  }

  datatype ByteWindow = ByteWindow(offset: int, length: int)

  /** segmentWindow: one stored segment as a download of its own. */
  function SegmentWindow(size: int, segmentSize: int, count: int, index: int): Option<ByteWindow> {
    if index < 1 || index > count then None
    else Some(ByteWindow((index - 1) * segmentSize, SegmentSize(size, segmentSize, index)))
  }

  // ------------------------------------------------------------ whole numbers

  lemma DivBounds(a: int, b: int)
    requires a >= 0 && b > 0
    ensures a / b >= 0 && (a / b) * b <= a < (a / b) * b + b && (a / b + 1) * b == (a / b) * b + b
  {
  }

  lemma DivIs(a: int, b: int, q: int)
    requires b > 0 && q * b <= a < q * b + b
    ensures a / b == q
  {
    if a / b < q { assert (a / b + 1) * b <= q * b by { MulMono(a / b + 1, q, b); } }
    if a / b > q { assert (q + 1) * b <= (a / b) * b by { MulMono(q + 1, a / b, b); } }
  }

  lemma MulMono(x: int, y: int, b: int)
    requires x <= y && b >= 0
    ensures x * b <= y * b
  {
  }

  lemma CountBounds(size: int, segmentSize: int)
    requires segmentSize > 0 && size > 0
    ensures var n := SegmentCount(size, segmentSize); (n - 1) * segmentSize < size <= n * segmentSize
  {
    DivBounds(size + segmentSize - 1, segmentSize);
  }

  // ------------------------------------------------------------ the segments tile the file

  /** Bytes of the first n segments. */
  function SizeOfFirst(size: int, segmentSize: int, n: nat): int {
    if n == 0 then 0 else SizeOfFirst(size, segmentSize, n - 1) + SegmentSize(size, segmentSize, n)
  }

  lemma {:induction false} FirstSegments(size: int, segmentSize: int, n: nat)
    requires segmentSize > 0 && size >= 0
    ensures SizeOfFirst(size, segmentSize, n) == if n * segmentSize <= size then n * segmentSize else size
  {
    if n > 0 {
      FirstSegments(size, segmentSize, n - 1);
      assert n * segmentSize == (n - 1) * segmentSize + segmentSize;
    }
  }

  /** Each segment begins where the ones before it end, every segment but that of an empty
      file holds something, and together they hold the file. */
  lemma SegmentsTile(size: int, segmentSize: int, index: nat)
    requires segmentSize > 0 && size >= 0
    requires 1 <= index <= SegmentCount(size, segmentSize)
    ensures var count := SegmentCount(size, segmentSize);
            var w := SegmentWindow(size, segmentSize, count, index);
            && w.Some? && w.value.offset == SizeOfFirst(size, segmentSize, index - 1)
            && w.value.offset + w.value.length == SizeOfFirst(size, segmentSize, index)
            && (size > 0 ==> 0 < w.value.length <= segmentSize)
            && SizeOfFirst(size, segmentSize, count) == size
  {
    var count := SegmentCount(size, segmentSize);
    FirstSegments(size, segmentSize, index - 1);
    FirstSegments(size, segmentSize, index);
    FirstSegments(size, segmentSize, count);
    if size > 0 {
      CountBounds(size, segmentSize);
      MulMono(index - 1, count - 1, segmentSize);
    } else {
      MulMono(0, index - 1, segmentSize);
    }
  }

  /** There is a window exactly for the segments that there are. */
  lemma WindowOutside(size: int, segmentSize: int, count: int, index: int)
    ensures SegmentWindow(size, segmentSize, count, index).None? <==> index < 1 || count < index
  {
  }

  // ------------------------------------------------------------ planRanges

  function GlobalStart(r: SegRange, segSize: int): int { (r.index - 1) * segSize + r.start }

  function GlobalEnd(r: SegRange, segSize: int): int { (r.index - 1) * segSize + r.end }

  /** The pieces follow each other without gap or overlap from start to end, each inside
      one segment, no two in the same. */
  predicate Covers(out: seq<SegRange>, start: int, end: int, segSize: int) {
    && out != []
    && GlobalStart(out[0], segSize) == start && GlobalEnd(out[|out| - 1], segSize) == end
    && (forall k | 0 <= k < |out| :: 0 <= out[k].start <= out[k].end < segSize && out[k].index >= 1)
    && (forall k | 1 <= k < |out| ::
          out[k].index == out[k - 1].index + 1 && GlobalStart(out[k], segSize) == GlobalEnd(out[k - 1], segSize) + 1)
  }

  method PlanRanges(start: int, end: int, segSize: int) returns (plan: Ranges)
    ensures plan.BadRange? <==> segSize <= 0 || start < 0
    ensures plan.Ranges? && end < start ==> plan.ranges == []
    ensures plan.Ranges? && end >= start ==> Covers(plan.ranges, start, end, segSize)
  {
    if segSize <= 0 || start < 0 {
      return BadRange;
    }
    if end < start {
      return Ranges([]);
    }
    var first := start / segSize;
    var last := end / segSize;
    DivBounds(start, segSize);
    DivBounds(end, segSize);
    FirstNotLater(start, end, segSize);
    var out: seq<SegRange> := [];
    var s := first;
    while s <= last
      invariant first <= s <= last + 1
      invariant s == first ==> out == []
      invariant s > first ==> Covers(out, start, if s == last + 1 then end else s * segSize - 1, segSize) && out[|out| - 1].index == s
    {
      var base := s * segSize;
      var segStart := if start - base < 0 then 0 else start - base;
      var segEnd := if end - base > segSize - 1 then segSize - 1 else end - base;
      NextPiece(start, end, segSize, first, last, s);
      ghost var was := out;
      out := out + [SegRange(s + 1, segStart, segEnd)];
      if s > first {
      }
      s := s + 1;
    }
    plan := Ranges(out);
  }

  lemma FirstNotLater(start: int, end: int, segSize: int)
    requires segSize > 0 && 0 <= start <= end
    ensures start / segSize <= end / segSize
  {
    DivBounds(start, segSize);
    DivBounds(end, segSize);
    if end / segSize < start / segSize { MulMono(end / segSize + 1, start / segSize, segSize); }
  }

  lemma NextPiece(start: int, end: int, segSize: int, first: int, last: int, s: int)
    requires segSize > 0 && 0 <= start <= end && first == start / segSize && last == end / segSize && first <= s <= last
    ensures s > first ==> start <= s * segSize
    ensures s == first ==> s * segSize <= start < s * segSize + segSize
    ensures s < last ==> end >= (s + 1) * segSize
    ensures s == last ==> s * segSize <= end < s * segSize + segSize
    ensures (s + 1) * segSize == s * segSize + segSize && s * segSize >= 0
  {
    DivBounds(start, segSize);
    DivBounds(end, segSize);
    MulMono(0, s, segSize);
    if s > first { MulMono(first + 1, s, segSize); }
    if s < last { MulMono(s + 1, last, segSize); }
  }

  function TotalLen(out: seq<SegRange>): int {
    if out == [] then 0 else TotalLen(out[..|out| - 1]) + out[|out| - 1].Len()
  }

  lemma {:induction false} CoveredLength(out: seq<SegRange>, start: int, end: int, segSize: int)
    requires Covers(out, start, end, segSize)
    ensures TotalLen(out) == end - start + 1
  {
    var rest, r := out[..|out| - 1], out[|out| - 1];
    if rest != [] {
      assert GlobalStart(r, segSize) == GlobalEnd(out[|out| - 2], segSize) + 1;
      CoveredLength(rest, start, GlobalStart(r, segSize) - 1, segSize);
    } else {
      assert out[0] == r;
    }
  }

  /** Segment s (1-based) of the content. */
  function Part<T>(content: seq<T>, segSize: int, s: int): seq<T>
    requires segSize > 0
  {
    var from := (s - 1) * segSize;
    if from < 0 || from >= |content| then []
    else content[from..if from + segSize <= |content| then from + segSize else |content|]
  }

  function Stitched<T>(content: seq<T>, segSize: int, out: seq<SegRange>): seq<T>
    requires segSize > 0 && InParts(content, segSize, out)
  {
    if out == [] then []
    else
      var r := out[|out| - 1];
      Stitched(content, segSize, out[..|out| - 1]) + Part(content, segSize, r.index)[r.start..r.end + 1]
  }

  lemma PieceIs<T>(content: seq<T>, segSize: int, r: SegRange)
    requires segSize > 0 && r.index >= 1 && 0 <= r.start <= r.end < segSize && GlobalEnd(r, segSize) < |content|
    ensures r.end < |Part(content, segSize, r.index)| && GlobalStart(r, segSize) >= 0
    ensures Part(content, segSize, r.index)[r.start..r.end + 1] == content[GlobalStart(r, segSize)..GlobalEnd(r, segSize) + 1]
  {
    var from := (r.index - 1) * segSize;
    MulMono(0, r.index - 1, segSize);
    var to := if from + segSize <= |content| then from + segSize else |content|;
    assert Part(content, segSize, r.index) == content[from..to];
    SliceOfSlice(content, from, to, r.start, r.end + 1);
  }

  lemma SliceOfSlice<T>(s: seq<T>, from: int, to: int, a: int, b: int)
    requires 0 <= from <= to <= |s| && 0 <= a <= b <= to - from
    ensures s[from..to][a..b] == s[from + a..from + b]
  {
    var l, r := s[from..to][a..b], s[from + a..from + b];
    assert |l| == |r|;
    forall k | 0 <= k < |l| ensures l[k] == r[k] {
      assert l[k] == s[from..to][a + k] == s[from + (a + k)];
      assert r[k] == s[(from + a) + k];
    }
    assert l == r;
  }

  predicate InParts<T>(content: seq<T>, segSize: int, out: seq<SegRange>)
    requires segSize > 0
  {
    forall k | 0 <= k < |out| :: 0 <= out[k].start <= out[k].end < |Part(content, segSize, out[k].index)|
  }

  lemma StitchLast<T>(content: seq<T>, segSize: int, rest: seq<SegRange>, r: SegRange)
    requires segSize > 0 && InParts(content, segSize, rest) && 0 <= r.start <= r.end < |Part(content, segSize, r.index)|
    ensures InParts(content, segSize, rest + [r])
    ensures Stitched(content, segSize, rest + [r]) == Stitched(content, segSize, rest) + Part(content, segSize, r.index)[r.start..r.end + 1]
  {
    assert (rest + [r])[..|rest + [r]| - 1] == rest;
    hide Part;
  }

  /** Reading the pieces segment by segment and stitching them gives the requested bytes. */
  lemma {:induction false} StitchedIsRange<T>(content: seq<T>, segSize: int, out: seq<SegRange>, start: int, end: int)
    requires segSize > 0 && 0 <= start <= end < |content| && Covers(out, start, end, segSize)
    ensures InParts(content, segSize, out)
    ensures Stitched(content, segSize, out) == content[start..end + 1]
  {
    hide *;
    LastPiece(out, start, end, segSize);
    var rest, r := out[..|out| - 1], out[|out| - 1];
    assert out == rest + [r];
    PieceIs(content, segSize, r);
    if rest != [] {
      var mid := GlobalStart(r, segSize) - 1;
      StitchedIsRange(content, segSize, rest, start, mid);
      StitchLast(content, segSize, rest, r);
      Adjacent(content, start, mid + 1, end + 1);
    } else {
      StitchNone(content, segSize);
      StitchLast(content, segSize, rest, r);
    }
  }

  lemma StitchNone<T>(content: seq<T>, segSize: int)
    requires segSize > 0
    ensures InParts(content, segSize, []) && Stitched(content, segSize, []) == []
  {
  }

  lemma LastPiece(out: seq<SegRange>, start: int, end: int, segSize: int)
    requires Covers(out, start, end, segSize)
    ensures out != []
    ensures var rest, r := out[..|out| - 1], out[|out| - 1];
            && GlobalEnd(r, segSize) == end && r.index >= 1 && 0 <= r.start <= r.end < segSize
            && GlobalStart(r, segSize) <= end
            && (rest != [] ==> Covers(rest, start, GlobalStart(r, segSize) - 1, segSize) && start < GlobalStart(r, segSize))
            && (rest == [] ==> GlobalStart(r, segSize) == start)
  {
    var rest, r := out[..|out| - 1], out[|out| - 1];
    if rest != [] {
      assert GlobalStart(r, segSize) == GlobalEnd(out[|out| - 2], segSize) + 1;
      RestBefore(rest, start, GlobalStart(r, segSize) - 1, segSize);
    }
  }

  lemma Adjacent<T>(s: seq<T>, a: int, b: int, c: int)
    requires 0 <= a <= b <= c <= |s|
    ensures s[a..b] + s[b..c] == s[a..c]
  {
  }

  lemma {:induction false} RestBefore(out: seq<SegRange>, start: int, end: int, segSize: int)
    requires Covers(out, start, end, segSize)
    ensures start <= end
  {
    if |out| > 1 {
      var k := |out| - 1;
      assert GlobalStart(out[k], segSize) == GlobalEnd(out[k - 1], segSize) + 1;
      RestBefore(out[..k], start, GlobalEnd(out[k - 1], segSize), segSize);
    }
  }
}
