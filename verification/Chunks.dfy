/** Aligned fetches inside one segment (internal/reader/chunk.go, plan.go). */
module Chunks {
  import opened Geometry

  newtype byte = b: int | 0 <= b < 256

  type Bytes = seq<byte>

  const MIB: int := 1024 * 1024

  /** What ChunkSize may return: a power of two from 1 KiB to 1 MiB. */
  predicate IsChunkSize(size: int) {
    || size == 1048576 || size == 524288 || size == 262144 || size == 131072 || size == 65536 || size == 32768
    || size == 16384 || size == 8192 || size == 4096 || size == 2048 || size == 1024
  }

  /** The largest power of two in range that is not longer than the distance. */
  method ChunkSize(start: int, end: int) returns (size: int)
    ensures IsChunkSize(size)
    ensures size == MIB || 2 * size > end - start
    ensures size == 1024 || size <= end - start
  {
    size := MIB;
    while size > 1024 && size > end - start
      invariant IsChunkSize(size)
      invariant size == MIB || 2 * size > end - start
    {
      size := size / 2;
    }
  }

  datatype ChunkPlan = ChunkPlan(chunkSize: int, base: int, count: int, leftCut: int, length: int)

  function PlanChunks(start: int, end: int, chunkSize: int): ChunkPlan
    requires chunkSize > 0
  {
    var base := start - start % chunkSize;
    ChunkPlan(chunkSize, base, (end - base) / chunkSize + 1, start - base, end - start + 1)
  }

  /** The plan of some non-empty range with a legitimate chunk size. */
  predicate IsPlan(p: ChunkPlan, start: int, end: int) {
    0 <= start <= end && IsChunkSize(p.chunkSize) && p == PlanChunks(start, end, p.chunkSize)
  }

  function Offset(p: ChunkPlan, idx: int): int {
    p.base + idx * p.chunkSize
  }

  /** The fetches start at or before the range, the first reaching into it, and the last
      one reaches its end. */
  lemma FetchesCover(p: ChunkPlan, start: int, end: int)
    requires IsPlan(p, start, end)
    ensures p.count >= 1 && 0 <= p.leftCut < p.chunkSize && p.length == end - start + 1
    ensures Offset(p, 0) + p.leftCut == start && Offset(p, 0) >= 0
    ensures Offset(p, p.count - 1) <= end < Offset(p, p.count)
  {
    DivBounds(end - p.base, p.chunkSize);
    DivBounds(start, p.chunkSize);
  }

  /** Every fetch is aligned to its size and stays inside one 1 MiB block of the document. */
  lemma FetchAligned(p: ChunkPlan, start: int, end: int, idx: int)
    requires IsPlan(p, start, end) && 0 <= idx < p.count
    ensures Offset(p, idx) >= 0 && Offset(p, idx) % p.chunkSize == 0
    ensures Offset(p, idx) / MIB == (Offset(p, idx) + p.chunkSize - 1) / MIB
  {
    var c := p.chunkSize;
    var q := start / c + idx;
    ChunksPerBlock(c);
    BaseIs(p, start, end);
    hide *;
    DivBounds(start, c);
    Distribute(start / c, idx, c);
    MultipleOf(q, c);
    InOneBlock(q, c, MIB / c);
  }

  lemma ChunksPerBlock(c: int)
    requires IsChunkSize(c)
    ensures c > 0 && (MIB / c) * c == MIB && MIB / c >= 1
  {
  }

  lemma BaseIs(p: ChunkPlan, start: int, end: int)
    requires IsPlan(p, start, end)
    ensures p.chunkSize > 0 && p.base == (start / p.chunkSize) * p.chunkSize && start >= 0
  {
    hide IsChunkSize;
    assert IsChunkSize(p.chunkSize);
    ChunksPerBlock(p.chunkSize);
  }

  lemma Distribute(a: int, b: int, c: int)
    ensures a * c + b * c == (a + b) * c
  {
  }

  lemma MultipleOf(q: int, c: int)
    requires q >= 0 && c > 0
    ensures q * c >= 0 && (q * c) % c == 0
  {
    MulMono(0, q, c);
    DivIs(q * c, c, q);
  }

  /** q * c .. q * c + c - 1 lies in one block of per * c. */
  lemma InOneBlock(q: int, c: int, per: int)
    requires q >= 0 && c > 0 && per >= 1
    ensures per * c > 0 && (q * c) / (per * c) == (q * c + c - 1) / (per * c)
  {
    var b := q / per;
    DivBounds(q, per);
    var block := per * c;
    assert block >= c by { MulMono(1, per, c); }
    assert b * block == (b * per) * c by { Assoc(b, per, c); }
    MulMono(b * per, q, c);
    assert (b * per + per) * c == b * block + block by { Distribute(b * per, per, c); }
    MulMono(q + 1, b * per + per, c);
    Distribute(q, 1, c);
    DivIs(q * c, block, b);
    DivIs(q * c + c - 1, block, b);
  }

  lemma Assoc(a: int, b: int, c: int)
    ensures a * (b * c) == (a * b) * c
  {
  }
}
