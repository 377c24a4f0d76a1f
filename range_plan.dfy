/**
 * How the upload handler divides the payload among its threads
 * (main.go:45-62): chunk `i` of `threadCount` gets the inclusive byte range
 * [i * chunkSize, i * chunkSize + chunkSize - 1] with
 * chunkSize = fileSize / threadCount, except that the last chunk is
 * stretched to end at `fileSize` itself.  Because `fileSize` is a length,
 * that last end is one past the last valid byte: the ranges together cover
 * the fileSize + 1 positions 0..fileSize.
 */
module RangePlan {

  /** An inclusive byte range [start, end]; it is empty when end == start - 1. */
  datatype ByteRange = ByteRange(start: int, end: int) {
    /** The buffer length `endByte - startByte + 1` (main.go:76,78). */
    function Len(): int { end - start + 1 }

    predicate Contains(p: int) { start <= p <= end }
  }

  /** What the handler has established before planning (main.go:33,46). */
  predicate ValidPlan(fileSize: int, threadCount: int)
  {
    fileSize >= 0 && threadCount >= 1
  }

  lemma MulLeq(a: int, b: int, c: int)
    requires 0 <= a <= b && 0 <= c
    ensures a * c <= b * c
  {
  }

  /** `fileSize / int64(threadCount)`: Go's truncating division, which is floor here. */
  function ChunkSize(fileSize: int, threadCount: int): (cs: int)
    requires ValidPlan(fileSize, threadCount)
    ensures 0 <= cs
    ensures cs * threadCount <= fileSize < (cs + 1) * threadCount
  {
    fileSize / threadCount
  }

  /** The byte range of chunk `threadNum` (main.go:58-62). */
  function PlanRange(fileSize: int, threadCount: int, threadNum: int): (r: ByteRange)
    requires ValidPlan(fileSize, threadCount) && 0 <= threadNum < threadCount
    ensures 0 <= r.start <= r.end + 1 <= fileSize + 1
    ensures r.Len() >= 0
  {
    var cs := ChunkSize(fileSize, threadCount);
    MulLeq(threadNum + 1, threadCount, cs);
    var startByte := threadNum * cs;
    var endByte := if threadNum == threadCount - 1 then fileSize else startByte + cs - 1;
    ByteRange(startByte, endByte)
  }

  /** Each chunk ends exactly one byte before the next one starts. */
  lemma RangesContiguous(fileSize: int, threadCount: int, i: int)
    requires ValidPlan(fileSize, threadCount) && 0 <= i < threadCount - 1
    ensures PlanRange(fileSize, threadCount, i).end + 1 == PlanRange(fileSize, threadCount, i + 1).start
  {
  }

  /** The first chunk starts at byte 0 and the last one ends at `fileSize`, inclusive. */
  lemma RangesSpanZeroToFileSize(fileSize: int, threadCount: int)
    requires ValidPlan(fileSize, threadCount)
    ensures PlanRange(fileSize, threadCount, 0).start == 0
    ensures PlanRange(fileSize, threadCount, threadCount - 1).end == fileSize
  {
  }

  /**
   * Every chunk but the last holds exactly chunkSize bytes; the last holds
   * the remainder of the division and one byte more.
   */
  lemma RangeLengths(fileSize: int, threadCount: int, i: int)
    requires ValidPlan(fileSize, threadCount) && 0 <= i < threadCount
    ensures i < threadCount - 1 ==> PlanRange(fileSize, threadCount, i).Len() == ChunkSize(fileSize, threadCount)
    ensures i == threadCount - 1 ==>
      PlanRange(fileSize, threadCount, i).Len() == ChunkSize(fileSize, threadCount) + fileSize % threadCount + 1
  {
    var cs := ChunkSize(fileSize, threadCount);
    if i == threadCount - 1 {
      assert fileSize == cs * threadCount + fileSize % threadCount;
    }
  }

  /** A chunk with a lower index lies wholly before one with a higher index. */
  lemma RangesOrdered(fileSize: int, threadCount: int, i: int, j: int)
    requires ValidPlan(fileSize, threadCount) && 0 <= i < j < threadCount
    ensures PlanRange(fileSize, threadCount, i).end < PlanRange(fileSize, threadCount, j).start
  {
    MulLeq(i + 1, j, ChunkSize(fileSize, threadCount));
  }

  /** So no byte position belongs to two chunks. */
  lemma RangesDisjoint(fileSize: int, threadCount: int, i: int, j: int, p: int)
    requires ValidPlan(fileSize, threadCount) && 0 <= i < threadCount && 0 <= j < threadCount
    requires PlanRange(fileSize, threadCount, i).Contains(p)
    requires PlanRange(fileSize, threadCount, j).Contains(p)
    ensures i == j
  {
    if i < j {
      RangesOrdered(fileSize, threadCount, i, j);
    } else if j < i {
      RangesOrdered(fileSize, threadCount, j, i);
    }
  }

  lemma DivBounds(p: int, d: int)
    requires 0 <= p && 0 < d
    ensures 0 <= p / d && (p / d) * d <= p < (p / d) * d + d
  {
  }

  /** Every position 0..fileSize, including fileSize itself, belongs to some chunk. */
  lemma RangesCover(fileSize: int, threadCount: int, p: int) returns (i: int)
    requires ValidPlan(fileSize, threadCount) && 0 <= p <= fileSize
    ensures 0 <= i < threadCount && PlanRange(fileSize, threadCount, i).Contains(p)
  {
    var cs := ChunkSize(fileSize, threadCount);
    if cs == 0 {
      i := threadCount - 1;
      assert i * cs == 0;
    } else {
      var q := p / cs;
      DivBounds(p, cs);
      if q >= threadCount - 1 {
        i := threadCount - 1;
        MulLeq(i, q, cs);
      } else {
        i := q;
      }
    }
  }

  /** The number of bytes held by chunks 0..k-1. */
  function PlannedBytes(fileSize: int, threadCount: int, k: nat): int
    requires ValidPlan(fileSize, threadCount) && k <= threadCount
  {
    if k == 0 then 0
    else PlannedBytes(fileSize, threadCount, k - 1) + PlanRange(fileSize, threadCount, k - 1).Len()
  }

  /** The chunks hold fileSize + 1 bytes in all: one more than the payload has. */
  lemma {:induction false} PlannedBytesTotal(fileSize: int, threadCount: int)
    requires ValidPlan(fileSize, threadCount)
    ensures PlannedBytes(fileSize, threadCount, threadCount) == fileSize + 1
  {
    PlannedBytesPrefix(fileSize, threadCount, threadCount);
  }

  lemma {:induction false} PlannedBytesPrefix(fileSize: int, threadCount: int, k: nat)
    requires ValidPlan(fileSize, threadCount) && 1 <= k <= threadCount
    ensures PlannedBytes(fileSize, threadCount, k) == PlanRange(fileSize, threadCount, k - 1).end + 1
  {
    if k > 1 {
      PlannedBytesPrefix(fileSize, threadCount, k - 1);
      RangesContiguous(fileSize, threadCount, k - 2);
    }
  }

  /** An empty payload still yields threadCount ranges: all empty but the last, which is [0, 0]. */
  lemma EmptyPayloadPlan(threadCount: int, i: int)
    requires threadCount >= 1 && 0 <= i < threadCount
    ensures i < threadCount - 1 ==> PlanRange(0, threadCount, i) == ByteRange(0, -1)
    ensures i == threadCount - 1 ==> PlanRange(0, threadCount, i) == ByteRange(0, 0)
  {
  }

  /** Ten bytes on three threads: [0,2], [3,5] and [6,10]. */
  lemma TenBytesThreeThreads()
    ensures PlanRange(10, 3, 0) == ByteRange(0, 2)
    ensures PlanRange(10, 3, 1) == ByteRange(3, 5)
    ensures PlanRange(10, 3, 2) == ByteRange(6, 10)
  {
  }
}
