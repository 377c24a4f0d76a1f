/**
 * End to end: planning the ranges, running every chunk job without a fault
 * and stitching the chunks back without a fault reproduces positions
 * 0..fileSize of the payload in order, with zeros past its end
 * (main.go:58-87, 112-129).
 */
module RoundTrip {
  import opened Common
  import opened RangePlan
  import opened Section
  import opened ChunkStore

  /** The store after a fault-free run of all the jobs of `job`. */
  function AllJobsRun(store: Store, job: UploadJob): Store
    requires job.Valid()
  {
    AfterJobs(store, job, map[], Below(job.threadCount))
  }

  /** Every job's chunk is there, holding the section of the payload its range names. */
  lemma AllJobsRunChunk(store: Store, job: UploadJob, i: int)
    requires job.Valid() && 0 <= i < job.threadCount
    ensures ChunkKey(job.fileID, i) in AllJobsRun(store, job)
    ensures AllJobsRun(store, job)[ChunkKey(job.fileID, i)]
         == SectionBytes(job.source, PlanRange(job.fileSize, job.threadCount, i).start,
                         PlanRange(job.fileSize, job.threadCount, i).Len())
  {
    assert Creates(job, map[], Below(job.threadCount), ChunkKey(job.fileID, i));
    AfterJobsAt(store, job, map[], Below(job.threadCount), ChunkKey(job.fileID, i));
  }

  /** Chunk `i` of `job` is in `s`, holding the section of the payload its range names. */
  predicate HoldsChunk(s: Store, job: UploadJob, i: int)
    requires job.Valid() && 0 <= i < job.threadCount
  {
    var r := PlanRange(job.fileSize, job.threadCount, i);
    ChunkKey(job.fileID, i) in s && s[ChunkKey(job.fileID, i)] == SectionBytes(job.source, r.start, r.Len())
  }

  /** Chunks 0..k-1 together are the section of the payload from 0 to the end of chunk k-1. */
  lemma {:induction false} ChunksConcatToSection(s: Store, job: UploadJob, k: nat)
    requires job.Valid() && 1 <= k <= job.threadCount
    requires forall i :: 0 <= i < k ==> HoldsChunk(s, job, i)
    ensures ChunksPresent(s, job.fileID, k)
    ensures ConcatChunks(s, job.fileID, k)
         == SectionBytes(job.source, 0, PlanRange(job.fileSize, job.threadCount, k - 1).end + 1)
  {
    assert HoldsChunk(s, job, k - 1);
    if k == 1 {
      RangesSpanZeroToFileSize(job.fileSize, job.threadCount);
      assert ConcatChunks(s, job.fileID, 0) == [];
    } else {
      ChunksConcatToSection(s, job, k - 1);
      SectionsJoin(job, k, ConcatChunks(s, job.fileID, k - 1));
    }
  }

  /** The section up to the end of range k-2, followed by range k-1, is the section up to the end of range k-1. */
  lemma SectionsJoin(job: UploadJob, k: nat, prefix: seq<byte>)
    requires job.Valid() && 2 <= k <= job.threadCount
    requires prefix == SectionBytes(job.source, 0, PlanRange(job.fileSize, job.threadCount, k - 2).end + 1)
    ensures var r := PlanRange(job.fileSize, job.threadCount, k - 1);
      prefix + SectionBytes(job.source, r.start, r.Len()) == SectionBytes(job.source, 0, r.end + 1)
  {
    var r := PlanRange(job.fileSize, job.threadCount, k - 1);
    RangesContiguous(job.fileSize, job.threadCount, k - 2);
    SectionBytesAppend(job.source, 0, r.start, r.Len());
  }

  /** The round trip: the stitched file is the payload's positions 0..fileSize. */
  lemma UploadRoundTrip(store: Store, job: UploadJob)
    requires job.Valid()
    ensures StitchSpec(AllJobsRun(store, job), job.fileID, map[], job.threadCount)
         == StitchResult(Stitched, SectionBytes(job.source, 0, job.fileSize + 1))
  {
    forall i | 0 <= i < job.threadCount ensures HoldsChunk(AllJobsRun(store, job), job, i) {
      AllJobsRunChunk(store, job, i);
    }
    ChunksConcatToSection(AllJobsRun(store, job), job, job.threadCount);
    RangesSpanZeroToFileSize(job.fileSize, job.threadCount);
    StitchAllPresent(AllJobsRun(store, job), job.fileID, job.threadCount);
  }

  /**
   * What the stitched file holds, by how `fileSize` compares with the payload:
   * its first fileSize + 1 bytes when the payload is longer, and the payload
   * padded with zeros to fileSize + 1 bytes otherwise.
   */
  lemma RoundTripOutput(store: Store, job: UploadJob)
    requires job.Valid()
    ensures var out := StitchSpec(AllJobsRun(store, job), job.fileID, map[], job.threadCount).output;
      && |out| == job.fileSize + 1
      && (job.fileSize < |job.source| ==> out == job.source[..job.fileSize + 1])
      && (job.fileSize >= |job.source| ==> out == job.source + Zeros(job.fileSize + 1 - |job.source|))
  {
    UploadRoundTrip(store, job);
    SectionFromStart(job.source, job.fileSize + 1);
  }

  /**
   * When the declared size is the payload's exact length, the stitched file
   * is the payload with one zero byte appended: the last range ends at
   * `fileSize`, one past the last byte.
   */
  lemma ExactSizeAppendsOneZero(store: Store, job: UploadJob)
    requires job.Valid() && job.fileSize == |job.source|
    ensures StitchSpec(AllJobsRun(store, job), job.fileID, map[], job.threadCount).output == job.source + [0]
  {
    RoundTripOutput(store, job);
    assert Zeros(1) == [0];
  }

  /** "ABCDEFGHIJ" (bytes 65..74) on three threads with its exact size comes back as "ABCDEFGHIJ" and a zero. */
  lemma TenBytesRoundTrip(store: Store)
    ensures var src: seq<byte> := [65, 66, 67, 68, 69, 70, 71, 72, 73, 74];
      StitchSpec(AllJobsRun(store, UploadJob("f", 10, 3, src)), "f", map[], 3).output == src + [0]
  {
    var src: seq<byte> := [65, 66, 67, 68, 69, 70, 71, 72, 73, 74];
    ExactSizeAppendsOneZero(store, UploadJob("f", 10, 3, src));
  }
}
