/**
 * The specification side of the chunk jobs and of `StitchFile` (main.go):
 * what a job leaves in the store of chunk files, what the store holds after a
 * set of jobs, and what stitching copies into the output file.  The chunk
 * files are a map from (fileID, index) to bytes; the name
 * `fmt.Sprintf("%s-chunk%d", fileID, i)` picks out one pair, since the digits
 * after the last "-chunk" give `i` back.
 */
module ChunkStore {
  import opened Common
  import opened RangePlan
  import opened Section

  datatype ChunkKey = ChunkKey(fileID: string, index: int)

  type Store = map<ChunkKey, seq<byte>>

  /** One accepted upload: its identifier, the declared size, the thread count and the payload. */
  datatype UploadJob = UploadJob(fileID: string, fileSize: int, threadCount: int, source: seq<byte>) {
    predicate Valid() { ValidPlan(fileSize, threadCount) }
  }

  /**
   * How a chunk job's I/O can go: `os.Create` fails (main.go:68-72), the
   * read fails with an error other than `io.EOF` (main.go:81-84), or
   * `dst.Write` fails after writing `written` bytes (main.go:87-91).
   */
  datatype JobFault = NoFault | CreateFails | ReadFails | WriteFails(written: nat)

  function FaultOf(faults: map<int, JobFault>, i: int): JobFault
  {
    if i in faults then faults[i] else NoFault
  }

  /** The buffer chunk job `i` fills: `endByte - startByte + 1` bytes read at `startByte`. */
  function ChunkBuffer(job: UploadJob, i: int): (buf: seq<byte>)
    requires job.Valid() && 0 <= i < job.threadCount
    ensures |buf| == PlanRange(job.fileSize, job.threadCount, i).Len()
  {
    var r := PlanRange(job.fileSize, job.threadCount, i);
    SectionBytes(job.source, r.start, r.Len())
  }

  /**
   * What chunk job `i` leaves under its key: nothing when the file cannot be
   * created, an empty file when the read fails (the file was already created),
   * what reached the disk when the write fails, and the whole buffer otherwise.
   */
  function JobWrite(job: UploadJob, i: int, fault: JobFault): (w: Option<seq<byte>>)
    requires job.Valid() && 0 <= i < job.threadCount
    ensures w.None? <==> fault == CreateFails
    ensures w.Some? ==> w.value <= ChunkBuffer(job, i)
    ensures fault == NoFault ==> w == Some(ChunkBuffer(job, i))
    ensures fault == ReadFails ==> w == Some([])
  {
    match fault
    case CreateFails => None
    case ReadFails => Some([])
    case WriteFails(k) => Some(ChunkBuffer(job, i)[..Min(k, |ChunkBuffer(job, i)|)])
    case NoFault => Some(ChunkBuffer(job, i))
  }

  /**
   * The store after chunk job `i` ran on it: key (fileID, i) holds what the
   * job wrote, unless its file could not be created, and no other key changes.
   */
  function ApplyJob(store: Store, job: UploadJob, i: int, fault: JobFault): (s: Store)
    requires job.Valid() && 0 <= i < job.threadCount
    ensures fault == CreateFails ==> s == store
    ensures fault != CreateFails ==>
      s.Keys == store.Keys + {ChunkKey(job.fileID, i)} && s[ChunkKey(job.fileID, i)] == JobWrite(job, i, fault).value
    ensures forall k :: k in store && k != ChunkKey(job.fileID, i) ==> s[k] == store[k]
  {
    match JobWrite(job, i, fault)
    case None => store
    case Some(b) => store[ChunkKey(job.fileID, i) := b]
  }

  predicate IndicesOk(job: UploadJob, done: set<int>)
  {
    forall i :: i in done ==> 0 <= i < job.threadCount
  }

  /** Whether the jobs in `done` created key `k`. */
  predicate Creates(job: UploadJob, faults: map<int, JobFault>, done: set<int>, k: ChunkKey)
  {
    k.fileID == job.fileID && k.index in done && FaultOf(faults, k.index) != CreateFails
  }

  /** The keys the jobs in `done` create. */
  function CreatedKeys(job: UploadJob, faults: map<int, JobFault>, done: set<int>): (c: set<ChunkKey>)
    ensures forall k :: k in c <==> Creates(job, faults, done, k)
  {
    var c := set i | i in done && FaultOf(faults, i) != CreateFails :: ChunkKey(job.fileID, i);
    assert forall k :: Creates(job, faults, done, k) ==> k == ChunkKey(job.fileID, k.index) && k in c;
    c
  }

  /**
   * The store once the jobs in `done` have run: each created key holds what
   * its own job wrote, every other key is as before.  Only the set of jobs
   * matters, not the order in which they ran.
   */
  function AfterJobs(store: Store, job: UploadJob, faults: map<int, JobFault>, done: set<int>): (s: Store)
    requires job.Valid() && IndicesOk(job, done)
    ensures s.Keys == store.Keys + CreatedKeys(job, faults, done)
  {
    map k | k in store.Keys + CreatedKeys(job, faults, done) ::
      if Creates(job, faults, done, k) then JobWrite(job, k.index, FaultOf(faults, k.index)).value else store[k]
  }

  /** A key holds its own job's bytes if that job created it, and what it held before otherwise. */
  lemma AfterJobsAt(store: Store, job: UploadJob, faults: map<int, JobFault>, done: set<int>, k: ChunkKey)
    requires job.Valid() && IndicesOk(job, done)
    ensures Creates(job, faults, done, k) ==>
      k in AfterJobs(store, job, faults, done)
      && AfterJobs(store, job, faults, done)[k] == JobWrite(job, k.index, FaultOf(faults, k.index)).value
    ensures !Creates(job, faults, done, k) ==>
      (k in AfterJobs(store, job, faults, done) <==> k in store)
      && (k in store ==> AfterJobs(store, job, faults, done)[k] == store[k])
  {
  }

  /** Before any job has run the store is as it was. */
  lemma AfterNoJobs(store: Store, job: UploadJob, faults: map<int, JobFault>)
    requires job.Valid()
    ensures AfterJobs(store, job, faults, {}) == store
  {
    var s := AfterJobs(store, job, faults, {});
    assert CreatedKeys(job, faults, {}) == {};
    forall k | k in s ensures s[k] == store[k] {
      AfterJobsAt(store, job, faults, {}, k);
    }
  }

  /** Running one more job extends the set of jobs that have run. */
  lemma AfterJobsStep(store: Store, job: UploadJob, faults: map<int, JobFault>, done: set<int>, i: int)
    requires job.Valid() && IndicesOk(job, done) && 0 <= i < job.threadCount
    ensures ApplyJob(AfterJobs(store, job, faults, done), job, i, FaultOf(faults, i))
         == AfterJobs(store, job, faults, done + {i})
  {
    var lhs := ApplyJob(AfterJobs(store, job, faults, done), job, i, FaultOf(faults, i));
    var rhs := AfterJobs(store, job, faults, done + {i});
    forall k ensures (k in lhs <==> k in rhs) && (k in lhs ==> lhs[k] == rhs[k]) {
      if k == ChunkKey(job.fileID, i) && FaultOf(faults, i) != CreateFails {
        AfterJobsStepOwn(store, job, faults, done, i);
      } else {
        AfterJobsStepOther(store, job, faults, done, i, k);
      }
    }
  }

  /** The key of the job that ran holds what that job wrote. */
  lemma AfterJobsStepOwn(store: Store, job: UploadJob, faults: map<int, JobFault>, done: set<int>, i: int)
    requires job.Valid() && IndicesOk(job, done) && 0 <= i < job.threadCount
    requires FaultOf(faults, i) != CreateFails
    ensures var k := ChunkKey(job.fileID, i);
      && k in ApplyJob(AfterJobs(store, job, faults, done), job, i, FaultOf(faults, i))
      && k in AfterJobs(store, job, faults, done + {i})
      && ApplyJob(AfterJobs(store, job, faults, done), job, i, FaultOf(faults, i))[k]
         == AfterJobs(store, job, faults, done + {i})[k]
  {
    var k := ChunkKey(job.fileID, i);
    var w := JobWrite(job, i, FaultOf(faults, i));
    assert Creates(job, faults, done + {i}, k);
    AfterJobsAt(store, job, faults, done + {i}, k);
    assert ApplyJob(AfterJobs(store, job, faults, done), job, i, FaultOf(faults, i))
        == AfterJobs(store, job, faults, done)[k := w.value];
  }

  /** Every other key is untouched by the job that ran. */
  lemma AfterJobsStepOther(store: Store, job: UploadJob, faults: map<int, JobFault>, done: set<int>, i: int, k: ChunkKey)
    requires job.Valid() && IndicesOk(job, done) && 0 <= i < job.threadCount
    requires k != ChunkKey(job.fileID, i) || FaultOf(faults, i) == CreateFails
    ensures var lhs := ApplyJob(AfterJobs(store, job, faults, done), job, i, FaultOf(faults, i));
      var rhs := AfterJobs(store, job, faults, done + {i});
      (k in lhs <==> k in rhs) && (k in lhs ==> lhs[k] == rhs[k])
  {
    var before := AfterJobs(store, job, faults, done);
    assert Creates(job, faults, done, k) == Creates(job, faults, done + {i}, k);
    AfterJobsAt(store, job, faults, done, k);
    AfterJobsAt(store, job, faults, done + {i}, k);
    if k != ChunkKey(job.fileID, i) {
      JobTouchesOnlyItsKey(before, job, i, FaultOf(faults, i), k);
    }
  }

  /** The step of a loop that runs jobs 0, 1, 2, ... in turn. */
  lemma AfterJobsNext(store: Store, job: UploadJob, faults: map<int, JobFault>, i: int)
    requires job.Valid() && 0 <= i < job.threadCount
    ensures IndicesOk(job, Below(i)) && IndicesOk(job, Below(i + 1))
    ensures ApplyJob(AfterJobs(store, job, faults, Below(i)), job, i, FaultOf(faults, i))
         == AfterJobs(store, job, faults, Below(i + 1))
  {
    AfterJobsStep(store, job, faults, Below(i), i);
    assert Below(i) + {i} == Below(i + 1);
  }

  predicate OrderOk(job: UploadJob, order: seq<int>)
  {
    forall k :: 0 <= k < |order| ==> 0 <= order[k] < job.threadCount
  }

  /** The jobs run one after another, in the order `order` lists them. */
  function RunJobs(store: Store, job: UploadJob, faults: map<int, JobFault>, order: seq<int>): (s: Store)
    requires job.Valid() && OrderOk(job, order)
    ensures store.Keys <= s.Keys
    ensures forall k :: k in s && k !in store ==> k.fileID == job.fileID && k.index in order
    ensures forall k :: k in store && (k.fileID != job.fileID || k.index !in order) ==> s[k] == store[k]
  {
    if order == [] then store
    else
      var last := order[|order| - 1];
      ApplyJob(RunJobs(store, job, faults, order[..|order| - 1]), job, last, FaultOf(faults, last))
  }

  /** The set of jobs an order lists. */
  function Listed(order: seq<int>): (l: set<int>)
    ensures forall x :: x in l <==> x in order
  {
    if order == [] then {}
    else
      var init := order[..|order| - 1];
      assert order == init + [order[|order| - 1]];
      Listed(init) + {order[|order| - 1]}
  }

  /** Whatever order the jobs run in, the store ends up as AfterJobs of the jobs that ran. */
  lemma {:induction false} RunJobsIsAfterJobs(store: Store, job: UploadJob, faults: map<int, JobFault>, order: seq<int>)
    requires job.Valid() && OrderOk(job, order)
    ensures IndicesOk(job, Listed(order))
    ensures RunJobs(store, job, faults, order) == AfterJobs(store, job, faults, Listed(order))
  {
    if order == [] {
      AfterNoJobs(store, job, faults);
    } else {
      var init := order[..|order| - 1];
      var last := order[|order| - 1];
      assert order == init + [last];
      RunJobsIsAfterJobs(store, job, faults, init);
      AfterJobsStep(store, job, faults, Listed(init), last);
    }
  }

  /**
   * The goroutines write distinct keys, so any two schedules that run the same
   * jobs leave the same store.
   */
  lemma JobOrderIrrelevant(store: Store, job: UploadJob, faults: map<int, JobFault>, o1: seq<int>, o2: seq<int>)
    requires job.Valid() && OrderOk(job, o1) && OrderOk(job, o2)
    requires forall x :: x in o1 <==> x in o2
    ensures RunJobs(store, job, faults, o1) == RunJobs(store, job, faults, o2)
  {
    RunJobsIsAfterJobs(store, job, faults, o1);
    RunJobsIsAfterJobs(store, job, faults, o2);
    var l1, l2 := Listed(o1), Listed(o2);
    forall x ensures x in l1 <==> x in l2 {
      assert x in l1 <==> x in o1;
      assert x in l2 <==> x in o2;
    }
    assert l1 == l2;
  }

  /** Job `i` touches no key but its own. */
  lemma JobTouchesOnlyItsKey(store: Store, job: UploadJob, i: int, fault: JobFault, k: ChunkKey)
    requires job.Valid() && 0 <= i < job.threadCount
    requires k != ChunkKey(job.fileID, i)
    ensures k in ApplyJob(store, job, i, fault) <==> k in store
    ensures k in store ==> ApplyJob(store, job, i, fault)[k] == store[k]
  {
  }

  /** The indices 0..n-1 of the jobs a handler with n threads starts. */
  function Below(n: int): (b: set<int>)
    ensures forall i :: i in b <==> 0 <= i < n
  {
    if n <= 0 then {} else Below(n - 1) + {n - 1}
  }

  // ---------------------------------------------------------------------------
  // Stitching (main.go:103-137)

  /** The size of the copy buffer (main.go:121). */
  const BlockSize: nat := 1024

  /**
   * How reading chunk file `i` back can go: the `Read` call numbered
   * `failingRead` (from 0) returns an error, and `Close` can fail.
   */
  datatype ReadFault = ReadFault(failingRead: Option<nat>, closeFails: bool)

  const Clean := ReadFault(None, false)

  function ReadFaultOf(faults: map<int, ReadFault>, i: int): ReadFault
  {
    if i in faults then faults[i] else Clean
  }

  /**
   * What the 1024-byte copy loop appends to the output for one chunk file:
   * all of it, unless a read fails first, in which case the whole blocks
   * read before the failure.
   */
  function Copied(data: seq<byte>, fault: ReadFault): (c: seq<byte>)
    ensures c <= data
    ensures fault.failingRead.None? ==> c == data
    ensures fault.failingRead.Some? ==> |c| == Min(|data|, BlockSize * fault.failingRead.value)
  {
    match fault.failingRead
    case None => data
    case Some(k) => data[..Min(|data|, BlockSize * k)]
  }

  predicate ChunksPresent(store: Store, fileID: string, k: int)
  {
    forall j :: 0 <= j < k ==> ChunkKey(fileID, j) in store
  }

  /**
   * The output after chunks 0..k-1 were copied in ascending order.  The file
   * is only ever appended to: the output after any earlier chunk is a prefix.
   */
  function Assembled(store: Store, fileID: string, faults: map<int, ReadFault>, k: nat): (a: seq<byte>)
    requires ChunksPresent(store, fileID, k)
    ensures forall j :: 0 <= j < k ==> Assembled(store, fileID, faults, j) <= a
  {
    if k == 0 then []
    else Assembled(store, fileID, faults, k - 1) + Copied(store[ChunkKey(fileID, k - 1)], ReadFaultOf(faults, k - 1))
  }

  /** The plain concatenation of chunks 0..k-1: the reference the stitched file is held to. */
  function ConcatChunks(store: Store, fileID: string, k: nat): (out: seq<byte>)
    requires ChunksPresent(store, fileID, k)
  {
    if k == 0 then [] else ConcatChunks(store, fileID, k - 1) + store[ChunkKey(fileID, k - 1)]
  }

  /**
   * The index at which stitching stops, starting from `i`: the first chunk
   * that is missing or whose `Close` fails, or `threadCount` if there is none.
   */
  function FirstStop(store: Store, fileID: string, faults: map<int, ReadFault>, threadCount: int, i: nat): (s: nat)
    decreases threadCount - i
    ensures i <= s <= Max(i, threadCount)
    ensures forall j :: i <= j < s ==> ChunkKey(fileID, j) in store && !ReadFaultOf(faults, j).closeFails
    ensures s < threadCount ==> ChunkKey(fileID, s) !in store || ReadFaultOf(faults, s).closeFails
  {
    if threadCount <= i then i
    else if ChunkKey(fileID, i) !in store || ReadFaultOf(faults, i).closeFails then i
    else FirstStop(store, fileID, faults, threadCount, i + 1)
  }

  /** FirstStop from 0 is the least index at which stitching stops. */
  lemma FirstStopIsLeast(store: Store, fileID: string, faults: map<int, ReadFault>, threadCount: int, s: nat)
    requires forall j :: 0 <= j < s ==> ChunkKey(fileID, j) in store && !ReadFaultOf(faults, j).closeFails
    requires s < threadCount ==> ChunkKey(fileID, s) !in store || ReadFaultOf(faults, s).closeFails
    requires s <= Max(threadCount, 0)
    ensures FirstStop(store, fileID, faults, threadCount, 0) == s
  {
  }

  datatype StitchOutcome = Stitched | OutputCreateFailed | MissingChunk(index: int) | CloseFailed(index: int)

  datatype StitchResult = StitchResult(outcome: StitchOutcome, output: seq<byte>)

  /**
   * `StitchFile` once the output file was created: the outcome it reports and
   * what the output file then holds.
   */
  function StitchSpec(store: Store, fileID: string, faults: map<int, ReadFault>, threadCount: int): (r: StitchResult)
    ensures r.outcome != OutputCreateFailed
    ensures r.outcome == Stitched <==>
      forall j :: 0 <= j < threadCount ==> ChunkKey(fileID, j) in store && !ReadFaultOf(faults, j).closeFails
    ensures r.outcome.MissingChunk? ==>
      0 <= r.outcome.index < threadCount && ChunkKey(fileID, r.outcome.index) !in store
      && ChunksPresent(store, fileID, r.outcome.index)
      && (forall j :: 0 <= j < r.outcome.index ==> !ReadFaultOf(faults, j).closeFails)
      && r.output == Assembled(store, fileID, faults, r.outcome.index)
    ensures r.outcome.CloseFailed? ==>
      0 <= r.outcome.index < threadCount && ReadFaultOf(faults, r.outcome.index).closeFails
      && ChunksPresent(store, fileID, r.outcome.index + 1)
      && (forall j :: 0 <= j < r.outcome.index ==> !ReadFaultOf(faults, j).closeFails)
      && r.output == Assembled(store, fileID, faults, r.outcome.index + 1)
    ensures r.outcome == Stitched ==>
      ChunksPresent(store, fileID, threadCount) && r.output == Assembled(store, fileID, faults, Max(threadCount, 0))
  {
    var s := FirstStop(store, fileID, faults, threadCount, 0);
    if threadCount <= s then StitchResult(Stitched, Assembled(store, fileID, faults, s))
    else if ChunkKey(fileID, s) !in store then StitchResult(MissingChunk(s), Assembled(store, fileID, faults, s))
    else StitchResult(CloseFailed(s), Assembled(store, fileID, faults, s + 1))
  }

  /** With no read faults, copying chunk by chunk is plain concatenation. */
  lemma {:induction false} AssembledCleanIsConcat(store: Store, fileID: string, k: nat)
    requires ChunksPresent(store, fileID, k)
    ensures Assembled(store, fileID, map[], k) == ConcatChunks(store, fileID, k)
  {
    if k > 0 {
      AssembledCleanIsConcat(store, fileID, k - 1);
    }
  }

  /** When every chunk exists and reads cleanly, the output is chunks 0..threadCount-1 in order. */
  lemma StitchAllPresent(store: Store, fileID: string, threadCount: nat)
    requires ChunksPresent(store, fileID, threadCount)
    ensures StitchSpec(store, fileID, map[], threadCount) == StitchResult(Stitched, ConcatChunks(store, fileID, threadCount))
  {
    AssembledCleanIsConcat(store, fileID, threadCount);
  }

  /**
   * A missing chunk `m` is reported as such, after chunks 0..m-1 were
   * copied, and never skipped.
   */
  lemma StitchReportsMissing(store: Store, fileID: string, threadCount: int, m: nat)
    requires m < threadCount && ChunksPresent(store, fileID, m) && ChunkKey(fileID, m) !in store
    ensures StitchSpec(store, fileID, map[], threadCount) == StitchResult(MissingChunk(m), ConcatChunks(store, fileID, m))
  {
    AssembledCleanIsConcat(store, fileID, m);
  }

  /** Whatever the faults, the output is a prefix of the chunks' concatenation up to the stop. */
  lemma {:induction false} AssembledIsBoundedByConcat(store: Store, fileID: string, faults: map<int, ReadFault>, k: nat)
    requires ChunksPresent(store, fileID, k)
    ensures |Assembled(store, fileID, faults, k)| <= |ConcatChunks(store, fileID, k)|
    ensures (forall j :: 0 <= j < k ==> ReadFaultOf(faults, j).failingRead.None?) ==>
      Assembled(store, fileID, faults, k) == ConcatChunks(store, fileID, k)
  {
    if k > 0 {
      AssembledIsBoundedByConcat(store, fileID, faults, k - 1);
    }
  }
}
