/**
 * The server side of main.go: the upload handler, its chunk jobs and
 * `StitchFile`, over a working directory that holds the chunk files and the
 * stitched output file.  The goroutines of main.go:51-94 run here one after
 * another in index order; each writes only its own key, so by
 * ChunkStore.JobOrderIrrelevant any other schedule leaves the same store.
 */
module Server {
  import opened Common
  import opened Strconv
  import opened RangePlan
  import opened Section
  import opened ChunkStore
  import opened RoundTrip

  /** The HTTP reply: status code and body. */
  datatype Response = Response(status: int, body: string)

  const UploadedText := " uploaded and processed successfully with "

  /**
   * The body of the 200 reply (main.go:100): "File ", the fileID, the fixed
   * text, the thread count in decimal and " threads", so that the fileID and
   * the count can be read back from it.
   */
  function SuccessMessage(fileID: string, threadCount: int): (msg: string)
    ensures var n, d := |fileID|, |Itoa(threadCount)|;
      && |msg| == 5 + n + |UploadedText| + d + 8
      && msg[..5] == "File "
      && msg[5..5 + n] == fileID
      && msg[5 + n..5 + n + |UploadedText|] == UploadedText
      && msg[5 + n + |UploadedText|..|msg| - 8] == Itoa(threadCount)
      && msg[|msg| - 8..] == " threads"
  {
    var digits := Itoa(threadCount);
    FourPartSlices("File ", fileID, UploadedText, digits, " threads");
    "File " + fileID + UploadedText + digits + " threads"
  }

  /** The parts of a concatenation can be sliced back out of it. */
  lemma FourPartSlices(a: string, b: string, c: string, d: string, e: string)
    ensures var m := a + b + c + d + e;
      && |m| == |a| + |b| + |c| + |d| + |e|
      && m[..|a|] == a
      && m[|a|..|a| + |b|] == b
      && m[|a| + |b|..|a| + |b| + |c|] == c
      && m[|a| + |b| + |c|..|m| - |e|] == d
      && m[|m| - |e|..] == e
  {
    var m := a + b + c + d + e;
    assert m == a + (b + (c + (d + e)));
    assert m[|a|..] == b + (c + (d + e));
    assert m[|a| + |b|..] == c + (d + e);
    assert m[|a| + |b| + |c|..] == d + e;
  }

  /**
   * The reply the handler sends, which depends on nothing but the two form
   * values: a bad thread count is reported first, then a missing fileID
   * (`http.Error` appends a newline), and otherwise success, whatever
   * happened to the chunk jobs and the stitching.
   */
  function Respond(threads: string, fileID: string): (resp: Response)
    ensures resp.status == 200 <==> Atoi(threads).Some? && Atoi(threads).value > 0 && fileID != ""
    ensures resp.status != 200 ==> resp.status == 400
    ensures (Atoi(threads).None? || Atoi(threads).value <= 0) ==> resp.body == "Invalid thread count\n"
    ensures Atoi(threads).Some? && Atoi(threads).value > 0 && fileID == "" ==> resp.body == "FileId is missing\n"
    ensures resp.status == 200 ==> resp.body == SuccessMessage(fileID, Atoi(threads).value)
  {
    var t := Atoi(threads);
    if t.None? || t.value <= 0 then Response(400, "Invalid thread count\n")
    else if fileID == "" then Response(400, "FileId is missing\n")
    else Response(200, SuccessMessage(fileID, t.value))
  }

  /**
   * A thread count of zero is rejected however it is spelled, and a
   * non-canonical spelling of three is accepted as three.
   */
  lemma RespondThreadSpellings(fileID: string)
    requires fileID != ""
    ensures Respond("0", fileID) == Response(400, "Invalid thread count\n")
    ensures Respond("00", fileID) == Response(400, "Invalid thread count\n")
    ensures Respond("+0", fileID) == Response(400, "Invalid thread count\n")
    ensures Respond("-0", fileID) == Response(400, "Invalid thread count\n")
    ensures Respond("03", fileID) == Response(200, SuccessMessage(fileID, 3))
    ensures Respond("+3", fileID) == Response(200, SuccessMessage(fileID, 3))
  {
    AtoiSmallValues();
  }

  /**
   * `io.NewSectionReader(file, off, len).Read(buf)` with `len(buf) == len`:
   * copies into the zeroed buffer what the payload has from `off` on and
   * returns how many bytes that was.
   */
  method ReadSection(src: seq<byte>, off: nat, buf: array<byte>) returns (n: nat)
    requires forall j :: 0 <= j < buf.Length ==> buf[j] == 0
    modifies buf
    ensures n == ReadCount(src, off, buf.Length)
    ensures buf[..] == SectionBytes(src, off, buf.Length)
  {
    n := ReadCount(src, off, buf.Length);
    for k := 0 to n
      invariant forall j :: 0 <= j < k ==> buf[j] == src[off + j]
      invariant forall j :: k <= j < buf.Length ==> buf[j] == 0
    {
      buf[k] := src[off + k];
    }
  }

  /** The directory the server writes into: the chunk files and the stitched file. */
  class WorkDir {
    var chunks: Store
    var output: seq<byte>

    constructor ()
      ensures chunks == map[] && output == []
    {
      chunks := map[];
      output := [];
    }

    /** The goroutine for chunk `threadNum` (main.go:54-93). */
    method RunChunkJob(job: UploadJob, threadNum: int, fault: JobFault)
      requires job.Valid() && 0 <= threadNum < job.threadCount
      modifies this`chunks
      ensures chunks == ApplyJob(old(chunks), job, threadNum, fault)
    {
      var r := PlanRange(job.fileSize, job.threadCount, threadNum);
      var key := ChunkKey(job.fileID, threadNum);
      // os.Create: a failure leaves the directory as it was.
      if fault == CreateFails {
        return;
      }
      chunks := chunks[key := []];
      var len: nat := r.Len();
      var buf := new byte[len](_ => 0);
      var n := ReadSection(job.source, r.start, buf);
      ghost var full := buf[..];
      assert full == ChunkBuffer(job, threadNum);
      if fault == ReadFails {
        return;
      }
      // dst.Write(buf): the whole buffer, however few bytes the read returned.
      var written := if fault.WriteFails? then Min(fault.written, buf.Length) else buf.Length;
      assert buf[..written] == full[..written];
      if fault.WriteFails? {
        assert JobWrite(job, threadNum, fault) == Some(full[..written]);
      } else {
        assert full[..written] == full;
      }
      chunks := chunks[key := buf[..written]];
    }

    /** The loop of main.go:51-94 that starts one chunk job per thread, run in index order. */
    method RunAllJobs(job: UploadJob, faults: map<int, JobFault>)
      requires job.Valid()
      modifies this`chunks
      ensures chunks == AfterJobs(old(chunks), job, faults, Below(job.threadCount))
    {
      var i := 0;
      assert Below(0) == {};
      AfterNoJobs(chunks, job, faults);
      while i < job.threadCount
        invariant 0 <= i <= job.threadCount
        invariant IndicesOk(job, Below(i))
        invariant chunks == AfterJobs(old(chunks), job, faults, Below(i))
      {
        AfterJobsNext(old(chunks), job, faults, i);
        RunChunkJob(job, i, FaultOf(faults, i));
        i := i + 1;
      }
      assert i == job.threadCount;
    }

    /**
     * The copy loop of main.go:120-129: read the chunk file 1024 bytes at a
     * time and append each block to the output until a read returns an error,
     * `io.EOF` included.
     */
    method CopyChunk(data: seq<byte>, fault: ReadFault)
      modifies this`output
      ensures output == old(output) + Copied(data, fault)
    {
      var pos, calls := 0, 0;
      while true
        invariant pos == Min(|data|, BlockSize * calls)
        invariant fault.failingRead.Some? ==> calls <= fault.failingRead.value
        invariant output == old(output) + data[..pos]
        decreases |data| - pos
      {
        // Read call number `calls`: an injected error, or EOF once the file is used up.
        if fault.failingRead == Some(calls) || pos == |data| {
          break;
        }
        var n := Min(BlockSize, |data| - pos);
        output := output + data[pos..pos + n];
        pos := pos + n;
        calls := calls + 1;
      }
    }

    /**
     * `StitchFile` (main.go:103-137): create the output file, then copy chunks
     * 0..threadCount-1 into it in ascending order, stopping at the first
     * chunk file that is missing or fails to close.
     */
    method StitchFile(fileID: string, threadCount: int, createOk: bool, faults: map<int, ReadFault>)
      returns (outcome: StitchOutcome)
      modifies this`output
      ensures !createOk ==> outcome == OutputCreateFailed && output == old(output)
      ensures createOk ==> StitchResult(outcome, output) == StitchSpec(chunks, fileID, faults, threadCount)
    {
      if !createOk {
        return OutputCreateFailed;
      }
      output := [];
      var i: nat := 0;
      while i < threadCount
        invariant i <= Max(threadCount, 0)
        invariant forall j :: 0 <= j < i ==> ChunkKey(fileID, j) in chunks && !ReadFaultOf(faults, j).closeFails
        invariant output == Assembled(chunks, fileID, faults, i)
      {
        var key := ChunkKey(fileID, i);
        if key !in chunks {
          FirstStopIsLeast(chunks, fileID, faults, threadCount, i);
          return MissingChunk(i);
        }
        CopyChunk(chunks[key], ReadFaultOf(faults, i));
        if ReadFaultOf(faults, i).closeFails {
          FirstStopIsLeast(chunks, fileID, faults, threadCount, i);
          return CloseFailed(i);
        }
        i := i + 1;
      }
      FirstStopIsLeast(chunks, fileID, faults, threadCount, i);
      return Stitched;
    }

    /**
     * The work the handler does for an accepted request (main.go:45-98): one
     * chunk job per thread, then the stitching, whose outcome is only logged.
     */
    method ProcessUpload(job: UploadJob, jobFaults: map<int, JobFault>, outputCreateOk: bool, readFaults: map<int, ReadFault>)
      requires job.Valid()
      modifies this
      ensures chunks == AfterJobs(old(chunks), job, jobFaults, Below(job.threadCount))
      ensures output == if outputCreateOk then StitchSpec(chunks, job.fileID, readFaults, job.threadCount).output else old(output)
      ensures jobFaults == map[] && outputCreateOk && readFaults == map[] ==>
        output == SectionBytes(job.source, 0, job.fileSize + 1)
    {
      RunAllJobs(job, jobFaults);
      var _ := StitchFile(job.fileID, job.threadCount, outputCreateOk, readFaults);
      if jobFaults == map[] && outputCreateOk && readFaults == map[] {
        UploadRoundTrip(old(chunks), job);
      }
    }

    /**
     * `UploadHandler` (main.go:15-101) from the point where the form values
     * are read: validate them, run one chunk job per thread, stitch, reply.
     * `fileSize` stands for `r.ContentLength`.
     */
    method UploadHandler(threads: string, fileID: string, fileSize: int, source: seq<byte>,
                         jobFaults: map<int, JobFault>, outputCreateOk: bool, readFaults: map<int, ReadFault>)
      returns (resp: Response)
      requires fileSize >= 0
      modifies this
      ensures resp == Respond(threads, fileID)
      ensures resp.status != 200 ==> chunks == old(chunks) && output == old(output)
      ensures resp.status == 200 ==>
        var job := UploadJob(fileID, fileSize, Atoi(threads).value, source);
        && job.Valid()
        && chunks == AfterJobs(old(chunks), job, jobFaults, Below(job.threadCount))
        && output == if outputCreateOk then StitchSpec(chunks, fileID, readFaults, job.threadCount).output else old(output)
      ensures resp.status == 200 && jobFaults == map[] && outputCreateOk && readFaults == map[] ==>
        output == SectionBytes(source, 0, fileSize + 1)
    {
      var t := Atoi(threads);
      if t.None? || t.value <= 0 {
        return Response(400, "Invalid thread count\n");
      }
      if fileID == "" {
        return Response(400, "FileId is missing\n");
      }
      var job := UploadJob(fileID, fileSize, t.value, source);
      ProcessUpload(job, jobFaults, outputCreateOk, readFaults);
      resp := Response(200, SuccessMessage(fileID, t.value));
    }
  }
}
