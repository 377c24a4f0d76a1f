/**
 * The browser side (script.js:1-22): how `uploadFile` cuts the chosen file
 * into one slice per thread before posting each slice.  Its rule differs from
 * the server's: chunkSize = ceil(size / numThreads), and chunk `i` is the
 * half-open range [i * chunkSize, min(i * chunkSize + chunkSize, size)).
 */
module ClientPartition {
  import opened Common

  /** The selected file: its name and its bytes (`file.size` is their number). */
  datatype ClientFile = ClientFile(name: string, data: seq<byte>)

  /** The form data one chunk request carries (script.js:18-22). */
  datatype ChunkForm = ChunkForm(file: seq<byte>, chunkNumber: int, totalChunks: int, fileID: string)

  /** Either the alert shown instead of uploading, or the chunk requests, in index order. */
  datatype UploadPlan = Alert(message: string) | Requests(forms: seq<ChunkForm>)

  const MissingInputAlert := "Please select a file and specify the number of threads."

  /** `Math.ceil(file.size / numThreads)` (script.js:10), in integers. */
  function ClientChunkSize(size: nat, numThreads: int): (cs: nat)
    requires numThreads >= 1
    ensures (cs - 1) * numThreads < size <= cs * numThreads
  {
    var q := (size + numThreads - 1) / numThreads;
    assert q * numThreads <= size + numThreads - 1 < (q + 1) * numThreads;
    q
  }

  /**
   * `Blob.prototype.slice(start, end)` for non-negative arguments: both are
   * clamped to the blob's size, and a range that ends before it starts is empty.
   */
  function BlobSlice(data: seq<byte>, start: nat, end: nat): (b: seq<byte>)
    ensures |b| == Max(0, Min(end, |data|) - Min(start, |data|))
    ensures start <= end <= |data| ==> b == data[start..end]
    ensures start >= |data| ==> b == []
  {
    var lo := Min(start, |data|);
    var hi := Min(end, |data|);
    if lo <= hi then data[lo..hi] else []
  }

  /**
   * `start` of chunk `i` (script.js:15): each chunk starts chunkSize bytes
   * after the one before it, and chunk numThreads would start at or past the
   * end of the file.
   */
  function ChunkStart(size: nat, numThreads: int, i: nat): (s: nat)
    requires numThreads >= 1
    ensures i == 0 ==> s == 0
    ensures i >= 1 ==> s == ChunkStart(size, numThreads, i - 1) + ClientChunkSize(size, numThreads)
    ensures i >= numThreads ==> s >= size
  {
    var cs := ClientChunkSize(size, numThreads);
    assert i >= 1 ==> i * cs == (i - 1) * cs + cs;
    assert i == numThreads ==> i * cs == cs * numThreads;
    i * cs
  }

  /** `end` of chunk `i` (script.js:16): chunkSize bytes on from its start, but never past the end. */
  function ChunkEnd(size: nat, numThreads: int, i: nat): (e: nat)
    requires numThreads >= 1
    ensures e <= size && e <= ChunkStart(size, numThreads, i) + ClientChunkSize(size, numThreads)
    ensures e == size || e == ChunkStart(size, numThreads, i) + ClientChunkSize(size, numThreads)
  {
    Min(ChunkStart(size, numThreads, i) + ClientChunkSize(size, numThreads), size)
  }

  /**
   * `file.slice(start, end)` for chunk `i` (script.js:17): at most chunkSize
   * bytes, empty when it starts at or past the end, and otherwise exactly
   * the bytes of its range.
   */
  function ClientChunk(data: seq<byte>, numThreads: int, i: nat): (c: seq<byte>)
    requires numThreads >= 1
    ensures |c| <= ClientChunkSize(|data|, numThreads)
    ensures ChunkStart(|data|, numThreads, i) >= |data| ==> c == []
    ensures ChunkStart(|data|, numThreads, i) < |data| ==>
      c == data[ChunkStart(|data|, numThreads, i)..ChunkEnd(|data|, numThreads, i)]
  {
    BlobSlice(data, ChunkStart(|data|, numThreads, i), ChunkEnd(|data|, numThreads, i))
  }

  /**
   * `uploadFile` up to the requests it would send: a missing file or an empty
   * thread count shows an alert (script.js:5-8); otherwise
   * `Array.from({ length: numThreads }, ...)` builds one form per index, none
   * at all when the count is zero or negative.
   */
  function PlanClientUpload(file: Option<ClientFile>, numThreads: Option<int>): (p: UploadPlan)
    ensures p.Alert? <==> file.None? || numThreads.None?
    ensures p.Alert? ==> p.message == MissingInputAlert
    ensures p.Requests? ==> |p.forms| == Max(numThreads.value, 0)
    ensures p.Requests? ==> forall i :: 0 <= i < |p.forms| ==>
      && p.forms[i].chunkNumber == i
      && p.forms[i].totalChunks == numThreads.value
      && p.forms[i].fileID == file.value.name
      && p.forms[i].file == ClientChunk(file.value.data, numThreads.value, i)
  {
    if file.None? || numThreads.None? then Alert(MissingInputAlert)
    else
      var n := numThreads.value;
      if n <= 0 then Requests([])
      else
        var f := file.value;
        Requests(seq(n, i requires 0 <= i < n => ChunkForm(ClientChunk(f.data, n, i), i, n, f.name)))
  }

  /**
   * A non-empty chunk follows straight on from the chunk before it, which is
   * then full: consecutive non-empty chunks leave no gap and do not overlap.
   */
  lemma ChunksContiguous(data: seq<byte>, numThreads: int, i: nat)
    requires numThreads >= 1
    requires ClientChunk(data, numThreads, i + 1) != []
    ensures ChunkEnd(|data|, numThreads, i) == ChunkStart(|data|, numThreads, i + 1)
    ensures |ClientChunk(data, numThreads, i)| == ClientChunkSize(|data|, numThreads)
  {
    assert ChunkStart(|data|, numThreads, i + 1) < |data|;
  }

  /** Chunk k is the file between the starts of chunks k and k + 1, both clamped to the file's size. */
  lemma ChunkIsClampedRange(data: seq<byte>, numThreads: int, k: nat)
    requires numThreads >= 1
    ensures Min(ChunkStart(|data|, numThreads, k), |data|) <= Min(ChunkStart(|data|, numThreads, k + 1), |data|)
    ensures ClientChunk(data, numThreads, k)
         == data[Min(ChunkStart(|data|, numThreads, k), |data|)..Min(ChunkStart(|data|, numThreads, k + 1), |data|)]
  {
    assert ChunkStart(|data|, numThreads, k + 1) == ChunkStart(|data|, numThreads, k) + ClientChunkSize(|data|, numThreads);
  }

  /** The bytes of forms 0..k-1 put back together. */
  function ConcatForms(forms: seq<ChunkForm>): seq<byte>
  {
    if forms == [] then [] else ConcatForms(forms[..|forms| - 1]) + forms[|forms| - 1].file
  }

  /** Chunks 0..k-1 together are the file up to the start of chunk k. */
  lemma {:induction false} ChunksPrefix(data: seq<byte>, numThreads: int, forms: seq<ChunkForm>)
    requires numThreads >= 1
    requires forall i :: 0 <= i < |forms| ==> forms[i].file == ClientChunk(data, numThreads, i)
    ensures ConcatForms(forms) == data[..Min(ChunkStart(|data|, numThreads, |forms|), |data|)]
  {
    if forms == [] {
      assert ConcatForms(forms) == [];
    } else {
      var k := |forms| - 1;
      ChunksPrefix(data, numThreads, forms[..k]);
      var lo := Min(ChunkStart(|data|, numThreads, k), |data|);
      var hi := Min(ChunkStart(|data|, numThreads, k + 1), |data|);
      ChunkIsClampedRange(data, numThreads, k);
      assert ConcatForms(forms) == data[..lo] + data[lo..hi];
      PrefixJoin(data, lo, hi);
    }
  }

  lemma PrefixJoin(data: seq<byte>, lo: nat, hi: nat)
    requires lo <= hi <= |data|
    ensures data[..lo] + data[lo..hi] == data[..hi]
  {
  }

  /**
   * Exactly numThreads chunks are sent and, put back together in
   * chunkNumber order, they are the whole file: numThreads * chunkSize is at
   * least the file's size.
   */
  lemma ClientUploadCoversFile(file: ClientFile, numThreads: int)
    requires numThreads >= 1
    ensures var p := PlanClientUpload(Some(file), Some(numThreads));
      p.Requests? && |p.forms| == numThreads && ConcatForms(p.forms) == file.data
  {
    var forms := PlanClientUpload(Some(file), Some(numThreads)).forms;
    ChunksPrefix(file.data, numThreads, forms);
    assert file.data[..|file.data|] == file.data;
  }

  /** Ten bytes on four threads: chunks of 3, 3, 3 and 1 bytes. */
  lemma TenBytesFourThreads()
    ensures ClientChunkSize(10, 4) == 3
    ensures ChunkStart(10, 4, 3) == 9 && ChunkEnd(10, 4, 3) == 10
  {
  }
}
