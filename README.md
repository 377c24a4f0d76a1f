# file-uploader: chunk planning, chunk writing and stitching

file-uploader cuts an uploaded file into chunks. Each chunk is written to its own chunk file by a
goroutine, and the chunks are then stitched back into one output file. This project models and
proves properties of the two places where that cutting happens:

- **The server (`main.go`).** `UploadHandler` checks the `threads` and `fileID` form values.
  - It computes `chunkSize = fileSize / threadCount` and gives chunk `i` the inclusive byte range
    `[i*chunkSize, i*chunkSize+chunkSize-1]`. The last range is stretched to end at `fileSize`.
  - Each chunk job reads its range into a zeroed buffer of `endByte-startByte+1` bytes, through a
    section reader, and writes the whole buffer to the chunk file `(fileID, i)`.
  - `StitchFile` then copies chunk files `0..threadCount-1`, in ascending order, into the output
    file through a 1024-byte copy loop.
- **The browser (`script.js`).** `uploadFile` cuts the chosen file into `numThreads` half-open
  slices of at most `ceil(size / numThreads)` bytes each. The trailing slices are shorter or empty.

Modules:

- `Common`: bytes, `Option`, `Min`/`Max`, zero-filled buffers.
- `Strconv`: `strconv.Atoi` for a 64-bit `int`, and `%d`.
- `RangePlan`: the server's byte ranges.
- `Section`: a positioned read into a zeroed buffer.
- `ChunkStore`: specification functions.
  - What one chunk job leaves in the store of chunk files, and the store after any set of jobs.
  - What the copy loop appends, and what `StitchFile` reports and leaves in the output file.
- `RoundTrip`: planning, writing and stitching end to end.
- `Server`: the imperative part.
  - A `WorkDir` class whose fields are the chunk files (`chunks`, a map from `(fileID, index)` to
    bytes) and the stitched file (`output`).
  - Its methods run the chunk jobs, the copy loop, `StitchFile` and the handler, each proved
    against the specification functions.
- `ClientPartition`: the browser's slicing.

Faults are parameters of the model, given per chunk index:

- a failed `os.Create`, a failed section read, or a short `Write` in a chunk job;
- a failed `Read` or `Close` while stitching;
- a failed creation of the output file.

The goroutines run one after another in index order. Each job writes only its own key, and
`ChunkStore.JobOrderIrrelevant` shows that every order of the same jobs leaves the same store.

The last range ends at `fileSize` itself (main.go:61). Because `fileSize` is a length, the ranges
together cover `fileSize + 1` positions, one past the last byte. The zeroed buffer is written whole
(main.go:78-87). So a fault-free round trip yields payload positions `0..fileSize`, with zeros where
the payload is shorter: a payload of exactly `fileSize` bytes comes back with one zero byte
appended. The model follows the code here. The comment at main.go:61 says the last chunk goes "to
the end of the file", but the inclusive `endByte = fileSize` goes one byte past it.

## Model

| member | source | states |
|---|---|---|
| Strconv.Atoi | main.go:32-33 | A value parses only if it is an optional sign followed by at least one ASCII digit, and the result lies in the 64-bit int range |
| Strconv.AtoiAcceptsSignedDigits | main.go:32-33 | Conversely, an optional sign and one or more digits whose value fits 64 bits parse, to that value with the sign applied |
| Strconv.AtoiOutOfRange | main.go:32-33 | An optional sign and digits whose value does not fit 64 bits are rejected |
| Strconv.LeadingZeroValue | main.go:32 | A leading zero does not change the value of a run of digits |
| Strconv.AtoiLeadingZero | main.go:32 | Atoi gives the same result with or without a leading zero after the sign |
| Strconv.AtoiSmallValues | main.go:32-33 | "0", "00", "+0" and "-0" parse to 0; "3", "03" and "+3" parse to 3, and "-3" to -3 |
| Strconv.NatDigits | main.go:100 | `%d` of a natural number is a non-empty run of digits that reads back as that number, with no leading zero unless it is "0" |
| Strconv.Itoa | main.go:100 | `%d` is a '-' exactly for negative numbers, then digits with no leading zero unless the number is 0 |
| Strconv.AtoiItoa | main.go:32-33 | Every 64-bit int printed with `%d` parses back to itself |
| Strconv.AtoiRejectsMalformed | main.go:31-34 | An empty value, a lone sign, or a value ending in a non-digit is rejected |
| Common.Zeros | main.go:78 | A fresh buffer of n bytes holds n zeros |
| RangePlan.ChunkSize | main.go:47 | chunkSize is floor(fileSize / threadCount): chunkSize*threadCount <= fileSize < (chunkSize+1)*threadCount |
| RangePlan.PlanRange | main.go:57-62 | Every range lies within 0..fileSize and has a non-negative buffer length |
| RangePlan.RangesContiguous | main.go:58-62 | The end of chunk i plus one is the start of chunk i+1 |
| RangePlan.RangesSpanZeroToFileSize | main.go:58-61 | The first range starts at 0 and the last ends at fileSize inclusive |
| RangePlan.RangeLengths | main.go:58-62 | Every chunk but the last holds chunkSize bytes; the last holds chunkSize + fileSize mod threadCount + 1 |
| RangePlan.RangesOrdered | main.go:58-59 | A lower-indexed range ends before a higher-indexed one starts |
| RangePlan.RangesDisjoint | main.go:58-62 | No position belongs to two ranges |
| RangePlan.RangesCover | main.go:58-62 | Every position 0..fileSize, fileSize included, belongs to some range |
| RangePlan.PlannedBytesPrefix | main.go:58-62 | Ranges 0..k-1 hold as many bytes as the end of range k-1 plus one |
| RangePlan.PlannedBytesTotal | main.go:58-62 | The ranges hold fileSize + 1 bytes in all, one more than the payload |
| RangePlan.EmptyPayloadPlan | main.go:47-62 | With fileSize 0 every range is empty except the last, which is [0, 0] |
| RangePlan.TenBytesThreeThreads | main.go:47-62 | Ten bytes on three threads give [0,2], [3,5], [6,10] |
| Section.ReadCount | main.go:80 | The read copies at most len bytes, stops only where the payload ends, and never reads past it |
| Section.SectionBytes | main.go:76-80 | The buffer byte j is payload byte off+j where that exists and 0 otherwise |
| Section.SectionBytesAppend | main.go:76-80 | Two adjacent sections read the same bytes as one section spanning both |
| Section.SectionFromStart | main.go:76-80 | A section from 0 is the payload's prefix, or the payload padded with zeros |
| Server.ReadSection | main.go:76-80 | Reading into a zeroed array leaves exactly SectionBytes in it and returns the count read |
| ChunkStore.ChunkBuffer | main.go:76-78 | The chunk buffer has the range's length endByte - startByte + 1 |
| ChunkStore.JobWrite | main.go:68-91 | A chunk job writes nothing if create fails, an empty file if the read fails, and otherwise a prefix of the buffer, all of it without a fault |
| ChunkStore.ApplyJob | main.go:65-91 | One goroutine's effect: a failed create leaves the store as it was; otherwise key (fileID, i) is added or replaced with what the job wrote, and no other key changes |
| ChunkStore.JobTouchesOnlyItsKey | main.go:65-91 | Job i leaves every key other than (fileID, i) as it was |
| ChunkStore.CreatedKeys | main.go:65-72 | The keys the jobs create are exactly (fileID, i) for the jobs whose create succeeded |
| ChunkStore.AfterJobs | main.go:51-94 | After a set of jobs the keys are the old keys plus the created ones |
| ChunkStore.AfterJobsAt | main.go:51-94 | A created key holds its own job's bytes, and every other key is unchanged |
| ChunkStore.AfterNoJobs | main.go:49-51 | With no job run, the store is unchanged |
| ChunkStore.AfterJobsStep | main.go:51-94 | Running job i after a set of jobs gives the store for that set plus i |
| ChunkStore.AfterJobsStepOwn | main.go:65-91 | After that step, key (fileID, i) holds what job i wrote |
| ChunkStore.AfterJobsStepOther | main.go:65-91 | That step leaves every other key as the set of jobs left it |
| ChunkStore.AfterJobsNext | main.go:51-94 | Running jobs 0..i-1 and then job i gives the store for jobs 0..i |
| ChunkStore.RunJobs | main.go:51-94 | Jobs run one after another in a given order never remove a key, only add keys (fileID, i) for listed i, and leave every other key's bytes as they were |
| ChunkStore.RunJobsIsAfterJobs | main.go:51-96 | Jobs run one after another, in any order, leave the store for the set of jobs that ran |
| ChunkStore.JobOrderIrrelevant | main.go:51-96 | Any two schedules of the same jobs leave the same chunk store |
| Server.WorkDir.RunChunkJob | main.go:54-93 | One goroutine, with its create, read and write faults, changes the chunk files exactly as ApplyJob says |
| Server.WorkDir.RunAllJobs | main.go:49-96 | Running jobs 0..threadCount-1 leaves the store for that set of jobs |
| ChunkStore.Copied | main.go:121-129 | The copy loop appends a prefix of the chunk: all of it with no read error, and the whole 1024-byte blocks before the failing read otherwise |
| Server.WorkDir.CopyChunk | main.go:120-129 | The 1024-byte read loop appends exactly Copied(chunk, fault) to the output |
| ChunkStore.Assembled | main.go:112-129 | The output is only appended to: after any earlier chunk it is a prefix of the output after chunk k |
| ChunkStore.FirstStop | main.go:112-133 | Stitching stops at the first index whose chunk is missing or fails to close, or at threadCount |
| ChunkStore.FirstStopIsLeast | main.go:112-133 | Any index with those properties is the one FirstStop finds |
| ChunkStore.StitchSpec | main.go:111-136 | Success iff every chunk exists and closes; a reported missing chunk or close failure at i is the first failure, since every earlier chunk exists and closed cleanly; a missing chunk i leaves chunks 0..i-1 copied, and a close failure at i leaves chunks 0..i copied |
| Server.WorkDir.StitchFile | main.go:103-137 | A failed output create changes nothing; otherwise outcome and output are StitchSpec's |
| ChunkStore.AssembledCleanIsConcat | main.go:112-129 | With no read faults, copying chunk by chunk is plain concatenation, whatever the block size |
| ChunkStore.AssembledIsBoundedByConcat | main.go:112-129 | Under any faults the output is no longer than the concatenation, and equal to it when no read fails |
| ChunkStore.StitchAllPresent | main.go:112-136 | When every chunk exists and reads cleanly, the output is chunks 0..threadCount-1 in order |
| ChunkStore.StitchReportsMissing | main.go:114-118 | A missing chunk m is reported, and the output holds only chunks 0..m-1 |
| RoundTrip.AllJobsRunChunk | main.go:54-91 | After fault-free jobs, every chunk i holds the payload section its range names |
| RoundTrip.SectionsJoin | main.go:58-80 | The payload section up to the end of range k-2, followed by range k-1, is the section up to the end of range k-1 |
| RoundTrip.ChunksConcatToSection | main.go:58-80 | Chunks 0..k-1 together are the payload section from 0 to the end of range k-1 |
| RoundTrip.UploadRoundTrip | main.go:51-98 | Planning, writing every chunk and stitching, all without faults, gives payload positions 0..fileSize and success |
| RoundTrip.RoundTripOutput | main.go:46-98 | That output is fileSize + 1 bytes: the payload's prefix if it is longer, the payload and zeros otherwise |
| RoundTrip.ExactSizeAppendsOneZero | main.go:61 | A payload of exactly fileSize bytes comes back with one zero byte appended |
| RoundTrip.TenBytesRoundTrip | main.go:58-62 | Ten bytes on three threads come back as the ten bytes and a zero |
| Server.SuccessMessage | main.go:100 | The 200 body is "File ", the fileID, the fixed text, the decimal thread count and " threads", each of which can be sliced back out |
| Server.Respond | main.go:31-43 | 200 iff threads parses to a positive int and fileID is non-empty; the 400 bodies name the first failing check; the 200 body is the success message of main.go:100 |
| Server.RespondThreadSpellings | main.go:31-43 | "0", "00", "+0" and "-0" are rejected as an invalid thread count; "03" and "+3" are accepted as three threads |
| Server.WorkDir.ProcessUpload | main.go:45-98 | The accepted request leaves the store for jobs 0..threadCount-1 and the stitched output, which with no faults is payload positions 0..fileSize |
| Server.WorkDir.UploadHandler | main.go:31-100 | The reply depends only on the form values, whatever failed; a rejected request changes no file; an accepted one runs every job, then stitches |
| ClientPartition.ClientChunkSize | script.js:10 | chunkSize is ceil(size / numThreads): (chunkSize-1)*numThreads < size <= chunkSize*numThreads |
| ClientPartition.BlobSlice | script.js:17 | A slice clamps both ends to the size and is empty when it starts past the end |
| ClientPartition.PlanClientUpload | script.js:5-22 | An alert iff the file or thread count is missing; otherwise max(numThreads, 0) forms, form i carrying chunk i, chunkNumber i, totalChunks numThreads and fileID file.name |
| ClientPartition.ChunkStart | script.js:15 | Chunk 0 starts at 0, each chunk starts chunkSize bytes after the one before it, and chunk numThreads would start at or past the end of the file |
| ClientPartition.ChunkEnd | script.js:16 | A chunk ends chunkSize bytes after its start or at the file's end, whichever comes first |
| ClientPartition.ClientChunk | script.js:17 | A chunk holds at most chunkSize bytes; it is empty when it starts at or past the end, and otherwise it is exactly the bytes of its range |
| ClientPartition.ChunkIsClampedRange | script.js:15-17 | Chunk k is the file between the starts of chunks k and k+1, both clamped to the size |
| ClientPartition.ChunksContiguous | script.js:15-17 | A non-empty chunk starts where the chunk before it ends, and that chunk is full |
| ClientPartition.ChunksPrefix | script.js:14-17 | Chunks 0..k-1 concatenated are the file up to the start of chunk k |
| ClientPartition.ClientUploadCoversFile | script.js:10-22 | Exactly numThreads chunks are sent and, in chunkNumber order, they concatenate to the whole file |
| ClientPartition.TenBytesFourThreads | script.js:10-16 | Ten bytes on four threads give chunkSize 3 and a last chunk [9, 10) |

## Left out

- HTTP plumbing: multipart parsing, `FormFile`, CORS and server start-up (main.go:15-29, 139-156). The payload is a `seq<byte>` parameter and the form values are strings.
- Goroutines and `sync.WaitGroup` (main.go:49-55, 96) are not modelled as concurrency. The jobs run in index order, and `ChunkStore.JobOrderIrrelevant` covers every other order.
- Real file I/O and `log.Println`. The chunk files are a map from `(fileID, index)` to bytes, and every I/O failure is a fault parameter. The `%s-chunk%d` names are modelled by that key pair.
- The output file and the chunk files share one directory in the source. A `fileName` that clashes with a chunk file name is not modelled: `output` is a separate field.
- `fileSize` is `r.ContentLength`, which can be -1 and need not be the payload's length. The model takes it as a parameter that must be at least 0 and is not related to the payload.
- Server.WorkDir.UploadHandler: does not model 64-bit overflow of `endByte - startByte + 1` or of `fileSize + 1`, which could only happen when fileSize is the largest int64.
- Writes to the output file inside the copy loop (main.go:128) are taken to succeed; the source ignores their errors.
- Server.WorkDir.CopyChunk: a chunk file read returns min(1024, remaining) bytes. Short reads that return fewer bytes without an error are not modelled.
- Server.WorkDir.StitchFile: any `os.Open` failure counts as a missing chunk file; other open errors are not told apart.
- The `io.EOF` returned with the last bytes of a section read and the `n` the read returns are not used by the source and are not modelled beyond `Section.ReadCount`.
- In script.js: `fetch`, the promises, DOM and progress updates, and the floating-point progress percentage (script.js:24-56).
- ClientPartition.PlanClientUpload: `numThreads` is taken as an already-converted integer, or none when the input is empty. JavaScript's string-to-number coercion, a non-integral count and `NaN` are not modelled, and `Math.ceil` of a float division is integer ceiling division.
- The client and the server are modelled apart: the server reads `threads`, not the `chunkNumber`/`totalChunks` fields the client sends.
