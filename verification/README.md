# Engrams: a model of its chunk pipeline, durable exec protocol and transfer protocols

This project models the parts of the Engrams host and guest agents whose correctness rests on state kept
over long or interleaved runs, and proves what those parts are for.

| module | what it models |
|---|---|
| `Arithmetic`, `Coverage`, `Chunking` | products and quotients, byte fragments and counting them, cutting an image into fixed chunks |
| `Regions`, `RegionPipeline` | the region chunker fed by a producer in any order, and the whole build of an image |
| `Uploader`, `Manifests`, `Delta` | the concurrent uploader behind its bounded channel, the canonical manifest, and manifest deltas |
| `Materialize`, `Bootstrap` | reading an image back, bootstrap documents, and restoring from a registry through them |
| `SparseRechunk`, `IncrementalCapture` | which chunks a write touches, rebuilding one, the concurrent tasks of an incremental capture, and chains of captures |
| `ExecRecord`, `ExecRuns` | one durable exec record: requests, wrapper, deaths and collection passes, interleaved, and what holds over every run |
| `TailJournal`, `ExecTimeline` | attaching to a record, and the timeline a run of the protocol shows whoever attaches |
| `CaptureOutput`, `ExecEvents` | recording output, and the frames on the wire |
| `UploadBudget`, `Reaper` | the two-level upload semaphore, and the zombie reaper beside the owners of children |
| `UploadProtocol`, `FileTransfer` | concurrent streamed uploads to one path, and moving a file end to end |
| `Connect`, `Retry` | the Connect envelope stream, the blob client's retry loop |
| `Utf8`, `Sse` | lossy decoding chunk by chunk, and the event-stream parser behind it |
| `Bytes`, `Wrappers` | bytes, digests, `Option` |

Objects that the program updates in place are classes (`Regions.RegionChunker`, `Connect.ServerStream`,
`Sse.Parser`). Loops are methods proved against a specification. Protocols are transition systems: a `Step`
datatype, a guard, an effect, and theorems over every sequence of steps. The environment is a parameter: a
digest is a function `hash`, assumed collision-free only where a result needs it; which sends, puts and writes
fail, when a clock ticks, and what each look at a changing file shows are function parameters or free choices.

## What holds only under a condition

Some promises fail in a corner. Each has a concrete run, and a condition under which the promise holds exactly.

- Exactly-once coverage is detected by counting, so a byte covered twice beside a byte never covered passes
  `finish` (`RegionPipeline.OverlapSlipsThrough`). A successful finish means each chunk got as many bytes as it
  has; no byte twice and no byte missed are then equivalent (`RegionPipeline.FinishedIff`), and a double byte
  always has a hole in its own chunk (`RegionPipeline.DoubleHidesHole`).
- Two collection passes can condemn one dead exec record; the slower one then removes the directory of the
  request that came in between, and a third request starts a second command beside a running one
  (`ExecRuns.RaceSpawnsTwice`). A removal brings two live records of one exec within reach exactly when the
  directory it meets is needed (`ExecRuns.RemovalDoublesIff`), over every run exactly when some removal does
  (`ExecRuns.SafeIffHarmless`). It never happens when removals find what was condemned
  (`ExecRuns.TargetedKeeps`), and so never when passes take turns (`ExecRuns.SerialKeeps`).
- A durable capture takes every chunk of the previous manifest for published. After a capture into the local
  cache it lists chunks that nobody has put (`IncrementalCapture.DebtStays`). It is durable as a whole exactly
  when every digest it shares with the previous manifest already was (`IncrementalCapture.DurableIff`); over a
  chain, what may be missing from the store is among the new hashes of the local captures
  (`IncrementalCapture.CaptureChain`).
- `state_for` reads exit.json before it probes the wrapper, so a command that finishes between the two is
  reported dead without an exit (`TailJournal.CalledDead`). An attach does this exactly when its last poll meets
  that race (`TailJournal.OwnedEndsSo`, a clause of `TailJournal.Attach`).
- An attach reads the files before the state, so output and exit marker that land in between end the attach
  without that output (`TailJournal.LosesTail`). Its replay is whole exactly when no output came past the offset
  between the last look at the file and the read of the exit, and for certain if exit.json was there by that look
  (`TailJournal.WholeIff`, a clause of `TailJournal.Attach`).
- A request published only after the attach's bounded wait can leak another command's bytes
  (`TailJournal.LeaksLate`), exactly when the first poll finds some (a clause of `TailJournal.Attach`).
- A live exec that times out sends its exit before its forwarders are done (`ExecEvents.TimeOutTrails`, exactly
  when: `ExecEvents.TimeOutConversesIff`).
- Aborting the degradation watcher between its claim and its send loses the warning
  (`ExecEvents.WarningLost`, exactly when, over every run: `ExecEvents.WarnedIff`).
- A pid reissued between an owner's wait and its untrack leaves the new child to the reaper
  (`Reaper.ReissueSteals`). An untrack lets a status be stolen exactly when another owner counts on the pid
  (`Reaper.UntrackStealsIff`, over every run: `Reaper.SafeIffHarmless`).
- `write_file` does not check its own bytes against the declared digest: with the declared file already at the
  path, other bytes of the same size are reported written (`FileTransfer.OtherBytesReported`). What is read
  back is the source exactly when the source has the declared digest (`FileTransfer.WriteThenRead`).
- An upload can be refused although the path holds what it declared: another upload of the same file is published
  between its check of the content and its stat (`UploadProtocol.HonestRefused`, exactly when:
  `UploadProtocol.CanBeOkIff` and `UploadProtocol.AnsweredIff`).
- The collector and an attach judge one record by different ladders: a record whose wrapper died under its command
  is dead to an attach and kept by the collector (`ExecTimeline.OrphanedCommand`, exactly when they differ:
  `ExecTimeline.JudgesAgree`).
- The delays of a retried call double exactly until one is cut at the longest duration (`Retry.SleepsExactly`,
  `Retry.SleepsLonger`).
- An envelope survives encoding exactly when its length fits 32 bits (`Connect.TakeInvertsEncode`); a
  newline-free data value survives an event line exactly when it has no leading white space and no trailing
  carriage return (`Sse.DataLineIff`).
- The event parser decodes each chunk of bytes by itself, so a character whose bytes come in two chunks turns
  into replacement characters (`Sse.SplitLetter`). A split decodes to the text of the whole exactly when no cut
  falls inside a unit (`Utf8.DecodedIff`), and printed frames come back exactly when no cut falls inside a
  character (`Sse.SplitParsesIff`).

## Model

| member | source | states |
|---|---|---|
| `Regions.RegionChunker.constructor` | crates/engram-chunk-store/src/region.rs:251-260 | a fresh chunker satisfies the invariant with an empty coverage history |
| `Regions.RegionChunker.Data` | crates/engram-chunk-store/src/region.rs:98-100 | the result is the specified outcome of the call, and success appends exactly the call's pieces, cut at chunk boundaries, to the covered history and keeps the invariant |
| `Regions.RegionChunker.ZeroRun` | crates/engram-chunk-store/src/region.rs:103-105 | the same for a zero run: it covers like zero bytes although nothing is stored |
| `Regions.RegionChunker.Cover` | crates/engram-chunk-store/src/region.rs:122-135 | empty calls succeed, out-of-range calls fail and change nothing, any other call has the outcome of its pieces in order |
| `Regions.RegionChunker.CoverRun` | crates/engram-chunk-store/src/region.rs:136-185 | the loop over chunk pieces refines the piece-by-piece outcome; covered total, stored bytes, partial and emitted sets and messages stay tied to the history |
| `Regions.RegionChunker.CoverPiece` | crates/engram-chunk-store/src/region.rs:136-185 | one piece over-covers, exceeds the buffer cap, fills its chunk or leaves it short, as the history says, and the bookkeeping follows without underflow |
| `Regions.RegionChunker.Emit` | crates/engram-chunk-store/src/region.rs:187-206 | the message of a full chunk is the chunk assembled from its fragments, or Zero when no stored byte is non-zero, and the buffered count drops by exactly the stored bytes |
| `Regions.RegionChunker.Finish` | crates/engram-chunk-store/src/region.rs:109-120 | succeeds if and only if every chunk has been covered by exactly its length; the high-water mark is the largest level the buffer reached |
| `Regions.FillBody` | crates/engram-chunk-store/src/region.rs:191-196 | filling the zeroed buffer in place gives the assembled chunk and the sum of the fragment lengths |
| `Regions.FinishIff` | crates/engram-chunk-store/src/region.rs:109-118 | the two counters checked at the end agree with full coverage of every chunk, in both directions |
| `RegionPipeline.CallDone` | crates/engram-chunk-store/src/region.rs:122-185 | in a run that covers every byte once, under the cap and with the uploader alive, every call succeeds |
| `RegionPipeline.RunComplete` | crates/engram-chunk-store/src/region.rs:158-206 | after such a run the message of every chunk is that chunk of the image, whatever the order and fragmentation |
| `RegionPipeline.UploadIsCanonical` | crates/engram-chunk-store/src/region.rs:273-315 | the refs collected in any completion order and sorted are the canonical list |
| `RegionPipeline.FinishedIff` | crates/engram-chunk-store/src/region.rs:109-118 | after a successful finish, no byte twice and no byte missed are equivalent |
| `RegionPipeline.DoubleHidesHole` | crates/engram-chunk-store/src/region.rs:152-157 | after a successful finish a double-covered byte has an uncovered byte in its own chunk |
| `RegionPipeline.OverlapSlipsThrough` | crates/engram-chunk-store/src/region.rs:80-82 | a run with one byte twice and one never is accepted by every call and by finish |
| `RegionPipeline.Produce` | crates/engram-chunk-store/src/region.rs:98-105 | a producer run ends at the first failing call, or has covered exactly the pieces of all its calls |
| `RegionPipeline.Collect` | crates/engram-chunk-store/src/region.rs:98-118 | with a listening uploader an honoured run sends each chunk's message exactly once |
| `RegionPipeline.RefusedIff` | crates/engram-chunk-store/src/region.rs:122-206 | an uploader that stops listening turns the producer away exactly when a chunk it completes is no longer taken, and otherwise changes no outcome |
| `RegionPipeline.BuildFromRegions` | crates/engram-rootfs-materializer/src/lib.rs:413-443 | over every run that covers the image once, in any order, fragmentation and data and zero mix, against an uploader interleaved with it in any way the channel allows: built exactly when the put of every chunk with data lands, and else reported as an upload failure; a built manifest is the canonical one, every listed chunk is durable, the statistics add up and progress is monotone and complete, one report for every 32 chunks before the last |
| `Uploader.Upload` | crates/engram-chunk-store/src/region.rs:240-316 | for every interleaving with the producer and every completion order: built if and only if every put of the producer's script lands; the list is sorted and holds exactly one ref per put; stored content matches its digest; a failed put had been sent |
| `Uploader.Run` | crates/engram-chunk-store/src/region.rs:273-309 | the pipeline ends with every message sent, received and put, or with a put that failed among those sent, for every schedule |
| `Uploader.Pump` | crates/engram-chunk-store/src/region.rs:250-302 | sends into the bounded channel, receives and completions in any order: ends with every message sent and received and the books balanced, or with a failed put whose message had been sent; some step is always possible, every run ends, and order and bounds of the channel are kept throughout |
| `Uploader.PutChunk` | crates/engram-chunk-store/src/store.rs:160-196 | a put makes the chunk present, keeps every other object and keeps content matching its digest |
| `Manifests.DefaultChunkSize` | crates/engram-chunk-store/src/manifest.rs:55-60 | chunks are 16 MiB on disk and 512 KiB in memory |
| `Manifests.RefsToMembers` | crates/engram-chunk-store/src/region.rs:273-315 | the canonical list holds exactly the refs of the chunks with a non-zero byte |
| `Manifests.CollectedIsCanonical` | crates/engram-chunk-store/src/region.rs:311-314 | a strictly sorted list with the same members is the canonical list itself |
| `Manifests.SortByOffset` | crates/engram-chunk-store/src/region.rs:311-311 | sorting gives a sorted permutation |
| `Manifests.Validate` | crates/engram-chunk-store/src/manifest.rs:341-379 | accepts exactly the manifests of a supported schema whose offsets are aligned, in range and strictly increasing |
| `Delta.ApplyUndoesDelta` | crates/engram-chunk-store/src/manifest.rs:383-431 | two manifests have a delta exactly when they are of one shape, and applying it to the base gives the base with the next chunk list |
| `Delta.EmptyDeltaIff` | crates/engram-chunk-store/src/manifest.rs:383-408 | a delta is empty exactly when the two lists are equal |
| `Materialize.MaterializeToFile` | crates/engram-chunk-store/src/file.rs:564-602 | succeeds exactly for a valid manifest whose chunks are all in the store, and then gives a zero file with every chunk written at its offset |
| `Materialize.ReadsBack` | crates/engram-chunk-store/src/file.rs:564-602 | materializing the canonical manifest of an image gives the image byte for byte, gaps as zeros |
| `Materialize.ManifestIdentity` | crates/engram-chunk-store/src/file.rs:564-602 | with a collision-free digest two images have one canonical manifest exactly when they are equal |
| `Bootstrap.RoundTrip` | crates/engram-chunk-store/src/bootstrap.rs:91-161 | a bootstrap is per-chunk and turns back into the manifest it was built from, at the current schema version |
| `Bootstrap.EntryLength` | crates/engram-chunk-store/src/bootstrap.rs:91-114 | the derived length of an entry is the real length of its chunk, the short last one included |
| `Bootstrap.BlobNameInjective` | crates/engram-chunk-store/src/manifest.rs:115-122 | chunks with different digests have different blob names |
| `Bootstrap.EntriesRebuild` | crates/engram-chunk-store/src/bootstrap.rs:91-114 | a registry that holds the chunks of an image, and any other blobs, gives the image back through the bootstrap of its canonical manifest alone: each blob by its name, cut at its offset and length, checked against its digest, placed at its file offset |
| `Bootstrap.Push` | crates/engram-oci/src/lib.rs:564-585 | pushing keeps every blob under the name of its own digest and leaves every blob that was there; it succeeds if the store has every listed chunk, and then every listed chunk is named in the registry |
| `Bootstrap.BuildIndex` | crates/engram-host-agent/src/image_cache.rs:364-394 | the index exists exactly for per-chunk documents, has exactly the entries' digests, and says of each what its last entry says |
| `Bootstrap.FetchAll` | crates/engram-oci/src/chunk_resolver.rs:112-138 | every listed chunk is fetched exactly when each one resolves through the index to a blob with its digest, and only such bytes are kept |
| `Bootstrap.RestoreFromRegistry` | crates/engram-host-agent/src/image_cache.rs:364-394 | whatever the registry holds, a restored file has only chunks with the digests the document lists, at the offsets it lists; a well-formed per-chunk document whose blobs are all there is always restored |
| `Bootstrap.BuildAndRestore` | crates/engram-chunk-store/src/region.rs:240-316 | build from regions and push, then materialize the manifest from the store, place the bootstrap entries from the registry, and restore on a host with only the bootstrap and the registry: all three give the original image |
| `SparseRechunk.DirtyChunks` | crates/engram-chunk-store/src/file.rs:334-345 | lists exactly the chunks of the image in whose span some range has a position |
| `SparseRechunk.RebuildChunk` | crates/engram-chunk-store/src/file.rs:408-446 | dirty bytes come from the diff and the rest from the previous chunk or zeros; fails exactly when the previous chunk is missing or the diff is too short |
| `IncrementalCapture.StartTask` | crates/engram-chunk-store/src/file.rs:400-510 | one task reads its previous chunk through the cache, elides, keeps, caches or claims and puts the rebuilt one, and keeps the state of all tasks, whatever their schedule; a chunk can be missing only if the cache lost it |
| `IncrementalCapture.RunTasks` | crates/engram-chunk-store/src/file.rs:400-514 | over every schedule of starts, completions and losses of the cache all dirty chunks get the result the new image has there, the store gains exactly what is put, and only a lost put or a chunk the cache lost can fail |
| `IncrementalCapture.FoldResults` | crates/engram-chunk-store/src/file.rs:516-537 | folding the results in any order lists the new image at the rebuilt chunks and the previous one elsewhere |
| `IncrementalCapture.UpdateForDirtyRanges` | crates/engram-chunk-store/src/file.rs:321-552 | from a canonical previous manifest, to the store or to the local cache: the next manifest is canonical for the new image; its chunks can be read but for what the cache lost, and are durable but for what was owed and, locally, the new hashes; the new hashes are exactly those of the touched chunks that hold data, in offset order; no object is put twice or put although the previous manifest lists it |
| `IncrementalCapture.CaptureChain` | crates/engram-chunk-store/src/file.rs:321-552 | a chain of durable and local captures of any length, in any mix, gives the manifest a full capture would, stops early only at a lost put or at a chunk the cache lost, and leaves every chunk durable but for the new hashes of the local ones; all durable, the store serves the image |
| `IncrementalCapture.DurableIff` | crates/engram-chunk-store/src/file.rs:369-370 | a durable capture is durable as a whole exactly when every digest shared with the previous manifest already was |
| `IncrementalCapture.DebtStays` | crates/engram-chunk-store/src/file.rs:369-488 | a local capture and a durable one of nothing leave a listed chunk that is not in the store |
| `ExecRecord.Keeps` | crates/engram-agentd/src/exec_journal.rs:77-255 | every step of requests, wrapper, deaths and passes keeps the invariant, but for a removal that meets a needed directory; one that finds what its pass condemned never does |
| `ExecRecord.PidProbeKeeps` | crates/engram-agentd/src/exec_journal.rs:459-501 | what a pass concludes from two pid probes stays true of a record that was old when the pass began |
| `ExecRecord.RemoveKeeps` | crates/engram-agentd/src/exec_journal.rs:219-223 | the condemned directory is needed by nobody when it is removed, and removing one that nobody needs keeps the invariant |
| `ExecRecord.LiveIsSole` | crates/engram-agentd/src/exec_journal.rs:90-121 | while a record is live and has its directory no request can make the directory and nothing can spawn; no second record is needed |
| `ExecRecord.RemovedIsAged` | crates/engram-agentd/src/exec_journal.rs:184-255 | the directory a pass condemned has shown no sign of life for the whole time to live when it is removed, finished or dead |
| `ExecRuns.TargetedKeeps` | crates/engram-agentd/src/exec_journal.rs:191-255 | over every run whose removals find what was condemned, records being made or live keep their directory at every point |
| `ExecRuns.SerialKeeps` | crates/engram-agentd/src/exec_journal.rs:191-226 | when passes take turns every needed record keeps its directory |
| `ExecRuns.SoleOverRuns` | crates/engram-agentd/src/exec_journal.rs:77-255 | from an empty journal, over every run in which no removal meets a needed directory: in a state with a live record its directory is at the path, no request can make it and nothing can spawn |
| `ExecRuns.TargetedIsHarmless` | crates/engram-agentd/src/exec_journal.rs:191-226 | no removal meets a needed directory when removals find what was condemned, nor when passes take turns |
| `ExecRuns.RemovalDoublesIff` | crates/engram-agentd/src/exec_journal.rs:219-223 | a removal brings two live records of one exec within reach exactly when the directory it meets is needed, and that is then not the condemned one |
| `ExecRuns.SafeIffHarmless` | crates/engram-agentd/src/exec_journal.rs:191-255 | over every run, two live records never come within reach exactly when no removal meets a needed directory |
| `ExecRuns.FromEmptyJournal` | crates/engram-agentd/src/exec_journal.rs:77-255 | the same from an empty journal |
| `ExecRuns.CollectsDead` | crates/engram-agentd/src/exec_journal.rs:191-255 | an uninterrupted pass removes a record with no exit marker, no live process and no sign of life for the time to live |
| `ExecRuns.PassCollectsIff` | crates/engram-agentd/src/exec_journal.rs:191-255 | a pass left alone, from any state, takes the directory away exactly when the record has been finished, or dead and without a sign of life, for the time to live, and changes nothing else |
| `ExecRuns.PassCanEnd` | crates/engram-agentd/src/exec_journal.rs:191-255 | such a pass can always be run to its end |
| `ExecRuns.CanAlwaysBeCollected` | crates/engram-agentd/src/exec_journal.rs:184-255 | from every state with the invariant, whatever the record has come to: its request can give up or its processes die, and after the time to live one pass takes the directory away and the exec can be started anew |
| `ExecRuns.CanFinish` | crates/engram-agentd/src/exec_journal.rs:510-597 | from every state with the invariant, a record whose request or wrapper is still there can write its output and come to its exit marker, in its own directory |
| `ExecRuns.StaysReadable` | crates/engram-agentd/src/exec_journal.rs:184-255 | whatever a record writes, its directory stays for the time to live from then on, over every run whose removals find what was condemned |
| `ExecRuns.RaceSpawnsTwice` | crates/engram-agentd/src/exec_journal.rs:191-226 | a run of the protocol in which two passes end with two running commands for one record |
| `TailJournal.CalledDeadIff` | crates/engram-agentd/src/exec_journal.rs:393-451 | a wrapper that finishes properly is called dead exactly when its marker lands and it leaves between the exit read and the owner probe; otherwise it is running or complete with its recorded exit |
| `TailJournal.CalledDead` | crates/engram-agentd/src/exec_journal.rs:407-434 | an attach that reports a command with a recorded exit as dead |
| `TailJournal.ReadChunk` | crates/engram-agentd/src/handler.rs:918-938 | a chunk is read exactly when the file goes past the offset, is at most the buffer size, and is the file between the old and new offsets |
| `TailJournal.AwaitRequest` | crates/engram-agentd/src/handler.rs:827-836 | the bounded wait reports a missing request or a mismatch exactly as the last probe would |
| `TailJournal.Poll` | crates/engram-agentd/src/handler.rs:856-914 | one poll extends the replay by exactly the next bytes of each file and ends only with what the record then shows |
| `TailJournal.PollFiles` | crates/engram-agentd/src/handler.rs:873-881 | reading both files once extends each stream's replay without gap or repeat, and leaves it alone exactly when neither file has more |
| `TailJournal.ReplayLoop` | crates/engram-agentd/src/handler.rs:856-916 | the loop's replay, ending and progress, for settled, foreign and still growing records |
| `TailJournal.Attach` | crates/engram-agentd/src/handler.rs:785-916 | at every point each stream's replay is the file between the start and current offsets; a settled record ends with both files replayed and its recorded exit; a properly finishing one with its exit unless the last poll met the race; what was replayed before an exit is whole exactly when no output came after the last look; a mismatched command published in time replays nothing and is refused unless degraded |
| `TailJournal.ServeAttach` | crates/engram-agentd/src/handler.rs:506-516 | an attach that ends by itself is a whole conversation: its stdout frames are exactly the file between the two offsets, its stderr frames that span and at most the message of the ending; a settled record gives the rest of both files and its exit; a mismatched one is refused with no output; a dead or degraded one ends in an exit without status |
| `TailJournal.WholeIff` | crates/engram-agentd/src/handler.rs:873-890 | before an exit each file was replayed whole exactly when it had not grown past the offset between its last look and the exit read, and for certain if the exit was there by the first of these |
| `TailJournal.OwnedEndsSo` | crates/engram-agentd/src/handler.rs:883-907 | on a wrapper that stays until its marker is written, an attach ends with the exit, or as dead exactly when its last poll met the race |
| `TailJournal.LosesTail` | crates/engram-agentd/src/handler.rs:873-890 | an attach that ends with the recorded exit and without the last byte |
| `TailJournal.LeaksLate` | crates/engram-agentd/src/handler.rs:838-890 | an attach that replays a byte of another command's record |
| `ExecTimeline.StepGrows` | crates/engram-agentd/src/exec_journal.rs:77-121 | a step of the protocol that removes nothing only appends to what a look at the record finds: request and exit are written once, and no output follows the exit |
| `ExecTimeline.RunEvolves` | crates/engram-agentd/src/exec_journal.rs:77-451 | whenever it looks during a run without a removal, a client sees a timeline of the kind every attach result is about |
| `ExecTimeline.RunOwned` | crates/engram-agentd/src/exec_journal.rs:510-597 | a wrapper that does not die before its exit marker is written gives the timeline of one that finishes properly |
| `ExecTimeline.LookShows` | crates/engram-agentd/src/exec_journal.rs:300-391 | over every run from the making of the directory on, a look finds in both files exactly what was written, in order, the request and exit that were written, and the degraded marker exactly when a write was marked |
| `ExecTimeline.JudgesAgree` | crates/engram-agentd/src/exec_journal.rs:393-501 | on a record nobody touches, what an attach calls running the collector keeps, and what it calls dead the collector takes for live exactly when a recorded wrapper is gone with its command alive, or with no pid recorded in the spawn grace |
| `ExecTimeline.OrphanedCommand` | crates/engram-agentd/src/exec_journal.rs:407-501 | from every state, a wrapper that dies under its running command leaves a record that an attach calls dead and the collector keeps |
| `CaptureOutput.Capture` | crates/engram-agentd/src/exec_journal.rs:599-663 | for every split into reads and every pattern of failed writes: the file is a prefix of the capped stream, all of it unless marked degraded, and the live side gets the whole stream unless it refuses |
| `CaptureOutput.Persist` | crates/engram-agentd/src/exec_journal.rs:626-657 | one read's bytes go to the open file, followed once by the marker if they do not all fit |
| `CaptureOutput.CapFits` | crates/engram-agentd/src/exec_journal.rs:613-613 | the file is the stream itself when that leaves room for the marker in 64 MiB, and otherwise exactly 64 MiB: the first bytes of the stream and the marker |
| `ExecEvents.RunConverses` | crates/engram-agentd/src/handler.rs:636-706 | whatever the interleaving of forwarders, watcher and main task, a run that sends its exit carried all output of both streams, in order, before it, with at most one warning, reaped its command once, and ends in that status |
| `ExecEvents.NeverStuck` | crates/engram-agentd/src/handler.rs:636-706 | from every state a run can reach, timeout aside, the rest of the output can be forwarded and the status told, whatever it is |
| `ExecEvents.ServedConverses` | crates/engram-agentd/src/handler.rs:486-561 | every path of a request: Started first and once, output with at most one Degraded, one Exit or Refused last; the output frames relay what the path produced, and the last frame tells how it ended |
| `ExecEvents.TimeOutConversesIff` | crates/engram-agentd/src/handler.rs:763-771 | a live exec that times out ends in a whole conversation exactly when nothing was left to forward |
| `ExecEvents.TimeOutTrails` | crates/engram-agentd/src/handler.rs:763-771 | a byte in the pipe at the timeout follows the exit frame |
| `ExecEvents.WarnedIff` | crates/engram-agentd/src/handler.rs:642-694 | over every durable run that sends its exit the degradation is told once, exactly when its marker is there by the recheck and the abort did not meet the watcher between claim and send |
| `ExecEvents.WarningLost` | crates/engram-agentd/src/handler.rs:683-694 | a run of a degraded record that tells nobody |
| `UploadBudget.WithBackgroundCap` | crates/engram-chunk-store/src/budget.rs:99-105 | a cap is kept as given, or raised to one, and the nested one cut to the global one |
| `UploadBudget.Conserves` | crates/engram-chunk-store/src/budget.rs:133-173 | over every run free plus taken is constant on both semaphores, slots in flight stay within the cap, background requests in flight or queued globally within the nested cap |
| `UploadBudget.NobodyLost` | crates/engram-chunk-store/src/budget.rs:133-173 | over every run each request that arrived is in exactly one queue or holds a slot, under its own id and class, until it is cancelled or dropped, and nobody else is there |
| `UploadBudget.NoDeadlock` | crates/engram-chunk-store/src/budget.rs:123-156 | with anybody waiting a grant is possible or a held slot can be dropped |
| `UploadBudget.NeverOvertaken` | crates/engram-chunk-store/src/budget.rs:123-156 | in either queue, while a request waits only requests ahead of it from the start are ahead of it, and every grant went to one of those |
| `UploadBudget.FewBackgroundAhead` | crates/engram-chunk-store/src/budget.rs:84-88 | at most the nested cap of background requests is ahead of anybody |
| `UploadBudget.CanBeServed` | crates/engram-chunk-store/src/budget.rs:133-173 | from every state a request queued on either semaphore can be served by grants, queueing and drops alone |
| `UploadBudget.ArrivesAndIsServed` | crates/engram-chunk-store/src/budget.rs:133-173 | from every state a new request of either class can arrive and be served, under its own id and class |
| `UploadBudget.CanEmpty` | crates/engram-chunk-store/src/budget.rs:133-173 | from every state all requests can leave by cancelling and dropping alone, and every slot of both semaphores is then free |
| `UploadBudget.GlobalCanBeServed` | crates/engram-chunk-store/src/budget.rs:133-173 | a request in the global queue is served by the grant after its predecessors |
| `Reaper.Keeps` | crates/engram-agentd/src/reaper.rs:80-118 | every step keeps each counted-on child registered, an untrack exactly when no other owner counts on the pid |
| `Reaper.GuardedIffHarmless` | crates/engram-agentd/src/reaper.rs:50-118 | over every run children stay registered exactly when no owner takes off a pid another one counts on |
| `Reaper.UnguardedIsStolen` | crates/engram-agentd/src/reaper.rs:193-235 | an unregistered child its owner counts on is collected by the first scan after it exits |
| `Reaper.UntrackStealsIff` | crates/engram-agentd/src/reaper.rs:59-65 | an untrack lets some continuation steal a status exactly when another owner counts on the pid |
| `Reaper.SafeIffHarmless` | crates/engram-agentd/src/reaper.rs:50-235 | over every run no status can be stolen exactly when no owner takes off a pid another one counts on |
| `Reaper.NeverSteals` | crates/engram-agentd/src/reaper.rs:193-235 | while they are guarded no scan collects one of them |
| `Reaper.OwnersKeepTheirChildren` | crates/engram-agentd/src/reaper.rs:80-235 | with no pid reissued before its untrack, the reaper never collects a child whose owner has neither consumed its status nor given it up |
| `Reaper.ScanCollects` | crates/engram-agentd/src/reaper.rs:193-235 | a scan that has worked off its list has rid the process table of every unregistered zombie on it |
| `Reaper.CanBeCleared` | crates/engram-agentd/src/reaper.rs:80-235 | from every reachable state, whoever holds the lock: the holder can finish and one scan follow, and every unregistered zombie is gone with nothing else touched |
| `Reaper.TableBalances` | crates/engram-agentd/src/reaper.rs:193-235 | over every run each process forked or adopted is on the table or was reaped once, by its owner, the runtime or the scan |
| `Reaper.GivenUpIsReaped` | crates/engram-agentd/src/reaper.rs:59-65 | a child its owner gives up while it runs is reaped by the runtime once it exits |
| `Reaper.OrphanIsCollected` | crates/engram-agentd/src/reaper.rs:193-235 | a zombie that falls to the agent under an unregistered pid is gone after one scan |
| `Reaper.ZombiesExited` | crates/engram-agentd/src/reaper.rs:193-235 | over every run a zombie has exited, or was one when it was adopted |
| `Reaper.OrderlyReissue` | crates/engram-agentd/src/reaper.rs:50-65 | from every such state a pid waited on and untracked can be forked again with no owner at risk |
| `Reaper.RetrackHeals` | crates/engram-agentd/src/reaper.rs:50-65 | registering a pid again restores the invariant exactly when its owner was the only one left unguarded |
| `Reaper.ReissueSteals` | crates/engram-agentd/src/harness_supervisor.rs:296-317 | a run in which an early reissued pid costs its owner the status |
| `UploadProtocol.Keeps` | crates/engram-agentd/src/handler.rs:1103-1234 | every step keeps the path vouched for, private files within their declared size, and answers true |
| `UploadProtocol.WriteOnce` | crates/engram-agentd/src/handler.rs:1103-1234 | over every interleaving of uploads, whatever was at the path before: content there never changes, what appears was declared whole and within the size limit by an upload that succeeds, and every Ok answer holds of it then and ever after |
| `UploadProtocol.AnsweredIff` | crates/engram-agentd/src/handler.rs:1103-1234 | over every interleaving an answered upload is answered Ok exactly when it declared no more than the limit and no step turned it down, by what it declared and received itself |
| `UploadProtocol.WholeSettles` | crates/engram-agentd/src/handler.rs:1168-1215 | over every interleaving an upload that has received what it declared, and is not broken off, is turned down only if other content got to the path |
| `UploadProtocol.BreakLeavesPath` | crates/engram-agentd/src/handler.rs:1168-1234 | an upload that breaks off at any point before its file is published is refused and leaves the path as it is |
| `UploadProtocol.CanBeOkIff` | crates/engram-agentd/src/handler.rs:1103-1234 | from every reachable state an upload not turned down that delivers its declared bytes can be answered Ok exactly when the path is free or holds the declared file, and it is not about to stat a path filled since its check |
| `UploadProtocol.FreshIsOk` | crates/engram-agentd/src/handler.rs:1103-1234 | from every reachable state a new request for a file of allowed size can be answered Ok if the path is free or holds that file |
| `UploadProtocol.HonestRefused` | crates/engram-agentd/src/handler.rs:1126-1143 | for every file, a run in which an upload is refused although the path holds what it declared |
| `UploadProtocol.OkAgree` | crates/engram-agentd/src/handler.rs:1200-1215 | all uploads answered Ok declared the same size and digest |
| `FileTransfer.Receive` | crates/engram-agentd/src/handler.rs:1168-1184 | the temporary file holds the frames up to the declared size, or the upload fails exactly when no number of frames reaches it without passing it |
| `FileTransfer.UploadStream` | crates/engram-agentd/src/handler.rs:1103-1234 | Ok exactly when the declared file is there or the path is free and the frames deliver it; a refused upload leaves the path alone |
| `FileTransfer.SendAll` | crates/engram-agentd/src/file_transfer.rs:46-71 | what was sent is the source's first chunks; the host's sending loop ends well exactly when every send gets through and the source is clean, within the limit and of the declared size, and it has then sent all of it |
| `FileTransfer.WriteFile` | crates/engram-agentd/src/file_transfer.rs:27-94 | reported written exactly when every send and the reply get through, the source is clean and of the declared size, and the agent holds the declared file; also when the host gives up, existing content stays |
| `FileTransfer.DownloadStream` | crates/engram-agentd/src/handler.rs:1236-1274 | the frames declare the file's size and digest and carry exactly its bytes, for every read size |
| `FileTransfer.ReadFile` | crates/engram-agentd/src/file_transfer.rs:96-177 | over whatever frames arrive, a stream without an error item carried exactly the declared size and digest; a whole download always gives such a stream |
| `FileTransfer.WriteThenRead` | crates/engram-agentd/src/file_transfer.rs:27-177 | upload then download, any chunking and any break: a clean stream is the file at the path, and the source exactly when the source has the declared digest |
| `FileTransfer.OtherBytesReported` | crates/engram-agentd/src/handler.rs:1126-1136 | with the declared file already there, other bytes of its size are reported written |
| `Connect.TakeInvertsEncode` | crates/engram-app-client/src/connect.rs:227-274 | taking undoes encoding exactly for payloads under 2^32 bytes |
| `Connect.BodyYields` | crates/engram-app-client/src/connect.rs:186-238 | whole envelopes and at most part of the next hand out the messages up to the first end or compressed envelope, then why the stream ended |
| `Connect.YieldIs` | crates/engram-app-client/src/connect.rs:44-45 | by the two low bits of the flags: 0 is a message, 2 ends the stream, with an error when its payload has one, 1 and 3 are turned down as compressed; messages come up to the first that is not 0 |
| `Connect.AnyCutYields` | crates/engram-app-client/src/connect.rs:186-238 | the same for every cut of the bytes into chunks; a body cut short ends in one Unavailable |
| `Connect.ServerStream.constructor` | crates/engram-app-client/src/connect.rs:146-152 | a new stream has every item of the body before it |
| `Connect.ServerStream.Next` | crates/engram-app-client/src/connect.rs:186-223 | hands out the remaining items one by one, and None for good after them; what remains depends on the bytes and not on their chunks |
| `Connect.DrainAll` | crates/engram-app-client/src/connect.rs:186-223 | all items of a body are the specified ones |
| `Sse.Parser.Feed` | crates/engram-app-client/src/sse.rs:34-53 | feeding a chunk of bytes line by line leaves what reading its lossily decoded text character by character would |
| `Sse.Parser.NextFrame` | crates/engram-app-client/src/sse.rs:56-58 | frames come out first in, first out |
| `Sse.FeedAll` | crates/engram-app-client/src/sse.rs:34-53 | pieces of bytes give the frames and residual state of their decoded text, and of the text of the whole if every cut is clean |
| `Sse.FieldLines` | crates/engram-app-client/src/sse.rs:38-51 | a field name and its colon set that field, and no other, to the rest of the line without its carriage return, trimmed, also when nothing follows |
| `Sse.DataLineIff` | crates/engram-app-client/src/sse.rs:38-51 | a newline-free value survives a data line exactly when it has no leading white space and no trailing carriage return |
| `Sse.PrintedParses` | crates/engram-app-client/src/sse.rs:34-58 | parsing the printed form of any list of printable frames gives the list back |
| `Sse.SplitParsesIff` | crates/engram-app-client/src/sse.rs:34-58 | however the bytes of any printable frames are cut, the parser hands out those frames exactly when every cut falls between two characters |
| `Sse.SplitLetter` | crates/engram-app-client/src/sse.rs:35-35 | a letter of two bytes fed in two chunks arrives as two replacement characters |
| `Utf8.DecodedIff` | crates/engram-app-client/src/sse.rs:35-35 | decoding piece by piece gives the text of the whole exactly when no cut falls inside a unit |
| `Utf8.DecodedMangles` | crates/engram-app-client/src/sse.rs:35-35 | whatever the cuts, the text changes only where characters that are not ASCII become replacement characters |
| `Utf8.DecodesEncoded` | crates/engram-app-client/src/sse.rs:32-33 | decoding undoes encoding for every text |
| `Utf8.BetweenCharacters` | crates/engram-app-client/src/sse.rs:35-35 | the clean cuts of an encoded text are exactly those between two of its characters |
| `Retry.WithRetry` | crates/engram-blob-client/src/lib.rs:148-216 | calls again exactly after a late answer, a transport error or a protocol error, while the budget of at least one call lasts; returns the first other answer at once, and else the last one, with a late one told as a transport error |
| `Retry.FirstDecisive` | crates/engram-blob-client/src/lib.rs:170-216 | the answers alone decide how many calls are made |
| `Retry.SleepsExactly` | crates/engram-blob-client/src/lib.rs:119-124 | up to eighteen calls the run sleeps base × (2^(calls-1) − 1), exactly when its last delay is not cut at the longest duration |
| `Retry.SleepsLonger` | crates/engram-blob-client/src/lib.rs:119-124 | the closed form beyond eighteen calls, where the delay stays at base × 2^16, exactly when that is not cut |
| `Retry.SleepsAtMost` | crates/engram-blob-client/src/lib.rs:119-124 | for every base, saturated or not, the doubling sum and the longest duration bound the sleep |

## Left out

- Fixed-width overflow of offsets and lengths: positions are unbounded naturals; only the 32-bit envelope length,
  the 32-bit entry length and the saturating duration are modelled at their width.
- Regions.RegionChunker.Cover: a failed call other than an out-of-range one promises its outcome and nothing about the state it leaves, as the program abandons the chunker then.
- IncrementalCapture.RunTasks: whether a put lands is a parameter, which stands for the second look at a failed put too; what the cache may lose, to a sweep or a failed fill, is a set given for each update.
- RegionPipeline.BuildFromRegions: the producer's messages are fixed before the channel runs; where it is turned away they stop (`RegionPipeline.RefusedIff`).
- ExecTimeline.RunEvolves: a run with a removal gives no such timeline and is left to `ExecRuns`.
- ExecRuns.SafeIffHarmless: removal of a directory tree is one step, pid files and markers can be written and read, and the clock does not go back; the cap on active records is a free choice between a durable and a degraded start.
- TailJournal.Attach: the loop has a number of polls, standing for how long the peer stays connected; a failed write to the peer ends it like running out of polls.
- ExecEvents.RunConverses: a full channel only delays senders and is not modelled; a read error ends a stream like its end.
- UploadProtocol.WriteOnce: file modes, and clearing away temporary files, are not modelled.
- Connect.BodyYields: protobuf and JSON decoding are outside; an item carries the payload, and whether an end-of-stream payload is an error is a parameter.
- Bootstrap.RestoreFromRegistry: tokens, re-authentication and the wire form of the registry are not modelled; a pull gives the blob of the asked name or fails.
- Manifest fields that are carried along unchanged (parent, annotations, trace) and the content reference.
- Reading a whole file into chunks (`chunk_file_into`), the local chunk cache's own bookkeeping and the chunk store's garbage collection: the canonical manifest stands for the first.
- Cancelling an exec, validating exec ids, parsing /proc and signal delivery.
- Shell, browser, port relay, clock, certificate and refresh verbs of the guest agent, and the orchestrator, coordinator, web and deployment code: plumbing or short policy checks.
