# Bazel Buildbarn: a verified model

This project models the parts of Bazel Buildbarn whose correctness rests on more than one function,
and proves what they are for.

**The circular blob store** (`Cursors`, `Allocation`, `StateStore`, `OffsetTable`, `OffsetStore`,
`DataStore`, `CircularSystem`, `CircularIndex`, `CircularIntegrity`, `LateTransfers`, `PlainTransfers`,
`CircularCalls`, `ForgottenBlobs`, `CircularBlobAccess`, `Merkle`, `MerkleBlobAccess`). Blobs are
written to a ring: two 64-bit cursors say what part of it is valid, a bulk allocator hands out ranges,
an open-addressing table in a file says where blobs are, and a cache sits above it. The store gives up
its lock while data is written and read. `CircularSystem` is that store as a system of concurrent calls,
with what holds for cursors and index in every run. `CircularIntegrity` is about the bytes of blobs, and
says exactly which unlocked writes and reads that depends on; `LateTransfers` and `PlainTransfers` show
what else the program does not rule out. `CircularCalls` proves that whole calls are runs of the system
and that what is read back is what was put. `MerkleBlobAccess` proves that the validating adapter never
delivers corruption and repairs it, in every state. The classes are the stores themselves, each method
tied to the function the lemmas are about.

**The scheduler** (`JobHeap`, `Scheduler`, `BuildQueue`). The build queue is a monitor with a
deduplication map, a name map, a heap and two kinds of condition variables. `Scheduler` has its steps
between lock acquisitions, `BuildQueue` the code that performs them.

**Smaller parts.** `Sharding` (where blobs go when a cluster changes, and requests to several shards),
`TreeCodec` (output directories as Tree messages, and the browser's view of them), `BatchedStore`,
`EvictionCaches`, `ResourceNames` and `ByteStream` (both ends of the ByteStream protocol; names follow
the comments of service `ContentAddressableStorage` in the Bazel Remote Execution API v2).

Conventions. Integers are unbounded, except where the program's 64-bit arithmetic matters: cursors and
offsets are of type `uint64` and wrap explicitly. Hash functions, marshalling and random generators are
function parameters, so results hold for all of them. A simple digest, 40 bytes in the program, is a
number; a blank slot has key 0. A source of data is the sequence of what its reads deliver, with
`io.EOF` coming without bytes. Failing writes to the data file are a parameter (`DataStore.Fault`).

Where the code and its comments disagree, the model follows the code:

- `fileDataStore.Put` announces reads limited at the end of the file, and computes the limit, but does
  not pass it on (file_data_store.go:25-33). `DataStore.ReadsBackIff` says exactly what this costs.
- A Put can store a record at attempt 7, which Get never probes (file_offset_store.go:153 and 206), and
  such records are overwritten even by older ones. `OffsetTable.FalseMissHappens` is a live blob that is
  lost that way; `OffsetTable.RunHasNoFalseMisses` excludes it, and `OffsetTable.SurvivesIffSupported`
  says exactly which records cannot be lost by a move of the cursors.
- A never-written slot reads as a live, empty blob of the zero key while Read is 0
  (`OffsetTable.BlankSlotIsFound`); the main results name this exception.
- "Data became stale before write completed" is noticed only after a late upload may have destroyed newer
  data (`LateTransfers.LateWriteCorrupts`). `CircularIntegrity.WriteIsHarmlessIff` says exactly which
  writes do no damage, and integrity holds for all runs of those.
- A reader of the data store reports io.EOF at the end of the data file as at the end of a blob
  (file_data_store.go:81-83). The validating adapter notices (`MerkleBlobAccess.MerkleGetIsSafe`); without
  it the blob is just shorter (`PlainTransfers.ShortSourceIsServed`).
- FindMissing can report a blob that is present, because its lookups change the cache
  (`CircularCalls.FindMissingIff`, `ForgottenBlobs.FindMissingForgets`).
- Cursor sums wrap near 2^64 (`Allocation.AllocateFollowsIff`, `Allocation.AllocateIsFatalIff`,
  `Cursors.ContainsIsInside`, each with a failing input), and a loaded state file is not compared with
  the data size (`StateStore.StateFileIsNotChecked`).

To verify the project, run `dafny verify dfyconfig.toml` in this directory.

## Model

| member | source | states |
|---|---|---|
| Cursors.ContainsIsInside | pkg/blobstore/circular/cursors.go:14-19 | Exactly when Contains is the plain interval test: it is, unless the offset lies between the cursors and the blob ends at or past 2^64 |
| Cursors.ContainsWraps | pkg/blobstore/circular/cursors.go:18 | A concrete offset and length that pass although the blob ends past Write |
| Allocation.AllocateIsFatalIff | pkg/blobstore/circular/file_state_store.go:42-46 | Exactly when an allocation would reach the fatal branch of put |
| Allocation.AllocateIsFatal | pkg/blobstore/circular/file_state_store.go:42-46 | An input that does: one byte from a data file of 2^64 - 1 bytes |
| Allocation.AllocateKeepsWindow | pkg/blobstore/circular/file_state_store.go:59-73 | For data files of up to 2^63 bytes every allocation, wrapping or not, keeps Read <= Write <= Read + dataSize, so the fatal branch is unreachable |
| Allocation.AllocateFollowsIff | pkg/blobstore/circular/file_state_store.go:59-73 | Cursors do not move back if and only if neither Write + size nor Read + dataSize wraps |
| Allocation.AllocateMovesBack | pkg/blobstore/circular/file_state_store.go:59-73 | An input for which they do: both start again at 0 |
| Allocation.AllocateWithoutWrap | pkg/blobstore/circular/file_state_store.go:59-73 | Without wrapping, Write grows by the size and Read becomes the least value that keeps overwritten data out |
| Allocation.InvalidateInside | pkg/blobstore/circular/file_state_store.go:75-83 | Discarding a blob between the cursors moves Read to its end, leaves Write, and keeps the window |
| Allocation.InvalidatePastWrite | pkg/blobstore/circular/file_state_store.go:75-83 | Discarding a blob that ends past Write empties the store instead: both cursors move to its end |
| Allocation.NoPhysicalAliasing | pkg/blobstore/circular/file_data_store.go:27 | Disjoint ranges of linear addresses between the cursors are kept at disjoint positions of the data file |
| Allocation.AllocateIsLeast | pkg/blobstore/circular/bulk_allocating_state_store.go:21-46 | The range starts at the clamped internal cursor; the backend grows by a multiple of chunkSize, the least that covers the range; Read follows |
| Allocation.AllocationIsInsideIff | pkg/blobstore/circular/bulk_allocating_state_store.go:21-46 | Exactly when the new range is between the cursors on return, from the space left and the chunks requested |
| Allocation.AllocationIsInside | pkg/blobstore/circular/bulk_allocating_state_store.go:21-46 | It is for every size with size + chunkSize - 1 <= dataSize, in every state |
| Allocation.RunKeepsSane | pkg/blobstore/circular/file_state_store.go:42-83 | Over every sequence of allocations and in-window invalidations the window holds and the cursors never move back |
| Allocation.RangesIncrease | pkg/blobstore/circular/bulk_allocating_state_store.go:42-45 | Over every such sequence the ranges handed out are increasing and pairwise disjoint |
| StateStore.FileStateStore.constructor | pkg/blobstore/circular/file_state_store.go:18-36 | A state file that is too short or holds Read > Write counts as empty; whether the window bound holds is not checked, and this is exactly when what the other methods rely on holds |
| StateStore.LoadedInWindowIff | pkg/blobstore/circular/file_state_store.go:18-36 | Exactly when the window holds for what was loaded |
| StateStore.RestartKeepsCursors | pkg/blobstore/circular/file_state_store.go:18-36 | What was saved is loaded again by a restart, also the cursors of an empty store |
| StateStore.StateFileIsNotChecked | pkg/blobstore/circular/file_state_store.go:18-36 | A state file for which it does not: two blobs between the cursors share a byte of the data file |
| StateStore.FileStateStore.Allocate | pkg/blobstore/circular/file_state_store.go:59-73 | Returns the old Write; the new cursors are those of the cursor arithmetic; the guard of put is met |
| StateStore.FileStateStore.Invalidate | pkg/blobstore/circular/file_state_store.go:75-83 | The new cursors are those of the cursor arithmetic; the window is kept for blobs between the cursors |
| StateStore.BulkAllocatingStateStore.Allocate | pkg/blobstore/circular/bulk_allocating_state_store.go:21-46 | Clamping, chunk request and sub-allocation as the pure allocator has them |
| StateStore.PositiveSizedBlobStateStore.Allocate | pkg/blobstore/circular/positive_sized_blob_state_store.go:18-23 | Allocation of at least one byte, through the whole stack of state stores |
| StateStore.PositiveSizedBlobStateStore.Invalidate | pkg/blobstore/circular/positive_sized_blob_state_store.go:25-30 | Discards at least one byte |
| OffsetTable.StepKeepsOrder | pkg/blobstore/circular/file_offset_store.go:180-211 | One putRecord call keeps: every slot probed before a record's own holds a live, in-place record at least as new, unless a newer record at its last slot is dropped |
| OffsetTable.StepSupportsCarried | pkg/blobstore/circular/file_offset_store.go:198-210 | The same holds for the record that is still carried |
| OffsetTable.AdvanceKeepsOrder | pkg/blobstore/circular/file_offset_store.go:165-168 | Moving the cursors forward keeps that order |
| OffsetTable.NoFalseMiss | pkg/blobstore/circular/file_offset_store.go:150-178 | In an ordered table a live record in its own slot at attempt 0 to 6 is found, or a copy of its key at least as new |
| OffsetTable.RunHasNoFalseMisses | pkg/blobstore/circular/file_offset_store.go:150-233 | So after every run of Puts and forward cursor moves on a fresh index in which no newer record at its last slot was overwritten |
| OffsetTable.FalseMissHappens | pkg/blobstore/circular/file_offset_store.go:189-196 | That condition is needed: a fresh index, eleven Puts at growing offsets and one move of Read lose a live record |
| OffsetTable.SurvivesIffSupported | pkg/blobstore/circular/file_offset_store.go:150-178 | The key of a live record can be found for as long as that record is live, however the cursors move, if and only if it has a record at that attempt or an earlier one such that all probe slots up to it are live, in place and at least as new |
| OffsetTable.NewestWins | pkg/blobstore/circular/file_offset_store.go:180-233 | A Put newer than every live record stays in its first slot through the whole displacement chain, and the next Get returns it |
| OffsetTable.MoveDropsPotential | pkg/blobstore/circular/file_offset_store.go:198-210 | Each move of a record to its next slot lowers the sum of remaining attempts by exactly one and never carries on with a newer record |
| OffsetTable.UncappedChain | pkg/blobstore/circular/file_offset_store.go:213-233 | Even without the cap on iterations a Put ends, within 7 * (slots + 1) moves |
| OffsetTable.CapIsHarmless | pkg/blobstore/circular/file_offset_store.go:217-221 | The cap changes nothing for chains shorter than it |
| OffsetTable.SlotGoesToNewer | pkg/blobstore/circular/file_offset_store.go:198-210 | Between two live records in place the slot goes to the one stored further on, on a tie to the one that comes last |
| OffsetTable.StepKeepsRecord | pkg/blobstore/circular/file_offset_store.go:180-211 | One putRecord call keeps every live record below attempt 7, in the table or carried, in its slot or carried on to its next one |
| OffsetTable.ChainKeepsAllButOne | pkg/blobstore/circular/file_offset_store.go:213-233 | A whole chain keeps every live record of the table and the new one, at the same attempt or a later one, but at most one: a record that has no next slot, or the one carried when the cap cuts the chain off |
| OffsetTable.ChainIsCutIff | pkg/blobstore/circular/file_offset_store.go:217-221 | The cap cuts off exactly the chains that would need at least that many moves |
| OffsetTable.InsertKeepsAllButOne | pkg/blobstore/circular/file_offset_store.go:213-233 | So a Put loses at most one live blob, and none if no record has run out of slots and seven moves are enough |
| OffsetTable.InsertKeepsRecorded | pkg/blobstore/circular/file_offset_store.go:213-233 | The table holds only locations that were put, under their own keys |
| OffsetTable.ProbeIsSound | pkg/blobstore/circular/file_offset_store.go:150-178 | What a lookup returns was put for that key and lies between the cursors |
| OffsetTable.BlankSlotIsFound | pkg/blobstore/circular/file_offset_store.go:165-171 | On a blank table the zero key is found if and only if Read = 0 < Write |
| OffsetStore.FileOffsetStore.Get | pkg/blobstore/circular/file_offset_store.go:150-178 | The probing loop computes the lookup that the lemmas are about |
| OffsetStore.FileOffsetStore.PutRecord | pkg/blobstore/circular/file_offset_store.go:180-211 | One displacement step, on the slot array in place: the step that StepKeepsRecord, StepKeepsOrder and MoveDropsPotential are about |
| OffsetStore.FileOffsetStore.Put | pkg/blobstore/circular/file_offset_store.go:213-233 | The insertion loop, with at most eight displacement steps: the insertion that InsertKeepsAllButOne and NewestWins are about |
| OffsetStore.FindIsSound | pkg/blobstore/circular/caching_offset_store.go:36-53 | What cache and table together return was put for that key and lies between the cursors; refilling the cache keeps that |
| OffsetStore.FindAfterStore | pkg/blobstore/circular/caching_offset_store.go:55-68 | A key just put is found where it was put while that is live, even if the table dropped it |
| OffsetStore.FindAgain | pkg/blobstore/circular/caching_offset_store.go:36-53 | Asking again gives the same answer while it is live |
| OffsetStore.CachingOffsetStore.Get | pkg/blobstore/circular/caching_offset_store.go:36-53 | Cache lookup, fall-back and refill, in place |
| OffsetStore.CachingOffsetStore.Put | pkg/blobstore/circular/caching_offset_store.go:55-68 | Write-through |
| DataStore.ChunkWrite | pkg/blobstore/circular/file_data_store.go:41 | A chunk that does not cross the end puts its bytes at its addresses and leaves every other address within one file size alone |
| DataStore.WriteAtReplaces | pkg/blobstore/circular/file_data_store.go:41 | A write replaces what is there, lets the file grow if it has to, and fills a gap with zeros |
| DataStore.CopyLengthIffNotCrossing | pkg/blobstore/circular/file_data_store.go:29-32 | The limit that is computed and not used would exclude exactly the reads that cross the end |
| DataStore.ChunkIsStoredIff | pkg/blobstore/circular/file_data_store.go:27-41 | All of a chunk can be read back, whatever its bytes are, if and only if it does not run past the end of the file |
| DataStore.ReadsBackIff | pkg/blobstore/circular/file_data_store.go:23-46 | A blob that fits can be read back whatever the file held before if and only if no chunk its source delivered runs past the end of the file |
| DataStore.FirstByteUntouched | pkg/blobstore/circular/file_data_store.go:27-41 | What is lost otherwise: the start of the file keeps its old bytes |
| DataStore.ReadDelivers | pkg/blobstore/circular/file_data_store.go:62-87 | A read of a blob in place returns its next bytes, at least one unless at the end |
| DataStore.ReadFillsBuffer | pkg/blobstore/circular/file_data_store.go:62-87 | A read never runs past the buffer, the blob or the end of the storage area, and stops only at one of them |
| DataStore.DrainDelivers | pkg/blobstore/circular/file_data_store.go:48-87 | Reads with any buffer sizes deliver the blob, across the wrap |
| DataStore.ReachingSucceedsIff | pkg/blobstore/circular/file_data_store.go:34-46 | A Put succeeds if and only if its source ends well and no write fails, and then all of the source reaches the file |
| DataStore.ReachingUntilFault | pkg/blobstore/circular/file_data_store.go:34-46 | If a write fails, what came before reaches the file, and of its own chunk the part that was written |
| DataStore.FileDataStore.Put | pkg/blobstore/circular/file_data_store.go:23-46 | The write loop leaves the file that the lemmas are about, and succeeds exactly as ReachingSucceedsIff says |
| DataStore.FileDataStoreReader.Read | pkg/blobstore/circular/file_data_store.go:62-87 | The short read at the end of the storage area, with the reader's offset and size advanced, and io.EOF at the end of the blob and of the file |
| Merkle.ValidateIsExact | pkg/blobstore/merkle_blob_access.go:79-128 | Through the validating reader never more bytes than announced come; the end is reported if and only if size and hash match, and then everything came through; corruption is reported if and only if there is any |
| Merkle.ChecksumValidatingReader.Read | pkg/blobstore/merkle_blob_access.go:102-128 | One read of it, with its running hash, remaining size and invalidation |
| CircularIntegrity.StepKeepsInv | pkg/blobstore/circular/circular_blob_access.go:61-112 | Every orderly step of every concurrent Get, Put, Delete and query keeps: each byte of a blob that is in the index or can still get there is in place until allocation has lapped it, unless the blob itself ran past the end of the file; uploads have delivered no more than announced |
| CircularIntegrity.WriteIsHarmlessIff | pkg/blobstore/circular/circular_blob_access.go:85-88 | Exactly when an unlocked write, however late, keeps every such byte in place whatever it writes: none of its file positions is that of such a byte |
| CircularIntegrity.TimelyIsHarmless | pkg/blobstore/circular/circular_blob_access.go:85-88 | Writes that allocation has not lapped are harmless |
| CircularIntegrity.YoungestIsHarmless | pkg/blobstore/circular/circular_blob_access.go:79-88 | So are all writes of the upload that was allocated last, even of a blob too large for the file or across its end |
| CircularIntegrity.ReadIsGenuineIff | pkg/blobstore/circular/file_data_store.go:62-87 | Exactly when an unlocked read, however late, returns the next bytes of its upload from every data file that keeps what has to be kept: each of them has the value of a byte that is kept at its file position |
| CircularIntegrity.ReadIsGenuine | pkg/blobstore/circular/circular_blob_access.go:64-69 | The next bytes of an unlocked download are those of its upload if its read meets that condition |
| CircularIntegrity.TimelyIsSafe | pkg/blobstore/circular/file_data_store.go:62-87 | Reads that allocation has not lapped meet it |
| CircularIntegrity.Integrity | pkg/blobstore/circular/circular_blob_access.go:61-99 | After every interleaving of orderly steps, whatever is found is a completed upload under that key with all its bytes in the file, unless its own chunks ran past the end |
| CircularIntegrity.DownloadsAreGenuine | pkg/blobstore/circular/circular_blob_access.go:61-72 | And every download whose own reads meet the condition has delivered a prefix of such an upload, whatever others do |
| CircularSystem.LookupIsInside | pkg/blobstore/circular/circular_blob_access.go:64-69 | What is found lies between the cursors without wrapping, whatever state the data file is in |
| CircularSystem.StepKeepsIndex | pkg/blobstore/circular/circular_blob_access.go:61-112 | Whatever the program does, also with transfers that are late, lapped, too long or too short, keeps the cursors in the window and from moving back, the ranges of uploads disjoint, and in index and cache only completed uploads |
| CircularSystem.DeletedStaysAway | pkg/blobstore/circular/circular_blob_access.go:101-112 | After a blob at offset o was found and deleted, no later lookup in any run returns one that starts before o + max(1, length), whatever transfers do in that run |
| CircularCalls.DeleteOfMissing | pkg/blobstore/circular/circular_blob_access.go:101-112 | A Delete that finds nothing changes nothing in the whole store |
| CircularCalls.DeleteOfFound | pkg/blobstore/circular/circular_blob_access.go:106-111 | One that finds a blob moves Read to its end; Write, the internal cursor, the table and the data file stay |
| CircularCalls.DeleteStepIsCall | pkg/blobstore/circular/circular_blob_access.go:101-112 | The same holds for the Delete of the concurrent system, which leaves all transfers alone |
| CircularCalls.GetStepIsCall | pkg/blobstore/circular/circular_blob_access.go:61-72 | The Get of the concurrent system is the same lookup as the call, and opens a download of what it found |
| CircularCalls.DeleteKeepsNewer | pkg/blobstore/circular/circular_blob_access.go:101-112 | What an ordered table holds for other keys at or above the deleted end is still found |
| CircularCalls.DeleteKeepsCached | pkg/blobstore/circular/circular_blob_access.go:101-112 | So is what the cache holds for them, in slots other than that of the deleted key |
| CircularCalls.FinishIsStaleIff | pkg/blobstore/circular/circular_blob_access.go:90-99 | In every interleaving a Put that finishes becomes stale if and only if Read has passed its start; otherwise the next lookup finds it |
| LateTransfers.LateWriteCorrupts | pkg/blobstore/circular/circular_blob_access.go:79-99 | The program does not ensure harmless writes: an orderly run and one late write destroy a live, indexed blob |
| LateTransfers.LateReadDeliversOthers | pkg/blobstore/circular/file_data_store.go:62-87 | Nor safe reads: an orderly run and one late read deliver bytes of another blob |
| PlainTransfers.NextReadEndsIff | pkg/blobstore/circular/file_data_store.go:62-87 | Exactly when a reader reports the end: all of the blob was delivered, or the data file is too short for the next read |
| PlainTransfers.ShortSourceIsServed | pkg/blobstore/circular/circular_blob_access.go:61-99 | What that costs without the validating adapter: after a Put whose source delivered too little, a Get of the indexed blob ends in order with too few bytes |
| CircularIndex.RunIsIndexRun | pkg/blobstore/circular/circular_blob_access.go:90-97 | Every run of the concurrent store, whatever its transfers do, is for its index a run of live Puts and forward cursor moves |
| CircularIndex.NoFalseMissInSystem | pkg/blobstore/circular/circular_blob_access.go:61-99 | So the absence of false misses, under the condition of RunHasNoFalseMisses, carries over to every interleaving |
| CircularCalls.CallIsRun | pkg/blobstore/circular/circular_blob_access.go:61-112 | Every call made on its own is a run of orderly steps of the concurrent system, also a Put of a blob too large for the file, or of chunks that cross its end |
| CircularCalls.PutIsStaleIff | pkg/blobstore/circular/circular_blob_access.go:74-99 | A Put on its own whose source ends well becomes stale if and only if its range does not fit the file; otherwise the next lookup finds it |
| CircularCalls.PutIsInTable | pkg/blobstore/circular/circular_blob_access.go:90-97 | It is then in the table too, whatever the displacement chain did to others, unless its offset is 0 |
| CircularCalls.SequentialReadBack | pkg/blobstore/circular/circular_blob_access.go:61-112 | After any sequence of calls on a fresh store, a key that is found was put by one of them, its length is not negative, and reading it with any buffer sizes gives exactly the bytes of that call, unless one of its own chunks crossed the end of the file |
| CircularCalls.HitReadsBack | pkg/blobstore/circular/file_data_store.go:48-87 | In every state that orderly steps lead to, reading what a lookup finds gives the bytes of a completed upload of that key, with the same exception |
| CircularCalls.OnlyMatchingBlobs | pkg/blobstore/merkle_blob_access.go:65-77 | If all blobs are put through the validator, what a key finds was put by one of the calls, and reads back as bytes that match a digest with that key, with the same exception |
| CircularCalls.MerklePutDelivers | pkg/blobstore/merkle_blob_access.go:65-77 | Through the validator every source keeps within its allocation and ends well only with matching bytes, also when a write to the file fails |
| CircularCalls.MerklePutSucceedsIff | pkg/blobstore/merkle_blob_access.go:65-77 | It succeeds with its data if and only if the announced size is right, the source ends well with bytes that match, and no write fails; and then the store is given exactly that source |
| CircularCalls.MerklePutIsDoneIff | pkg/blobstore/circular/circular_blob_access.go:74-99 | End to end: such a Put is done if and only if in addition its range fits the file, and is then found at the range it was given |
| MerkleBlobAccess.MerkleGetIsSafe | pkg/blobstore/merkle_blob_access.go:44-63 | From any state of cursors and index, whatever happened to the data file and whatever other calls do in between: a Get that finds its key delivers only bytes of the size and hash asked for, or it ends in an error and a deletion of the key is its last step, also when the data file ends early |
| MerkleBlobAccess.RejectedStaysAway | pkg/blobstore/merkle_blob_access.go:32-42 | After such a deletion nothing that starts before the end of what it located is found, in any run |
| MerkleBlobAccess.RejectedAloneStaysAway | pkg/blobstore/merkle_blob_access.go:32-63 | Without other calls in between, what it located is the blob that was rejected |
| MerkleBlobAccess.MerkleGetDecides | pkg/blobstore/merkle_blob_access.go:44-63 | A Get of a blob of which each read finds its bytes in place delivers it if it matches, and rejects it otherwise, for all buffer sizes |
| MerkleBlobAccess.MerkleGetDelivers | pkg/blobstore/merkle_blob_access.go:44-63 | In every orderly state, if other calls go on in order and its reads are safe, a Get that locates a completed upload delivers it if it matches, and rejects it otherwise |
| MerkleBlobAccess.MerkleReadBack | pkg/blobstore/merkle_blob_access.go:44-77 | After any sequence of validated calls on a fresh store, a Get of a digest whose key is found delivers exactly what one of the calls put there, unless a chunk of it crossed the end of the file, and rejects what has another size |
| MerkleBlobAccess.MerkleBlobAccess.Get | pkg/blobstore/merkle_blob_access.go:44-63 | Index lookup, test of the length with deletion on a mismatch, and the validating reader |
| MerkleBlobAccess.MerkleBlobAccess.Put | pkg/blobstore/merkle_blob_access.go:65-77 | The test of the size, and the Put of the store with the validated source |
| MerkleBlobAccess.BlobReader.Read | pkg/blobstore/merkle_blob_access.go:102-128 | One read of data store and validator, with deletion when the latter complains, as it does when the data file ends early |
| CircularCalls.FindMissingIff | pkg/blobstore/circular/circular_blob_access.go:114-128 | Exactly what FindMissing reports, in order: the keys that the table misses, and that the cache misses from the start or dropped for an earlier key of the request |
| ForgottenBlobs.FindMissingForgets | pkg/blobstore/circular/circular_blob_access.go:114-128 | An orderly run on a fresh store, and a request after it that reports a key which a Get would have found |
| CircularBlobAccess.CircularBlobAccess.Get | pkg/blobstore/circular/circular_blob_access.go:61-72 | Index lookup under the lock, and a reader for the location found, whatever its length |
| CircularBlobAccess.CircularBlobAccess.Put | pkg/blobstore/circular/circular_blob_access.go:74-99 | Allocation, data, test for staleness, index |
| CircularBlobAccess.CircularBlobAccess.Delete | pkg/blobstore/circular/circular_blob_access.go:101-112 | Index lookup and invalidation of what it found, and nothing else |
| CircularBlobAccess.CircularBlobAccess.FindMissing | pkg/blobstore/circular/circular_blob_access.go:114-128 | The loop over the keys, with its effect on the cache |
| JobHeap.Heap.Up | pkg/builder/worker_build_queue.go:44-71 | Sifting up restores the heap order and keeps the multiset of jobs |
| JobHeap.Heap.Down | pkg/builder/worker_build_queue.go:44-71 | Sifting down within a prefix does so |
| JobHeap.Heap.Push | pkg/builder/worker_build_queue.go:195 | The job is added to the multiset, and the heap order is kept |
| JobHeap.Heap.Pop | pkg/builder/worker_build_queue.go:242 | The job removed is the least by priority and insertion order of all pending ones; the others stay |
| JobHeap.RootIsLeast | pkg/builder/worker_build_queue.go:44-55 | In heap order the root is least |
| Scheduler.StepKeepsInv | pkg/builder/worker_build_queue.go:167-256 | Every step of every client and worker keeps the invariant |
| Scheduler.SchedulerIsSafe | pkg/builder/worker_build_queue.go:73-256 | In every interleaving: the heap holds exactly the queued jobs and at most jobsPendingMax; the deduplication map exactly the unfinished ones; each executing job has one worker and each job runs at most once; no client sleeps on a completed job; streams that end well end with their one Done; equal priorities are served in order of insertion |
| Scheduler.RunKeepsInv | pkg/builder/worker_build_queue.go:230-255 | Stages only move forward in every run |
| Scheduler.ExecuteGivesItsJob | pkg/builder/worker_build_queue.go:167-200 | Execute attaches a client to a job with its own key that is not completed: the one in the deduplication map, or a new one under the name and priority given. It refuses exactly if a new one is needed and too many are pending |
| Scheduler.WaitExecutionGivesItsJob | pkg/builder/worker_build_queue.go:202-211 | WaitExecution attaches it to the job with that name, if there is one |
| Scheduler.ResumeEnds | pkg/builder/worker_build_queue.go:73-107 | A woken client is told that its job is completed, and its stream ends |
| Scheduler.WorkersTakeTurns | pkg/builder/worker_build_queue.go:225-255 | A worker waits exactly if nothing is pending, leaves exactly if something is and its stream is dead, and is otherwise given the pending job with the lowest priority number, the oldest of those; finishing completes its own job first and wakes exactly its clients |
| Scheduler.RunRemembers | pkg/builder/worker_build_queue.go:73-256 | In every run a client keeps its job, what it was sent only grows, and names keep leading to the same job |
| Scheduler.NamesLeadToTheirJobs | pkg/builder/worker_build_queue.go:193-211 | So whoever asks, at any later time, for the name under which a job was accepted is told about that job |
| Scheduler.NoWakeupIsLost | pkg/builder/worker_build_queue.go:230-240 | In every interleaving no worker waits or there are as many woken workers as pending jobs; so while a worker waits and a job is pending, a woken one can go on |
| Scheduler.RetriesMakeProgress | pkg/builder/worker_build_queue.go:225-243 | In every interleaving from any state with pending jobs, whoever arrives or dies in it, woken workers go on at most |woken| + 2 * |waiting| times before a job is handed out |
| Scheduler.LeavingSilentlyLosesWakeup | pkg/builder/worker_build_queue.go:236-239 | Without the Signal of a worker with a dead stream that would fail |
| Scheduler.DispatchKeepsCore | pkg/builder/worker_build_queue.go:241-243 | Handing out the least pending job keeps job, map, worker and client invariants and first-in-first-out order |
| Scheduler.CompleteKeepsCore | pkg/builder/worker_build_queue.go:250-254 | So does completing a job and waking its clients |
| BuildQueue.WorkerBuildQueue.Execute | pkg/builder/worker_build_queue.go:167-200 | Deduplication, refusal when full, insertion and signal, on the maps and the heap |
| BuildQueue.WorkerBuildQueue.WaitExecution | pkg/builder/worker_build_queue.go:202-211 | Lookup by name |
| BuildQueue.WorkerBuildQueue.GetWork | pkg/builder/worker_build_queue.go:225-243 | A worker that arrives or wakes: it waits, leaves with a signal, or takes the least job |
| BuildQueue.WorkerBuildQueue.FinishWork | pkg/builder/worker_build_queue.go:246-255 | Completion, broadcast, and the next turn of the loop |
| BuildQueue.WorkerBuildQueue.Wait | pkg/builder/worker_build_queue.go:73-107 | One turn of waitExecution: one message, then an error, the orderly end, or sleep |
| BuildQueue.WorkerBuildQueue.ResumeWait | pkg/builder/worker_build_queue.go:73-107 | A woken client is sent the state of its job, and returns or waits again |
| Sharding.SlotsPerShard | pkg/blobstore/sharding/weighted_shard_permuter.go:13-31 | Every shard i is hit by exactly weights[i] of all slots |
| Sharding.SelectIsFirstUndrained | pkg/blobstore/sharding/sharding_blob_access.go:38-45 | A shard is selected if and only if it owns the slot of some draw and is not drained, and all owners of earlier draws are |
| Sharding.ShardIsFirstUndrained | pkg/blobstore/sharding/weighted_shard_permuter.go:33-48 | The same in terms of the generator and the hash of a digest, and of who owns a slot |
| Sharding.DrainMovesOnlyItsOwn | pkg/blobstore/sharding/sharding_blob_access.go:38-45 | Draining shard d moves only what was on d, and all of that |
| Sharding.GrowingMovesOnlyToNewShards | pkg/blobstore/sharding/sharding_blob_access.go:38-45 | Giving the weight of a drained trailing shard to new shards leaves each digest where it was or moves it to a new shard |
| Sharding.WeightedShardPermuter.constructor | pkg/blobstore/sharding/weighted_shard_permuter.go:19-31 | The cumulative weights |
| Sharding.WeightedShardPermuter.Search | pkg/blobstore/sharding/weighted_shard_permuter.go:41-43 | The binary search finds the one shard that owns the slot |
| Sharding.WeightedShardPermuter.GetShard | pkg/blobstore/sharding/weighted_shard_permuter.go:33-48 | The loop draws until it hits a shard that is not drained: the selection that ShardIsFirstUndrained is about |
| Sharding.FindMissing | pkg/blobstore/sharding/sharding_blob_access.go:69-97 | For answers in any order: reports as a multiset exactly what is missing on its own shard, failing shards excepted, and an error if and only if a shard asked fails |
| Sharding.GroupByShard | pkg/blobstore/sharding/sharding_blob_access.go:71-75 | The digests are partitioned by their shard |
| TreeCodec.UploadDirectory | pkg/builder/local_build_executor.go:104-166 | Fails exactly for directories with an entry below that is of another kind, or cannot be stored, entered, listed or read; otherwise gives the directory's message and adds exactly the directories below to the children, under their digests |
| TreeCodec.KeysHold | pkg/builder/local_build_executor.go:136-151 | Unless a listed child collides with a directory of the tree, having all the digests means having all the directories |
| TreeCodec.DecodeChildren | cmd/bbb_browser/browser_service.go:480-493 | The loop computes the map of the listed children under their digests |
| TreeCodec.DecodedIsOriginal | cmd/bbb_browser/browser_service.go:480-493 | That map is the worker's, in whatever order the children were listed |
| TreeCodec.WalkIsResolve | cmd/bbb_browser/browser_service.go:495-528 | Every path leads in the Tree message where it leads in the original, or nowhere where it does there |
| TreeCodec.Walk | cmd/bbb_browser/browser_service.go:495-528 | The walk's loops compute that |
| TreeCodec.TarballIsTree | cmd/bbb_browser/browser_service.go:306-374 | The tarball has, each exactly once, an entry for every directory, symbolic link and file of the original at its path with target, digest and executable bit, and nothing else |
| TreeCodec.TarWriter.GenerateDirectory | cmd/bbb_browser/browser_service.go:306-374 | The recursion writes that to its output |
| TreeCodec.TreeRoundTrip | cmd/bbb_browser/browser_service.go:480-537 | Upload, listing in any order, decoding, walk and tarball together: under every path the browser finds the directory the worker had there, and serves the tarball of exactly that, or finds nothing where there was none |
| BatchedStore.BatchedStoreBlobAccess.FlushLocked | pkg/blobstore/batched_store_blob_access.go:48-76 | Fails exactly if a call to the backend does. Without error nothing is pending and all that was is in the backend; with one at most one blob is lost. Only blobs that the backend lacks are handed over to it; on every path each reader is pending, handed over or closed |
| BatchedStore.BatchedStoreBlobAccess.Put | pkg/blobstore/batched_store_blob_access.go:78-101 | Below the batch size the backend is not asked and the blob is pending; an error only comes from the backend or from closing a reader. Keeps at most max(1, batchSize) pending; every reader in one place, also on failure |
| BatchedStore.BatchedStoreBlobAccess.StoreAll | pkg/blobstore/batched_store_blob_access.go:34-46 | Whatever went wrong before: if no Put of a phase and not its final flush reported an error, every blob of it is in the backend, with all that earlier phases left behind, and no reader is pending; and errors are only reported if a call failed |
| BatchedStore.BatchedStoreBlobAccess.Serve | pkg/builder/storage_flushing_build_executor.go:26-32 | Over the life of a writer, with any phases failing, the backend ends up with every blob of every phase that reported no error, and if no call fails that is every phase |
| EvictionCaches.FileKeyIsInjective | pkg/cas/hardlinking_content_addressable_storage.go:84-89 | Cached files are shared only for the same digest and executable bit |
| EvictionCaches.RemoveAtEnumerates | pkg/cas/hardlinking_content_addressable_storage.go:75-78 | Evicting by moving the last list element keeps list and map in step |
| EvictionCaches.HardlinkingCache.MakeSpace | pkg/cas/hardlinking_content_addressable_storage.go:64-81 | What is left is the old list without the files picked at random, each of which went while there was no room yet; it fails exactly if a removal does, and otherwise ends with room or with none left |
| EvictionCaches.HardlinkingCache.InsertFile | pkg/cas/hardlinking_content_addressable_storage.go:107-122 | A cached key changes nothing; another is appended to what such evictions left; the call fails exactly if removing or linking does. Total at most maxSize unless exactly one file is cached |
| EvictionCaches.HardlinkingCache.TryHit | pkg/cas/hardlinking_content_addressable_storage.go:91-99 | A hit has the content of the base store |
| EvictionCaches.HardlinkingCache.Interleave | pkg/cas/hardlinking_content_addressable_storage.go:83-123 | All of this under any interleaving of the locked sections; every hit has the content of the base store, for a key that was inserted before; and what was inserted or hit is hit until something else is inserted, if no call fails |
| EvictionCaches.DirectoryCache.MakeSpace | pkg/cas/directory_caching_content_addressable_storage.go:39-51 | Evicts exactly as many as it must to leave room for one more, none if there is, or panics, exactly if the maximum is less than one |
| EvictionCaches.DirectoryCache.InsertDirectory | pkg/cas/directory_caching_content_addressable_storage.go:70-78 | Never more than the maximum; the key is cached afterwards, or the call panics, exactly if the maximum is less than one and the key was not cached |
| EvictionCaches.DirectoryCache.Interleave | pkg/cas/directory_caching_content_addressable_storage.go:53-79 | Under any interleaving hits and the base store agree, and what was inserted or hit is hit until something else is inserted, up to a panic that can only come from a maximum less than one |
| ResourceNames.ReadNameRoundTripIff | pkg/cas/byte_stream_server.go:24-44 | The server parses a client's read name back to the digest if and only if the instance has no slash |
| ResourceNames.WriteNameRoundTripIff | pkg/cas/byte_stream_server.go:52-72 | The same for write names, for every upload identifier |
| ResourceNames.ParseIntOfDecimal | pkg/cas/byte_stream_server.go:30-33 | Sizes survive printing and parsing |
| ResourceNames.ParseIntOfSigned | pkg/cas/byte_stream_server.go:30-33 | With a sign too; exactly the sizes of 64 bits are accepted |
| ResourceNames.ParseIntNeedsDigits | pkg/cas/byte_stream_server.go:30-33 | Nothing else than an optional sign and digits is accepted |
| ResourceNames.ParseReadNameIff | pkg/cas/byte_stream_server.go:24-44 | Exactly which read names are accepted, and for what digest: the three fields, after at most one for the instance, of a valid digest |
| ResourceNames.ParseWriteNameIff | pkg/cas/byte_stream_server.go:52-72 | Exactly which write names are |
| ResourceNames.FieldsOfPath | pkg/cas/byte_stream_server.go:25 | Splitting at slashes distributes over joining with one |
| ByteStream.SendBlob | pkg/blobstore/content_addressable_storage_blob_access.go:92-137 | The requests the client sends: name once, offsets, data, one terminating request unless the source fails |
| ByteStream.WriteServerReader.SetRequest | pkg/cas/byte_stream_server.go:128-140 | A request is accepted if and only if the write is not finished and its offset is the expected one |
| ByteStream.WriteServerReader.Read | pkg/cas/byte_stream_server.go:142-159 | One read of the server from the stream |
| ByteStream.ReceiveFillsBuffer | pkg/cas/byte_stream_server.go:142-159 | It never overruns the buffer, and leaves room in it only if it took all of a request |
| ByteStream.WriteRoundTrip | pkg/cas/byte_stream_server.go:116-187 | From the client's Put to the server's storage: for every content, chunking and buffer sizes the server reads the same bytes, then the end, and no error |
| ByteStream.UnfinishedWriteFails | pkg/cas/byte_stream_server.go:146-149 | As long as no terminating request comes, the server does not report the end |
| ByteStream.FailedSourceNeverEnds | pkg/blobstore/content_addressable_storage_blob_access.go:92-137 | What the client sends for a source that fails never makes the server report the end |
| ByteStream.ServeEndsIff | pkg/cas/byte_stream_server.go:116-187 | From the client's Put to the server's storage: given enough reads, the server reports the end if and only if the client's source did not fail, and then has all of its bytes |
| ByteStream.ServeAcceptsIff | pkg/cas/byte_stream_server.go:116-187 | Whatever client it talks to: the server reports the end if and only if each request starts where the data before it ends and exactly the last one finishes the write, and then has read all of their data |
| ByteStream.SendResponses | pkg/cas/byte_stream_server.go:104-118 | The responses are the chunks that are not empty |
| ByteStream.ByteStreamBlobReader.Read | pkg/blobstore/content_addressable_storage_blob_access.go:44-60 | One read of the client |
| ByteStream.ReadBlobFillsBuffer | pkg/blobstore/content_addressable_storage_blob_access.go:44-60 | It never overruns the buffer, and leaves room in it only if it took all of a response |
| ByteStream.ReadRoundTrip | pkg/blobstore/content_addressable_storage_blob_access.go:44-90 | From the server's storage to the client: the same bytes, and the end if and only if the server's source had no error |

## Left out

- CircularIntegrity.Integrity: is about runs whose writes are harmless and whose uploads come through the validating reader; the program does not ensure the first, see LateWriteCorrupts, and the Action Cache has no validating reader, see ShortSourceIsServed. What holds without either is StepKeepsIndex, DeletedStaysAway, NoFalseMissInSystem and MerkleGetIsSafe.
- CircularIntegrity.DownloadsAreGenuine: is in addition about reads that meet the condition of ReadIsGenuineIff, which the program does not ensure, see LateReadDeliversOthers.
- CircularCalls.SequentialReadBack: sources deliver as announced, as they do through the validating reader.
- MerkleBlobAccess.RejectedStaysAway: is about the blob that is found when the deletion comes; other calls may have put the key elsewhere, or lost it, since it was rejected.
- MerkleBlobAccess.MerkleReadBack: the calls stored no blob for another digest of this size with the same simple digest.
- OffsetTable.RunHasNoFalseMisses: says nothing about the record that a Put drops, at the cap on iterations or after the last attempt; InsertKeepsAllButOne says that there is at most one.
- StateStore.FileStateStore.Allocate: data files of more than 2^63 bytes, which signed file offsets cannot address, do not meet Valid(); AllocateIsFatalIff says what happens to them.
- Allocation.RangesIncrease, and all runs of the circular store: allocations stay below 2^64 - dataSize - chunkSize in linear addresses; AllocateMovesBack says what happens there.
- TreeCodec.Tarball: recursion is bounded by a fuel argument, because an arbitrary digest function permits a cyclic Tree; for uploaded directories their depth is enough, so nothing is lost there.
- Sharding.WeightedShardPermuter.GetShard: that an undrained shard is drawn at some point is a hypothesis about the generator; the total weight is assumed not to reach 2^64.
- Scheduler.RetriesMakeProgress: bounds the number of steps; that a woken worker runs at all is up to the Go runtime. The 64-bit insertion order does not wrap.
- EvictionCaches.HardlinkingCache.TryHit: a failing link into the caller's directory is not modelled.
- BatchedStore.BatchedStoreBlobAccess.StoreAll: the backend may fail at any time, but answers FindMissing truthfully and keeps what it has.
- Errors when reading the data file, other than at its end.
- Byte layout of index records and of the state file, and I/O errors in both: a failed operation would have to make no change, and torn or corrupted files are not modelled. The simple digest cuts sizes to 32 bits, so different digests may share a key; results are per key.
- An offset file smaller than one record, or a cache of size 0, makes the program divide by zero; the model has at least one slot in each.
- Restarting with a non-empty index: runs start from an index without blobs, with any cursors in the window.
- The offset store per instance name, size-distinguishing, existence-checking and error adapters, metrics, and the Redis, S3, HTTP and GRPC clients: they forward calls.
- The demultiplexing build queue: WaitExecution forwards the request it meant to rewrite, so names do not round-trip there.
- What a worker's stream returns, and purging of finished jobs, which the program does not do.
- The local file system, build execution other than uploading output directories, file contents in tarballs, headers and templates of the browser.
- Readers that return bytes together with io.EOF, which the data store would drop.
