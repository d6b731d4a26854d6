# Sia: verified models

Dafny models of the parts of Sia whose correctness rests on arithmetic, layout on disk or on the
wire, or on the order of concurrent steps, with proofs that hold for every input, every run and
every crash.

| file | what it models |
|---|---|
| `TryRWMutex.dfy` | the try-lock of `sync/tryrwmutex.go`, which packs three counters into one atomic word |
| `TryRWMutexCalls.dfy` | what its calls do for their callers, waiting and progress |
| `ThreadGroup.dfy` | the life cycle of `sync/threadgroup.go`: Add, Done, Flush, OnStop, AfterStop, Stop |
| `ThreadGroupCalls.dfy` | what its calls do, and when given functions run |
| `Limiter.dfy` | `sync/limiter.go` with its condition variable, cancellation and single signals |
| `LimiterCalls.dfy` | what its calls do, waiting and progress |
| `Packing.dfy` | the bin packer of `modules/packing.go` |
| `PackingChoice.dfy` | which place a file gets, in terms of the files already placed |
| `Skylink.dfy` | the bitfield of `modules/skylink.go`, and that every packed file has a skylink |
| `Common.dfy`, `Wire.dfy` | small shared notions; little-endian integers, length prefixes and files of bytes |
| `Encoding.dfy` | the consensus encoding of `types/encoding.go` |
| `Layout.dfy` | what stands at which byte of that encoding |
| `Canonical.dfy` | which accepted encodings are the ones that would be written |
| `ProgramBuilder.dfy` | programs from the renter's builder to the host's bill |
| `Skykey.dfy` | the key store of `skykey/`, two maps and a file |
| `AppendOnly.dfy` | a disk with crashes, logs with a length in the header, `persist/appendonly.go` |
| `SkykeyCrash.dfy` | crashes while a key is saved, over runs of saves and deletions |
| `Erasure.dfy` | the segment-wise coder of `modules/erasure.go` over an abstract k-of-n code |
| `JsonPersist.dfy` | the two files of `persist/json.go` under crashes |
| `Revisions.dfy` | the contract revisions of `types/filecontracts.go` |
| `NumSiacoins.dfy` | the coin supply of `types/block.go` |

`dafny verify dfyconfig.toml` checks all of it.

## How to read it

Code that changes things step by step is a class or a method with loops, proved against a function
of its inputs or of its old state; what the source promises is proved about that function.

Concurrent code is a step system: one step for every atomic action of one thread, in any
interleaving of any finite number of threads. A run starts in the initial state and takes any
number of steps.

Crashes are modelled by what a disk may hold. A disk remembers every content since the last sync.
A crash leaves one of the headers written since then, because a header lies in one disk sector,
and every later byte on which all these contents agree; all else, including the length of the
file, is arbitrary. For the two JSON files a crash leaves any content the file has had since its
last sync. Each operation lists the moments at which a crash may strike, and the theorems hold at
each of them and over runs with any number of crashes.

Hash functions, Reed-Solomon arithmetic and JSON text are parameters or abstract values. The
erasure theorems assume of the library only that it recovers the data shards from any k of the n
shards.

## Where the code differs from what it says

- `sync/tryrwmutex.go` documents its mask as 39 bits; the constant is 2^40 - 1, which is what the
  protocol needs. The documented limit on concurrent operations is sharp.
- `modules/skylink.go` documents 60 illegal states for every mode but the first; there are 44.
- `modules/skylink.go` accepts an offset of 4 MiB with length 0, and pairs whose sum wraps around
  64 bits, and stores something else for them. `RecoversIff` gives the exact condition.
- `skykey/skykeymanager.go` does not check the ID of a key it creates. The maps stay mutually
  inverse exactly when the ID is new.
- `types/encoding.go` decodes currencies with leading zero bytes, which it never writes, and takes
  any flag byte but 1 for false. Decoding undoes encoding, but encoding undoes decoding only for
  canonical bytes. `CurrencyReencodes`, `CoveredReencodes`, `TransactionReencodes` and
  `BlockReencodes` give the exact conditions, and `FlagTwo` is an input that is not written back.
- `sync/limiter.go` does not signal when a Release panics. `PanicsIff` says when that is, `LostNext`
  exactly which panics lose a wakeup and which steps make up for it, `NoLostWakeup` that a wakeup is
  lost exactly then, and `PanicLosesWakeup` is a run that loses one.
- `persist/appendonly.go` takes a recorded length below the metadata and truncates the file to it;
  `LoadsAgain` gives the exact condition for the file to load again.
- `types/filecontracts.go` increments revision numbers without a check, so the largest one is
  followed by zero; `NumberGrowsIff` gives the exact condition.
- `modules/host/mdm` charges ReadOffset the time of ReadSector, and the builder the time of
  ReadOffset. The two constants are equal, which the equality of the bills depends on.

## Model

| member | source | states |
|---|---|---|
| `TryRWMutex.WordIsThreeCounters` | sync/tryrwmutex.go:27-102 | In every state of every run with at most 2^20 operations active, the lock word is exactly readers + 2^20 writers + 2^40 tries and has not wrapped, is zero exactly when nothing is active, and both masked comparisons decide exactly "a Try is in flight" and "a writer is registered". |
| `TryRWMutex.TryNeverWaits` | sync/tryrwmutex.go:65-96 | A TryLock or TryRLock that has passed its test finds the embedded mutex free, with no conflicting holder and no announced writer, so its next step is never blocked. |
| `TryRWMutex.TryOutcome` | sync/tryrwmutex.go:27-96 | The first step of a call: TryLock gets in exactly when no operation is active, TryRLock exactly when no writer is registered, and Lock and RLock begin to spin exactly when a Try is in flight. |
| `TryRWMutex.MutualExclusion` | sync/tryrwmutex.go:27-102 | While one thread holds the write lock no other holds it for writing or reading, in every state of every run, with any number of operations active. |
| `TryRWMutex.StepKeepsInv` | sync/tryrwmutex.go:27-102 | Every atomic step of every thread keeps the word equal to the three counters, the embedded mutex equal to the threads that stand in it, and both kinds of Try shielded from conflicting threads. |
| `TryRWMutex.RunKeepsInv` | sync/tryrwmutex.go:27-102 | So does every run of any length and interleaving. |
| `TryRWMutex.TryRLockTestDecides` | sync/tryrwmutex.go:79-96 | The masked comparison is right about "a writer is registered" if and only if a writer is registered or at most 2^20 readers are. |
| `TryRWMutex.SpinTestDecides` | sync/tryrwmutex.go:27-54 | The spin comparison is right about "a Try is in flight" if and only if one is or the reader and writer fields together do not exceed 2^40. |
| `TryRWMutex.LimitIsSharp` | sync/tryrwmutex.go:9-20 | One reader more than 2^20 makes the masked comparison report a writer that does not exist. |
| `TryRWMutexCalls.SpinsIff` | sync/tryrwmutex.go:31-54 | In every run, a spinning Lock or RLock that loads the word again goes on spinning if and only if a Try is in flight. |
| `TryRWMutexCalls.LeavesSpin` | sync/tryrwmutex.go:31-54 | One that does not spin goes on to the embedded mutex, and one that spins looks again. |
| `TryRWMutexCalls.WaitsIff` | sync/tryrwmutex.go:27-102 | A step waits if and only if it enters the embedded mutex while a writer is there or on its way, or is a writer on its way while somebody reads. |
| `TryRWMutexCalls.NoDeadlock` | sync/tryrwmutex.go:27-102 | While any operation is in progress, some thread in the middle of one can take a step, in every state of every run. |
| `TryRWMutexCalls.GetsCloser` | sync/tryrwmutex.go:27-102 | Every step of a thread that does not spin brings it closer to being idle again; there are at most six. |
| `TryRWMutexCalls.CallHolds` | sync/tryrwmutex.go:27-102 | From the start of a call to the release of what it got: Lock has had the write lock and RLock a read lock; TryLock and TryRLock have had theirs if and only if their first step was granted. |
| `Packing.PackFiles` | modules/packing.go:100-138 | Succeeds exactly when every size is between 1 and the sector size, and fails for size exactly when one is larger; places every file exactly once; every placement is aligned for its size and inside one sector; placements and free buckets are pairwise disjoint; the free list is sorted; free bytes plus rounded sizes make up all sectors; every sector holds a file. |
| `Packing.FindBucket` | modules/packing.go:144-178 | The first among the largest buckets that can hold the aligned file; none exactly when none can. |
| `Packing.FitsAligned` | modules/packing.go:159-169 | The test inside findBucket is the aligned fit, and its unsigned subtraction never underflows. |
| `Packing.RequiredAlignment` | modules/packing.go:192-203 | The loop finds the alignment of the least mode whose size limit covers the file, and the error exactly when there is none. |
| `Packing.ModeExists` | modules/packing.go:192-203 | Exactly the sizes up to the sector size have an alignment. |
| `Packing.AlignFileInBucket` | modules/packing.go:206-218 | The space lost in front of the file, or the size error, for every size and offset. |
| `Packing.AlignInBucketSmall` | modules/packing.go:144-246 | The space lost to alignment is a whole number of units and never more than the file size, so neither subtraction of the packer underflows. |
| `Packing.FileInsideBucket` | modules/packing.go:222-246 | The aligned file, rounded up to a unit, lies inside its bucket and ends on a unit. |
| `Packing.PackBucket` | modules/packing.go:222-255 | The file goes to the aligned start of its bucket, and the bucket is replaced by at most one piece before it and one after it. |
| `Packing.CreateNewBucket` | modules/packing.go:259-284 | The free space from the next unit on is inserted, or nothing when none is left. |
| `Packing.InsertBucket` | modules/packing.go:291-296 | The bucket is inserted at the index and everything else keeps its order. |
| `Packing.SortByFileSizeDescending` | modules/packing.go:302-313 | The list holds every entry of the map exactly once, in descending size, with ties in any order. |
| `Packing.PackNext` | modules/packing.go:108-135 | One turn of the packing loop is one step of the greedy packer. |
| `Packing.PackSorted` | modules/packing.go:108-135 | The loop is the greedy packer over the whole list; the error is that of the first file that cannot be packed. |
| `Packing.PackKeepsLayout` | modules/packing.go:222-284 | Packing a file keeps every placement and every free bucket valid, sorted and pairwise disjoint. |
| `Packing.PackConserves` | modules/packing.go:222-284 | Packing a file takes exactly its size rounded up to a unit out of the free space. |
| `Packing.ExtendKeepsLayout` | modules/packing.go:182-188 | Adding a sector keeps the layout. |
| `Packing.ExtendConserves` | modules/packing.go:182-188 | Adding a sector keeps free plus used bytes equal to all sectors. |
| `Packing.StepKeepsInv` | modules/packing.go:108-135 | Every step keeps layout, conservation and "every sector holds a file". |
| `Packing.GreedyKeepsInv` | modules/packing.go:100-138 | For every list of packable files in any order, the greedy packer ends in such a state with every file placed once. |
| `Packing.FitsIff` | modules/packing.go:137-178 | A bucket is taken for a file if and only if some start in it meets the alignment table of the design and leaves room for the file; the start chosen is the first such. |
| `PackingChoice.BucketsAreGaps` | modules/packing.go:60-137 | In every state of the packer the buckets are exactly the gaps between the placed files, each as long as it can be. |
| `PackingChoice.OpensSectorIff` | modules/packing.go:60-137 | In every state, the next file opens a new sector if and only if no sector has a place for it, aligned as the design asks, between the files already placed. |
| `PackingChoice.PlacesFile` | modules/packing.go:60-178 | The next file goes to the first place for it in the first of the longest gaps that can hold it, or to the beginning of the new sector; the placements before it stay. |
| `PackingChoice.StepKeepsExact` | modules/packing.go:60-262 | Every step keeps every byte of every sector free or part of one file, and no two buckets touching. |
| `SkylinkBitfield.NewSkylinkV1` | modules/skylink.go:66-74 | Accepts exactly the encodable pairs, and stores the root and the encoded pair. |
| `SkylinkBitfield.ValidateAndParseV1Bitfield` | modules/skylink.go:87-141 | The shifting parser accepts exactly the legal bitfields and returns their offset and fetch size; on an error it returns 0 and the maximum. |
| `SkylinkBitfield.ParseFields` | modules/skylink.go:112-136 | Once the mode bits are shifted out, the remaining bits give the offset and fetch size of that mode. |
| `SkylinkBitfield.Skylink.SetOffsetAndFetchSize` | modules/skylink.go:349-416 | Accepts exactly the encodable pairs; sets the bitfield to their encoding and otherwise leaves it alone. |
| `SkylinkBitfield.FindOffsetAlign` | modules/skylink.go:354-364 | The halving loop ends at the alignment of the mode of the length. |
| `SkylinkBitfield.FindFetchStep` | modules/skylink.go:372-393 | The shift and the rounding compute the least fetch step that covers the length. |
| `SkylinkBitfield.AssembleBits` | modules/skylink.go:395-411 | The shifts on 16 bits put offset, fetch step and mode together. |
| `SkylinkBitfield.Skylink.LoadBytes` | modules/skylink.go:324-344 | Loads exactly 34 bytes with a legal bitfield; a failed load changes nothing. |
| `SkylinkBitfield.RoundTripBytes` | modules/skylink.go:149-154 | Loading the bytes of a valid skylink gives that skylink back. |
| `SkylinkBitfield.RecoversIff` | modules/skylink.go:349-416 | An accepted pair comes back with its offset and a covering fetch size if and only if the offset is below 4 MiB and offset plus length does not exceed it; the fetch size is then the least of the table. |
| `SkylinkBitfield.LostPairs` | modules/skylink.go:349-352 | Accepted pairs that are lost: offset 4 MiB with length 0, and a sum that wraps to zero. |
| `SkylinkBitfield.EncodableIff` | modules/skylink.go:349-416 | Without wrap-around, a pair is accepted exactly when it lies inside the sector and its offset meets the alignment the packer uses for that length. |
| `SkylinkBitfield.Reencodes` | modules/skylink.go:87-141 | Every accepted bitfield encodes back to itself. |
| `SkylinkBitfield.LeastInTable` | modules/skylink.go:280-289 | No shorter entry of the table of fetch sizes covers the length. |
| `SkylinkBitfield.FetchTable` | modules/skylink.go:280-293 | The fetch size of every mode and step is the entry of the documented table, and offsets are multiples of 4, 8 and so on to 512 KiB. |
| `SkylinkBitfield.BitsAre` | modules/skylink.go:395-411 | Mode ones from bit 2 on, the fetch size three bits above the closing zero, and the offset above that. |
| `SkylinkBitfield.ReadBits` | modules/skylink.go:87-141 | Parsing the bits of a code gives the code back. |
| `SkylinkBitfield.BitsRead` | modules/skylink.go:87-141 | The bits of a parsed bitfield are the bitfield. |
| `SkylinkBitfield.BitsFit` | modules/skylink.go:395-411 | The bits of a code fit 16 bits exactly when it is in range, and leave the version bits zero. |
| `SkylinkBitfield.IllegalStates` | modules/skylink.go:291-296 | The first mode has 28 illegal states and every later one 44. |
| `SkylinkBitfield.PackedFilesHaveSkylinks` | modules/packing.go:192-217 | With Standard constants, every placement of the packer is accepted by NewSkylinkV1, and its skylink leads back to the exact offset and the least covering fetch size, still inside the sector. |
| `SkylinkBitfield.EveryPackedFileHasSkylink` | modules/packing.go:100-138 | In every state of the packer, the skylink of every placed file recovers its offset and covers it with the least fetch size. |
| `SkykeyFormat.RecordRoundTrip` | skykey/skykey.go:218-299 | Every record, live or deleted, is read back from the front of any stream, so records are prefix-free. |
| `SkykeyFormat.UnmarshalConsumes` | skykey/skykey.go:218-265 | A successful read always advances. |
| `SkykeyFormat.UnmarshalExact` | skykey/skykey.go:218-265 | Exactly which bytes are read as which record: those of a valid key, or the mark of a tombstone with a length of at most 256 and that many bytes. |
| `SkykeyFormat.GraveFits` | skykey/skykeymanager.go:160-185 | A tombstone occupies exactly the bytes of the record it replaces and stays below the entropy limit that the reader enforces. |
| `SkykeyFormat.RecordLayout` | skykey/skykey.go:218-299 | The type stands at byte 0, the entropy at 1 and the name with its length at 57; a tombstone is its mark, a length at 1 and that many zeros. |
| `SkykeyStore.SkykeyManager.AddKey` | skykey/skykeymanager.go:188-206 | The error for each bad case, in the code's order; success adds exactly the key to both maps and one record to the file; failure changes nothing. |
| `SkykeyStore.SkykeyManager.CreateKey` | skykey/skykeymanager.go:209-233 | The name is checked but the ID is not: the maps stay mutually inverse exactly when the generated ID is new. |
| `SkykeyStore.SkykeyManager.DeleteKeyByID` | skykey/skykeymanager.go:322-371 | Removes exactly the key from both maps, replaces one live record with its ID by its tombstone, in the file in place and synced, and changes nothing else; fails exactly for an unknown ID. |
| `SkykeyStore.SkykeyManager.DeleteKeyByName` | skykey/skykeymanager.go:243-253 | The same, by name. |
| `SkykeyStore.SkykeyManager.FindRecord` | skykey/skykeymanager.go:336-361 | The scan finds the first live record with the ID and its exact extent, or there is none. |
| `SkykeyStore.SkykeyManager.Load` | skykey/skykeymanager.go:376-434 | A file without a header gets one; any other loads exactly when it parses to exactly fileLen, and the maps are then those of its records. |
| `SkykeyStore.LoadRecords` | skykey/skykeymanager.go:408-426 | The loop stores exactly the live records up to fileLen. |
| `SkykeyStore.SkykeyManager.SaveHeader` | skykey/skykeymanager.go:482-496 | Three writes and a sync put the header in front and leave the rest of the file; the disk passes through exactly those moments. |
| `SkykeyStore.SkykeyManager.SaveKey` | skykey/skykeymanager.go:500-535 | Adds the key to both maps and its record behind the valid part; the disk passes through exactly the moments of the record's writes, a sync, and the header, however the encoder cuts the record. |
| `SkykeyStore.SavedHolds` | skykey/skykeymanager.go:500-535 | The file that is left holds the new key behind the old records. |
| `SkykeyStore.StoreInverse` | skykey/skykeymanager.go:500-505 | Storing under a new name keeps the maps inverse if and only if the ID is new too. |
| `SkykeyStore.DistinctInverse` | skykey/skykeymanager.go:376-434 | Maps rebuilt from records with distinct names and IDs are mutually inverse. |
| `SkykeyStore.LiveKeyStored` | skykey/skykeymanager.go:408-422 | Every live record is in the maps under its name and ID. |
| `SkykeyStore.OnlyLiveKeys` | skykey/skykeymanager.go:408-422 | Nothing else is. |
| `SkykeyStore.BuryRemoves` | skykey/skykeymanager.go:322-371 | Replacing a live record by a tombstone takes exactly its key out of the rebuilt maps. |
| `SkykeyStore.RecordsReadBack` | skykey/skykeymanager.go:408-426 | The bytes of any list of records parse back to that list and end exactly at fileLen. |
| `SkykeyStore.FileReadBack` | skykey/skykeymanager.go:376-478 | A file that holds a list of records loads as that list, with its header. |
| `SkykeyStore.AppendHolds` | skykey/skykeymanager.go:500-535 | Writing a record behind the valid part and then the header adds exactly that record. |
| `SkykeyStore.ReplaceHolds` | skykey/skykeymanager.go:170-185 | Writing a record of equal length over another replaces exactly that one. |
| `SkykeyStore.HeaderWritten` | skykey/skykeymanager.go:482-496 | What the three header writes leave. |
| `SkykeyStore.Reload` | skykey/skykeymanager.go:107-127 | A new manager on the same file has the same maps and records. |
| `SkykeyStore.RunOps` | skykey/skykeymanager.go:188-434 | Over every run of AddKey, CreateKey with new IDs, both deletions and restarts, the store with its file behaves like a plain pair of maps, which stay mutually inverse. |
| `SkykeyStore.IdIsTypeAndKey` | skykey/skykey.go:363-379 | Two keys have the same ID for every hash function if and only if they have the same type and the same first 32 bytes of entropy: name and nonce do not matter. |
| `SkykeyStore.FileFormat` | skykey/skykeymanager.go:482-496 | Magic at byte 0, version at 16, length at 32 and the records from 40 on. |
| `SkykeyStore.HeaderExact` | skykey/skykeymanager.go:437-478 | A header is accepted, with this length, if and only if the magic stands at byte 0, one of the two versions at 16 and the length at 32. |
| `CrashDisk.Disk.Truncate` | persist/appendonly.go:100-103 | The content is cut or padded with zeros, and is one more content that a crash may find unsynced. |
| `CrashDisk.Disk.WriteAt` | persist/appendonly.go:106-109 | The bytes are overwritten in place, and are one more content that a crash may find unsynced. |
| `CrashDisk.Disk.Sync` | persist/appendonly.go:110-113 | Only the current content remains. |
| `CrashDisk.TruncatedAt` | persist/appendonly.go:100-103 | A truncated file, byte by byte. |
| `CrashDisk.CrashShows` | persist/appendonly.go:94-130 | A crash may leave any content since the last sync, and the header of one in front of the rest of another. |
| `Wire.OverwriteAt` | persist/appendonly.go:106-109 | A file after a write, byte by byte. |
| `LengthLog.HoldsFormat` | persist/appendonly.go:132-193 | The specifiers stand at byte 0, the end of the data at 32, the data behind the page. |
| `LengthLog.CrashStores` | persist/appendonly.go:94-130 | Bytes on which all contents since the last sync agree survive a crash. |
| `LengthLog.CrashHeader` | persist/appendonly.go:18-22 | The header survives a crash as one of the headers written since the last sync. |
| `LengthLog.SteadySurvives` | persist/appendonly.go:94-113 | While only bytes behind the recorded length change, every crash leaves exactly the old data. |
| `LengthLog.CommittingSurvives` | persist/appendonly.go:115-128 | Once the new bytes are synced, a crash during the length write leaves the old data or all of the new. |
| `LengthLog.HoldsData` | persist/appendonly.go:196-248 | A file that holds data is read as that data. |
| `LengthLog.DataHolds` | persist/appendonly.go:196-248 | Every sound file holds what is read from it. |
| `AppendOnly.AppendOnlyPersist.Init` | persist/appendonly.go:155-193 | A new file holds no data and is fit for writing. |
| `AppendOnly.AppendOnlyPersist.Write` | persist/appendonly.go:94-130 | Appends exactly b, and passes through exactly the listed moments. |
| `AppendOnly.AppendOnlyPersist.Load` | persist/appendonly.go:196-297 | Fails exactly for the first fault of the metadata, in the order in which the code finds it: too short, not ASCII, wrong header, wrong version, a length beyond a signed 64-bit offset; a sound file gives exactly its data and an object fit for writing; any other accepted file gives what lies between the page and the recorded length, filled up with zeros, and is left truncated to it. |
| `AppendOnly.LoadsAgain` | persist/appendonly.go:230-248 | A file that was loaded loads again, with the same bytes, if and only if the length recorded in it is at least that of the metadata. |
| `AppendOnly.AcceptedIff` | persist/appendonly.go:196-297 | A file is accepted, with this length, if and only if the specifiers stand at bytes 0 and 16 and the length at 32, and it is a signed 64-bit offset. |
| `AppendOnly.WriteSurvives` | persist/appendonly.go:94-130 | At every moment of a write, every crash image holds the old data or all of the new; after the last sync only the new. |
| `AppendOnly.StepDurable` | persist/appendonly.go:94-248 | One write, or one crash at any moment of one followed by a load, keeps all data and adds all or nothing. |
| `AppendOnly.RunDurable` | persist/appendonly.go:94-248 | Over every run of writes and crashes no acknowledged write is lost, reordered or seen in part. |
| `CrashDisk.WriteChunks` | skykey/skykeymanager.go:521-527 | An encoder's writes, one behind the other, leave their concatenation in place and pass through one moment each. |
| `SkykeyCrash.SaveKeyAtomic` | skykey/skykeymanager.go:500-535 | At every moment that a call of SaveKey really passes through, a crash leaves a file that loads as the old records, or as the old records and all of the new one. |
| `SkykeyCrash.SaveKeyCrash` | skykey/skykeymanager.go:376-535 | The same for every state and crash image, however the encoder cuts the record; and the loaded file is again fit for saving. |
| `SkykeyCrash.SaveSurvives` | skykey/skykeymanager.go:500-535 | The same for the bytes of the file, at every moment. |
| `SkykeyCrash.FillSurvives` | skykey/skykeymanager.go:521-530 | Up to the first sync every crash leaves exactly the old log. |
| `SkykeyCrash.StepDurable` | skykey/skykeymanager.go:322-535 | A save, a deletion, or a crash during a save followed by load: the records change by all or nothing of that one event. |
| `SkykeyCrash.RunDurable` | skykey/skykeymanager.go:322-535 | Over every run of saves, deletions and crashes during saves, no saved key is lost but by its deletion, and none is duplicated or loaded in part. |
| `SkykeyCrash.ManagerIsSound` | skykey/skykeymanager.go:376-434 | The manager between two calls is in a state to which these theorems apply. |
| `SkykeyCrash.DeletionIsBurial` | skykey/skykeymanager.go:322-371 | What DeleteKeyByID does to records and file is exactly the deletion event of these runs. |
| `SkykeyCrash.FillKeeps` | skykey/skykeymanager.go:521-530 | While the record is written in pieces the old log stays intact, and in the end its bytes are in place. |
| `SkykeyCrash.HeaderSurvives` | skykey/skykeymanager.go:482-496 | A crash during the three header writes leaves the old or the new log. |
| `SkykeyCrash.LogIsFile` | skykey/skykeymanager.go:376-434 | The log's notion of a file and the key store's are the same. |
| `CurrencyBytes.MarshalSia` | types/encoding.go:172-198 | The index-and-shift loops over 64-bit words write the length and the minimal big-endian bytes of the value. |
| `CurrencyBytes.MarshalSiaSize` | types/encoding.go:201-223 | The nested zero-trimming loop counts exactly the bytes that MarshalSia writes. |
| `CurrencyBytes.CurrencyRoundTrip` | types/encoding.go:172-232 | Decoding an encoded value, with anything behind it, gives the value and leaves the rest. |
| `CurrencyBytes.CurrencyReencodes` | types/encoding.go:226-232 | The decoder accepts any bytes; what it decodes encodes back to them if and only if they have no leading zero. |
| `CurrencyBytes.DigitsUnique` | types/encoding.go:172-232 | Only one byte string without a leading zero has a given value. |
| `CurrencyBytes.WordByteAt` | types/encoding.go:190-196 | Index i/8 and shift 8(i mod 8) select byte i of the value. |
| `CurrencyBytes.TopByte` | types/encoding.go:181-187 | While everything above is zero, the shifted word is zero exactly when its byte is. |
| `CurrencyBytes.WordBytesValue` | types/encoding.go:172-198 | The words of big.Int hold the value. |
| `Encoding.ListCodec` | types/encoding.go:682-720 | A length-prefixed list is decoded from the front of any stream if its elements are, and its size is the sum of theirs. |
| `Encoding.CurrencyCodec` | types/encoding.go:172-232 | Round trip with any suffix, and size, for currencies. |
| `Encoding.KeyCodec` | types/encoding.go:546-559 | Round trip with any suffix, and size, for public keys. |
| `Encoding.ConditionsCodec` | types/encoding.go:863-896 | Round trip with any suffix, and size, for unlock conditions. |
| `Encoding.InputCodec` | types/encoding.go:448-461 | Round trip with any suffix, and size, for siacoin inputs. |
| `Encoding.OutputCodec` | types/encoding.go:464-477 | Round trip with any suffix, and size, for siacoin outputs. |
| `Encoding.FundInputCodec` | types/encoding.go:495-510 | Round trip with any suffix, and size, for siafund inputs. |
| `Encoding.FundOutputCodec` | types/encoding.go:513-528 | Round trip with any suffix, and size, for siafund outputs. |
| `Encoding.ContractCodec` | types/encoding.go:284-344 | Round trip with any suffix, and size, for file contracts. |
| `Encoding.RevisionCodec` | types/encoding.go:347-410 | Round trip with any suffix, and size, for contract revisions. |
| `Encoding.ProofCodec` | types/encoding.go:646-667 | Round trip with any suffix, and size, for storage proofs. |
| `Encoding.CoveredCodec` | types/encoding.go:77-143 | Round trip with any suffix, and size, for covered fields: the flag and ten lists. |
| `Encoding.SignatureCodec` | types/encoding.go:841-860 | Round trip with any suffix, and size, for transaction signatures. |
| `Encoding.TransactionCodec` | types/encoding.go:670-823 | Round trip with any suffix for every transaction, and MarshalSiaSize counts its bytes. |
| `Encoding.BlockCodec` | types/encoding.go:19-54 | Round trip with any suffix for every block. |
| `Encoding.TransactionPrefixFree` | types/encoding.go:670-823 | No transaction's encoding is a prefix of another's; the encoding is injective. |
| `Encoding.BlockPrefixFree` | types/encoding.go:19-54 | The same for blocks. |
| `Encoding.UnsignedCovers` | types/encoding.go:682-720 | Two transactions have the same signature-free encoding if and only if they differ at most in their signatures. |
| `Encoding.Encoder.WriteList` | types/encoding.go:684-687 | The marshalling loop appends the length and every element in order. |
| `Encoding.Encoder.MarshalUnsigned` | types/encoding.go:682-720 | Appends the nine lists in order. |
| `Encoding.Encoder.MarshalTransaction` | types/encoding.go:670-678 | Appends the transaction's encoding and nothing else. |
| `Encoding.Encoder.MarshalBlock` | types/encoding.go:19-35 | Appends the block's encoding and nothing else. |
| `Encoding.Decoder.ReadList` | types/encoding.go:782-785 | The loop goes on after a failure, yet the decoder with its sticky error accepts exactly what the parser accepts, with the same elements and rest. |
| `Encoding.Decoder.UnmarshalTransaction` | types/encoding.go:780-823 | The ten loops fail exactly when the parser does and otherwise yield its value and rest. |
| `Encoding.Decoder.UnmarshalBlock` | types/encoding.go:38-54 | The same for blocks. |
| `Encoding.Accumulate` | types/encoding.go:725-728 | A size loop adds up the sizes of the elements. |
| `Encoding.TransactionSize` | types/encoding.go:723-777 | MarshalSiaSize is the length of what MarshalSia writes. |
| `Encoding.BlockThroughStream` | types/encoding.go:19-54 | A block written to a stream and read back, with anything behind it, is the same block and leaves what is behind. |
| `WireLayout.KeyLayout` | types/encoding.go:546-551 | The algorithm stands at byte 0, the length of the key at 16 and the key at 24. |
| `WireLayout.ConditionsLayout` | types/encoding.go:863-872 | The timelock at byte 0, the list of keys at 8 and the number of signatures behind it. |
| `WireLayout.InputLayout` | types/encoding.go:448-453 | The parent at byte 0 and the conditions at 32. |
| `WireLayout.OutputLayout` | types/encoding.go:464-469 | The value, its length in front and its most significant byte first and not zero, and behind it the unlock hash. |
| `WireLayout.FundInputLayout` | types/encoding.go:495-501 | The parent at byte 0, the conditions at 32 and behind them the claim hash. |
| `WireLayout.FundOutputLayout` | types/encoding.go:513-519 | The value, the unlock hash and the claim start. |
| `WireLayout.ContractLayout` | types/encoding.go:284-302 | File size at byte 0, Merkle root at 8, window start at 40, window end at 48, payout at 56, and behind it the valid outputs, the missed outputs, the unlock hash and the revision number. |
| `WireLayout.RevisionLayout` | types/encoding.go:347-366 | The parent at byte 0 and the conditions at 32; behind them the revision number, 8 bytes on the file size, 16 on the Merkle root, 48 on window start, 56 on window end, 64 on the valid and then the missed outputs, and the unlock hash. |
| `WireLayout.ProofLayout` | types/encoding.go:646-655 | The parent at byte 0, the segment at 32 and the list of hashes at 96. |
| `WireLayout.CoveredLayout` | types/encoding.go:77-99 | The flag at byte 0, and behind it the ten lists of indices in the order of the fields, every index in its place. |
| `WireLayout.SignatureLayout` | types/encoding.go:841-849 | The parent at byte 0, the key index at 32, the timelock at 40, the covered fields at 48 and behind them the signature with its length. |
| `WireLayout.TransactionLayout` | types/encoding.go:670-720 | The ten lists in the order of the fields, each with its length in front and each element behind all those before it. |
| `WireLayout.BlockLayout` | types/encoding.go:19-35 | The parent at byte 0, the nonce at 32, the timestamp at 40, the payouts at 48 and behind them the transactions. |
| `WireLayout.EightBytes` | types/encoding.go:284-302 | A number of eight bytes is the sum of its bytes times the powers of 256, the first byte counting least. |
| `CanonicalEncoding.TransactionReencodes` | types/encoding.go:670-823 | A transaction decoded from any accepted bytes encodes back to those bytes if and only if every currency in them is without a leading zero byte and every flag byte is 0 or 1. |
| `CanonicalEncoding.BlockReencodes` | types/encoding.go:19-54 | The same for every block. |
| `CanonicalEncoding.CoveredReencodes` | types/encoding.go:77-143 | Decoded covered fields encode back to their bytes if and only if the flag byte is 0 or 1. |
| `CanonicalEncoding.FlagTwo` | types/encoding.go:118-123 | A flag byte of 2 is accepted and not written back. |
| `CanonicalEncoding.LeadingZero` | types/encoding.go:226-232 | Accepted bytes of a currency that are not written back: a zero byte for nothing. |
| `CanonicalEncoding.EncodingIsShortest` | types/encoding.go:670-823 | No accepted bytes of a transaction are shorter than its encoding. |
| `CanonicalEncoding.Compose` | types/encoding.go:670-823 | Parts that are read one behind the other are written back together if and only if each of them is. |
| `CanonicalEncoding.ListFits` | types/encoding.go:682-720 | The same for lists of any length. |
| `CanonicalEncoding.CurrencyFits` | types/encoding.go:226-232 | The exact condition for one currency, with anything behind it. |
| `CanonicalEncoding.ContractFits` | types/encoding.go:284-344 | The exact condition for file contracts. |
| `CanonicalEncoding.RevisionFits` | types/encoding.go:347-410 | The exact condition for contract revisions. |
| `CanonicalEncoding.SignatureFits` | types/encoding.go:841-860 | The exact condition for transaction signatures. |
| `Erasure.Encode` | modules/erasure.go:266-272 | Fails exactly for no data and for pieces that are not whole segments; otherwise gives the pieces of the padded data. |
| `Erasure.EncodeShards` | modules/erasure.go:276-328 | Fails exactly for a wrong number of shards, unequal shards or broken segments; piece i is shard i of every block of 64k bytes. |
| `Erasure.EncodeBlocks` | modules/erasure.go:306-327 | The segment loop appends, block by block, each block's shards to the pieces. |
| `Erasure.PieceSegment` | modules/erasure.go:306-327 | Segment j of piece i is shard i of block j. |
| `Erasure.DataPieces` | modules/erasure.go:276-328 | The first k pieces are the data: segment j of piece i is segment i of block j. |
| `Erasure.ShardIs` | modules/erasure.go:184-212 | The first k shards of a block are its segments, the others the code's parity of them. |
| `Erasure.SegmentRecovers` | modules/erasure.go:394-466 | Recover on the pieces that ExtractSegment gives for index j alone, from any k of them, writes exactly the j-th block, cut to the requested length. |
| `Erasure.SegmentIsSlice` | modules/erasure.go:266-466 | For encoded data that block is the bytes from 64kj to 64k(j+1) of the data padded at its end. |
| `Erasure.SegmentExact` | modules/erasure.go:455-466 | The library's shards of one extracted segment make up exactly that block. |
| `Erasure.SegmentSurvives` | modules/erasure.go:455-466 | A missing piece is missing from every segment and a present one from none. |
| `Erasure.Recover` | modules/erasure.go:394-440 | The segment loop with its shrinking last read is the recursive recovery, with the same failures. |
| `Erasure.RecoverExact` | modules/erasure.go:394-440 | With any k of the n pieces, recovery writes exactly the first n requested bytes of what was encoded. |
| `Erasure.DataComesBack` | modules/erasure.go:266-440 | Encode, lose any n-k pieces, Recover: exactly the first n bytes of the data. |
| `Erasure.BlockEncode` | modules/erasure.go:184-210 | A block of k segments is split without padding. |
| `Erasure.SumKofN` | modules/erasure.go:50-84 | The assumption about the library is met by a code with two data shards and their sum. |
| `JsonPersist.Store.SaveJSON` | persist/json.go:235-348 | Afterwards the new value is loaded, and the save passes through exactly the listed moments. |
| `JsonPersist.SaveSurvives` | persist/json.go:235-348 | At every moment of a save, whatever a crash leaves of the two files, the value before or the value being saved is loaded. |
| `JsonPersist.GuardExact` | persist/json.go:288-300 | Opening the temp file for writing is safe if and only if the primary file verifies. |
| `JsonPersist.CrashLeaves` | persist/json.go:235-330 | A file that is opened or written may be left by a crash as it was or as it is, until it is synced. |
| `JsonPersist.StepDurable` | persist/json.go:184-348 | One save, or a crash at any of its moments, ends in the old or the new value. |
| `JsonPersist.RunDurable` | persist/json.go:184-348 | Over every run of saves and crashes, the value of the last completed save or of a later interrupted one is loaded. |
| `JsonPersist.OneWhole` | persist/json.go:287-348 | Once a value can be loaded, one of the two files holds a complete value at every moment of every later save. |
| `ThreadGroup.ExactlyOnce` | sync/threadgroup.go:74-158 | In every run no function given to OnStop or AfterStop runs twice, and once Stop has completed every one that its call has listed or run has run exactly once. |
| `ThreadGroup.ReverseOrder` | sync/threadgroup.go:125-158 | Stop runs what was listed with OnStop and then what was listed with AfterStop, each the last listed first. |
| `ThreadGroup.WaitGroupCounts` | sync/threadgroup.go:54-105 | In every state of every run the wait group is the number of successful Adds that no Done of any thread has answered. |
| `ThreadGroup.AfterStopWhenDone` | sync/threadgroup.go:145-157 | While Stop runs the AfterStop functions every successful Add has had its Done, whichever thread called it. |
| `ThreadGroup.NoAddAfterCancel` | sync/threadgroup.go:54-63 | After the cancel no Add succeeds and the wait group never grows again. |
| `ThreadGroup.StepKeepsInv` | sync/threadgroup.go:54-158 | Every step keeps both mutexes with the threads that hold them, the lists sealed once Stop has been through mu, the order of Stop's runs, the wait group equal to the open Adds, and every function in exactly one place. |
| `ThreadGroup.RunKeepsInv` | sync/threadgroup.go:54-158 | So does every run of any number of threads. |
| `ThreadGroup.StepPlaces` | sync/threadgroup.go:74-158 | No step makes a function appear, vanish or double. |
| `ThreadGroup.OtherKept` | sync/threadgroup.go:54-158 | No step breaks what another thread relies on. |
| `ThreadGroupCalls.FateAt` | sync/threadgroup.go:74-101 | A function goes to the list of the call it was given to and to no other, or was given too late and has been run at once, in every later state of every run. |
| `ThreadGroupCalls.OnStopRuns` | sync/threadgroup.go:92-158 | A function given to OnStop is never among the AfterStop functions; once its call is over it is listed or has been run, and when Stop waits for the threads it has run it if it was listed. |
| `ThreadGroupCalls.AfterStopRuns` | sync/threadgroup.go:65-158 | A function given to AfterStop is never among the OnStop functions; Stop runs it only when every Add has had its Done, and has run it when it is finished. |
| `ThreadGroupCalls.CallDoes` | sync/threadgroup.go:54-158 | When Add, Flush or Stop returns, it has counted, has found nobody running, or has stopped the group and run everything listed, or else the group was stopped while it ran. |
| `ThreadGroupCalls.StepFrame` | sync/threadgroup.go:54-158 | Only Add and Done change the wait group, only Stop stops, only OnStop and AfterStop list, and only they and Stop run functions. |
| `ThreadGroupCalls.WaitsIff` | sync/threadgroup.go:54-158 | A step waits if and only if it takes a mutex that somebody has, or waits for threads that are not done. |
| `ThreadGroupCalls.GetsCloser` | sync/threadgroup.go:54-158 | Every step brings a call closer to its end. |
| `Limiter.CurrentIsOutstanding` | sync/limiter.go:35-84 | In every run, whatever is released, current is what was granted minus what was released, and is negative only after a panic. |
| `Limiter.PanicsIff` | sync/limiter.go:75-84 | A Release panics if and only if more is released than was granted. |
| `Limiter.NoLostWakeup` | sync/limiter.go:35-93 | In every state of every run, a requester that sleeps unsignalled really has to wait or a thread that changed limit, current or cancelled has yet to signal, if and only if no panicking Release has taken a wakeup that no later step made up for; without a panic always. |
| `Limiter.LostNext` | sync/limiter.go:35-93 | Exactly when a step loses a wakeup: a Release of more than current that takes away a sleeper's reason to wait while no signal is pending; and exactly when a later step makes up for it. |
| `Limiter.LostIff` | sync/limiter.go:35-93 | A wakeup is lost in a state if and only if some earlier step lost it and no step since made up for it, and only after a panic. |
| `Limiter.PanicLosesWakeup` | sync/limiter.go:75-84 | A run in which an excessive Release panics without a signal and leaves asleep a requester that need not wait. |
| `Limiter.GrantFits` | sync/limiter.go:57-69 | A grant leaves current within the limit or equal to that one request, and is never made to a cancelled request. |
| `Limiter.SignalWakes` | sync/limiter.go:83-92 | The next signal of any thread wakes that requester. |
| `Limiter.StepKeepsInv` | sync/limiter.go:35-93 | Every step keeps the two locks, the list of sleepers and the balance consistent, with at most the holder of the request lock asleep. |
| `Limiter.RunKeepsInv` | sync/limiter.go:35-93 | So does every run of any number of threads. |
| `LimiterCalls.CallDoes` | sync/limiter.go:35-93 | A Request that returns has taken exactly its units, or gave up or was cancelled; a Release, SetLimit or cancellation that returns has made exactly its change and has signalled after it. |
| `LimiterCalls.StepFrame` | sync/limiter.go:35-93 | Only a served, uncancelled request takes units, and exactly its own; only Release gives units back, only SetLimit sets the limit, only a cancellation cancels. |
| `LimiterCalls.WaitsIff` | sync/limiter.go:35-93 | A thread waits if and only if somebody has the lock it wants, or it sleeps and has not been woken, or it has panicked. |
| `LimiterCalls.WaitsWhen` | sync/limiter.go:57-62 | A request goes to sleep if and only if its units do not fit next to those that are out, some are out, and it is not cancelled. |
| `LimiterCalls.GetsCloser` | sync/limiter.go:35-93 | Every step but going to sleep brings a call closer to its end. |
| `HostPrograms.ProgramBuilder.AddAppendInstruction` | modules/mdmprogrambuilder.go:46-66 | Adds the instruction exactly when the data is one sector; program, data, costs and read-only flag stay those of what was added. |
| `HostPrograms.ProgramBuilder.AddDropSectorsInstruction` | modules/mdmprogrambuilder.go:69-85 | The same, for DropSectors. |
| `HostPrograms.ProgramBuilder.AddHasSectorInstruction` | modules/mdmprogrambuilder.go:88-103 | The same, for HasSector. |
| `HostPrograms.ProgramBuilder.AddReadOffsetInstruction` | modules/mdmprogrambuilder.go:106-123 | The same, for ReadOffset. |
| `HostPrograms.ProgramBuilder.AddReadSectorInstruction` | modules/mdmprogrambuilder.go:126-145 | The same, for ReadSector. |
| `HostPrograms.ProgramBuilder.AddRevisionInstruction` | modules/mdmprogrambuilder.go:148-161 | The same, for Revision. |
| `HostPrograms.ProgramBuilder.AddSwapSectorInstruction` | modules/mdmprogrambuilder.go:164-182 | The same, for SwapSector. |
| `HostPrograms.ProgramBuilder.AddUpdateRegistryInstruction` | modules/mdmprogrambuilder.go:185-216 | The same, for UpdateRegistry. |
| `HostPrograms.ProgramBuilder.AddReadRegistryInstruction` | modules/mdmprogrambuilder.go:283-307 | The same, for ReadRegistry, with the refund. |
| `HostPrograms.ProgramBuilder.AddInstruction` | modules/mdmprogrambuilder.go:332-342 | Collateral, memory, memory cost, cost and storage of one instruction are added, with memory and time as unsigned 64-bit integers. |
| `HostPrograms.ProgramBuilder.Cost` | modules/mdmprogrambuilder.go:311-323 | With this cost and collateral put up, the host runs the built program to its end, whatever registry entries are missing, and charges, to the last unit, this cost and storage less the refunds for missing entries; when none is missing it runs it only then. An empty program is refused. |
| `HostPrograms.ReadOnly` | modules/mdm.go:480-501 | True exactly when no instruction writes to the contract. |
| `HostPrograms.DecodesBack` | modules/host/mdm/program.go:88-111 | Where the operands of an instruction stand in the data, the host decodes the built instruction to exactly those operands and flags. |
| `HostPrograms.DecodesUpdateRegistry` | modules/host/mdm/instructionupdateregistry.go:29-61 | The same for the seven offsets and lengths of UpdateRegistry. |
| `HostPrograms.DecodesReadSector` | modules/host/mdm/instructionreadsector.go:25-52 | The same for ReadSector, whose arguments are in reverse order. |
| `HostPrograms.OperandsStay` | modules/mdmprogrambuilder.go:46-307 | However many instructions follow, an instruction's offset still addresses its own operands. |
| `HostPrograms.ProgramDecodes` | modules/mdmprogrambuilder.go:46-307 | The host decodes every instruction of every built program to what was asked for. |
| `HostPrograms.ProgramFormat` | modules/mdmprogrambuilder.go:46-457 | Every argument of every instruction is the documented number at its byte, and every operand stands where the argument says. |
| `HostPrograms.DecodeIff` | modules/host/mdm/program.go:88-111 | Whatever a renter sends, the host makes an operation of an instruction if and only if its arguments have the length of its kind and lead to the operands of that operation in the data. |
| `HostPrograms.WriteRounds` | modules/mdm.go:314-322 | Writing is charged by the least number of whole blocks of 4096 bytes. |
| `HostPrograms.Prices` | modules/mdm.go:230-323 | Cost, storage, collateral, memory and time of each of the nine instructions, in numbers and entries of the price table. |
| `HostPrograms.MemoryAndCollateral` | modules/mdm.go:361-435 | A program holds one MiB and every appended sector, modulo 2^64, and its collateral is that of those sectors. |
| `HostPrograms.CostGrows` | modules/mdmprogrambuilder.go:332-342 | Each instruction adds its price, and all memory held so far for its time. |
| `HostPrograms.FullIs` | modules/mdmprogrambuilder.go:311-323 | The full cost in numbers: the data for one unit of time and one more an instruction, the instructions, and the commit exactly when an instruction changes the contract. |
| `HostPrograms.RefundsAre` | modules/host/mdm/instructionreadregistry.go:50-80 | Ten years of storing 256 bytes are refunded for every entry that is read and missing, and nothing else. |
| `HostPrograms.HostSpends` | modules/host/mdm/program.go:222-288 | The host, pricing each instruction by the operands it finds in the data, gets past the n-th instruction if and only if the funds cover every charge on the way, and has then charged exactly what the builder counted less the refunds. |
| `HostPrograms.BillIs` | modules/host/mdm/program.go:115-310 | The same for a whole program with its initial and commit costs. |
| `HostPrograms.RefundsCovered` | modules/host/mdm/program.go:214-218 | What is refunded is never more than the storage charged, and that never more than the cost, so no subtraction is cut off at zero. |
| `HostPrograms.AllAfforded` | modules/host/mdm/program.go:182-203 | The full cost covers every charge on the way, whatever is refunded; without refunds nothing less does. |
| `Revisions.PaymentRevision` | types/filecontracts.go:131-161 | The error in each case, or a revision in new memory in which the amount has moved from renter to host and from renter to void. |
| `Revisions.EAFundRevision` | types/filecontracts.go:172-198 | The same, with the missed amount moved to the host. |
| `Revisions.ExecuteProgramRevision` | types/filecontracts.go:206-241 | The same, with the transfer moved from the host's missed output to the void under a higher number. |
| `Revisions.MovePayout` | types/filecontracts.go:348-374 | One output loses what another gains, and no other changes. |
| `Revisions.TotalPayout` | types/filecontracts.go:434-442 | The loops add up all valid and all missed outputs. |
| `Revisions.MovedKeepsTotal` | types/filecontracts.go:131-241 | Moving an amount between outputs keeps the sum of any number of outputs. |
| `Revisions.StepKeeps` | types/filecontracts.go:131-241 | A successful step without number overflow keeps both sums and all owners, raises the number, lowers the renter's valid and missed payouts equally, and never lowers the host's valid or the void payout. |
| `Revisions.StepExact` | types/filecontracts.go:131-241 | When each step succeeds, with which error it fails, and what it changes: a payment goes from renter to host, or to the void if the proof is missed; a funding to the host in both cases; an execution moves only the host's missed payout and sets root, size and number; nothing else changes. |
| `Revisions.NumberGrowsIff` | types/filecontracts.go:158-196 | Both increments: the number grows if and only if it was not the largest 64-bit one. |
| `Revisions.ReviseAll` | types/filecontracts.go:131-241 | Over every run of steps, every earlier revision still says what it said when it was made, every successful step raised the number, and the last revision keeps all of this against the first. |
| `NumSiacoins.CalculateNumSiacoins` | types/block.go:82-99 | The genesis amount plus every coinbase up to the height plus every Foundation payout due by then, if and only if the number of blocks does not wrap around: at every 64-bit height for all constants but those whose coinbase falls for 2^64 - 1 blocks, and for those at every height but the last. |
| `NumSiacoins.CalculateCoinbase` | types/block.go:72-78 | With its wrapping subtraction it is max(initial - height, minimum) coins at every height. |
| `NumSiacoins.RampSum` | types/block.go:84-88 | While the coinbase falls, its sum is the triangle formula. |
| `NumSiacoins.RampClosed` | types/block.go:86-91 | The average that the code takes is halved exactly. |
| `NumSiacoins.FlatClosed` | types/block.go:90-92 | Past the deflation boundary the sum grows by the minimum every block. |
| `NumSiacoins.PayoutSum` | modules/consensus/maintenance.go:23-47 | The payouts block by block add up to the initial one and one for every full period since the hardfork. |
| `NumSiacoins.Standard` | types/constants.go:365-371 | The constants of the Standard build meet what the theorem assumes of a build. |
| `NumSiacoins.StandardValues` | types/constants.go:365-371 | Coinbases and Foundation payouts of the Standard build at every height, in numbers. |

## Left out

- Runs of the try-lock with more than 2^20 operations active at once, which its documentation excludes, but for mutual exclusion.
- The v1.4.4 record format of skykeys, and subkeys, ciphers and URLs of skykeys.
- Skykey files longer than 2^64 - 1024 bytes, and failing file operations.
- Crashes while a key is deleted: a tombstone is several writes in place and is not atomic.
- Crashes while an append-only file is created: they can leave a file too short for its header, which load then refuses.
- CrashDisk.Disk.WriteAt: an error or a short write is not modelled, only crashes.
- SkykeyStore.SkykeyManager.Load: takes the two known version strings literally and reads only records of the current format.
- The allocation limits of the decoders, and the errors of the writer a value is encoded to.
- Elements of marshalled lists are encoded by functions; the loops over lists, the streams and the currency loops are methods.
- JSON, hex and string forms of the consensus types, and skylinks as base64 or base32 text.
- RSSubCode.Reconstruct, which depends on how the library reuses slices, and the update of pieces in place: pieces are values.
- The pass-through coder, coder identifiers and constructors.
- The table of files in use by SaveJSON and LoadJSON, the temp suffix check, header and version mismatches, and text below the checksum.
- Functions given to OnStop and AfterStop run in one step and do not call the group themselves; StopChan and StopCtx.
- Fairness: that a requester which is woken and may go on does go on, and the timing of the locks.
- Programs for hosts of version 1.5.4 and older, bandwidth, what instructions do to a contract, and programs that an error in an instruction stops.
- Data that has not arrived when the host decodes an instruction: the model decodes once all of it is there.
- Revisions with fewer than two valid or missed outputs, on which the code panics, and fields of a revision that the modelled functions never touch.
- The genesis outputs themselves: their sum is a parameter.
- Tax, file contract formation, miner fees, siafunds, transaction validity and everything else of the consensus rules.
- Host, renter, gateway, wallet and API plumbing.
