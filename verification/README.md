# Verification of the stnet core

This project models the parts of the repository that carry its data and proves what they promise:

* **The key/value arena** (`stkvbuffer`): a flat byte array cut into linked chunks, a sorted free list, a recency
  index, in-place updates, eviction, and reloading from the bytes alone. The buffer is a class over
  `array<byte>`; every call is proved to do exactly what an abstract LRU buffer does (`KvSpec`), and the abstract
  buffer is proved to be a plain map from which only the least recently used keys are missing (`KvRun`).
* **The Spb codec** (`stnet/spb.go`): varints, tagged fields, and recursive vectors, maps and structs. What
  decoding makes of an encoded value is stated for every pair of schemas; round trip and compatibility between
  schemas follow.
* **Message transport**: reassembly of frames from a byte stream, the table of pending RPC requests under all
  interleavings, and dispatch onto worker queues.
* **Smaller cores**: the longest-prefix HTTP mux, weighted choice of backends, and the INI printer and parser.

## How the modules fit together

| modules | what they hold |
|---|---|
| `Bytes` | bytes, little-endian words, splices |
| `KvArena`, `KvNode`, `KvWrite` | the image as chunks, the readers of a node, the two writers of a node |
| `KvLru`, `KvSpec` | the recency index; the abstract buffer |
| `KvState`, `KvSnap`, `KvUpdate` | the invariant between image, free list and index, and its steps as functions on snapshots |
| `KvBuffer` | the buffer object: `Set`, `Get`, `Del` |
| `KvReload`, `KvOpen`, `KvStart` | links followed backwards, loading an index, `NewKVBuffer` |
| `KvTheorems`, `KvRun`, `KvLife`, `KvAge`, `KvStat` | eviction and conservation, runs, runs and restarts of real buffers, who is dropped first after a restart, accounting |
| `KvMarks`, `KvCount` | which chains a run has torn, told from the abstract run; what their ends say of a reload |
| `KvStale`, `KvTwins`, `KvTornRun` | what an update that leaves a stale link does to the next reload; two readings of one image, and a run that leads there |
| `SpbWire`, `SpbValue`, `SpbCodec`, `SpbSkip`, `SpbCoerce`, `SpbTheorems`, `SpbTags`, `SpbCut`, `Spb` | wire level, schemas and values, decoder, skipping, decoding into any schema, round trip and compatibility, declared tags and the bytes, messages that are cut off, the codec object |
| `Framing`, `Session`, `Rpc`, `RpcAnswers`, `RpcTimeouts`, `Dispatch` | frames, the receiving side of a session, pending requests, which answer a response gives, who hears of a timeout, worker queues |
| `Mux`, `Weights`, `IniText`, `Ini`, `IniRun`, `IniRead` | mux, weighted choice, configuration files, what a run of changes leaves in one, what the reader makes of each line |

`hide` statements in proofs only take definitions away from the verifier; they keep the proofs small.

## Where the code does not do what one would expect

* A key that fills its last chunk, stored with an empty value, cannot be read back: the position of its value lies
  one chunk behind its chain (`stkvbuffer/kvbuffer.go:46-68`). `KvSpec.Get` has this as an explicit outcome;
  `KvStale.ExactFitCannotBeRead` does it in any fresh array, for every such key. With a callback an eviction that meets
  such an entry faults: `KvTheorems.EvictCrashIff` and `KvTheorems.SetAlwaysStores` say exactly when.
* An update that makes the value of such a key empty, or no longer empty, leaves the link in front of the value as it
  was (`stkvbuffer/kvbuffer.go:291-297`). `KvBuffer.KVBuffer.Set` says entry by entry what becomes of the chains: a key
  that follows its links is torn if and only if the update is of this kind; a chain torn by growing is mended by an empty
  value and by nothing else; one torn by shrinking stays torn under an empty value. `KvStale.SetAndRestart` proves that,
  as long as image and index agreed before, the key is found again by the next start if and only if the update is not of
  this kind; `KvStale.ExactFitGoesStale` does one in any fresh array. If the chain has grown, the next start refuses the
  whole image, or faults (`KvStale.GrownStops` says when). If it has shrunk, the next start gives the map without the key,
  and the chunks of the torn entry are lost (`KvStale.RestartAny`). Deleting or evicting the torn key mends the image
  (`KvStale.DelAndRestart`, `KvLife.PlayAndRestart`). Over any run, as long as the torn keys have only shrunk and are still
  empty, a restart finds all keys if and only if there is no such key (`KvCount.PlayAndReopen`).
* With eviction, an insert into a buffer that has lost chunks in this way may never return: `removeOldest` does nothing
  on an empty index (`stkvbuffer/kvbuffer.go:308-313`, `stkvbuffer/lru.go:162-167`). `KvStale.EvictUntil` proves that the
  loop ends if and only if free chunks and those of the entries suffice or the callback faults before,
  `KvStale.RestartAndInsert` what that means after such a restart. With 1024 bytes and chunks of 32, a 20-byte key
  that is set to one byte and then to none costs one of 31 chunks; after a restart a pair that needs all 31 hangs.
* After further stores a torn image may still read as the right map: `KvTornRun.TornAndRight` plays four stores in any
  fresh array that leave the image torn, and a restart over it gives the map that was stored. `KvTwins.TornWithTwin` shows
  why: two buffers stand on the same bytes, one of which follows the links.
* `Stat` takes the number of chunks for the size of a chunk (`stkvbuffer/kvbuffer.go:420`): `KvStat.Stat` proves that
  `FreeDataSize` is right if and only if no chunk is free or the two numbers happen to be equal.
* Without eviction, an update that does not fit keeps the chunks it had already taken from the free list
  (`stkvbuffer/kvbuffer.go:264-277`). `KvTheorems.LeakIff` says from the state before the call when this happens and how
  many chunks are lost; every reload finds them again (`KvStart.Reload`, `KvLife.PlayAndRestart`), and
  `KvStat.FailedUpdateLeaks` is a concrete case.
* An array without room for one whole chunk gets no index: `NewLRU(0)` is an error that `newLRU` drops
  (`stkvbuffer/kvbuffer.go:228-229`), so the caller is handed a buffer on which `Get` and `Del` fault and `Set` refuses
  everything. This is the outcome `Unindexed` of `KvStart.Open`: for a fresh array, or one whose stored size is its
  length, exactly when `len(data) < 16 + chunkSize`. A stored size without a whole chunk in a longer array faults when
  the missing index is resized (`stkvbuffer/kvbuffer.go:172-194`), after every chunk has been marked free: the outcome
  `Faulted`. Opening the array once more then gives an empty buffer (`KvStart.OpenAgain`).
* A restart forgets the order of use: entries are indexed in the order of the chunks in which their chains end
  (`stkvbuffer/kvbuffer.go:151-169`), so the first `Set` that evicts drops the entry whose chain ends first in the array,
  however recently it was used (`KvAge.RestartAndSet`, and `KvAge.DropsByEnd` for any later point).
* The smallest number of a signed width, an `int8` of -128 say, read into a wider signed target arrives as +128: the
  writer negates it at its own width, where it is its own negation (`stnet/spb.go:170-200`, `stnet/spb.go:523-537`).
  `SpbTags.ScalarRead` proves that this is the only number that fits the target and does not arrive as it is.
* Errors while skipping are ignored (`stnet/spb.go:388-455`), so a reader that lacks a field of a slice, map or struct can
  take a message that is cut off inside it for a whole one: `SpbCut.CutUnnoticed` has the bytes. A reader that skips
  nothing of the kind notices every cut (`SpbCut.CutNoticed`).
* The RPC sender takes frames up to 16 MiB, the receiver refuses them from 2 MiB on and then drops everything it has
  buffered (`stnet/rpc.go:326-328`, `stnet/rpc.go:437-439`): `Framing.ReceivedIff`.
* The expiry loop runs exceptions of synchronous calls only (`stnet/rpc.go:186`): in every continuation the timeout of
  an expired call is owed or run if and only if the call is synchronous and has an exception
  (`RpcTimeouts.ExpiryHeardIff`), and an asynchronous call that is no longer pending never hears of itself again
  (`RpcTimeouts.Forgotten`). A synchronous call hears its exception twice if and only if the loop expired it and its
  own timer ran as well (`RpcTimeouts.TwiceIff`); `RpcTimeouts.SyncTimeoutTwice` is such a run.
* Data of one session are handled in order under every schedule if and only if their hashes name one queue
  (`Dispatch.InOrderIff`), and before its close if and only if they name the queue of the service's own thread
  (`Dispatch.BeforeCloseIff`); `HashProcessor` may return hashes that do not.
* `DelSection` leaves the name of the section in the list of names, so a section that is deleted and set again is printed
  twice (`stconfig/ini.go:116-118`); reading it back still gives the same values, which `Ini.RoundTrip` covers, but its keys
  stand in the list of keys twice: `IniRun.OrderKept`.
* A value in quotes is read without them, and a value that begins or ends in a quote or in space does not survive saving
  and loading: `IniText.QuotesGo`, `IniText.ValueKeptIff`.

## Model

| member | source | states |
|---|---|---|
| `Bytes.U32OfLe32` | stkvbuffer/util.go:8-20 | a 32-bit word written to the array reads back |
| `KvArena.BlocksSplice` | stkvbuffer/kvbuffer.go:12-16 | a write into the flat array inside one chunk is that write into the chunk and changes no other chunk |
| `KvArena.BlocksPrefix` | stkvbuffer/kvbuffer.go:129-147 | the chunks of a longer array with the same front are the same chunks |
| `KvNode.GetKey` | stkvbuffer/kvbuffer.go:24-44 | reads exactly the key bytes of the chain's payload, and faults exactly when the key does not fit the chain |
| `KvNode.GetValPos` | stkvbuffer/kvbuffer.go:46-60 | chunk number and offset are the quotient and remainder of the position behind the key, for every key and chunk size |
| `KvNode.GetVal` | stkvbuffer/kvbuffer.go:62-83 | reads exactly the value bytes of the payload; faults exactly when they do not fit or start behind the last chunk |
| `KvWrite.WriteNode` | stkvbuffer/kvbuffer.go:325-362 | a fresh write leaves sizes, key and value as one byte string over the chain, every link right, and all other chunks alone |
| `KvWrite.WriteVal` | stkvbuffer/kvbuffer.go:287-305 | the in-place update leaves the same byte string a fresh write would, links from the value's first chunk on, and touches nothing else |
| `KvUpdate.UpdatedHolds` | stkvbuffer/kvbuffer.go:278-305 | after growing, shrinking or neither, the chain holds sizes, key and new value and no link word is 0 |
| `KvUpdate.TidyAfter` | stkvbuffer/kvbuffer.go:287-305 | an update leaves every link of the chain right, except perhaps the one at the end of the key |
| `KvUpdate.HealthGoes` | stkvbuffer/kvbuffer.go:287-305 | what an update does to a chain that follows its links, has been torn by growing, or is torn in another way |
| `KvUpdate.StaleLink` | stkvbuffer/kvbuffer.go:291-297 | after an update the chain follows its own links if and only if the value's first chunk exists both before and after, or neither |
| `KvLru.Lru.Get` | stkvbuffer/lru.go:73-82 | a hit returns the entry and moves it to the front, a miss changes nothing |
| `KvLru.Lru.Add` | stkvbuffer/lru.go:51-70 | replaces or adds in front; the oldest entry leaves only when a new one exceeds the size |
| `KvLru.Lru.Remove` | stkvbuffer/lru.go:103-109 | removes the entry from list and map together |
| `KvLru.Lru.RemoveOldest` | stkvbuffer/lru.go:162-168 | removes the last entry of the list |
| `KvLru.Lru.RemoveElement` | stkvbuffer/lru.go:170-178 | list and map stay in step |
| `KvLru.Lru.Resize` | stkvbuffer/lru.go:149-159 | keeps the newest entries up to the new size and hands back the others, oldest first |
| `KvLru.Lru.Keys` | stkvbuffer/lru.go:133-141 | the keys from oldest to newest |
| `KvSpec.ChunksForIsQuotient` | stkvbuffer/kvbuffer.go:254-257 | division with a remainder gives the least number of chunks, and a remainder of 0 means whole chunks |
| `KvSpec.CountChunks` | stkvbuffer/kvbuffer.go:254-257 | the count is exactly enough: one chunk less does not hold the bytes |
| `KvSpec.StaleIff` | stkvbuffer/kvbuffer.go:291-297 | a stale update is recognised by the chunk counts before and after |
| `KvState.StoredStep` | stkvbuffer/kvbuffer.go:315-363 | indexing a written node keeps the invariant between image, free list and index |
| `KvState.FreeStep` | stkvbuffer/kvbuffer.go:382-394 | giving a chunk back keeps the invariant and leaves every entry as it reads |
| `KvBuffer.FileChunk` | stkvbuffer/kvbuffer.go:385-393 | the chunk goes in front of the first larger index of the sorted list |
| `KvBuffer.KVBuffer.DelChunk` | stkvbuffer/kvbuffer.go:382-394 | link word 0, index into the sorted free list, invariant kept |
| `KvBuffer.KVBuffer.DelNode` | stkvbuffer/kvbuffer.go:376-380 | all chunks of the node become free, every entry reads as before |
| `KvBuffer.KVBuffer.OnEvict` | stkvbuffer/kvbuffer.go:229-236 | the callback is told key and value as last set, then the chunks are freed; it faults exactly in the exact-fit corner |
| `KvBuffer.KVBuffer.EvictOldest` | stkvbuffer/lru.go:162-168 | the oldest entry leaves index and image; chunks in the hands of the running operation are untouched |
| `KvBuffer.KVBuffer.MakeRoom` | stkvbuffer/kvbuffer.go:308-313 | the eviction loop of an insert ends, with enough free chunks, after the abstract eviction |
| `KvBuffer.KVBuffer.Grow` | stkvbuffer/kvbuffer.go:264-277 | the growing loop ends, never evicts the key itself, and has the chain grown by free chunks |
| `KvBuffer.KVBuffer.Shrink` | stkvbuffer/kvbuffer.go:278-282 | the chain is cut at its end and the chunks become free |
| `KvBuffer.KVBuffer.Set` | stkvbuffer/kvbuffer.go:249-366 | reply, calls of the callback and new contents are exactly those of the abstract buffer; every surviving other entry keeps its chunks and link words; the chain of the key is torn by a stale update, mended or left torn as `Goes` says; and without eviction the chunks taken and given back are named |
| `KvBuffer.KVBuffer.Get` | stkvbuffer/kvbuffer.go:239-247 | returns exactly the bytes last stored, makes the entry the newest, and leaves exactly the same keys torn |
| `KvBuffer.KVBuffer.Del` | stkvbuffer/kvbuffer.go:368-370 | removes the entry, tells the callback, frees the chunks; exactly the other torn keys stay torn |
| `KvReload.StepBack` | stkvbuffer/kvbuffer.go:154-162 | whatever the link words are, a step back never meets the chain again |
| `KvReload.ChainsApart` | stkvbuffer/kvbuffer.go:151-170 | whatever the link words are, chains from different ends share no chunk |
| `KvReload.ChainIsEntry` | stkvbuffer/kvbuffer.go:151-162 | in an agreeing image the chain found from an end is the chain of the entry that ends there |
| `KvReload.Rebuilt` | stkvbuffer/kvbuffer.go:115-170 | the rebuilt index has the same map, and its free list accounts for every chunk |
| `KvReload.OneOwner` | stkvbuffer/kvbuffer.go:259-394 | a chunk belongs to at most one entry |
| `KvReload.SameFree` | stkvbuffer/kvbuffer.go:139-140 | when no chunk has leaked, the chunks whose link word is 0 are exactly the free list, in its order |
| `KvReload.Extended` | stkvbuffer/kvbuffer.go:172-194 | over a longer array the entries read the same and exactly the new chunks are added as free |
| `KvOpen.Scan` | stkvbuffer/kvbuffer.go:125-148 | files every whole chunk by its link word: free, end, or under the chunk it links to |
| `KvOpen.WalkBack` | stkvbuffer/kvbuffer.go:152-162 | ends on any link words, visits no chunk twice, and nothing else links to its first chunk |
| `KvOpen.UntangledApart` | stkvbuffer/kvbuffer.go:151-170 | over any image, different loaded entries share no chunk |
| `KvOpen.LoadNodes` | stkvbuffer/kvbuffer.go:151-170 | over any image the loaded chains are disjoint and the entries stand in strictly descending order of the last chunk of their chains; over an image that tells entries exactly these are loaded; else it stops at the first end that cannot be loaded |
| `KvOpen.ZeroChunks` | stkvbuffer/kvbuffer.go:175-191 | marks exactly the chunks behind the given one as free |
| `KvStart.HeaderParts` | stkvbuffer/kvbuffer.go:199-206 | magic number, chunk size and image size read back from the header |
| `KvStart.Format` | stkvbuffer/kvbuffer.go:196-222 | a fresh array becomes an empty buffer with every whole chunk free; without a whole chunk, and only then, a buffer without an index |
| `KvStart.Reload` | stkvbuffer/kvbuffer.go:115-194 | reloading an image that tells the entries of a buffer gives the same map, newest first by the last chunk of the chain, the scanned free chunks and the new ones, and accounts for every chunk; other images are loaded as their bytes say, or stop at a named end; without a whole chunk in the image it gives no index, or faults if the array is longer |
| `KvStart.Open` | stkvbuffer/kvbuffer.go:100-226 | the refused arrays, chunk sizes and sizes, the two outcomes without a whole chunk, and the results of formatting and of reloading, with the order of age |
| `KvStart.OpenAgain` | stkvbuffer/kvbuffer.go:172-194 | after a fault over an image without a whole chunk the second open finds an empty buffer with every chunk free, or no whole chunk again |
| `KvStart.RestoredAccount` | stkvbuffer/kvbuffer.go:139-194 | after a reload in either mode every chunk is free, paid for by an entry or was lost before |
| `KvStart.AtRest` | stkvbuffer/kvbuffer.go:249-370 | a buffer whose image and index agree leaves an image that can be reloaded |
| `KvTheorems.EvictShape` | stkvbuffer/lru.go:162-168 | eviction keeps a prefix and drops the rest oldest first, up to an entry whose value cannot be read |
| `KvTheorems.EvictConserves` | stkvbuffer/kvbuffer.go:264-277 | chunks only change hands: free chunks and those of the entries stay the same in number |
| `KvTheorems.EvictMinimal` | stkvbuffer/kvbuffer.go:308-313 | before the last entry went, too little was free |
| `KvTheorems.EvictCrashIff` | stkvbuffer/kvbuffer.go:228-237 | an eviction faults if and only if there is a callback and, going from the oldest entry on, it meets one whose value cannot be read while too little is free |
| `KvTheorems.SetOk` | stkvbuffer/kvbuffer.go:249-366 | every outcome of Set but a fault keeps the chunk account |
| `KvTheorems.SetAlwaysStores` | stkvbuffer/kvbuffer.go:249-277 | with eviction: too long exactly beyond the arena, a fault exactly when the callback meets an entry it cannot be told before enough is free, else stored |
| `KvTheorems.LeakIff` | stkvbuffer/kvbuffer.go:264-277 | without eviction, exactly the free chunks are lost by an update of a present key that fits the arena and finds too few of them, and none otherwise |
| `KvRun.StoredMap` | stkvbuffer/kvbuffer.go:249-366 | a successful Set gives the old map without the dropped keys, and the new pair |
| `KvRun.StepMap` | stkvbuffer/kvbuffer.go:239-370 | every operation that does not fault is a step of a plain map, and its answer is the map's |
| `KvRun.RunRefinesMap` | stkvbuffer/kvbuffer.go:228-370 | any run is a run of a plain map: reads give the bytes last stored, drops are told with the bytes last stored, and the chunk account holds |
| `KvRun.RunOrder` | stkvbuffer/lru.go:51-82 | after any run on any buffer the entries stand in the order of their last use; those the run has not used stand behind, in the order in which they stood before |
| `KvRun.DropsLeastRecent` | stkvbuffer/kvbuffer.go:264-313 | after any run on any buffer, whatever a Set drops was used longer ago than everything it keeps, or neither was used and it was the older one before the run |
| `KvLife.Play` | stkvbuffer/kvbuffer.go:228-370 | any run of calls on the real buffer gives the answers, callbacks and contents of the abstract run; its torn chains are those the marks of that run tell |
| `KvMarks.SetMarked` | stkvbuffer/kvbuffer.go:249-366 | the marks of the abstract buffer stay true of the real chains through a store |
| `KvMarks.MarkedNone` | stkvbuffer/kvbuffer.go:291-297 | there is no mark if and only if image and index agree |
| `KvMarks.NoMarks` | stkvbuffer/kvbuffer.go:291-297 | a run without stale updates leaves no mark |
| `KvLife.Restart` | stkvbuffer/kvbuffer.go:110-194 | starting again over the bytes of a buffer, with more room or without, gives the same map and free chunks, with the entries newest first by the last chunk of their chains |
| `KvLife.PlayAndRestart` | stkvbuffer/kvbuffer.go:110-370 | a run that leaves no mark, because there was no stale update or every stale key has since been mended, deleted or evicted, and then a restart, each with or without eviction: the map of the run, every chunk accounted for, and with eviction the free chunks of the run and the new ones |
| `KvStat.Account` | stkvbuffer/kvbuffer.go:259-394 | in every state free chunks, chunks in hand and entries fit the arena, with eviction they fill it |
| `KvStat.AbstractOk` | stkvbuffer/kvbuffer.go:88-97 | every valid buffer satisfies the abstract invariant, so the theorems about runs apply to it |
| `KvStat.WasteBounds` | stkvbuffer/kvbuffer.go:250-257 | the waste of an entry is below the payload of one chunk |
| `KvStat.SumsToChunks` | stkvbuffer/kvbuffer.go:413-419 | used and wasted bytes are all bytes of the chunks in use |
| `KvStat.Stat` | stkvbuffer/kvbuffer.go:408-428 | all counters; with eviction used plus wasted bytes equal the chunks in use times their size; the free size is right if and only if nothing is free or the arena has as many chunks as a chunk has bytes |
| `KvStale.ExactFitCannotBeRead` | stkvbuffer/kvbuffer.go:46-68 | in any fresh array, for every key that fills its chunks: storing it with an empty value succeeds, reading it faults |
| `KvStale.ExactFitGoesStale` | stkvbuffer/kvbuffer.go:291-297 | giving such a key any value that fits succeeds, and the next start over the same bytes does not know the key |
| `KvStat.FailedUpdateLeaks` | stkvbuffer/kvbuffer.go:264-277 | concrete: an update without eviction that does not fit leaves no free chunk |
| `SpbWire.NumberOfVarint` | stnet/spb.go:46-52 | every 64-bit number reads back, whatever follows |
| `SpbWire.HeaderReads` | stnet/spb.go:54-64 | every 32-bit tag and type read back |
| `SpbValue.NegateTwice` | stnet/spb.go:523-537 | negation at the width and back gives every negative number, the smallest included |
| `SpbValue.ScalarSame` | stnet/spb.go:158-245 | a scalar stored into a target of its own type is itself |
| `SpbValue.FindIs` | stnet/spb.go:471-495 | with distinct tags the decoder looks up exactly the field the encoder wrote; `SpbTags.DeclaredTags` says it of the declared tags |
| `SpbCodec.Unpack` | stnet/spb.go:457-713 | on every byte sequence decoding ends, stays in the buffer, moves forward on success, and leaves a well-typed target |
| `SpbCodec.SkipField` | stnet/spb.go:396-442 | skipping ends on every byte sequence and stays in the buffer |
| `SpbSkip.SkipEncoded` | stnet/spb.go:388-394 | skipping consumes exactly the bytes written for any value |
| `SpbSkip.SkipFields` | stnet/spb.go:444-455 | skipping to the end of a struct consumes exactly its fields and its end mark |
| `SpbCoerce.DecodeEncoded` | stnet/spb.go:457-713 | decoding any value written with any schema into any target of any schema gives `Coerce` and consumes exactly its bytes |
| `SpbCoerce.DecodeFields` | stnet/spb.go:684-703 | the fields of a struct are stored one after the other, unknown ones skipped |
| `SpbTheorems.CoerceProjects` | stnet/spb.go:471-495 | into a zero target of an evolved schema that is the projection onto the shared fields |
| `SpbTheorems.RoundTrip` | stnet/spb.go:726-738 | decoding an encoded value gives it back and leaves exactly what follows |
| `SpbTheorems.ForwardCompatible` | stnet/spb.go:686-703 | a reader whose schema lacks or adds fields sees the shared ones and zero values elsewhere |
| `Spb.Spb.PackNumber` | stnet/spb.go:46-52 | appends the varint |
| `Spb.Spb.PackHeader` | stnet/spb.go:54-64 | appends the header |
| `Spb.Spb.PackSlice` | stnet/spb.go:66-83 | appends the encoding of a slice |
| `Spb.Spb.PackMap` | stnet/spb.go:85-107 | appends the encoding of a map in its order of enumeration |
| `Spb.Spb.PackStruct` | stnet/spb.go:109-140 | appends the encoding of a struct, field by field with the header of its tag, as `SpbTags.FieldBytes` says of the encoding |
| `Spb.Spb.Pack` | stnet/spb.go:142-286 | appends exactly the encoding of the value |
| `Spb.Spb.UnpackByte` | stnet/spb.go:288-299 | reads raw bytes, with the error and fault cases |
| `Spb.Spb.UnpackNumber` | stnet/spb.go:301-324 | the shift loop computes the number of at most ten bytes, cut to 64 bits |
| `Spb.Spb.UnpackHeader` | stnet/spb.go:326-338 | reads type and tag |
| `Spb.Spb.SkipHeadField` | stnet/spb.go:388-394 | moves the index as the abstract skip does |
| `Spb.Spb.SkipToStructEnd` | stnet/spb.go:444-455 | moves the index as the abstract skip does |
| `Spb.Spb.UnpackBodyStruct` | stnet/spb.go:684-703 | decodes fields until the end mark |
| `Spb.Spb.Unpack` | stnet/spb.go:457-713 | the index moves exactly as the abstract decoder says, never back and never out of the buffer, and forward on success |
| `Spb.SpbEncode` | stnet/spb.go:726-730 | the bytes of the encoding |
| `Spb.SpbDecode` | stnet/spb.go:732-738 | target and error of the abstract decoder |
| `Framing.EncodeFrameReads` | stnet/rpc.go:420-441 | a frame carries its length and data; the sender takes exactly what fits three length bytes |
| `Framing.ReceivedIff` | stnet/rpc.go:321-332 | a sent frame is received exactly when it is shorter than 2 MiB, else refused |
| `Framing.SplitAppend` | stnet/session.go:371-384 | a stream may be parsed piece by piece, leftovers in front |
| `Framing.SplitIsAll` | stnet/session.go:371-384 | nothing is lost or made up: frames and leftover together are the stream, and every frame is one |
| `Framing.SplitFrames` | stnet/rpc.go:321-369 | a stream of frames is cut into exactly those frames |
| `Session.Session.ParseMsg` | stnet/service.go:153-171 | hands on a frame or an error and says how much was used |
| `Session.Session.Hand` | stnet/session.go:371-397 | one read: the frames of leftover and read are handed on, the rest is kept, and the size limit is never exceeded |
| `Session.Session.HandLast` | stnet/session.go:353-366 | after the close at most one more frame is handed on |
| `Session.TempBelowLimit` | stnet/session.go:389-393 | what is kept is below the limit for any bytes |
| `Session.Reassembly` | stnet/session.go:262-400 | for any front of a stream of frames, cut into any reads and closed at any time, a prefix of the frames that have arrived in full is delivered in order, and all of these once the handler has caught up, with the incomplete rest kept |
| `Rpc.Safety` | stnet/rpc.go:125-300 | over every interleaving: a callback at most once and only with a good response to its own call, never together with an exception; an asynchronous call hears at most once |
| `Rpc.RunInv` | stnet/rpc.go:125-300 | the account of every call, of queued responses and of events holds in every reachable state |
| `RpcTimeouts.Forgotten` | stnet/rpc.go:180-199 | in every continuation an asynchronous call that is no longer pending gets no further callback or exception |
| `RpcTimeouts.ExpiryHeardIff` | stnet/rpc.go:184-191 | after the loop has expired a call, in every continuation its exception is owed or run if and only if the call is synchronous and has one |
| `RpcTimeouts.TwiceIff` | stnet/rpc.go:148-191 | over all runs the exception of a synchronous call is owed or run twice if and only if the loop expired the call and its timer ran, and never more often |
| `RpcTimeouts.SyncTimeoutTwice` | stnet/rpc.go:148-156 | concrete: loop and timer both run the exception of a synchronous call |
| `Rpc.ServiceRpc.Register` | stnet/rpc.go:125-133 | a fresh sequence number and an entry in the table |
| `Rpc.ServiceRpc.Receive` | stnet/rpc.go:356-367 | a response goes to its waiting caller or on to a worker |
| `Rpc.ServiceRpc.HandleRsp` | stnet/rpc.go:257-300 | takes the request out of the table and runs its callback with a good response whose data fit, its exception with the code of a failed one, its exception with PARAM_ERR when the data do not fit, and nothing else |
| `Rpc.ServiceRpc.GiveUp` | stnet/rpc.go:148-156 | the timer branch of a synchronous call |
| `Rpc.ServiceRpc.Loop` | stnet/rpc.go:180-199 | takes out exactly what is over time, as a sequence of expiry steps |
| `Dispatch.GetProcessor` | stnet/service.go:133-151 | always a valid queue index |
| `Dispatch.StaysInQueue` | stnet/service.go:139-148 | a session whose hash stays 0, or stays negative, stays in one queue |
| `Dispatch.Server.AddService` | stnet/server.go:88-102 | thread numbers are checked and reduced; a service that cannot be made is refused |
| `Dispatch.Server.Start` | stnet/server.go:181-250 | if every service can be initialised, every queue index has exactly one worker, else there is none |
| `Dispatch.Queues.Push` | stnet/service.go:159-163 | behind the others, or dropped when full |
| `Dispatch.Queues.MessageThread` | stnet/service.go:63-77 | handles the oldest messages of its queue in order |
| `Dispatch.HandledInOrder` | stnet/service.go:133-194 | in every run whose hashes name one queue handled data are in parse order, behind the open of their incarnation, and in front of its close if that queue is the own thread's |
| `Dispatch.SignNamesQueue` | stnet/service.go:139-148 | a run whose hashes are all 0, or all negative, names one queue |
| `Dispatch.InOrderIff` | stnet/service.go:133-151 | every schedule of data with given hashes handles them in order if and only if all these hashes name one queue |
| `Dispatch.BeforeCloseIff` | stnet/service.go:133-194 | every schedule of data with given hashes handles them before the close if and only if all these hashes name the own thread's queue |
| `Dispatch.Deliver` | stnet/service.go:153-163 | pushing a parsed message is the parse step of the run, and dropping it the one that does not fit |
| `Dispatch.Turn` | stnet/service.go:63-77 | one turn of a worker is as many work steps of the run as messages were handled |
| `Dispatch.HandledAfterOpen` | stnet/session.go:262-287 | in every run, whatever the hashes, nothing is handled of an incarnation before its open event |
| `Mux.Search` | stnet/servicehttp.go:245-247 | binary search finds the first shorter pattern |
| `Mux.AppendSorted` | stnet/servicehttp.go:243-256 | inserts and keeps the order from longest to shortest |
| `Mux.HttpHandler.Handle` | stnet/servicehttp.go:207-233 | registers once; list and map agree |
| `Mux.HttpHandler.Match` | stnet/servicehttp.go:260-275 | the entry with that very pattern; else one of a slash pattern that the path begins with and that no other such pattern exceeds in length |
| `Mux.HttpHandler.Handler` | stnet/servicehttp.go:279-292 | what the table says for host and path, and only if that is nothing what it says for the path |
| `Mux.LongestIs` | stnet/servicehttp.go:267-273 | the reference search returns a registered prefix and no longer one exists |
| `Mux.OrderDoesNotMatter` | stnet/servicehttp.go:207-275 | the same patterns in another order give the same dispatch |
| `Mux.RegisterAll` | stnet/servicehttp.go:207-233 | any list of distinct patterns makes its table |
| `Weights.AddUp` | stnet/server.go:145-152 | in place, every weight becomes the sum up to it |
| `Weights.Choose` | stnet/simpleimp.go:88-93 | the chosen backend owns the residue |
| `Weights.SessionOpen` | stnet/simpleimp.go:83-95 | one backend, or the owner of the residue |
| `Weights.OwnerUnique` | stnet/simpleimp.go:88-93 | a residue has one owner |
| `Weights.ShareIsWeight` | stnet/simpleimp.go:83-95 | each backend is chosen for exactly as many residues as its weight |
| `IniText.LinesBack` | stconfig/ini.go:209-212 | what is printed line by line is read line by line |
| `IniText.KeyLineParts` | stconfig/ini.go:253-260 | the line of any key and value is cut at its first equals sign into the key and the value without surrounding space |
| `Ini.ReadPrinted` | stconfig/ini.go:199-275 | reading the printed lines succeeds and gives the printed document |
| `Ini.RoundTrip` | stconfig/ini.go:29-75 | same values and comments, section by section |
| `Ini.RunRoundTrip` | stconfig/ini.go:77-118 | the same after any run of Set, SectionSet and DelSection |
| `Ini.ReadListed` | stconfig/ini.go:199-275 | any text that is read leaves every key and section listed, so that it would be printed |
| `Ini.Config.Set` | stconfig/ini.go:93-95 | the key has the value, a comment replaces the one before, none leaves it to a key that had a value, a new key goes to the end, and nothing else changes |
| `Ini.Config.SectionSet` | stconfig/ini.go:97-114 | the same in a section, which is made at the end of the list if it is not there; other sections keep everything |
| `Ini.Config.DelSection` | stconfig/ini.go:116-118 | removes the section and no other |
| `Ini.Config.Save` | stconfig/ini.go:29-75 | prints the document |
| `Ini.Config.ReadIniFile` | stconfig/ini.go:199-275 | reads a text, or fails on exactly the lines the reader rejects |
| `KvUpdate.TornLink` | stkvbuffer/kvbuffer.go:278-297 | a stale update tears the chain where the key ends: it goes on behind an end, or its last link leads to a free chunk |
| `KvStale.GrownRefused` | stkvbuffer/kvbuffer.go:163-167 | in an image with a torn chain that has grown, the end in front of the tear can never be loaded, so no open succeeds |
| `KvStale.RestartAny` | stkvbuffer/kvbuffer.go:110-194 | a restart gives the same map; with a torn entry at any place that has grown it is refused or faults, each exactly when stated; with one that has shrunk it gives the map of the others, and exactly the chunks of the torn entry are lost |
| `KvStale.SetAndRestart` | stkvbuffer/kvbuffer.go:110-366 | after a Set and a restart the key is found again if and only if the update was not a stale one |
| `KvStale.DelAndRestart` | stkvbuffer/kvbuffer.go:368-380 | deleting the only torn key, wherever its entry stands, mends the image: the next start gives the map without it |
| `KvTwins.RestartTwin` | stkvbuffer/kvbuffer.go:110-194 | a restart over the bytes of any buffer gives the map of every reading of those bytes whose chains follow their links |
| `KvTwins.TornWithTwin` | stkvbuffer/kvbuffer.go:291-297 | for all keys and values of fitting sizes: a torn state and one that follows its links over the same bytes, with the same keys and values |
| `KvStale.GrownStops` | stkvbuffer/kvbuffer.go:151-170 | loading an image with a grown chain faults if and only if the key found behind the tear does not fit and is met first, and is refused otherwise |
| `KvStale.ShrunkTells` | stkvbuffer/kvbuffer.go:151-170 | an image with a shrunk chain tells exactly the other entries |
| `KvStale.EvictUntil` | stkvbuffer/kvbuffer.go:308-313 | the eviction loop on a buffer that has lost chunks: it never ends if and only if the callback does not fault and free chunks and entries together are too few |
| `KvStale.RestartAndInsert` | stkvbuffer/kvbuffer.go:308-313 | after a restart over a shrunk chain: the callback, if there is one, faults if and only if the loop meets an entry it cannot be told, and else the loop never ends if and only if more chunks are needed than are left without the torn entry's |
| `KvOpen.SettledTells` | stkvbuffer/kvbuffer.go:151-170 | the image of a settled agreeing buffer tells exactly its entries |
| `KvTornRun.TornAndRight` | stkvbuffer/kvbuffer.go:110-366 | in any fresh array with room for three chunks four stores leave a torn image, and a restart over it gives the map that was stored |
| `KvTornRun.EnoughStores` | stkvbuffer/kvbuffer.go:259-366 | a store that finds enough chunks evicts nothing and takes exactly what it needs |
| `KvCount.FewerLoaded` | stkvbuffer/kvbuffer.go:125-170 | without grown chains and with a torn key whose value is empty, fewer entries can be loaded than are stored |
| `KvCount.PlayAndReopen` | stkvbuffer/kvbuffer.go:110-370 | any run and then a restart: without marks the map of the run; if all marks are of keys that have shrunk and are empty, all keys are found if and only if there is no mark |
| `KvAge.DropsByEnd` | stkvbuffer/kvbuffer.go:110-366 | in any run after a reload a Set drops entries that were only reloaded in ascending order of the last chunks of their chains, and before every such entry that it keeps |
| `KvAge.RestartAndSet` | stkvbuffer/kvbuffer.go:110-366 | a restart of a real buffer and one Set: the keys are the same, those dropped go in ascending order of the ends of their chains, and every one kept ends later |
| `KvRun.DropsInOrder` | stkvbuffer/kvbuffer.go:264-313 | one Set drops its entries from the least recently used on |
| `SpbTags.DeclaredTags` | stnet/spb.go:109-140 | for every writer and compatible reader: each field of the reader is the writer's field with the same declared tag, or the same position where neither declares one, seen through its type in turn, and zero if there is none |
| `SpbTags.ByTag` | stnet/spb.go:118-127 | structs whose tags are all written out are matched by these tags; a field whose tag no writer field carries is zero |
| `SpbTags.ByPosition` | stnet/spb.go:118-127 | structs without tags are matched by position |
| `SpbTags.FieldBytes` | stnet/spb.go:109-140 | a written field stands in the struct behind the header of its declared tag, or of its position if it declares none |
| `SpbTags.WireExample` | stnet/spb.go:109-140 | the four bytes of a struct with one field of tag 5 that holds 7 |
| `SpbTags.FlatExamples` | stnet/spb.go:142-245 | the bytes of a negative number, a string, and a number behind a tag of more than 14 |
| `SpbTags.SliceExample` | stnet/spb.go:66-83 | the bytes of a slice |
| `SpbTags.MapExample` | stnet/spb.go:85-107 | the bytes of a map |
| `SpbTags.ScalarRead` | stnet/spb.go:500-537 | a number read into another scalar type arrives as it is if it fits, except the smallest number of a signed width in a wider signed target; negative numbers leave unsigned targets alone |
| `SpbWire.NumberEnds` | stnet/spb.go:301-324 | for any bytes: a number ends at the first byte below 128 among ten, else the data were cut off or the number overflows |
| `SpbCodec.LastPairWins` | stnet/spb.go:671-683 | of the pairs of a message with one key the map has the last |
| `SpbCut.CutNoticed` | stnet/spb.go:457-713 | a reader that skips no slice, map or struct of a message reports an error for every proper prefix of it |
| `SpbCut.CutNoticedBySelf` | stnet/spb.go:732-738 | so does every reader with the schema the message was written with |
| `SpbCut.CutUnnoticed` | stnet/spb.go:388-455 | concrete: a reader that lacks the field takes a message that is cut off inside a string of a slice for a whole one |
| `SpbCut.UnknownType` | stnet/spb.go:704-713 | headers of unknown types are refused and change nothing |
| `SpbCut.FloatPassed` | stnet/spb.go:538-553 | a floating-point number is read past and changes no target of another type |
| `Framing.HeaderExample` | stnet/rpc.go:420-441 | the length stands most significant byte first and counts the header |
| `Bytes.LittleEndian` | stkvbuffer/util.go:8-20 | a word stands least significant byte first |
| `RpcAnswers.Answered` | stnet/rpc.go:257-300 | in every run, handling a response to a pending call takes it out of the table and adds its callback if and only if the response is good and its data fit, its exception with the code of a failed response, its exception with PARAM_ERR if and only if the data of a good response do not fit, and nothing else; responses to other calls are dropped |
| `RpcAnswers.CanBeHandled` | stnet/rpc.go:356-367 | a response that comes in can be handled at once by its waiting caller or by a worker |
| `RpcAnswers.WhereFrom` | stnet/rpc.go:125-300 | in every run, every callback has a good response to its call that has come in, and every exception a response with its code, one whose data did not fit, or a timeout of its call |
| `Mux.FindServes` | stnet/servicehttp.go:260-275 | for any list of distinct patterns: the entry with that very pattern, else that of the longest slash pattern the path begins with, else none |
| `Mux.OneServes` | stnet/servicehttp.go:260-275 | only one answer meets that description |
| `Mux.HostFirst` | stnet/servicehttp.go:279-292 | an entry for host and path comes before any for the path alone, even one with that very pattern; the path alone counts if and only if there is none |
| `Mux.RegisterAndMatch` | stnet/servicehttp.go:207-275 | the same on the real handler after registering any list in any order |
| `Mux.RegisterAndServe` | stnet/servicehttp.go:207-292 | the same for a request to a host |
| `Dispatch.SharesQueueIff` | stnet/service.go:139-148 | two positive hashes name one queue if and only if they differ by a multiple of the threads; those below that number have queues of their own |
| `Dispatch.SessionsShareIff` | stnet/service.go:139-148 | with negative hashes the same of the session numbers |
| `IniText.QuotesGo` | stconfig/ini.go:260 | quotes around a value are cut off and what is between them stays, with its space |
| `IniText.ValueKeptIff` | stconfig/ini.go:260 | a value is read as it stands if and only if it begins and ends in neither space nor a quote |
| `Ini.ReadQuoted` | stconfig/ini.go:253-272 | a line k = "v" gives the key the value v |
| `IniRun.RunValue` | stconfig/ini.go:77-118 | after any run of changes a key has the value of the last change that sets it, none if its section was removed since, and its old one if no change touches it |
| `IniRun.RunComment` | stconfig/ini.go:77-118 | its comment: the last one given, kept when none is given to a key that has a value, gone with the section |
| `IniRun.RunLists` | stconfig/ini.go:77-118 | which sections are there after a run, with which comment, and in which order the keys stand |
| `IniRun.RunNames` | stconfig/ini.go:77-118 | the list of section names after a run |
| `IniRun.Untouched` | stconfig/ini.go:77-118 | a key that no change touches keeps value and comment |
| `IniRun.LastSetCounts` | stconfig/ini.go:77-118 | the change after which no other touches the key decides value and comment |
| `IniRun.SavedAsSet` | stconfig/ini.go:29-275 | after any run of changes that survive a line, saving and loading gives every key the value and comment that the list of changes tells |
| `IniRun.OrderKept` | stconfig/ini.go:29-75 | saving and loading keeps the order of keys and sections; a section whose name is listed twice has its keys twice |
| `IniRun.ChangeAll` | stconfig/ini.go:77-118 | a run of changes on the configuration object does that |
| `IniRead.RefusedIff` | stconfig/ini.go:231-258 | a line is refused if and only if it opens a section without closing it or has no key in front of an equals sign |
| `IniRead.KeyLineSets` | stconfig/ini.go:253-275 | a key line sets its key in the open section, over whatever it had, with the comment that was waiting, and changes nothing else |
| `IniRead.HeadLineOpens` | stconfig/ini.go:231-251 | a section line opens the section; a new one gets the waiting comment, one that is there keeps everything |
| `IniRead.CommentsJoin` | stconfig/ini.go:222-229 | comment lines wait as one comment, without their line ends |
| `IniRead.EndsDoNotMatter` | stconfig/ini.go:209-212 | line feeds with or without a return give the same lines, and the last line needs none |
| `IniRead.MarkGoes` | stconfig/ini.go:213-220 | a byte-order mark in front of the first line changes nothing |

## Left out

- KvStart.Open: arrays below 4 GiB only, because capacities are 32-bit numbers; for an old image the caller passes a chunk size of at least 32, as formatting demands.
- Byte order: words are little endian; the program casts pointers, `stkvbuffer/util.go`.
- Aliasing of returned strings: `Get` returns a view into the array; the model returns the bytes.
- KvBuffer.KVBuffer.Set: key and value together stay below 4 GiB, because `need` is a 32-bit number; after a fault inside the eviction callback the state of the object is not described, because the program has panicked in the middle of the operation.
- KvBuffer.KVBuffer.Del: the same holds after a fault inside the callback.
- KvLife.PlayAndRestart: a key torn by shrinking keeps its mark when it is given a value again, although the link may then be right by chance; `KvStale.RestartAny` says what a restart makes of a torn entry.
- SpbTheorems.RoundTrip: tags are distinct 32-bit numbers in every struct and the bytes stay below 2^63, as on any machine.
- KvStat.Stat: the percentage is a real number, without the rounding of the program.
- LRU methods the buffer does not use: `Purge`, `Contains`, `Peek`, `GetOldest`.
- Reflection: a schema datatype takes the place of Go types; pointers, interfaces, named scalars, unexported fields, non-numeric tags and floats are not modelled.
- Spb.Spb.UnpackNumber: the bitwise `or` of shifted digits is modelled as a sum, because the digits do not overlap; the value on an error, which no caller uses, is 0.
- KvStale.RestartAny: says what becomes of one torn entry whose link leads to a free chunk or to itself, all others agreeing; once that chunk is in use again, or with several torn entries, what a reload finds depends on the bytes of the values, as `KvTornRun.TornAndRight` shows. `KvCount.PlayAndReopen` has the case that does not depend on them.
- KvStale.RestartAndInsert: of the calls on a buffer that has lost chunks only the eviction loop of an insert is described.
- KvStart.OpenAgain: a buffer without an index is an outcome only; its `Get` and `Del`, which fault, are not modelled.
- SpbCodec.Unpack: limits on memory allocation; a vector or map that claims very many elements makes the program reserve room for them first.
- Spb maps: a map value lists its pairs in enumeration order, so that "any order" is any list.
- Buffer pools and the reuse of freed read buffers in `session.go`; sockets, timers and heartbeats beyond nondeterministic steps.
- Frames of other services: `EncodeProtocol` and the JSON services.
- Rpc.Safety: sequence numbers do not wrap, so fewer than 2^32 calls are made; responses answer calls that were made, but may be lost, delayed, reordered and repeated.
- What a callback does with its parameters, and the server side of a call beyond answering it.
- Weights.SessionOpen: the residues are counted, not the distribution of the random number.
- HTTP request parsing, response writing and host splitting.
- Session.Session.ParseMsg: payload decoding errors, and synchronous responses that go to their caller's channel instead of a queue, are not part of the session; `Rpc.ServiceRpc.Receive` has the latter.
- Ini.Config.ReadIniFile: the line-length limit of the scanner is not modelled.
- Ini.RoundTrip: keys, values, names and comments must survive a line as `Ini.DocOk` says; the length limit of the line scanner and the UTF-8 encoding are not modelled.
- The typed getters of the configuration, logging, memory mapping, upgrades, code generation and proxies: input and output, or easier copies of what is covered.
