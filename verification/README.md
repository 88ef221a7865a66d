# A verified model of the memcached core

This project models the parts of memcached 1.6.12 whose correctness is hard to see from the code and
proves what they are for.  Code that updates objects in place is a class whose methods are proved
against a function of the old state; concurrent code is a state machine whose events are its critical
sections, and the theorems hold after every event of every run.

* **External storage** (`Extstore*.dfy`).  A log of fixed-size pages shared by writers, IO threads and
  a maintenance thread. Main results: a finished read of a stored object is a miss or exactly the
  bytes that were written, whatever happened in between (`ReadsReturnStoredBytes`); no index failure
  and but one failing assertion is reachable (`EveryRunIsSafe`); pages, write buffers and write IOs
  are conserved; usage counters are exact for disciplined callers and drift exactly when a delete
  exceeds a page's counts. That assertion, that a bucket's newest page is full when another is opened,
  fails exactly when a page was opened on the bucket since the request was made and is not yet fully
  claimed (`AssertionFailsIff`): never with one writer per bucket (`AllocationIsAsserted`). Over a whole
  scan with any traffic meanwhile, the maintenance thread evicts exactly when it should, and then the
  oldest page (`EvictsOldest`); what a closed page held is never read again (`ClosedIsMissed`). The
  in-place code works on records with `next` links (`ExtstoreChains.dfy`, `ExtstoreEngine.dfy`) and
  keeps the same invariant.
* **CRC-32C** (`Crc32c*.dfy`).  The three-way hardware form and both slice-by-8 software forms equal the
  bit-at-a-time CRC for every buffer, alignment and starting value, and that is the remainder of the
  message modulo the generator polynomial of section 12.1 of RFC 3720 (`CrcIsRemainder`).
* **Hash table** (`Assoc.dfy`, `AssocTable.dfy`, `ItemLocks.dfy`).  Find, insert, delete, expansion and
  bucket migration refine a plain map, on the linked chains and over every interleaving of workers
  and the migrating thread; a held item lock freezes the holder's bucket and chain; an expansion left
  to that thread ends with the same items in a table of twice the size (`ExpansionEnds`).
* **Items and LRU lists** (`DoubleList.dfy`, `LruList.dfy`, `Items.dfy`, `LruPull.dfy`, `TailWalk.dfy`,
  `ItemStore.dfy`, `ItemRuns.dfy`, `ItemLife.dfy`, `ItemData.dfy`, `ItemOrder.dfy`). The crawler sees
  every item once; linked, hashed and listed are the same thing; reference counts are exact; nothing is freed while it can be reached.
  `lru_pull_tail` returns the item it kept a reference on, whatever the cache, exactly when it was
  asked for none or works on COLD without evicting; what a call does to every item is given exactly
  (`PullDoes`). After any run a lookup finds precisely the item last linked under its key and not
  unlinked since, if that is live (`LookupFinds`), and without segments an eviction passes over an item
  used longer ago only if it is locked or expired (`EvictsLeastRecent`).
* **Responses, values and CAS** (`Transmit.dfy`, `RespAlloc.dfy`, `ChunkCopy.dfy`, `Numbers.dfy`,
  `CasStore.dfy`, `Commands.dfy`, `HeldTokens.dfy`, `Counters.dfy`).
  Over any course of queueing and sending, what the socket has received is the beginning of what the
  responses say (`Serve`); response slots are handed out once; append and prepend
  on chunked items are string concatenation; a compare-and-swap stores if and only if the key has not
  changed since its token was issued, and a token read late from a fetched item can be relied on
  exactly unless incr or decr put another value in its place that is still there; what every
  command answers and leaves is given case by case, and what it stored is read until the key is written
  again (`StoredIsRead`); incr and decr keep exact counters.
* **Buffers and codecs** (`BipBuffer.dfy`, `Jenkins.dfy`, `Base64.dfy`, `Base64Bits.dfy`).  The
  bip buffer is a FIFO whose peeked window is stable; the three alignment paths of the hash agree and its mixing is a bijection;
  base64 writes what RFC 4648 defines, round-trips and decodes in place.

`Basics.dfy`, `Division.dfy` and `Flatten.dfy` hold what the modules share.

Counters that are 64 bits wide or cannot overflow in practice (page versions, CAS ids, reference counts,
byte counts) are unbounded, and every critical section under one mutex is atomic.  Memory allocation, the
clock, hash functions, socket answers, the memory behind an item and the choice of which thread moves next are
inputs of the model.

Where code and expectation differ, the code is kept and the difference is a lemma:

* `bipbuf_poll` accepts more bytes than region A holds and then leaves its regions out of order
  (`PollKeepsOkIff`, `PollPastEndBreaksRegions`).
* `extstore_delete` stops a page's counters at zero but subtracts in full from the global ones, so a
  repeated delete makes them disagree (`DeleteKeepsSumsIff`, `DoubleDeleteDrifts`).
* Two writers that find the same page of a bucket full may both open a new one, and the second fails
  the assertion of `_allocate_page` (`AssertionFailsIff`, `TwoWritersBreakIt`, `AcceptedEngineBreaks`).
* `lru_pull_tail` with LRU_PULL_RETURN_ITEM on a queue other than COLD, or while evicting, keeps a
  reference without handing the item back (`KeptIsReturnedIff`, `ReturnLoses`).
* New chunks are sized to what remains, so every chunk copy that allocates leaves an empty chunk at the
  end (`NeededIs`, `CopyFrom`).
* Without CAS ids (`-C`) a cas command never stores (`NoIdsNoCas`), and with the stale flag of the
  meta protocol it stores over any newer value (`StaleStoresIff`).
* An incr or decr that replaces an item gives the new id to the old item as well, so a client that has
  fetched the old item and reads its token afterwards has the old value with the new token, and its
  cas stores over a value it never saw (`TokenTellsIff`, `CrossedIff`, `OvertakenStores`).
* A counter of 2^63 or more is not read as a number while a minus sign follows it before the next zero
  byte in memory (`ShownIsRead`, `LargeIsRefused`).
* Decoding the encoding of the empty string reports an error (`Base64.RoundTrip`).

## Model

| member | source | states |
|---|---|---|
| ExtstoreTheorems.ReadsReturnStoredBytes | memcached/extstore.c:466-841 | From start-up, through any events before and after an object is stored, a finished read inside the object's range under its page version is a miss or exactly those bytes, from the write buffer or from disk |
| ExtstoreTheorems.EveryRunIsSafe | memcached/extstore.c:220-986 | Every state reachable from start-up satisfies the whole engine invariant and no event hit an empty IO stack, an index out of range or a failed assertion other than that of `_allocate_page` |
| ExtstoreTheorems.InitialOk | memcached/extstore.c:293-365 | The state that initialization builds, for any accepted configuration and any disk contents, satisfies the invariant |
| ExtstoreTheorems.RunKeeps | memcached/extstore.c:401-986 | The invariant survives any sequence of enabled events |
| ExtstoreTheorems.StepGrows | memcached/extstore.c:401-603 | No event changes a byte already written under a page version |
| ExtstoreTheorems.RunGrows | memcached/extstore.c:401-603 | The same over whole runs: the bytes of each page version only grow at the end |
| ExtstoreTheorems.CommitStores | memcached/extstore.c:585-603 | After a write the returned page, version and offset name exactly the caller's bytes |
| ExtstoreTheorems.FinishedReadIsImage | memcached/extstore.c:774-835 | In every safe state a finished read that was not a miss holds the bytes written under the version it asked for, even if the page was closed or reused meanwhile |
| ExtstoreTheorems.OpenPageIsRead | memcached/extstore.c:774-792 | A read of an open page whose version still matches is never reported as a miss |
| ExtstoreTheorems.IosAreConserved | memcached/extstore.c:357-365 | IOs on the stack plus writes in flight are exactly the IOs made at start-up |
| ExtstoreTheorems.WbufsAreConserved | memcached/extstore.c:438-492 | Write buffers on the stack plus pages with one attached are exactly the buffers made at start-up |
| ExtstoreTheorems.PagesAreConserved | memcached/extstore.c:330-340 | Each circulating page is on exactly one free list or bucket list, the one its fields name; `page_free` is the total free-list length; `written` is the attached buffer's offset and lags `allocated` by one buffer, or equals it when none is attached |
| ExtstoreTheorems.EvictionClosesItsCandidate | memcached/extstore.c:958-975 | When the scan ends with a candidate for eviction, that page still has the version that was scanned, is in use, inactive, completely written and in no special free bucket |
| ExtstoreMaint.EvictsOldest | memcached/extstore.c:904-976 | A whole scan with any events of other threads in between: a page is evicted exactly if the common free list was empty at the start, the scan took no page back, some page could be evicted when it was visited, and the chosen one has not been closed since; it is the one of least version of all those, still under the version it had |
| ExtstoreMaint.VisitTakesBack | memcached/extstore.c:927-956 | A visit takes a page back exactly if it is inactive, in use, unpinned and empty or closed: then it is as at start-up, off its bucket and first on the free list it came from; no other page changes |
| ExtstoreMaint.VisitRemembers | memcached/extstore.c:931-956 | A visit makes the page the candidate exactly if it holds objects, is open and inactive, belongs to no special free list, and has a lower version than the candidate before it; a page taken back calls the eviction off |
| ExtstoreMaint.WakeLooks | memcached/extstore.c:918-924 | The thread sets out to evict exactly when the common free list is empty |
| ExtstoreMaint.EvictDoes | memcached/extstore.c:958-975 | After an eviction nothing under the page's version can be read: the page is back on its free list, or closed until its readers are done; otherwise nothing changes |
| ExtstoreRequests.AllocationGets | memcached/extstore.c:401-435 | A page is opened exactly if its own free list or the common one has any, the first of the former if there is one; it heads its bucket under the next version, and no other page changes |
| ExtstoreRequests.PickGets | memcached/extstore.c:529-544 | A request takes the newest page of its bucket, opens one only where there is none, and is refused if the bucket does not exist or no page is free |
| ExtstoreRequests.CheckDecides | memcached/extstore.c:546-579 | A request for a page that is used up goes on to open another; otherwise it is granted exactly if the attached buffer has room, or none is attached, the page has space left and there is a buffer with room |
| ExtstoreRequests.StaysGone | memcached/extstore.c:401-986 | No event makes readable again what can no longer be read under a version |
| ExtstoreRequests.ClosedIsMissed | memcached/extstore.c:693-703 | After a page was closed under a version, whatever happens, a read under that version is a miss |
| ExtstorePageSteps.AllocatePageKeeps | memcached/extstore.c:401-435 | Opening a page, or finding none free, keeps every invariant of the engine |
| ExtstorePageSteps.AllocateWbufKeeps | memcached/extstore.c:438-458 | Attaching a buffer to a page without one, or finding none, keeps the invariant |
| ExtstorePageSteps.IoAvailable | memcached/extstore.c:497-502 | As long as some buffer is not yet submitted, the IO stack is not empty |
| ExtstorePageSteps.SubmitWbufKeeps | memcached/extstore.c:497-518 | Submitting a buffer, its tail padded, keeps the invariant and changes no page |
| ExtstoreIoSteps.CommitKeeps | memcached/extstore.c:585-603 | Copying an object into the reserved place keeps the invariant, including that buffer, disk and history agree |
| ExtstoreIoSteps.PwriteKeeps | memcached/extstore.c:814-819 | Landing any piece of a buffer on disk, the pieces in any order, keeps the invariant: no byte that a read may take from disk changes |
| ExtstoreIoSteps.FlushedKeeps | memcached/extstore.c:466-492 | The write callback keeps the invariant: the whole buffer is on disk before readers are sent there |
| ExtstoreIoSteps.SubmitReadKeeps | memcached/extstore.c:610-640 | Queueing a read keeps the invariant |
| ExtstoreIoSteps.StartReadKeeps | memcached/extstore.c:774-792 | Deciding between miss, buffer and disk, and pinning the page, keeps the invariant |
| ExtstoreIoSteps.PreadKeeps | memcached/extstore.c:793-812 | Any piece of a disk read made while the page is pinned but unlocked is right |
| ExtstoreIoSteps.FinishReadKeeps | memcached/extstore.c:830-835 | Unpinning keeps each refcount equal to the number of reads in progress |
| ExtstoreIoSteps.DeleteKeeps | memcached/extstore.c:645-678 | Deleting keeps the invariant for any page, version, count and length |
| ExtstoreIoSteps.CloseKeeps | memcached/extstore.c:693-703 | Closing a page keeps the invariant, with reads and writes in flight |
| ExtstoreRuns.FreePageKeeps | memcached/extstore.c:844-890 | Returning an unpinned inactive page to its free list keeps the invariant |
| ExtstoreRuns.MaintVisitKeeps | memcached/extstore.c:927-956 | One visit of the maintenance scan, freeing included, keeps the invariant |
| ExtstoreRuns.MaintEvictKeeps | memcached/extstore.c:958-975 | Closing the candidate after the scan keeps the invariant |
| ExtstoreRuns.PickKeeps | memcached/extstore.c:529-544 | Choosing a page under the engine lock, allocating if there is none, keeps the invariant |
| ExtstoreRuns.MakeRoomKeeps | memcached/extstore.c:559-567 | Submitting a full buffer and attaching the next keeps the invariant for any request length |
| ExtstoreRuns.RefillKeeps | memcached/extstore.c:550-557 | Opening a new page after the old one was released keeps the invariant, whatever ran between the two locks |
| ExtstoreRuns.CheckKeeps | memcached/extstore.c:546-579 | Granting, postponing or refusing a write keeps the invariant |
| ExtstoreRuns.StepKeeps | memcached/extstore.c:401-986 | Each of the fifteen kinds of event keeps the invariant |
| ExtstoreAccounts.DeleteKeepsSumsIff | memcached/extstore.c:645-678 | A delete keeps the global usage equal to the page sums if and only if it is refused or takes no more than the page holds |
| ExtstoreExamples.DoubleDeleteDrifts | memcached/extstore.c:654-668 | For every buffer size, disk and byte, a run from start-up that stores one object and deletes it twice: the totals are right after the first delete and disagree with the pages after the second |
| ExtstoreAccounts.StepAccounts | memcached/extstore.c:585-678 | Each event of a disciplined caller keeps global usage equal to the page sums and the page counts equal to what is stored and not deleted |
| ExtstoreAccounts.RunAccounts | memcached/extstore.c:585-890 | The same over every run |
| ExtstoreAccounts.UsageIsExact | memcached/extstore.c:844-852 | From start-up, if each object is deleted at most once with its stored length, `objects_used` and `bytes_used` equal the sums over pages after every run |
| ExtstoreWriters.AssertionFailsIff | memcached/extstore.c:403-404 | After any run from start-up without a failure so far, a request that comes to open a page fails the assertion if and only if another page was opened on its bucket since the request was made and is not fully claimed |
| ExtstoreWriters.AllocationIsAsserted | memcached/extstore.c:403-404 | In every run from start-up with at most one writer per bucket at a time, the assertion never fails |
| ExtstoreWriters.StepTidy | memcached/extstore.c:529-580 | Unless it fails the assertion, every event keeps all pages full that stand behind a bucket's newest, and all that a request under way has seen but the one it holds |
| ExtstoreWriters.RunTidy | memcached/extstore.c:529-580 | The same over every run without a failure |
| ExtstoreWriters.StepApart | memcached/extstore.c:529-580 | With one writer per bucket, no event opens a page on a bucket behind the back of a request |
| ExtstoreWriters.OutOfRoomIsFull | memcached/extstore.c:546-558 | A page that a writer gives up on has every buffer of its space allocated |
| ExtstoreExamples.TwoWritersBreakIt | memcached/extstore.c:403-404 | For every buffer size, disk and byte, a run from start-up with requests that fit a buffer in which two writers of one bucket reach the assertion and it fails |
| ExtstoreExamples.AcceptedEngineBreaks | memcached/extstore.c:240-244 | That run at the smallest page and buffer sizes that initialization accepts |
| ExtstoreChains.PushChains | memcached/extstore.c:330-340 | Linking a page that is on no list in front of one list leaves the links of every list spelling out that list |
| ExtstoreChains.CutChains | memcached/extstore.c:855-868 | Cutting a page out of one list does so too |
| ExtstoreChains.ListsApart | memcached/extstore.c:330-340 | In every safe state no page is on two lists or twice on one, so one `next` link per page suffices |
| ExtstoreEngine.Engine.constructor | memcached/extstore.c:293-365 | The built engine, its lists linked up by the source's loops, is the initial state of the model and safe |
| ExtstoreEngine.Engine.FillFreeLists | memcached/extstore.c:330-340 | The descending loop links every page but page 0 into the free list of its kind, in ascending order, and counts them |
| ExtstoreEngine.Engine.FillStacks | memcached/extstore.c:357-365 | The push loops link every buffer and every IO into its stack once |
| ExtstoreEngine.Engine.AllocatePage | memcached/extstore.c:401-435 | On the linked lists, moves the first page of the wanted or the common free list to the head of the bucket, as the model's step does, and keeps the engine safe |
| ExtstoreEngine.Engine.Locate | memcached/extstore.c:855-868 | The walk along a bucket's links ends at the page, with its neighbour in hand |
| ExtstoreEngine.Engine.CutAt | memcached/extstore.c:855-868 | One link is changed: exactly that page leaves the list, and every other list is as it was |
| ExtstoreEngine.Engine.FreePage | memcached/extstore.c:844-890 | On the linked lists, takes the page out of its bucket, resets it and returns it to the free list it came from, as the model's step does, and keeps the engine safe |
| ExtstoreEngine.Engine.AllocateWbuf | memcached/extstore.c:438-458 | Pops a buffer off the linked stack, if there is one, and attaches it at the page's next free offset; the engine stays safe |
| ExtstoreEngine.Engine.SubmitWbuf | memcached/extstore.c:497-518 | Pops an IO, of which there is one, and puts the buffer on its way with its tail cleared; the engine stays safe |
| ExtstoreEngine.Engine.MakeRoom | memcached/extstore.c:559-567 | Ships a buffer that cannot take the object and attaches the next, as the model's step does; the engine stays safe |
| ExtstoreEngine.Engine.Write | memcached/extstore.c:585-603 | Copies the object into the granted place, returns the handle under which it can be read, and keeps the engine safe |
| ExtstoreEngine.Engine.WbufCb | memcached/extstore.c:466-492 | Detaches the written buffer and pushes buffer and IO back on their linked stacks; the engine stays safe |
| ExtstoreEngine.Engine.Delete | memcached/extstore.c:645-678 | Accepts exactly open pages of the right version, and keeps the engine safe |
| ExtstoreEngine.SubmitIsSafe | memcached/extstore.c:497-518 | In every safe state an unsubmitted attached buffer can be submitted: an IO is there and the tail to clear is inside the buffer |
| ExtstoreEngine.WriteIsSafe | memcached/extstore.c:585-603 | In every safe state a granted write finds its buffer attached and the granted place inside it |
| ExtstoreEngine.CallbackIsSafe | memcached/extstore.c:466-492 | In every safe state the callback finds the flushed buffer still attached and `written` at its offset, as it asserts |
| Crc32c.ByteAtOnce | memcached/crc32c.c:171-177 | Feeding a byte bit by bit equals xoring it in and shifting in eight zero bits |
| Crc32c.Stitch | memcached/crc32c.c:183-219 | The CRC of a message from any start is the start pushed through as many zero bytes xor the CRC of the message from zero |
| Crc32c.ZerosAdd | memcached/crc32c.c:84-116 | Pushing through m and then n zero bytes is pushing through m + n |
| Crc32c.CrcContinues | memcached/crc32c.h:11-14 | Feeding a returned CRC into the next call gives the CRC of the concatenation |
| Crc32cMatrix.TimesRuns | memcached/crc32c.c:61-70 | A matrix whose columns are k bit steps of the unit vectors applies k bit steps to every vector |
| Crc32cMatrix.SquareDoubles | memcached/crc32c.c:74-77 | Squaring an operator for k bits gives the operator for 2k bits |
| Crc32cMatrix.MatrixTimes | memcached/crc32c.c:61-70 | The early-exit loop is the full matrix product |
| Crc32cMatrix.MatrixSquare | memcached/crc32c.c:74-77 | Turns the operator for k bits into the one for 2k, in place in another array |
| Crc32cMatrix.OneBitMatrix | memcached/crc32c.c:87-93 | Builds the operator for one zero bit |
| Crc32cMatrix.PowerFloorIs | memcached/crc32c.c:79-84 | Halving a length to nothing counts out the largest power of two not above it, and one for the length zero |
| Crc32cMatrix.ZerosOp | memcached/crc32c.c:84-116 | For every length yields the operator for the largest power of two of zero bytes not above it, whichever of the two arrays the squaring ends in |
| Crc32cHw.ZerosTables | memcached/crc32c.c:120-130 | The four byte tables hold that operator applied to each byte in each position |
| Crc32cHw.Shift | memcached/crc32c.c:133-136 | Four look-ups apply the operator to any CRC |
| Crc32cHw.InitHw | memcached/crc32c.c:154-157 | The two table sets are the operators for exactly 8192 and 256 zero bytes |
| Crc32cHw.ThreeBlocks | memcached/crc32c.c:183-219 | Three interleaved CRCs joined by table shifts equal one CRC of the 3 * size bytes |
| Crc32cHw.CrcHw | memcached/crc32c.c:160-245 | Equals the bit-at-a-time CRC for every buffer, length, alignment and starting value |
| Crc32cSw.TableStep | memcached/crc32c.c:355-375 | Pushing a CRC through a zero byte is one table look-up of its low byte xor the rest |
| Crc32cSw.SliceStep | memcached/crc32c.c:391-399 | Feeding eight bytes equals the xor of eight independent look-ups |
| Crc32cSw.LittleLanes | memcached/crc32c.c:389-399 | The bytes of the little-endian 64-bit word xor the CRC are those eight indices |
| Crc32cSw.BigLanes | memcached/crc32c.c:463-473 | The same for the byte-swapped CRC and a big-endian load, in reverse |
| Crc32cSw.SwapXor | memcached/crc32c.c:417-421 | Byte swapping commutes with xor on CRC words |
| Crc32cSw.InitLittle | memcached/crc32c.c:355-375 | Table k maps each byte to its CRC contribution followed by k zero bytes |
| Crc32cSw.InitBig | memcached/crc32c.c:428-449 | The byte table, and for each k the byte-swapped contributions |
| Crc32cSw.SliceLittle | memcached/crc32c.c:391-399 | One slice-by-8 round feeds exactly its eight bytes |
| Crc32cSw.SliceBig | memcached/crc32c.c:465-473 | One big-endian round feeds exactly its eight bytes, in swapped form |
| Crc32cSw.CrcLittle | memcached/crc32c.c:379-410 | Equals the bit-at-a-time CRC for every buffer, alignment and starting value |
| Crc32cSw.CrcBig | memcached/crc32c.c:453-484 | Equals the bit-at-a-time CRC for every buffer, alignment and starting value |
| Crc32cPoly.PolyIsGenerator | memcached/crc32c.c:49 | The constant is the generator polynomial of section 12.1 of RFC 3720, highest term left out, bits reversed |
| Crc32cPoly.OneRemainder | memcached/crc32c.c:358-365 | A polynomial has only one remainder modulo the generator |
| Crc32cPoly.FeedIsRemainder | memcached/crc32c.c:358-365 | After any bytes the register holds the remainder of the message times x^32, plus what it held before moved past the message |
| Crc32cPoly.CrcIsRemainder | memcached/crc32c.c:379-410 | For every message and starting value the complement of the CRC is the remainder of the message times x^32 plus the complemented start moved past it |
| Assoc.MaskMask | memcached/assoc.c:77-82 | A narrower mask of a wider mask is the narrower mask |
| Assoc.ChainHoldsKey | memcached/assoc.c:73-97 | In any well-formed table the chain that find looks in holds the mapped item of the key and no other item with that key |
| Assoc.InsertOk | memcached/assoc.c:152-169 | Insertion anywhere in an expansion yields a well-formed table for the extended map |
| Assoc.DeleteOk | memcached/assoc.c:171-188 | Deletion anywhere in an expansion yields a well-formed table for the map without the key |
| Assoc.ExpandOk | memcached/assoc.c:121-140 | Starting an expansion leaves the map unchanged |
| Assoc.MoveOk | memcached/assoc.c:213-218 | Moving one item between tables leaves the map unchanged |
| Assoc.FinishOk | memcached/assoc.c:220-232 | Advancing the frontier past an emptied bucket, and ending the expansion, leaves the map unchanged |
| AssocTable.HashTable.constructor | memcached/assoc.c:58-71 | A new table is valid and empty |
| AssocTable.HashTable.Find | memcached/assoc.c:73-97 | Returns the map's item for the key, or null, also in the middle of an expansion |
| AssocTable.HashTable.HashitemBefore | memcached/assoc.c:102-118 | Returns the link cell that refers to the first item with the key, or the cell at the chain's end |
| AssocTable.HashTable.Insert | memcached/assoc.c:152-169 | On the linked chains, extends the map by the item and keeps the table valid |
| AssocTable.HashTable.Delete | memcached/assoc.c:171-188 | On the linked chains, removes exactly that key and clears the item's link |
| AssocTable.HashTable.Expand | memcached/assoc.c:121-140 | Keeps the map whether or not the larger table can be allocated |
| AssocTable.HashTable.MoveItem | memcached/assoc.c:213-218 | Relinks one item into the larger table without losing the rest of either chain |
| AssocTable.HashTable.MoveBucket | memcached/assoc.c:213-218 | The loop empties the old bucket into the larger table, and ends |
| AssocTable.HashTable.MigrateBucket | memcached/assoc.c:208-232 | One migrated bucket keeps the table valid and the map unchanged |
| ItemLocks.LockPower | memcached/thread.c:987-1002 | The lock table has between 2^10 and 2^15 locks for any thread count: 2^10 up to 2 threads, 2^11 for 3, 2^12 for 4, 2^13 up to 10, 2^15 above 20 |
| ItemLocks.PlaceFixesLock | memcached/thread.c:115-117 | Hash values that share a bucket in either table share an item lock |
| ItemLocks.BucketFixesLock | memcached/assoc.c:208-212 | The lock the migrating thread tries is the lock of every item in the bucket it moves |
| ItemLocks.LockedIsSettled | memcached/assoc.c:73-97 | While a worker holds the lock of a hash value, its bucket is not half migrated |
| ItemLocks.LookupIsMap | memcached/assoc.c:73-97 | Under the lock, the chain searched holds exactly the map's item for the key |
| ItemLocks.StepKeeps | memcached/assoc.c:196-263 | Each lock, unlock, insert, delete, expansion and migration step keeps the table a faithful image of the map |
| ItemLocks.RunRefinesMap | memcached/assoc.c:73-232 | Any interleaving of workers and the migrating thread refines the plain map |
| ItemLocks.StartIsOk | memcached/thread.c:1003-1011 | The configurations that start-up accepts satisfy the invariant |
| ItemLocks.EveryLookupIsRight | memcached/assoc.c:73-97 | From start-up, after any interleaving, a locked lookup sees what the sequence of inserts and deletes left under the key |
| ItemLocks.MoveSpares | memcached/assoc.c:213-218 | Moving an item changes neither bucket nor chain of a hash value with another lock |
| ItemLocks.FinishSpares | memcached/assoc.c:220-232 | Nor does advancing the frontier or ending the expansion |
| ItemLocks.Undisturbed | memcached/assoc.c:208-232 | While a worker holds a lock, no step of any other thread changes where its hash values resolve or what is on that chain |
| ItemLocks.UndisturbedRun | memcached/assoc.c:208-232 | The same for any number of such steps |
| Assoc.ExpansionDoubles | memcached/assoc.c:121-232 | An expansion migrated bucket by bucket to its end has the same items in twice as many buckets |
| ItemLocks.ExpansionEnds | memcached/assoc.c:196-263 | From any safe state at rest there is a run of the migrating thread alone that expands the table and ends with no lock held, not expanding, the same map, and twice as many buckets |
| LruList.List.constructor | memcached/items.c:55-58 | The empty list is consistent |
| LruList.List.LinkQ | memcached/items.c:406-431 | The new node is first, the others keep their order, links in both directions agree, the size grows by one |
| LruList.List.UnlinkQ | memcached/items.c:446-476 | Exactly that node goes, the others keep their order, the size shrinks by one |
| LruList.List.LinkTailQ | memcached/items.c:1731-1750 | The crawler becomes last and is not counted |
| LruList.List.UnlinkTailQ | memcached/items.c:1752-1771 | The crawler goes and the others stay; unlinking one already off the list leaves the list as it was |
| LruList.List.CrawlQ | memcached/items.c:1775-1827 | The crawler trades places with its predecessor and returns it; at the head it leaves the list and returns nothing; a crawler alone stays |
| LruList.List.Swing | memcached/items.c:1793-1822 | The relinking done by one step is exactly a swap of two neighbours |
| LruList.List.Crawl | memcached/crawler.c:444-452 | A crawl of an unchanging list sees each item once from tail to head, or with a limit n the first n - 1 of them, and leaves the list and its count as they were |
| LruList.StepOnce | memcached/items.c:1775-1827 | A step keeps each item behind the crawler seen exactly once and each item ahead not at all |
| LruList.LinkOnce | memcached/items.c:406-431 | So does linking an item during the crawl |
| LruList.UnlinkOnce | memcached/items.c:446-476 | So does unlinking one |
| LruList.RunOnce | memcached/items.c:1775-1827 | So does any interleaving of these |
| LruList.CrawlSeesAll | memcached/crawler.c:444-452 | When a crawl started at the tail reaches the head, every item then on the list was seen exactly once since it was linked, whatever was linked and unlinked meanwhile |
| LruList.OthersUndisturbed | memcached/items.c:1775-1827 | The list without its crawler is what the links and unlinks alone would have made |
| Items.LinkKeeps | memcached/items.c:484-504 | Linking keeps: linked iff hashed iff on exactly the list named by its class, and refcount equals link plus holders plus queued bumps |
| Items.DropKeeps | memcached/items.c:537-545 | Dropping a reference keeps that, and frees exactly when it was the last one, which only an unlinked item can have |
| Items.UnlinkKeeps | memcached/items.c:506-535 | Unlinking keeps it; the item is freed iff it was linked and nobody else held it |
| Items.ReleaseKeeps | memcached/items.c:537-545 | A holder letting go keeps it |
| Items.AllocateKeeps | memcached/items.c:247-346 | A new item is held by its maker and on no list |
| Items.UpdateKeeps | memcached/items.c:548-575 | Moving an item to the head of its list or of WARM keeps it, rate limit included |
| Items.ReplaceKeeps | memcached/items.c:577-584 | Replacing a linked item by another of the same key keeps it |
| Items.GetKeeps | memcached/items.c:956-1036 | A hit gives the caller one reference on the linked item of that key, a miss none; the invariant holds either way, also when the item found was flushed or expired |
| Items.BumpQueueKeeps | memcached/items.c:1290-1311 | A queued bump owns one reference; a full buffer leaves the count as it was |
| Items.BumpKeeps | memcached/items.c:1041-1066 | Bumping keeps the invariant in every LRU mode |
| Items.DrainKeeps | memcached/items.c:1319-1352 | A drained bump gives its reference back, freeing the item if it was unlinked meanwhile |
| Items.VisitKeeps | memcached/items.c:1101-1252 | One item considered by the tail walk keeps the invariant, whether skipped, unlinked, moved or evicted |
| LruPull.PullTailIsSafe | memcached/items.c:1081-1255 | A whole tail pull keeps the invariant; only items of that list change; only flushed or expired items, or items of COLD when evicting, are unlinked, and none whose lock is busy; items move only along the permitted HOT, WARM and COLD edges; at most one reference is kept |
| LruPull.WalkFates | memcached/items.c:1101-1252 | The same for the walk from any position with any number of tries |
| LruPull.KeptIsReturnedIff | memcached/items.c:1219-1252 | For the arguments of a call: in every valid cache the item whose reference is kept is the one returned, if and only if no item was asked for, or it works on COLD without evicting, or there is no such class |
| LruPull.ReturnLoses | memcached/items.c:1232-1252 | For all other arguments, the valid cache with one item on the list in question: a reference is kept on it and nothing is returned |
| TailWalk.VisitExact | memcached/items.c:1117-1230 | What a visit makes of the item it meets, in every case: passed over if locked, unlinked if expired or flushed, and else kept, rescued, moved to the right segment or evicted, with the number it adds to the count |
| TailWalk.VisitLists | memcached/items.c:1117-1252 | And of the lists: the item leaves its list, heads another or its own, or stays; every other entry of every list stays in order |
| TailWalk.WalkExact | memcached/items.c:1101-1252 | From any position with any number of tries, what the walk does to every item: nothing unless it comes to the item past entries it may pass, and then as the visit says |
| TailWalk.PullDoes | memcached/items.c:1081-1255 | Every call does exactly that, from the tail with five tries, or nothing for class 0 |
| TailWalk.PullCounts | memcached/items.c:1101-1252 | The number returned is that of the items unlinked, moved or relinked, at least that on WARM, and zero if the walk comes to a crawler that it may not pass |
| ItemStore.Store.constructor | memcached/items.c:55-63 | The empty cache satisfies the invariant |
| ItemStore.Store.Alloc | memcached/items.c:247-346 | In-place allocation has the modelled effect and keeps the invariant |
| ItemStore.Store.DoItemLink | memcached/items.c:484-504 | In-place linking has the modelled effect and keeps the invariant |
| ItemStore.Store.DoItemUnlink | memcached/items.c:506-519 | In-place unlinking has the modelled effect and keeps the invariant |
| ItemStore.Store.DoItemRemove | memcached/items.c:537-545 | In-place release has the modelled effect and keeps the invariant |
| ItemStore.Store.DropRef | memcached/items.c:348-360 | The last reference frees an item only when it is unlinked and on no list, as the source asserts |
| ItemStore.Store.DoItemUpdate | memcached/items.c:548-575 | In-place update has the modelled effect and keeps the invariant |
| ItemStore.Store.DoItemReplace | memcached/items.c:577-584 | In-place replacement has the modelled effect and keeps the invariant |
| ItemStore.Store.DoItemGet | memcached/items.c:956-1036 | In-place lookup has the modelled effect and result and keeps the invariant |
| ItemStore.Store.DoItemTouch | memcached/items.c:1068-1077 | A touch is a lookup after which the item found, and no other, has the new expiry |
| ItemStore.Store.DoItemBump | memcached/items.c:1041-1066 | In-place bump has the modelled effect and keeps the invariant |
| ItemStore.Store.LruBumpAsync | memcached/items.c:1290-1311 | Reports whether the bump was queued, and keeps the invariant either way |
| ItemStore.Store.LruMaintainerBumps | memcached/items.c:1319-1352 | The drain loops drain every buffer to its end, the first buffer first, and keep the invariant |
| ItemStore.Store.LruPullTail | memcached/items.c:1081-1255 | The scanning loop, in place, has the effect and results of the modelled walk, ends, and keeps the invariant |
| ItemRuns.EveryRunIsSafe | memcached/items.c:348-1352 | After any run from an empty cache, of worker operations, bumps, tail walks visit by visit or whole, and the crawler, each item is linked iff hashed under its key iff on exactly one list, its own, once; its refcount is exact; nothing held, queued, hashed or listed is freed |
| ItemLife.GetHitsIff | memcached/items.c:956-1036 | A lookup returns the item under the key exactly if there is one, it is not flushed, and its time of expiry, if any, has not come |
| ItemLife.HitSpares | memcached/items.c:1021-1026 | A hit leaves the table and every other item as they were, and gives the caller one reference |
| ItemLife.MissDrops | memcached/items.c:997-1020 | A dead item is unlinked and its key goes; every other key, item and reference stays |
| ItemLife.LinkedStep | memcached/items.c:484-1352 | For every event, an item is linked afterwards exactly if the event links it, or it was linked and the event does not unlink it, replace it, find it dead, or evict it |
| ItemLife.LookupFinds | memcached/items.c:956-1036 | After any run from an empty cache a lookup finds an item exactly if some event linked it, none has unlinked it since, it has that key, and it is live |
| ItemLife.SecondHitActivates | memcached/items.c:1041-1066 | With segments the first hit marks an item as fetched and the second makes it active; on COLD it is queued for that, if the queue has room |
| ItemLife.ActiveStays | memcached/items.c:1041-1066 | Further hits change nothing |
| ItemLife.HitGoesWarm | memcached/items.c:1319-1352 | A queued hit on COLD, once drained, has taken the item to the head of WARM, idle, with the references it had |
| ItemData.AllocatedIs | memcached/items.c:247-346 | A new item has the key, class, times and size asked for, one reference, and is neither linked nor fetched nor active; nothing else changes |
| ItemData.DataStep | memcached/items.c:247-1352 | For every event, an item there afterwards is the one it allocates, as asked for, or was there before with the same key, size and class; its expiry is the one the event gives it by allocating or touching it, or the one it had |
| ItemData.FoundIsMade | memcached/items.c:956-1036 | After any run from an empty cache, what a lookup finds was last allocated under the key asked for, and the expiry it was given last, then or by a touch, has not come |
| ItemData.TouchRelinksIff | memcached/items.c:566-574 | Without segments an update puts a linked item at the head of its list exactly if more than 60 seconds have passed since its time, and else changes nothing |
| ItemData.FlatHitTouches | memcached/items.c:1062-1065 | Without segments a hit is such an update, and marks the item as fetched |
| ItemData.TouchWarmsIff | memcached/items.c:547-565 | With segments an update notes the time of a linked item, and takes it to the head of WARM exactly if it is active on COLD |
| ItemOrder.StepOrdered | memcached/items.c:484-1352 | Without segments and with a clock that does not go back, every event keeps each list in the order of last use |
| ItemOrder.RunOrdered | memcached/items.c:484-1352 | The same over every run |
| ItemOrder.EvictsLeastRecent | memcached/items.c:1101-1252 | After any such run from an empty cache, if a tail pull evicts a live item, every item of its list used longer ago is locked or expired |
| ItemRuns.FreedIsUnreferenced | memcached/items.c:348-360 | An item that an event frees had exactly one reference: a holder's that it released, a queued bump's that it drained, or its link, and then a lookup, a tail walk or the crawler unlinked it; afterwards nothing refers to it |
| ItemRuns.WalkFrees | memcached/items.c:1101-1252 | A tail walk frees only linked items that nobody holds |
| ItemRuns.CrawlerLinkKeeps | memcached/items.c:1731-1750 | Putting the crawler at the tail of a list keeps the invariant of all items |
| ItemRuns.CrawlerStepKeeps | memcached/items.c:1775-1827 | So does a step of the crawler, also off the head |
| ItemRuns.CrawlerUnlinkKeeps | memcached/items.c:1752-1771 | So does taking it off |
| ItemRuns.EvalKeeps | memcached/crawler.c:182-232 | So does its verdict on an item that nobody holds, unlinking it when it is expired or flushed |
| Transmit.AddIovOk | memcached/memcached.c:1019-1026 | Adding a buffer appends its bytes to the response |
| Transmit.AddChunkedIovOk | memcached/memcached.c:1031-1035 | Adding a chunked item appends the first bytes of its chunks, joined |
| Transmit.ChunkIovs | memcached/memcached.c:2525-2550 | The chunk walk, resumed after any number of sent bytes, yields the next bytes of the value, all of them unless the vector is full |
| Transmit.RespIovs | memcached/memcached.c:2517-2562 | The vector for one response is a prefix of its unsent bytes, all of them unless the vector is full |
| Transmit.TransmitPre | memcached/memcached.c:2508-2571 | The gathered vector is a prefix of the pending bytes of the queue, fits IOV_MAX, and is empty only if nothing is pending |
| Transmit.PostResp | memcached/memcached.c:2595-2615 | A partly sent response keeps exactly its unsent bytes |
| Transmit.TransmitPost | memcached/memcached.c:2577-2625 | After any accepted byte count the queue holds exactly the bytes not yet accepted, and is empty iff there are none |
| Transmit.Conn.constructor | memcached/memcached.c:2636-2640 | A fresh connection has sent what it promised, nothing |
| Transmit.Conn.Enqueue | memcached/memcached.c:1146-1184 | A queued response promises its bytes after all earlier ones, or none if it is skipped |
| Transmit.Conn.AddIov | memcached/memcached.c:1019-1026 | Adding to the response queued last promises just those bytes more, or none if it is skipped |
| Transmit.Conn.Skip | memcached/memcached.c:1236-1241 | Marking any queued response as skipped, at any time, withdraws what is unsent of it and nothing else |
| Transmit.Conn.Transmit | memcached/memcached.c:2636-2689 | For any socket answer: what is offered is the beginning of what is pending, all of it unless the vectors run out; the socket gets exactly the bytes it says it took and they leave the queue; complete is reported exactly if the queue is empty; an error sends nothing and is soft exactly if the socket would block and the event could be registered |
| Transmit.Conn.Serve | memcached/memcached.c:2636-2689 | Over any course of queueing responses and sending, whatever the socket answers each time, what it has received followed by what is queued is the concatenation of the responses that are not skipped, in order |
| Transmit.Socket.SendMsg | memcached/memcached.c:2651-2655 | The socket takes a prefix of what it is offered and says how much |
| RespAlloc.FreeSlot | memcached/memcached.c:1048-1056 | A bundle with fewer than all slots used has a free one |
| RespAlloc.ScanMeets | memcached/memcached.c:1048-1056 | The scan that starts at the remembered slot and wraps meets every slot |
| RespAlloc.Allocator.constructor | memcached/memcached.c:1042-1046 | An allocator without bundles is valid |
| RespAlloc.Allocator.Scan | memcached/memcached.c:1047-1056 | The scan finds the free slot of an open bundle that comes first from the remembered one, going round, and never falls through |
| RespAlloc.Allocator.Allocate | memcached/memcached.c:1042-1098 | Fails only without an open bundle and memory; hands out the first free slot from the remembered one, which was not in use, and remembers the next; a bundle that is full leaves the list; counts and `response_obj_bytes` stay exact |
| RespAlloc.Allocator.Free | memcached/memcached.c:1100-1144 | Exactly that slot becomes free; a bundle is released iff it was its last slot and it is not the only open one; a bundle that was full heads the list, and otherwise the list stays; counts and `response_obj_bytes` stay exact |
| RespAlloc.Allocator.PopHead | memcached/memcached.c:1061-1070 | A bundle that became full leaves the open list, the others stay linked |
| RespAlloc.Allocator.PushHead | memcached/memcached.c:1136-1141 | A bundle that was full heads the open list again |
| RespAlloc.Allocator.DropBundle | memcached/memcached.c:1112-1128 | Unlinking and releasing a bundle from any position keeps the list and the byte count exact |
| ChunkCopy.NeededBound | memcached/memcached.c:1455-1501 | A copy of len bytes asks for at most one chunk per byte, so the loops end despite chunks of size zero |
| ChunkCopy.NeededIs | memcached/items.c:221-245 | The number of chunks a copy allocates: none if it ends inside the room there was, and otherwise one more than the rest fills |
| ChunkCopy.NewItemNeeds | memcached/memcached.c:1507-1531 | In these terms, the chunks that an append or prepend into a new item allocates |
| ChunkCopy.Item.AllocChunk | memcached/items.c:221-245 | A new chunk is at most as large as asked and as the slab class allows, or allocation fails and the item is unchanged |
| ChunkCopy.Item.CopyFlat | memcached/memcached.c:1482-1503 | Appends the source bytes to the chunked value; succeeds iff the allocator can give the exact number of chunks the copy needs, and then uses just those; an empty chunk is left at the end iff there is anything to copy and it does not end inside the old room |
| ChunkCopy.Item.CopyChunks | memcached/memcached.c:1448-1481 | The same for a chunked source, whatever the two chunk layouts |
| ChunkCopy.Item.CopyFrom | memcached/memcached.c:1437-1505 | The same for either kind of source |
| ChunkCopy.Item.CopyData | memcached/memcached.c:1507-1531 | Append and prepend leave the concatenation of the two values with the inner CRLF dropped, for any mix of chunked and flat sources, if and only if there is memory for the exact number of chunks |
| ChunkCopy.CopyFlatData | memcached/memcached.c:1514-1528 | The flat form leaves the same concatenation |
| CasStore.StepKeeps | memcached/memcached.c:1539-1698 | No two keys ever share a CAS id, no id is above the counter, and a fetched item that is still linked is what is under its key, through fetches, stores, deltas, removals, touches, stale marks and moves to external storage |
| CasStore.StepDrawsIds | memcached/items.c:484-504 | Any event after which a key has another value has given it an id above all earlier ones |
| CasStore.GoneForGood | memcached/items.c:112-117 | Once a key has left a CAS id behind it never has that id again |
| CasStore.TokenTells | memcached/memcached.c:1539-1698 | After any run a key still has the id it had iff its value and id were unchanged in every state of the run |
| CasStore.CasStoresIffUnchanged | memcached/memcached.c:1546-1601 | A cas with the id of a linked item stores, after any run, iff the key was not changed, removed or marked stale since |
| CasStore.NoIdsNoCas | memcached/memcached.c:1546-1601 | With CAS ids switched off a cas command never stores |
| CasStore.IdsGrow | memcached/items.c:112-117 | The id under a key never falls back below one it has had |
| CasStore.StaleStoresIff | memcached/memcached.c:1581-1595 | With the stale flag and a token read earlier, after any run: the store succeeds iff the key has an item, and the item is marked stale and keeps the old expiry iff the id has moved on |
| Commands.AnswerIs | memcached/memcached.c:1539-1698 | For every command, whether an item exists and which id was sent: stored, exists, not found or not stored |
| Commands.StoreDoes | memcached/memcached.c:1539-1698 | An accepted command leaves under the key the new value, or the old one with the new appended or prepended, under the next id, with the expiry due, and everything else as it was; a refused one changes nothing |
| Commands.StoredMarks | memcached/memcached.c:1581-1595 | Storing over a newer item marks the value as stale and keeps the mark that its token was sent; extending a value clears both |
| Commands.StaysStored | memcached/memcached.c:1539-1698 | Over any run in which the key is not written, its value stays |
| Commands.StoredIsRead | memcached/memcached.c:1539-1698 | What an accepted command stored is what the key has after any later run in which it is not written |
| Commands.RemoveDoes | memcached/items.c:506-519 | A removed key is gone, its holders keep an unlinked item, and every other key stays |
| Commands.TouchDoes | memcached/items.c:1068-1077 | A touch changes the expiry of that item and nothing else |
| Commands.MarkStaleDoes | memcached/proto_text.c:1664-1675 | Marking an item stale keeps its data under the next id, with the new expiry, and lets the token be sent again |
| Commands.ExportDoes | memcached/storage.c:546-558 | An item moved to external storage keeps data, id and expiry |
| Commands.DeltaAnswerIs | memcached/memcached.c:2185-2296 | For every item and request: not found, mismatched id, not a number, or done unless memory is short |
| Commands.DeltaDoes | memcached/memcached.c:2185-2296 | An answered incr or decr leaves the digits of the wrapped sum or the floored difference, over the old data and padded with blanks exactly if they fit and nobody else holds the item, under the next id with the old expiry; everything else stays |
| Commands.DeltaMarks | memcached/memcached.c:2242-2276 | An item changed in place keeps its marks; one that takes its place has none |
| HeldTokens.TokenTellsIff | memcached/proto_text.c:570-573 | For a fetched item, when its token is read: every later cas with it stores exactly if the fetched value has been current under that id all along, if and only if the id is not by then that of another value |
| HeldTokens.CrossedIff | memcached/memcached.c:2260-2275 | From the fetch to the reading of the token, after any run, moves to external storage included: the client has the old value with the id of another, linked one if and only if an incr or decr replaced the item by one of another value and nothing has changed under the key since |
| HeldTokens.FetchedTokenTellsIff | memcached/thread.c:775-784 | Altogether: the value a client fetched and the token it reads any time later make every cas right if and only if no such incr or decr came in between |
| HeldTokens.CrossedStores | memcached/memcached.c:1546-1601 | With such a pair a cas stores over the value that was never fetched for as long as that stays |
| HeldTokens.OvertakenStores | memcached/memcached.c:2260-2275 | That happens: for every number below 2^63, a run of a store, a fetch and an incr after which the client's cas stores over the new number, a different one unless the increment is a multiple of 2^64 |
| HeldTokens.KeepsValue | memcached/memcached.c:2237-2259 | The data of a fetched item never changes: an item is written in place only while nobody else holds it |
| CasStore.Store.constructor | memcached/items.c:63 | An empty store has issued no id |
| CasStore.Store.GetCasId | memcached/items.c:112-117 | Each id is one above the last |
| CasStore.Store.Link | memcached/items.c:484-504 | Linking gives the item a fresh id when ids are in use, and leaves those who hold the former one with an unlinked item |
| CasStore.Store.Unlink | memcached/items.c:506-519 | Unlinking takes the key away and leaves the holders their item |
| CasStore.Store.Fetch | memcached/thread.c:775-784 | A fetch gives the client the item itself, not a copy |
| CasStore.Store.PutHeader | memcached/storage.c:546-558 | The header that takes the place of an item written to external storage keeps its value and id, leaves those who hold the item with an unlinked one, and uses up an id |
| CasStore.Store.DoStoreItem | memcached/memcached.c:1539-1698 | For every command, the new contents, answer and returned id are those of the store's specification |
| CasStore.Store.DoAddDelta | memcached/memcached.c:2185-2296 | For every outcome, the new contents, the answer and returned id, and what holders of the item now see, are those of the specification: not found for an item that turns out flushed or expired, wrap at 2^64, no decrement below zero, in place only where the digits fit and nobody else holds the item |
| CasStore.Store.Supplant | memcached/memcached.c:2260-2275 | A new item takes the place of the old one, whose holders see the new id on it |
| Numbers.ItoaReads | memcached/util.c:49-72 | The text written for any 64-bit number, followed by a blank, reads back as that number, except one of 2^63 or more with a minus sign later in the string |
| Numbers.ReadsIff | memcached/util.c:49-72 | A text is read as a number exactly if it is blanks, perhaps a sign, and digits up to a blank or the end, of a number below 2^64, negated modulo 2^64 after a minus sign, and below 2^63 if there is a minus sign anywhere |
| Numbers.ShownIsRead | memcached/util.c:49-72 | Item data that starts with a number's digits and a blank reads as that number whatever memory follows, refused iff it is 2^63 or more and a minus sign comes before the next zero byte |
| Numbers.LargeIsRefused | memcached/util.c:58-65 | Every number of 2^63 or more, shown and followed by a minus sign, is refused |
| Counters.ResultShows | memcached/memcached.c:2242-2276 | After an answered incr or decr the item's data shows the result, whether written over the old digits and padded or in a new item |
| Counters.CounterIsExact | memcached/memcached.c:2185-2296 | Over any run in which a key sees only answered incr and decr commands, among any traffic on other keys, its data shows exactly the running result |
| Counters.IncrementsAddUp | memcached/memcached.c:2223-2233 | Increments alone add up modulo 2^64, in any order |
| Counters.DecrementsStopAtZero | memcached/memcached.c:2227-2231 | Decrements alone subtract their sum, or leave zero if that is more |
| BipBuffer.PollKeepsOkIff | memcached/bipbuffer.c:151-180 | A poll leaves the regions in order iff it takes no more than region A holds |
| BipBuffer.PollPastEndBreaksRegions | memcached/bipbuffer.c:151-180 | A poll of two bytes from a buffer holding one is accepted and leaves the regions out of order |
| BipBuffer.RequestSurvivesPush | memcached/bipbuffer.c:70-107 | After a granted request of n, pushing k leaves room for n - k even if the push switches regions |
| BipBuffer.RequestSurvivesPushes | memcached/logger.c:469-496 | The same for any sequence of pushes within the request, so a later offer cannot fail |
| BipBuffer.OutsideQueue | memcached/bipbuffer.c:77-89 | Whatever a producer writes into granted room leaves every queued byte, and so a consumer's window, as it was |
| BipBuffer.PushAppends | memcached/bipbuffer.c:91-107 | Published bytes join the end of the queue, in either region and across a switch |
| BipBuffer.Buffer.constructor | memcached/bipbuffer.c:42-56 | A new buffer is valid and empty |
| BipBuffer.Buffer.Used | memcached/bipbuffer.c:37-40 | The number of bytes waiting |
| BipBuffer.Buffer.IsEmpty | memcached/bipbuffer.c:63-66 | True exactly when nothing waits |
| BipBuffer.Buffer.Request | memcached/bipbuffer.c:77-89 | Granted exactly when the bytes fit behind the writing region |
| BipBuffer.Buffer.Push | memcached/bipbuffer.c:91-107 | Appends the bytes already in place to the queue, or changes nothing when they do not fit |
| BipBuffer.Buffer.Offer | memcached/bipbuffer.c:109-128 | Appends the caller's bytes to the queue, or changes nothing when they do not fit |
| BipBuffer.Buffer.PeekAll | memcached/bipbuffer.c:142-149 | A window on the oldest bytes of the queue, none iff it is empty |
| BipBuffer.Buffer.Peek | memcached/bipbuffer.c:130-140 | The oldest n bytes when region A holds them |
| BipBuffer.Buffer.Poll | memcached/bipbuffer.c:151-180 | Accepted exactly when something waits and the end of the buffer is not passed; removes the oldest n bytes from the queue when region A holds them; leaves the buffer valid iff it was refused or region A held them |
| BipBuffer.Fill | memcached/items.c:1290-1311 | A producer's request and push appends its bytes and leaves the consumer's peeked window untouched |
| BipBuffer.Take | memcached/items.c:1346-1348 | A consumer's poll of part of a peeked window yields the oldest bytes |
| BipBuffer.Replay | memcached/items.c:1290-1352 | Over any interleaving of producers and a consumer that polls within its last peek, the bytes accepted are the bytes taken followed by those still queued |
| Jenkins.MixUndone | memcached/jenkins_hash.c:79-87 | Every mixing step can be undone |
| Jenkins.UndoneMixes | memcached/jenkins_hash.c:79-87 | Every triple is reached by mixing: mix is a bijection |
| Jenkins.KeepIsPart | memcached/jenkins_hash.c:166-181 | The masked aligned read of a tail word contributes just the key's bytes in it |
| Jenkins.FallingIsPart | memcached/jenkins_hash.c:276-292 | So does the falling-through switch of single bytes |
| Jenkins.HalvesIsPart | memcached/jenkins_hash.c:222-250 | So does the switch over 16-bit halves |
| Jenkins.HashWords | memcached/jenkins_hash.c:137-204 | The 32-bit path hashes exactly the key's bytes, whatever lies behind them |
| Jenkins.HashHalves | memcached/jenkins_hash.c:205-251 | The 16-bit path gives the same hash |
| Jenkins.HashBytes | memcached/jenkins_hash.c:252-293 | The byte path gives the same hash |
| Jenkins.JenkinsHash | memcached/jenkins_hash.c:126-297 | A key's hash depends on its bytes alone, not on address, alignment or what follows it |
| Jenkins.KnownValues | memcached/jenkins_hash.c:126-297 | The hash of "Four score and seven years ago" is 0x17770551 and of the empty key 0xdeadbeef, as the published algorithm has it |
| Base64.SymbolValue | memcached/base64.c:53-80 | The decoding table inverts the encoding alphabet, and padding is no symbol |
| Base64.BlocksEncoded | memcached/base64.c:93-205 | Decoding the blocks of any encoding gives the bytes back |
| Base64.RoundTrip | memcached/base64.c:150-205 | Decoding the encoding of any non-empty string gives it back; of the empty string, an error |
| Base64.OverflowIsSeen | memcached/base64.c:100-104 | Whenever the computed output size wraps at 2^64 the wrap is noticed |
| Base64.AskedIsEnough | memcached/base64.c:100-104 | When the size check passes, text and terminator fit |
| Base64.Encode | memcached/base64.c:93-139 | Writes the encoding and a terminator within the buffer and nothing behind it, or fails and writes nothing |
| Base64.Count | memcached/base64.c:157-161 | Counts the symbols, skipping everything else |
| Base64.Decode | memcached/base64.c:150-205 | Writes the decoded bytes or fails, also when source and destination are one buffer, and touches nothing beyond the room given |
| Base64.AskedIs | memcached/base64.c:100-104 | Unless it wraps, the size asked for is four letters for every three bytes, one for every 72 of those, and one for the end |
| Base64Bits.SymbolIs | memcached/base64.c:53-54 | The encoding alphabet is that of table 1 of RFC 4648 |
| Base64Bits.ValueIs | memcached/base64.c:56-80 | The decoder takes exactly the letters of that alphabet, each for its place in it, and the padding sign |
| Base64Bits.EncodedIsText | memcached/base64.c:106-134 | Every string is encoded as its bits, first bit first, in groups of six, each as a letter, filled up with zero bits and padding signs |

## Left out

- Merkle tree and CMAC hooks (the ENABLE_SEVAULT blocks): their implementation is not part of this model.
- The slab allocator, slab rebalancing and the glue between items and external storage, but for the header that replaces an item: allocation is an input that may fail.
- Sockets, libevent, TLS, SASL, UDP (`one_resp`) and the protocol command handlers; a socket's answer is an input.
- Tail repair, warm restart and `set_cas_id`, which step outside the reference-count and CAS rules by design.
- Slab automove, statistics output, item size histograms and per-class counters; `cache.c`, `queue.h`, `itoa_ljust.c`, `murmur3_hash.c` and `stats_prefix.c` would only add easy members.
- Liveness, fairness and freedom from deadlock: but for the end of an expansion that is left alone (`ExpansionEnds`) only safety over all runs is proved.
- Wrap-around of page versions, CAS ids, reference counts and byte counters.
- IO errors of external storage, `extstore_check`, and the per-page and time statistics.
- ExtstoreTheorems.ReadsReturnStoredBytes: assumes a configuration that `extstore_init` accepts with positive sizes, positive versions in delete and close requests, reads inside one buffer-sized block, and reads and writes that do not fail.
- ItemLocks.RunRefinesMap: `hv & mask` is a remainder by a power of two, the table stays below 2^32 buckets, and an expansion starts only while no worker holds an item lock, as pausing all threads ensures.
- ItemRuns.EveryRunIsSafe: hash table and lists are values there; their linked forms are proved apart in AssocTable and LruList. An operation is one step because it runs under its item lock and LRU lock; a tail visit that moves an item gives up the LRU lock between the two lists, and the item, locked but on neither list meanwhile, is not a state of the model.
- ItemOrder.EvictsLeastRecent: is about servers without LRU segments and a clock that does not go back; with segments the lists are not kept in the order of last use.
- LruPull.PullTailIsSafe: which items are flushed and which item locks are busy are inputs; the slab page freed by an eviction is not modelled.
- RespAlloc.Allocator.Allocate: a bundle holds at least two slots, which the source's constant does, and the slot payload is not modelled.
- Transmit.Conn.Transmit: a chunked item holds at least the bytes promised of it, at most one per response and never first, as the response builders ensure.
- Numbers.ItoaReads: `strtoull` follows the C standard in the C locale; `itoa_u64` is its result, the decimal digits, not its table-driven code.
- Crc32cHw.CrcHw: the crc32b and crc32q instructions are the bit-at-a-time step; the ARM form and the one-time initialization guard are left out.
- Jenkins.JenkinsHash: the big-endian build is left out; memory is readable up to the next word boundary, which the aligned path relies on.
- Base64.Decode: a missing destination buffer is not modelled.
