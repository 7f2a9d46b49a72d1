# NVMac OS layer: a verified model

NVMac ports NVIDIA's open GPU kernel modules to macOS. Its `libnv-darwin` library and the
`PCIHorrorKit` DriverKit service supply the operating-system side: heap tracking, device
mappings, page tables, locks, semaphores, the clock and the service life cycle. This project
models that layer in Dafny and proves what it keeps over whole runs. `dafny verify dfyconfig.toml`
checks everything.

Four findings shape the statements below.

- **Keys lose a nibble.** `%p` text goes into an 18-byte buffer, so a 16-digit address keeps 15
  digits, although the source comment expects all 16. The model follows the code, proves exactly
  which addresses collide, and proves that the tracker is a plain address-to-size map exactly on
  address sets without collisions (16-byte aligned canonical addresses are such a set; neither
  condition alone suffices).
- **Sizes are boxed.** `OSNumber::withNumber` takes a number of bits, and the code passes
  `sizeof(NvU64)`, which is 8. All tracker theorems hold for any width `bits`: a freed block's size is
  its allocated size modulo 2^bits, so it is exact for blocks that fit. With 8 bits that is blocks
  under 256 bytes; with 64 it would be all.
- **`os_free_mem` frees before it removes the key.** In the window between, another thread may
  reuse the address; the new block first has the old block's entry, and the late removal then drops
  its own, and the block leaks for good. `getObject` returns a number that only the dictionary
  retains, and the size is read from it later: if the late removal falls between the two, `IOFree`
  is given whatever the number's memory then holds. The sizes are right exactly in the runs where no
  removal falls there, and the tracker is a plain map again, once no call is under way, exactly when
  no removal was late.
- **Status codes and holds differ.** A conditional write lock takes a read lock on DriverKit, its
  blocking acquires drop the error a thread gets for locking against itself, the kernel's
  conditional acquires ignore the answer, the conditional mutex acquire tests it the wrong way
  round, and releasing a semaphore waits on it. One machine covers the three locks; each law is
  given with the exact calls under which it holds.

## How it is organised

| file | models |
|---|---|
| NvTypes.dfy | status codes, widths, arithmetic helpers |
| PointerKey.dfy | printed-pointer keys |
| AllocTracker.dfy | `os_alloc_mem`, `os_free_mem`, `nvlink_malloc`, `nvlink_free`, one call at a time |
| AllocInterleaving.dfy | the same calls as atomic steps of many threads, with `getObject` and the read of its number apart |
| BarTable.dfy | BAR table fill and search |
| MapRegistry.dfy | `os_map_kernel_space`, `os_unmap_kernel_space` on both platforms |
| PageMask.dfy | page size, mask and shift; DMA mask |
| Pages.dfy | `nv_alloc_pages` and the kernel and user mappings (DriverKit) |
| Locks.dfy | reader/writer locks and the mutex, both platforms |
| Semaphore.dfy | the semaphore wrappers |
| Lifecycle.dfy | `init`, `Start`, `Stop`, `free` |
| Clock.dfy | `os_get_current_time` |
| StringCopy.dfy | `os_string_copy` |

Foreign calls are parameters or small models. `IOMallocZero` returns null or a block apart from all
live ones; each dictionary call is atomic; `setObject` retains the new value and releases the one it
replaces; a created buffer has the length asked for; lock primitives have the standard reader/writer
rules and do not check who unlocks, and a blocking pthread acquire that the thread's own hold bars
returns EDEADLK, if it returns; a wait returns once it can. Clock readings are taken to be
nanoseconds, as DriverKit's are; the kernel build reads ticks, for which Clock.dfy says when that is
right. A handle names its primitive, although the code passes a semaphore's address where its value
is meant and never stores the new mutex. LP64 is assumed, and `%p` prints `0x` and minimal lower-case
hexadecimal. Shared state that the code updates in place is a class, and each method's contract ties
its new state to a step function; the theorems are about runs of those steps.

## Model

| member | source | states |
|---|---|---|
| PointerKey.ParseHex | Support/libnv-darwin/libc.cpp:24-29 | printed hexadecimal text determines the number |
| PointerKey.HexIsMinimal | Support/libnv-darwin/libc.cpp:24-29 | only the null pointer's text starts with a zero digit |
| PointerKey.HexLength | Support/libnv-darwin/libc.cpp:24-27 | the text has at most k digits exactly when the address is below 16^k |
| PointerKey.KeyKeepsAllButSixteenthDigit | Support/libnv-darwin/libc.cpp:27-29 | the key is the full text of the address, or of the address without its last nibble from 2^60 on |
| PointerKey.KeyText | Support/libnv-darwin/libc.cpp:24-32 | the key character by character: `0x`, then as many lower-case digits as the kept address has, each the digit of its place |
| PointerKey.KeyCollision | Support/libnv-darwin/libc.cpp:27-32 | two 64-bit addresses share a key iff equal, or both from 2^60 on with equal quotients by 16, or one from 2^60 on and the other its quotient |
| PointerKey.NullKeyIsUnique | Support/libnv-darwin/libc.cpp:47-54 | no other address has the null pointer's key, because every other text starts with another digit |
| PointerKey.InjectiveOnCanonicalAligned | Support/libnv-darwin/memory_driverkit.cpp:105-110 | keys are injective on 16-byte aligned canonical addresses |
| PointerKey.InjectiveBelow60Bits | Support/libnv-darwin/libc.cpp:27-32 | keys are injective below 2^60 |
| PointerKey.BothConditionsNeeded | Support/libnv-darwin/libc.cpp:27-32 | keys are not injective on all aligned addresses, nor on all canonical ones |
| AllocTracker.Allocations.OsAllocMem | Support/libnv-darwin/libc.cpp:17-43 | on success the block is live, NV_OK is returned, the out-parameter written, and, if key, number and entry could be made, the size modulo 2^bits recorded under its key; on a null block nothing changes and NV_ERR_NO_MEMORY is returned |
| AllocTracker.Allocations.OsFreeMem | Support/libnv-darwin/libc.cpp:45-67 | an untracked key, or one that could not be made, changes nothing; a tracked one frees with the stored size and removes the entry |
| AllocTracker.Allocations.NvlinkMalloc | Support/libnv-darwin/nvlink.cpp:56-60 | acts as os_alloc_mem and returns the block, or the uninitialised local when there is none |
| AllocTracker.Allocations.NvlinkFree | Support/libnv-darwin/nvlink.cpp:62-64 | acts as os_free_mem |
| AllocTracker.LookupAgrees | Support/libnv-darwin/libc.cpp:51-59 | a lookup finds a key iff the address is live, and then its boxed size; freeing a dead address changes nothing |
| AllocTracker.TrackerRefinesPlainMap | Support/libnv-darwin/libc.cpp:17-67 | over every run, with any pointers freed and addresses reused, the dictionary says what the plain address-to-size map says and every IOFree hits a live block with its boxed size |
| AllocTracker.RefinesIffInjective | Support/libnv-darwin/libc.cpp:17-67 | every run over a set of addresses refines the plain map iff no two of those addresses share a key |
| AllocTracker.CollisionBreaksRefinement | Support/libnv-darwin/libc.cpp:27-37 | for any two addresses with one key, allocating both and freeing one leaves the other live and untracked |
| AllocTracker.StrandedIff | Support/libnv-darwin/libc.cpp:32-42 | over every run in which any call may fail to make its key, number or entry, a block is live without an entry iff some call handed it out unrecorded, so no later free reaches it; the other blocks keep right entries |
| AllocTracker.RefinesIffRecorded | Support/libnv-darwin/libc.cpp:32-42 | after such a run the tracker refines the plain map iff no call handed out a block unrecorded |
| AllocTracker.FreedSizesExactIff | Support/libnv-darwin/libc.cpp:34-63 | with the width the code passes, IOFree gets the block's size iff it is below 256; with 64 bits always |
| AllocTracker.FreedSizesAreRemainders | Support/libnv-darwin/libc.cpp:34-63 | over every run IOFree is told the remainder of the block's size by 2^bits, by 256 with the width the code passes |
| AllocTracker.SizeLost | Support/libnv-darwin/libc.cpp:34-63 | with the width the code passes, allocating 256 bytes and freeing them hands IOFree the size 0 |
| AllocTracker.BoxedBytesConserved | Support/libnv-darwin/libc.cpp:17-67 | over every run mixing the four calls, tracked bytes plus freed bytes equal the boxed bytes allocated |
| AllocTracker.BytesConservedIff | Support/libnv-darwin/nvlink.cpp:56-64 | tracked bytes equal bytes allocated minus the bytes IOFree was told iff every size of the run fits the width |
| AllocTracker.LiveBytesConserved | Support/libnv-darwin/libc.cpp:17-67 | over every run live bytes plus the bytes of the blocks freed equal the bytes allocated |
| AllocTracker.TrackedIsLiveIff | Support/libnv-darwin/libc.cpp:34-37 | tracked sizes add up to the live sizes iff every live block fits the width |
| AllocTracker.TrackedBytesIff | Support/libnv-darwin/libc.cpp:17-67 | over every run tracked bytes equal bytes allocated minus the bytes of the blocks freed iff every live block fits the width |
| AllocInterleaving.InvOverRuns | Support/libnv-darwin/libc.cpp:17-67 | from any good state, every interleaving keeps ownership, live blocks under every IOFree, correct entries for blocks past their setObject, and no stray key |
| AllocInterleaving.EntryOfLiveBlock | Support/libnv-darwin/libc.cpp:33-37 | in a good state the entry of a live block is absent or correct unless the block is still being allocated, and then a free at its address has yet to remove it |
| AllocInterleaving.EveryInterleaving | Support/libnv-darwin/libc.cpp:17-67 | in every interleaving each IOFree hits a live block; the entry of every live block is absent or correct, or the block is still being allocated and a removal at its address is pending |
| AllocInterleaving.FoundNumberStays | Support/libnv-darwin/libc.cpp:51-65 | between a thread's getObject and its read, only a removeObject of the key takes the number away, and nothing replaces it |
| AllocInterleaving.SizesSafeIff | Support/libnv-darwin/libc.cpp:51-63 | the sizes passed to IOFree are the boxed sizes in every state, whatever removed numbers read as, iff no step reads a number after its removal |
| AllocInterleaving.LateReadIffCut | Support/libnv-darwin/libc.cpp:51-65 | after every run a thread about to read would read a removed number iff a removeObject of the key fell between its getObject and now |
| AllocInterleaving.SizesSafeIffNoReadIsCut | Support/libnv-darwin/libc.cpp:51-65 | from the start, the sizes are right whatever removed numbers read as iff no removeObject of a key falls between a thread's getObject of it and its read |
| AllocInterleaving.FreedSizesWithoutLateRead | Support/libnv-darwin/libc.cpp:34-63 | in such runs every IOFree gets the remainder by 2^bits of the size of the live block it frees, exact iff the size fits |
| AllocInterleaving.AtomicLookupsAreSafe | Support/libnv-darwin/libc.cpp:51-62 | were each getObject followed at once by its read, every run would be such a run |
| AllocInterleaving.JunkSizeRun | Support/libnv-darwin/libc.cpp:51-65 | for every address, any two threads and any number, some run hands IOFree that number for the second thread's block |
| AllocInterleaving.StaleEntryRun | Support/libnv-darwin/libc.cpp:18-37 | a run after which a block being allocated has the entry of the block before it, of another size |
| AllocInterleaving.LiveEntriesThroughoutIff | Support/libnv-darwin/libc.cpp:17-67 | the entry of every live block, blocks being allocated included, is absent or correct in every state iff no allocation gets an address that has an entry of another size |
| AllocInterleaving.StaleReuseIsPendingReuse | Support/libnv-darwin/libc.cpp:63-65 | such an address is one whose removal is pending |
| AllocInterleaving.EntryLostIff | Support/libnv-darwin/libc.cpp:63-65 | a step drops the entry of a block that stays live, wherever it is, iff it is a removeObject whose thread freed an earlier block at that address |
| AllocInterleaving.TrackedThroughoutIff | Support/libnv-darwin/libc.cpp:53-65 | every owned block is tracked in every state of a run iff no step is a late removeObject |
| AllocInterleaving.NoReuseNothingLate | Support/libnv-darwin/libc.cpp:63-65 | if no block is handed out at an address with a removal pending, no removal and no read is late |
| AllocInterleaving.QuiescentRefinesIff | Support/libnv-darwin/libc.cpp:17-67 | after every run that leaves no thread inside a call, the tracker refines the plain map iff no removal was late; then the live blocks are exactly the owned ones |
| AllocInterleaving.LostIsPermanent | Support/libnv-darwin/libc.cpp:51-65 | a block that lost its entry, owned or not, is freed by no continuation of any run |
| AllocInterleaving.MissesIffHit | Support/libnv-darwin/libc.cpp:53-65 | after every run a free of an owned block misses its entry iff a late removal hit the block |
| AllocInterleaving.NoLeakThroughoutIff | Support/libnv-darwin/libc.cpp:53-59 | every live block is owned or inside a call in every state of a run iff no free misses its entry |
| AllocInterleaving.WindowLeaks | Support/libnv-darwin/libc.cpp:51-66 | for every address and any two threads some run ends with a live block that nobody owns and no entry |
| AllocInterleaving.LeakIsPermanent | Support/libnv-darwin/libc.cpp:51-59 | no continuation of a run ever frees a leaked block |
| AllocInterleaving.UninterruptedAlloc | Support/libnv-darwin/libc.cpp:17-43 | the steps of an allocation without interruption are the sequential call, failed allocations included, and give the block to the caller |
| AllocInterleaving.UninterruptedFree | Support/libnv-darwin/libc.cpp:45-67 | the steps of a free without interruption are the sequential call, whatever removed numbers read as, and take the block from the caller |
| AllocInterleaving.AllocationFinishes | Support/libnv-darwin/libc.cpp:32-42 | from any state an allocation under way can be finished by its thread alone, and sets the key of its block and nothing else |
| AllocInterleaving.FreeFinishes | Support/libnv-darwin/libc.cpp:61-66 | from any state a free under way can be finished by its thread alone: the block goes with the size read, and the key goes, whoever's entry it is by then |
| BarTable.FillBars | PCIHorrorKit/PCIHorrorKit.cpp:136-173 | slot j gets BAR j's offset and size and the value of register 0x14 for BAR 1, 0x18 for BAR 2 and 0x10 for any other; slots beyond the configured BARs are untouched |
| BarTable.FindBar | Support/libnv-darwin/memory_driverkit.cpp:64-76 | the least slot with the address, or 0xFF iff there is none |
| BarTable.FillThenFind | PCIHorrorKit/PCIHorrorKit.cpp:136-173 | looking up a filled slot's address finds the least slot with that address; it is that slot iff the slot is one of the first three and no earlier register holds the address |
| MapRegistry.MappedMemory.SetObject | Support/libnv-darwin/memory_driverkit.cpp:113 | the new value gains a reference, the replaced one loses one |
| MapRegistry.MappedMemory.OsMapKernelSpace | Support/libnv-darwin/memory_driverkit.cpp:52-120 | maps the memory whose index is the BAR's slot; each exit: no BAR or no descriptor changes nothing, no mapping leaves a released descriptor, success registers the mapping with one reference |
| MapRegistry.MappedMemory.KernelMapKernelSpace | Support/libnv-darwin/memory_kernel.cpp:25-83 | maps the memory whose index is the BAR's slot and registers it under its physical address; no BAR or an unlisted cache mode changes nothing |
| MapRegistry.MappedMemory.OsUnmapKernelSpace | Support/libnv-darwin/memory_driverkit.cpp:122-141 | removes the entry and its reference; an unknown address changes nothing |
| MapRegistry.RegisterEffect | Support/libnv-darwin/memory_driverkit.cpp:108-116 | registering puts a new mapping with one reference under the address's key; the mapping it replaces loses its reference, every other entry and mapping stays |
| MapRegistry.UnregisterEffect | Support/libnv-darwin/memory_driverkit.cpp:122-141 | unregistering takes the key and its mapping's reference; every other entry and mapping stays |
| MapRegistry.ReferencesOverRuns | Support/libnv-darwin/memory_driverkit.cpp:52-141 | over every run with every failure exit a registered mapping has one reference, any other none, and no descriptor has any |
| MapRegistry.RefsAreEntries | Support/libnv-darwin/memory_driverkit.cpp:108-116 | the references at an address are its entry's one, or none |
| MapRegistry.BackedThroughoutIff | Support/libnv-darwin/memory_kernel.cpp:66-104 | references match the callers' outstanding maps in every state iff no address is mapped twice without an unmap between |
| MapRegistry.DriverKitAlwaysBacked | Support/libnv-darwin/memory_driverkit.cpp:103-141 | keyed by the mapping's own address they match in every state of every run |
| MapRegistry.RepeatedMapsCollapse | Support/libnv-darwin/memory_kernel.cpp:66-104 | n maps of one BAR leave n outstanding maps on one reference, which a single unmap takes |
| PageMask.AndLowMask | Support/libnv-darwin/memory.cpp:96-101 | and with 2^k - 1 is the remainder modulo 2^k |
| PageMask.AndMiddleMask | Support/libnv-darwin/memory_driverkit.cpp:47-48 | and with 2^n - 2^k is the difference of the two remainders |
| PageMask.AndBits | Support/libnv-darwin/memory_driverkit.cpp:47-48 | every bit of the and is set iff both operands have it |
| PageMask.ShiftOfPowerOfTwo | Support/libnv-darwin/memory_driverkit.cpp:49-50 | os_page_shift of page size 2^k is k |
| PageMask.MaskValues | Support/libnv-darwin/memory_driverkit.cpp:47-50 | for any page size the shift is the power of two in it, DriverKit's mask 2^32 less it, the kernel's one less than it |
| PageMask.PageMaskKeeps | Support/libnv-darwin/memory_driverkit.cpp:47-50 | for page size 2^k DriverKit's mask keeps (a mod 2^32) - (a mod 2^k), the kernel's keeps a mod 2^k |
| PageMask.PageMaskAgreesIff | Support/libnv-darwin/memory_kernel.cpp:21-23 | DriverKit's mask is shifting down and up, and the two platforms' masks part a word, iff the word fits 32 bits |
| PageMask.DarwinState.NvSetDmaAddressSize | Support/libnv-darwin/memory.cpp:96-103 | the mask stored is 2^bits - 1, and and with it is the remainder modulo 2^bits, for every address |
| Pages.NvAllocPages | Support/libnv-darwin/memory_driverkit.cpp:155-213 | the three exits; the length asked for, which is the 64-bit product below 1 GiB and (page_count mod 4) GiB from there; and the table written in either form, with nothing else changed |
| Pages.LargeLength | Support/libnv-darwin/memory_driverkit.cpp:172-175 | from 1 GiB on the length is (page_count mod 4) GiB |
| Pages.AllInsideIff | Support/libnv-darwin/memory_driverkit.cpp:200-207 | for every count, size and length all described pages lie in the buffer iff the true product is at most the length |
| Pages.DescribedPagesInsideIff | Support/libnv-darwin/memory_driverkit.cpp:159-207 | with the length asked for: always below 1 GiB, iff count * size <= (count mod 4) GiB from there, never when the product wraps to a small one |
| Pages.FourLargePagesOutside | Support/libnv-darwin/memory_driverkit.cpp:172-207 | four pages of 256 MiB get length 0 and all lie outside |
| Pages.SmallTablesTile | Support/libnv-darwin/memory_driverkit.cpp:200-207 | below 1 GiB each byte of the buffer lies in exactly one page |
| Pages.ContiguousDescribesSamePages | Support/libnv-darwin/memory_driverkit.cpp:200-207 | stepping from the contiguous entry gives the non-contiguous table, for every count and size |
| Pages.NvAllocUserMapping | Support/libnv-darwin/memory_driverkit.cpp:245-264 | the user mapping is the kernel mapping's address, base + index * page size + offset modulo 2^64 |
| Pages.MappingIsOffset | Support/libnv-darwin/memory_driverkit.cpp:224-237 | the kernel mapping, wrapped at each step, is base + index * page size + offset modulo 2^64 |
| Pages.MappingAgreesWithTable | Support/libnv-darwin/memory_driverkit.cpp:224-237 | when the page is k OS pages, OS page j at offset o is in entry j / k at its (j mod k)-th OS page |
| Pages.MappedSpanInside | Support/libnv-darwin/memory_driverkit.cpp:224-237 | a span inside the buffer is mapped inside the buffer |
| Pages.IndexUnitsAgreeIff | Support/libnv-darwin/memory_driverkit.cpp:204-235 | mapping page i reaches table entry i for every i iff there is at most one entry or both page sizes are equal |
| Locks.OsCondAcquireRwlockRead | Support/libnv-darwin/libc_driverkit.cpp:85-92 | without a writer NV_OK and one more reader, otherwise NV_ERR_TIMEOUT_RETRY and no change |
| Locks.OsCondAcquireRwlockWrite | Support/libnv-darwin/libc_driverkit.cpp:94-101 | without a writer NV_OK and one more reader, not a writer, otherwise NV_ERR_TIMEOUT_RETRY and no change |
| Locks.KernelCondAcquireRwlock | Support/libnv-darwin/libc_kernel.cpp:91-99 | always NV_OK, with the hold taken only when the primitive allows it |
| Locks.OsCondAcquireMutex | Support/libnv-darwin/libc_driverkit.cpp:50-57 | on a free mutex it is taken and NV_ERR_TIMEOUT_RETRY returned, otherwise NV_OK and no change |
| Locks.OsAcquireRwlock | Support/libnv-darwin/libc_driverkit.cpp:75-83 | a blocking acquire takes the mode asked for, or, where the thread's own hold bars it, takes nothing; NV_OK either way |
| Locks.OsAcquire | Support/libnv-darwin/libc_kernel.cpp:53-89 | the kernel's blocking acquires and the mutex's take the mode asked for |
| Locks.OsRelease | Support/libnv-darwin/libc_driverkit.cpp:59-109 | a release gives back the caller's writer hold, else its reader hold, else possibly another thread's |
| Locks.DishonestCalls | Support/libnv-darwin/libc_kernel.cpp:58-99 | for each lock, exactly the guards under which a status differs from the hold taken |
| Locks.PrimitiveExcludes | Support/libnv-darwin/libc_driverkit.cpp:75-109 | over every run the primitive has at most one writer and no reader beside it |
| Locks.FaithfulThroughoutIff | Support/libnv-darwin/libc_driverkit.cpp:75-109 | for each lock, callers hold what they believe in every state of a run iff no step meets its guard: a DriverKit conditional write without a writer, or blocking acquire that the thread's own hold bars, a kernel conditional acquire that cannot be taken, any conditional mutex acquire; then the beliefs exclude too |
| Locks.WithoutCondWriteFaithfulIff | Support/libnv-darwin/libc_driverkit.cpp:75-92 | DriverKit runs without conditional writes are faithful, and then exclusive, iff no thread acquires against its own hold |
| Locks.EveryoneWrites | Support/libnv-darwin/libc_driverkit.cpp:94-101 | any number of callers of the conditional write come to believe they write at once, each holding shared |
| Locks.BalancedThroughoutIff | Support/libnv-darwin/libc_driverkit.cpp:75-109 | in every state of a DriverKit run each thread holds as often as it believes iff no thread acquires against its own hold |
| Locks.DriverKitHoldsAreBelieved | Support/libnv-darwin/libc_driverkit.cpp:75-109 | over every DriverKit run no thread holds more often than it believes; an unclaimed lock is free |
| Locks.WriterAcquiresAgain | Support/libnv-darwin/libc_driverkit.cpp:75-109 | a run in which a writer acquires for reading, gives that back, and a second writer joins it |
| Locks.ReaderToldItWrites | Support/libnv-darwin/libc_driverkit.cpp:75-83 | a run in which a reader acquires for writing, is told it has the lock, and still only reads |
| Locks.KernelHoldsAreBelieved | Support/libnv-darwin/libc_kernel.cpp:81-107 | over every kernel run each hold granted is one its thread believes; an unclaimed lock is free |
| Locks.HoldLostIff | Support/libnv-darwin/libc_kernel.cpp:101-107 | a thread loses a hold iff it releases, or a thread without a hold releases and hits it |
| Locks.KernelTwoWriters | Support/libnv-darwin/libc_kernel.cpp:96-99 | two conditional writes by different threads leave both believing they write |
| Locks.KernelReaderJoined | Support/libnv-darwin/libc_kernel.cpp:81-107 | a run in which a reader's hold is given back by a refused writer and a writer joins it |
| Locks.MutexConfusion | Support/libnv-darwin/libc_kernel.cpp:58-65 | two conditional acquires leave one thread holding unawares and the other believing |
| Semaphore.OsAcquireSemaphore | Support/libnv-darwin/libc.cpp:139-142 | a completed acquire uses one unit of the count |
| Semaphore.OsCondAcquireSemaphore | Support/libnv-darwin/libc.cpp:144-168 | NV_OK iff a unit was taken, retry iff there was none, generic on another error |
| Semaphore.OsReleaseSemaphore | Support/libnv-darwin/libc.cpp:170-173 | a completed release also uses one unit |
| Semaphore.CountLaw | Support/libnv-darwin/libc.cpp:113-173 | over every run count = initial - acquires - releases, so at most initial of them complete; with a signal count = initial + releases - acquires |
| Semaphore.BlockingRunIff | Support/libnv-darwin/libc.cpp:139-173 | blocking acquires and releases in any order all complete iff there are no more than the initial count |
| Semaphore.RoundsIff | Support/libnv-darwin/libc.cpp:139-173 | n acquire/release rounds complete iff 2n <= initial; with a signal iff n = 0 or initial > 0 |
| Lifecycle.PciHorrorKit.Init | PCIHorrorKit/PCIHorrorKit.cpp:22-35 | allocates state with a null device and touches nothing else, or reports false and changes nothing |
| Lifecycle.PciHorrorKit.Free | PCIHorrorKit/PCIHorrorKit.cpp:37-42 | faults iff there is no state, as after a failed init; otherwise releases the device in the field, if any; no state is left |
| Lifecycle.PciHorrorKit.Start | PCIHorrorKit/PCIHorrorKit.cpp:44-116 | each failure stops the service; success opens, records and retains the device |
| Lifecycle.PciHorrorKit.Stop | PCIHorrorKit/PCIHorrorKit.cpp:192-208 | closes the device in the field and clears the field, without a release |
| Lifecycle.StateLedger | PCIHorrorKit/PCIHorrorKit.cpp:22-42 | over every run the state is there iff one more init succeeded than free was called |
| Lifecycle.AfterFree | PCIHorrorKit/PCIHorrorKit.cpp:22-42 | after free, and after a failed init, only init can be called: a second free, a Start or a Stop faults |
| Lifecycle.SyncThroughoutIff | PCIHorrorKit/PCIHorrorKit.cpp:22-208 | at every call boundary the field names exactly the open device iff no call starts a second device or frees with one in the field |
| Lifecycle.FreeLeavesOpen | PCIHorrorKit/PCIHorrorKit.cpp:37-116 | init, Start, free leaves the device open with no field |
| Lifecycle.SecondStartLeavesOpen | PCIHorrorKit/PCIHorrorKit.cpp:77-116 | a Start on a second device leaves both open and names the second |
| Lifecycle.RetainLedger | PCIHorrorKit/PCIHorrorKit.cpp:37-116 | over every run retains = starts that reached the retain - frees that saw the device = closes + replacements + the one in the field |
| Lifecycle.NeverBothClosedAndReleased | PCIHorrorKit/PCIHorrorKit.cpp:37-208 | no run both closes a started device and drops all its retains |
| Lifecycle.RoundsLeaveRetains | PCIHorrorKit/PCIHorrorKit.cpp:37-208 | n Start/Stop rounds then free leave n retains |
| Clock.OsGetCurrentTime | Support/libnv-darwin/os.cpp:133-140 | the two words are the whole seconds and the whole microseconds modulo 2^32, and the pair decodes to the microseconds modulo 2^32 seconds |
| Clock.DecodeIsMicroseconds | Support/libnv-darwin/os.cpp:133-140 | the part added to the seconds is below one second, for every reading |
| Clock.RecoversIff | Support/libnv-darwin/os.cpp:133-140 | no microsecond is lost iff the uptime is below 2^32 seconds |
| Clock.DecodedTimeMonotone | Support/libnv-darwin/os.cpp:133-140 | below that, decoded time is monotone |
| Clock.TicksDecodeToUptimeIff | Support/libnv-darwin/os.cpp:127-140 | when the reading is in ticks, the pair decodes to the uptime for all readings below 2^32 seconds iff a tick is a nanosecond |
| StringCopy.Strlcpy | Support/libnv-darwin/libc.cpp:86 | stores a prefix and a terminator within the size, nothing for size 0 |
| StringCopy.OsStringCopy | Support/libnv-darwin/libc.cpp:83-88 | the buffer then holds the longest prefix of the source that is shorter than the old string, nothing for an empty old string; nothing from the old terminator on is written |
| StringCopy.CopiesAllIff | Support/libnv-darwin/libc.cpp:83-88 | the whole source arrives iff it is shorter than the old string, or empty |
| StringCopy.EndsEmptyIff | Support/libnv-darwin/libc.cpp:83-88 | copies into one buffer end empty iff there are at least as many as characters, or some source is too short for those that follow |

## Left out

- Pages.NvAllocPages: the non-contiguous loop is stated for page counts below 2^31, since its signed counter overflows beyond; zeroing of the buffer and the cache type are not modelled.
- PageMask.DarwinState.NvSetDmaAddressSize: stated for fewer than 64 bits, where the C++ shift is defined.
- MapRegistry.MappedMemory.KernelMapKernelSpace: the kernel's mapDeviceMemoryWithRegister is taken to return a mapping, because the code uses it without a null check.
- Locks.OsAcquire: a kernel or mutex acquire by a thread that already holds the lock does not complete, so it is in no run.
- AllocInterleaving.EveryInterleaving: keys, numbers and entries can always be made there; what follows when one cannot is proved for one call at a time.
- The mapping options that os_map_kernel_space chooses from the cache mode, a table of constants; of the modes only the refused ones are modelled.
- Lock and semaphore creation and destruction, and spinlocks, which only lock and unlock.
- Semaphore initial values of 2^31 and above, which become negative when passed on.
- Kernel nv_alloc_pages, nv_free_pages and the kernel page mappings: the segments depend on DMA command behaviour that the repository does not show, the mappings read a pairing as a descriptor, and the release paths would add an easy ledger.
- Lifecycle: a second init before free, Start or Stop without a successful init, what follows a fault, the PCI command register, and the RM calls made by Start.
- NVMacRM/NVMacRMService.cpp, which repeats the DriverKit life cycle for the kernel extension.
- NV_GPU_NUM_BARS, NVRM_PCICFG_NUM_BARS and the recorded BAR offsets come from headers that are not part of this model; the BAR theorems hold for all values up to 255 slots.
- Support/libspdm-polyfill, acpi, power, firmware, PCI configuration access, logging, sleeps and the application: constants, stubs or direct library calls.
