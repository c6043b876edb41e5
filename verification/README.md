# Beaver OS: models and proofs

This project models the parts of the Beaver OS kernel and loader that are hardest to get right,
and proves what they promise. `dafny verify dfyconfig.toml` checks all of it.

Five systems are modelled, each in the form its code has: objects that change step by step are
classes with the fields of the original, loops are loops, and macros that only compute are
functions.

**The heap allocator** (`src/memory/dlmalloc.c`, with `src/include/memory/dlmalloc_config.h`: 16-byte
alignment, `sbrk` only, no mmap, no locks). `DlMalloc.MallocState` works on a sequence of memory
words, as the original works on memory: chunk heads and feet, the links of 32 small bins and 32
bitwise tries, the designated victim and top are words that the operations overwrite one by one.
Three ghost maps say what the words mean: which chunks there are (`ch`), which of them are in small
bins (`sn`), and which in tries (`tn`). `Heap.Ok` is the invariant: the chunks tile the segment from
base to top, heads and feet agree with them, each free chunk except top is in exactly one place, the
one for its size, and each bitmap bit says whether its bin is empty. `Layout.Coalesced` adds that no two free chunks are adjacent.
Loose chunks are those that are in no place while an operation works on them.
The proof has these layers: bit arithmetic of the bin indices and maps (`Words`, `BinIndex`, `BinMap`); the
tries (`TreeBins`, `TreeInsert`, `TreeUnlink`, `TreeSearch`) and the small bins (`SmallBins`); the
tiling and its tags (`Layout`); the whole state (`Heap`); one lemma for every split and merge of chunks
(`Carving`) with its uses (`ChunkMoves`, `Merging`, `Segment`, `Reshaping`); what requests ask for and
get (`Requests`, `Fitting`, `Results`, `Alignment`, `Payload`); the operations (`DlMalloc`); the DEBUG
checkers of the original, shown to accept every state (`Checkers`); and the refinement of a map from
addresses to byte strings by every program of calls and stores (`Client`).

**The page tables** (`src/loader/paging.c`, `src/loader/elf64.c`, `src/memory/mapper.c`,
`src/memory/memory.c`). Physical memory is a sequence of frames that hold tables, bytes, or the header of a block of
free frames. `Paging.Walk` is the translation of section 5.3 of the AMD64 Architecture Programmer's
Manual, Volume 2, and the reference for everything else. The loader (`LoaderPaging`, `IdentityPaging`,
`ElfLoading`) builds the tables; the kernel (`KernelMapper`) reaches them, and the list of free frames
inside the free frames, only through a window that it moves by rewriting four entries of the leaf
table the loader handed over; `BootPaging` puts the two together, from an empty tree of tables to a kernel
that reads its segments; `ProgramBreak` is `sbrk` on top.

**Heap, scheduler, mutex and queue** (`src/data/heap.c`, `src/sched.c`, `src/mutex.c`,
`src/data/queue.c`). `MinHeaps.MinHeap` is the array heap with its unusual root; `Scheduler.Processor` the
scheduler of one processor, where a context switch copies a frame, and `Scheduler.Machine` the value of its
variables, on which runs are stated; `Queues.Queue` the linked list; `Mutex` a
state machine in which the statements of any number of tasks mix in any order.

**64-bit division** (`src/loader/divdi3.c`) in `Division`, and **the formatted printer**
(`src/io/printf.c`) in `Numerals`, `Formats` and `Printf`; `Conformance` holds the text that the C standard asks for,
and when the printer writes it.

`Arith` holds facts about division used in several places.

## What the code does not do

Some properties one would expect do not hold of the code. The model keeps the code as it is, and states
exactly when the property holds.

- `compute_tree_index` cuts the shifted size to 32 bits, so that from 2^40 on the index can be wrong
  (`BinIndex.TreeIndexRightIff`, `BinIndex.TreeIndexTruncates`). No chunk is that large, since the heap lies below its
  limit, and requests of that size are shown to be served correctly all the same.
- The comment at `src/memory/dlmalloc.c:3127-3129` promises a small request a chunk that leaves no remainder, if there is one. The code looks for it in
  two bins that are 8 bytes apart, of which the second is always empty (`Fitting.NextBinIsEmpty`), and takes the designated victim before a chunk that is 16 bytes
  larger than needed: `Fitting.RemainderlessIff` says when it keeps to the comment.
- The loop of `internal_memalign` that rounds the alignment does not end for alignments above 2^63 that
  are not powers of two (`Alignment.RoundingEnds`).
- `__moddi3` gives the remainder the sign of the quotient, not that of the dividend
  (`Division.Mod`, `Division.WrongSign`); `__divdi3` overflows for one pair of operands (`Division.Div`).
- `compare_tasks` cuts the difference of two times to an `int`, so that for different times its
  sign is right in both directions exactly if their distance modulo 2^32 is in 1..2^31 - 1 (`Scheduler.CompareSign`); three times can be before each
  other in a circle (`Scheduler.TimesInACircle`). Times less than 2^31 apart are ordered (`Scheduler.NarrowOrders`).
- The time of the boot task is the whole time-stamp counter. If that is 2^31 modulo 2^32 and two tasks or more were
  started, the first switch leaves an array that is no heap; otherwise the invariant holds after it (`Scheduler.FirstSwitch`).
- A frozen task stays in the queue, and a switch drops it when its turn comes before the mutex is unlocked: exactly
  then it is lost to the scheduler (`Scheduler.WakeAfterRun`), for ever (`Scheduler.LostForever`). A switch drops
  it if it has used less time than the task that goes on, and not if it has used more (`Scheduler.DropsByTime`); with equal
  times either can happen (`Scheduler.TiesEitherWay`). `Scheduler.LostTask` is such a run.
- A task that is ended while it waits for a mutex comes back: `mutex_unlock` makes every waiter wait for the processor,
  ended or not. An ended task stays ended exactly if no mutex lets it go on (`Scheduler.EndedStaysEnded`), and
  does not run unless one does so while the task is in the queue (`Scheduler.EndedNeverRuns`). `Scheduler.RevivedTask` is a run in which it runs.
- `total_vtime` keeps the time-stamp counter of the first switch, so that a task started later begins far from the others.
  `Scheduler.SpawnAfterBoot` says exactly for which counters and numbers of tasks it can be put in order.
- `unmap_page` frees the frame of a page with `PAGE_F_BIT` before it clears the entry, through a window that has moved
  by then: exactly such pages stay mapped, to a frame that is free (`KernelMapper.Kernel.UnmapPage`).
- `map_page` does not make missing tables: it marks the entry present first, and the tables stay a tree exactly if none was
  missing (`KernelMapper.OrKeepsTreeIff`).
- `add_phys_mem` breaks the list of free frames for blocks of less than a page and blocks at address 0, unless nothing is
  listed at all (`KernelMapper.AddsIff`).
- Integer conversions differ from section 7.19.6.1 of C99 in these cases, and `Conformance.IntegerIsStandard` says for
  exactly which specifiers and values: the least value of a signed type is printed as `-0` (`Conformance.LeastValue`), zero
  with a prefix `0x` (`Conformance.PrefixOfZero`), and unsigned numbers with a sign (`Conformance.SignOfUnsigned`); `#` adds a zero to octal
  digits that start with one (`Conformance.OctalZeros`); and zeros that fill a field come before the sign and the
  prefix, and even with a precision (`Conformance.ZerosBeforeSign`).
- `%p` is printed with a prefix exactly if the `#` flag is set (`Printf.PointerText`).

## Model

| member | source | states |
|---|---|---|
| `BinIndex.TreeIndexIsBin` | src/memory/dlmalloc.c:1417-1428 | for every size from 256 to below 2^40 compute_tree_index gives a bin i with minsize(i) <= size < minsize(i+1); the last bin has no upper limit |
| `BinIndex.BinOfIsUnique` | src/memory/dlmalloc.c:1489-1491 | no size belongs to two bins |
| `BinIndex.TreeIndexMonotone` | src/memory/dlmalloc.c:1417-1428 | a larger size is never in an earlier bin |
| `BinIndex.TreeIndexRightIff` | src/memory/dlmalloc.c:1420-1424 | the exact condition for the index to be right when the shifted size is cut to 32 bits: the size is below 2^40, or the 32 bits that are left still select the last bin as they should |
| `BinIndex.TreeIndexTruncates` | src/memory/dlmalloc.c:1420 | the least size for which the cut goes wrong, 2^40, is put into bin 0 |
| `BinIndex.SameBinSameTop` | src/memory/dlmalloc.c:1480-1482 | two sizes of one bin agree on every bit above those the bin leaves open |
| `BinIndex.LeftShiftFindsFirstOpenBit` | src/memory/dlmalloc.c:1485-1487 | leftshift_for_tree_index puts the highest bit not fixed by the bin into the sign position |
| `Words.SearchKeyStep` | src/memory/dlmalloc.c:2245-2246 | shifting the search key left by one moves the next lower bit of the size into the sign position, as both descents of the trie rely on |
| `BinMap.MarkBin` | src/memory/dlmalloc.c:1500-1505 | marking a bin marks that bin and changes no other, for all 32 bins |
| `BinMap.ClearBin` | src/memory/dlmalloc.c:1501-1505 | clearing a bin clears that bin and changes no other |
| `BinMap.FirstMarked` | src/memory/dlmalloc.c:1509-1525 | least_bit followed by compute_bit2idx gives the first marked bin |
| `BinMap.FirstAbove` | src/memory/dlmalloc.c:1512 | left_bits and least_bit give the first marked bin above i, or 0 exactly when there is none |
| `BinMap.SmallSearch` | src/memory/dlmalloc.c:3159-3181 | the two tests of dlmalloc on the shifted small map find the bin for the size, the next one, or the first marked bin beyond them |
| `Memory.HeadWordFields` | src/memory/dlmalloc.c:826-882 | size, cinuse and pinuse are independent fields of a head word |
| `TreeBins.NodeAtPath` | src/memory/dlmalloc.c:906-951 | a bitwise trie has one node for each depth and bit path |
| `TreeBins.Ancestor` | src/memory/dlmalloc.c:906-951 | every node has an ancestor at each smaller depth, on its own bit path, with a child in the direction of its next bit |
| `TreeBins.BelowRoot` | src/memory/dlmalloc.c:906-951 | every node of a tree bin lies below the root of the bin for its size, and that bin is marked |
| `TreeBins.HeadOf` | src/memory/dlmalloc.c:906-951 | following fd from any chunk of a ring reaches the one member that is in the tree |
| `TreeInsert.InsertRoot` | src/memory/dlmalloc.c:2234-2239 | a chunk that becomes the root of an empty bin leaves all tree bins in order, with the bin marked |
| `TreeInsert.InsertChild` | src/memory/dlmalloc.c:2244-2254 | a chunk hung into the open slot its size bits lead to leaves the trie in order, one level below its parent |
| `TreeInsert.InsertRing` | src/memory/dlmalloc.c:2260-2268 | a chunk that joins the ring of its size leaves the trie and the other rings in order |
| `TreeUnlink.RingLeave` | src/memory/dlmalloc.c:2298-2304 | a chunk that is not the tree member of its ring can be cut out of the ring |
| `TreeUnlink.HandoverFromLeaf` | src/memory/dlmalloc.c:2309-2320 | any leaf below a node may take over the place of that node, since it shares all path bits of it; the rightmost leaf is one |
| `TreeUnlink.TakePlace` | src/memory/dlmalloc.c:2325-2363 | after the replacement has the parent and the children of the removed node, all tree bins are in order without that node |
| `TreeUnlink.RemoveLeaf` | src/memory/dlmalloc.c:2325-2337 | removing a leaf leaves all tree bins in order; the bin is unmarked exactly when the leaf was its root |
| `TreeSearch.LeftmostStep` | src/memory/dlmalloc.c:992 | every size below a node that is not below its leftmost child is larger than the size of that child: the least size of a trie is on the path of leftmost children |
| `TreeSearch.AsideIsLarger` | src/memory/dlmalloc.c:3022-3034 | every chunk below the deepest right subtree not taken is larger than nb and than all chunks that still share the path of nb at that depth or above |
| `TreeSearch.LargerBin` | src/memory/dlmalloc.c:3042-3049 | a later bin holds only larger sizes |
| `TreeSearch.PathEnd` | src/memory/dlmalloc.c:3023-3041 | when the walk along the bits of nb ends, the best chunk is the one found or lies in the untaken subtree; if there is neither, no chunk of the bin is large enough |
| `TreeSearch.FindLeast` | src/memory/dlmalloc.c:3052-3059 | the walk over leftmost children ends with a chunk of least size that fits, among all chunks of all tree bins |
| `TreeSearch.FindLarge` | src/memory/dlmalloc.c:3014-3059 | the three stages of the search together return a chunk of least size >= nb over all 32 tree bins, or none exactly when none fits, with the remainder in wrapping arithmetic |
| `TreeSearch.FindSmall` | src/memory/dlmalloc.c:3088-3099 | a small request served from the tree bins gets a chunk of least size of all of them |
| `SmallBins.InsertSmall` | src/memory/dlmalloc.c:2149-2165 | a chunk put at the front of its small bin leaves every list circular, sorted into bins by size, and the bin marked |
| `SmallBins.UnlinkSmall` | src/memory/dlmalloc.c:2168-2191 | a chunk taken out from between two neighbours leaves all lists in order |
| `SmallBins.UnlinkOnly` | src/memory/dlmalloc.c:2176-2178 | if both neighbours of a chunk are the same word the chunk is the last of its bin, and clearing the map bit removes it |
| `Layout.CarveLaid` | src/memory/dlmalloc.c:811-882 | replacing the chunks between two boundaries by one or two chunks keeps the segment tiled without gaps or overlap |
| `Layout.CarveTags` | src/memory/dlmalloc.c:826-882 | if the head and foot words at the three boundaries are written accordingly, cinuse, pinuse and foot words agree for every chunk of the segment |
| `Carving.CarveOk` | src/memory/dlmalloc.c:2001-2030 | every split and every merge of chunks, with its tag words, keeps the whole allocator state in order |
| `Carving.CarveCoalesced` | src/memory/dlmalloc.c:2019-2020 | it leaves no two adjacent free chunks, if the neighbours of the new free chunk are in use |
| `Carving.CarveLeavesBlocks` | src/memory/dlmalloc.c:3123-3257 | no byte of any block in use changes with it |
| `Carving.CarveBlocks` | src/memory/dlmalloc.c:2001-2030 | it changes the set of blocks in use exactly at the chunks it replaces |
| `Heap.Rebinned` | src/memory/dlmalloc.c:2368-2374 | moving one free chunk between the bins, the designated victim and neither keeps every other free chunk in exactly one place, the one for its size |
| `DlMalloc.MallocState.constructor` | src/memory/dlmalloc.c:1214-1220 | before the first request the state is that of a zeroed malloc_state |
| `DlMalloc.MallocState.InsertSmallChunk` | src/memory/dlmalloc.c:2149-2165 | the chunk is put into the small bin of its size, as its first, and every list stays in order |
| `DlMalloc.MallocState.UnlinkSmallChunk` | src/memory/dlmalloc.c:2168-2191 | the free chunk goes from its small bin into no place; only link words change |
| `DlMalloc.MallocState.UnlinkFirstSmallChunk` | src/memory/dlmalloc.c:2194-2209 | the first chunk of a marked bin has the size of the bin and is taken out |
| `DlMalloc.MallocState.InsertLargeChunk` | src/memory/dlmalloc.c:2227-2276 | the free chunk goes from no place into the trie of its size, the descent ending within the bits the bin leaves open; only link words change |
| `DlMalloc.MallocState.UnlinkLargeChunk` | src/memory/dlmalloc.c:2295-2364 | any chunk of the tree bins, ring member, inner node, leaf or root, goes into no place; only link words change |
| `DlMalloc.MallocState.FindReplacement` | src/memory/dlmalloc.c:2309-2317 | the loop ends at a leaf below the node, or reports that the node is itself a leaf |
| `DlMalloc.MallocState.InsertChunk` | src/memory/dlmalloc.c:2368-2370 | the bin is chosen by size |
| `DlMalloc.MallocState.UnlinkChunk` | src/memory/dlmalloc.c:2372-2374 | the bin is chosen by size |
| `DlMalloc.MallocState.ReplaceDv` | src/memory/dlmalloc.c:2213-2222 | the old designated victim goes to its small bin and the new one takes its place |
| `DlMalloc.MallocState.TakeWhole` | src/memory/dlmalloc.c:1638-1640 | a whole free chunk is handed out |
| `DlMalloc.MallocState.SplitOff` | src/memory/dlmalloc.c:3190-3194 | a free chunk is split: the lower part is handed out, the upper part is a free chunk in no place |
| `DlMalloc.MallocState.SplitTop` | src/memory/dlmalloc.c:3237-3243 | top is split: its lower part is handed out, the end of the segment stays |
| `DlMalloc.MallocState.TmallocSmall` | src/memory/dlmalloc.c:3084-3119 | a small request gets a best fitting chunk of the tree bins, the remainder becomes the designated victim; every other block keeps its place and bytes |
| `DlMalloc.MallocState.TmallocLarge` | src/memory/dlmalloc.c:3013-3081 | a large request gets a chunk that fits best of all free chunks but top; 0 is returned exactly when no binned chunk fits or the designated victim fits at least as tightly, and then nothing has changed; otherwise the victim is too small or fits less tightly |
| `DlMalloc.MallocState.TakeSmall` | src/memory/dlmalloc.c:3184-3196 | the first chunk of a small bin serves the request, split if 32 bytes or more are left, and the rest becomes the designated victim |
| `DlMalloc.MallocState.TakeDv` | src/memory/dlmalloc.c:3217-3235 | the designated victim serves the request, split or used up |
| `DlMalloc.MallocState.FromBinsSmall` | src/memory/dlmalloc.c:3155-3206 | a small request is served by a chunk of its size in the small bins; if there is none and the designated victim is too small, by the smallest chunk of the small bins that fits, else by a chunk of least size of the tree bins; if not, nothing has changed |
| `DlMalloc.MallocState.FromBinsLarge` | src/memory/dlmalloc.c:3207-3215 | a large request is served by a best fit; if not, the designated victim is the best fit if anything but top fits |
| `DlMalloc.MallocState.FromDvOrTop` | src/memory/dlmalloc.c:3217-3247 | the victim is used before top, and neither exactly when both are too small; what is left of it stays the victim |
| `Fitting.Fallback` | src/memory/dlmalloc.c:3217-3249 | what the bins could not serve is served best by the designated victim, then by top; if top is too small nothing fits |
| `DlMalloc.MallocState.Sbrk` | src/memory/dlmalloc.c:2662-2694 | the break moves up by whole pages and the old memory is as before, or nothing changes |
| `DlMalloc.MallocState.InitBins` | src/memory/dlmalloc.c:2490-2497 | every small bin is an empty circular list and no tree root changes |
| `DlMalloc.MallocState.InitTop` | src/memory/dlmalloc.c:2475-2487 | top, its size, its head word, the word behind it and the trim threshold are set, nothing else |
| `Segment.FirstOk` | src/memory/dlmalloc.c:2755-2768 | the first segment is one top chunk; the state is in order and holds no block |
| `Segment.ResizeMove` | src/memory/dlmalloc.c:2782-2787 | moving the end of top keeps the state in order, every block, and every byte of every block |
| `DlMalloc.MallocState.FirstSegment` | src/memory/dlmalloc.c:2755-2768 | a successful first growth moves the break by the least number of whole pages for the request and the overhead of the segment, and leaves topsize greater than nb |
| `DlMalloc.MallocState.GrowSegment` | src/memory/dlmalloc.c:2776-2787 | a successful growth moves the break by the least number of whole pages for what top lacks, appends them to the segment and to top, and leaves every block untouched |
| `Requests.WrapIsSeen` | src/memory/dlmalloc.c:2631-2633 | the comparison of the rounded size with nb detects every wrap-around and nothing else |
| `DlMalloc.MallocState.SysAlloc` | src/memory/dlmalloc.c:2616-2822 | a null pointer is returned exactly for requests whose rounding wraps around; otherwise the block is carved from the start of top, the break having moved by the least number of whole pages needed, or the kernel panics |
| `Requests.TrimAmount` | src/memory/dlmalloc.c:2882-2884 | the amount given back is the largest number of whole pages that leaves more than pad bytes |
| `DlMalloc.MallocState.SysTrim` | src/memory/dlmalloc.c:2874-2937 | whole pages at the end of top are given back so that at most a page beyond what is to be kept is left, and every block is untouched; the threshold is 2 MiB again if some were, and out of reach if none could be although top is beyond it |
| `Merging.MergeRun` | src/memory/dlmalloc.c:3282-3300 | the free neighbours of a chunk in use are found from its size, its pinuse bit and the foot word before it |
| `Merging.MergeMove` | src/memory/dlmalloc.c:3300-3360 | making the chunk and its free neighbours one free chunk keeps the state in order and takes away exactly that block |
| `DlMalloc.MallocState.Consolidate` | src/memory/dlmalloc.c:3282-3360 | the chunk is merged with its free neighbours on both sides; with top it becomes top, with the designated victim the victim, which otherwise stays as it is; all else goes into a bin, a small one as the first of its bin |
| `DlMalloc.MallocState.MergeForward` | src/memory/dlmalloc.c:3309-3352 | all four cases for the chunk behind: top, designated victim, binned, in use |
| `DlMalloc.MallocState.AbsorbNext` | src/memory/dlmalloc.c:3332-3341 | a binned free chunk behind is taken out of its bin and absorbed |
| `DlMalloc.MallocState.DlFree` | src/memory/dlmalloc.c:3261-3368 | exactly the block goes, merged with its free neighbours, and every other block is untouched; the designated victim stays, grows or goes into top as its neighbours say; a small chunk becomes the first of its bin; memory is given back if and only if top grew beyond the threshold, which is 2 MiB unless a trim has failed, and then at most a page beyond the overhead of the segment is left of top |
| `DlMalloc.MallocState.DisposeChunk` | src/memory/dlmalloc.c:2942-3008 | the chunk is given back and merged as by free, without trimming, with the same effect on the designated victim |
| `Requests.PaddedFits` | src/memory/dlmalloc.c:806-816 | the padded size is the least multiple of 16 that holds the request and the head word, and at least 32 |
| `DlMalloc.MallocState.DlMalloc` | src/memory/dlmalloc.c:3123-3257 | the block is new, 16-byte aligned, long enough and at most 54 bytes longer, every other block keeps its place and bytes; a small request is served by a chunk of exactly its size in the small bins, else by the designated victim if it is large enough, else by a least chunk of the small bins, else of the trees, else from top; a large one by a least chunk of the trees if that is tighter than the victim, else by the victim, else from top; a remainder of 32 bytes or more becomes the victim; whenever the memory has grown or the kernel panics, no free chunk fitted; a null pointer means the padding wraps around |
| `Fitting.NextBinIsEmpty` | src/memory/dlmalloc.c:1154-1155 | the second of the two bins that a small request looks at first is always empty: bins are 8 bytes apart and chunk sizes 16 |
| `Fitting.RemainderlessIff` | src/memory/dlmalloc.c:3127-3196 | if the small bins have a chunk that would leave no remainder, of the size needed or 16 bytes more, such a chunk is used if and only if there is one of exactly that size or the designated victim is too small |
| `Reshaping.ReshapeMove` | src/memory/dlmalloc.c:3400-3460 | resizing a block between its start and the end of the free chunk behind it keeps the state in order and all other blocks |
| `DlMalloc.MallocState.Shrink` | src/memory/dlmalloc.c:3400-3409 | a block that is large enough keeps nb bytes; a remainder of 32 bytes or more is given back |
| `DlMalloc.MallocState.GrowIntoTop` | src/memory/dlmalloc.c:3410-3421 | the block grows into top and top keeps the rest |
| `DlMalloc.MallocState.GrowIntoDv` | src/memory/dlmalloc.c:3422-3443 | the block grows into the designated victim, which keeps the rest or is used up |
| `DlMalloc.MallocState.GrowIntoFree` | src/memory/dlmalloc.c:3444-3461 | the block grows into a binned chunk; a large remainder is given back |
| `DlMalloc.MallocState.TryRealloc` | src/memory/dlmalloc.c:3390-3467 | the block is resized in place if and only if its chunk, or its chunk and the free one after it, have room; nothing changes otherwise; a designated victim after the block takes or gives the difference, and is used up if less than 32 bytes would be left |
| `Payload.SetByteReads` | src/memory/dlmalloc.c:3800 | a byte stored in word memory is read back and no other byte changes |
| `Payload.BlockWrites` | src/memory/dlmalloc.c:3800 | bytes stored inside one block leave the allocator state and every other block as they were |
| `DlMalloc.MallocState.Memcpy` | src/memory/dlmalloc.c:3800 | the bytes are copied one by one from one block to another, and nothing else changes |
| `DlMalloc.MallocState.MoveBlock` | src/memory/dlmalloc.c:3797-3802 | the contents move to the new block, then the old one is freed |
| `Results.Moved` | src/memory/dlmalloc.c:3797-3802 | allocating, copying and freeing together keep the first min(old usable size, new size) bytes and all other blocks |
| `DlMalloc.MallocState.DlRealloc` | src/memory/dlmalloc.c:3764-3807 | the block keeps its leading bytes up to the smaller size; it stays in place if and only if it can, and otherwise moves to where malloc serves the request from; every other block is untouched; a request of MAX_REQUEST or more panics |
| `Alignment.RoundUpIsLeast` | src/memory/dlmalloc.c:3471-3477 | the alignment used is the least power of two that is at least 32 and at least the one asked for |
| `Alignment.RoundingEnds` | src/memory/dlmalloc.c:3475 | the doubling loop ends if and only if the alignment is at most 2^63 |
| `DlMalloc.MallocState.RoundAlignment` | src/memory/dlmalloc.c:3471-3477 | the loop computes that alignment |
| `Alignment.LeadFits` | src/memory/dlmalloc.c:3484-3507 | the place chosen is the first aligned one with no lead or a lead of at least a chunk, and the rest of the chunk found is long enough |
| `DlMalloc.MallocState.CutLead` | src/memory/dlmalloc.c:3491-3519 | the lead becomes a chunk of its own and is given back |
| `DlMalloc.MallocState.InternalMemalign` | src/memory/dlmalloc.c:3469-3541 | the block is aligned to the least power of two that is 32 or more and not less than the alignment asked for; it is at the first such place, with room for a chunk before it or none needed, in the chunk from which malloc serves the enlarged request; lead and tail are given back; every other block is untouched |
| `Checkers.BinFind` | src/memory/dlmalloc.c:1966-1999 | bin_find says yes exactly for the chunks that are in a bin |
| `Checkers.FindInList` | src/memory/dlmalloc.c:1971-1977 | the loop over a small bin ends and finds exactly the chunks of that size |
| `Checkers.FindInRing` | src/memory/dlmalloc.c:1989-1994 | the loop over a ring ends and finds exactly its members |
| `Checkers.FindNode` | src/memory/dlmalloc.c:1983-1988 | the descent by size bits finds the tree node of a size if there is one |
| `Checkers.InuseChecks` | src/memory/dlmalloc.c:1832-1840 | in every state in order the checks of do_check_inuse_chunk hold for every chunk in use |
| `Checkers.FreeChecks` | src/memory/dlmalloc.c:1843-1863 | the checks of do_check_free_chunk hold for every free chunk but top |
| `Checkers.TopChecks` | src/memory/dlmalloc.c:1804-1815 | the checks of do_check_top_chunk hold |
| `Checkers.TraverseAndCheck` | src/memory/dlmalloc.c:2001-2030 | the traversal visits all chunks up to top, all its assertions hold, and the sum it returns is the size of the segment |
| `Client.BlocksApart` | src/memory/dlmalloc.c:3123-3257 | two blocks have no byte in common and lie inside the segment |
| `Client.Malloc` | src/memory/dlmalloc.c:3123-3257 | malloc adds one block of the length asked for to the map from addresses to byte strings that the heap refines, cut from the chunk that the order of bins, victim and top says |
| `Client.Memalign` | src/memory/dlmalloc.c:3840-3845 | memalign adds one block of the length asked for, at a multiple of the alignment, at the first place for it in the chunk from which malloc serves the enlarged request |
| `Client.Free` | src/memory/dlmalloc.c:3261-3368 | free removes exactly one block |
| `Client.Realloc` | src/memory/dlmalloc.c:3764-3807 | realloc replaces one block by one with the same leading bytes, at the same place if and only if the heap has room there, and else where malloc serves the request from |
| `Client.Write` | src/memory/dlmalloc.c:3123-3257 | storing a byte of a block changes that byte of the map and no other |
| `Client.Trim` | src/memory/dlmalloc.c:3913-3921 | malloc_trim does not show in the map |
| `Client.Perform` | src/memory/dlmalloc.c:3123-3257 | one command changes the map as the step relation says: one block added, removed, replaced with its leading bytes, or one byte changed; the reply is the address, null for a wrapped size, or a panic with what is known then |
| `Client.Run` | src/memory/dlmalloc.c:3123-3257 | over every sequence of malloc, memalign, realloc, free, trim and stores each command has the effect on the map that its call specifies, a command that no caller may issue being skipped; the program is left unfinished only by a panic of a call that may panic; in every state all chunks are in order and the heap refines the map |
| `Paging.IndicesInjective` | src/loader/paging.c:48-66 | two canonical page addresses with the same four table indices are the same |
| `Paging.HarmlessWalk` | src/loader/paging.c:50-71 | a store that leaves a present entry of an upper table pointing to the same table changes no translation |
| `Paging.LeafWalk` | src/loader/paging.c:72-73 | a store to a leaf table changes the translation of its own page and of no other |
| `Paging.AddTable` | src/loader/paging.c:50-64 | a zeroed page put into an empty upper entry keeps the tables an unaliased tree |
| `Paging.SlotKeepsTables` | src/loader/paging.c:69-73 | changing the flags of an upper entry, or a leaf entry, keeps the tables an unaliased tree |
| `Paging.OrKeepsPresent` | src/include/memory/mapper.h:22-24 | the masks let the present bit through and never set bit 7 in an upper entry |
| `Paging.UpperFlagsAre` | src/include/memory/mapper.h:22-24 | the masks of the upper tables hold back the dirty, the page-size and the global bit, and no others |
| `Paging.GrantsWider` | src/loader/paging.c:68-73 | stores that take no flag away on the way to a page leave it every right that it had, whichever tables they are in |
| `LoaderPaging.Loader.ExtendUsedMemory` | src/loader/paging.c:14-19 | used memory grows to the page boundary at or after the address, and never shrinks |
| `LoaderPaging.Loader.NewZeroPage` | src/loader/paging.c:31-35 | the page at the end of used memory is zeroed; no translation changes |
| `LoaderPaging.Loader.EnsureTable` | src/loader/paging.c:50-52 | afterwards the entry points to a table; one page is used exactly if there was none |
| `LoaderPaging.Loader.BuildPath` | src/loader/paging.c:45-66 | afterwards the three tables on the way to the page exist; the number of pages used is the number of tables that were missing |
| `LoaderPaging.Loader.OrFlags` | src/loader/paging.c:68-71 | an upper entry becomes present and gets the flags asked for that the mask lets through, and loses none; no translation changes but those through new empty tables, which stay faults |
| `LoaderPaging.Loader.MapPage` | src/loader/paging.c:37-74 | the walk of virt gives phys with the flags and the present bit, and each flag asked for that the masks let through is set in all four entries, so that with PAGE_RW_BIT the page can be written; the walk of every other page is unchanged in presence, frame and flags, and no other page loses a right; the tables stay an unaliased tree below used memory, with no upper entry large |
| `IdentityPaging.SetupIdentityPaging` | src/loader/paging.c:76-80 | the loop ends although its bound grows: on exit every page below the final used memory, with the tables made meanwhile, maps to itself and can be written; all other pages are translated as before, and none that could be written cannot |
| `IdentityPaging.RoomSuffices` | src/loader/paging.c:25-80 | how many tables the pages below a limit can need: two, one for each gigabyte, and one for each two megabytes |
| `ElfLoading.LoadPage` | src/loader/elf64.c:39-50 | one page of a segment: mapped to its file page with the rest cleared, or to a zero page, so that it can be written; no other page loses that right |
| `ElfLoading.LoadSegments` | src/loader/elf64.c:36-53 | after the loops every page of every PT_LOAD segment holds its part of the image and can be written; every page that belongs to no segment is translated as before; the frames in use before are unchanged but for the tail of last file pages, which is cleared; new tables are on the way to pages of the segments only |
| `ElfLoading.SegmentReadsBack` | src/loader/elf64.c:36-53 | reading any byte of a segment through the page tables gives the byte of the file below p_filesz and 0 from there to p_memsz |
| `ElfLoading.WindowIndices` | src/linker.ld:34-40 | the four window pages and the page of the window table are the last entries of the last leaf table |
| `ElfLoading.HandOver` | src/loader/elf64.c:112-116 | if nothing was mapped in the last two megabytes, _phys_window_pt maps the very leaf table that holds the window entries; it and the four window pages can be written; the other 507 pages there fault, every other translation is as before, no page loses the right to be written, and no data frame changes |
| `BootPaging.LoadKernel` | src/loader/elf64.c:36-116 | load_kernel as a whole, asked only of the state at its start: the segments are loaded, the window and its table are in place, all of them can be written, and every page that belongs to neither is translated as before |
| `BootPaging.BuildTables` | src/loader/boot/main.c:49-57 | load_kernel followed by the identity mapping: the segments stay loaded, all used memory maps to itself, the window stays in place, and all these pages can be written |
| `BootPaging.ReadsBack` | src/loader/elf64.c:36-53 | after them every byte of every segment is read through the tables as the byte of the file, or 0, from a frame that is no table |
| `KernelMapper.LedWalk` | src/memory/mapper.c:127-157 | a walk through three present tables gives the leaf entry if it is present |
| `KernelMapper.GentleWalk` | src/memory/mapper.c:77-172 | looking at physical memory and setting flags of present entries changes no translation outside the window |
| `KernelMapper.Kernel.constructor` | src/memory/mapper.c:33-35 | on tables with the window in place, and no free frame yet, the mapper is in order |
| `BootPaging.EnterKernel` | src/memory/mapper.c:33-35 | the tables that the loader leaves are such tables |
| `BootPaging.Boot` | src/loader/boot/main.c:49-57 | from the first table to the kernel, whatever the segments: the mapper is in order, reads every byte of every segment, and can write its pages |
| `BootPaging.LookAfterBoot` | src/memory/mapper.c:23-31 | after load_kernel, whenever the kernel looks at physical memory, the window shows the frames asked for and the segments are read as before |
| `KernelMapper.Kernel.PhysLook` | src/memory/mapper.c:23-31 | afterwards the walk of the four window pages gives the four frames from phys on; every translation outside the window is unchanged |
| `KernelMapper.Kernel.AddPhysMem` | src/memory/mapper.c:37-42 | exactly the length / PAGE_SIZE frames of a block of at least a page become free |
| `KernelMapper.AddsIff` | src/memory/mapper.c:37-42 | adding a block keeps the free list a list of disjoint blocks, with its frames and no others, if and only if the block has at least a page and does not start at address 0, or nothing is listed at all: the list was empty and so is the block, at address 0 |
| `KernelMapper.Kernel.FreePage` | src/memory/mapper.c:44-49 | exactly that frame becomes free |
| `KernelMapper.Kernel.AllocPage` | src/memory/mapper.c:51-68 | a free frame is taken and is free no more, whether its block has one page or more; failure means that no frame is free |
| `KernelMapper.Kernel.UnmapPage` | src/memory/mapper.c:77-112 | every other translation is unchanged, and no other page loses a right; the page faults afterwards, whichever level was missing, if and only if it was not a present page with PAGE_F_BIT; such a page stays mapped to its frame, which becomes free, and the free list survives exactly if the leaf entry is not the first of its table |
| `KernelMapper.Kernel.MapPresent` | src/memory/mapper.c:127-172 | the page is mapped with the flags to phys, to the frame it had, or to a frame taken from the free ones, and each flag that the masks let through is set in all four entries, so that with PAGE_RW_BIT the page can be written; a frame that phys replaces becomes free if PAGE_F_BIT is set; every other translation is unchanged, and no other page loses a right |
| `KernelMapper.OrKeepsTreeIff` | src/memory/mapper.c:130-152 | map_page never makes a table: the flags make an upper entry present before it is tested, and the tables stay a tree if and only if the entry was present before |
| `ProgramBreak.RegionDistinct` | src/memory/memory.c:3-8 | different pages of the region have different table indices |
| `ProgramBreak.Break.MapNext` | src/memory/memory.c:18-20 | one more page is present, can be written, and has a frame no other page of the heap has |
| `ProgramBreak.Break.UnmapLast` | src/memory/memory.c:22-24 | the last page faults and the others are kept |
| `ProgramBreak.Break.Sbrk` | src/memory/memory.c:10-27 | after every sequence of growths and shrinks exactly the pages from the beginning to the break are present, all of them can be written, and their pairwise distinct frames are neither free nor tables; the old break is returned; the panics are those out of bounds and out of frames |
| `ProgramBreak.CountIs` | src/memory/memory.c:12 | the rounded break is a whole number of pages above the beginning |
| `MinHeaps.UpStep` | src/data/heap.c:43-50 | one swap of sift_up keeps every element but one in order with its parent |
| `MinHeaps.DownStep` | src/data/heap.c:18-41 | one swap of sift_down with the smaller child moves the only violation down |
| `MinHeaps.UpHeap` | src/data/heap.c:43-50 | what sift_up computes is a heap if only the element sifted was out of order |
| `MinHeaps.DownHeap` | src/data/heap.c:18-41 | the same for sift_down |
| `MinHeaps.RootIsLeast` | src/data/heap.c:52-57 | no element is before the root, in the layout where node 0 has the one child 1 and node i from there on has 2i and 2i+1 |
| `MinHeaps.PushedHeap` | src/data/heap.c:59-67 | pushing adds exactly that element, and keeps a heap a heap |
| `MinHeaps.PoppedHeap` | src/data/heap.c:52-57 | popping takes exactly the root, which is a least element of a heap, and keeps a heap a heap |
| `MinHeaps.SameKeys` | src/data/heap.c:18-67 | a heap stays a heap under another comparator that agrees on its elements |
| `MinHeaps.MinHeap.constructor` | src/data/heap.c:4-11 | make_heap gives an empty heap |
| `MinHeaps.MinHeap.SiftUp` | src/data/heap.c:43-50 | the loop ends, also at node 0, which is its own parent, with the array that Up gives |
| `MinHeaps.MinHeap.SiftDown` | src/data/heap.c:18-41 | the loop ends, also from node 0, which is its own child, with the array that Down gives |
| `MinHeaps.MinHeap.Pop` | src/data/heap.c:52-57 | the root is returned and the last element sifted down from its place |
| `MinHeaps.MinHeap.Push` | src/data/heap.c:59-67 | the element is sifted up from the end, the array doubled if it is full |
| `MinHeaps.Sort` | src/data/heap.c:52-67 | pushing any sequence and popping it all sorts it, for any comparator that is a total preorder on it |
| `Scheduler.CompareIsDifference` | src/sched.c:98-100 | the comparison is the difference of the two times if and only if that difference fits an int |
| `Scheduler.CompareSign` | src/sched.c:98-100 | all the heap uses is the sign: for a < b the comparison is negative if and only if (b - a) modulo 2^32 is in 1..2^31, and the mirrored one is not negative if and only if it is below 2^31 |
| `Scheduler.TimesInACircle` | src/sched.c:98-100 | three times further apart than that are each before the next in a circle |
| `Scheduler.NarrowOrders` | src/sched.c:98-100 | on tasks whose times are less than 2^31 apart the comparison is a total preorder |
| `Scheduler.HeapKept` | src/sched.c:42-47 | the heap stays in order while only states and frames of queued tasks change |
| `Scheduler.SwitchKeeps` | src/sched.c:38-70 | whatever the times, a switch parks the current task, hands the processor to a task that waits, and loses none that waits: what was in the queue is in it, is running, or was dropped because it does not wait |
| `Scheduler.SwitchOk` | src/sched.c:38-70 | with times close enough the task that goes on has used the least time of all that wait, the heap stays one, and exactly one task runs |
| `Scheduler.SpawnedOk` | src/sched.c:139-165 | if the time of a new task can be put in order with those that are queued, it waits in the queue exactly once, and all else that the scheduler keeps is kept |
| `Scheduler.EventOk` | src/sched.c:38-165 | every event, a tick, a task started, ended, frozen by a mutex or let go on by it, whether or not it has been ended meanwhile, keeps the invariant |
| `Scheduler.WakeOk` | src/mutex.c:27-34 | for every task in the queue of a mutex, frozen or ended meanwhile, letting it go on keeps the invariant if and only if the task is still in the queue of the scheduler |
| `Scheduler.FrozenLeaves` | src/sched.c:53-61 | a switch drops a frozen task that has used less time than the task that goes on, and keeps one that has used more |
| `Scheduler.TiesEitherWay` | src/sched.c:53-61 | with equal times the places in the heap decide: the same two tasks in two orders |
| `Scheduler.DropsByTime` | src/sched.c:53-61 | the same for every event that switches, with the times the tasks then have |
| `Scheduler.FrozenInQueue` | src/sched.c:52-61 | over every run, a task that froze itself is in the queue later if and only if none of the switches since, its own included, has dropped it |
| `Scheduler.WakeAfterRun` | src/mutex.c:27-34 | so over every run mutex_unlock keeps every waiting task in the queue if and only if no switch has dropped the task meanwhile |
| `Scheduler.LostForever` | src/sched.c:52-61 | a task that has been dropped never runs again, whatever happens and whoever unlocks its mutex |
| `Scheduler.LostTask` | src/mutex.c:5-36 | a run from the first task on that loses one: it freezes, is dropped by the second switch, and unlocking the mutex then breaks the invariant |
| `Scheduler.FirstSwitch` | src/sched.c:132-136 | the first switch for every value of the time-stamp counter: a task started before goes on, the boot task has ended, and the invariant holds afterwards if and only if the counter is not 2^31 modulo 2^32, or only one task was started |
| `Scheduler.SpawnAfterBoot` | src/sched.c:154 | total_vtime keeps the time-stamp counter d of the first switch, so that a task started after it, with n tasks, begins at d / n; that can be put in order with the queue if and only if n is 1, or d / n is below 2^31 and the low 32 bits of d are not between 2^31 and 2^31 + d / n |
| `Scheduler.Processor.StartTask` | src/sched.c:139-165 | the new task starts with the mean time, is to be entered at start with its context, and is pushed; the state is what start_task makes it, and in order again if the times are close enough |
| `Scheduler.Processor.TaskSwitch` | src/sched.c:38-70 | the current task is parked with its frame and charged its time; a waiting task with least time runs on with the frame it was parked with; exactly it is running, and every waiting task is in the queue exactly once; the timer is set to 5000 times 20 less its niceness |
| `Scheduler.Processor.Switch` | src/sched.c:38-70 | task_switch_isr whatever the times: the steps give the machine of the specification, the frame restored is that saved in the chosen task, and the timer is set by its niceness |
| `Scheduler.Processor.Choose` | src/sched.c:53-61 | the loop pops tasks until one waits, and leaves the heap that the specification leaves |
| `Scheduler.Processor.TerminateTask` | src/sched.c:77-85 | a task that ends while it waits stays in the queue to be dropped; the current task hands the processor on and is not resumed |
| `Scheduler.Processor.Freeze` | src/mutex.c:9-13 | a task that freezes itself gives the processor to another |
| `Scheduler.Processor.Thaw` | src/mutex.c:27-34 | a waiter is made to wait for the processor, without a look at its state, and not put into the queue: the invariant holds afterwards if and only if it is still there, which WakeAfterRun relates to the switches since it froze |
| `Scheduler.Processor.MainLoop` | src/sched.c:132-136 | the boot code is started as a task, ended, and gives the processor to one of the tasks started before, which begins with the frame it was started with, for every value of the time-stamp counter; the invariant holds afterwards if and only if the counter is not 2^31 modulo 2^32, or only one task was started |
| `Scheduler.Begin` | src/sched.c:103-165 | for any tasks started one after the other, main_loop enters one of them at its start, with its context and at the end of its stack |
| `Scheduler.Processor.StartEarly` | src/sched.c:139-165 | tasks started before main_loop all have time 0, wait, and are to be entered at their start with their context |
| `Scheduler.Processor.Run` | src/sched.c:38-165 | over every sequence of timer ticks, starts, ends, freezes and wakeups, up to one that is not possible, exactly one task runs in every state, and each step is the one specified |
| `Scheduler.GoesOnWhereItLeft` | src/sched.c:43-66 | over every run the saved frame of a task is the one of its last switch, however many switches there were between other tasks |
| `Scheduler.StartsAtEntry` | src/sched.c:139-165 | over every run, a task that start_task makes keeps its first frame until a switch takes the processor from it: rip is start, rdi the context, rsp the end of its stack page, cs 8, ss 16, interrupts on, all else 0 |
| `Scheduler.TimesAddUp` | src/sched.c:48-49 | over every run the time of a task is the time it had plus, modulo 2^64, what passed from each switch that gave it the processor to the switch that took it away |
| `Scheduler.TotalsAddUp` | src/sched.c:48-76 | total_vtime grows by the same amounts and shrinks by the times of the tasks that end, and num_tasks counts starts less ends |
| `Scheduler.StartedAtIs` | src/sched.c:68 | started_at is the time-stamp counter at the switch that last gave the task the processor, and 0 before the first |
| `Scheduler.EndedStaysEnded` | src/mutex.c:27-34 | over every run a task that ended stays ended and does not run if and only if no mutex lets it go on: mutex_unlock makes every waiter wait for the processor again, ended or not |
| `Scheduler.EndedNeverRuns` | src/sched.c:53-61 | whatever the times, a task that ended never runs again as long as no mutex lets it go on while it is still in the queue |
| `Scheduler.RevivedTask` | src/mutex.c:27-34 | a run from the first task on that brings an ended task back: it freezes, is ended by another, and runs again after the mutex is unlocked |
| `Mutex.SpinKept` | src/include/threading/spinlock.h:10-19 | at most one task is between acquiring and releasing the spinlock |
| `Mutex.AlwaysOk` | src/mutex.c:5-36 | the invariant holds after every interleaving of the steps of any number of tasks in which only the holder unlocks |
| `Mutex.OneHolder` | src/mutex.c:5-36 | at most one task is between the return of mutex_lock and the store that unlocks |
| `Mutex.QueuedOnce` | src/mutex.c:9-13 | a frozen task is in the queue at most once, and outside the spinlocked windows exactly once; a task that is not frozen is not in it |
| `Mutex.NobodyForgotten` | src/mutex.c:23-36 | outside the spinlocked windows a frozen task waits only for a mutex that is locked |
| `Mutex.UnlockFreesAll` | src/mutex.c:23-36 | when mutex_unlock releases the spinlock no task is frozen: every waiter enqueued before goes on |
| `Mutex.WindowEnds` | src/include/threading/spinlock.h:10-19 | the holder of the spinlock needs a bounded number of its own steps to release it, and no other task changes what is left |
| `Queues.Queue.Enqueue` | src/data/queue.c:4-14 | the element is added at the end of the linked list |
| `Queues.Queue.Dequeue` | src/data/queue.c:16-25 | the first element is taken, or nothing from an empty queue; the stale tail pointer of an empty queue does no harm |
| `Queues.Drive` | src/data/queue.c:4-25 | over every sequence of uses the elements taken and those left are the elements put, in their order |
| `Division.UDivMod` | src/loader/divdi3.c:4-23 | both loops end, for every num and every den but 0, with num == quot * den + rem and rem < den, no step overflowing |
| `Division.UDiv` | src/loader/divdi3.c:63-65 | the quotient of two words |
| `Division.UMod` | src/loader/divdi3.c:67-71 | the remainder of two words |
| `Division.TruncatedIs` | src/loader/divdi3.c:25-61 | there is exactly one quotient and remainder as section 6.5.5 of C99 wants them |
| `Division.Div` | src/loader/divdi3.c:25-42 | the quotient is truncated toward zero if and only if the operands are not INT64_MIN and -1 |
| `Division.Mod` | src/loader/divdi3.c:44-61 | the remainder is that of C99 if and only if the divisor is positive or divides the number; otherwise it has the wrong sign |
| `Division.WrongSign` | src/loader/divdi3.c:48-59 | 7 and -2 are operands for which it is wrong |
| `Numerals.ReadBack` | src/io/printf.c:177-180 | the digits, with any number of zeros before them, read back in their base give the number |
| `Numerals.DigitChar` | src/io/printf.c:147-148 | the digits are 0 to 9 and then the letters from a, or from A in capitals |
| `Numerals.NumeralFits` | src/io/printf.c:150-180 | a number below base^k has at most k digits |
| `Formats.Atoi` | src/io/printf.c:41-49 | the loop reads the decimal number at the pointer and leaves the pointer behind it |
| `Formats.AtoiReads` | src/io/printf.c:41-49 | the result is the number modulo 2^16 |
| `Formats.ParseFormatSpecifier` | src/io/printf.c:52-145 | the parser reads flags, width, precision, length and specifier, and takes the arguments of each asterisk |
| `Formats.ReadsBack` | src/io/printf.c:51-145 | every specifier written out with any flags, width, precision and length is read back as it was, whatever follows it |
| `Formats.ReadsWritten` | src/io/printf.c:52-145 | every way to write a specifier, flags in any order and repeated, width and precision as numbers or asterisks, and any modifier, is read as what it says: the flags, the numbers or the arguments for the asterisks, the size of the type, %p as %x with 16 digits; unless an asterisk has no number among the arguments |
| `Formats.ParseStable` | src/io/printf.c:52-145 | what a specifier means depends neither on the text nor on the arguments after its own |
| `Printf.FillDigits` | src/io/printf.c:165-180 | the digit loop fills the 25-byte buffer from its end and never leaves it, for every type and base |
| `Printf.PrintInteger` | src/io/printf.c:161-212 | an integer conversion writes sign, prefix, zeros, digits and padding as specified and returns the number of characters |
| `Printf.IntegerLength` | src/io/printf.c:184-210 | it writes max(width, sign + prefix + max(precision, digits)) characters |
| `Printf.IntegerReadBack` | src/io/printf.c:155-180 | the sign and digits written stand for the argument if and only if it is not the least value of its signed type, which comes out as -0 |
| `Conformance.IntegerIsStandard` | src/io/printf.c:155-212 | for every specifier, value and kind the printer writes the text that section 7.19.6.1 of C99 defines from the value and the conversion if and only if: it is not the least value of its type, nor zero with 0x, nor unsigned with the + flag; no zeros of the field come before a sign or prefix or along with a precision; and the space before an unsigned number, or the second zero of %#o, is hidden among the characters that fill the field |
| `Conformance.PrintsStandard` | src/io/printf.c:51-343 | a format that is one integer conversion, however it is written and with widths and precisions among the arguments, prints the standard text of the argument, as a value of the type of the modifier and in the base and letters of the conversion, in exactly these cases |
| `Conformance.IntegerInField` | src/io/printf.c:184-210 | standard or not, an integer is written as sign, prefix and digits in a field of the width, filled with zeros or spaces before it, or with spaces after it |
| `Conformance.PrintsString` | src/io/printf.c:267-287 | a format that is one %s writes the first characters of its text, as many as the precision allows, in a field of the width: at the left with the flag -, at the right without it, spaces elsewhere |
| `Conformance.PrintsPointer` | src/io/printf.c:137-143 | a format that is one %p writes the 16 digits of the word, whatever its width and precision, with 0x before them exactly if the flag # asks for it |
| `Conformance.PrintsCharacter` | src/io/printf.c:329-336 | a format that is one %c or %% writes one character: the argument as an unsigned char, or the % |
| `Conformance.ZerosBeforeSign` | src/io/printf.c:184-197 | %05d of -42 comes out as 00-42 |
| `Conformance.PrefixOfZero` | src/io/printf.c:172-174 | %#x of 0 comes out as 0x0 |
| `Conformance.OctalZeros` | src/io/printf.c:172-201 | %#o of 0 comes out as 00, and %#.3o of 8 as 0010 |
| `Conformance.SignOfUnsigned` | src/io/printf.c:167-171 | %+u of 5 comes out as +5 |
| `Conformance.LeastValue` | src/io/printf.c:155-159 | %hhd of -128 comes out as -0 |
| `Printf.PointerText` | src/io/printf.c:135-143 | %p is printed with its 0x if and only if the # flag is set |
| `Printf.PrintString` | src/io/printf.c:267-287 | %s writes the text cut to the precision in a field of the width and returns the number of characters |
| `Printf.Vdprintf` | src/io/printf.c:314-343 | vdprintf writes what the format says and returns the number of characters it has written |
| `Printf.Composes` | src/io/printf.c:314-343 | a complete format followed by another writes what the first writes and then what the second writes with the arguments that are left |
| `Printf.PrintsOne` | src/io/printf.c:51-343 | a format that is one specifier, however it is written, writes what its conversion makes of the arguments it leaves |
| `Printf.PrintsPieces` | src/io/printf.c:314-343 | a format prints its pieces one after the other: ordinary characters as they are, each specifier as if it were the whole format, with the arguments that those before it have left, up to one that lacks its arguments |
| `Printf.PrintsArgument` | src/io/printf.c:161-343 | a format that is one integer conversion writes its argument so that it can be read back |

## Left out

What the repository does and the model does not:

- mmap chunks, mspaces, footers, locks, `add_segment`, `prepend_alloc`: this configuration never takes those paths.
- `release_unused_segments` and `release_checks`, which have nothing to release without mmap.
- `ialloc`, `bulk_free`, `dlcalloc`, `dlrealloc_in_place`, `dlposix_memalign`, `dlvalloc`, statistics and parameters: they add length but little depth.
- The abort branches of the run-time checks: in every reachable state the checks succeed, and the model has no other states.
- `do_check_tree` and `do_check_smallbin`: what they assert is part of the invariant, stated in `TreeBins.TreeOk` and `SmallBins.SmallOk`.
- The place of `malloc_state`: the bin headers lie at fixed low addresses of the word memory, and addresses are offsets from the start of the kernel half, below 2^39.
- The stores of a few macros are made in another order than the original makes them, with the same words at the end; the designated victim is set aside before a chunk is cut from it. No code runs in between.
- Head words are taken apart with division and remainder instead of bit operations; `Memory.HeadWordFields` shows that the fields are the same. A power of two is recognised by `Alignment.PowerOfTwo` instead of by a bit test, and alignment is a remainder instead of a mask.
- The clamp of `sys_trim` at half the address space, which no segment reaches.
- The kernel panics of `sbrk` in the allocator: the break can move, or the kernel panics, at the choice of the environment. `ProgramBreak.Break.Sbrk` says when it panics.
- Page tables: frames hold tables, bytes or block headers, never a mixture; an entry has 24 flag bits, the available ones above bit 52 and the no-execute bit among them, and a frame number; the translation lookaside buffer, and faults that depend on privilege. That a page can be written means that the R/W bit is set in all four entries (section 5.6 of the manual).
- KernelMapper.Kernel.MapPresent: requires the three upper levels, since the code never makes a table (`KernelMapper.OrKeepsTreeIff`); what a walk through the entries made present by mistake gives is not modelled.
- KernelMapper.Kernel.AddPhysMem: requires a block of at least a page that is not at address 0, since the list breaks for the others (`KernelMapper.AddsIff`).
- ProgramBreak.Break.Sbrk: requires the tables above the region, for the same reason as `MapPresent`.
- KernelMapper.Kernel.UnmapPage: a frame that is to be freed is required to be one the free list may get: neither a table nor free.
- Scheduler.SpawnedOk: requires times that can be put in order, since the comparison is none otherwise; `Scheduler.SpawnAfterBoot` says when that is so after the first switch.
- The checks of the ELF header and the search of the symbol table, which only compare constants; the values of the window symbols are those of `src/linker.ld`.
- `setup_identity_paging` and the segment loop require room below 4 GiB, as the code does without checking.
- The comparator of a heap is passed to each operation instead of being stored in it, and the two branches of `sift_down` choose a child and share the rest.
- `destroy_heap`, and freeing the cells of a queue.
- Tasks are entries of a table, identified by their index, instead of separate objects; a task is never freed.
- Extended processor state, the timer, and other hardware effects of a switch; several processors.
- Mutex liveness: a task can be lost as described above, and a task switched away while it holds the spinlock stops the others. Of the mutex itself only safety is proved.
- Tasks that are ended while they wait for a mutex, in `Mutex`; `Scheduler` has them.
- The memory model: the steps of the mutex are sequentially consistent.
- `total_vtime` as the sum of the times of the tasks, which the code does not keep.
- Signed overflow in `src/loader/divdi3.c` and `src/io/printf.c` is taken to wrap around, as compilers for this processor do it when asked to; the C standard leaves it undefined.
- The count of characters in `printf` is not cut to an `int`, and the lengths of strings not to 32 bits.
- A format that ends within a specifier makes the original read beyond its end; the model stops there and says so in its result, as it does for a missing argument.
- The rest of `src/string.c`, interrupts, ACPI, multiboot, VGA and port I/O.
- DlMalloc.MallocState.DlMalloc: a small request need not get a best fit, since the designated victim is preferred to a tighter chunk of another bin; the contract says which chunk it gets instead.
- Client.Run: a command whose arguments no caller may pass is skipped.
- A switch that finds no task waiting: `heap_pop` then goes on with an empty heap, whose size wraps around, and the panic of `src/sched.c:55-57` is never reached. A run stops at an event that is not `Scheduler.Possible`.
