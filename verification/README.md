# Models of an allocator, a logger, a trace tool and a thread pool

This project models the hard parts of five programs of the repository and proves what they
promise.

* **dlmalloc** (`memory/dlmalloc_src/malloc.c`): the boundary-tag heap, the small bins, the
  bitwise tries of large chunks, the designated victim and `top`, as one class whose fields are
  a map of memory words and the fields of `malloc_state`. The routines read and write the same
  words in the same order as the source, including its unsigned wrap-around. The configuration
  is 64-bit, without footers, locks and direct mappings, with one contiguous segment that the
  system extends or does not (`grows`). The main result is `Runs.Run`: any client that keeps to
  its own live objects finds them intact, and none of the allocator's own checks ever fails.
* **spdlog's asynchronous pool** (`circular_q`, `mpmc_blocking_queue`, `thread_pool`): the ring
  buffer refines a bounded sequence; the queue conserves items over every interleaving of its
  locked regions; the shutdown neither deadlocks nor loses a message.
* **spdlog's rotating file sink** and the **Chrome trace collapser** of FlameGraph: the files
  hold the end of everything logged; own times are conserved.
* **The server demo's task pool**: every accepted task runs at most once, and exactly once when
  `stop` or the destructor returns and there was a worker; and when the destructor returns at all.

## How it is laid out

| layer | modules |
|---|---|
| words and bits | Words, WordBits, SizeBits, BinMaps, TreeIndexForms, X86Build |
| bins | Rings, SmallBins, TreeBins, TreeChains, TreeUnlink, TreeRelink, TreeRemoval, TreeOrder, BinHistory |
| operations on bins | MallocState, SmallChunks, LargeChunks, LargeInsertion |
| heap | Boundaries, Invariant, Payloads, Start |
| free | Freeing, Conservation |
| malloc | BestFit, Taking, LargeRequests, SmallRequests, TopChunk, Malloc, Placement |
| realloc, memalign, ialloc | Resizing, Realloc, Moving, Memalign, Ialloc |
| whole runs | Checks, Runs |
| spdlog | CircularQueue, QueueSteps, BlockingQueue, Tallies, PoolSteps, PoolWaits, AsyncPool, Filenames, RotatingFileSink |
| trace collapser | TraceStacks, StackCollapse |
| task pool | TaskSteps, TaskWaits, TaskPool |

The heap invariant is `Invariant.Valid`: chunks tile the segment up to `top`; both copies of
every in-use bit agree, and the foot of a free chunk is its size; no two free chunks touch;
every free chunk is exactly one of the designated victim or a member of its bin; and the words
of the bins link exactly the chunks that the ghost fields name: `small`, 32 sequences in `bk`
order, and `tree`, a chain of chunks for every occupied position of a trie. A position is a bin,
a number of undecided bits and the bits decided so far, so trie order is a statement about bits.
The ghost field `trace` lists what has been put into the bins and taken out of them: with the
designated victim, `top` and the segment size it makes up a `Shelf`, and `AfterFree`, `AfterTake`
and `AfterResize` say what each operation does to it.
`Live` maps each chunk in use to its size; its payload includes the word that is the next
chunk's `prev_foot`. `Untouched` says that no payload word of any live chunk has changed.

Where code and documentation disagree, the model follows the code. These places are stated as
results: sizes from 2^40 on that the x86 form of `compute_tree_index` puts into the wrong bin
(`TreeIndexForms.FormsAgree`; `X86Build` carries the model over to that form for segments of up to
2^40 bytes, and beyond them it is the upper bound of the bin in `do_check_tree` that fails), the
rounding loop of `internal_memalign` that does not end above
2^63 (`Memalign.RoundingEnds`), the logger's queue sizes for which the destructor never returns
(`PoolSteps.Returns`), the destructor of the demo's pool, which joins every worker again
after a `stop` and returns exactly when there is none to join twice
(`TaskSteps.DestructorOutcome`, `TaskSteps.DestructorReturnsIff`), the wait of its `resize`, which
shares a condition variable with the workers and may sleep for ever or take the notification of
a task (`TaskWaits.RestServes`, `TaskWaits.TaskIsLost`), and the collapser's grouping key, which
tells threads apart exactly up to 2^53 (`StackCollapse.FloatKeysDifferIff`).

Concurrency is modelled at the granularity of the locked regions. A wait on a condition variable
is the precondition of the step behind it; `PoolWaits` and `TaskWaits` justify that, with threads
that sleep, wake without reason, and are picked by `notify_one` in any way. Methods such as
`AsyncPool.ThreadPool.Destroy` and `TaskPool.ThreadPool.Stop` choose the next thread without
constraint, and are proved to end.

## Model

| member | source | states |
|---|---|---|
| Runs.Run | memory/dlmalloc_src/malloc.c:4586-4834 | for every list of malloc, free, realloc, memalign, ialloc, load and store operations by a client that names only live objects: the heap invariant holds throughout and every object keeps its words until its owner writes them; memory is refused exactly when the request is out of range or out of memory in the state in which the operation starts, and otherwise the answer has the chunk that `malloc` should choose, the first aligned spot, a fresh address, or the old one exactly when the object can be resized in place; loads return the last value stored; from each moment to the next the designated victim, `top` and the bins change exactly as the operation says (`Follows`), and nothing changes when it does nothing; the recorded result of every `do_check_malloc_state`, one after each operation, is a success; and at every moment the bins are the queues of their history |
| Runs.DoOne | memory/dlmalloc_src/malloc.c:4586-4834 | one operation of a run: what was held is held on, the event is the exact answer in the state where it starts, and the free space afterwards is the one that follows |
| Runs.OldestServed | memory/dlmalloc_src/malloc.c:2395-2401 | at every moment of a run the bins of a size, small or tree, are a queue in order of arrival: the node of a trie is the chunk that has waited longest, the first chunk of a small bin the one that came last |
| Runs.ResizedHeld | memory/dlmalloc_src/malloc.c:4856-4933 | a resize in place keeps every word of the object that fits the new size |
| Runs.MovedHeld | memory/dlmalloc_src/malloc.c:5262-5268 | a resize that moves keeps every word that fits the new size |
| Runs.DoIalloc | memory/dlmalloc_src/malloc.c:5017-5130 | `independent_calloc` and `independent_comalloc` in a run, for sums that fit: refused exactly when `malloc` refuses the total; otherwise one new object for each element, one behind the other, zero if cleared, and the array as an object that holds their addresses; all are objects like any other from then on |
| Checks.CheckMallocState | memory/dlmalloc_src/malloc.c:3497-3523 | on every heap with the invariant no check of `do_check_malloc_state` fails, the bytes it counts are exactly those of the segment, and the footprint never exceeds its maximum |
| Checks.TraverseAndCheck | memory/dlmalloc_src/malloc.c:3465-3495 | walking from the base of the segment chunk by chunk ends exactly at `top`; no check fails on the way and the sizes sum to the segment |
| Checks.BinFind | memory/dlmalloc_src/malloc.c:3429-3462 | `bin_find` answers yes for a chunk if and only if it is binned |
| Checks.CheckSmallbin | memory/dlmalloc_src/malloc.c:3405-3426 | no check on the ring of any small bin fails |
| Checks.CheckTreebin | memory/dlmalloc_src/malloc.c:3394-3402 | no check on a tree bin fails: a bin without a root is not marked, and the trie of a marked bin is in order |
| Checks.CheckTree | memory/dlmalloc_src/malloc.c:3343-3391 | no check of `do_check_tree` fails anywhere below a node |
| Checks.CheckInuseChunk | memory/dlmalloc_src/malloc.c:3295-3303 | no check fails on a chunk in use |
| Checks.CheckFreeChunk | memory/dlmalloc_src/malloc.c:3306-3329 | no check fails on a free chunk: foot, flags of both neighbours, ring links |
| Checks.CheckTopChunk | memory/dlmalloc_src/malloc.c:3267-3279 | no check fails on `top` |
| Checks.CheckAnyChunk | memory/dlmalloc_src/malloc.c:3261-3264 | every chunk is aligned and within the addresses of the segment |
| Checks.CheckMallocedChunk | memory/dlmalloc_src/malloc.c:3329-3340 | no check fails on a chunk just handed out for a request |
| Checks.TreeIndexRange | memory/dlmalloc_src/malloc.c:2950-2953 | every size lies between the smallest size of its bin and that of the next bin: the bin index inverts `minsize_for_tree_index` |
| Words.HeadFields | memory/dlmalloc_src/malloc.c:2286-2306 | size and the two in-use bits are packed into a head word and read back; setting and clearing PINUSE changes that bit alone; `is_inuse` reads as documented |
| Malloc.RequestSize | memory/dlmalloc_src/malloc.c:2263-2273 | a request is padded to the least aligned chunk size with room for it and its head; small requests are exactly those with small chunks |
| BinMaps.MarkAndClear | memory/dlmalloc_src/malloc.c:2961-2968 | marking or clearing a bin decides its bit and no other |
| BinMaps.NonZeroHasMark | memory/dlmalloc_src/malloc.c:2961-2968 | a bin map is zero exactly when no bin is marked |
| BinMaps.LeastBitIsLeast | memory/dlmalloc_src/malloc.c:2970-3020 | `compute_bit2idx(least_bit(m))` is the least marked bin |
| BinMaps.LeftOf | memory/dlmalloc_src/malloc.c:2973-2974 | `left_bits(idx2bit(i)) & m` keeps exactly the marks above `i` |
| BinMaps.SmallBits | memory/dlmalloc_src/malloc.c:4624-4640 | what `smallbits` tells: its two low bits are the bins of the request, and it is zero exactly when no bin from there up is marked |
| BinMaps.NextSmallBins | memory/dlmalloc_src/malloc.c:4644 | the shifted left bits keep exactly the marked bins above the request's own |
| SizeBits.TreeIndexMonotone | memory/dlmalloc_src/malloc.c:2922-2938 | larger sizes never go to lower bins |
| SizeBits.RootOfBin | memory/dlmalloc_src/malloc.c:2403-2408 | all sizes of a bin share the bits above the root of its trie |
| SizeBits.FirstSizeWord | memory/dlmalloc_src/malloc.c:2945-2948 | shifting a size by `leftshift_for_tree_index` brings the first undecided bit to the sign position |
| SizeBits.SizeWordStep | memory/dlmalloc_src/malloc.c:3708-3709 | the sign bit of the shifted size is the next bit of the size, and the shift by one moves on |
| TreeIndexForms.FormsAgree | memory/dlmalloc_src/malloc.c:2878-2938 | the x86 form of `compute_tree_index` agrees with the `size_t` form if and only if the size is below 2^40 or its truncated quotient still reaches the last bin |
| TreeIndexForms.FirstDisagreement | memory/dlmalloc_src/malloc.c:2878-2890 | 2^40 itself goes to bin 0 in the x86 form and to bin 31 in the other |
| X86Build.SameBins | memory/dlmalloc_src/malloc.c:2878-2890 | while the segment stays within 2^40 bytes, every binned chunk is in the bin that the x86 form computes |
| X86Build.SameSearch | memory/dlmalloc_src/malloc.c:4476-4525 | and every request finds the same: below 2^40 bytes both forms look into the same bin, and for a larger request no chunk of any tree passes the comparison of the search |
| X86Build.PassesCheckIff | memory/dlmalloc_src/malloc.c:3348-3353 | a size in the bin of the x86 form passes the bounds of `do_check_tree` if and only if the forms agree on it; otherwise it is above the upper bound |
| TreeIndexForms.PortableIsLog2 | memory/dlmalloc_src/malloc.c:2930-2935 | the portable bit twiddling finds the highest set bit |
| WordBits.PowerOfTwoTest | memory/dlmalloc_src/malloc.c:4939 | `x & (x - 1)` is zero exactly for powers of two |
| WordBits.AndMask | memory/dlmalloc_src/malloc.c:4957 | `x & (a - 1)` is the remainder modulo a power of two |
| WordBits.AndNegated | memory/dlmalloc_src/malloc.c:4966-4968 | `x & -a` in words rounds down to a multiple of a power of two |
| Rings.UnlinkMember | memory/dlmalloc_src/malloc.c:3644-3645 | bypassing a member of a ring leaves a ring of the others, in the same order |
| Rings.AppendMember | memory/dlmalloc_src/malloc.c:3624-3627 | linking a chunk in front of the first member makes it the last in `bk` order |
| SmallChunks.InsertSmallChunk | memory/dlmalloc_src/malloc.c:3612-3628 | the chunk joins its bin as the newest; no other ring, and nothing but link words, changes; the map bit says that the bin is not empty |
| SmallChunks.UnlinkSmallChunk | memory/dlmalloc_src/malloc.c:3631-3654 | exactly this chunk leaves; the others keep their order; the bit is cleared exactly when the bin becomes empty, though the header keeps stale links; neither corruption action is reached |
| SmallChunks.UnlinkFirstSmallChunk | memory/dlmalloc_src/malloc.c:3657-3672 | the newest chunk leaves, under the same guarantees |
| SmallChunks.InsertChunk | memory/dlmalloc_src/malloc.c:3831-3833 | the bins hold exactly one chunk more |
| SmallChunks.UnlinkChunk | memory/dlmalloc_src/malloc.c:3835-3837 | the bins hold exactly this chunk less |
| Taking.ReplaceDv | memory/dlmalloc_src/malloc.c:3676-3685 | the remainder is the designated victim, the old victim is binned, and the allocation is complete |
| LargeInsertion.InsertLargeChunk | memory/dlmalloc_src/malloc.c:3690-3739 | the walk ends, the tries hold exactly this chunk more, one node per size, and the chunk is the last of its size |
| TreeRemoval.RightmostIsRight | memory/dlmalloc_src/malloc.c:3773-3786 | the leaf that replaces a node: wherever the way to it leaves a node with a right child, it leaves through that child |
| LargeInsertion.FindPlace | memory/dlmalloc_src/malloc.c:3706-3737 | following the bits of the size from the root ends at the node of that size or at the null child where it belongs |
| LargeInsertion.InsertBelow | memory/dlmalloc_src/malloc.c:3703-3738 | the invariant of the tries after an insertion below the root |
| LargeInsertion.InsertRoot | memory/dlmalloc_src/malloc.c:3697-3702 | the invariant of the tries after the first insertion into a bin |
| LargeInsertion.WalkOn | memory/dlmalloc_src/malloc.c:3706-3719 | a node of another size on the path leaves an aligned bit undecided, so the walk goes on |
| SizeBits.DifferAboveAlignment | memory/dlmalloc_src/malloc.c:3706-3719 | different chunk sizes that agree above a bit differ in a bit above the alignment |
| LargeChunks.UnlinkLargeChunk | memory/dlmalloc_src/malloc.c:3758-3827 | exactly this chunk leaves the tries, whose bit-prefix order, child and parent links and rings all hold afterwards; nothing else moves but the next oldest of the size, or the rightmost leaf below the node; the treemap bit is cleared exactly when the bin becomes empty; chunks of equal size keep their order; no corruption action is reached |
| LargeChunks.UnlinkChained | memory/dlmalloc_src/malloc.c:3761-3826 | a chunk that shares its size leaves the ring; if it was the node, the next oldest takes its place |
| LargeChunks.UnlinkLast | memory/dlmalloc_src/malloc.c:3772-3826 | the last chunk of its size leaves; a leaf below it takes its place if there is one |
| LargeChunks.DetachRightmost | memory/dlmalloc_src/malloc.c:3773-3786 | the descent finds a leaf below the node and cuts it off, or the node is a leaf |
| LargeChunks.Rightmost | memory/dlmalloc_src/malloc.c:3776-3780 | the descent ends at a leaf below the node, with the word that points to it |
| LargeChunks.RemovedBins | memory/dlmalloc_src/malloc.c:3741-3827 | the bin invariant after a chunk has left the tries |
| TreeRemoval.RemoveChained | memory/dlmalloc_src/malloc.c:3744-3745 | removal of a chained node changes its ring alone |
| TreeRemoval.RemoveHead | memory/dlmalloc_src/malloc.c:3744-3745 | removal of a node with chained chunks hands its place to the next oldest |
| TreeRemoval.RemoveLeaf | memory/dlmalloc_src/malloc.c:3788-3793 | removal of a leaf empties its position, and clears the map bit at the root |
| TreeRemoval.RemoveInterior | memory/dlmalloc_src/malloc.c:2414-2416 | any leaf below an interior node may take its place: prefix order is kept |
| TreeRelink.RelinkLinks | memory/dlmalloc_src/malloc.c:3788-3826 | putting a chain in another one's place keeps the pointer structure of every trie |
| TreeUnlink.DetachLinks | memory/dlmalloc_src/malloc.c:3781-3782 | cutting off a leaf keeps the pointer structure of every other position |
| BinHistory.ChainIsQueue | memory/dlmalloc_src/malloc.c:2395-2401 | with a history that every operation of the allocator keeps up (`Chronicled`): the small bin or tree chain of each size, read through `bk`, is the queue of that size, in order of arrival |
| BinHistory.ChronicleInsert | memory/dlmalloc_src/malloc.c:3730-3737 | an insertion puts the chunk last in the queue of its size and leaves every other queue |
| BinHistory.ChronicleRemove | memory/dlmalloc_src/malloc.c:3758-3827 | a removal, whichever of its three cases it takes, takes the chunk out of the queue of its size and leaves every other queue |
| BinHistory.FirstComeFirstServed | memory/dlmalloc_src/malloc.c:2395-2401 | the queue that a history leaves is in order of arrival, whatever is removed from where |
| BinHistory.OldestIsNode | memory/dlmalloc_src/malloc.c:2395-2401 | so the node of a trie is the oldest chunk of its size, and the first chunk of a small bin the newest |
| BinHistory.WaitsBySize | memory/dlmalloc_src/malloc.c:3831-3837 | a chunk waits in the queue of its size if and only if it is binned, and in no other |
| BestFit.WalkForSize | memory/dlmalloc_src/malloc.c:4482-4504 | along the bits of the request: the best candidate on the path, and the deepest untaken right subtree, leave out no smaller fit |
| BestFit.StepAhead | memory/dlmalloc_src/malloc.c:4486-4503 | one step of that walk loses no candidate |
| BestFit.RightIsLarger | memory/dlmalloc_src/malloc.c:4494-4500 | every chunk to the right of the path is larger than every one on it below |
| BestFit.NextTree | memory/dlmalloc_src/malloc.c:4505-4513 | when no tree has been found, the next nonempty bin is taken, whose chunks all fit |
| BestFit.OtherBin | memory/dlmalloc_src/malloc.c:4505-4513 | fitting chunks of other bins are in higher bins and larger than all of the request's own bin |
| BestFit.SmallestOf | memory/dlmalloc_src/malloc.c:4515-4522 | the leftmost-child path finds the smallest fitting chunk of the tree |
| BestFit.DescendOne | memory/dlmalloc_src/malloc.c:2418-2424 | following the leftmost child loses no candidate for the minimum |
| BestFit.LeftLess | memory/dlmalloc_src/malloc.c:2410-2413 | sizes in a left subtree are below those in the right one |
| LargeRequests.ChooseLarge | memory/dlmalloc_src/malloc.c:4477-4522 | the search finds the oldest of the smallest chunks that fit, or that none fits; the unsigned differences, which start wrapped, never mislead it |
| LargeRequests.BetterThanVictim | memory/dlmalloc_src/malloc.c:4525 | the comparison with the designated victim, whose difference may have wrapped, picks the better fit |
| LargeRequests.TmallocLarge | memory/dlmalloc_src/malloc.c:4476-4544 | serves the request with the best-fitting tree chunk, the oldest of its size, whose remainder is binned, or leaves all as it is when the victim fits as well or nothing fits |
| LargeRequests.ChooseSmall | memory/dlmalloc_src/malloc.c:4547-4562 | the lowest tree bin and its leftmost-child path give the smallest tree chunk of all |
| LargeRequests.TmallocSmall | memory/dlmalloc_src/malloc.c:4547-4582 | serves the request from the smallest, oldest tree chunk; a remainder becomes the designated victim and the old victim is binned |
| SmallRequests.TakeSmall | memory/dlmalloc_src/malloc.c:4626-4637 | the newest chunk of exactly the size leaves its small bin; victim, `top` and all other bins stay |
| SmallRequests.SplitSmall | memory/dlmalloc_src/malloc.c:4640-4664 | the newest chunk of the next small bin is split; a remainder becomes the designated victim and the old victim is binned |
| Malloc.ExactBin | memory/dlmalloc_src/malloc.c:4622-4628 | the two bits tested tell whether a chunk of exactly this size is binned |
| Malloc.NextBin | memory/dlmalloc_src/malloc.c:4639-4648 | the next marked small bin holds the smallest chunks above the request, or all small chunks are too small |
| Malloc.FromBinsSmall | memory/dlmalloc_src/malloc.c:4626-4671 | small requests served from the bins: an exact fit, or else the smallest binned chunk that fits |
| Malloc.TreeIsSmallest | memory/dlmalloc_src/malloc.c:4666-4669 | with all small chunks too small, the smallest tree chunk is the smallest binned one |
| Taking.UseVictim | memory/dlmalloc_src/malloc.c:4682-4700 | the designated victim serves the request, split or used up |
| TopChunk.SplitTop | memory/dlmalloc_src/malloc.c:4702-4712 | `top` serves the request from its start |
| Malloc.FromRest | memory/dlmalloc_src/malloc.c:4682-4714 | victim before `top` before the system; null exactly when all three fail |
| Malloc.DlMalloc | memory/dlmalloc_src/malloc.c:4586-4718 | null, and nothing changed, exactly when the request is out of range or no free chunk fits, `top` cannot serve it and the system does not extend it; otherwise one new live chunk of less than 32 bytes more than needed, no live payload changed, the invariant kept; the chunk is the best fit: a smallest fitting one among all free chunks for large requests (the oldest of its size), an exact one (the newest of its size), the victim or a smallest binned one for small requests, `top` only when none fits; and where the rest of it goes (`AfterTake`) |
| Placement.ServedFromQueues | memory/dlmalloc_src/malloc.c:4586-4718 | the chunk that `malloc` takes is determined by one queue for each size, the designated victim and `top` alone |
| Placement.ServedOnce | memory/dlmalloc_src/malloc.c:4586-4718 | this plain rule leaves no choice: addresses are a function of the queues |
| Placement.GrantedIff | memory/dlmalloc_src/malloc.c:4079-4157 | in plain numbers: a request is granted if and only if a free chunk is large enough, or `top` is, or the system extends the segment by the whole pages needed, which are less than half of all addresses and do not wrap |
| TopChunk.SysAlloc | memory/dlmalloc_src/malloc.c:4079-4285 | extends `top` by the pages needed and serves the request, or fails and changes nothing; the peak of the footprint follows |
| TopChunk.Append | memory/dlmalloc_src/malloc.c:4245-4251 | the segment and `top` grow; chunks, bins and payloads are untouched |
| TopChunk.ExtensionFits | memory/dlmalloc_src/malloc.c:4094-4157 | when the wrap-around test lets a request through, no sum has wrapped and the extension suffices |
| TopChunk.AskedFor | memory/dlmalloc_src/malloc.c:4094-4157 | the least whole pages are asked for, and exactly when the guards let them through |
| TopChunk.InitTop | memory/dlmalloc_src/malloc.c:3938-3950 | the words of `top` and of its trailing fake chunk |
| Start.InitBins | memory/dlmalloc_src/malloc.c:3953-3960 | every small bin header points to itself |
| Start.InitSpace | memory/dlmalloc_src/malloc.c:4218-4237 | the first memory from the system becomes a heap with the invariant, no live chunk and an empty history |
| Freeing.DlFree | memory/dlmalloc_src/malloc.c:4722-4834 | null is ignored; a live chunk becomes free: all other live chunks and their payloads stay, and the invariant, in which no two free chunks touch, holds again; and where the space goes (`AfterFree`) |
| Placement.FreedGoes | memory/dlmalloc_src/malloc.c:4750-4823 | after `free`: the chunk and the free chunks before and after it are one space; it joins `top`, or is the designated victim if that is a part of it, or is binned behind all others of its size while the victim stays; all other binned chunks stay |
| Placement.FreeGoes | memory/dlmalloc_src/malloc.c:4750-4823 | the same of the specification `AfterFree`, and the footprint stays |
| Freeing.DisposeChunk | memory/dlmalloc_src/malloc.c:4405-4471 | the same for the internal variant |
| Freeing.MergeBackward | memory/dlmalloc_src/malloc.c:4750-4775 | a free chunk before is taken from its bin and joined; or the designated victim grows |
| Freeing.MergeForward | memory/dlmalloc_src/malloc.c:4777-4823 | the space joins `top`, the designated victim or a free chunk after it, or stands alone, and is placed |
| Freeing.FreedHeap | memory/dlmalloc_src/malloc.c:4777-4823 | the invariant after the freed space has become one chunk |
| Freeing.BackNeighbour | memory/dlmalloc_src/malloc.c:2313-2321 | a clear PINUSE bit means that the word before the chunk is the size of a free chunk that ends there |
| Freeing.NextNeighbour | memory/dlmalloc_src/malloc.c:2313-2317 | after a chunk comes `top` or a chunk whose flags agree with it |
| Conservation.EveryByte | memory/dlmalloc_src/malloc.c:3465-3495 | every byte of the segment is in a live chunk, a free chunk, `top` or the space after it |
| Conservation.FreedBytes | memory/dlmalloc_src/malloc.c:4722-4833 | freeing moves exactly the bytes of the chunk from use to free space |
| Conservation.AllocatedBytes | memory/dlmalloc_src/malloc.c:4586-4718 | allocating takes exactly the bytes of the chunk from free space and new memory |
| Conservation.Coalesced | memory/dlmalloc_src/malloc.c:4777-4823 | the whole freed chunk lies in one maximal free chunk, which is the designated victim or binned under its size, or in `top` with a chunk in use before it |
| Invariant.RetileHeap | memory/dlmalloc_src/malloc.c:2320-2329 | replacing the chunks of a region by others that tile it, with flags and feet to match, keeps the heap invariant |
| Invariant.PayloadApart | memory/dlmalloc_src/malloc.c:2320-2329 | no payload word of a chunk in use, the next chunk's `prev_foot` included, is a head, foot or link word of another part of the heap |
| Payloads.PayloadIsNoTag | memory/dlmalloc_src/malloc.c:2320-2329 | client words are never heads, feet of free chunks or words of `top` |
| Payloads.Store | memory/dlmalloc_src/malloc.c:2258-2259 | a client may write any word of a live payload, its last one being the next `prev_foot`: the invariant and all other payloads stay |
| Realloc.TryReallocChunk | memory/dlmalloc_src/malloc.c:4856-4933 | null, and nothing changed, exactly when the chunk cannot be resized in place; otherwise the same chunk with a size that fits closely, its words up to the smaller size kept, all other payloads kept; and where the spare end goes (`AfterResize`) |
| Realloc.ShrinkInPlace | memory/dlmalloc_src/malloc.c:4866-4875 | shrinking gives back the end if that is a chunk |
| Realloc.IntoTop | memory/dlmalloc_src/malloc.c:4876-4887 | growth into `top` |
| Realloc.IntoVictim | memory/dlmalloc_src/malloc.c:4888-4909 | growth into the designated victim, possible exactly when both sizes suffice |
| Realloc.IntoFree | memory/dlmalloc_src/malloc.c:4910-4927 | growth into a free chunk, possible exactly when both sizes suffice |
| Resizing.SplitInUse | memory/dlmalloc_src/malloc.c:4869-4871 | a chunk in use is cut into two in use |
| Moving.DlRealloc | memory/dlmalloc_src/malloc.c:5230-5273 | null, and nothing changed, exactly when the request is out of range or can be met neither in place nor by a new chunk; resized in place exactly when possible; otherwise moved to the chunk that `malloc` chooses, with the old bytes up to the smaller size, the old chunk freed after that |
| Moving.Memcpy | memory/dlmalloc_src/malloc.c:5265-5266 | copies that many bytes, whole words and the part of a word, into the new payload and changes no other |
| Moving.CopyKept | memory/dlmalloc_src/malloc.c:5266-5267 | freeing the old chunk does not disturb the copy |
| Memalign.InternalMemalign | memory/dlmalloc_src/malloc.c:4935-5007 | null, and nothing changed, exactly when the padded request is out of range or out of memory; otherwise a new chunk at the first spot of the least power-of-two alignment that serves, of at most 32 bytes more than needed; what is before it is binned, and spare room at the end given back |
| Memalign.SpotIsFirst | memory/dlmalloc_src/malloc.c:4957-4968 | no earlier aligned spot in the chunk leaves room for a leader or needs none |
| Memalign.RoundAlignment | memory/dlmalloc_src/malloc.c:4937-4943 | the least power of two that is at least the alignment and the minimum chunk size |
| Memalign.RoundingEnds | memory/dlmalloc_src/malloc.c:4939-4943 | the rounding loop ends if and only if the alignment is at most 2^63 |
| Memalign.SpotFits | memory/dlmalloc_src/malloc.c:4951-4973 | the padding leaves an aligned spot with a leader that is a chunk and room for the request behind it |
| Memalign.AlignInside | memory/dlmalloc_src/malloc.c:4957-4985 | moving to the aligned spot and giving back the leader |
| Memalign.TrimEnd | memory/dlmalloc_src/malloc.c:4987-4997 | giving back spare room at the end |
| Ialloc.IallocSome | memory/dlmalloc_src/malloc.c:5017-5130 | for every number of elements and all sizes: fails, changing nothing, if and only if `malloc` refuses the computed bytes; obtains an aggregate smaller than its contents if and only if the sums wrap and `malloc` grants what they wrap to; and in all other cases adjacent live chunks, one for each element and one for the array unless given, tile the aggregate; all are new and every other payload is untouched; on request all elements are zero |
| Ialloc.IallocAny | memory/dlmalloc_src/malloc.c:5017-5130 | the same, with the cases of no elements |
| Ialloc.CarvedElement | memory/dlmalloc_src/malloc.c:5097-5113 | each element is a live chunk of exactly its padded size and ends where the next starts; the last takes what is left |
| Ialloc.CutElements | memory/dlmalloc_src/malloc.c:5087-5113 | the cutting loop |
| Ialloc.CutAggregate | memory/dlmalloc_src/malloc.c:5079-5130 | clearing the aggregate, making the array a chunk and cutting the elements |
| Ialloc.NoRoom | memory/dlmalloc_src/malloc.c:5072-5077 | when the sums wrap, whatever chunk is granted is smaller than elements and array together |
| Ialloc.NoPlacement | memory/dlmalloc_src/malloc.c:5087-5113 | no elements and array of the padded sizes fit one after the other into an address space of words unless the sums fit |
| Ialloc.ContentsSize | memory/dlmalloc_src/malloc.c:5050-5062 | the total of the padded sizes, as the additions wrap |
| Ialloc.TotalExact | memory/dlmalloc_src/malloc.c:5045-5066 | for one size or many, with or without an array: the computed total is the true one if and only if no sum wraps |
| Ialloc.WrapExample | memory/dlmalloc_src/malloc.c:5045-5072 | two elements of 2^63 bytes each make a total of 32 and a request for 24 bytes, which is granted from any `top` of more than 32 bytes |
| Ialloc.RefusedExample | memory/dlmalloc_src/malloc.c:5045-5072 | two elements of 2^63 - 8 bytes each make a total of 0, whose request wraps again and is refused in every state |
| CircularQueue.CircularQ.constructor | ioserver_demo/include/spdlog/details/circular_q.h:28-31 | an empty queue for the items asked for, with one slot reserved; for the largest count the sum wraps and the queue is disabled |
| CircularQueue.CircularQ.PushBack | ioserver_demo/include/spdlog/details/circular_q.h:45-57 | appends to the sequence of items; when the queue is full its oldest item goes and the overrun counter is stepped; nothing in a disabled queue |
| CircularQueue.CircularQ.PopFront | ioserver_demo/include/spdlog/details/circular_q.h:81-83 | drops the oldest item |
| CircularQueue.CircularQ.Front | ioserver_demo/include/spdlog/details/circular_q.h:59-63 | the oldest item |
| CircularQueue.CircularQ.At | ioserver_demo/include/spdlog/details/circular_q.h:74-79 | the item at a position of the sequence |
| CircularQueue.CircularQ.Size | ioserver_demo/include/spdlog/details/circular_q.h:65-72 | the length of the sequence |
| CircularQueue.CircularQ.Full | ioserver_demo/include/spdlog/details/circular_q.h:87-93 | full exactly when the items fill the capacity of a queue that is not disabled |
| CircularQueue.CircularQ.Empty | ioserver_demo/include/spdlog/details/circular_q.h:85 | empty exactly when there is no item |
| CircularQueue.CircularQ.CopyMoveable | ioserver_demo/include/spdlog/details/circular_q.h:101-112 | takes over items and counter, and leaves the other queue disabled |
| CircularQueue.RingPush | ioserver_demo/include/spdlog/details/circular_q.h:48-54 | writing at the tail and moving on, around the end of the buffer or not, appends to the sequence and drops its first item exactly when the buffer was full |
| CircularQueue.RingPop | ioserver_demo/include/spdlog/details/circular_q.h:81-83 | moving the head on drops the first item |
| CircularQueue.RingAt | ioserver_demo/include/spdlog/details/circular_q.h:76-79 | position `i` is in the cell `(head + i) % max_items` |
| CircularQueue.AroundIsModulo | ioserver_demo/include/spdlog/details/circular_q.h:49-53 | the indices are those of the `%` in the source, whose sums do not wrap |
| BlockingQueue.MpmcQueue.Enqueue | ioserver_demo/include/spdlog/details/mpmc_blocking_q.h:30-38 | after its wait: the step of an item accepted into a queue with room |
| BlockingQueue.MpmcQueue.EnqueueNowait | ioserver_demo/include/spdlog/details/mpmc_blocking_q.h:40-47 | the step of an item accepted, dropping the oldest if need be |
| BlockingQueue.MpmcQueue.EnqueueIfHaveRoom | ioserver_demo/include/spdlog/details/mpmc_blocking_q.h:49-64 | accepted, or counted as discarded |
| BlockingQueue.MpmcQueue.PushIfRoom | ioserver_demo/include/spdlog/details/mpmc_blocking_q.h:51-57 | its locked part |
| BlockingQueue.MpmcQueue.Dequeue | ioserver_demo/include/spdlog/details/mpmc_blocking_q.h:81-90 | after its wait: the oldest item leaves |
| BlockingQueue.MpmcQueue.DequeueFor | ioserver_demo/include/spdlog/details/mpmc_blocking_q.h:66-79 | the oldest item, or nothing exactly when there is none at the end of the wait |
| QueueSteps.Conservation | ioserver_demo/include/spdlog/details/mpmc_blocking_q.h:30-90 | over every interleaving of the threads' steps: delivered and queued items are the accepted ones in order minus the lost ones, each accepted item in exactly one of these, and both counters equal what was lost or turned away since their reset, in `size_t` arithmetic |
| QueueSteps.StepAccounted | ioserver_demo/include/spdlog/details/mpmc_blocking_q.h:30-90 | each step keeps that account |
| QueueSteps.OnlyNowaitLoses | ioserver_demo/include/spdlog/details/mpmc_blocking_q.h:40-47 | in any state of a queue that is not disabled, a step loses an item if and only if it is `enqueue_nowait` on a full queue, and then exactly one |
| QueueSteps.LostByNowait | ioserver_demo/include/spdlog/details/mpmc_blocking_q.h:30-90 | in any run that mixes the policies, at most as many items are lost as there were calls of `enqueue_nowait` |
| QueueSteps.BlockingLosesNothing | ioserver_demo/include/spdlog/details/mpmc_blocking_q.h:30-38 | so without such calls no item is lost |
| QueueSteps.FirstInFirstOut | ioserver_demo/include/spdlog/details/mpmc_blocking_q.h:30-90 | then what came out, followed by what is queued, is exactly what went in |
| QueueSteps.DisabledLosesAll | ioserver_demo/include/spdlog/details/circular_q.h:28-31 | a queue of the largest size loses every item and counts none |
| QueueSteps.DropOldest | ioserver_demo/include/spdlog/details/circular_q.h:51-55 | dropping the oldest keeps the order of the rest |
| AsyncPool.Create | ioserver_demo/include/spdlog/details/thread_pool-inl.h:16-33 | throws exactly for thread counts outside 1 to 1000 |
| AsyncPool.ThreadPool.PostAsyncMsg | ioserver_demo/include/spdlog/details/thread_pool-inl.h:80-90 | by policy, in items and counters: the message becomes the last one; into a full queue `overrun_oldest` drops exactly the oldest and counts it, `discard_new` leaves the queue and counts the message, and `block` waits for room |
| AsyncPool.ThreadPool.TakeMsg | ioserver_demo/include/spdlog/details/thread_pool-inl.h:100-117 | a worker takes the oldest message; a terminate message ends it |
| AsyncPool.ThreadPool.ProcessNextMsg | ioserver_demo/include/spdlog/details/thread_pool-inl.h:100-124 | one message is handled, and no other lost or handled; the loop ends exactly at a terminate message |
| AsyncPool.ThreadPool.Destroy | ioserver_demo/include/spdlog/details/thread_pool-inl.h:45-56 | under every scheduling the destructor ends with every worker gone, the queue empty and every message handled exactly once |
| PoolSteps.StepSound | ioserver_demo/include/spdlog/details/thread_pool-inl.h:45-124 | every step keeps: terminate messages in the queue are those posted and not taken, behind all others; once a worker is gone no other message is queued; and no step of the shutdown loses or doubles a message |
| PoolSteps.LifeSound | ioserver_demo/include/spdlog/details/thread_pool-inl.h:45-124 | so does every life of a pool, with any producers and policies |
| PoolSteps.Progress | ioserver_demo/include/spdlog/details/thread_pool-inl.h:45-56 | no deadlock: until the destructor returns, it or some worker has a step |
| PoolSteps.StepProgresses | ioserver_demo/include/spdlog/details/thread_pool-inl.h:45-124 | every step of the shutdown decreases a measure of queue, unposted terminates and work in hand |
| PoolSteps.WhenDone | ioserver_demo/include/spdlog/details/thread_pool-inl.h:45-56 | at the end each worker has taken one terminate message and the queue is empty |
| PoolSteps.TakenBeforeExit | ioserver_demo/include/spdlog/details/thread_pool-inl.h:92-117 | before any worker ends, all other messages have been taken |
| PoolSteps.HandlesAll | ioserver_demo/include/spdlog/details/thread_pool-inl.h:45-124 | every message queued or in hand when the shutdown starts is handled exactly once |
| PoolSteps.Returns | ioserver_demo/include/spdlog/details/thread_pool-inl.h:45-56 | the destructor can return if and only if the queue can hold a message, that is for sizes other than 0 and the largest |
| PoolSteps.BlocksForEver | ioserver_demo/include/spdlog/details/thread_pool-inl.h:45-56 | a new pool with a queue for no messages, or for the largest number of them, cannot be destroyed |
| PoolWaits.MoveKeeps | ioserver_demo/include/spdlog/details/mpmc_blocking_q.h:30-90 | with sleeping and notified threads: no move of any thread lets the messages outnumber the threads that will see to them while a worker sleeps, or the free slots while a caller sleeps |
| PoolWaits.NoLostWakeup | ioserver_demo/include/spdlog/details/mpmc_blocking_q.h:30-90 | so in every life of a pool, whichever sleeper each `notify_one` picks, no worker sleeps over a message and no caller over a free slot unless some thread is about to notify or to test |
| PoolWaits.PlayIsLife | ioserver_demo/include/spdlog/details/mpmc_blocking_q.h:30-90 | the moves of sleeping and waking threads take the pool through a life of `PoolSteps`, so that what is proved there of the guards holds of the waits |
| PoolWaits.RestInService | ioserver_demo/include/spdlog/details/thread_pool-inl.h:80-124 | in service, when no thread inside the pool has a move left: every call has returned, the queue is empty and every message has been handled |
| PoolWaits.RestAtEnd | ioserver_demo/include/spdlog/details/thread_pool-inl.h:45-56 | in the shutdown, no thread has a move left if and only if it is over |
| PoolWaits.ShutdownEnds | ioserver_demo/include/spdlog/details/thread_pool-inl.h:45-56 | the destructor with its waits and notifications: a bounded number of moves, two more for every wake-up without reason; it cannot stop before it is over, and then every message has been handled once |
| Filenames.SplitByExtension | ioserver_demo/include/spdlog/details/file_helper-inl.h:132-150 | base and extension together are the path |
| Filenames.SplitsAtExtension | ioserver_demo/include/spdlog/details/file_helper-inl.h:119-150 | the split is at the extension if and only if the last part of the path has one |
| Filenames.CalcFilenameInjective | ioserver_demo/include/spdlog/sinks/rotating_file_sink-inl.h:54-64 | different indices give different files |
| Filenames.IndexBeforeExtension | ioserver_demo/include/spdlog/sinks/rotating_file_sink-inl.h:51-64 | file 0 has the name itself, all others have their index between dots before the extension, or at the end if there is none |
| Filenames.DecimalValue | ioserver_demo/include/spdlog/sinks/rotating_file_sink-inl.h:63 | the index is written in decimal without leading zeros |
| Filenames.DecimalInjective | ioserver_demo/include/spdlog/sinks/rotating_file_sink-inl.h:63 | different numbers are written differently |
| RotatingFileSink.Open | ioserver_demo/include/spdlog/sinks/rotating_file_sink-inl.h:27-50 | throws exactly for a zero size, too many files or a file that cannot be opened; otherwise the active file exists, and the files are as before, after one rotation exactly if that is asked for and the active file was not empty |
| RotatingFileSink.FileHelper.Open | ioserver_demo/include/spdlog/details/file_helper-inl.h:28-64 | opens for appending, creating or truncating the file |
| RotatingFileSink.RotatingFileSink.Rotate | ioserver_demo/include/spdlog/sinks/rotating_file_sink-inl.h:103-137 | the files move up one index, gaps with them; exactly the part that has no place is deleted; no other file of the system changes |
| RotatingFileSink.RotationDeletesOldest | ioserver_demo/include/spdlog/sinks/rotating_file_sink-inl.h:103-137 | what a rotation deletes is the oldest part of the log |
| RotatingFileSink.RotatingFileSink.RotateNow | ioserver_demo/include/spdlog/sinks/rotating_file_sink-inl.h:73-76 | the same on request; the size estimate stays and covers the file |
| RotatingFileSink.RotatingFileSink.SinkIt | ioserver_demo/include/spdlog/sinks/rotating_file_sink-inl.h:79-96 | appends to the active file without any rotation if the estimated size stays within the limit or the file is empty, and otherwise rotates once and starts the active file with the message; the log stays the end of everything written; the active file exceeds the limit only when it is exactly this message |
| RotatingFileSink.Run | ioserver_demo/include/spdlog/sinks/rotating_file_sink-inl.h:73-137 | over any run of messages and rotations: the files, from the highest index to 0, hold a suffix of everything written, and no foreign file changes; and if the byte count fits `size_t`, the active file keeps to its limit or is one message |
| RotatingFileSink.LogAfterWrite | ioserver_demo/include/spdlog/details/file_helper-inl.h:100-108 | text added to the active file is added to the log |
| StackCollapse.StackCollapser.LoadStackIdentifiers | tools/FlameGraph/stackcollapse-chrome-tracing.py:112-130 | the table gains, for every event once, its own time under the label of its stack; in total the time of the events that were put on an empty stack |
| StackCollapse.StackCollapser.SaveStack | tools/FlameGraph/stackcollapse-chrome-tracing.py:91-109 | adds the time of the top to the entry of the joined names |
| StackCollapse.StackCollapser.PopStopped | tools/FlameGraph/stackcollapse-chrome-tracing.py:119-121 | exactly the events that have stopped are saved and taken off |
| StackCollapse.StackCollapser.PushEvent | tools/FlameGraph/stackcollapse-chrome-tracing.py:123-126 | the new event's parent gives up its time |
| StackCollapse.IdentifierIsPath | tools/FlameGraph/stackcollapse-chrome-tracing.py:96-101 | the identifier is the chain of names |
| StackCollapse.CantorPairingInjective | tools/FlameGraph/stackcollapse-chrome-tracing.py:61-63 | in integers, events of different threads never share a key |
| StackCollapse.FloatKeysDifferIff | tools/FlameGraph/stackcollapse-chrome-tracing.py:61-63 | with the floating-point division of the source: the keys up to n tell the threads apart if and only if n is at most 2^53 |
| StackCollapse.FloatKeyInjective | tools/FlameGraph/stackcollapse-chrome-tracing.py:61-63 | keys of at most 2^53 are as good in floats as in integers |
| StackCollapse.FirstCollision | tools/FlameGraph/stackcollapse-chrome-tracing.py:61-63 | the pairs with the keys 2^53 and 2^53 + 1 share the key 2^53 in floats |
| TraceStacks.StackIsEnclosing | tools/FlameGraph/stackcollapse-chrome-tracing.py:112-126 | for well-nested input, the label of an event is the chain of all events that enclose it |
| TraceStacks.TwoEvents | tools/FlameGraph/stackcollapse-chrome-tracing.py:57-58 | two events: the second is labelled under the first, and takes its time, exactly if it starts before timestamp and duration of the first have passed |
| TraceStacks.ParentRuns | tools/FlameGraph/stackcollapse-chrome-tracing.py:119-124 | an event has a parent only while the parent runs |
| TraceStacks.SelfTimeNonNegative | tools/FlameGraph/stackcollapse-chrome-tracing.py:123-124 | for well-nested input no saved time is negative |
| TraceStacks.NonNegativeIff | tools/FlameGraph/stackcollapse-chrome-tracing.py:119-124 | for events in order of time, no own time is negative if and only if, for every event, the durations of the later events for which it is the last one still running sum to at most its own |
| TraceStacks.ParentIsLastRunning | tools/FlameGraph/stackcollapse-chrome-tracing.py:119-124 | the parent of an event is the last earlier one that has not stopped when it starts |
| TraceStacks.OverlapCanBeNegative | tools/FlameGraph/stackcollapse-chrome-tracing.py:123-124 | of two events the first has a negative own time if and only if the second starts before it stops and is longer |
| TraceStacks.SelfTimesAddUp | tools/FlameGraph/stackcollapse-chrome-tracing.py:112-130 | the own times sum to the durations of the outermost events, for any input |
| TraceStacks.NoMoreChildren | tools/FlameGraph/stackcollapse-chrome-tracing.py:119-124 | an event taken off the stack gives up no more time |
| TaskPool.ThreadPool.Enqueue | ioserver_demo/include/thread_pool.h:65-71 | accepted with the next number, or refused exactly when the pool is stopped |
| TaskPool.ThreadPool.TakeTask | ioserver_demo/src/common/thread_pool.cpp:10-22 | a worker takes the oldest task |
| TaskPool.ThreadPool.Stop | ioserver_demo/src/common/thread_pool.cpp:83-94 | under every scheduling `stop` returns, with every worker ended; every accepted task has then run exactly once if and only if there was a worker or nothing to run |
| TaskPool.ThreadPool.Destroy | ioserver_demo/src/common/thread_pool.cpp:29-39 | the destructor, with the same results under every scheduling |
| TaskPool.StopThenDestroy | ioserver_demo/src/common/thread_pool.cpp:29-39 | a new pool with workers, stopped and then destroyed: the destructor does not return |
| TaskPool.ThreadPool.Resize | ioserver_demo/src/common/thread_pool.cpp:41-81 | once its wait is over: all tasks accepted so far have run exactly once, the new workers wait, and tasks are accepted again |
| TaskSteps.StepSound | ioserver_demo/src/common/thread_pool.cpp:5-94 | every step of workers, submitters and the controlling thread keeps: tasks start in order of submission, what has started has finished or is in hand, and workers end only when the pool is stopped with no task left |
| TaskSteps.RunAtMostOnce | ioserver_demo/src/common/thread_pool.cpp:5-94 | over every interleaving, resizes included, each accepted task runs at most once and no other runs |
| TaskSteps.WhenStopped | ioserver_demo/src/common/thread_pool.cpp:83-94 | when `stop` returns: all workers joined, and the exact condition for every task to have run |
| TaskSteps.JoiningGoesOn | ioserver_demo/src/common/thread_pool.cpp:29-94 | while `stop`, `resize` or the destructor joins, some thread can go on |
| TaskSteps.JoiningProgresses | ioserver_demo/src/common/thread_pool.cpp:29-94 | and each such step decreases a measure |
| TaskSteps.DestructorOutcome | ioserver_demo/src/common/thread_pool.cpp:29-39 | a destructor called at any time ends under every scheduling, after a bounded number of steps and never stuck: it returns if and only if no worker has been joined before, and otherwise it ends the program at the join that throws |
| TaskSteps.WhenDestroyed | ioserver_demo/src/common/thread_pool.cpp:29-39 | when it returns, every worker is joined, and every accepted task has run exactly once if and only if there was a worker or nothing to run |
| TaskSteps.DestructorReturnsIff | ioserver_demo/src/common/thread_pool.cpp:29-39 | over whole lives of a pool: the destructor fails if and only if there are workers and `stop` has returned since they were started |
| TaskWaits.MoveKeeps | ioserver_demo/src/common/thread_pool.cpp:10-22 | with sleeping and notified threads: no move of any thread lets the tasks outnumber the threads that will see to them while a worker sleeps, outside the wait of `resize`; and once the pool is stopped and all are notified, no worker sleeps |
| TaskWaits.NoLostTask | ioserver_demo/include/thread_pool.h:65-72 | so in every life of a pool, outside that wait, no worker sleeps over a task unless some thread is about to notify or to test |
| TaskWaits.PlayIsRun | ioserver_demo/src/common/thread_pool.cpp:5-94 | the moves of sleeping and waking threads take the pool through a run of `TaskSteps` |
| TaskWaits.RestServes | ioserver_demo/src/common/thread_pool.cpp:41-50 | when no thread inside the pool has a move left: every call has returned and every task has been taken that there is a worker for, if and only if no `resize` sleeps |
| TaskWaits.ResizeSleepsOn | ioserver_demo/src/common/thread_pool.cpp:43-46 | a `resize` that sleeps does so for ever, whatever the workers do, unless a task is submitted later or it wakes without reason |
| TaskWaits.ResizeIsStuck | ioserver_demo/src/common/thread_pool.cpp:43-46 | such a life: the worker empties the queue and `resize` sleeps on |
| TaskWaits.TaskIsLost | ioserver_demo/src/common/thread_pool.cpp:43-46 | and a life in which `resize` takes the notification of a new task: it stays in the queue, and the worker and `resize` sleep |
| TaskWaits.StopEnds | ioserver_demo/src/common/thread_pool.cpp:83-94 | `stop`, and `resize` once it has stopped the workers, with their notifications: a bounded number of moves, and some thread has a move until the call has returned |
| TaskWaits.DestructorEnds | ioserver_demo/src/common/thread_pool.cpp:29-39 | the destructor likewise, with the same exact condition for its return |

## Left out

- SysAlloc: only growth of the one segment or failure; direct mapping, new segments, `prepend_alloc`, `disable_contiguous` after a failed extension and `footprint_limit` are not part of this model.
- DlFree: `should_trim` is false; `sys_trim`, `release_unused_segments` and mapped chunks are not modelled, nor is the branch for a pointer that is not live, which ends in the usage error action.
- DisposeChunk: as for DlFree, mapped chunks are not modelled.
- InitSpace: the first request's initialization is a step of its own before a run, for a segment that the system has given.
- InternalMemalign: alignments above 2^63 are excluded because the source's loop does not end for them (RoundingEnds); in a run such a call is passed over.
- IallocSome: the model stops where the sums have wrapped and the request is granted all the same (`TooSmall`): the source then cuts elements out of an aggregate that has no room for them (NoRoom), and what it overwrites is not modelled. The same holds for IallocAny, and a run passes over such a call.
- InsertLargeChunk: uses the `size_t` form of `compute_tree_index`; FormsAgree says for which sizes the x86 form is the same.
- Memcpy: memory is modelled by words; a part of a word is compared by its low bytes.
- The lock code, footers, `mspace_*` clones, `mallinfo`, statistics, `mallopt`, `bulk_free`, `dlcalloc` (a `DlMalloc` and a clearing) and `dlrealloc_in_place` (a `TryReallocChunk`) of malloc.c: clones or single branches.
- CircularQ.constructor: the counts for which `std::vector` throws are excluded; moving a queue onto itself is not modelled.
- PostAsyncMsg: loggers, sinks and their exceptions are not part of this model.
- Destroy: requires a queue that can hold a message; Returns proves that the destructor cannot return otherwise. Producers that still post during destruction are excluded, as the source demands.
- SinkIt: the size bound is stated for byte counts that fit `size_t`; failing writes, and other processes that change the files, are not modelled. `Run` has the same limits.
- Open: a file with a name can always be opened; only the empty name fails.
- FileHelper.Open: likewise; the retries and the creation of directories are not modelled.
- Rotate: removing and renaming existing files succeed; the second try after a failed rename is not modelled.
- SplitByExtension: for the folder separator `/` only.
- LoadStackIdentifiers: times are real numbers, without rounding; the grouping of entries and the sort by time that come before are library calls and not modelled. For the grouping key, FloatKeysDifferIff says how far the integer form carries over.
- Resize: starts when its wait for an empty queue is over; ResizeSleepsOn and RestServes say when it is not. `stop`, `resize` and the destructor are called by one thread.
- MoveKeeps: a mutex is held only within one move, and the timed wait of `dequeue_for`, which the pool does not use, is not among the moves.
- The I/O server, database manager, socket, BPF, storage and signal demos, the demo pools under `thread_pool/` and `concurrent/`, and spdlog's formatting, registry and other sinks: library calls, or many easy members.
