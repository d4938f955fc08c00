# Models of the jhc compiler and its runtime

This project models algorithmic parts of the jhc Haskell compiler and proves what they
promise. `dafny verify dfyconfig.toml` checks everything.

**Slab allocator and garbage collector** (`Bits`, `Bitmap`, `BitValues`, `SmartPtr`,
`Heap*`, `Slab*`, `Monoliths`, `MarkStack`, `Collector`, `Mutator*`). Blocks carry a bitmap in an array
of 64-bit units and sit on intrusive lists of caches and an arena; these are classes whose
methods relink and rewrite in place. Each method is tied to a function on a plain value,
the `Slabs` state, and the lemmas prove what those functions keep. The heap is a graph of
tagged words. A lazy word whose target has been evaluated counts as the value it was
redirected to; reachability is defined over these normal forms. The invariant the runtime
documents, that WHNF pointers never target thunks and redirections are never chained, is
explicit, and every step of the running program and of the collector keeps it. The main
results: marking is exactly reachability, a collection changes nothing the program can
observe, the sweep partitions the blocks, skipping the bitmap clear is sound. What the running
program does is an abstract machine (`MutatorSpec`), of which every run of the objects in place
is proved to be a run (`Mutator.Run`): over all of them the invariant holds after every step, and
no object is made at a place that is still in use.

**Fixpoint solver** (`FixpointSpec`, `FixpointSolver`). An equation is a strategy: given the
values read so far it returns a result or names the next variable to read, so dependencies
depend on values. The solver's two arrays and its worklist are as in the source. Equations
are required to end on all values of the variables and to read existing ones, as the source
needs; how a refilled worklist is ordered is a parameter that lists each pending index once.

**Atoms** (`StringArena`, `Cuckoo*`, `StringTable`). An append-only store of
strings in chunks, and a cuckoo table of two hashes and two buckets with eviction and nested
growth. The hash function is a parameter, so the results hold for every hash. A lookup fails only
when the chunks are used up or a table of 2^31 slots cannot take its entry (`Atoms.Lookup`).

**C statements** (`CStatements`, `CFlow`, `CRun`, `CPeephole`,
`CDropped`, `COptimise`). The statements the
code generator builds, nested, with gotos that may lead anywhere in the body; the peephole
optimisation that runs on every join; the pulling of labels out of inner statements. Control
flow is a tree from the entry and from each label up to the next jump; a step-by-step run of
the statements is proved to be a run of these trees. The optimisation keeps what a body does if
and only if it drops no label, and which bodies these are is told from the plain statements.

**Numbers** (`Powers*`, `Numeric`, `Float*`). Integer logarithm, rounding of digit lists, and
the digits of floating point numbers with unbounded integers: that they are right wherever the
search for the exponent starts, and exactly when where it starts leaves no leading zero.

**Digests and hashes** (`Octets`, `Md5*`, `Lookup3*`). Streaming MD5 against RFC 1321, and the hash whose
three alignment-specialised paths agree with a bytewise definition. Both definitions give the
published values, step by step on numbers (`Md5Vectors`, `Lookup3Vectors`).

**Quoting** (`Quoting`). The round trip of quoted argument lists.

Where code and documentation disagree the code is modelled:

- a comment at rts/rts/gc_jgc.c:386 speaks of 80% of the heap; the code uses nine tenths;
- a comment at rts/rts/gc_jgc.c:441-447 says that `best` is the block with the fewest free
  entries; `free_best` is read from the displaced block, so it need not be: `FrontNotFullest` is
  an input, `FrontFullestIff` says exactly when it is, `FrontBound` what holds always;
- gc_alloc has no bound on the size, but a block of entries of 170 words and more holds one entry,
  and of 255 words none, and then s_alloc takes a bit that belongs to no entry: `TwoEntriesIff` and
  `FewEntriesOverrun`;
- the sweep of the monolithic blocks follows a link it has just rewritten and ends with the first
  marked block; those behind it drop off the list: `Sweep` and `SweptRightIff` of `Monoliths`;
- callers may pass strings of up to 256 bytes, but the length byte of 256 is zero:
  `ReadBackIffLengthFits` and `Intern` say exactly what holds;
- floatToDigits has `b` where the published algorithm has `b^e` (lib/jhc/Numeric.hs:266):
  `PublishedIff` says where the two differ. What is printed always reads back (`DigitsReadBack`),
  but for the least mantissa with an exponent of two and more it need not be the shortest or the
  nearest that does: `NotNearest` is an input, `ShortestIff` the exact condition,
  `ShortestUnlessLeast` says that there is no other case;
- a comment at lib/jhc/Numeric.hs:278-281 says that the estimate of the exponent errs on the low
  side; it does down to 2^-979 (`NoLeadingZero`), and from 2^-980 on it need not, so that the
  digits begin with a zero (`LeadingZeroBelow`); `LeadingZeroIff` says exactly when they do;
- roundTo takes half the base with the remainder dropped: `RoundsIffEven`;
- joining C statements can lose a label inside an unreachable statement: `JoinSameIffClean` for
  one join, `OptimisedRunsAlike` for whole bodies.

## Model

| member | source | states |
|---|---|---|
| `Bits.SetBit` | rts/sys/bitarray.h:13-26 | or-ing with `1UL << i` sets bit i of a 64-bit unit and leaves every other bit alone, for all i and j |
| `Bits.FromBits` | rts/rts/gc_jgc.c:498-499 | `~((1UL << e) - 1)` has exactly the bits from e upwards |
| `Bits.FfsNot` | rts/rts/gc_jgc.c:313-315 | `ffsl(~w)` is zero exactly for an all-ones unit, otherwise one more than the index of the lowest clear bit |
| `Bitmap.SetBitAt` | rts/sys/bitarray.h:16-26 | BIT_SET changes exactly the addressed bit of the array |
| `Bitmap.ClearUsedBits` | rts/rts/gc_jgc.c:493-504 | the bitmap written by clear_block_used_bits: which bits it leaves set, for every entry count, including multiples of 64 |
| `Bitmap.ClearedIffPartialUnit` | rts/rts/gc_jgc.c:497-499 | that bitmap says that no entry is used if and only if the entry count is not a multiple of 64 |
| `Bitmap.FindFree` | rts/rts/gc_jgc.c:307-322 | terminates whenever some unit is not all ones; takes the lowest clear bit of the first unit in cyclic order that has one; exactly that bit changes |
| `SlabLayout.EntriesFit` | rts/rts/gc_jgc.c:574-577 | for every block size and object size, header, bitmap and all entries stay inside the block |
| `SlabLayout.BlockUsed` | rts/rts/gc_jgc.c:574-577 | the block is used: with n entries, n + 1 of them and their bitmap bits would still fit behind the header, and n + 2 would not |
| `SlabLayout.OffsetTight` | rts/rts/gc_jgc.c:574-577 | the offset of the first entry is that of the first word behind the bitmap, and the bitmap has the fewest units with a bit an entry |
| `SlabLayout.GoodGeometry` | rts/rts/gc_jgc.c:574-577 | for 1 to 169 words the entry count is between 2 and 500 and no multiple of 64, and the offset fits its byte |
| `SlabLayout.TwoEntriesIff` | rts/rts/gc_jgc.c:574-577 | of the sizes the size field can hold, exactly those up to 169 words leave room for two entries |
| `SlabLayout.FewEntriesOverrun` | rts/rts/gc_jgc.c:535-553 | of the sizes above 169 words, 255 leaves no entry and any other one; with one, the search after the first allocation takes a bit behind it |
| `SlabLayout.SBlockIsPage` | rts/rts/gc_jgc.h:28-28 | for every power of two as block size, masking the byte address of any word of any entry gives the address of its block |
| `SlabLayout.AddressRecovered` | rts/rts/gc_jgc.c:604-611 | for every block, header and object size: from the address of any word of any entry, the page and, dividing the offset by the size, the entry number are recovered |
| `SlabLayout.EntriesDisjoint` | rts/rts/gc_jgc.c:604-611 | for every block and header size a word belongs to one entry of one block only |
| `SlabLayout.EntryAddress` | rts/rts/gc_jgc.c:553-561 | from the address s_alloc returns, the block and the entry that was taken can be read back |
| `SmartPtr.TagRoundTrip` | rts/rts/jhc_rts.h:28-39 | pointer tests and untagging on a tagged word depend on the tag and give back the payload; tagged words are equal only if tag and payload are |
| `SmartPtr.EncodedTests` | rts/rts/jhc_rts.h:28-39 | the bit tests IS_LAZY, IS_PTR, GET_PTYPE and FROM_SPTR on the word of a pointer decide and return what the model does on the pointer |
| `SmartPtr.EncodedOnce` | rts/rts/jhc_rts.h:28-39 | different pointers have different words, if different locations have different addresses |
| `HeapGraph.ReachInside` | rts/rts/gc_jgc.c:92-119 | reachability over normalised words stays inside every closed set that holds the start |
| `HeapInvariant.NormTarget` | rts/rts/jhc_rts.c:64-66 | a normalised pointer leads to a live object, and to no evaluated lazy location: WHNF pointers never target thunks, redirections are never chained |
| `HeapInvariant.StartLive` | rts/rts/gc_jgc.c:136-187 | everything reachable from the roots and the normalised stack is live |
| `HeapInvariant.InUseAllocated` | rts/rts/gc_jgc.c:136-187 | everything in use, evaluated lazy locations directly on the stack included, is allocated |
| `HeapInvariant.AllocationKeeps` | rts/rts/gc_jgc.c:510-563 | handing out an entry keeps the documented heap invariant |
| `HeapMark.AddGreyKeeps` | rts/rts/gc_jgc.c:84-90 | greying a reachable object keeps the traversal invariant, whether or not it has pointers to scan; only one that has goes on the mark stack |
| `HeapMark.ScanStepKeeps` | rts/rts/gc_jgc.c:103-117 | one word of the scan, short-circuited or not, keeps the traversal invariant and never raises the termination measure |
| `HeapMark.PopGreyKeeps` | rts/rts/gc_jgc.c:95-97 | taking an object off the mark stack lowers the measure: unmarked live objects plus stack depth |
| `HeapMark.MarksAreReachable` | rts/rts/gc_jgc.c:127-187 | when marking ends, the marked objects are exactly those reachable over normalised words, plus evaluated locations held directly on the stack |
| `HeapMark.LiveWordsNormal` | rts/rts/gc_jgc.c:103-117 | every scanned word of every reachable object is its normal form; none points lazily at an evaluated location |
| `HeapMark.WorldStaysOk` | rts/rts/gc_jgc.c:127-187 | the heap after marking satisfies the heap and root invariants again |
| `HeapMeaning.StackMeaningKept` | rts/rts/gc_jgc.c:103-117 | whatever path of words is followed from a stack word, through objects, constants and CAFs, the program sees the same before and after a collection |
| `HeapMeaning.CafMeaningKept` | rts/rts/gc_jgc.c:103-117 | the same for every CAF, evaluated or not |
| `HeapMeaning.FollowKept` | rts/rts/jhc_rts.c:115-126 | `follow` yields the same value of every scanned word of every live object; no thunk head changes; no scanned word still points lazily at an evaluated location |
| `HeapMeaning.RawWordsKept` | rts/rts/gc_jgc.c:103-117 | words behind the scanned ones are never written |
| `HeapMutation.WritingKeeps` | rts/rts/gc_jgc.c:250-258 | writing the words of a fresh object keeps the heap invariant |
| `HeapMutation.StoringKeeps` | rts/rts/jhc_rts.c:58-66 | storing a safe pointer into an evaluated node keeps the heap invariant |
| `HeapMutation.UpdatingKeeps` | rts/rts/jhc_rts.h:84-90 | overwriting the head of a lazy location with a WHNF value keeps the heap invariant |
| `HeapMutation.UpdatedRegistered` | src/C/FromGrin2.hs:899-902 | the update of a lazy location, followed by the registration of the value if it is a CAF, keeps the heap and root invariants |
| `HeapMutation.RootedPtr` | rts/rts/gc_jgc.c:73-82 | a pointer may be registered if and only if what it points to is live |
| `HeapMutation.CafNeedsRoot` | src/C/FromGrin2.hs:899-902 | after updating a CAF the root invariant holds if and only if the value is registered as a root or needs no root |
| `SlabModel.NoneFreeIffAllMarked` | rts/rts/gc_jgc.c:460-461 | num_free is zero exactly when every entry bit is set |
| `SlabModel.MarkTracks` | rts/rts/gc_jgc.c:604-621 | num_free stays the number of clear entry bits when an entry is marked |
| `SlabBlock.Block.Clear` | rts/rts/gc_jgc.c:493-504 | clearing a block in place gives the cleared bitmap for its entry count |
| `SlabBlock.Block.TakeFirst` | rts/rts/gc_jgc.c:544-545 | `used[0] = 1` on a cleared bitmap marks entry 0 and nothing else, although with one unit it erases the padding bits |
| `SlabBlock.Block.TakeFree` | rts/rts/gc_jgc.c:547-553 | the search in a block with free entries finds a previously clear entry below num_entries, the first one in cyclic order from where the last search ended, and ends there |
| `SlabBlock.FoundIsEntry` | rts/rts/gc_jgc.c:307-322 | the bit found belongs to an entry also when the padding bits were erased |
| `SlabSteps.MarkEntryKeeps` | rts/rts/gc_jgc.c:604-621 | marking keeps every list, every counter and the disjointness of the lists |
| `SlabSteps.GiveKeeps` | rts/rts/gc_jgc.c:535-546 | giving a free block to a cache keeps the invariant and marks exactly its entry 0 |
| `SlabSteps.TakeFromKeeps` | rts/rts/gc_jgc.c:547-562 | taking an entry from the first block keeps the invariant, also when the block moves to the full list; exactly the taken entry becomes marked |
| `SlabSweep.BodyKeeps` | rts/rts/gc_jgc.c:458-487 | one round of the sweep, whatever `free_best` is, keeps every block in exactly one list, or loose, or the candidate |
| `SlabSweep.SweptAll` | rts/rts/gc_jgc.c:439-491 | after the sweep, blocks with live entries are still held, empty ones are free, and no mark has changed |
| `SlabRace.BodyRaces` | rts/rts/gc_jgc.c:470-481 | one round of the sweep is one round of the race for the front: candidate and `free_best` are those of the race over the counts visited so far |
| `SlabRace.FrontNotFullest` | rts/rts/gc_jgc.c:441-449 | free counts 5, 3, 4: the block with 4 is left in front |
| `SlabRace.FrontBound` | rts/rts/gc_jgc.c:470-481 | the front is one of the blocks visited, and no emptier than the first of them |
| `SlabRace.FrontFullestIff` | rts/rts/gc_jgc.c:441-481 | the front is a fullest block if and only if, behind the first fullest one, the next block with fewer free entries than `free_best` has then, if any, is a fullest one too |
| `SlabArena.Arena.SetUsedBit` | rts/rts/gc_jgc.c:604-621 | the in-place method: its answer and the new state of all blocks |
| `SlabArena.Arena.ClearUsedBits` | rts/rts/gc_jgc.c:584-598 | walking both intrusive lists of every cache, newest cache first, clears every held block and no other |
| `SlabArena.Arena.SweepCache` | rts/rts/gc_jgc.c:448-489 | one pass relinks every block of the cache into full, free or partial by its free count; none is lost or duplicated; the winner of the race heads the partial list; block_used drops by the number freed |
| `SlabArena.Arena.CleanupBlocks` | rts/rts/gc_jgc.c:439-491 | the same for all caches, newest first |
| `Monoliths.Add` | rts/rts/gc_jgc.c:260-272 | the new block comes first in the list and is marked |
| `Monoliths.ClearUsed` | rts/rts/gc_jgc.c:588-590 | every block of the list is unmarked, the list stays |
| `Monoliths.Sweep` | rts/rts/gc_jgc.c:418-438 | the blocks before the first marked one are freed, that one is all that is left in the list |
| `Monoliths.SweptRightIff` | rts/rts/gc_jgc.c:418-438 | marked blocks stay listed and the others are freed if and only if no block stands behind the first marked one |
| `SlabArena.Arena.StartBlock` | rts/rts/gc_jgc.c:535-545 | a reused block is set up correctly, with the bitmap clear skipped exactly when num_free already equals num_entries |
| `SlabArena.Arena.TakeEntry` | rts/rts/gc_jgc.c:547-558 | the in-place branch of s_alloc for a block with free entries |
| `SlabArena.Arena.NewCache` | rts/rts/gc_jgc.c:565-582 | a new cache has empty lists and is searched first; one more entry than it has would fit into 4096 bytes with a header of 24, two more would not; the allocator can work with it exactly for the sizes for which two entries fit |
| `SlabArena.Arena.FindCache` | rts/rts/gc_jgc.c:623-639 | finds a cache with this size and pointer count if there is one, else makes one |
| `MarkStack.Stack.Check` | rts/rts/gc_jgc.c:47-69 | after the check there is room for n more entries and the contents are unchanged; the stack grows, by n + 1024, only if there was none |
| `MarkStack.Stack.Push` | rts/rts/gc_jgc.c:88-89 | a push within the checked room keeps the contents below it |
| `Collector.Heap.AddGreyTo` | rts/rts/gc_jgc.c:84-90 | the in-place method is the greying step of the traversal and uses at most one stack place |
| `Collector.Heap.MarkDeeper` | rts/rts/gc_jgc.c:92-119 | the loop ends, empties the mark stack, never exceeds the checked capacity, and keeps the traversal invariant |
| `Collector.Heap.PerformGc` | rts/rts/gc_jgc.c:127-203 | allocated entries afterwards are exactly those in use before: reachable over normalised words, or evaluated locations on the stack; counters and lists are consistent; the heap is the short-circuited one |
| `Collector.Heap.CollectNow` | rts/rts/gc_jgc.c:739-742 | a collection the program asks for leaves a valid heap, the short-circuited one |
| `Collector.Heap.CollectIfDue` | rts/rts/gc_jgc.c:384-390 | a collection runs exactly if the count has reached the threshold; the threshold is doubled exactly if nine tenths of it are still in use |
| `Collector.RaisedEnough` | rts/rts/gc_jgc.c:384-390 | after a collection that left less than nine fifths of the threshold in use, less than nine tenths of the new one are; it stays if that was so already |
| `HeapMark.NotInUse` | rts/rts/gc_jgc.c:510-563 | an entry not allocated in the heap an allocation finds, with or without a collection, was not in use before |
| `Collector.Heap.GetFreeBlock` | rts/rts/gc_jgc.c:369-405 | a collection runs exactly if no block is free and this one would reach the threshold; otherwise the heap is as it was; no entry becomes allocated; the new threshold |
| `Collector.Heap.SAlloc` | rts/rts/gc_jgc.c:510-563 | the entry handed out was not in use before and is the only one that becomes allocated; a collection runs exactly if the cache has no block with a free entry and one is due; the address is that of the entry |
| `MutatorSpec.StepKeeps` | rts/rts/jhc_rts.c:58-162 | every step of the program, allocations and collections included, keeps the heap and root invariants |
| `MutatorSpec.MadeFresh` | rts/rts/gc_jgc.c:250-258 | an allocation, with or without a collection, makes the object at a place not in use before, live, with the given words, saved on the stack |
| `MutatorSpec.RunKeeps` | rts/rts/jhc_rts.c:58-162 | over every run of pushes, pops, allocations, loads, follows, stores, updates, roots and requested collections, the invariant holds after every step |
| `MutatorSpec.RunFresh` | rts/rts/gc_jgc.c:510-563 | over every such run, no object is made at a place still in use at that moment |
| `MutatorSpec.AllocationUnseen` | rts/rts/gc_jgc.c:103-117 | whatever path of words is followed from a stack word, a constant or a CAF, the program sees the same before and after an allocation, with or without a collection, and a requested collection |
| `Mutator.NewObject` | rts/rts/gc_jgc.c:250-258 | allocation with the initialisation that must follow is the machine's allocation step; the object is none that was in use |
| `Mutator.Load` | rts/rts/jhc_rts.c:58-66 | reading a word of a live object gives a pointer that is safe to hold |
| `Mutator.FollowWord` | rts/rts/jhc_rts.c:115-126 | following a stack word gives its normal form, safe to hold |
| `Mutator.Store` | rts/rts/jhc_rts.c:58-66 | a store changes exactly one word and keeps the heap valid |
| `Mutator.AddRoot` | rts/rts/gc_jgc.c:73-82 | registers the object of a heap pointer and nothing else; the heap stays valid exactly if it is live, thunks included |
| `Mutator.Update` | src/C/FromGrin2.hs:899-902 | the head of the location and nothing else is overwritten, then the value of a CAF is registered; the heap stays valid |
| `Mutator.Take` | rts/rts/jhc_rts.c:58-162 | each step on the objects in place is the machine's step from the old state to the new one, and reports the object it allocated |
| `Mutator.Run` | rts/rts/gc_jgc.c:510-563 | every run on the objects in place is a run of the machine from the old state to the new one, one object listed per allocation; so the invariant holds after every step and no object is made at a place still in use |
| `Mutator.ObjectsApart` | rts/rts/gc_jgc.c:553-553 | no word of memory belongs to two allocated objects |
| `FixpointSpec.UnreadIrrelevant` | src/FindFixpoint.hs:28-33 | changing variables an equation does not read changes neither its value nor what it reads, although reads depend on values |
| `FixpointSpec.UnchangedKeeps` | src/FindFixpoint.hs:61-65 | running an equation whose value has not changed keeps the worklist invariant: any index neither listed nor pending is satisfied, with its reads recorded |
| `FixpointSpec.ChangedKeeps` | src/FindFixpoint.hs:66-69 | writing a new value and making the recorded readers pending keeps the invariant |
| `FixpointSpec.NothingLeft` | src/FindFixpoint.hs:50-50 | with nothing listed or pending every equation evaluates to its stored value |
| `FixpointSpec.ApproachStep` | src/FindFixpoint.hs:66-67 | for monotone equations a step stays below every set of values closed under the equations, and a change moves up in the order |
| `FixpointSpec.StepMeasured` | src/FindFixpoint.hs:61-69 | a step leaves the variables as they are or lowers how much they can still grow |
| `FixpointSpec.LeastFixpointUnique` | src/FindFixpoint.hs:52-60 | the least fixpoint is unique, so the order of the refilled list does not matter |
| `FixpointSolver.Solver.GetVal` | src/FindFixpoint.hs:28-33 | records the reader before reading, and changes nothing else |
| `FixpointSolver.Solver.RunEquation` | src/FindFixpoint.hs:48-49 | the value is the equation's, and the reader is recorded at exactly the variables read |
| `FixpointSolver.Solver.Process` | src/FindFixpoint.hs:61-69 | both branches of the worklist step keep the invariant and leave exactly the equation's value, the recorded readers and the pending set of the step |
| `FixpointSolver.SolveFor` | src/FindFixpoint.hs:35-72 | for arbitrary equations and any bound on how many are run: what the worklist comes to; it ends exactly if the worklist does, and then every equation evaluates to its stored value |
| `FixpointSolver.Solve` | src/FindFixpoint.hs:35-72 | for monotone equations over an order of finite height with `empty` at the bottom it ends, with the least fixpoint |
| `StringArena.AtomNamesPlace` | src/StringTable/StringTable_cbits.c:33-36 | an atom names one place in one chunk and fits 22 bits; only the very first byte has number 0 |
| `StringArena.ReadBackIffLengthFits` | src/StringTable/Atom.hsc:85-89 | of the strings callers let through, up to 256 bytes, exactly those of less than 256 can be read back |
| `StringArena.Arena.MakeRoom` | src/StringTable/StringTable_cbits.c:58-65 | starts a chunk when the current one may be too short and gives up exactly when there are no more |
| `StringArena.LeftIff` | src/StringTable/StringTable_cbits.c:58-65 | a chunk is left exactly when a length byte and 256 bytes no longer fit its 16384, and the store is full exactly when that is so of the 256th; otherwise a string stands right behind the one before it |
| `StringArena.Arena.AddString` | src/StringTable/StringTable_cbits.c:50-78 | issues a new, nonzero atom for the bytes; what every issued atom stands for is unchanged; fails exactly when the chunks are used up |
| `StringArena.Arena.Find` | src/StringTable/StringTable_cbits.c:329-335 | gives the bytes an issued atom stands for |
| `CuckooModel.PutExchanges` | src/StringTable/StringTable_cbits.c:199-207 | putting an entry into a slot adds it or trades it for the one there; no other entry is affected |
| `CuckooModel.SlotIs` | src/StringTable/StringTable_cbits.c:102-106 | the buckets of a hash are neighbours among the 2^hsize slots of that hash, the first one being the neighbour of the last |
| `CuckooModel.SlotsMeetIff` | src/StringTable/StringTable_cbits.c:102-106 | two hash values share a slot exactly if they belong to the same hash and agree modulo the size |
| `CuckooModel.ProbesComplete` | src/StringTable/StringTable_cbits.c:253-272 | an entry of the table stands in one of the four slots of its own hashes |
| `CuckooModel.FiveNeverFit` | src/StringTable/StringTable_cbits.c:186-218 | five entries with the same two hashes never fit at any size, so growth cannot be shown to end without a bound |
| `CuckooInsertion.RoundOrder` | src/StringTable/StringTable_cbits.c:194-210 | a round tries both buckets of the first hash, then both of the second, each time of the entry that is then in hand |
| `CuckooTable.Table.Kick` | src/StringTable/StringTable_cbits.c:194-210 | one round in place is one round of the insertion on values |
| `CuckooTable.Table.HashInsert` | src/StringTable/StringTable_cbits.c:186-218 | insertion in place gives the table of the insertion on values, and fails exactly if there is none |
| `CuckooTable.Table.GrowTable` | src/StringTable/StringTable_cbits.c:164-177 | growth in place is growth on values, with the insertions that grow the table again |
| `CuckooInsertion.RoundsKeep` | src/StringTable/StringTable_cbits.c:192-214 | however many rounds of evictions, nothing is lost but what is in hand, and all else stands in slots of its own |
| `CuckooInsertion.RoundsStop` | src/StringTable/StringTable_cbits.c:192-214 | the rounds stop as soon as the entry in hand has a place or is the first one again, and otherwise after 512 |
| `CuckooInsertion.InsertAdds` | src/StringTable/StringTable_cbits.c:186-218 | insertion adds exactly the entry and loses none through any evictions and nested growth |
| `CuckooInsertion.GrowKeeps` | src/StringTable/StringTable_cbits.c:164-177 | a larger table with the same entries, each in a candidate slot for the new size |
| `CuckooInsertion.InsertStuck` | src/StringTable/StringTable_cbits.c:186-218 | insertion gives up only if, on a table of at least 2^31 slots holding some of the entries, the rounds leave another of them without a place |
| `StringTable.Absent` | src/StringTable/StringTable_cbits.c:253-272 | if none of the four slots holds the string, no issued atom stands for it |
| `StringTable.Atoms.Probe` | src/StringTable/StringTable_cbits.c:252-272 | finds the atom of the string if it has one; otherwise no atom stands for it |
| `StringTable.Atoms.Lookup` | src/StringTable/StringTable_cbits.c:237-283 | 0 for the empty string, the atom of a string that has one, otherwise a new atom; no other atom changes; fails only if the string is new, and either the last of 256 chunks has no room for a longest string or a table of at least 2^31 slots, with some of the entries, cannot take another |
| `StringTable.Atoms.Intern` | src/StringTable/StringTable_cbits.c:237-283 | over any run of lookups two atoms are equal exactly when their strings are (and shorter than 256 bytes), an atom is 0 exactly when its string is empty, and all atoms keep their bytes; the run fails exactly where one of its lookups does |
| `StringTable.KnownAnswered` | src/StringTable/StringTable_cbits.c:237-283 | a run over empty strings and strings that have atoms succeeds and changes nothing |
| `StringTable.Atoms.Append` | src/StringTable/StringTable_cbits.c:294-312 | the atom of the concatenation, as a lookup of it gives; the empty atom is neutral |
| `StringTable.Atoms.LexigraphicCompare` | src/StringTable/StringTable_cbits.c:285-292 | the comparison of the strings; for readable strings it is 0 exactly for equal atoms |
| `StringTable.LexZeroIffEqual` | src/StringTable/StringTable_cbits.c:285-292 | the comparison is 0 exactly for equal strings |
| `StringTable.LexOpposite` | src/StringTable/StringTable_cbits.c:285-292 | comparing the other way round negates the result |
| `StringTable.LexTransitive` | src/StringTable/StringTable_cbits.c:285-292 | the comparison is transitive |
| `StringTable.LexIsLexicographic` | src/StringTable/StringTable_cbits.c:285-292 | the comparison is negative exactly if the first string is a proper prefix of the second or smaller at the first byte where they differ |
| `CStatements.JoinAssociative` | src/C/Generate.hs:292-312 | mappend is associative on built statements |
| `CStatements.JoinBuilt` | src/C/Generate.hs:296-303 | joining built statements leaves no goto to the next label and nothing but labels behind a goto or return |
| `CStatements.PairOptIsFold` | src/C/Generate.hs:307-312 | pairOpt with its two recursive joins is a right fold of one-statement joins |
| `CStatements.LabelPull` | src/C/Generate.hs:425-428 | splits off exactly the labels at the end |
| `CPeephole.JoinSameIffClean` | src/C/Generate.hs:292-312 | joining keeps the control flow of the concatenation, from the entry and from every label, whatever follows, if and only if the unreachable statements it drops hold no label |
| `CPeephole.JoinMayLose` | src/C/Generate.hs:301-302 | a block with a label behind a return: joining loses the label |
| `CPeephole.JoinLosesLabel` | src/C/Generate.hs:292-312 | if they do hold one and no label is defined twice, some label leads somewhere before the join and nowhere after it, whatever follows |
| `CPeephole.SubBlockSame` | src/C/Generate.hs:440-441 | moving the last labels out of a block keeps the control flow |
| `CPeephole.CifSame` | src/C/Generate.hs:435-438 | the same for both branches of an if, given that no label is defined twice |
| `CPeephole.SwitchSame` | src/C/Generate.hs:430-433 | the same for all cases of a switch |
| `CDropped.OptLabels` | src/C/Generate.hs:292-441 | the whole construction adds no label, keeps all of them if nothing dropped holds one, and otherwise has fewer |
| `CDropped.NothingLostIsClean` | src/C/Generate.hs:292-441 | no join drops a label if and only if, in the plain statements, up to the next label, goto or return behind a goto or return labels stand only at the end of a statement |
| `CDropped.LostLabel` | src/C/Generate.hs:292-441 | otherwise some label of the body is missing in the result |
| `CRun.PickIs` | src/C/Generate.hs:191-194 | a switch takes the first case with the value, without one the first default, and without a default falls off |
| `CRun.RunIsFlow` | src/C/Generate.hs:169-194 | running statements step by step, with gotos found anywhere in the body, is running their control flow |
| `CRun.SameRuns` | src/C/Generate.hs:169-194 | bodies with the same control flow run alike from the entry and every label, jump for jump |
| `COptimise.SameYields` | src/C/Generate.hs:292-312 | same control flow, in either reading of labels, yields the same results |
| `COptimise.EnteredIff` | src/C/Generate.hs:169-194 | entering a body at a label stops for want of it if and only if the body does not define it |
| `COptimise.OptimisedRunsAlike` | src/C/Generate.hs:292-441 | given that no label is defined twice: a body of nested statements put together with mappend, subBlock, cif and switch' yields, from the entry and every label, exactly what the plain body yields, if and only if nothing is lost behind a goto or return |
| `COptimise.OptSeqBuilt` | src/C/Generate.hs:296-303 | the whole construction leaves no goto to the next label and nothing but labels behind a goto or return |
| `Numeric.IntegerLogBaseIsLog` | lib/jhc/Numeric.hs:93-102 | b^l <= i < b^(l+1) for every base of at least 2 and every positive i |
| `Numeric.RoundToRounds` | lib/jhc/Numeric.hs:220-230 | on an even base, for every list of digits and number of places: digits in range and, carry included, the floor of 0.digits * base^d + 1/2 |
| `Numeric.OddBaseRoundsWrong` | lib/jhc/Numeric.hs:222-226 | on an odd base a single digit is rounded up although it stands for less than a half |
| `Numeric.RoundsIffEven` | lib/jhc/Numeric.hs:220-230 | rounding is right for all digits and places if and only if the base is even |
| `FloatDigits.Fixup` | lib/jhc/Numeric.hs:286-292 | ends, with the first exponent from the estimate on for which (r + mUp) / s <= base^k |
| `FloatDigits.GenCorrect` | lib/jhc/Numeric.hs:294-302 | digit generation ends; digits are in range; the number is strictly within the distances; none of fewer digits is; none of as many digits is nearer, nor as near and larger |
| `FloatDigits.DigitsCorrect` | lib/jhc/Numeric.hs:274-309 | the same for the whole, for every number, base and estimate of the exponent |
| `FloatDigits.AdjustedKeepsValue` | lib/jhc/Numeric.hs:255-260 | the adjustment of denormalised numbers keeps the value and raises the exponent to the least one, no further |
| `FloatDigits.ScaleMeans` | lib/jhc/Numeric.hs:262-273 | r / s is the value and mUp / s half the distance to the next number above |
| `FloatDigits.PublishedHalfway` | lib/jhc/Numeric.hs:262-273 | with the published numbers mDn / s is half the distance to the next number below |
| `FloatDigits.PublishedIff` | lib/jhc/Numeric.hs:262-273 | the source has the published numbers except for the least mantissa with exponent 0 or of 2 and more |
| `FloatDigits.NotTooFarBelowIff` | lib/jhc/Numeric.hs:262-273 | its distance below exceeds half the distance to the neighbour exactly for the least mantissa with exponent 0 |
| `FloatDigits.DigitsReadBack` | lib/jhc/Numeric.hs:245-309 | for every positive float the printed number is strictly nearer to it than half the distance to either neighbour, the case just named included |
| `FloatShortest.WithinIffStops` | lib/jhc/Numeric.hs:294-302 | some number of n digits is within the distances exactly if the test of gen succeeds there |
| `FloatShortest.ShortestIff` | lib/jhc/Numeric.hs:262-309 | for every positive float, with the real distances: the digits are the fewest that read back and the nearest of that number, the larger of two as near, if and only if at the first place where the real test succeeds the source's smaller distance does not make it go on or take the farther digit |
| `FloatShortest.ShortestUnlessLeast` | lib/jhc/Numeric.hs:262-309 | they are, but possibly for the least mantissa with an exponent of two and more |
| `FloatShortest.NotNearest` | lib/jhc/Numeric.hs:262-309 | 32 with a mantissa of one digit is printed as 40, although 30 reads back and is nearer |
| `FloatEstimate.ZeroHasNone` | lib/jhc/Numeric.hs:247-247 | zero has no digits and exponent 0 |
| `FloatEstimate.FirstDigitIff` | lib/jhc/Numeric.hs:286-302 | wherever the search for the exponent starts: the first digit is positive exactly if the exponent below the start does not fit, and if it is zero the exponent is the start |
| `FloatEstimate.LeadingZeroIff` | lib/jhc/Numeric.hs:274-302 | the same for every float and base, with the start the source takes for radix two and base ten |
| `FloatEstimate.NoLeadingZero` | lib/jhc/Numeric.hs:274-302 | for radix two, base ten and a full mantissa, from 2^-979 up, the first digit is positive |
| `FloatEstimate.LeadingZeroBelow` | lib/jhc/Numeric.hs:274-302 | at 2^-980 the first digit is zero, in every format of at least six digits that has it above its least exponent |
| `Md5Process.Process` | src/cbits/md5sum.c:134-313 | the 64 steps written out, with their constants, are the four rounds of section 3.4 of RFC 1321 |
| `Md5Spec.Padding` | src/cbits/md5sum.c:366-379 | padding is one bit and the fewest zero bits that make the length 56 modulo 64 (section 3.1 of RFC 1321) |
| `Md5Spec.BlocksAppend` | src/cbits/md5sum.c:354-356 | processing whole blocks in two parts is processing them at once |
| `Md5Stream.State.CountUp` | src/cbits/md5sum.c:336-340 | the two count words hold eight times the length modulo 2^64, carries included |
| `Md5Stream.State.Append` | src/cbits/md5sum.c:325-361 | count, registers and buffer are those of the concatenated message |
| `Md5Stream.State.Finish` | src/cbits/md5sum.c:363-384 | the digest is that of the padded, length-suffixed message |
| `Md5Stream.Md5Data` | src/cbits/md5sum.c:125-132 | one shot: the digest of the data |
| `Md5Stream.Md5Pieces` | src/cbits/md5sum.c:325-384 | however a message is split, the digest is that of the whole |
| `Md5Stream.PadIsPadding` | src/cbits/md5sum.c:378-379 | the computed pad length gives the padding of RFC 1321 |
| `Md5Stream.CountBytesAreLength` | src/cbits/md5sum.c:375-377 | the bytes of the two count words are the 64-bit length, low byte first |
| `Md5Vectors.Md5Empty` | src/cbits/md5sum.c:134-384 | the digest of the empty message, as appendix A.5 of RFC 1321 gives it |
| `Md5Vectors.Md5Abc` | src/cbits/md5sum.c:134-384 | the same for "abc" |
| `Md5Vectors.Md5Digits` | src/cbits/md5sum.c:134-384 | the same for the ten digits eight times, a message of two blocks |
| `Lookup3Spec.MixBijective` | src/cbits/lookup3.c:114-122 | mix is a bijection on triples |
| `Lookup3Spec.MaskTakesOff` | src/cbits/lookup3.c:318-333 | masking the last word removes what stands behind the key, whatever it is |
| `Lookup3Spec.HashOfBlocks` | src/cbits/lookup3.c:404-449 | all of a key but its last one to twelve bytes is mixed in blocks of twelve; the last ones are added and the state goes through final |
| `Lookup3.Path32` | src/cbits/lookup3.c:289-333 | the 32-bit path is the bytewise hash of the key, regardless of what stands behind it |
| `Lookup3.Path16` | src/cbits/lookup3.c:357-402 | the 16-bit path is the bytewise hash of the key |
| `Lookup3.Path8` | src/cbits/lookup3.c:404-445 | the path with fall-through cases is the hash of the zero-padded key |
| `Lookup3.Last32` | src/cbits/lookup3.c:318-333 | the cases of the last block, masks included, add the key padded with zeros |
| `Lookup3.Last16` | src/cbits/lookup3.c:372-402 | the same for the cases of the 16-bit path |
| `Lookup3.Last8` | src/cbits/lookup3.c:425-445 | the same for the cases that fall through |
| `Lookup3.HashLittle` | src/cbits/lookup3.c:280-449 | one value per key and seed at every address and byte order, whatever stands behind the key |
| `Lookup3.HashLittle2` | src/cbits/lookup3.c:461-635 | both values; with second seed zero the first is hashlittle's |
| `Lookup3.HashWord` | src/cbits/lookup3.c:173-206 | on words it is hashlittle of their bytes |
| `Lookup3Vectors.SeedsNone` | src/cbits/lookup3.c:977-978 | both values of the listed text with both seeds zero, as the self-test lists them |
| `Lookup3Vectors.SecondSeed` | src/cbits/lookup3.c:979-980 | the same with second seed 1 |
| `Lookup3Vectors.FirstSeed` | src/cbits/lookup3.c:981-982 | the same with first seed 1 |
| `Lookup3Vectors.EmptyKey` | src/cbits/lookup3.c:971-976 | the three pairs of values of the empty key |
| `Lookup3Vectors.OneSeed` | src/cbits/lookup3.c:983-986 | the values of hashlittle for the listed text |
| `Quoting.QuoteRoundTrip` | src/GenUtil.hs:521-539 | unquoting a quoted list gives the list back, for all strings, empty ones, quotes and blanks included |
| `Quoting.OneReadsBack` | src/GenUtil.hs:532-539 | one quoted string is read back whole, and reading goes on behind it |
| `Quoting.BlankCodes` | src/GenUtil.hs:528-528 | which characters are blanks, by their codes |
| `Quoting.QuoteOneLength` | src/GenUtil.hs:521-526 | only an empty string or one with blanks or quotes is quoted, and grows by the quotes around it and one for each inside |
| `Quoting.SimpleQuoteLength` | src/GenUtil.hs:521-526 | one blank stands between two strings and nothing else is added |
| `Quoting.UnclosedReadToEnd` | src/GenUtil.hs:532-539 | where the closing quote is missing the rest is read as if it stood at the end |

## Left out

- FixpointSolver.Solve: the order of a refilled worklist, strongly connected components in reverse, is a parameter; only that it lists each pending index once is used.
- Collector.Heap.PerformGc: leaves out the loop over stable pointers (rts/rts/gc_jgc.c:145-150), which greys the malloc'ed record as if it were an entry of a slab block, so that what is read as its block's header is undefined; and the monolithic blocks, whose list `Monoliths` has: their mark test reads fields of the other view of a union (rts/rts/gc_jgc.c:609-613), so they are no objects of the heap model.
- SlabArena.Arena.CleanupBlocks: the loop over monolithic blocks is `Monoliths.Sweep`; finalizers and foreign pointers (rts/rts/gc_jgc.c:425-432, 674-715) are not modelled.
- SlabArena.Arena.ClearUsedBits: the loop over monolithic blocks is `Monoliths.ClearUsed`.
- The naive and the malloc-saving build variants, the retry path, profiling, debugging and valgrind code, status counters and the flags byte.
- Megablocks: fresh aligned blocks with undefined contents are supplied one by one.
- The arena: the list of caches and the root stack are sequences that grow at the end, and the caches are walked and searched from there, the newest first; the lists of blocks are intrusive as in the source.
- SlabArena.Arena.NewCache: sizes and pointer counts fit the bytes they are stored in; larger ones, which the source cuts, are not modelled.
- SlabArena.Arena.FindCache: the same; the caller's slot that remembers the cache found is not modelled, the search is.
- Mutator.NewObject: objects have 1 to 169 words, those of which a block of 4096 bytes with a header of 24 holds two; beyond that the source's own bookkeeping breaks, as `FewEntriesOverrun` shows. A fresh object is written before the next allocation, as the source demands of compiled code.
- Collector.Heap.constructor: the words of static nodes are raw or point to static nodes, as compiled programs have them, and no CAF has been evaluated.
- MutatorSpec.Stepped: `DoRoot` leaves out evaluated lazy locations, which need not be live: the collector would scan the words behind the head, which nothing keeps up to date.
- `eval` (rts/rts/jhc_rts.c:128-162) runs compiled code; only following a word and the final update are modelled.
- The collector: the words of all objects are one map from entries to words; address arithmetic is proved apart in `SlabLayout`, and `ObjectsApart` connects the two.
- CuckooTable.Table.HashInsert: gives up where the source's `1 << hsize` would leave the range of int and be undefined; five strings that share both hashes never fit at any size.
- StringTable.Atoms.Lookup: process exit and a table that cannot grow are one failure result; the mutexes are off in the source and not modelled.
- Drawn text: text drawn by the C generator is opaque, and may continue, jump to a label outside it, or return; labels inside drawn text (loops drawn as text) are not modelled.
- hashword2, which gives both values of hashword, and hashbig, the big-endian sibling of hashlittle.
- Pretty-printing, declarations and the drawing monad of src/C/Generate.hs, and name mangling.
- FloatDigits.DigitsCorrect: for other radices and bases than two and ten the estimate of the exponent by logarithms of floating point numbers is a parameter.
- Md5Stream.State.Append: data is shorter than 2^31 bytes, the range of its `int` length; shifting the length is taken modulo 2^32. Negative lengths return at once and are not modelled.
- Quoting: blanks are the list of those in the basic plane; there are no others.
- Options, the driver, statistics, parsers, type checking and the other compiler passes.
