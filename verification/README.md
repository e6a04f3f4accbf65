# Verified core of PlatypOS

A Dafny model of the parts of the PlatypOS kernel and its tracing tools where correctness
depends on interleavings, on linked structures or on stream boundaries, with proofs of
what those parts promise. `dafny verify dfyconfig.toml` checks everything.

**The lock-free slab** (`slab/`). `SlabMachine` is a step machine: any number of agents
run `insert`, `get`, `remove` and `Ref::drop`, one atomic access to shared memory per
step, in any order; a processor's local list is touched in one step, and overflow of a
packed counter halts. `Packing` relates packed 64-bit words to the values the machine
compares. `SlabLists`, `SlabLifecycle`, `SlabInvariant` and `SlabCounts` hold the
invariant: where every slot is, what its lifecycle says, why a stalled pop cannot be
fooled, and how often each entry has been cleared. `SlabTheorems` states what follows over
whole runs, about the machine's own state and events only, `SlabAnswers` that lookups and
failures are answered truthfully, and `SlabWords` that every word and lifecycle in a run
fits in 64 bits, so that comparing packed words is comparing values. `SlabFrames` says what
each operation leaves alone. `SlabCalls` keeps a diary of every run from the outside, what
each agent was asked and what its call has brought about, and proves that the answers clients
get are the ones the diary says; the theorems speak of these answers. `SlabRouting` proves
which free list a slot goes back to.

The theorems ask for a safe start: a slab at rest whose global list carries tags below the
tag counter, as an empty list does, or a slab of one slot. `Slab::new` of two or more slots
is not one: both the primed entries and the first push have tag 0. `SlabNew` gives the run
in which a stalled pop then puts a slot in use on top of the free list, and its sequel in
which a reference loses its slot and its release panics. It proves for exactly which primed
slabs each slot stays in one place, and for exactly which references stay safe.
`SlabSolo` holds the pieces such runs are made of.

**Spans** (`ktrace/src/lib.rs`). `SpanMachine` puts `new_span`, `clone_span` and
`try_close` on top of the slab machine, with every slab access still a step of its own;
`SpanInvariant`, `SpanSteps` and `SpanTheorems` prove the lifetime of a span. A handle is
closed at most once and not while it is being cloned, as Rust's ownership has it. The
kernel creates its slab of 128 spans with `Slab::new`, whose tag counter starts at 0, and
there the results are false: `SpanNew` gives the run in which a span with an open handle
loses its slot to a new span, and proves that the results hold in every run exactly when the
primed slab has at most one slot or a counter above 0. `Options` is the option type shared
by all modules.

**The root page allocator** (`kernel/src/mm/`). `RunLists` treats the list of runs as a
value: splitting, coalescing, and the theorem that a coalesced list is determined by the
memory it describes and by its empty runs, which only allocations of 0 pages leave.
It also says exactly when looking at whole runs finds every stretch of free pages.
`AllocatorRuns` draws the consequences for sequences of requests, and says exactly when
empty runs get in the way.
`RunNodes` and `RootAllocator` are the class with its three intrusive lists (all runs,
free runs, unused nodes), proved to do to the list of runs what `RunLists` says.
`MemoryMerge` and `AllocatorBuild` are the construction from the memory map.

**Trace messages** (`ktrace/proto`, `ktrace/decoder`). `Wire` is the primitive layer of the
postcard 1.0 wire format as parsers that consume a prefix, `Utf8Texts` the meaning of its
texts, `TraceMessages` the messages with their name-typed fields, `FieldVisitor` the sending side, `TraceDecoder` the decoder that
works on a stream arriving in pieces.

**The interrupt-safe mutex** (`common/src/sync.rs`, `hal/src/interrupts.rs`).
`InterruptMutex` interleaves the steps of `lock`, `try_lock` and guard drops on any
number of cores with interrupts and nested handlers.

## Model

| member | source | states |
|---|---|---|
| Packing.WordRoundTrip | slab/src/free_lists.rs:24-40 | a free-list entry of a legal slab survives packing into 64 bits and never equals the EMPTY word |
| Packing.BareIndexIsEntry | slab/src/free_lists.rs:117-144 | the bare index kept by a local list is the packed entry with tag 0, and only entries with tag 0 are bare indices |
| Packing.LifecycleInjective | slab/src/slot.rs:27-40 | equal packed lifecycles have equal state, generation and refcount, so a compare-and-exchange compares all three |
| Packing.IdxRoundTrip | slab/src/lib.rs:41-48 | an index survives packing, and one of a positive generation is a non-zero word |
| Packing.EntryBits | slab/src/free_lists.rs:24-40 | 18 bits of index, then 46 bits of tag; EMPTY is all ones |
| Packing.LifecycleBits | slab/src/slot.rs:15-40 | 2 bits of state in the order of its declaration, then 46 bits of generation, then 16 bits of refcount |
| Packing.IdxBits | slab/src/lib.rs:41-48 | 46 bits of generation, then 18 bits of slot number |
| SlabInvariant.PopIsCurrent | slab/src/free_lists.rs:86-106 | a pop whose exchange is about to succeed holds the current `next` of the current top, however long ago it read it |
| SlabInvariant.StepInv | slab/src/lib.rs:95-182 | every step of every operation keeps the ownership, lifecycle and tag invariant |
| SlabLists.TakeOwned | slab/src/free_lists.rs:86-106 | taking the top of a list moves exactly that slot from the list to its taker |
| SlabLists.GiveOwned | slab/src/free_lists.rs:55-83 | a push moves exactly the held slot to the top of one list, all other lists unchanged |
| SlabLifecycle.AcquireLifecycles | slab/src/slot.rs:122-161 | a successful acquire keeps every count equal to the number of references |
| SlabLifecycle.DropLifecycles | slab/src/slot.rs:165-205 | a release in progress names a slot of its generation that is not unallocated and has a positive count, so none of its panics can be met |
| SlabLifecycle.ReleaseCounts | slab/src/slot.rs:165-205 | a successful release takes one reference and one count away, so every count is still the number of references |
| SlabCounts.StepCounts | slab/src/slot.rs:193-201 | every step keeps the record of how often each entry was granted for clearing and put back |
| SlabTheorems.SlotOwnership | slab/src/lib.rs:95-182 | from a safe start, after any run each slot is on one free list once, or held by one operation, or live |
| SlabTheorems.SpellsAlike | slab/src/free_lists.rs:55-144 | the list reached from a head through `next` cells is unique, so ownership speaks of the memory itself |
| SlabTheorems.TreiberStack | slab/src/free_lists.rs:55-106 | every step moves the chain from the global head as a stack: a pop takes the current top, a push adds one new entry, nothing else changes it |
| SlabCalls.Answers | slab/src/lib.rs:93-167 | after any run: the value kept for an index is the argument of the `insert` that returned it; `remove` answers true if and only if a step of that very call removed the entry; `get` answers exactly the reference its own call acquired; a failed `insert` gives its argument back |
| SlabTheorems.ReferenceSafety | slab/src/slot.rs:122-205 | after any run a slot's refcount is its number of references, and a referenced slot keeps its generation and the value its `insert` was called with, and is held by nobody |
| SlabTheorems.CallsAccepted | slab/src/lib.rs:95-182 | an idle agent can call `insert`, and `get` and `remove` with any index at all, and drop any reference nobody is dropping |
| SlabTheorems.NoPanic | slab/src/lib.rs:169-182 | an agent inside an operation can step exactly when no counter is at its limit: no index out of bounds, no failed `expect`, no drop of unwritten contents |
| SlabTheorems.ExactlyOnceClearing | slab/src/slot.rs:265-342 | the right to clear an entry is obtained at most once; once it is removed and unreferenced, exactly once, and its slot is put back exactly once |
| SlabTheorems.StepKeepsDead | slab/src/slot.rs:128-140 | no step revives an index that no longer matches its slot, and no `get` or `remove` of it succeeds |
| SlabTheorems.StaleStaysDead | slab/src/slot.rs:265-309 | after a successful `remove`, every later `remove` of that index answers false and every later `get` of it answers nothing, in every continuation |
| SlabAnswers.MissesAreJust | slab/src/lib.rs:117-167 | `remove` answers false and `get` answers nothing, about an index an `insert` returned, only if an earlier step of the run removed it |
| SlabAnswers.InsertFailsOnlyWhenFull | slab/src/lib.rs:95-101 | when `insert` fails the global list is empty and every slot is live, held by an operation, or on some processor's local list |
| SlabAnswers.LocalListWasEmpty | slab/src/lib.rs:95-101 | an insert that fails has, earlier in the run and in the same call, found the local list of its processor empty, with nothing but its search of the global list since |
| SlabAnswers.GlobalIsSecond | slab/src/lib.rs:95-101 | an insert that takes its slot from the global list has, in the same call, found the local list of its processor empty |
| SlabRouting.RightList | slab/src/lib.rs:142-156 | over any run, a slot goes back on top of the local list of the processor that filled it if the call that clears it ran there only, and on top of the global list if it did not run there |
| SlabWords.IndicesDistinct | slab/src/lib.rs:95-112 | `insert` returns each index at most once over a run; it names a slot, is a non-zero u64, and unpacks to itself |
| SlabWords.PackedWordsAgree | slab/src/free_lists.rs:24-144 | after any run from words that fit, every compare-and-exchange on packed heads and lifecycles succeeds exactly when the values are equal, and a packed head is EMPTY exactly when the list is empty |
| SlabNew.New | slab/src/lib.rs:59-91 | the constructor's loop links all slots in order into a global list with tag 0 and a counter of 0 |
| SlabNew.PrimedTagFresh | slab/src/lib.rs:73-83 | a primed slab is tag-fresh if and only if its counter starts above 0 |
| SlabNew.PrimedSafeStart | slab/src/lib.rs:73-90 | a primed slab of one slot, or of more with a counter above 0, is a safe start |
| SlabNew.PrimedFits | slab/src/lib.rs:59-91 | the words and lifecycles of a primed slab of legal size fit in 64 bits |
| SlabNew.StalledPop | slab/src/free_lists.rs:55-106 | from `Slab::new` with two or more slots, a disciplined run reaches a state whose global head is a slot in use |
| SlabNew.PrimedSafeExactly | slab/src/lib.rs:73-90 | every run keeps each slot in one place if and only if the primed slab has one slot, or has slots and a counter above 0 |
| SlabNew.ReferenceLosesSlot | slab/src/slot.rs:122-161 | from `Slab::new` with two or more slots, a disciplined run gives a slot under a live reference to another insert, moving its generation |
| SlabNew.ReleaseFails | slab/src/slot.rs:165-205 | and then the drop of that reference is about to panic |
| SlabNew.PrimedRefsSafeExactly | slab/src/lib.rs:73-90 | in every run counts match, references keep their entries and no release panics, if and only if the primed slab has at most one slot or a counter above 0 |
| SlabNew.GuessedIndexUnsafe | slab/src/slot.rs:102-111 | a `get` with an index not yet returned can yield a reference to contents never written |
| SlabNew.MatchTrustedExactly | slab/src/slot.rs:102-140 | a slot that is Allocated at the generation of an index is held by no operation if and only if some `insert` returned that index, and then it holds the inserted value |
| SpanInvariant.InnerStep | ktrace/src/lib.rs:133-139 | every slab access inside a span operation keeps the span invariant |
| SpanSteps.Created | ktrace/src/lib.rs:133-141 | `new_span` ends with one handle and a counter of 1 |
| SpanSteps.Cloned | ktrace/src/lib.rs:215-221 | `clone_span` adds one to a counter that exists and opens one handle |
| SpanSteps.Uncounted | ktrace/src/lib.rs:223-230 | the `fetch_sub` of `try_close` finds a positive counter and returns 1 exactly when no handle is left |
| SpanTheorems.PlayedInv | ktrace/src/lib.rs:133-238 | the slab inside any run of span operations makes a disciplined run of its own, and the span invariant holds after it |
| SpanTheorems.SpanLifetime | ktrace/src/lib.rs:215-238 | from a safe start: the counter is the number of open handles; at most one `try_close` returns true, none while a handle is open; when the last handle is closed and nobody works on the span, exactly one has, and the slot was cleared and put back once, by whichever path |
| SpanTheorems.SpanOperationsSucceed | ktrace/src/lib.rs:215-238 | from a safe start: `get` on an open handle succeeds, counters do not wrap, the closer that takes a counter to zero closes the last handle, and its `remove` succeeds |
| SpanTheorems.MissingSpan | ktrace/src/lib.rs:215-227 | when `get` finds no span, a clone counts nothing and a close answers false and gives its handle up, changing no counter |
| SpanNew.OpenSpanLosesSlot | ktrace/src/lib.rs:133-139 | over a `Slab::new` of two or more slots, a run of span operations ends with a span whose handle is open and counter is 1 and whose slot belongs to a newer generation |
| SpanNew.CloneFindsNothing | ktrace/src/lib.rs:215-221 | and then `clone_span` of the open handle finds no span |
| SpanNew.PrimedSpansExactly | ktrace/src/lib.rs:106-112 | span lifetimes are right in every run, and span operations succeed in every run, each if and only if the primed slab has at most one slot or a counter above 0 |
| RunLists.CarveKeeps | kernel/src/mm/root_allocator.rs:322-360 | allocating out of a run keeps the list sorted, without overlap and coalesced |
| RunLists.CarveMembers | kernel/src/mm/root_allocator.rs:322-360 | allocating takes exactly its pages out of the free memory and adds one allocation |
| RunLists.CoalesceKeeps | kernel/src/mm/root_allocator.rs:477-534 | joining a run with both neighbours repairs a list in which only its own pairs could be joined |
| RunLists.ReleaseKeeps | kernel/src/mm/root_allocator.rs:378-386 | deallocating keeps the list sorted, without overlap and coalesced |
| RunLists.ReleaseMembers | kernel/src/mm/root_allocator.rs:378-386 | deallocating gives exactly its pages back, removes that allocation and touches no other |
| RunLists.SameMemorySameRuns | kernel/src/mm/root_allocator.rs:477-534 | coalesced lists with the same allocations, tracking runs, free pages and empty runs are equal |
| RunLists.ReleaseUndoesCarve | kernel/src/mm/root_allocator.rs:322-396 | deallocating what was just allocated, 0 pages included, restores the list of runs exactly |
| RunLists.FirstFitExactly | kernel/src/mm/root_allocator.rs:302-319 | every stretch of consecutive free pages lies in one free run if and only if no two non-empty free runs touch |
| RunLists.StretchExactly | kernel/src/mm/root_allocator.rs:302-319 | that many consecutive free pages exist if and only if some row of touching free runs, empty runs skipped, is that long |
| RunLists.SearchCompleteExactly | kernel/src/mm/root_allocator.rs:302-319 | for every count some run fits if and only if that many consecutive free pages exist, if and only if every row of touching free runs is matched by a single run at least as long |
| RunLists.UnsplitComplete | kernel/src/mm/root_allocator.rs:302-319 | in particular if no two non-empty free runs touch |
| RunLists.SplitYetComplete | kernel/src/mm/root_allocator.rs:302-319 | which is not necessary: a list with touching free runs on which the search finds everything |
| RunLists.RunBound | kernel/src/mm/root_allocator.rs:477-534 | the number of runs is at most twice the allocations and tracking runs plus the segments of memory |
| AllocatorRuns.ReleasableExactly | kernel/src/mm/root_allocator.rs:366-396 | a range can be deallocated if and only if it is a live allocation that no earlier run of the same range hides |
| AllocatorRuns.ReleasableIsLive | kernel/src/mm/root_allocator.rs:366-396 | a range of at least one page, or any range when no run is empty, can be deallocated if and only if it is a live allocation |
| AllocatorRuns.FreedRunHides | kernel/src/mm/root_allocator.rs:366-396 | of two allocations of 0 pages at one place, once one is freed the other is live but cannot be freed |
| AllocatorRuns.AllocationWasFree | kernel/src/mm/root_allocator.rs:302-360 | every page of an allocation was free and in no allocation or tracking run |
| AllocatorRuns.RequestsKeep | kernel/src/mm/root_allocator.rs:297-396 | after any sequence of requests, allocations of 0 pages included: sorted, disjoint, coalesced list, same tracking runs, same covered pages, bounded number of runs; if no allocation was of 0 pages, no run is empty, no free runs touch and the search finds every stretch of free pages |
| AllocatorRuns.SameLiveSameRuns | kernel/src/mm/root_allocator.rs:297-396 | two sequences of requests that leave the same non-empty allocations live leave equal lists if and only if they leave the same empty runs |
| AllocatorRuns.PositiveSameRuns | kernel/src/mm/root_allocator.rs:297-396 | without allocations of 0 pages, the same live allocations always mean equal lists |
| AllocatorRuns.FreeingRestores | kernel/src/mm/root_allocator.rs:366-396 | once everything is freed, in whatever order and allocations of 0 pages included, the list is the initial one |
| AllocatorRuns.ZeroPagesLeaveTraces | kernel/src/mm/root_allocator.rs:297-396 | a freed allocation of 0 pages can leave an empty run that the same live allocations do not otherwise have |
| RootAllocator.AllocatorInner.Coalesce | kernel/src/mm/root_allocator.rs:477-534 | the two-sided merge on the linked lists does what the list operation says; merged nodes leave the free list and are recycled at the back |
| RootAllocator.AllocatorInner.FindNext | kernel/src/mm/root_allocator.rs:426-432 | the cursor found is the first run starting at or after the given start |
| RootAllocator.AllocatorInner.AddRun | kernel/src/mm/root_allocator.rs:437-474 | succeeds if and only if the run overlaps neither neighbour; then the run is in the list, joined unless it is an allocation; a free run comes last in the free list, or takes over the place of the neighbour it joins |
| RootAllocator.AllocatorInner.AddAllocatableRange | kernel/src/mm/root_allocator.rs:409-423 | succeeds if and only if a node is left and the range fits; the invariant is kept, and a range that joins nothing is added at the end of the free list |
| RunNodes.WithoutKeepsOrder | kernel/src/mm/root_allocator.rs:322-335 | unlinking a node leaves all others in their order |
| RootAllocator.AllocatorInner.Allocate | kernel/src/mm/root_allocator.rs:297-361 | takes the first fitting run of the free list, the lowest one while that list is in ascending order, and leaves the rest of the list in place; fails exactly when no run fits, changing nothing; fails exactly when that many consecutive free pages do not exist, if no run is empty, or no free runs touch, or every row of touching free runs is matched by a single run; runs out of nodes only on a split without one, and never below the node bound |
| RootAllocator.AllocatorInner.Deallocate | kernel/src/mm/root_allocator.rs:366-396 | succeeds exactly on releasable ranges, which are the live allocations but for hidden empty ones, and puts the run first in the free list or in the place of the neighbour it joins; otherwise the right error and no change; never panics |
| RootAllocator.ZeroPagesBreakFirstFit | kernel/src/mm/root_allocator.rs:297-396 | calls of the allocator from ten free pages, with an allocation of 0 pages, end with ten consecutive pages free and an allocation of ten refused |
| RootAllocator.AllocatorInner.InitTrackingSpace | kernel/src/mm/root_allocator.rs:543-588 | lays out the nodes and adds a tracking run for their memory |
| MemoryMerge.MergeRanges | kernel/src/mm/root_allocator.rs:180-194 | the in-place loop terminates and computes the recursive merge |
| MemoryMerge.MergedSeparated | kernel/src/mm/root_allocator.rs:180-194 | merged ranges are strictly separated |
| MemoryMerge.MergedAddsNothing | kernel/src/mm/root_allocator.rs:186-190 | every merged page was in some range |
| MemoryMerge.MergeLosesNothingExactly | kernel/src/mm/root_allocator.rs:180-194 | no page is lost if and only if no range reaches beyond the last range before a gap |
| MemoryMerge.NestedRangeLosesPages | kernel/src/mm/root_allocator.rs:187-190 | a range nested in its predecessor makes the merge lose pages |
| AllocatorBuild.FindTracking | kernel/src/mm/root_allocator.rs:112-133 | picks the first usable region of four pages that shares no byte address, end points included, with a reserved range; none is an error, an unaligned one a panic; no tracking page is reserved |
| AllocatorBuild.CollectRanges | kernel/src/mm/root_allocator.rs:150-175 | one range per usable region, without the tracking pages; panics exactly on a misaligned region or one too small for them |
| AllocatorBuild.SortByStart | kernel/src/mm/root_allocator.rs:178-178 | a permutation sorted by start |
| AllocatorBuild.TidyMeans | kernel/src/mm/root_allocator.rs:150-175 | tidy means that usable regions start and end at multiples of 4096, are not empty and share no bytes, and a usable page is one whose bytes lie in such a region |
| AllocatorBuild.CollectableMeans | kernel/src/mm/root_allocator.rs:152-172 | a region is collected without a panic if and only if it starts and ends at multiples of 4096 and has the tracking pages if it starts with them; it offers its whole pages but those |
| AllocatorBuild.Build | kernel/src/mm/root_allocator.rs:100-220 | an error exactly when every usable region of four pages shares an address with a reserved range; tracking on the first that does not; for a tidy map it then succeeds exactly when there is a node for the tracking run and for each stretch of usable memory left, with free plus tracking pages exactly the usable memory and the free list in ascending order |
| AllocatorBuild.MergedCount | kernel/src/mm/root_allocator.rs:180-194 | the ranges left after merging are as many as the pages after usable regions that are not free |
| AllocatorBuild.BuiltAllocatorRuns | kernel/src/mm/root_allocator.rs:198-231 | after any requests on a built allocator the list is sorted, disjoint and coalesced, the runs cover exactly the usable memory, tracking is intact, and with nothing allocated the list is as built; without allocations of 0 pages the search finds every stretch of free pages |
| Wire.VarintRoundTrip | ktrace/proto/src/lib.rs:26-29 | a varint within its width is read back with its length |
| Wire.BindStreams | ktrace/decoder/src/lib.rs:77-85 | parsers that read left to right compose: more input changes neither a value nor an error |
| Wire.PrefixIsShort | ktrace/decoder/src/lib.rs:77-79 | any strict prefix of what such a parser reads is reported as too short |
| Wire.BadFlagFails | ktrace/proto/src/lib.rs:95-96 | an option whose flag is neither 0 nor 1 is an error, whatever follows |
| Utf8Texts.Utf8Exactly | ktrace/proto/src/lib.rs:89-97 | the bytes taken for a text are exactly the UTF-8 encodings of sequences of Unicode scalar values |
| TraceMessages.VisitMap | ktrace/proto/src/fields.rs:112-127 | the field loop reads exactly the announced number of fields, stopping at the first error or shortage |
| TraceMessages.EntriesSound | ktrace/proto/src/fields.rs:112-127 | fields that were read are known, have the type the table gives their name, and are as many as announced |
| TraceMessages.FieldsRead | ktrace/proto/src/fields.rs:146-228 | fields that match the table are read back |
| TraceMessages.MetadataReads | ktrace/proto/src/lib.rs:89-118 | metadata is read back, absent file and line included |
| TraceMessages.MessageRoundTrip | ktrace/proto/src/lib.rs:32-97 | every message whose fields match the table is read back, leaving any following bytes alone |
| TraceMessages.MessageCutShort | ktrace/proto/src/lib.rs:32-97 | every strict prefix of a message is too short, never another message or an error |
| TraceMessages.MessageHonest | ktrace/decoder/src/lib.rs:77-85 | the decoder never waits in vain: whatever bytes it holds, some continuation makes them a message or an error |
| TraceMessages.UnknownVariantsFail | ktrace/proto/src/lib.rs:32-118 | a message, parent or level of an unknown variant is an error, whatever follows |
| TraceMessages.UnknownFieldFails | ktrace/proto/src/fields.rs:117-123 | a field whose name is not in the table is an error, whatever follows |
| FieldVisitor.Visitor.Record | ktrace/proto/src/fields.rs:256-307 | a value is written if its name's type allows it; a refusal sticks; unknown names and unused kinds panic |
| FieldVisitor.SerializeFields | ktrace/proto/src/fields.rs:72-81 | succeeds exactly when all values are allowed and then writes them all; panics exactly when a value of an unused kind, or an unknown name before any refusal, is recorded |
| FieldVisitor.WrittenReadsBackExactly | ktrace/proto/src/fields.rs:36-81 | what was written is read back if and only if the announced map length is the number of recorded values |
| FieldVisitor.NumbersReadAs | ktrace/proto/src/fields.rs:144-176 | a recorded number is read back as a kernel, virtual or physical address or as a number, name by name, and is refused under every other name |
| FieldVisitor.TextsReadAs | ktrace/proto/src/fields.rs:144-217 | a recorded or formatted text is read back under `message` and `range`, and is refused under every other name |
| TraceDecoder.FindMarker | ktrace/decoder/src/lib.rs:38-38 | the first position of the marker, or none |
| TraceDecoder.Decoder.ReadInitial | ktrace/decoder/src/lib.rs:26-52 | for every way of cutting the stream into reads, what is written out precedes the first marker of the whole stream and what is kept was read after it |
| TraceDecoder.Decoder.DeliverBuffered | ktrace/decoder/src/lib.rs:72-87 | handing over buffered messages leaves what remains to be handed over the same, whatever is still to come |
| TraceDecoder.Decoder.Decode | ktrace/decoder/src/lib.rs:54-91 | the callback is given the messages of all bytes after the marker as if parsed at once, up to its first rejection or the first bad message; nothing if no read follows the marker's chunk |
| TraceDecoder.MarkerWhereWritten | ktrace/decoder/src/lib.rs:26-52 | the marker is first found where it was written if and only if the bytes before it hold none and do not end with its first half |
| TraceDecoder.SentIsReceived | ktrace/decoder/src/lib.rs:26-91 | console bytes, the marker, sent messages and the start of one more, cut into reads in any way: the decoder writes out the console bytes and an accepting callback is given exactly the sent messages, or nothing if no read follows the marker's chunk |
| InterruptMutex.StepInv | common/src/sync.rs:67-96 | every orderly step, interrupts included, keeps the invariant of cores, frames and locks |
| InterruptMutex.InterruptSafety | common/src/sync.rs:17-26 | in every reachable state a core that holds a lock has interrupts disabled, only its running frame holds one, and no lock is held twice |
| InterruptMutex.ReleaseRestores | hal/src/interrupts.rs:55-61 | in every orderly run the end of a release, and of a failed `try_lock`, leaves the interrupt state the core had at the beginning of that very call of `lock` or `try_lock` |
| InterruptMutex.GuardsRemember | common/src/sync.rs:67-96 | after any run the guards of a core are its calls not yet undone, in order, each with its lock and the interrupt state at its own beginning |
| InterruptMutex.TryLockAnswers | common/src/sync.rs:76-96 | in every orderly run one attempt ends a `try_lock`: with its guard on a free lock; on a taken one, whichever core holds it, with nothing locked and one more step to the interrupt state it found; `lock` goes on exactly while the lock is taken |
| InterruptMutex.CallProceeds | common/src/sync.rs:67-96 | a call or drop in progress can always take exactly one step, which brings it closer to its end unless it is `lock` on a taken lock |
| InterruptMutex.CoreAccepts | hal/src/interrupts.rs:20-61 | a frame in the middle of nothing can lock, drop any guard and force the interrupt state; interrupts arrive exactly when enabled; a handler returns to interrupts enabled |
| InterruptMutex.LastInFirstOutIsOrderly | common/src/sync.rs:17-26 | dropping guards in the reverse order of their making is orderly |
| InterruptMutex.DropSafeExactly | common/src/sync.rs:17-26 | dropping a guard keeps interrupts disabled while a lock is held if and only if the guard found them disabled or is the core's last |
| InterruptMutex.HandlerDeadlocks | common/src/sync.rs:19-21 | with interrupts enabled while a lock is held, three steps lead to a handler that waits for a lock the interrupted frame of its own core holds, and trying again changes nothing |
| InterruptMutex.OutermostFirstDeadlocks | common/src/sync.rs:17-26 | from a start with interrupts enabled, taking two locks and dropping the first guard first leads to that deadlock |

## Left out

- Weak memory: steps are sequentially consistent, and the race on `next` cells is a plain read.
- Dropping a `Slab` with live entries, and the values' own destructors.
- Reserved ranges are not removed from allocatable memory by the code, and nothing is claimed about them beyond the choice of tracking pages.
- SpanTheorems.SpanLifetime: only from a safe start, because it is false over a `Slab::new` of two or more slots; `PrimedSpansExactly` is the exact condition. The `references` counter is a natural number, so 2^64 open handles do not wrap it around.
- SpanTheorems.SpanOperationsSucceed: only from a safe start, for the same reason and with the same exact condition.
- Page and byte addresses are natural numbers: ranges at the very end of the 64-bit address space do not overflow.
- Growing the tracking memory, which the code does not do: running out of nodes is the outcome `Panic`.
- Debug assertions: `Run::initialize` asserts that a node is unused, but a recycled node keeps its old status, so a debug build halts when one is reused.
- AllocatorRuns.ReleasableIsLive: not for empty ranges among empty runs, where it is false, see `FreedRunHides`; `ReleasableExactly` covers all ranges.
- AllocatorBuild.Build: the scratch heap and the mapping of tracking pages always succeed, and the number of nodes that fit in them is a parameter. Regions are taken to end no earlier than they start, which `AddressRange::new` asserts.
- AllocatorBuild.SortByStart: the library sort is replaced by an insertion sort; only a sorted permutation is relied on.
- TraceDecoder.Decoder.Decode: write errors on the drain are not modelled; a callback is a function of the messages it has been given.
- TraceDecoder.FindMarker: the library's substring search is replaced by a linear one.
- FieldVisitor.SerializeFields: a serializer whose buffer is full is not modelled.
- Wire: postcard is not part of the repository; the model follows its published wire format, and where bytes are short or malformed the behaviour of its 1.0 deserializer.
- InterruptMutex: `force_enable` by code that holds a guard, plain `disable` guards without a lock, and fairness of the spin lock.
- The thingbuf queue, the worker, `SpanStack`, `Global`, the heap allocator, console, symbolizer, boot, APIC and build tooling.
