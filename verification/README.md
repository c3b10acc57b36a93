# Verified models of three diagnostic cores

This project models, in Dafny, three pieces of a runtime that watch the runtime itself, and
proves what they report:

* **The backward points-to graph of the collector** (`external/bdwgc/backgraph.c`). It records,
  for every heap object with a debugging header, which objects point to it, computes how long a
  chain of unreachable objects leads to each reachable one, remembers those heights for one
  more collection and keeps the record.
* **The dirty-bit checker** (`external/bdwgc/checksums.c`). It compares checksums of pages from
  check to check and counts pages that changed without being recorded as dirty.
* **The debugger's method query** (`libil2cpp/il2cpp-mono-api.cpp:567-734`), with the doubling
  pointer array and the case-insensitive comparison it uses.

`dafny verify dfyconfig.toml` checks everything.

## How the back graph is organised

Three layers describe the same program:

1. `BackGraph.dfy` is the program as it is written: a class whose fields are the statics of the
   C file, an array of `back_edges` chunks linked by index, a header word for every object
   (nothing, one bare predecessor, or a structure), the growable table of objects on the search
   path, and 16-bit stamps. `SearchTable.dfy` is that table. A method that can reach `ABORT`
   returns false, and `Chunks.dfy` says exactly when that is.
2. `GraphModel.dfy` says what each operation does to a graph: a map from objects to predecessor
   lists, cached heights, RETAIN flags and counters, without chunks. `Heights.dfy` holds the
   depth-first search at this level. Every method of the class is proved to do to the graph
   exactly what its function here does (`Model() == ...`). `Arena.dfy` and `ArenaProofs.dfy`
   hold the invariant of the chunks and what every write does to it; `Conservation.dfy` says
   what the invariant means. `Search.dfy` joins the search path in the table to the search.
3. `Walks.dfy` says what heights ought to be, in terms of walks along recorded edges and nothing
   else. `Exactness.dfy`, `CycleFree.dfy`, `BuildProofs.dfy`, `TraverseProofs.dfy` and
   `AnyMarks.dfy` relate the functions of layer 2 to it. `Documented.dfy` gives the meaning of
   the printed number in terms of the heap alone; `Leftover.dfy` and `Overlooked.dfy` show what
   edges from earlier builds do to it.

`Cycles.dfy` is a state machine over builds, traversals, prints, allocations and frees, in which
prints may be skipped or repeated and passes may miss objects (`BlockScan.dfy` says which ones
they miss). It proves the invariant of every run; `Stamps.dfy` proves when 16-bit stamps are
enough, `Records.dfy` when a new record has an object to print, `Remembering.dfy` how long a
remembered height lasts. `Example.dfy` and `Dangling.dfy` hold the runs that show where these
fail. `Runs.dfy` performs such runs on the class of layer 1 and proves that
they end in the states of the state machine, so that the results about runs hold for the program.

The remembered part of a height makes "the longest path" a *weight*: the weight of a walk is
the number of its nodes, except that its first node counts for the height remembered for it, if
that is more than 1.

## Findings

* The comment at `backgraph.c:22-26` says that back edges of objects with high in-degree are
  dropped. The code keeps all of them in continuation chunks; the model follows the code.
* `backgraph.c:392` tests the header of `p`, which always has a structure there, where its
  comment speaks of `q`. The arm for bogus pointers is never taken; `HeightOfPred` keeps the
  branch as it is and is proved equal to the search without it.
* The height is the longest walk exactly when no cycle of recorded edges leads to the object
  (`HeightExactIff`). That it is exact without a cycle is a fact about the search; that it is not
  with one is a fact about walks, which have no greatest weight then. How the search itself goes
  wrong on a cycle is shown at inputs: it can be above the longest path that repeats no object
  (`TooHighOnCycle`) and below it (`TooLowOnCycle`). It is never above when every object that
  lies on a cycle and leads there owns a structure (`StructuresNeverTooHigh`). Where none of the
  objects that lead there owns one, it is the number of these objects, on a cycle or not
  (`BareHeight`).
* A new record has an object to print, for all marks and orders of visits, exactly when no
  remembered height is above the record as the traversal starts (`HolderIff`). That is so in every
  run that prints each new record before the next traversal (`RecordHasHolder`); closure of the
  marks is not needed for it. A print can be skipped: the one after the first collection is
  (`finalize.c:1353, 1368`). If that collection found a height, the next traversal may find it
  again as a new record and leave GC_deepest_obj null for `backgraph.c:480-487`
  (`SkippedPrintLosesHolder`). This does not happen when the first collection finds no height,
  as when the collector collects once before any object is allocated.
* A remembered height is said never to decrease (`backgraph.c:426-428`). It is lost exactly when
  a print finds it without the RETAIN flag (`CarriedIff`), which is what a second print after the
  same collection does (`SecondPrintForgets`, `PrintedTwice`). Without KEEP_BACK_PTRS nothing
  updates the number compared at `finalize.c:1368` (the assignment at 1382 is under that switch),
  so from the second collection on every call of GC_notify_or_invoke_finalizers prints and
  resets again.
* Stamps of 16 bits are enough in every run exactly as long as no more than 32768 traversals go
  from one print that visits all objects with a height to the next (`PrintGapIff`;
  `LongGapFails` has the run). Longer gaps endanger
  only objects that traversals leave unmarked, because a traversal stamps every marked object
  that has a height (`AttendedRight`).
* A pass over the heap does not visit every object. The loop over a block counts bytes but stops
  at a number of words (`backgraph.c:291`), so that it visits all objects of a block only if they
  are larger than 2048 bytes (`VisitsAllIff`). Objects that are missed are not scanned, not counted
  and not reset (`PassMissesChain`). The results here are stated for the objects that a pass does
  visit, and suppose nothing about the others.
* A build may add to edges that are already recorded, because a print can be skipped and marking
  can be abandoned (`alloc.c:812-833`). The number printed can then be invented: it is 1 after a
  run in which no object points to another any more (`LeftoverEdge`). With nothing remembered it is
  the weight of a real chain for all heaps, closed marks and passes exactly when no edge is left to
  an object from another one to which a search can come (`AttainedIff`), which for edges between
  live objects means that no object is recorded as a predecessor of another (`NothingLeftIff`). An
  edge that is left can also hide a chain, by closing a cycle that the heap does not have
  (`LeftoverHides`); without such a cycle no chain is missed, whatever is left
  (`PrintedIsUpperBound`).
* Edges can come from freed objects. After a skipped print nothing resets the edges of objects that
  are swept before the next collection, whose traversal then reads the header of a freed object
  (`DropAfterSkippedPrint`). An object that passes miss is never reset either; its edges do no harm
  as long as no search comes to it. All traversals are safe from this, whatever the marks, exactly
  when every predecessor of an object recorded for another one has debug info (`SafeIff`). A freed
  direct predecessor of a marked object is skipped, by the test at `backgraph.c:435`; the search of
  `backwards_height` has no such test.
* An object that is swept or freed while it owns a structure loses its chunks: nothing gives
  them back. `DropObject` says exactly which ones. A run aborts exactly when the chunks that its
  graph needs and the lost ones are more than the 99999 there are (`RunAll`).
* The sum of a page is blind to the order of its words, and to changes that only flip bit 31 of
  the sum (`ReorderedUnseen`, `OneWordChanged`).
* For a method with assembly access `method_nonpublic` tests whether the runtime knows
  `IList<T>`, which has nothing to do with the method; once it does, inherited assembly methods
  are always found. The model carries this as `hasIList`.
* The doubling loop of the pointer array does not end for more than 2^31 elements
  (`DoublingEnds`).

## Model

| member | source | states |
|---|---|---|
| Heights.Visit | external/bdwgc/backgraph.c:367-406 | The search ends on every finite graph, cyclic or not, and leaves the set of objects on the search path as it found it. |
| Heights.VisitAll | external/bdwgc/backgraph.c:388-402 | The same for the loop over the predecessors of one object. |
| Exactness.VisitAdvances | external/bdwgc/backgraph.c:384-405 | The search only turns unfinished heights into current ones; it never changes a current height. |
| Exactness.VisitWitnessed | external/bdwgc/backgraph.c:367-406 | Every height that the search returns or caches, on any graph, is the weight of a real walk that repeats no object with a structure, all of whose structures are finished. |
| Exactness.VisitDominates | external/bdwgc/backgraph.c:367-406 | Inside a set ranked along the edges no walk to an object weighs more than the height returned or cached for it; the same holds of the walks that avoid any given objects, whatever is cached for those. |
| Exactness.VisitKeepsDominating | external/bdwgc/backgraph.c:367-406 | A search from anywhere, through cycles elsewhere, caches nothing too low inside such a set. |
| Exactness.VisitPositive | external/bdwgc/backgraph.c:373-389 | Only an object that is itself on the search path gets height 0. |
| Exactness.HeightIsWalk | external/bdwgc/backgraph.c:367-406 | On any graph and after any earlier calls the height is positive and the weight of a real walk to the object that repeats no object with a structure, and no other object without one in between; with nothing remembered it is the number of nodes of that walk. |
| Exactness.HeightIsExact | external/bdwgc/backgraph.c:364-406 | Where the edges that lead to an object are ranked, its height is exactly the greatest weight of a walk to it, after any earlier calls and for any choice of structures. |
| Exactness.HeightIgnoresRepresentation | external/bdwgc/backgraph.c:244-254 | With nothing remembered, two searches over the same acyclic edges agree whichever objects own structures and whatever was asked before. |
| CycleFree.AcyclicIffRanked | external/bdwgc/backgraph.c:364-366 | No walk comes back to its start inside a set closed under predecessors exactly when the set can be ranked along the edges. |
| CycleFree.AcyclicRanked | external/bdwgc/backgraph.c:364-366 | Such a ranking exists with ranks below the number of objects. |
| CycleFree.HeightExactIff | external/bdwgc/backgraph.c:364-406 | The height of an object, after any earlier calls, is the greatest weight of a walk to it if and only if no cycle of recorded edges leads to it. |
| CycleFree.StructuresNeverTooHigh | external/bdwgc/backgraph.c:364-406 | With nothing remembered, the height is the node count of a path that repeats no object, as long as every object that lies on a cycle and leads to this one owns a structure. |
| CycleFree.BareHeight | external/bdwgc/backgraph.c:374-382 | Where no object that leads to this one owns a structure, the height is the number of objects that lead there, this one included: a cycle of bare pointers is cut where it closes. |
| CycleFree.TooHighOnCycle | external/bdwgc/backgraph.c:374-382 | Two objects that point to each other, one of them with a bare pointer: the height is 3, where no path without repetition has more than 2 nodes. |
| CycleFree.TooLowOnCycle | external/bdwgc/backgraph.c:384-405 | The same with two structures: the height cached is 1, where a path of 2 nodes exists. |
| BuildProofs.AddEdgeInserts | external/bdwgc/backgraph.c:231-276 | add_edge inserts into a list without duplicates: the list of q is the old one, with p at its end if it was absent, and no other list changes. |
| BuildProofs.FirstEdge | external/bdwgc/backgraph.c:243-255 | The first predecessor takes a structure exactly when the counter has reached a multiple of 128, and otherwise the header alone. |
| BuildProofs.AddBackEdgesExact | external/bdwgc/backgraph.c:335-354 | Scanning p adds p exactly to the lists of the objects that some scanned word of p resolves to. |
| BuildProofs.LengthScanned | external/bdwgc/backgraph.c:335-354 | An object with a descriptor of n bytes is recorded for q exactly when a word k with 48 <= 8k < n is a plausible heap address and resolves to q. |
| BuildProofs.OtherScanned | external/bdwgc/backgraph.c:341-343 | An object with any other descriptor is recorded for q exactly when any word from number 6 on is one. |
| BuildProofs.BuildExact | external/bdwgc/backgraph.c:356-362 | After building, the predecessors of q are the old ones and the scanned objects with debug info that point to q, each of them once; structures appear without a height. |
| BuildProofs.BuildScanned | external/bdwgc/backgraph.c:335-362 | The same of a whole build, in terms of descriptors, addresses and GC_base alone. |
| TraverseProofs.VisitLocal | external/bdwgc/backgraph.c:390-400 | Searching from inside a set closed under predecessors is searching the graph restricted to that set. |
| TraverseProofs.TraverseReports | external/bdwgc/backgraph.c:411-472 | On any graph, whatever was retained or pending before and whichever objects are visited, as long as the searches meet no marked and no freed object: GC_max_height is the greatest height kept for a visited marked object, no kept height is below what was remembered, each is explained by the past or by a real walk to an unmarked predecessor, and unless nothing was found GC_deepest_obj, if set, is unmarked, points to a marked object and ends a walk of weight GC_max_height. |
| TraverseProofs.TraverseExact | external/bdwgc/backgraph.c:417-461 | If moreover the objects searched form no cycle, the height kept for every visited marked object is exactly the greatest of what was remembered and the weights of the walks to its unmarked predecessors. |
| AnyMarks.VisitRaises | external/bdwgc/backgraph.c:384-405 | Every height that a search caches is at least what was remembered there and at most the height the search returns. |
| AnyMarks.TraverseBounded | external/bdwgc/backgraph.c:417-472 | Whatever the marks are and whichever objects are visited, heights of this collection lie between what was remembered and GC_max_height, every visited marked object with a remembered height is retained with the current stamp, and a new record has an unmarked object with debug info as its holder if no remembered height was above the record. |
| AnyMarks.TraverseDominates | external/bdwgc/backgraph.c:417-472 | Whatever the marks are: where the edges that the searches read form no cycle, no walk of unmarked objects to a predecessor of a visited marked object weighs more than GC_max_height. |
| Cycles.ResetAllExact | external/bdwgc/backgraph.c:299-333 | Resetting objects one by one empties their lists, drops their RETAIN flags and keeps exactly the retained structures, with their heights. |
| Cycles.PrintExact | external/bdwgc/backgraph.c:474-494 | After printing no visited object has a predecessor or the flag, exactly the retained ones of them still own a structure, objects that were not visited are as before, the record is the greater of the old one and GC_max_height, and no holder is pending. |
| Cycles.NextInv | external/bdwgc/backgraph.c:299-494 | Every event, with any marks, any objects visited and with or without a print before it, keeps the invariant of the run: lists without repetition, heights unknown or from one of the latest traversals, retained heights from a traversal since the latest print that visited all objects with a height, and nothing recorded after a complete print. |
| Cycles.DanglingExactly | external/bdwgc/backgraph.c:299-333 | Recorded edges stay edges between objects with debug info exactly until an object is freed that is still recorded as a predecessor of another. |
| Cycles.SafeIff | external/bdwgc/backgraph.c:434-444 | No traversal, with any marks and any objects visited, reads the header of a freed object if and only if every predecessor of an object that is recorded for another one has debug info. |
| Dangling.DropAfterSkippedPrint | external/bdwgc/finalize.c:1353-1368 | A run in which the first print is skipped and an unmarked object that no holder needs is swept: after the next build a traversal reads the header of a freed object. |
| Cycles.RunInv | external/bdwgc/alloc.c:793-835 | The invariant holds after every legal run of builds, traversals, prints, allocations and frees, including runs that skip or repeat prints, runs whose passes miss objects, and runs with edges from freed objects that no search comes to. |
| Records.HolderIff | external/bdwgc/backgraph.c:456-459 | A new record has an unmarked object with debug info as its holder after a traversal, for all marks and all passes, if and only if no remembered height is above the record when the traversal starts. |
| Records.SkippedPrintLosesHolder | external/bdwgc/backgraph.c:479-487 | A run of two collections of two objects without a print between them: the second traversal finds a new record and leaves no object to print. |
| Records.RecordStep | external/bdwgc/backgraph.c:417-494 | As long as each new record is printed before the next traversal, every event keeps remembered heights at or below the greater of the record and GC_max_height, and a holder for a new record. |
| Records.RecordHasHolder | external/bdwgc/backgraph.c:479-487 | In every run that prints each new record before the next traversal, a traversal that leaves GC_max_height above the record leaves an object to print that was not marked when it began, and that has debug info unless it is freed first. |
| Records.RememberedBelowRecord | external/bdwgc/backgraph.c:426-433 | In every such run no remembered height exceeds the greater of GC_max_height and the record, and after a complete print that is the record. |
| Stamps.PrintGapIff | external/bdwgc/backgraph.c:384-385 | For every k: all traversals of all legal runs with at most k traversals from one print that visits all objects with a height to the next read their 16-bit stamps right if and only if k is at most 32768. |
| Stamps.LongGapFails | external/bdwgc/backgraph.c:384-385 | The run that shows it for k above 32768: after a first collection, 32768 collections that leave one object unmarked, a print and 32768 more, the height of that object passes for current. |
| Stamps.CollectStamps | external/bdwgc/backgraph.c:445-455 | A traversal stamps every marked object that it visits and that has a height, and every object to which it gives one; other heights grow one collection older. |
| Stamps.AttendedRight | external/bdwgc/backgraph.c:384-385 | However far prints are apart, all stamps are read right in a run in which no object with a height is left unmarked or unvisited by 65535 traversals in a row. |
| Stamps.StampsAtEnd | external/bdwgc/backgraph.c:384-385 | If every traversal of a run read its stamps right, 16 bits tell the current heights in the state it ends in. |
| Remembering.CarriedIff | external/bdwgc/backgraph.c:307-327 | For an object that stays marked, an event lowers the height remembered for it exactly when it is a print that visits the object and finds the height without the RETAIN flag, or a traversal that misses the object and does. |
| Remembering.NeverLoweredIff | external/bdwgc/backgraph.c:426-428 | Over any run in which an object stays marked, the height remembered for it never goes down if and only if no print or traversal of the run does that. |
| Remembering.CarriedGrows | external/bdwgc/backgraph.c:426-428 | Over such a run it ends no lower than it began. |
| Remembering.FirstPrintKeeps | external/bdwgc/backgraph.c:310-327 | A print right after a traversal keeps every height that the traversal kept. |
| Remembering.SecondPrintForgets | external/bdwgc/backgraph.c:307-309 | A print with nothing recorded since the one before forgets the height of every object it visits. |
| Remembering.PrintedTwice | external/bdwgc/finalize.c:1368-1386 | A run in which an object that stays marked loses its remembered height, because the statistics are printed twice after the first collection. |
| Documented.BuiltEdges | external/bdwgc/backgraph.c:356-362 | After a build, p is a recorded predecessor of q exactly when it was before, or was scanned, points to q and both have debug info. |
| Documented.WalkIsChain | external/bdwgc/backgraph.c:364-366 | Where nothing is left, walks along recorded edges to an unmarked predecessor of a visited marked object that never stay at an object are chains of scanned unmarked heap objects into it, and all chains are recorded. |
| Documented.PrintedIsAttained | external/bdwgc/doc/README.environment:85-96 | On any heap, as long as no edge is left to an object of the collection from another to which a search can come: the number printed, unless it is 0, is a height remembered for a visited marked object or the weight of a real chain of scanned unmarked objects into one, which repeats no object with a structure and no other without one in between. |
| Documented.PrintedIsUpperBound | external/bdwgc/doc/README.environment:85-96 | Whatever is left: where the recorded edges that the searches read form no cycle, every height remembered for a visited marked object and every chain of scanned unmarked objects into one is at most the number printed; with complete passes that is every chain. |
| Documented.NoCycleLeft | external/bdwgc/doc/README.environment:85-96 | Those edges form no cycle when nothing is left and scanned unmarked objects form no cycle. |
| Documented.ResetCollection | external/bdwgc/backgraph.c:299-333 | Nothing is left, and no search comes to a freed object, when the objects of the collection have no predecessor recorded as it starts. |
| Leftover.LeftoverEdge | external/bdwgc/finalize.c:1353-1368 | A run after which the next collection prints 1 although nothing is remembered and no object points to another. |
| Leftover.AttainedIff | external/bdwgc/backgraph.c:356-362 | With nothing remembered, the number printed is attained for all heaps, closed marks and passes if and only if no edge is left from an object to which a search can come to another object. |
| Leftover.NothingLeftIff | external/bdwgc/backgraph.c:356-362 | Where no recorded edge comes from a freed object that means that no object is recorded as a predecessor of another. |
| Overlooked.LeftoverHides | external/bdwgc/alloc.c:812-833 | A run with an abandoned marking after which the number printed is 3, although a chain of weight 4 leads to a marked object and the unmarked objects form no cycle. |
| BlockScan.PerObjectHelper | external/bdwgc/backgraph.c:280-292 | The loop over a block visits the objects at 0, sz, 2 * sz, ... that end within 512 bytes, and always the first. |
| BlockScan.VisitsAllIff | external/bdwgc/backgraph.c:291-291 | It visits every object of the block if and only if objects are larger than 2048 bytes. |
| Documented.PassMissesChain | external/bdwgc/backgraph.c:291-291 | Objects 8 and 9 of a block of 64-byte objects, one pointing to the other, are not visited; their chain into a marked object is not counted and the number printed is 0. |
| Conservation.ChunksPartitioned | external/bdwgc/backgraph.c:75-118 | Every chunk handed out so far stands exactly once on the free list, or once in the chain of one object, or is lost with a freed object; no chunk is shared. |
| Conservation.NewChunkUnused | external/bdwgc/backgraph.c:97-107 | new_back_edges hands out a chunk that is in no chain and not lost, changes no chain, and the chunk is not on the free list afterwards. |
| Conservation.ChainLength | external/bdwgc/backgraph.c:261-269 | A structure with n edges has max(1, ceil(n / 10)) chunks. |
| Chunks.ChunksCounted | external/bdwgc/backgraph.c:75-118 | The chunks that the graph needs, one for every ten edges of a structure and at least one, the free ones and the lost ones are together all that were handed out. |
| Chunks.AddEdgeUses | external/bdwgc/backgraph.c:208-276 | Adding an edge gives back no chunk, and takes one when the first predecessor gets a structure, the second one needs it, or the last chunk is full. |
| Conservation.PrintedChunks | external/bdwgc/backgraph.c:299-333 | After printing exactly the retained ones among the visited objects own chunks, one each; the others own a structure if they did before. |
| Conservation.SecondPrintFreesAll | external/bdwgc/backgraph.c:325-327 | A second print with no traversal between leaves no visited object with a chunk. |
| SearchTable.PathMembers | external/bdwgc/backgraph.c:120-127 | The objects on the path are those in the table. |
| SearchTable.PathTable.Grow | external/bdwgc/backgraph.c:129-158 | Making room, by allocating 10000 entries or by doubling when the table is full, changes no entry. |
| SearchTable.PathTable.Push | external/bdwgc/backgraph.c:129-163 | The path becomes the old path with p as its last object. |
| SearchTable.PathTable.Contains | external/bdwgc/backgraph.c:165-172 | Tells whether p is on the path. |
| SearchTable.PathTable.Pop | external/bdwgc/backgraph.c:174-178 | The path loses its last object and is otherwise as it was. |
| Heights.StampTest | external/bdwgc/backgraph.c:384-385 | Comparing 16 bits tells the current collection from any of the 65535 before it. |
| ArenaProofs.TakenArena | external/bdwgc/backgraph.c:86-108 | Taking a chunk keeps the arena in order and touches no chain. |
| ArenaProofs.EnsuredOk | external/bdwgc/backgraph.c:208-227 | Giving an object a structure keeps its predecessors and everything else, and adds an unknown height stamped with the previous collection. |
| ArenaProofs.PushedOk | external/bdwgc/backgraph.c:261-269 | Writing an edge into a free slot and counting it appends one predecessor and changes nothing else. |
| ArenaProofs.LinkedReady | external/bdwgc/backgraph.c:263-267 | Linking a new chunk behind a full chain changes no predecessor and makes a free slot. |
| ArenaProofs.CutArena | external/bdwgc/backgraph.c:110-118 | Putting the tail of a chain in front of the free list keeps the arena in order and changes no other object. |
| ArenaProofs.FreedObjectOk | external/bdwgc/backgraph.c:307-309 | Freeing a structure leaves its object without predecessors and without a height, and changes nothing else. |
| ArenaProofs.KeptObjectOk | external/bdwgc/backgraph.c:310-327 | Emptying a retained structure keeps its height, drops its flag and gives its continuation chunks back. |
| ArenaProofs.DroppedLost | external/bdwgc/backgraph.c:299-304 | The chunks of an object that loses its debug info are lost, and no others. |
| ArenaProofs.CursorEdge | external/bdwgc/backgraph.c:197-204 | Chunk and slot of the loop over predecessors hold the predecessor whose turn it is. |
| ArenaProofs.CursorNext | external/bdwgc/backgraph.c:199-202 | The loop never follows a null `cont`. |
| BackGraph.Collector.constructor | external/bdwgc/backgraph.c:77-84 | A new collector represents the empty graph. |
| BackGraph.Collector.NewBackEdges | external/bdwgc/backgraph.c:86-108 | Takes the first free chunk or the next unused one; aborts exactly when there is no free chunk and 99999 are handed out. |
| BackGraph.Collector.EnsureStruct | external/bdwgc/backgraph.c:208-227 | Gives the object a structure, if it has none, that holds its bare predecessor. |
| BackGraph.Collector.NextPred | external/bdwgc/backgraph.c:198-204 | One turn of FOR_EACH_PRED reads the predecessor whose number is `total`. |
| BackGraph.Collector.HasPred | external/bdwgc/backgraph.c:256-257 | Tells whether p is among the predecessors of q, in any representation. |
| BackGraph.Collector.FindLast | external/bdwgc/backgraph.c:261-262 | Finds the last chunk and the number of edges in it. |
| BackGraph.Collector.AppendPred | external/bdwgc/backgraph.c:258-269 | Appends one predecessor, in a new chunk if the last one is full. |
| BackGraph.Collector.AddFirst | external/bdwgc/backgraph.c:243-255 | The first predecessor goes into the header, and one time in 128 into a structure. |
| BackGraph.Collector.AddEdge | external/bdwgc/backgraph.c:229-276 | Does to the graph what the model says, whatever representations change on the way; loses no chunk. |
| BackGraph.Collector.AddBackEdges | external/bdwgc/backgraph.c:335-354 | Does to the graph what the model says for the words of one object. |
| BackGraph.Collector.BuildBackGraph | external/bdwgc/backgraph.c:356-362 | Does to the graph what the model says for all objects; aborts exactly when the graph built needs more chunks than there are besides the lost ones. |
| BackGraph.Collector.BackwardsHeight | external/bdwgc/backgraph.c:364-406 | Inside a set of objects with debug info that is closed under predecessors, returns and caches the heights of the search, leaves the table as it was and every predecessor list unchanged, and ends; the table never holds an object twice. |
| BackGraph.Collector.HeightOfBare | external/bdwgc/backgraph.c:374-382 | The case of a bare pointer. |
| BackGraph.Collector.HeightOfStruct | external/bdwgc/backgraph.c:383-405 | The case of a structure. |
| BackGraph.Collector.FindHeight | external/bdwgc/backgraph.c:388-405 | The case of a structure without a current height. |
| BackGraph.Collector.HeightOfPreds | external/bdwgc/backgraph.c:390-402 | The loop over the predecessors visits them in order. |
| BackGraph.Collector.HeightOfPred | external/bdwgc/backgraph.c:391-400 | The arm for bogus pointers makes no difference. |
| BackGraph.Collector.ScanPred | external/bdwgc/backgraph.c:434-444 | One predecessor of a marked object raises the height and names itself only if it is unmarked, has debug info and is higher. |
| BackGraph.Collector.ScanStruct | external/bdwgc/backgraph.c:434-444 | The loop over the predecessors of a marked object. |
| BackGraph.Collector.ScanObject | external/bdwgc/backgraph.c:420-444 | The greatest height behind a marked object, from its remembered height on. |
| BackGraph.Collector.Remember | external/bdwgc/backgraph.c:445-455 | The height is cached with the current stamp and the structure retained; no predecessor changes. |
| BackGraph.Collector.UpdateMaxHeight | external/bdwgc/backgraph.c:411-461 | Does to the graph and the counters what the model says for one object. |
| BackGraph.Collector.TraverseBackGraph | external/bdwgc/backgraph.c:465-472 | The same for all objects; then the deepest object is marked. |
| BackGraph.Collector.Collect | external/bdwgc/alloc.c:835-835 | A collection sets the marks, increments GC_gc_no and traverses; it aborts exactly when the heights to remember need more chunks than there are. |
| BackGraph.Collector.DeallocateBackEdges | external/bdwgc/backgraph.c:110-118 | Finds the end of the chain and writes one link there. |
| BackGraph.Collector.FreeStruct | external/bdwgc/backgraph.c:307-309 | Gives back the whole chain and clears the header. |
| BackGraph.Collector.EmptyStruct | external/bdwgc/backgraph.c:310-327 | Gives back the continuation chunks and keeps the first chunk with its height. |
| BackGraph.Collector.ResetBackEdge | external/bdwgc/backgraph.c:299-333 | Does to the graph what the model says; loses no chunk. |
| BackGraph.Collector.PrintBackGraphStats | external/bdwgc/backgraph.c:474-494 | Updates the record, resets every object, forgets the holder. |
| BackGraph.Collector.NewObject | external/bdwgc/dbg_mlc.c:286-288 | An object that gets a debugging header has no predecessors. |
| BackGraph.Collector.DropObject | external/bdwgc/backgraph.c:302-303 | An object that loses its debug info leaves the graph, and its chunks are lost. |
| Runs.Perform | external/bdwgc/backgraph.c:208-494 | Every event of a run, performed on the arena, ends in the state that the state machine gives, or in an abort exactly when that graph needs too many chunks; a traversal needs stamps that 16 bits tell apart. |
| Runs.StructMeaning | external/bdwgc/backgraph.c:384-385 | The test of the program on 16 bits tells whether the height in a structure is current, and the structure has as many chunks as its edges need. |
| Runs.ReachedState | external/bdwgc/backgraph.c:75-118 | In every state that a run reaches the chunks of the program stand in one place each; if its traversals read their stamps right every structure reads right; and if each new record was printed before the next traversal a new one has an unmarked object to print. |
| Runs.RunAll | external/bdwgc/alloc.c:793-835 | From a new collector every legal run whose traversals read their stamps right does, with the invariants of arena and table in place at its end; it aborts exactly when after some event the graph needs more chunks than 99999 less those lost so far, and then all are handed out and none is free. |
| DirtyCheck.OneWordChanged | external/bdwgc/checksums.c:61-71 | A change of one word leaves the checksum as it was exactly when it flips nothing but bit 31 of the sum. |
| DirtyCheck.ReorderedUnseen | external/bdwgc/checksums.c:67-69 | Words that only change places leave the checksum as it was. |
| DirtyCheck.PagesCover | external/bdwgc/checksums.c:157-161 | A section has as many pages as it takes to cover its bytes, one behind the other. |
| DirtyCheck.PagesAppend | external/bdwgc/checksums.c:147-163 | The pages of the sections follow one another in the order of the sections. |
| DirtyCheck.SeenIsLatest | external/bdwgc/checksums.c:85-86 | After any run, what is held about page number i is what the latest check that reached it saw. |
| DirtyCheck.CheckCounts | external/bdwgc/checksums.c:92-110 | After a check the clean and dirty pages make up min(10000, all pages), faulted errors are no more than errors, the log is empty, and each error is a page that changed unrecorded. |
| DirtyCheck.CountsExact | external/bdwgc/checksums.c:92-110 | After any run a check counts as errors exactly the pages whose checksum is not what the latest check that reached them saw, in blocks whose header, found along forwarding addresses, has a descriptor other than 0, and that are not dirty or never were; as faulted those of them on whose system page a write fault happened since the latest check; and the dirty and the clean pages. |
| DirtyCheck.FaultFits | external/bdwgc/checksums.c:40-47 | A write fault finds room in the log exactly when fewer than 10000 happened since the latest check. |
| DirtyCheck.AlarmsAreReal | external/bdwgc/checksums.c:102-110 | After any run, an error counted for a page is a page whose words differ from what the latest check that reached it saw, and that is not both dirty and ever dirty. |
| DirtyCheck.NoErrorsInRun | external/bdwgc/checksums.c:102-110 | In a run in which every changed page is recorded as dirty and ever dirty no check counts an error. |
| DirtyCheck.NeverGoofs | external/bdwgc/checksums.c:84-84 | When the list of pages has only grown at its end, a check does not stop with "goofed". |
| DirtyCheck.GoofsExactly | external/bdwgc/checksums.c:84-84 | In general a check stops so exactly when some page number it reaches stood for another page at the latest check that reached it. |
| DirtyChecker.Checker.constructor | external/bdwgc/checksums.c:32-37 | A new checker has seen nothing. |
| DirtyChecker.Checker.RecordFault | external/bdwgc/checksums.c:40-47 | Logs the page of the address; aborts exactly when the log is full. |
| DirtyChecker.Checker.WasFaulted | external/bdwgc/checksums.c:50-59 | Tells whether the page of the address is in the log. |
| DirtyChecker.Checker.SumPage | external/bdwgc/checksums.c:61-71 | The sum of all words of the page modulo the word size, with bit 31 set. |
| DirtyChecker.Checker.FindDescr | external/bdwgc/checksums.c:97-103 | Follows forwarding addresses to the header of the block; ends. |
| DirtyChecker.Checker.CountError | external/bdwgc/checksums.c:102-110 | Counts an error, and a faulted one, under exactly the stated conditions. |
| DirtyChecker.Checker.UpdateCheckPage | external/bdwgc/checksums.c:78-113 | Stops with "goofed" exactly when the entry belongs to another page; otherwise updates entry and counters for this page only. |
| DirtyChecker.Checker.CheckSection | external/bdwgc/checksums.c:157-163 | Checks the pages of one section, up to the last entry of the table. |
| DirtyChecker.Checker.ClearLog | external/bdwgc/checksums.c:172-175 | Empties the log. |
| DirtyChecker.Checker.CheckDirty | external/bdwgc/checksums.c:140-176 | A whole check over the sections does to the state what the model says, and aborts exactly when the model does. |
| PtrArray.DoublingEnds | libil2cpp/il2cpp-mono-api.cpp:602-605 | In 32 bits the doubling loop ends for a length if and only if it is at most 2^31. |
| PtrArray.FullCapacity | libil2cpp/il2cpp-mono-api.cpp:602-607 | One element more than a full array holds takes twice its capacity. |
| PtrArray.GPtrArray.constructor | libil2cpp/il2cpp-mono-api.cpp:582-591 | A new array is empty. |
| PtrArray.GPtrArray.FindSize | libil2cpp/il2cpp-mono-api.cpp:602-605 | The loop finds the least power of two that is at least the length. |
| PtrArray.GPtrArray.Grow | libil2cpp/il2cpp-mono-api.cpp:593-609 | Makes room without changing the contents; a capacity that is too small becomes the least power of two that is at least 16 and large enough. |
| PtrArray.GPtrArray.Add | libil2cpp/il2cpp-mono-api.cpp:611-616 | Appends one element, and keeps the bound on copying. |
| PtrArray.AddAll | libil2cpp/il2cpp-mono-api.cpp:593-616 | After any n up to 2^31 additions the array holds the values in order, in the least power of two that is at least 16 and at least n, and all reallocations together have copied fewer than 2n elements. |
| AsciiCompare.StrCaseCmp | libil2cpp/il2cpp-mono-api.cpp:639-659 | The sign of the result is the dictionary order of the lower-cased strings; it is 0 exactly when the strings have the same characters but for A to Z and a to z, or one is a null pointer; no index passes a terminator. |
| AsciiCompare.SignAntisymmetric | libil2cpp/il2cpp-mono-api.cpp:639-659 | Swapping the strings swaps the sign. |
| AsciiCompare.SignTransitive | libil2cpp/il2cpp-mono-api.cpp:639-659 | The sign is transitive. |
| MethodQuery.MethodNonpublic | libil2cpp/il2cpp-mono-api.cpp:567-580 | Private methods pass for the start class only, assembly methods for it or when the runtime knows IList, public ones never, all others always. |
| MethodQuery.IsMatch | libil2cpp/il2cpp-mono-api.cpp:686-726 | A method is added exactly when it passes the constructor, access, static and name filters. |
| MethodQuery.AddMatches | libil2cpp/il2cpp-mono-api.cpp:683-728 | Appends the matches of one class in order. |
| MethodQuery.GetMethodsByName | libil2cpp/il2cpp-mono-api.cpp:661-731 | The array holds the matches class by class from the start class upwards, the start class only under DeclaredOnly. |
| MethodQuery.AnswerMembers | libil2cpp/il2cpp-mono-api.cpp:684-731 | A method is in the answer if and only if it matches in the start class, or in a class above it that the flags let the query reach. |
| MethodQuery.AnswerInOrder | libil2cpp/il2cpp-mono-api.cpp:679-731 | The answer keeps the order of the methods, class by class upwards. |
| MethodQuery.InheritedVisible | libil2cpp/il2cpp-mono-api.cpp:695-709 | No private method is inherited, and inherited static methods take FlattenHierarchy. |
| MethodQuery.AskingMoreKeepsAll | libil2cpp/il2cpp-mono-api.cpp:684-731 | Setting more of the flags, ignoring case, allowing constructors, leaving out the name or dropping DeclaredOnly gives a supersequence. |
| QueryFlags.AnswerIs | libil2cpp/il2cpp-mono-api.cpp:679-731 | In the bits of the flags alone: which methods the start class and the classes above it give; neither FlattenHierarchy nor IList matters for the start class. |
| QueryFlags.AllFlags | libil2cpp/il2cpp-mono-api.cpp:684-731 | With Instance, Static, Public and NonPublic, no name and constructors allowed, the start class gives all its methods, and each class above all but the private ones, the static ones without FlattenHierarchy and the assembly ones without IList. |
| QueryFlags.KindUnset | libil2cpp/il2cpp-mono-api.cpp:688-713 | Without one of Instance, Static, Public and NonPublic exactly the methods of that kind are missing, in the same order. |
| QueryFlags.CtorsUnset | libil2cpp/il2cpp-mono-api.cpp:686-687 | Without leave for constructors exactly the methods named .ctor and .cctor are missing. |
| QueryFlags.NameGiven | libil2cpp/il2cpp-mono-api.cpp:717-721 | With a name exactly the methods with that name are left, or those with it but for case. |
| QueryFlags.DeclaredOnlySet | libil2cpp/il2cpp-mono-api.cpp:727-728 | With DeclaredOnly exactly the part of the start class is left. |
| QueryFlags.FlattenUnset | libil2cpp/il2cpp-mono-api.cpp:702-704 | Without FlattenHierarchy the part of the start class is the same, and exactly the static methods are missing from the rest. |
| QueryFlags.IListUnknown | libil2cpp/il2cpp-mono-api.cpp:571-572 | While the runtime does not know IList the part of the start class is the same, and exactly the assembly methods are missing from the rest. |

## Left out

* Word width of heights and of GC_gc_no in the back graph: both are unbounded here; only the 16-bit stamps and the 32-bit counter behind GOT_LUCKY_NUMBER wrap.
* Memory acquisition (GET_MEM, page rounding, recycling of the old table) and the two ABORTs for want of it (backgraph.c:93-94, 159-161). A chunk that was never used is taken to be zeroed, as fresh memory is.
* Pointer hiding, tag bits in pointers, FIXUP_POINTER and header lookup: an object is a number, a header word is one of three cases, and GC_base is a given map from words to objects.
* The layout of blocks beyond the loop of per_object_helper (backgraph.c:280-297): which objects a pass visits is a given sequence, of any objects.
* The marker: marks are a given set. Only the results about the exact value suppose that everything a marked object points to is marked, or that no search meets a marked object.
* Traversals that read the header of a freed object, for which the model has no state. A traversal is legal when no search comes to one (`SearchSafe`), which is so whenever no recorded edge comes from a freed object; `SafeIff` says exactly when all traversals are. The program does not ensure this (see Findings). The results about a single search (Exactness, CycleFree) suppose that every recorded edge comes from an object with debug info; those about traversals and runs suppose only that searches come to no freed object.
* Descriptors other than a length are scanned in full, as the program does; what such a descriptor would say is not modelled.
* Locking, printing and statistics (GC_printf and its relatives), and the object printed for a record.
* Other word sizes: words have 64 bits and pages 4096 bytes, as in a 64-bit build.
* GC_check_blocks and its count of bytes in used blocks (checksums.c:115-138), and the warning at checksums.c:87-91, which change no state the checker reads.
* The page of a write fault is computed with a remainder, which is the mask of checksums.c:42 when the page size is a power of two.
* Class loading (mono_class_setup_methods, mono_class_setup_vtable) and the build without IL2CPP_MONO_DEBUGGER, in which the query returns null.
* A class is a value here, with its methods and its parent; that the chain of parents ends comes from that.
* Names are ASCII: what tolower does to other characters depends on the locale.
* il2cpp_g_ptr_array_free and freeing in general; realloc always succeeds.
* The rest of the repository: wrappers over code elsewhere, tables and declarations would only add easy members.
