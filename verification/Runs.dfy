// Whole runs of the program: every event of module Cycles, performed on the arena, does to
// the graph what the event says, so what is proved about runs of the graph holds of the
// program.
module Runs {
  import opened Options
  import opened Heights
  import opened HeapScan
  import opened GraphModel
  import opened Cycles
  import opened Records
  import opened Stamps
  import opened Arena
  import opened SearchTable
  import opened BackGraph
  import Exactness
  import opened Conservation
  import opened Chunks

  // Between events nothing is on the search path.
  ghost predicate At(c: Collector, config: Config)
    reads c, c.space, c.table, c.table.Repr
  {
    c.Valid() && c.table.path == Start && c.Model() == config.s
  }

  // What the program reads in the structure of q: as many chunks as its edges need, and a
  // stamp that tells on 16 bits whether the height is current.
  ghost predicate StructReads(st: Store, gc: nat, q: Obj)
    requires Readable(st) && q in st.chains
  {
    var head := (assert ObjectReadable(st, q); Head(st, q));
    && q in GraphPreds(st) && |st.chains[q]| == Max(1, (|GraphPreds(st)[q]| + 9) / 10)
    && (head.height >= 0 ==> (head.heightGcNo == Low16(gc) <==> GraphCells(st)[q].cycle == gc))
  }

  lemma StructMeaning(st: Store, gc: nat, q: Obj)
    requires StoreOk(st) && q in st.chains && Exactness.StampsOk(gc, GraphCells(st))
    ensures StructReads(st, gc, q)
  {
    ChainLength(st, q);
    assert GraphCells(st)[q] == CellOf(st, q);
  }

  // What the program has reached after a run: every chunk is in one place; if every traversal of
  // the run read its stamps right, every structure reads right; and if each new record was
  // printed before the next traversal, a new one has an unmarked object to print.
  lemma {:induction false} ReachedState(c: Collector, events: seq<Event>)
    requires LegalRun(INITIAL, events) && At(c, Run(INITIAL, events))
    ensures Partitioned(c.st)
    ensures StampsRun(INITIAL, events) ==> forall q :: q in c.st.chains ==> StructReads(c.st, c.gcNo, q)
    ensures var config := Run(INITIAL, events);
            RecordsPrinted(INITIAL, events) && config.phase == Traversed && c.maxHeight > c.maxMaxHeight ==>
              c.deepest.Some? && c.deepest.value !in config.marks
              && (HoldersKept(INITIAL, events) ==> c.deepest.value in c.bgPtr)
  {
    ChunksPartitioned(c.st);
    if RecordsPrinted(INITIAL, events) {
      RecordHasHolder(events);
    }
    if StampsRun(INITIAL, events) {
      StampsAtEnd(INITIAL, events);
      StructsRead(c, Run(INITIAL, events));
    }
  }

  lemma StructsRead(c: Collector, config: Config)
    requires At(c, config) && Exactness.StampsOk(config.s.gc, config.s.cells)
    ensures forall q :: q in c.st.chains ==> StructReads(c.st, c.gcNo, q)
  {
    hide Readable, StructReads, ArenaOk, GraphPreds, GraphCells, GraphRetain, Exactness.StampsOk;
    forall q | q in c.st.chains
      ensures StructReads(c.st, c.gcNo, q)
    {
      StructMeaning(c.st, c.gcNo, q);
    }
  }

  // What an event relies on.
  lemma EventReady(config: Config, e: Event)
    requires Inv(config) && Legal(config, e) && StampsRight(config, e)
    ensures e.Collect? ==> GraphOk(config.s) && Exactness.StampsOk(config.s.gc + 1, config.s.cells)
    ensures config.s.retain <= config.s.cells.Keys
  {
    if e.Collect? {
      InvCanStart(config);
    }
  }

  lemma CollectReady(c: Collector, config: Config, marked: set<Obj>, order: seq<Obj>)
    requires At(c, config) && Inv(config) && Legal(config, Collect(marked, order))
    requires StampsRight(config, Collect(marked, order))
    ensures c.Valid() && c.table.path == Start && c.Model() == config.s
    ensures GraphOk(c.Model()) && Exactness.StampsOk(c.gcNo + 1, c.C()) && SearchSafe(c.P(), marked, order)
    ensures Next(config, Collect(marked, order)).s == Traverse(c.Model(), marked, order)
  {
    hide *;
    AtIs(c, config);
    CollectIs(config, marked, order);
    EventReady(config, Collect(marked, order));
    Stamped(config, marked, order);
  }

  lemma AtIs(c: Collector, config: Config)
    requires At(c, config)
    ensures c.Valid() && c.table.path == Start && c.Model() == config.s && c.P() == config.s.preds && c.C() == config.s.cells && c.gcNo == config.s.gc
  {
  }

  lemma CollectIs(config: Config, marked: set<Obj>, order: seq<Obj>)
    requires Inv(config) && Legal(config, Collect(marked, order))
    ensures GraphOk(config.s) && SearchSafe(config.s.preds, marked, order)
    ensures Next(config, Collect(marked, order)).s == Traverse(config.s, marked, order)
  {
    InvCanStart(config);
  }

  lemma Stamped(config: Config, marked: set<Obj>, order: seq<Obj>)
    requires StampsRight(config, Collect(marked, order))
    ensures Exactness.StampsOk(config.s.gc + 1, config.s.cells)
  {
  }

  lemma Arrived(c: Collector, config: Config)
    requires c.Valid() && c.table.path == Start && c.Model() == config.s
    ensures At(c, config)
  {
  }

  // A traversal, the one event whose steps need more than the invariant of the arena.
  method PerformCollect(c: Collector, ghost config: Config, marked: set<Obj>, order: seq<Obj>) returns (ok: bool)
    requires At(c, config) && Inv(config) && Legal(config, Collect(marked, order))
    requires StampsRight(config, Collect(marked, order))
    modifies c, c.space, c.table.Repr
    ensures ok <==> EventFits(config, |Lost(old(c.st).owner)|, Collect(marked, order))
    ensures ok ==> |Lost(c.st.owner)| == |Lost(old(c.st).owner)|
    ensures !ok ==> c.avail == None && c.nStructs == 99999
    ensures ok ==> At(c, Next(config, Collect(marked, order))) && fresh(c.table.Repr - old(c.table.Repr))
  {
    hide *;
    CollectReady(c, config, marked, order);
    CollectFits(config, |Lost(c.st.owner)|, marked, order);
    ok := c.Collect(marked, order);
    if ok {
      Arrived(c, Next(config, Collect(marked, order)));
    }
  }

  lemma CollectFits(config: Config, lost: nat, marked: set<Obj>, order: seq<Obj>)
    requires Inv(config) && Legal(config, Collect(marked, order))
    ensures EventFits(config, lost, Collect(marked, order)) <==> Need(Next(config, Collect(marked, order)).s) + lost <= 99999
  {
  }

  // ----- When the arena is too small -----

  // The number of lost chunks after an event.
  ghost function LostBy(config: Config, lost: nat, e: Event): nat {
    if e.DropObject? && e.gone in config.s.cells && e.gone in config.s.preds then
      lost + ChunkCount(|config.s.preds[e.gone]|)
    else lost
  }

  // The graph after an event and the chunks lost until then are no more than all chunks.
  ghost predicate EventFits(config: Config, lost: nat, e: Event)
    requires Inv(config) && Legal(config, e)
  {
    Need(Next(config, e).s) + LostBy(config, lost, e) <= 99999
  }

  ghost predicate RunFits(config: Config, lost: nat, events: seq<Event>)
    requires Inv(config) && LegalRun(config, events)
    decreases |events|
  {
    events == []
    || (EventFits(config, lost, events[0])
        && (NextInv(config, events[0]); RunFits(Next(config, events[0]), LostBy(config, lost, events[0]), events[1..])))
  }

  lemma AtFits(c: Collector, config: Config)
    requires At(c, config)
    ensures Need(config.s) + |Lost(c.st.owner)| <= 99999
  {
    ChunksCounted(c.st, config.s);
  }

  method PerformBuild(c: Collector, ghost config: Config, heap: Heap, objs: seq<Obj>) returns (ok: bool)
    requires At(c, config) && Inv(config) && Legal(config, BuildGraph(heap, objs))
    modifies c, c.space, c.table.Repr
    ensures ok <==> EventFits(config, |Lost(old(c.st).owner)|, BuildGraph(heap, objs))
    ensures ok ==> |Lost(c.st.owner)| == |Lost(old(c.st).owner)|
    ensures !ok ==> c.avail == None && c.nStructs == 99999
    ensures ok ==> At(c, Next(config, BuildGraph(heap, objs))) && fresh(c.table.Repr - old(c.table.Repr))
  {
    hide StoreOk, Readable, GraphPreds, GraphCells, GraphRetain, Need, Lost, Inv;
    ok := c.BuildBackGraph(heap, objs);
  }

  // The events that take no chunk.
  method PerformOther(c: Collector, ghost config: Config, e: Event)
    requires At(c, config) && Inv(config) && Legal(config, e) && (e.PrintStats? || e.NewObject?)
    modifies c, c.space, c.table.Repr
    ensures |Lost(c.st.owner)| == LostBy(config, |Lost(old(c.st).owner)|, e)
    ensures At(c, Next(config, e)) && fresh(c.table.Repr - old(c.table.Repr))
  {
    assert config.s.retain <= config.s.cells.Keys;
    hide StoreOk, Readable, GraphPreds, GraphCells, GraphRetain, Lost, ChunkCount;
    match e {
      case PrintStats(all) => c.PrintBackGraphStats(all);
      case NewObject(p) => c.NewObject(p);
    }
  }

  method PerformDrop(c: Collector, ghost config: Config, p: Obj)
    requires At(c, config) && Inv(config)
    modifies c, c.space, c.table.Repr
    ensures |Lost(c.st.owner)| == LostBy(config, |Lost(old(c.st).owner)|, DropObject(p))
    ensures At(c, Next(config, DropObject(p))) && fresh(c.table.Repr - old(c.table.Repr))
  {
    hide StoreOk, Readable, GraphPreds, GraphCells, GraphRetain, Lost, ChunkCount, Inv;
    DroppedCount(c.st, config.s, p);
    c.DropObject(p);
  }

  // The result is false when an event ended in ABORT for want of chunks, which is so exactly when
  // the graph needs too many.
  method Perform(c: Collector, ghost config: Config, e: Event) returns (ok: bool)
    requires At(c, config) && Inv(config) && Legal(config, e) && StampsRight(config, e)
    modifies c, c.space, c.table.Repr
    ensures ok <==> EventFits(config, |Lost(old(c.st).owner)|, e)
    ensures ok ==> |Lost(c.st.owner)| == LostBy(config, |Lost(old(c.st).owner)|, e)
    ensures !ok ==> c.avail == None && c.nStructs == 99999
    ensures ok ==> At(c, Next(config, e)) && fresh(c.table.Repr - old(c.table.Repr))
  {
    hide At, Need, Lost, Inv, Legal, StampsRight, Next;
    if e.BuildGraph? {
      ok := PerformBuild(c, config, e.heap, e.objs);
    } else if e.Collect? {
      ok := PerformCollect(c, config, e.marked, e.order);
    } else {
      if e.DropObject? {
        PerformDrop(c, config, e.gone);
      } else {
        PerformOther(c, config, e);
      }
      AtFits(c, Next(config, e));
      ok := true;
    }
  }

  lemma RunStep(config: Config, events: seq<Event>, i: nat)
    requires Inv(config) && i < |events| && LegalRun(config, events[i..])
    ensures Legal(config, events[i]) && Inv(Next(config, events[i])) && LegalRun(Next(config, events[i]), events[i + 1..])
    ensures Run(config, events[i..]) == Run(Next(config, events[i]), events[i + 1..])
    ensures StampsRun(config, events[i..]) ==>
              StampsRight(config, events[i]) && StampsRun(Next(config, events[i]), events[i + 1..])
  {
    assert events[i..][1..] == events[i + 1..] && events[i..][0] == events[i];
    NextInv(config, events[i]);
  }

  lemma FitsStep(config: Config, lost: nat, events: seq<Event>, i: nat)
    requires Inv(config) && i < |events| && LegalRun(config, events[i..])
    ensures Legal(config, events[i]) && Inv(Next(config, events[i])) && LegalRun(Next(config, events[i]), events[i + 1..])
    ensures RunFits(config, lost, events[i..])
            <==> EventFits(config, lost, events[i])
                 && RunFits(Next(config, events[i]), LostBy(config, lost, events[i]), events[i + 1..])
  {
    assert events[i..][1..] == events[i + 1..] && events[i..][0] == events[i];
    NextInv(config, events[i]);
    hide EventFits, LostBy, Inv, Legal;
  }

  lemma RunEnds(config: Config, lost: nat, events: seq<Event>)
    requires Inv(config) && LegalRun(config, events[|events|..])
    ensures Run(config, events[|events|..]) == config && RunFits(config, lost, events[|events|..])
  {
    assert events[|events|..] == [];
  }

  method Create() returns (c: Collector)
    ensures At(c, INITIAL) && Inv(INITIAL) && |Lost(c.st.owner)| == 0
    ensures fresh(c) && fresh(c.space) && fresh(c.table) && fresh(c.table.Repr)
  {
    c := new Collector();
  }

  // From a new collector, any legal run of events in which every traversal reads its stamps right
  // ends in the state that module Cycles gives, unless at some event the graph needs more chunks
  // than there are besides the lost ones: exactly then the program aborts.
  method RunAll(events: seq<Event>) returns (ok: bool, c: Collector)
    requires LegalRun(INITIAL, events) && StampsRun(INITIAL, events)
    ensures ok <==> RunFits(INITIAL, 0, events)
    ensures !ok ==> c.avail == None && c.nStructs == 99999
    ensures ok ==> At(c, Run(INITIAL, events))
  {
    hide *;
    c := Create();
    ghost var config := INITIAL;
    assert events[0..] == events;
    var i := 0;
    while i < |events|
      invariant i <= |events| && At(c, config) && fresh(c) && fresh(c.space) && fresh(c.table) && fresh(c.table.Repr)
      invariant Inv(config) && LegalRun(config, events[i..]) && StampsRun(config, events[i..])
      invariant Run(config, events[i..]) == Run(INITIAL, events)
      invariant RunFits(config, |Lost(c.st.owner)|, events[i..]) <==> RunFits(INITIAL, 0, events)
    {
      RunStep(config, events, i);
      FitsStep(config, |Lost(c.st.owner)|, events, i);
      ok := Perform(c, config, events[i]);
      if !ok {
        return;
      }
      config := Next(config, events[i]);
      i := i + 1;
    }
    RunEnds(config, |Lost(c.st.owner)|, events);
    ok := true;
  }
}
