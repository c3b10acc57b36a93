// The back graph as the program keeps it: backgraph.c, method by method, each proved to do
// to the graph what module GraphModel says.
module BackGraph {
  import opened Options
  import opened Heights
  import opened HeapScan
  import opened Sizes
  import opened GraphModel
  import opened Arena
  import opened ArenaProofs
  import opened SearchTable
  import opened Exactness
  import opened Search
  import opened FiniteSets
  import opened Chunks

  // What a reachable predecessor of an unreachable object would count for.
  const BOGUS_HEIGHT: nat := 1

  // The counters and variables of backgraph.c that are not part of the arena.
  datatype Globals = Globals(gc: nat, random: nat, maxHeight: nat, deepest: Option<Obj>, maxMaxHeight: nat)

  ghost function StateOf(st: Store, g: Globals): State
    requires Readable(st)
  {
    State(GraphPreds(st), GraphCells(st), GraphRetain(st), g.gc, g.random, g.maxHeight, g.deepest, g.maxMaxHeight)
  }

  lemma FirstIsAddEdge(st: Store, st': Store, g: Globals, p: Obj, q: Obj)
    requires Readable(st) && Readable(st') && p in st.bgPtr && q in st.bgPtr && st.bgPtr[q].Null?
    requires FirstAdded(st, st', p, q, g.gc, Lucky(NextRandom(g.random)))
    ensures StateOf(st', g.(random := NextRandom(g.random))) == AddEdge(StateOf(st, g), p, q)
  {
    hide *;
    NullMeaning(st, p, q);
    FirstStates(st, st', g, p, q);
    FirstState(StateOf(st, g), StateOf(st', g.(random := NextRandom(g.random))), p, q);
  }

  lemma FirstStates(st: Store, st': Store, g: Globals, p: Obj, q: Obj)
    requires Readable(st) && Readable(st') && FirstAdded(st, st', p, q, g.gc, Lucky(NextRandom(g.random)))
    ensures var m, m' := StateOf(st, g), StateOf(st', g.(random := NextRandom(g.random)));
            && m.preds == GraphPreds(st) && m.cells == GraphCells(st)
            && m'.preds == m.preds[q := [p]] && m'.random == NextRandom(m.random)
            && m' == m.(preds := m'.preds, random := m'.random, cells := m'.cells)
            && m'.cells == if Lucky(m'.random) then m.cells[q := Cell(HEIGHT_UNKNOWN, m.gc - 1)] else m.cells
  {
    hide Readable, GraphPreds, GraphCells, GraphRetain, Lucky, NextRandom;
  }

  lemma FirstState(m: State, m': State, p: Obj, q: Obj)
    requires p in m.preds && q in m.preds && m.preds[q] == [] && q !in m.cells
    requires m'.preds == m.preds[q := [p]] && m'.random == NextRandom(m.random)
    requires m' == m.(preds := m'.preds, random := m'.random, cells := m'.cells)
    requires m'.cells == if Lucky(m'.random) then m.cells[q := Cell(HEIGHT_UNKNOWN, m.gc - 1)] else m.cells
    ensures m' == AddEdge(m, p, q)
  {
  }

  lemma FurtherIsAddEdge(st: Store, st': Store, g: Globals, p: Obj, q: Obj)
    requires Readable(st) && Readable(st') && p in st.bgPtr && q in st.bgPtr && !st.bgPtr[q].Null?
    requires ObjectReadable(st, q) && p !in PredsOf(st, q)
    requires FurtherAdded(st, st', p, q, g.gc)
    ensures StateOf(st', g) == AddEdge(StateOf(st, g), p, q)
  {
    HeaderMeaning(st, q);
    hide Readable, GraphPreds, GraphCells, GraphRetain;
  }

  // A new structure has room.
  lemma NewNotFull(st: Store, st': Store, q: Obj, gc: nat)
    requires StoreOk(st) && StoreOk(st') && q in st.bgPtr && EnsuredGraph(st, st', q, gc) && q in st'.chains
    ensures ObjectReadable(st', q) && (q !in st.chains ==> !FullChain(st', q))
  {
    HeaderMeaning(st, q);
    CellMeaning(st', q, gc);
  }

  lemma FurtherTakes(st: Store, g: Globals, p: Obj, q: Obj)
    requires Readable(st) && p in st.bgPtr && q in st.bgPtr && !st.bgPtr[q].Null?
    requires ObjectReadable(st, q) && p !in PredsOf(st, q)
    requires q !in st.chains || FullChain(st, q)
    ensures TakesChunk(StateOf(st, g), p, q)
  {
    HeaderMeaning(st, q);
    HeadersKnown(st);
  }

  // A failing step that takes a chunk shows that its outcome does not fit.
  lemma StepTooBig(st: Store, m: State, p: Obj, q: Obj)
    requires StoreOk(st) && m.preds == GraphPreds(st) && m.cells == GraphCells(st)
    requires st.avail == None && st.n == 99999 && TakesChunk(m, p, q)
    ensures Need(AddEdge(m, p, q)) + |Lost(st.owner)| > 99999
  {
    AddEdgeUses(m, p, q);
    NoneLeft(st, m, AddEdge(m, p, q));
  }

  lemma EdgeTooBig(heap: Heap, st: Store, m: State, p: Obj, j: nat)
    requires StoreOk(st) && m.preds == GraphPreds(st) && m.cells == GraphCells(st)
    requires st.avail == None && st.n == 99999 && p in heap.objects && WellSized(heap)
    requires BYTES_PER_WORD * j < ScanBytes(heap.objects[p])
    requires var target := Target(heap, heap.objects[p].words[j]); target.Some? && TakesChunk(m, p, target.value)
    ensures Need(GraphModel.AddBackEdges(heap, m, p, j)) + |Lost(st.owner)| > 99999
  {
    var m' := AddWord(heap, m, p, heap.objects[p].words[j]);
    StepTooBig(st, m, p, Target(heap, heap.objects[p].words[j]).value);
    AddBackEdgesUses(heap, m', p, j + 1);
    SubsetSize(InUse(m'), InUse(GraphModel.AddBackEdges(heap, m', p, j + 1)));
  }

  lemma BuildTooBig(heap: Heap, m: State, objs: seq<Obj>, lost: nat)
    requires objs != [] && WellSized(heap) && (forall p :: p in objs ==> p in heap.objects)
    requires Need(GraphModel.AddBackEdges(heap, m, objs[0], OH_WORDS)) + lost > 99999
    ensures Need(Build(heap, m, objs)) + lost > 99999
  {
    var m' := GraphModel.AddBackEdges(heap, m, objs[0], OH_WORDS);
    BuildUses(heap, m', objs[1..]);
    SubsetSize(InUse(m'), InUse(Build(heap, m', objs[1..])));
  }

  lemma UpdateTooBig(st: Store, m: State, marked: set<Obj>, p: Obj)
    requires StoreOk(st) && m.preds == GraphPreds(st) && m.cells == GraphCells(st) && GraphOk(m)
    requires st.avail == None && st.n == 99999 && p in marked && p in m.preds && p !in m.cells
    requires GraphModel.ScanObject(m, marked, p).height > 0
    ensures Need(GraphModel.UpdateMaxHeight(m, marked, p)) + |Lost(st.owner)| > 99999
  {
    UpdateUses(m, marked, p);
    NoneLeft(st, m, GraphModel.UpdateMaxHeight(m, marked, p));
  }

  lemma TraverseTooBig(m: State, marked: set<Obj>, objs: seq<Obj>, lost: nat)
    requires GraphOk(m) && objs != [] && Need(GraphModel.UpdateMaxHeight(m, marked, objs[0])) + lost > 99999
    ensures Need(UpdateAll(m, marked, objs)) + lost > 99999
  {
    var m' := GraphModel.UpdateMaxHeight(m, marked, objs[0]);
    UpdateAllUses(m', marked, objs[1..]);
    SubsetSize(InUse(m'), InUse(UpdateAll(m', marked, objs[1..])));
  }

  lemma CellOverwritten(cells: Cells, p: Obj, a: Cell, b: Cell)
    ensures cells[p := a][p := b] == cells[p := b]
  {
  }

  class Collector {
    // back_edge_space, GC_n_back_edge_structs, avail_back_edges
    const space: array<BackEdges>
    var nStructs: nat
    var avail: Option<nat>
    // oh_bg_ptr of every object with debug info
    var bgPtr: map<Obj, BackPtr>
    // in_progress_space
    const table: PathTable
    // GC_gc_no, the counter of GOT_LUCKY_NUMBER, the mark bits
    var gcNo: nat
    var random: nat
    var marked: set<Obj>
    // GC_max_height, GC_deepest_obj, GC_max_max_height
    var maxHeight: nat
    var deepest: Option<Obj>
    var maxMaxHeight: nat

    // The arena and the headers as a value, with the owner of every chunk.
    ghost var st: Store

    ghost predicate Rep()
      reads this, space
    {
      st.space == space[..] && st.n == nStructs && st.avail == avail && st.bgPtr == bgPtr
    }

    ghost predicate Valid()
      reads this, space, table, table.Repr
    {
      Rep() && StoreOk(st) && table.Valid() && (space as object) !in table.Repr && this !in table.Repr
    }

    // The graph, without the way it is stored.
    ghost function Model(): State
      requires Readable(st)
      reads this
    {
      StateOf(st, Vars())
    }

    ghost function Vars(): Globals
      reads this
    {
      Globals(gcNo, random, maxHeight, deepest, maxMaxHeight)
    }

    // All chunks are handed out, and none has been given back.
    predicate Exhausted()
      reads this
    {
      avail == None && nStructs == 99999
    }

    // The graph `s` does not fit in the arena together with the chunks lost so far.
    ghost predicate TooMany(s: State)
      reads this
    {
      Need(s) + |Lost(st.owner)| > 99999
    }

    constructor ()
      ensures Valid() && fresh(space) && fresh(table) && fresh(table.Repr)
      ensures table.path == Start && Model() == State(map[], map[], {}, 0, 13, 0, None, 0)
      ensures Lost(st.owner) == {}
    {
      space := new BackEdges[MAX_BACK_EDGE_STRUCTS](_ => ZEROED_CHUNK);
      table := new PathTable();
      nStructs, avail, bgPtr := 0, None, map[];
      gcNo, random, marked, maxHeight, deepest, maxMaxHeight := 0, 13, {}, 0, None, 0;
      new;
      st := Store(space[..], 0, None, map[], [], map[], map[], map[]);
    }

    // ----- Structures (backgraph.c:86-118, 208-227) -----

    // No result stands for ABORT.
    method NewBackEdges() returns (r: Option<nat>)
      requires Rep() && ArenaOk(st)
      modifies `nStructs, `avail, `st, space
      ensures Rep() && (r.Some? <==> old(avail).Some? || old(nStructs) < 99999)
      ensures r.None? ==> st == old(st) && avail == None && nStructs == 99999
      ensures r.Some? ==> FrontFree(old(st)) && r.value == NextChunk(old(st)) && st == Taken(old(st))
    {
      ArenaFront(st);
      if avail.Some? {
        var result := avail.value;
        avail := space[result].cont;
        space[result] := space[result].(cont := None);
        st := Taken(st);
        return Some(result);
      }
      if nStructs >= MAX_BACK_EDGE_STRUCTS - 1 {
        return None;
      }
      nStructs := nStructs + 1;
      st := Taken(st);
      return Some(nStructs - 1);
    }

    // Makes chunk `be` the structure of p.
    method InitStruct(p: Obj, be: nat)
      requires Rep() && p in bgPtr && be < space.Length
      modifies `bgPtr, `st, space
      ensures Rep() && st == Attached(old(st), be, p, NewStruct(old(st).space[be], old(st).bgPtr[p], gcNo), gcNo - 1)
    {
      st := Attached(st, be, p, NewStruct(st.space[be], st.bgPtr[p], gcNo), gcNo - 1);
      space[be] := NewStruct(space[be], bgPtr[p], gcNo);
      bgPtr := bgPtr[p := Many(be)];
    }

    // Gives p a structure if it has none. The result is false for ABORT.
    method EnsureStruct(p: Obj) returns (ok: bool)
      requires Rep() && ArenaOk(st) && p in bgPtr && ObjectReadable(st, p)
      modifies `nStructs, `avail, `bgPtr, `st, space
      ensures Rep()
      ensures ok <==> p in old(st).chains || old(avail).Some? || old(nStructs) < 99999
      ensures !ok ==> Exhausted() && old(Exhausted())
      ensures ok ==> st == EnsuredAny(old(st), p, gcNo)
    {
      if !bgPtr[p].Many? {
        var be := NewBackEdges();
        if be.None? {
          return false;
        }
        InitStruct(p, be.value);
      }
      return true;
    }

    // ----- Walking and adding predecessors (backgraph.c:184-206, 229-276) -----

    // One turn of FOR_EACH_PRED: moves on to the next chunk when this one is used up, and
    // reads the next predecessor.
    method NextPred(q: Obj, be: nat, local: nat, ghost k: nat, ghost total: nat)
      returns (x: Obj, be': nat, local': nat, ghost k': nat)
      requires Rep() && ObjectReadable(st, q) && q in st.chains && ChainOk(st, q, st.chains[q])
      requires Cursor(st, q, k, be, local, total) && total < Head(st, q).nEdges
      ensures total < |PredsOf(st, q)| && x == PredsOf(st, q)[total]
      ensures Cursor(st, q, k', be', local', total + 1)
    {
      be', local', k' := be, local, k;
      CursorNext(st, q, k, be, local, total);
      if local' == MAX_IN {
        be', local', k' := space[be'].cont.value, 0, k + 1;
      }
      CursorEdge(st, q, k', be', local', total);
      x := space[be'].edges[local'];
      local' := local' + 1;
    }

    method HasPred(q: Obj, p: Obj) returns (found: bool)
      requires Rep() && q in bgPtr && ObjectReadable(st, q) && (q in st.chains ==> ChainOk(st, q, st.chains[q]))
      ensures found <==> p in PredsOf(st, q)
    {
      var b := bgPtr[q];
      if !b.Many? {
        if b.One? {
          JustOne(b.pred);
        }
        return b.One? && b.pred == p;
      }
      var be, local, total := b.be, 0, 0;
      ghost var k := 0;
      while total < space[b.be].nEdges
        invariant total <= |PredsOf(st, q)| && Cursor(st, q, k, be, local, total)
        invariant p !in PredsOf(st, q)[..total]
      {
        var x;
        x, be, local, k := NextPred(q, be, local, k, total);
        if x == p {
          return true;
        }
        total := total + 1;
      }
      assert PredsOf(st, q)[..total] == PredsOf(st, q);
      return false;
    }

    // The last chunk of q and the number of edges in it, found by walking the chain.
    method FindLast(q: Obj) returns (beCont: nat, i: nat)
      requires Rep() && q in st.chains && ObjectReadable(st, q) && ChainOk(st, q, st.chains[q])
      ensures beCont == LastOf(st.chains[q]) && i <= MAX_IN
      ensures Head(st, q).nEdges == Capacity(|st.chains[q]| - 1) + i
    {
      beCont := bgPtr[q].be;
      i := space[beCont].nEdges;
      ghost var chain, k := st.chains[q], 0;
      while i > MAX_IN
        invariant k < |chain| && beCont == chain[k]
        invariant Head(st, q).nEdges == Capacity(k) + i && (i > 0 || k == 0)
      {
        assert st.space[chain[k]].cont == LinkAfter(chain, k);
        beCont, i, k := space[beCont].cont.value, i - MAX_IN, k + 1;
      }
    }

    // Makes the unused chunk c the continuation of the last chunk of q.
    method LinkChunk(q: Obj, last: nat, c: nat)
      requires Rep() && q in st.chains && |st.chains[q]| > 0 && last == LastOf(st.chains[q]) < space.Length
      modifies space, `st
      ensures Rep() && st == Linked(old(st), q, c)
    {
      st := Linked(st, q, c);
      space[last] := space[last].(cont := Some(c));
    }

    // Writes p into slot i of the last chunk of q and counts it in the first chunk.
    method WriteAndCount(q: Obj, be: nat, beCont: nat, i: nat, p: Obj)
      requires Rep() && q in st.chains && |st.chains[q]| > 0 && be == st.chains[q][0] < space.Length
      requires beCont == LastOf(st.chains[q]) < space.Length
      requires i < MAX_IN && st.space[be].nEdges == Capacity(|st.chains[q]| - 1) + i
      modifies space, `st
      ensures Rep() && HasSlotAt(old(st), q) && st == Pushed(old(st), q, p)
    {
      SlotInChain(space[be].nEdges, |st.chains[q]|);
      st := Pushed(st, q, p);
      space[beCont] := space[beCont].(edges := space[beCont].edges[i := p]);
      space[be] := space[be].(nEdges := space[be].nEdges + 1);
    }

    // The full chain of q goes on in a new chunk. The result is false for ABORT.
    method AppendChunk(q: Obj, last: nat) returns (c: Option<nat>)
      requires Rep() && StoreOk(st) && q in st.chains && ObjectReadable(st, q) && FullChain(st, q)
      requires last == LastOf(st.chains[q])
      modifies space, `nStructs, `avail, `st
      ensures Rep()
      ensures c.None? ==> Exhausted() && old(Exhausted())
      ensures c.Some? ==> (old(avail).Some? || old(nStructs) < 99999) && FrontFree(old(st)) && c.value == NextChunk(old(st))
      ensures c.Some? ==> last < |old(st).space| && st == Linked(Taken(old(st)), q, c.value)
    {
      c := NewBackEdges();
      if c.Some? {
        AppendedNew(old(st), st, q, c.value);
        LinkChunk(q, last, c.value);
      }
    }

    method PushInPlace(q: Obj, be: nat, beCont: nat, i: nat, p: Obj)
      requires Rep() && StoreOk(st) && q in st.chains && ObjectReadable(st, q) && !FullChain(st, q)
      requires be == st.chains[q][0] && beCont == LastOf(st.chains[q]) && i < MAX_IN
      requires Head(st, q).nEdges == Capacity(|st.chains[q]| - 1) + i
      modifies space, `st
      ensures Rep() && StoreOk(st) && q in bgPtr && EdgeAppended(old(st), st, q, p) && Lost(st.owner) == Lost(old(st).owner)
    {
      PushedInPlace(st, q, p);
      WriteAndCount(q, be, beCont, i, p);
    }

    method PushInNew(q: Obj, be: nat, last: nat, p: Obj) returns (ok: bool)
      requires Rep() && StoreOk(st) && q in st.chains && ObjectReadable(st, q) && FullChain(st, q)
      requires be == st.chains[q][0] && last == LastOf(st.chains[q])
      modifies space, `nStructs, `avail, `st
      ensures Rep() && q in bgPtr
      ensures !ok ==> Exhausted() && old(Exhausted())
      ensures ok ==> StoreOk(st) && EdgeAppended(old(st), st, q, p) && Lost(st.owner) == Lost(old(st).owner)
    {
      ghost var st0 := st;
      var c := AppendChunk(q, last);
      if c.None? {
        return false;
      }
      NewChunkReady(st0, st, q, c.value, p);
      WriteAndCount(q, be, c.value, 0, p);
      return true;
    }

    // Appends p to the predecessors of q, which has a structure. The result is false for ABORT.
    method AppendPred(q: Obj, p: Obj) returns (ok: bool)
      requires Rep() && StoreOk(st) && q in st.chains
      modifies space, `nStructs, `avail, `st
      ensures Rep() && q in bgPtr
      ensures !ok ==> Exhausted() && old(Exhausted()) && ObjectReadable(old(st), q) && FullChain(old(st), q)
      ensures ok ==> StoreOk(st) && EdgeAppended(old(st), st, q, p) && Lost(st.owner) == Lost(old(st).owner)
    {
      assert ObjectReadable(st, q);
      var be := bgPtr[q].be;
      var beCont, i := FindLast(q);
      if i == MAX_IN {
        ok := PushInNew(q, be, beCont, p);
        return;
      }
      PushInPlace(q, be, beCont, i, p);
      return true;
    }

    // SET_OH_BG_PTR
    method SetHeader(q: Obj, b: BackPtr)
      requires Rep()
      modifies `bgPtr, `st
      ensures Rep() && st == WithHeader(old(st), q, b)
    {
      bgPtr := bgPtr[q := b];
      st := WithHeader(st, q, b);
    }

    // EnsureStruct, in terms of the graph.
    method EnsureCell(p: Obj) returns (ok: bool)
      requires Rep() && StoreOk(st) && p in bgPtr
      modifies `nStructs, `avail, `bgPtr, `st, space
      ensures Rep() && p in old(st).bgPtr
      ensures !ok ==> Exhausted() && old(Exhausted()) && p !in old(st).chains
      ensures ok ==> StoreOk(st) && EnsuredGraph(old(st), st, p, gcNo) && Lost(st.owner) == Lost(old(st).owner)
      ensures ok ==> p in st.chains && st.bgPtr.Keys == old(st).bgPtr.Keys
      ensures p in old(st).chains ==> ok && st == old(st)
    {
      ghost var st0 := st;
      assert ObjectReadable(st0, p);
      ok := EnsureStruct(p);
      if ok {
        EnsuredOk(st0, p, gcNo);
        EnsuredKeys(st0, p, gcNo);
      }
    }

    // The first predecessor of q goes into its header, and one time in 128 into a structure.
    method AddFirst(p: Obj, q: Obj) returns (ok: bool)
      requires Rep() && StoreOk(st) && q in bgPtr && bgPtr[q].Null?
      modifies space, `nStructs, `avail, `bgPtr, `st, `random
      ensures Rep() && random == NextRandom(old(random))
      ensures !ok ==> Exhausted() && old(Exhausted()) && Lucky(random)
      ensures ok ==> StoreOk(st) && FirstAdded(old(st), st, p, q, gcNo, Lucky(random)) && Lost(st.owner) == Lost(old(st).owner)
    {
      ghost var st0 := st;
      FirstUnlucky(st0, p, q, gcNo);
      SetHeader(q, One(p));
      random := NextRandom(random);
      if !Lucky(random) {
        return true;
      }
      ghost var st1 := st;
      ok := EnsureCell(q);
      if ok {
        FirstLucky(st0, st1, st, p, q, gcNo);
      }
    }

    // p joins the predecessors of q.
    method AddFurther(p: Obj, q: Obj) returns (ok: bool)
      requires Rep() && StoreOk(st) && q in bgPtr
      modifies space, `nStructs, `avail, `bgPtr, `st
      ensures Rep() && q in old(st).bgPtr
      ensures !ok ==> Exhausted() && old(Exhausted())
      ensures !ok ==> q !in old(st).chains || (ObjectReadable(old(st), q) && FullChain(old(st), q))
      ensures ok ==> StoreOk(st) && FurtherAdded(old(st), st, p, q, gcNo) && Lost(st.owner) == Lost(old(st).owner)
    {
      ghost var st0 := st;
      ok := EnsureCell(q);
      if !ok {
        return;
      }
      ghost var st1 := st;
      NewNotFull(st0, st1, q, gcNo);
      ok := AppendPred(q, p);
      if ok {
        EnsuredThenAppended(st0, st1, st, p, q, gcNo);
      }
    }

    // The two cases of add_edge, in terms of the whole model.
    method AddToNone(p: Obj, q: Obj) returns (ok: bool)
      requires Rep() && StoreOk(st) && p in bgPtr && q in bgPtr && bgPtr[q].Null?
      modifies space, `nStructs, `avail, `bgPtr, `st, `random
      ensures Rep()
      ensures !ok ==> Exhausted() && old(Exhausted()) && TakesChunk(old(Model()), p, q)
      ensures ok ==> StoreOk(st) && Lost(st.owner) == Lost(old(st).owner)
      ensures ok ==> Model() == GraphModel.AddEdge(old(Model()), p, q)
    {
      ghost var st0, g := st, Vars();
      NullMeaning(st0, p, q);
      ok := AddFirst(p, q);
      if ok {
        FirstIsAddEdge(st0, st, g, p, q);
      }
    }

    method AddToSome(p: Obj, q: Obj) returns (ok: bool)
      requires Rep() && StoreOk(st) && p in bgPtr && q in bgPtr && !bgPtr[q].Null?
      requires ObjectReadable(st, q) && p !in PredsOf(st, q)
      modifies space, `nStructs, `avail, `bgPtr, `st
      ensures Rep()
      ensures !ok ==> Exhausted() && old(Exhausted()) && TakesChunk(old(Model()), p, q)
      ensures ok ==> StoreOk(st) && Lost(st.owner) == Lost(old(st).owner)
      ensures ok ==> Model() == GraphModel.AddEdge(old(Model()), p, q)
    {
      ghost var st0, g := st, Vars();
      ok := AddFurther(p, q);
      if ok {
        FurtherIsAddEdge(st0, st, g, p, q);
      } else {
        FurtherTakes(st0, g, p, q);
      }
    }

    method AddEdge(p: Obj, q: Obj) returns (ok: bool)
      requires Rep() && StoreOk(st)
      modifies space, `nStructs, `avail, `bgPtr, `st, `random
      ensures Rep()
      ensures !ok ==> Exhausted() && old(Exhausted()) && TakesChunk(old(Model()), p, q)
      ensures ok ==> StoreOk(st) && Lost(st.owner) == Lost(old(st).owner)
      ensures ok ==> Model() == GraphModel.AddEdge(old(Model()), p, q)
    {
      if q !in bgPtr || p !in bgPtr {
        return true;
      }
      if bgPtr[q].Null? {
        ok := AddToNone(p, q);
        return;
      }
      HeaderMeaning(st, q);
      var found := HasPred(q, p);
      if found {
        return true;
      }
      ok := AddToSome(p, q);
    }

    // ----- Building (backgraph.c:335-362) -----

    method AddBackEdges(heap: Heap, p: Obj) returns (ok: bool)
      requires Rep() && StoreOk(st) && p in heap.objects && WellSized(heap)
      modifies space, `nStructs, `avail, `bgPtr, `st, `random
      ensures Rep()
      ensures !ok ==> Exhausted() && old(TooMany(GraphModel.AddBackEdges(heap, Model(), p, OH_WORDS)))
      ensures ok ==> StoreOk(st) && Lost(st.owner) == Lost(old(st).owner)
      ensures ok ==> Model() == GraphModel.AddBackEdges(heap, old(Model()), p, OH_WORDS)
    {
      var o := heap.objects[p];
      var j := OH_WORDS;
      ghost var m := Model();
      while BYTES_PER_WORD * j < ScanBytes(o)
        invariant Rep() && StoreOk(st) && Lost(st.owner) == Lost(old(st).owner)
        invariant GraphModel.AddBackEdges(heap, Model(), p, j) == GraphModel.AddBackEdges(heap, m, p, OH_WORDS)
        decreases |o.words| - j
      {
        var current := o.words[j];
        if heap.least <= current <= heap.greatest && current in heap.resolve {
          ghost var st0, m0 := st, Model();
          ok := AddEdge(p, heap.resolve[current]);
          if !ok {
            EdgeTooBig(heap, st0, m0, p, j);
            return;
          }
        }
        j := j + 1;
      }
      return true;
    }

    // GC_apply_to_each_object(add_back_edges), over the objects of the heap in some order.
    method BuildBackGraph(heap: Heap, objs: seq<Obj>) returns (ok: bool)
      requires Valid() && WellSized(heap) && (forall p :: p in objs ==> p in heap.objects)
      modifies space, `nStructs, `avail, `bgPtr, `st, `random
      ensures ok <==> Need(Build(heap, old(Model()), objs)) + |Lost(old(st).owner)| <= 99999
      ensures !ok ==> avail == None && nStructs == 99999
      ensures ok ==> Valid() && Lost(st.owner) == Lost(old(st).owner)
      ensures ok ==> Model() == Build(heap, old(Model()), objs)
    {
      ghost var m := Model();
      var i := 0;
      while i < |objs|
        invariant i <= |objs| && Rep() && StoreOk(st) && Lost(st.owner) == Lost(old(st).owner)
        invariant Build(heap, Model(), objs[i..]) == Build(heap, m, objs)
      {
        assert objs[i..][1..] == objs[i + 1..];
        ghost var m0, lost := Model(), |Lost(st.owner)|;
        ok := AddBackEdges(heap, objs[i]);
        if !ok {
          BuildTooBig(heap, m0, objs[i..], lost);
          return;
        }
        i := i + 1;
      }
      ChunksCounted(st, Model());
      return true;
    }

    // ----- Searching (backgraph.c:364-406) -----

    // Writes that p is on the search path into its structure; the stamp stays as it is.
    method StartHeight(p: Obj, be: nat)
      requires Rep() && p in st.chains && |st.chains[p]| > 0 && be == st.chains[p][0] < space.Length
      requires p in st.cycle && st.space[be].heightGcNo == Low16(st.cycle[p])
      modifies space, `st
      ensures Rep() && st == HeightWritten(old(st), p, HEIGHT_IN_PROGRESS, old(st).cycle[p])
    {
      st := HeightWritten(st, p, HEIGHT_IN_PROGRESS, st.cycle[p]);
      space[be] := space[be].(height := HEIGHT_IN_PROGRESS);
    }

    // Writes a height and the stamp of this collection into the structure of p.
    method SetHeight(p: Obj, be: nat, height: nat)
      requires Rep() && p in st.chains && |st.chains[p]| > 0 && be == st.chains[p][0] < space.Length
      modifies space, `st
      ensures Rep() && st == HeightWritten(old(st), p, height, gcNo)
    {
      st := HeightWritten(st, p, height, gcNo);
      space[be] := space[be].(height := height, heightGcNo := Low16(gcNo));
    }

    ghost function P(): Preds
      requires Readable(st)
      reads this
    {
      GraphPreds(st)
    }

    ghost function C(): Cells
      requires Readable(st)
      reads this
    {
      GraphCells(st)
    }

    method ReadHeight(p: Obj, be: nat) returns (height: Height, stamp: nat)
      requires Rep() && StoreOk(st) && p in bgPtr && bgPtr[p] == Many(be)
      ensures p in C() && height == C()[p].height && stamp == Low16(C()[p].cycle)
    {
      HeaderMeaning(st, p);
      CellMeaning(st, p, gcNo);
      return space[be].height, space[be].heightGcNo;
    }

    // p goes on the path, and comes off it.
    method EnterPath(p: Obj, be: nat)
      requires Rep() && StoreOk(st) && p in bgPtr && bgPtr[p] == Many(be)
      modifies space, `st
      ensures Rep() && StoreOk(st) && OnlyHeights(old(st), st) && P() == old(P())
      ensures p in old(C()) && C() == Enter(old(C()), p)
    {
      HeaderMeaning(st, p);
      CellMeaning(st, p, gcNo);
      HeightWrittenOk(st, p, HEIGHT_IN_PROGRESS, st.cycle[p]);
      StartHeight(p, be);
    }

    method LeavePath(p: Obj, be: nat, height: nat)
      requires Rep() && StoreOk(st) && p in bgPtr && bgPtr[p] == Many(be)
      modifies space, `st
      ensures Rep() && StoreOk(st) && OnlyHeights(old(st), st) && P() == old(P())
      ensures p in old(C()) && C() == Leave(old(C()), p, height, gcNo)
    {
      HeaderMeaning(st, p);
      CellMeaning(st, p, gcNo);
      HeightWrittenOk(st, p, height, gcNo);
      SetHeight(p, be, height);
    }

    // The number of predecessors, read at the start of the loop over them.
    method CountPreds(p: Obj, be: nat) returns (nEdges: nat)
      requires Rep() && StoreOk(st) && p in bgPtr && bgPtr[p] == Many(be)
      ensures p in P() && nEdges == |P()[p]| && Cursor(st, p, 0, be, 0, 0)
    {
      HeaderMeaning(st, p);
      CellMeaning(st, p, gcNo);
      return space[be].nEdges;
    }

    // NextPred, in terms of the graph.
    method NextOf(p: Obj, be: nat, local: nat, ghost k: nat, ghost total: nat)
      returns (q: Obj, be': nat, local': nat, ghost k': nat)
      requires Rep() && StoreOk(st) && p in bgPtr && p in P() && Cursor(st, p, k, be, local, total) && total < |P()[p]|
      ensures q == P()[p][total] && Cursor(st, p, k', be', local', total + 1)
    {
      HeaderMeaning(st, p);
      CellMeaning(st, p, gcNo);
      q, be', local', k' := NextPred(p, be, local, k, total);
    }

    ghost predicate Searching()
      reads this, space, table, table.Repr
    {
      Valid() && SearchOk(P(), C(), table.path, gcNo)
    }

    // Returns the height of p, or 0 if p is on the search path.
    method BackwardsHeight(p: Obj, ghost within: set<Obj>) returns (result: nat)
      requires Searching() && p in bgPtr && p in within && PredClosed(P(), within)
      modifies space, `st, table.Repr
      ensures Searching() && fresh(table.Repr - old(table.Repr)) && table.path == old(table.path)
      ensures OnlyHeights(old(st), st) && P() == old(P())
      ensures Visited(result, C()) == SearchFrom(old(P()), old(C()), old(table.path), gcNo, p)
      decreases OffPath(P(), C(), table.path), 2
    {
      var backPtr := bgPtr[p];
      HeaderMeaning(st, p);
      if backPtr.Null? {
        return 1;
      }
      if backPtr.Many? {
        result := HeightOfStruct(p, backPtr.be, within);
        return;
      }
      result := HeightOfBare(p, backPtr.pred, within);
    }

    // The case of one bare predecessor.
    method HeightOfBare(p: Obj, backPtr: Obj, ghost within: set<Obj>) returns (result: nat)
      requires Searching() && p in bgPtr && bgPtr[p] == One(backPtr) && p in within && PredClosed(P(), within)
      modifies space, `st, table.Repr
      ensures Searching() && fresh(table.Repr - old(table.Repr)) && table.path == old(table.path)
      ensures OnlyHeights(old(st), st) && P() == old(P())
      ensures Visited(result, C()) == SearchFrom(old(P()), old(C()), old(table.path), gcNo, p)
      decreases OffPath(P(), C(), table.path), 0
    {
      hide ArenaOk, Readable, StampsMatch, Shaped, PredClosed;
      ghost var preds, cells, path := P(), C(), table.path;
      BareMeaning(st, p);
      var onPath := table.Contains(p);
      if onPath {
        return 0;
      }
      BareStep(preds, cells, path, gcNo, p, backPtr, within);
      table.Push(p);
      result := BackwardsHeight(backPtr, within);
      ShorterPath(preds, C(), path, gcNo, p);
      table.Pop(p);
      result := result + 1;
    }

    // The height of one predecessor q of p. The first arm is never taken, because p has a
    // structure here.
    method HeightOfPred(p: Obj, q: Obj, ghost within: set<Obj>) returns (height: nat)
      requires Searching() && q in bgPtr && q in within && PredClosed(P(), within) && p in bgPtr && bgPtr[p].Many?
      modifies space, `st, table.Repr
      ensures Searching() && fresh(table.Repr - old(table.Repr)) && table.path == old(table.path)
      ensures OnlyHeights(old(st), st) && P() == old(P())
      ensures Visited(height, C()) == SearchFrom(old(P()), old(C()), old(table.path), gcNo, q)
      decreases OffPath(P(), C(), table.path), 3
    {
      if q in marked && !bgPtr[p].Many? {
        height := BOGUS_HEIGHT;
      } else {
        height := BackwardsHeight(q, within);
      }
    }

    // One turn of the loop over the predecessors of p, which is on the path.
    method RaiseByPred(p: Obj, cur: nat, local: nat, ghost k: nat, ghost total: nat, acc: nat, ghost within: set<Obj>)
      returns (cur': nat, local': nat, ghost k': nat, result: nat)
      requires Searching() && p in bgPtr && bgPtr[p].Many? && p in P() && Cursor(st, p, k, cur, local, total)
      requires p in within && PredClosed(P(), within) && total < |P()[p]|
      modifies space, `st, table.Repr
      ensures Searching() && fresh(table.Repr - old(table.Repr)) && table.path == old(table.path)
      ensures OnlyHeights(old(st), st) && P() == old(P()) && Cursor(st, p, k', cur', local', total + 1)
      ensures var v := SearchFrom(old(P()), old(C()), old(table.path), gcNo, old(P())[p][total]);
              C() == v.cells && result == Raise(acc, v.height)
      decreases OffPath(P(), C(), table.path), 4
    {
      hide ArenaOk, Readable, StampsMatch, SearchOk, Cursor, OnlyHeights, SearchFrom, OffPath, PredClosed;
      var q, height;
      PredWithin(P(), within, p, total);
      HeadersKnown(st);
      q, cur', local', k' := NextOf(p, cur, local, k, total);
      ghost var st1 := st;
      height := HeightOfPred(p, q, within);
      CursorKept(st1, st, p, k', cur', local', total + 1);
      result := if height >= acc then height + 1 else acc;
    }

    // The loop over the predecessors of p.
    method HeightOfPreds(p: Obj, be: nat, from: nat, ghost within: set<Obj>) returns (result: nat)
      requires Searching() && p in bgPtr && bgPtr[p] == Many(be) && p in P() && p in within && PredClosed(P(), within)
      modifies space, `st, table.Repr
      ensures Searching() && fresh(table.Repr - old(table.Repr)) && table.path == old(table.path)
      ensures OnlyHeights(old(st), st) && P() == old(P())
      ensures Visited(result, C()) == SearchRest(old(P()), old(C()), old(table.path), gcNo, old(P())[p], 0, from)
      decreases OffPath(P(), C(), table.path), 5
    {
      hide ArenaOk, Readable, StampsMatch, SearchOk, Cursor, OnlyHeights, SearchRest, SearchFrom, OffPath, PredClosed;
      ghost var preds, cells, path := P(), C(), table.path;
      ghost var st0, ps := st, P()[p];
      OnlyHeightsSame(st0);
      var nEdges := CountPreds(p, be);
      result := from;
      var cur, local, total := be, 0, 0;
      ghost var k := 0;
      while total < nEdges
        invariant Searching() && table.path == path && fresh(table.Repr - old(table.Repr))
        invariant OnlyHeights(st0, st) && P() == preds && OffPath(P(), C(), path) == OffPath(preds, cells, path)
        invariant total <= nEdges == |ps| && Cursor(st, p, k, cur, local, total)
        invariant SearchRest(preds, C(), path, gcNo, ps, total, result) == SearchRest(preds, cells, path, gcNo, ps, 0, from)
      {
        ghost var st1 := st;
        SearchNext(preds, C(), path, gcNo, ps, total, result);
        cur, local, k, result := RaiseByPred(p, cur, local, k, total, result, within);
        OnlyHeightsTrans(st0, st1, st);
        total := total + 1;
      }
      SearchDone(preds, C(), path, gcNo, ps, result);
    }

    // The case of an object with a structure, which caches its height.
    method HeightOfStruct(p: Obj, be: nat, ghost within: set<Obj>) returns (result: nat)
      requires Searching() && p in bgPtr && bgPtr[p] == Many(be) && p in within && PredClosed(P(), within)
      modifies space, `st, table.Repr
      ensures Searching() && fresh(table.Repr - old(table.Repr)) && table.path == old(table.path)
      ensures OnlyHeights(old(st), st) && P() == old(P())
      ensures Visited(result, C()) == SearchFrom(old(P()), old(C()), old(table.path), gcNo, p)
      decreases OffPath(P(), C(), table.path), 1
    {
      hide ArenaOk, Readable, StampsMatch, Shaped;
      ghost var preds, cells, path := P(), C(), table.path;
      var height, stamp := ReadHeight(p, be);
      StructCase(preds, cells, path, gcNo, p, stamp);
      if height >= 0 && stamp == Low16(gcNo) {
        return height;
      }
      if height == HEIGHT_IN_PROGRESS {
        return 0;
      }
      result := FindHeight(p, be, if height > 0 then height else 1, within);
    }

    // The height of p is not known: searches its predecessors.
    method FindHeight(p: Obj, be: nat, from: nat, ghost within: set<Obj>) returns (result: nat)
      requires Searching() && p in bgPtr && bgPtr[p] == Many(be) && p in within && PredClosed(P(), within) && p in P() && p in C()
      requires C()[p].height != HEIGHT_IN_PROGRESS && !Current(C()[p], gcNo) && from == Max(C()[p].height, 1)
      modifies space, `st, table.Repr
      ensures Searching() && fresh(table.Repr - old(table.Repr)) && table.path == old(table.path)
      ensures OnlyHeights(old(st), st) && P() == old(P())
      ensures Visited(result, C()) == SearchFrom(old(P()), old(C()), old(table.path), gcNo, p)
      decreases OffPath(P(), C(), table.path), 0
    {
      hide ArenaOk, Readable, StampsMatch, SearchOk, OnlyHeights, SearchRest, SearchFrom, OffPath;
      ghost var preds, cells, path := P(), C(), table.path;
      ghost var st0 := st;
      StructStart(preds, cells, path, gcNo, p);
      EnterPath(p, be);
      ghost var st1 := st;
      result := HeightOfPreds(p, be, from, within);
      ghost var st2 := st;
      OnlyHeightsTrans(st0, st1, st2);
      StructFinish(preds, cells, path, gcNo, p, Visited(result, C()));
      LeavePath(p, be, result);
      OnlyHeightsTrans(st0, st2, st);
    }

    // ----- Traversing (backgraph.c:411-472) -----

    // One predecessor q of a marked object.
    method ScanPred(q: Obj, height: nat, best: Option<Obj>, ghost within: set<Obj>) returns (height': nat, best': Option<Obj>)
      requires Searching() && table.path == Start && PredClosed(P(), within) && ScannedWithin(P(), marked, q, within)
      modifies space, `st, table.Repr
      ensures Searching() && fresh(table.Repr - old(table.Repr)) && table.path == Start
      ensures OnlyHeights(old(st), st) && P() == old(P())
      ensures Scanned(height', best', C()) == ScanStep(old(P()), gcNo, marked, q, Scanned(height, best, old(C())))
    {
      hide ArenaOk, Readable, StampsMatch, PredClosed;
      OnlyHeightsSame(st);
      HeadersKnown(st);
      height', best' := height, best;
      if q !in marked && q in bgPtr {
        var qHeight := BackwardsHeight(q, within);
        if qHeight > height {
          height', best' := qHeight, Some(q);
        }
      }
    }

    // One turn of the loop over the predecessors of a marked object with a structure.
    method ScanNextPred(p: Obj, cur: nat, local: nat, ghost k: nat, ghost total: nat, height: nat, best: Option<Obj>,
                        ghost within: set<Obj>)
      returns (cur': nat, local': nat, ghost k': nat, height': nat, best': Option<Obj>)
      requires Searching() && table.path == Start && p in bgPtr && p in P() && Cursor(st, p, k, cur, local, total)
      requires total < |P()[p]| && PredClosed(P(), within) && ScannedWithin(P(), marked, P()[p][total], within)
      modifies space, `st, table.Repr
      ensures Searching() && fresh(table.Repr - old(table.Repr)) && table.path == Start
      ensures OnlyHeights(old(st), st) && P() == old(P()) && Cursor(st, p, k', cur', local', total + 1)
      ensures Scanned(height', best', C()) == ScanStep(old(P()), gcNo, marked, old(P())[p][total], Scanned(height, best, old(C())))
    {
      hide ArenaOk, Readable, StampsMatch, SearchOk, Cursor, OnlyHeights, ScanStep, PredClosed, ScannedWithin;
      var q;
      q, cur', local', k' := NextOf(p, cur, local, k, total);
      ghost var st1 := st;
      height', best' := ScanPred(q, height, best, within);
      CursorKept(st1, st, p, k', cur', local', total + 1);
    }

    // The loop over the predecessors of a marked object with a structure.
    method ScanStruct(p: Obj, be: nat, from: nat, ghost within: set<Obj>) returns (height: nat, best: Option<Obj>)
      requires Searching() && table.path == Start && p in bgPtr && bgPtr[p] == Many(be) && p in P()
      requires Shaped(P(), C().Keys) && PredClosed(P(), within) && ScansWithin(P(), marked, P()[p], within)
      modifies space, `st, table.Repr
      ensures Searching() && fresh(table.Repr - old(table.Repr)) && table.path == Start
      ensures OnlyHeights(old(st), st) && P() == old(P())
      ensures Scanned(height, best, C()) == GraphModel.ScanPreds(old(P()), gcNo, marked, old(P())[p], Scanned(from, None, old(C())))
    {
      hide ArenaOk, Readable, StampsMatch, SearchOk, Cursor, OnlyHeights, Shaped, PredClosed, ScannedWithin;
      hide ScanRest, ScanStep, ScanPreds, GraphPreds, GraphCells;
      ghost var preds, cells := P(), C();
      ghost var st0, ps := st, P()[p];
      OnlyHeightsSame(st0);
      var nEdges := CountPreds(p, be);
      height, best := from, None;
      var cur, local, total := be, 0, 0;
      ghost var k := 0;
      while total < nEdges
        invariant Searching() && table.path == Start && fresh(table.Repr - old(table.Repr))
        invariant OnlyHeights(st0, st) && P() == preds && C().Keys == cells.Keys
        invariant total <= nEdges == |ps| && Cursor(st, p, k, cur, local, total)
        invariant ScanRest(preds, gcNo, marked, ps, total, Scanned(height, best, C()))
               == ScanRest(preds, gcNo, marked, ps, 0, Scanned(from, None, cells))
      {
        ghost var st1 := st;
        ScanNext(preds, gcNo, marked, ps, total, Scanned(height, best, C()));
        cur, local, k, height, best := ScanNextPred(p, cur, local, k, total, height, best, within);
        OnlyHeightsTrans(st0, st1, st);
        total := total + 1;
      }
      ScanEnds(preds, gcNo, marked, ps, Scanned(height, best, C()));
      ScanEnds(preds, gcNo, marked, ps, Scanned(from, None, cells));
    }

    // The greatest height among the unmarked predecessors of p.
    method ScanObject(p: Obj, ghost within: set<Obj>) returns (height: nat, best: Option<Obj>)
      requires Searching() && table.path == Start && p in bgPtr && p in P() && GraphOk(Model())
      requires PredClosed(P(), within) && ScansWithin(P(), marked, P()[p], within)
      modifies space, `st, table.Repr
      ensures Searching() && fresh(table.Repr - old(table.Repr)) && table.path == Start
      ensures OnlyHeights(old(st), st) && P() == old(P())
      ensures Scanned(height, best, C()) == GraphModel.ScanObject(old(Model()), marked, p)
    {
      hide ArenaOk, Readable, StampsMatch, OnlyHeights, Shaped, PredClosed, ScannedWithin, ScanStep;
      ghost var preds, cells := P(), C();
      height, best := 0, None;
      var backPtr := bgPtr[p];
      HeaderMeaning(st, p);
      if backPtr.Many? {
        var known, _ := ReadHeight(p, backPtr.be);
        assert p !in InProgress(cells);
        if known != HEIGHT_UNKNOWN {
          height := known;
        }
        height, best := ScanStruct(p, backPtr.be, height, within);
        return;
      }
      OnlyHeightsSame(st);
      if backPtr.One? {
        BareMeaning(st, p);
        ScanOne(preds, gcNo, marked, p, backPtr.pred, Scanned(0, None, cells));
        height, best := ScanPred(backPtr.pred, height, best, within);
      }
    }

    // Writes the RETAIN flag, a height and the stamp of this collection into the structure of p.
    method WriteRetained(p: Obj, be: nat, height: nat)
      requires Rep() && p in st.chains && |st.chains[p]| > 0 && be == st.chains[p][0] < space.Length
      modifies space, `st
      ensures Rep() && st == ArenaProofs.Remembered(old(st), p, height, gcNo)
    {
      st := ArenaProofs.Remembered(st, p, height, gcNo);
      space[be] := space[be].(retain := true, height := height, heightGcNo := Low16(gcNo));
    }

    // Remembers the height of p for the next collection. The result is false for ABORT.
    method Remember(p: Obj, height: nat) returns (ok: bool)
      requires Rep() && StoreOk(st) && p in bgPtr
      modifies space, `nStructs, `avail, `bgPtr, `st
      ensures Rep()
      ensures !ok ==> Exhausted() && old(Exhausted()) && p !in old(C())
      ensures ok ==> StoreOk(st) && Lost(st.owner) == Lost(old(st).owner)
      ensures ok ==> P() == old(P()) && C() == old(C())[p := Cell(height, gcNo)] && GraphRetain(st) == GraphRetain(old(st)) + {p}
    {
      hide ArenaOk, Readable, StampsMatch, GraphPreds, GraphCells, GraphRetain, Lost;
      ghost var cells := C();
      ok := EnsureCell(p);
      if ok {
        CellOverwritten(cells, p, Cell(HEIGHT_UNKNOWN, gcNo - 1), Cell(height, gcNo));
        WriteHeight(p, height);
      }
    }

    method WriteHeight(p: Obj, height: nat)
      requires Rep() && StoreOk(st) && p in st.chains
      modifies space, `st
      ensures Rep() && StoreOk(st) && Lost(st.owner) == Lost(old(st).owner)
      ensures P() == old(P()) && C() == old(C())[p := Cell(height, gcNo)] && GraphRetain(st) == GraphRetain(old(st)) + {p}
    {
      CellMeaning(st, p, gcNo);
      RememberedOk(st, p, height, gcNo);
      hide ArenaOk, Readable, StampsMatch, GraphPreds, GraphCells, GraphRetain, Lost;
      WriteRetained(p, bgPtr[p].be, height);
    }

    // Scans p and remembers its height. The result is false for ABORT.
    method ScanAndRemember(p: Obj, ghost within: set<Obj>) returns (ok: bool, height: nat, best: Option<Obj>)
      requires Searching() && table.path == Start && p in bgPtr && p in P() && GraphOk(Model())
      requires PredClosed(P(), within) && ScansWithin(P(), marked, P()[p], within)
      modifies space, `st, table.Repr, `nStructs, `avail, `bgPtr
      ensures !ok ==> Exhausted() && old(Exhausted()) && p !in old(C()) && height > 0
      ensures !ok ==> height == GraphModel.ScanObject(old(Model()), marked, p).height
      ensures ok ==> Searching() && fresh(table.Repr - old(table.Repr)) && table.path == Start
      ensures ok ==> Lost(st.owner) == Lost(old(st).owner) && P() == old(P())
      ensures var v := GraphModel.ScanObject(old(Model()), marked, p);
              ok ==> && height == v.height && best == v.deepest
                     && C() == (if height > 0 then v.cells[p := Cell(height, gcNo)] else v.cells)
                     && GraphRetain(st) == (if height > 0 then old(Model()).retain + {p} else old(Model()).retain)
    {
      hide ArenaOk, Readable, StampsMatch, SearchOk, Shaped, PredClosed, ScansWithin;
      height, best := ScanObject(p, within);
      ok := true;
      if height > 0 {
        HeaderMeaning(st, p);
        RememberKeeps(P(), C(), gcNo, p, height);
        ok := Remember(p, height);
      }
    }

    // The result is false for ABORT.
    method UpdateMaxHeight(p: Obj, ghost objs: seq<Obj>, ghost within: set<Obj>) returns (ok: bool)
      requires Searching() && table.path == Start && GraphOk(Model()) && Covers(P(), marked, objs, within) && p in objs
      modifies space, `st, table.Repr, `nStructs, `avail, `bgPtr, `maxHeight, `deepest
      ensures !ok ==> Exhausted() && old(TooMany(GraphModel.UpdateMaxHeight(Model(), marked, p)))
      ensures ok ==> Searching() && fresh(table.Repr - old(table.Repr)) && table.path == Start
      ensures ok ==> Lost(st.owner) == Lost(old(st).owner)
      ensures ok ==> Model() == GraphModel.UpdateMaxHeight(old(Model()), marked, p)
    {
      hide ArenaOk, Readable, StampsMatch, SearchOk, Shaped, PredClosed, Covers, ScansWithin, GraphRetain, GraphCells, InProgress, Lost;
      if p !in marked || p !in bgPtr {
        return true;
      }
      ghost var m, st0 := Model(), st;
      HeaderMeaning(st, p);
      PredCovered(P(), marked, objs, within, p);
      var height, best;
      ok, height, best := ScanAndRemember(p, within);
      if !ok {
        UpdateTooBig(st0, m, marked, p);
        return;
      }
      if height > maxHeight {
        maxHeight, deepest := height, best;
      }
      UpdateIs(m, Model(), marked, p, GraphModel.ScanObject(m, marked, p));
    }

    // Updates every object in turn and keeps the deepest one for printing. The result is
    // false for ABORT.
    method TraverseBackGraph(objs: seq<Obj>, ghost within: set<Obj>) returns (ok: bool)
      requires Searching() && table.path == Start && GraphOk(Model()) && Covers(P(), marked, objs, within)
      modifies space, `st, table.Repr, `nStructs, `avail, `bgPtr, `maxHeight, `deepest, `marked
      ensures !ok ==> Exhausted() && old(TooMany(UpdateAll(Model().(maxHeight := 0), marked, objs)))
      ensures ok ==> Searching() && fresh(table.Repr - old(table.Repr)) && table.path == Start
      ensures ok ==> Lost(st.owner) == Lost(old(st).owner)
      ensures ok ==> Model() == UpdateAll(old(Model()).(maxHeight := 0), old(marked), objs)
      ensures ok ==> marked == old(marked) + (if deepest.Some? then {deepest.value} else {})
    {
      hide ArenaOk, Readable, StampsMatch, SearchOk, Shaped, Covers, GraphRetain, GraphCells, GraphPreds, Lost, GraphModel.UpdateMaxHeight;
      ghost var m := Model().(maxHeight := 0);
      maxHeight := 0;
      var i := 0;
      while i < |objs|
        invariant i <= |objs| && Searching() && table.path == Start && fresh(table.Repr - old(table.Repr))
        invariant Lost(st.owner) == Lost(old(st).owner) && marked == old(marked) && GraphOk(Model()) && P() == old(P())
        invariant UpdateAll(Model(), marked, objs[i..]) == UpdateAll(m, marked, objs)
      {
        assert objs[i..][1..] == objs[i + 1..];
        ghost var m0, lost := Model(), |Lost(st.owner)|;
        ok := UpdateMaxHeight(objs[i], objs, within);
        if !ok {
          TraverseTooBig(m0, marked, objs[i..], lost);
          return;
        }
        i := i + 1;
      }
      if deepest.Some? {
        marked := marked + {deepest.value};
      }
      return true;
    }

    // A successful collection marks the objects, increments GC_gc_no (alloc.c:835) and
    // traverses the graph (alloc.c:1091-1093).
    method Collect(marks: set<Obj>, objs: seq<Obj>) returns (ok: bool)
      requires Valid() && table.path == Start && GraphOk(Model()) && StampsOk(gcNo + 1, C()) && SearchSafe(P(), marks, objs)
      modifies this, space, table.Repr
      ensures ok <==> Need(Traverse(old(Model()), marks, objs)) + |Lost(old(st).owner)| <= 99999
      ensures !ok ==> avail == None && nStructs == 99999
      ensures ok ==> Valid() && fresh(table.Repr - old(table.Repr)) && table.path == Start
      ensures ok ==> Lost(st.owner) == Lost(old(st).owner)
      ensures ok ==> Model() == Traverse(old(Model()), marks, objs)
      ensures ok ==> marked == marks + (if deepest.Some? then {deepest.value} else {})
    {
      hide ArenaOk, Readable, StampsMatch, Shaped, Covers, GraphRetain, GraphCells, GraphPreds, Lost;
      ghost var within :| Covers(P(), marks, objs, within);
      marked := marks;
      gcNo := gcNo + 1;
      ok := TraverseBackGraph(objs, within);
      if ok {
        ChunksCounted(st, Model());
      }
    }

    // ----- Resetting and printing (backgraph.c:110-118, 299-333, 474-494) -----

    // Puts the chunks of `chain` from link `from` on in front of the free list.
    method DeallocateBackEdges(c: nat, ghost chain: seq<nat>, ghost from: nat)
      requires from < |chain| && c == chain[from] && (forall k :: 0 <= k < |chain| ==> chain[k] < space.Length)
      requires forall k {:trigger LinkAfter(chain, k)} :: from <= k < |chain| ==> space[chain[k]].cont == LinkAfter(chain, k)
      modifies space, `avail
      ensures space[..] == WithCont(old(space[..]), LastOf(chain), old(avail)) && avail == Some(c)
    {
      var last := c;
      ghost var k := from;
      assert space[chain[k]].cont == LinkAfter(chain, k);
      while space[last].cont.Some?
        invariant from <= k < |chain| && last == chain[k] && space[last].cont == LinkAfter(chain, k)
        decreases |chain| - k
      {
        last, k := space[last].cont.value, k + 1;
        assert space[chain[k]].cont == LinkAfter(chain, k);
      }
      space[last] := space[last].(cont := avail);
      avail := Some(c);
    }

    // The structure of p is given back.
    method FreeStruct(p: Obj, be: nat)
      requires Rep() && p in st.chains && ChainOk(st, p, st.chains[p]) && be == st.chains[p][0]
      modifies space, `avail, `bgPtr, `st
      ensures Rep() && st == FreedObject(old(st), p)
    {
      DeallocateBackEdges(be, st.chains[p], 0);
      st := Cut(st, p, 0);
      SetHeader(p, Null);
    }

    // p keeps its first chunk and its height.
    method EmptyStruct(p: Obj, be: nat)
      requires Rep() && p in st.chains && ChainOk(st, p, st.chains[p]) && be == st.chains[p][0]
      modifies space, `avail, `st
      ensures Rep() && st == KeptObject(old(st), p)
    {
      ghost var chain := st.chains[p];
      ChainDistinct(st, p, chain);
      assert space[chain[0]].cont == LinkAfter(chain, 0);
      space[be] := space[be].(nEdges := 0);
      if space[be].cont.Some? {
        DeallocateBackEdges(space[be].cont.value, chain, 1);
        space[be] := space[be].(cont := None);
      }
      space[be] := space[be].(retain := false);
      st := KeptObject(st, p);
    }

    // The header of p is cleared; p has no structure.
    method ClearHeader(p: Obj)
      requires Rep() && StoreOk(st) && p !in st.chains
      modifies `bgPtr, `st
      ensures Rep() && StoreOk(st) && Lost(st.owner) == Lost(old(st).owner)
      ensures P() == old(P())[p := []] && C() == old(C()) && p !in C() && GraphRetain(st) == old(GraphRetain(st))
    {
      WithHeaderOk(st, p, Null);
      hide ArenaOk, Readable, StampsMatch, GraphPreds, GraphRetain;
      SetHeader(p, Null);
    }

    // The structure of p is freed, or emptied if it is retained.
    method ResetStruct(p: Obj, be: nat)
      requires Rep() && StoreOk(st) && p in bgPtr && bgPtr[p] == Many(be)
      modifies space, `avail, `bgPtr, `st
      ensures Rep() && StoreOk(st) && Lost(st.owner) == Lost(old(st).owner) && p in old(C())
      ensures P() == old(P())[p := []] && GraphRetain(st) == old(GraphRetain(st)) - {p}
      ensures C() == if p in old(GraphRetain(st)) then old(C()) else old(C()) - {p}
    {
      HeaderMeaning(st, p);
      CellMeaning(st, p, gcNo);
      assert ChainOk(st, p, st.chains[p]);
      FreedObjectOk(st, p);
      CutLost(st, p, 0);
      KeptObjectOk(st, p);
      KeptLost(st, p);
      hide ArenaOk, Readable, StampsMatch, GraphPreds, GraphCells, Lost, FreedObject, KeptObject, Cut;
      if !space[be].retain {
        FreeStruct(p, be);
        return;
      }
      EmptyStruct(p, be);
    }

    method ResetBackEdge(p: Obj)
      requires Rep() && StoreOk(st) && GraphRetain(st) <= GraphCells(st).Keys
      modifies space, `avail, `bgPtr, `st
      ensures Rep() && StoreOk(st) && Lost(st.owner) == Lost(old(st).owner)
      ensures Model() == ResetObject(old(Model()), p)
    {
      if p !in bgPtr {
        return;
      }
      ManyMeaning(st, p);
      hide ArenaOk, Readable, StampsMatch, GraphPreds, GraphCells, GraphRetain, Lost, ResetObject;
      ghost var m := Model();
      var backPtr := bgPtr[p];
      if backPtr.Many? {
        ResetStruct(p, backPtr.be);
      } else {
        WithoutAbsent(C(), GraphRetain(st), p);
        ClearHeader(p);
      }
      ResetIs(m, Model(), p);
    }

    method PrintBackGraphStats(objs: seq<Obj>)
      requires Valid() && GraphRetain(st) <= GraphCells(st).Keys
      modifies space, `avail, `bgPtr, `st, `maxMaxHeight, `deepest
      ensures Valid() && Lost(st.owner) == Lost(old(st).owner)
      ensures Model() == Print(old(Model()), objs)
    {
      hide ArenaOk, Readable, StampsMatch, GraphCells, GraphPreds, Lost, ResetObject;
      if maxHeight > maxMaxHeight {
        maxMaxHeight := maxHeight;
      }
      ghost var m := Model();
      var i := 0;
      while i < |objs|
        invariant i <= |objs| && Rep() && StoreOk(st) && Lost(st.owner) == Lost(old(st).owner)
        invariant ResetAll(Model(), objs[i..]) == ResetAll(m, objs)
        invariant GraphRetain(st) <= GraphCells(st).Keys
      {
        assert objs[i..][1..] == objs[i + 1..];
        ResetBackEdge(objs[i]);
        i := i + 1;
      }
      deepest := None;
    }

    // ----- Objects come and go -----

    // p gets a debugging header (dbg_mlc.c:286-288).
    method NewObject(p: Obj)
      requires Rep() && StoreOk(st) && p !in bgPtr
      modifies `bgPtr, `st
      ensures Rep() && StoreOk(st) && Lost(st.owner) == Lost(old(st).owner)
      ensures Model() == Allocate(old(Model()), p)
    {
      NoChain(st, p);
      hide ArenaOk, Readable, StampsMatch, GraphPreds, GraphCells, Lost;
      ClearHeader(p);
      WithoutAbsent(C(), GraphRetain(st), p);
    }

    // p is swept or freed; the collector does not give back its chunks.
    method DropObject(p: Obj)
      requires Rep() && StoreOk(st)
      modifies `bgPtr, `st
      ensures Rep() && StoreOk(st)
      ensures Lost(st.owner) == Lost(old(st).owner) + (if p in old(st).chains then set c | c in old(st).chains[p] else {})
      ensures Model() == Drop(old(Model()), p)
    {
      DroppedOk(st, p);
      DroppedLost(st, p);
      bgPtr := bgPtr - {p};
      st := Dropped(st, p);
    }
  }
}
