// What the invariant of the arena says about its chunks (backgraph.c:75-118).
module Conservation {
  import opened Heights
  import opened GraphModel
  import opened Arena
  import opened ArenaProofs
  import opened Cycles

  // Every chunk handed out so far is in exactly one place: on the free list, in the chain of
  // one object, or lost with an object that was freed while it owned a structure. There it
  // stands once.
  ghost predicate Partitioned(st: Store) {
    && (forall c: nat :: c < st.n <==> c in st.free || c in Lost(st.owner) || exists q :: q in st.chains && c in st.chains[q])
    && (forall c :: c in st.free ==> c !in Lost(st.owner))
    && (forall c, q :: q in st.chains && c in st.chains[q] ==> c !in st.free && c !in Lost(st.owner))
    && (forall c, q, r :: q in st.chains && r in st.chains && c in st.chains[q] && c in st.chains[r] ==> q == r)
    && Distinct(st.free)
    && (forall q :: q in st.chains ==> Distinct(st.chains[q]))
  }

  lemma ChunksPartitioned(st: Store)
    requires ArenaOk(st)
    ensures Partitioned(st)
  {
    forall c | c in st.free
      ensures c < st.n && c in st.owner && st.owner[c].Free?
    {
      FreeOwner(st, c);
    }
    forall c, q | q in st.chains && c in st.chains[q]
      ensures c < st.n && c in st.owner && st.owner[c].Owned? && st.owner[c].obj == q
    {
      ChainOwner(st, q, c);
    }
    forall c | 0 <= c < st.n
      ensures c in st.free || c in Lost(st.owner) || exists q :: q in st.chains && c in st.chains[q]
    {
      assert Placed(st, c);
    }
    forall q | q in st.chains
      ensures Distinct(st.chains[q])
    {
      assert ChainOk(st, q, st.chains[q]);
    }
  }

  lemma FreeOwner(st: Store, c: nat)
    requires FreeOk(st) && c in st.free
    ensures c < st.n && c in st.owner && st.owner[c].Free?
  {
  }

  lemma ChainOwner(st: Store, q: Obj, c: nat)
    requires ArenaOk(st) && q in st.chains && c in st.chains[q]
    ensures c < st.n && c in st.owner && st.owner[c].Owned? && st.owner[c].obj == q
  {
    assert ChainOk(st, q, st.chains[q]);
  }

  // new_back_edges never hands out a chunk that is in use, and what it hands out is on no list
  // afterwards.
  lemma NewChunkUnused(st: Store)
    requires ArenaOk(st) && HasRoom(st)
    ensures ArenaOk(Taken(st)) && NextChunk(st) !in Taken(st).free
    ensures forall q :: q in st.chains ==> NextChunk(st) !in st.chains[q] && Taken(st).chains[q] == st.chains[q]
    ensures NextChunk(st) !in Lost(st.owner)
  {
    TakenArena(st);
    ChunksPartitioned(st);
    ChunksPartitioned(Taken(st));
  }

  // An object with n predecessors and a structure owns max(1, ceil(n / 10)) chunks.
  lemma ChainLength(st: Store, q: Obj)
    requires StoreOk(st) && q in st.chains
    ensures q in st.bgPtr && ObjectReadable(st, q)
    ensures |st.chains[q]| == Max(1, (|PredsOf(st, q)| + 9) / 10)
  {
    assert ObjectReadable(st, q);
  }

  // When no object has predecessors, every structure is one chunk.
  lemma OneChunkEach(st: Store, q: Obj)
    requires StoreOk(st) && q in st.chains && q in GraphPreds(st) && GraphPreds(st)[q] == []
    ensures |st.chains[q]| == 1
  {
    ChainLength(st, q);
  }

  // After printing, exactly the retained ones among the visited objects own a chunk, one each;
  // the others own a structure if they did before.
  lemma PrintedChunks(st: Store, s: State, s': State, objs: seq<Obj>)
    requires StoreOk(st) && GraphPreds(st) == s'.preds && GraphCells(st) == s'.cells && s' == Print(s, objs)
    requires s.retain <= s.cells.Keys <= s.preds.Keys && Distinct(objs)
    ensures forall q :: q in objs ==> (q in st.chains <==> q in s.retain)
    ensures forall q :: q in objs && q in st.chains ==> |st.chains[q]| == 1
    ensures forall q :: q !in objs ==> (q in st.chains <==> q in s.cells)
  {
    PrintExact(s, objs);
    forall q | q in st.chains && q in objs
      ensures |st.chains[q]| == 1
    {
      ChainLength(st, q);
      assert q in GraphPreds(st);
      OneChunkEach(st, q);
    }
  }

  // A second print with no traversal between leaves no visited object with a chunk, so that
  // every chunk is free, owned by an object that was not visited, or lost earlier.
  lemma SecondPrintFreesAll(st: Store, s: State, objs: seq<Obj>)
    requires StoreOk(st) && s.retain <= s.cells.Keys <= s.preds.Keys && Distinct(objs)
    requires GraphCells(st) == Print(Print(s, objs), objs).cells
    ensures forall q :: q in st.chains ==> q !in objs
    ensures forall c: nat :: c < st.n ==>
              c in st.free || c in Lost(st.owner) || exists q :: q !in objs && q in st.chains && c in st.chains[q]
  {
    PrintExact(s, objs);
    PrintExact(Print(s, objs), objs);
    assert forall q :: q in GraphCells(st) ==> q !in objs;
    ChunksPartitioned(st);
  }
}
