// What the primitive writes of backgraph.c do to the arena and to the graph it represents.
module ArenaProofs {
  import opened Options
  import opened Heights
  import opened Arena

  // ----- Objects that a write does not touch -----

  ghost predicate SameObject(st: Store, st': Store, x: Obj) {
    && (x in st'.bgPtr <==> x in st.bgPtr) && (x in st.bgPtr ==> st'.bgPtr[x] == st.bgPtr[x])
    && (x in st'.chains <==> x in st.chains) && (x in st.chains ==> st'.chains[x] == st.chains[x])
    && (x in st'.cycle <==> x in st.cycle) && (x in st.cycle ==> st'.cycle[x] == st.cycle[x])
    && (x in st.chains ==> SameChunks(st.space, st'.space, st.chains[x]))
  }

  ghost predicate SameChunks(space: seq<BackEdges>, space': seq<BackEdges>, chain: seq<nat>) {
    forall k :: 0 <= k < |chain| ==> chain[k] < |space| && chain[k] < |space'| && space'[chain[k]] == space[chain[k]]
  }

  lemma SameEdges(space: seq<BackEdges>, space': seq<BackEdges>, chain: seq<nat>, n: nat)
    requires n <= Capacity(|chain|) && (forall k :: 0 <= k < |chain| ==> chain[k] < |space| && chain[k] < |space'|)
    requires forall k :: 0 <= k < |chain| ==> space'[chain[k]].edges == space[chain[k]].edges
    ensures ChainEdges(space', chain, n) == ChainEdges(space, chain, n)
  {
  }

  lemma SameObjectGraph(st: Store, st': Store, x: Obj)
    requires ObjectReadable(st, x) && SameObject(st, st', x)
    ensures ObjectReadable(st', x)
    ensures x in st.bgPtr ==> PredsOf(st', x) == PredsOf(st, x)
    ensures x in st.chains ==> Head(st', x) == Head(st, x) && CellOf(st', x) == CellOf(st, x)
  {
    if x in st.chains {
      SameEdges(st.space, st'.space, st.chains[x], Head(st, x).nEdges);
    }
  }

  // A write to q alone changes the graph at q alone.
  ghost predicate OnlyObject(st: Store, st': Store, q: Obj) {
    forall x :: x != q ==> SameObject(st, st', x)
  }

  lemma OnlyObjectReadable(st: Store, st': Store, q: Obj)
    requires Readable(st) && OnlyObject(st, st', q) && ObjectReadable(st', q)
    ensures Readable(st')
  {
    forall x | x != q && (x in st'.bgPtr || x in st'.chains || x in st'.cycle)
      ensures ObjectReadable(st', x)
    {
      SameObjectGraph(st, st', x);
    }
  }

  lemma OnlyObjectStamps(st: Store, st': Store, q: Obj)
    requires Readable(st) && Readable(st') && OnlyObject(st, st', q) && StampsMatch(st)
    requires q in st'.chains ==> Head(st', q).heightGcNo == Low16(st'.cycle[q])
    ensures StampsMatch(st')
  {
    forall x | x in st'.chains
      ensures Head(st', x).heightGcNo == Low16(st'.cycle[x])
    {
      if x != q {
        SameObjectGraph(st, st', x);
      }
    }
  }

  lemma AgreeExcept<T>(m: map<Obj, T>, m': map<Obj, T>, q: Obj)
    requires forall x :: x in m && x != q ==> x in m' && m'[x] == m[x]
    requires forall x :: x in m' && x != q ==> x in m
    ensures m' == if q in m' then m[q := m'[q]] else m - {q}
  {
  }

  lemma OnlyObjectPreds(st: Store, st': Store, q: Obj)
    requires Readable(st) && Readable(st') && OnlyObject(st, st', q)
    ensures GraphPreds(st') == if q in st'.bgPtr then GraphPreds(st)[q := PredsOf(st', q)] else GraphPreds(st) - {q}
  {
    var m, m' := GraphPreds(st), GraphPreds(st');
    forall x | x != q && (x in m || x in m')
      ensures x in m && x in m' && m'[x] == m[x]
    {
      assert SameObject(st, st', x);
      SameObjectGraph(st, st', x);
    }
    AgreeExcept(m, m', q);
  }

  lemma OnlyObjectCells(st: Store, st': Store, q: Obj)
    requires Readable(st) && Readable(st') && OnlyObject(st, st', q)
    ensures GraphCells(st') == if q in st'.chains then GraphCells(st)[q := CellOf(st', q)] else GraphCells(st) - {q}
  {
    var m, m' := GraphCells(st), GraphCells(st');
    forall x | x != q && (x in m || x in m')
      ensures x in m && x in m' && m'[x] == m[x]
    {
      assert SameObject(st, st', x);
      SameObjectGraph(st, st', x);
    }
    AgreeExcept(m, m', q);
  }

  lemma OnlyObjectRetain(st: Store, st': Store, q: Obj)
    requires Readable(st) && Readable(st') && OnlyObject(st, st', q)
    ensures GraphRetain(st') == GraphRetain(st) - {q} + (if q in st'.chains && Head(st', q).retain then {q} else {})
  {
    forall x | x != q && (x in st.chains || x in st'.chains)
      ensures x in GraphRetain(st') <==> x in GraphRetain(st)
    {
      assert SameObject(st, st', x);
      SameObjectGraph(st, st', x);
    }
  }

  // The graph of st' is the graph of st except at q.
  ghost predicate GraphChangedAt(st: Store, st': Store, q: Obj)
    requires Readable(st) && Readable(st')
  {
    && GraphPreds(st') == (if q in st'.bgPtr then GraphPreds(st)[q := PredsOf(st', q)] else GraphPreds(st) - {q})
    && GraphCells(st') == (if q in st'.chains then GraphCells(st)[q := CellOf(st', q)] else GraphCells(st) - {q})
    && GraphRetain(st') == GraphRetain(st) - {q} + (if q in st'.chains && Head(st', q).retain then {q} else {})
  }

  lemma OnlyObjectGraph(st: Store, st': Store, q: Obj)
    requires StoreOk(st) && ArenaOk(st') && OnlyObject(st, st', q) && ObjectReadable(st', q)
    requires q in st'.chains ==> Head(st', q).heightGcNo == Low16(st'.cycle[q])
    ensures StoreOk(st') && GraphChangedAt(st, st', q)
  {
    OnlyObjectReadable(st, st', q);
    OnlyObjectStamps(st, st', q);
    OnlyObjectPreds(st, st', q);
    OnlyObjectCells(st, st', q);
    OnlyObjectRetain(st, st', q);
  }

  // ----- Chunks that a write does not touch -----

  // Every chunk of another object than q is the same in both arenas.
  ghost predicate OnlyChunksOf(st: Store, st': Store, q: Obj) {
    && |st'.space| == |st.space|
    && (forall c :: c in st.owner && c < |st.space| && st.owner[c].Owned? && st.owner[c].obj != q ==> st'.space[c] == st.space[c])
  }

  lemma OnlyChunksOnlyObject(st: Store, st': Store, q: Obj)
    requires ArenaOk(st) && OnlyChunksOf(st, st', q)
    requires forall x :: x != q ==>
               && (x in st'.bgPtr <==> x in st.bgPtr) && (x in st.bgPtr ==> st'.bgPtr[x] == st.bgPtr[x])
               && (x in st'.chains <==> x in st.chains) && (x in st.chains ==> st'.chains[x] == st.chains[x])
               && (x in st'.cycle <==> x in st.cycle) && (x in st.cycle ==> st'.cycle[x] == st.cycle[x])
    ensures OnlyObject(st, st', q)
  {
    forall x | x != q && x in st.chains
      ensures SameChunks(st.space, st'.space, st.chains[x])
    {
      assert ChainOk(st, x, st.chains[x]);
    }
  }

  // Who owns what does not depend on headers or on what is in the chunks.
  lemma SameOwners(st: Store, st': Store)
    requires OwnersOk(st) && st'.owner == st.owner && st'.free == st.free && st'.chains == st.chains && st'.n == st.n
    ensures OwnersOk(st')
  {
    forall c | c in st'.owner
      ensures Placed(st', c)
    {
      assert Placed(st, c);
    }
  }

  // ----- Writing a height or the RETAIN flag -----

  function WithHead(st: Store, q: Obj, be: BackEdges, cycle: int): Store
    requires q in st.chains && |st.chains[q]| > 0 && st.chains[q][0] < |st.space|
  {
    st.(space := st.space[st.chains[q][0] := be], cycle := st.cycle[q := cycle])
  }

  lemma WithHeadArena(st: Store, q: Obj, be: BackEdges, cycle: int)
    requires ArenaOk(st) && q in st.chains && ObjectReadable(st, q)
    requires be.cont == Head(st, q).cont
    ensures ArenaOk(WithHead(st, q, be, cycle)) && OnlyObject(st, WithHead(st, q, be, cycle), q)
  {
    var st' := WithHead(st, q, be, cycle);
    SameOwners(st, st');
    assert ChainOk(st, q, st.chains[q]);
    forall x | x in st'.chains
      ensures ChainOk(st', x, st'.chains[x])
    {
      assert ChainOk(st, x, st.chains[x]);
    }
    OnlyChunksOnlyObject(st, st', q);
  }

  ghost predicate KeepsEdges(st: Store, q: Obj, be: BackEdges)
    requires ObjectReadable(st, q) && q in st.chains
  {
    be.cont == Head(st, q).cont && be.nEdges == Head(st, q).nEdges && be.edges == Head(st, q).edges
  }

  lemma WithHeadChanges(st: Store, q: Obj, be: BackEdges, cycle: int)
    requires StoreOk(st) && q in st.chains && KeepsEdges(st, q, be) && be.heightGcNo == Low16(cycle)
    ensures var st' := WithHead(st, q, be, cycle);
            StoreOk(st') && GraphChangedAt(st, st', q)
  {
    WithHeadArena(st, q, be, cycle);
    WithHeadObject(st, q, be, cycle);
    OnlyObjectGraph(st, WithHead(st, q, be, cycle), q);
  }

  // Rewrites the head of q, keeping its edges: a height, a stamp or the RETAIN flag.
  lemma WithHeadOk(st: Store, q: Obj, be: BackEdges, cycle: int)
    requires StoreOk(st) && q in st.chains && KeepsEdges(st, q, be) && be.heightGcNo == Low16(cycle)
    ensures var st' := WithHead(st, q, be, cycle);
            && StoreOk(st')
            && GraphPreds(st') == GraphPreds(st)
            && GraphCells(st') == GraphCells(st)[q := Cell(be.height, cycle)]
            && GraphRetain(st') == GraphRetain(st) - {q} + (if be.retain then {q} else {})
  {
    WithHeadChanges(st, q, be, cycle);
    WithHeadObject(st, q, be, cycle);
    SameAt(GraphPreds(st), q, PredsOf(st, q));
  }

  lemma SameAt<T>(m: map<Obj, T>, q: Obj, v: T)
    requires q in m && m[q] == v
    ensures m[q := v] == m
  {
  }

  lemma WithHeadObject(st: Store, q: Obj, be: BackEdges, cycle: int)
    requires ObjectReadable(st, q) && q in st.chains
    requires be.nEdges == Head(st, q).nEdges && be.edges == Head(st, q).edges
    ensures var st' := WithHead(st, q, be, cycle);
            && ObjectReadable(st', q) && q in st'.bgPtr && q in st'.chains
            && Head(st', q) == be && PredsOf(st', q) == PredsOf(st, q) && CellOf(st', q) == Cell(be.height, cycle)
  {
    SameEdges(st.space, WithHead(st, q, be, cycle).space, st.chains[q], be.nEdges);
  }

  // ----- Taking a chunk (backgraph.c:86-108) -----

  predicate HasRoom(st: Store) {
    st.avail.Some? || st.n < MAX_BACK_EDGE_STRUCTS - 1
  }

  predicate AvailOk(st: Store) {
    st.avail.Some? ==> |st.free| > 0 && st.free[|st.free| - 1] == st.avail.value < |st.space|
  }

  function NextChunk(st: Store): nat {
    if st.avail.Some? then st.avail.value else st.n
  }

  // The store after new_back_edges: the chunk is neither free nor in a chain.
  function Taken(st: Store): Store
    requires AvailOk(st)
  {
    if st.avail.Some? then
      var c := st.avail.value;
      st.(space := st.space[c := st.space[c].(cont := None)], avail := st.space[c].cont,
          free := st.free[..|st.free| - 1], owner := st.owner[c := Loose])
    else st.(n := st.n + 1, owner := st.owner[st.n := Loose])
  }

  ghost predicate IsLoose(st: Store, c: nat) {
    c < st.n <= |st.space| && c in st.owner && st.owner[c] == Loose && st.space[c].cont == None
  }

  // Chunks of objects are not affected by what happens to other chunks.
  ghost predicate OwnedSame(st: Store, st': Store) {
    && |st'.space| == |st.space| && st.n <= st'.n && st'.chains == st.chains
    && (forall c :: c in st.owner && c < |st.space| && st.owner[c].Owned? ==>
          c in st'.owner && st'.owner[c] == st.owner[c] && st'.space[c] == st.space[c])
  }

  lemma OwnedSameChains(st: Store, st': Store)
    requires ArenaOk(st) && OwnedSame(st, st') && st'.n <= |st.space|
    ensures forall x :: x in st'.chains ==> ChainOk(st', x, st'.chains[x])
  {
    forall x | x in st'.chains
      ensures ChainOk(st', x, st'.chains[x])
    {
      assert ChainOk(st, x, st.chains[x]);
    }
  }

  lemma OwnedSameObject(st: Store, st': Store, x: Obj)
    requires ArenaOk(st) && OwnedSame(st, st') && st'.bgPtr == st.bgPtr && st'.cycle == st.cycle
    ensures SameObject(st, st', x)
  {
    if x in st.chains {
      assert ChainOk(st, x, st.chains[x]);
    }
  }

  // The chunk at the front of the free list is known to be free.
  ghost predicate FrontFree(st: Store) {
    AvailOk(st) && (st.avail.Some? ==> st.avail.value in st.owner && st.owner[st.avail.value] == Free(|st.free| - 1))
  }

  lemma ArenaFront(st: Store)
    requires ArenaOk(st)
    ensures FrontFree(st)
  {
    if st.avail.Some? {
      assert st.owner[st.free[|st.free| - 1]] == Free(|st.free| - 1);
    }
  }

  lemma TakenFree(st: Store)
    requires FreeOk(st) && FrontFree(st) && (st.avail.None? ==> st.n < |st.space|)
    ensures FreeOk(Taken(st))
  {
    var st' := Taken(st);
    assert st.avail.Some? ==> st'.avail == LinkBelow(st.free, |st'.free|);
    forall k | 0 <= k < |st'.free|
      ensures st'.space[st'.free[k]].cont == LinkBelow(st'.free, k)
    {
      assert st.space[st.free[k]].cont == LinkBelow(st.free, k);
    }
  }

  lemma PopOwners(st: Store)
    requires OwnersOk(st) && FrontFree(st) && st.avail.Some?
    ensures OwnersOk(Taken(st))
  {
    forall c | c in Taken(st).owner
      ensures Placed(Taken(st), c)
    {
      assert c in st.owner ==> Placed(st, c);
    }
  }

  lemma BumpOwners(st: Store)
    requires OwnersOk(st) && st.avail.None?
    ensures OwnersOk(Taken(st))
  {
    assert st.n !in st.owner;
    forall c | c in Taken(st).owner
      ensures Placed(Taken(st), c)
    {
      assert c in st.owner ==> Placed(st, c);
    }
  }

  lemma TakenLoose(st: Store)
    requires OwnersOk(st) && UnusedOk(st) && FrontFree(st) && HasRoom(st)
    ensures IsLoose(Taken(st), NextChunk(st)) && UnusedOk(Taken(st))
  {
  }

  lemma TakenSame(st: Store)
    requires OwnersOk(st) && FrontFree(st)
    ensures OwnedSame(st, Taken(st))
  {
  }

  // new_back_edges never hands out a chunk that is in use.
  lemma TakenArena(st: Store)
    requires ArenaOk(st) && HasRoom(st)
    ensures FrontFree(st) && ArenaOk(Taken(st)) && IsLoose(Taken(st), NextChunk(st)) && OwnedSame(st, Taken(st))
  {
    ArenaFront(st);
    TakenFree(st);
    if st.avail.Some? {
      PopOwners(st);
    } else {
      BumpOwners(st);
    }
    TakenLoose(st);
    TakenSame(st);
    OwnedSameChains(st, Taken(st));
  }

  ghost predicate SameGraph(st: Store, st': Store)
    requires Readable(st) && Readable(st')
  {
    GraphPreds(st') == GraphPreds(st) && GraphCells(st') == GraphCells(st) && GraphRetain(st') == GraphRetain(st)
  }

  lemma SameAllGraph(st: Store, st': Store)
    requires Readable(st) && StampsMatch(st) && (forall x :: SameObject(st, st', x))
    ensures Readable(st') && StampsMatch(st') && SameGraph(st, st')
  {
    forall x | x in st'.bgPtr || x in st'.chains || x in st'.cycle
      ensures ObjectReadable(st', x)
    {
      assert SameObject(st, st', x);
      SameObjectGraph(st, st', x);
    }
    SameAllPreds(st, st');
    SameAllCells(st, st');
    SameAllRetain(st, st');
  }

  lemma SameAllPreds(st: Store, st': Store)
    requires Readable(st) && Readable(st') && (forall x :: SameObject(st, st', x))
    ensures GraphPreds(st') == GraphPreds(st)
  {
    var m, m' := GraphPreds(st), GraphPreds(st');
    forall x | x in m || x in m'
      ensures x in m && x in m' && m'[x] == m[x]
    {
      assert SameObject(st, st', x);
      SameObjectGraph(st, st', x);
    }
  }

  lemma SameAllHeads(st: Store, st': Store, x: Obj)
    requires Readable(st) && Readable(st') && SameObject(st, st', x) && (x in st.chains || x in st'.chains)
    ensures x in st.chains && x in st'.chains && Head(st', x) == Head(st, x) && CellOf(st', x) == CellOf(st, x)
  {
    SameObjectGraph(st, st', x);
  }

  lemma SameAllCells(st: Store, st': Store)
    requires Readable(st) && Readable(st') && (forall x :: SameObject(st, st', x))
    ensures GraphCells(st') == GraphCells(st)
  {
    var m, m' := GraphCells(st), GraphCells(st');
    forall x | x in m || x in m'
      ensures x in m && x in m' && m'[x] == m[x]
    {
      SameAllHeads(st, st', x);
    }
  }

  lemma SameAllRetain(st: Store, st': Store)
    requires Readable(st) && Readable(st') && StampsMatch(st) && (forall x :: SameObject(st, st', x))
    ensures GraphRetain(st') == GraphRetain(st) && StampsMatch(st')
  {
    forall x | x in st.chains || x in st'.chains
      ensures x in st.chains && x in st'.chains && Head(st', x) == Head(st, x) && st'.cycle[x] == st.cycle[x]
    {
      SameAllHeads(st, st', x);
    }
  }

  // Taking a chunk does not change the graph.
  lemma TakenOk(st: Store)
    requires StoreOk(st) && HasRoom(st)
    ensures FrontFree(st) && IsLoose(Taken(st), NextChunk(st)) && StoreOk(Taken(st)) && SameGraph(st, Taken(st))
  {
    TakenArena(st);
    forall x
      ensures SameObject(st, Taken(st), x)
    {
      OwnedSameObject(st, Taken(st), x);
    }
    SameAllGraph(st, Taken(st));
  }

  // ----- Giving an object a structure (backgraph.c:208-227) -----

  function Attached(st: Store, c: nat, q: Obj, be: BackEdges, cycle: int): Store
    requires c < |st.space|
  {
    st.(space := st.space[c := be], bgPtr := st.bgPtr[q := Many(c)], chains := st.chains[q := [c]],
        owner := st.owner[c := Owned(q, 0)], cycle := st.cycle[q := cycle])
  }

  lemma AttachedArena(st: Store, c: nat, q: Obj, be: BackEdges, cycle: int)
    requires ArenaOk(st) && IsLoose(st, c) && q !in st.chains && be.cont == None
    ensures ArenaOk(Attached(st, c, q, be, cycle)) && OnlyObject(st, Attached(st, c, q, be, cycle), q)
  {
    var st' := Attached(st, c, q, be, cycle);
    AttachedChains(st, c, q, be, cycle);
    AttachedOwners(st, c, q, be, cycle);
    AttachedFree(st, c, q, be, cycle);
    OnlyChunksOnlyObject(st, st', q);
  }

  lemma AttachedChains(st: Store, c: nat, q: Obj, be: BackEdges, cycle: int)
    requires ArenaOk(st) && IsLoose(st, c) && q !in st.chains && be.cont == None
    ensures var st' := Attached(st, c, q, be, cycle);
            forall x :: x in st'.chains ==> ChainOk(st', x, st'.chains[x])
  {
    var st' := Attached(st, c, q, be, cycle);
    forall x | x in st'.chains
      ensures ChainOk(st', x, st'.chains[x])
    {
      if x != q {
        assert ChainOk(st, x, st.chains[x]);
      }
    }
  }

  lemma AttachedOwners(st: Store, c: nat, q: Obj, be: BackEdges, cycle: int)
    requires OwnersOk(st) && IsLoose(st, c) && q !in st.chains
    ensures OwnersOk(Attached(st, c, q, be, cycle))
  {
    forall x | x in Attached(st, c, q, be, cycle).owner
      ensures Placed(Attached(st, c, q, be, cycle), x)
    {
      assert x in st.owner ==> Placed(st, x);
    }
  }

  lemma AttachedFree(st: Store, c: nat, q: Obj, be: BackEdges, cycle: int)
    requires FreeOk(st) && UnusedOk(st) && IsLoose(st, c)
    ensures FreeOk(Attached(st, c, q, be, cycle)) && UnusedOk(Attached(st, c, q, be, cycle))
  {
  }

  lemma AttachedOk(st: Store, c: nat, q: Obj, be: BackEdges, cycle: int)
    requires StoreOk(st) && IsLoose(st, c) && q in st.bgPtr && !st.bgPtr[q].Many?
    requires be.cont == None && be.nEdges <= MAX_IN && be.heightGcNo == Low16(cycle)
    ensures var st' := Attached(st, c, q, be, cycle);
            && StoreOk(st') && GraphChangedAt(st, st', q)
            && PredsOf(st', q) == be.edges[..be.nEdges] && CellOf(st', q) == Cell(be.height, cycle)
  {
    var st' := Attached(st, c, q, be, cycle);
    assert ObjectReadable(st, q);
    AttachedArena(st, c, q, be, cycle);
    AttachedObject(st, c, q, be, cycle);
    OnlyObjectGraph(st, st', q);
  }

  lemma AttachedObject(st: Store, c: nat, q: Obj, be: BackEdges, cycle: int)
    requires c < |st.space| && be.nEdges <= MAX_IN
    ensures var st' := Attached(st, c, q, be, cycle);
            && ObjectReadable(st', q) && q in st'.bgPtr && q in st'.chains
            && Head(st', q) == be && PredsOf(st', q) == be.edges[..be.nEdges] && CellOf(st', q) == Cell(be.height, cycle)
  {
    var st' := Attached(st, c, q, be, cycle);
    FitsOne(be.nEdges);
    OneChunkEdges(st'.space, c, be.nEdges);
    hide ChainEdges, Fits;
    assert ObjectReadable(st', q);
  }

  lemma FitsOne(n: nat)
    requires n <= MAX_IN
    ensures Fits(n, 1)
  {
  }

  lemma OneChunkEdges(space: seq<BackEdges>, c: nat, n: nat)
    requires c < |space| && n <= MAX_IN
    ensures ChainEdges(space, [c], n) == space[c].edges[..n]
  {
  }

  // The structure that ensure_struct makes out of chunk `be` for an object with header b.
  function NewStruct(be: BackEdges, b: BackPtr, gc: nat): BackEdges {
    be.(retain := false,
        nEdges := if b.One? then 1 else 0,
        edges := if b.One? then be.edges[0 := b.pred] else be.edges,
        height := HEIGHT_UNKNOWN,
        heightGcNo := Low16(gc - 1))
  }

  function Ensured(st: Store, q: Obj, gc: nat): Store
    requires q in st.bgPtr && AvailOk(st) && NextChunk(st) < |st.space|
  {
    var st1, c := Taken(st), NextChunk(st);
    Attached(st1, c, q, NewStruct(st1.space[c], st.bgPtr[q], gc), gc - 1)
  }

  function EnsuredAny(st: Store, q: Obj, gc: nat): Store
    requires q in st.bgPtr && (!st.bgPtr[q].Many? ==> AvailOk(st) && NextChunk(st) < |st.space|)
  {
    if st.bgPtr[q].Many? then st else Ensured(st, q, gc)
  }

  // What ensure_struct does to the graph: q has a cell, everything else is as it was.
  ghost predicate EnsuredGraph(st: Store, st': Store, q: Obj, gc: nat)
    requires Readable(st) && Readable(st')
  {
    && GraphPreds(st') == GraphPreds(st) && GraphRetain(st') == GraphRetain(st)
    && GraphCells(st') == (if q in st.chains then GraphCells(st) else GraphCells(st)[q := Cell(HEIGHT_UNKNOWN, gc - 1)])
  }

  lemma EnsuredLost(st: Store, q: Obj, gc: nat)
    requires ArenaOk(st) && HasRoom(st) && q in st.bgPtr
    ensures AvailOk(st) && NextChunk(st) < |st.space|
    ensures Lost(Ensured(st, q, gc).owner) == Lost(st.owner)
  {
    TakenLost(st);
    OwnedLost(Taken(st).owner, NextChunk(st), Owned(q, 0));
  }

  lemma EnsuredNew(st: Store, q: Obj, gc: nat)
    requires StoreOk(st) && q in st.bgPtr && !st.bgPtr[q].Many? && HasRoom(st)
    ensures AvailOk(st) && NextChunk(st) < |st.space|
    ensures StoreOk(Ensured(st, q, gc)) && EnsuredGraph(st, Ensured(st, q, gc), q, gc)
  {
    assert ObjectReadable(st, q);
    TakenOk(st);
    TakeAndAttach(Taken(st), NextChunk(st), q, gc);
  }

  lemma EnsuredOk(st: Store, q: Obj, gc: nat)
    requires StoreOk(st) && q in st.bgPtr && (q in st.chains || HasRoom(st))
    ensures !st.bgPtr[q].Many? ==> AvailOk(st) && NextChunk(st) < |st.space|
    ensures var st' := EnsuredAny(st, q, gc);
            StoreOk(st') && EnsuredGraph(st, st', q, gc) && Lost(st'.owner) == Lost(st.owner)
  {
    assert ObjectReadable(st, q);
    if !st.bgPtr[q].Many? {
      EnsuredLost(st, q, gc);
      EnsuredNew(st, q, gc);
    }
  }

  lemma EnsuredKeys(st: Store, q: Obj, gc: nat)
    requires q in st.bgPtr && (!st.bgPtr[q].Many? ==> AvailOk(st) && NextChunk(st) < |st.space|) && ObjectReadable(st, q)
    ensures q in EnsuredAny(st, q, gc).chains && EnsuredAny(st, q, gc).bgPtr.Keys == st.bgPtr.Keys
  {
  }

  lemma TakeAndAttach(st: Store, c: nat, q: Obj, gc: nat)
    requires StoreOk(st) && IsLoose(st, c) && q in st.bgPtr && !st.bgPtr[q].Many?
    ensures var st' := Attached(st, c, q, NewStruct(st.space[c], st.bgPtr[q], gc), gc - 1);
            && StoreOk(st') && GraphPreds(st') == GraphPreds(st) && GraphRetain(st') == GraphRetain(st)
            && GraphCells(st') == GraphCells(st)[q := Cell(HEIGHT_UNKNOWN, gc - 1)]
  {
    var be := NewStruct(st.space[c], st.bgPtr[q], gc);
    if st.bgPtr[q].One? {
      JustOne(st.bgPtr[q].pred);
    }
    AttachedOk(st, c, q, be, gc - 1);
    AttachedHead(st, c, q, be, gc - 1);
    AttachedGraph(st, Attached(st, c, q, be, gc - 1), q);
  }

  lemma AttachedHead(st: Store, c: nat, q: Obj, be: BackEdges, cycle: int)
    requires ObjectReadable(st, q) && q in st.bgPtr && c < |st.space| && !st.bgPtr[q].Many?
    requires be.nEdges <= MAX_IN && be.edges[..be.nEdges] == PredsOf(st, q)
    ensures var st' := Attached(st, c, q, be, cycle);
            && ObjectReadable(st', q) && q in st'.bgPtr && q in st'.chains && q !in st.chains
            && Head(st', q).retain == be.retain && PredsOf(st', q) == PredsOf(st, q)
  {
    AttachedObject(st, c, q, be, cycle);
  }

  // q has a structure now, with the predecessors it had before.
  lemma AttachedGraph(st: Store, st': Store, q: Obj)
    requires Readable(st) && Readable(st') && GraphChangedAt(st, st', q)
    requires q in st.bgPtr && q !in st.chains && q in st'.bgPtr && q in st'.chains
    requires PredsOf(st', q) == PredsOf(st, q) && !Head(st', q).retain
    ensures GraphPreds(st') == GraphPreds(st) && GraphRetain(st') == GraphRetain(st)
    ensures GraphCells(st') == GraphCells(st)[q := CellOf(st', q)]
  {
    SameAt(GraphPreds(st), q, PredsOf(st, q));
    SameMember(GraphRetain(st), GraphRetain(st'), q);
  }

  lemma TakenLost(st: Store)
    requires ArenaOk(st)
    ensures FrontFree(st)
    ensures Lost(Taken(st).owner) == Lost(st.owner) + {NextChunk(st)} && NextChunk(st) !in Lost(st.owner)
  {
    ArenaFront(st);
    LooseLost(st.owner, NextChunk(st));
  }

  lemma LooseLost(owner: map<nat, Owner>, c: nat)
    ensures Lost(owner[c := Loose]) == Lost(owner) + {c}
  {
  }

  lemma OwnedLost(owner: map<nat, Owner>, c: nat, o: Owner)
    requires o.Owned?
    ensures Lost(owner[c := o]) == Lost(owner) - {c}
  {
  }

  // ----- Appending an edge (backgraph.c:258-269) -----

  // The chain of q has room for exactly the next edge, and its links lead through it.
  ghost predicate HasSlot(st: Store, q: Obj) {
    && q in st.chains && |st.chains[q]| > 0 && q in st.bgPtr && st.bgPtr[q] == Many(st.chains[q][0])
    && q in st.cycle
    && (forall k :: 0 <= k < |st.chains[q]| ==> st.chains[q][k] < |st.space|)
    && (forall i, j :: 0 <= i < j < |st.chains[q]| ==> st.chains[q][i] != st.chains[q][j])
    && Capacity(|st.chains[q]| - 1) <= st.space[st.chains[q][0]].nEdges < Capacity(|st.chains[q]|)
  }

  function LastOf(chain: seq<nat>): nat
    requires |chain| > 0
  {
    chain[|chain| - 1]
  }

  // Chunk c becomes the last chunk of q.
  function Linked(st: Store, q: Obj, c: nat): Store
    requires q in st.chains && |st.chains[q]| > 0 && LastOf(st.chains[q]) < |st.space|
  {
    var last := LastOf(st.chains[q]);
    st.(space := st.space[last := st.space[last].(cont := Some(c))], chains := st.chains[q := st.chains[q] + [c]],
        owner := st.owner[c := Owned(q, |st.chains[q]|)])
  }

  function WriteEdge(space: seq<BackEdges>, c: nat, slot: nat, p: Obj): seq<BackEdges>
    requires c < |space| && slot < MAX_IN
  {
    space[c := space[c].(edges := space[c].edges[slot := p])]
  }

  function CountEdge(space: seq<BackEdges>, c: nat): seq<BackEdges>
    requires c < |space|
  {
    space[c := space[c].(nEdges := space[c].nEdges + 1)]
  }

  // p is written into the next slot of q and counted.
  function Pushed(st: Store, q: Obj, p: Obj): Store
    requires q in st.chains && |st.chains[q]| > 0 && st.chains[q][0] < |st.space|
    requires var n := st.space[st.chains[q][0]].nEdges;
             ChunkOf(n) < |st.chains[q]| && st.chains[q][ChunkOf(n)] < |st.space|
  {
    var n := st.space[st.chains[q][0]].nEdges;
    st.(space := CountEdge(WriteEdge(st.space, st.chains[q][ChunkOf(n)], SlotOf(n), p), st.chains[q][0]))
  }

  lemma SlotInChain(n: nat, k: nat)
    requires k > 0 && Capacity(k - 1) <= n < Capacity(k)
    ensures ChunkOf(n) == k - 1 && SlotOf(n) == n - Capacity(k - 1) && Fits(n + 1, k)
  {
  }

  lemma ChainDistinct(st: Store, q: Obj, chain: seq<nat>)
    requires ChainOk(st, q, chain)
    ensures forall i, j :: 0 <= i < j < |chain| ==> chain[i] != chain[j]
  {
    forall i, j | 0 <= i < j < |chain|
      ensures chain[i] != chain[j]
    {
      assert st.owner[chain[i]] == Owned(q, i) && st.owner[chain[j]] == Owned(q, j);
    }
  }

  lemma PushedEdges(space: seq<BackEdges>, chain: seq<nat>, n: nat, p: Obj)
    requires |chain| > 0 && Capacity(|chain| - 1) <= n < Capacity(|chain|)
    requires forall k :: 0 <= k < |chain| ==> chain[k] < |space|
    requires forall i, j :: 0 <= i < j < |chain| ==> chain[i] != chain[j]
    ensures ChunkOf(n) < |chain|
    ensures ChainEdges(WriteEdge(space, chain[ChunkOf(n)], SlotOf(n), p), chain, n + 1) == ChainEdges(space, chain, n) + [p]
  {
    SlotInChain(n, |chain|);
    var space' := WriteEdge(space, chain[ChunkOf(n)], SlotOf(n), p);
    var a, b := ChainEdges(space', chain, n + 1), ChainEdges(space, chain, n) + [p];
    forall i | 0 <= i < n
      ensures a[i] == b[i]
    {
      SlotUnchanged(space, chain, n, p, i);
    }
  }

  lemma SlotUnchanged(space: seq<BackEdges>, chain: seq<nat>, n: nat, p: Obj, i: nat)
    requires i < n && ChunkOf(n) < |chain| && ChunkOf(i) < |chain|
    requires forall k :: 0 <= k < |chain| ==> chain[k] < |space|
    requires forall i, j :: 0 <= i < j < |chain| ==> chain[i] != chain[j]
    ensures WriteEdge(space, chain[ChunkOf(n)], SlotOf(n), p)[chain[ChunkOf(i)]].edges[SlotOf(i)]
         == space[chain[ChunkOf(i)]].edges[SlotOf(i)]
  {
    if ChunkOf(i) == ChunkOf(n) {
      assert SlotOf(i) != SlotOf(n);
    } else {
      assert chain[ChunkOf(i)] != chain[ChunkOf(n)];
    }
  }

  // Links are not affected by writes to other fields.
  lemma SameLinksArena(st: Store, st': Store)
    requires ArenaOk(st) && st' == st.(space := st'.space) && |st'.space| == |st.space|
    requires forall c :: 0 <= c < |st.space| ==> st'.space[c].cont == st.space[c].cont
    ensures ArenaOk(st')
  {
    SameOwners(st, st');
    forall x | x in st'.chains
      ensures ChainOk(st', x, st'.chains[x])
    {
      assert ChainOk(st, x, st.chains[x]);
    }
  }

  lemma PushedEdgesCounted(space: seq<BackEdges>, chain: seq<nat>, n: nat, p: Obj)
    requires |chain| > 0 && Capacity(|chain| - 1) <= n < Capacity(|chain|)
    requires forall k :: 0 <= k < |chain| ==> chain[k] < |space|
    requires forall i, j :: 0 <= i < j < |chain| ==> chain[i] != chain[j]
    ensures ChunkOf(n) < |chain|
    ensures var space' := CountEdge(WriteEdge(space, chain[ChunkOf(n)], SlotOf(n), p), chain[0]);
            ChainEdges(space', chain, n + 1) == ChainEdges(space, chain, n) + [p]
  {
    PushedEdges(space, chain, n, p);
    var written := WriteEdge(space, chain[ChunkOf(n)], SlotOf(n), p);
    SameEdges(written, CountEdge(written, chain[0]), chain, n + 1);
  }

  // The head of q after the push: one more edge, nothing else but edges changed.
  ghost predicate HeadCounted(be: BackEdges, be': BackEdges) {
    && be'.nEdges == be.nEdges + 1 && be'.retain == be.retain
    && be'.height == be.height && be'.heightGcNo == be.heightGcNo && be'.cont == be.cont
  }

  lemma PushedHead(st: Store, q: Obj, p: Obj)
    requires HasSlot(st, q) && ChunkOf(st.space[st.chains[q][0]].nEdges) < |st.chains[q]|
    ensures HeadCounted(st.space[st.chains[q][0]], Pushed(st, q, p).space[st.chains[q][0]])
    ensures ObjectReadable(Pushed(st, q, p), q)
  {
    SlotInChain(st.space[st.chains[q][0]].nEdges, |st.chains[q]|);
  }

  lemma PushedArena(st: Store, q: Obj, p: Obj)
    requires ArenaOk(st) && HasSlot(st, q)
    ensures var n := st.space[st.chains[q][0]].nEdges;
            && ChunkOf(n) < |st.chains[q]|
            && ArenaOk(Pushed(st, q, p)) && OnlyObject(st, Pushed(st, q, p), q)
  {
    var chain := st.chains[q];
    SlotInChain(st.space[chain[0]].nEdges, |chain|);
    SameLinksArena(st, Pushed(st, q, p));
    assert ChainOk(st, q, chain);
    OnlyChunksOnlyObject(st, Pushed(st, q, p), q);
  }

  // q has the predecessors it has in `base`, and a slot for one more.
  ghost predicate ReadyToPush(base: Store, st: Store, q: Obj)
    requires Readable(base)
  {
    && q in base.chains && HasSlot(st, q) && OnlyObject(base, st, q)
    && st.space[st.chains[q][0]].nEdges == Head(base, q).nEdges
    && st.space[st.chains[q][0]].height == Head(base, q).height
    && st.space[st.chains[q][0]].heightGcNo == Head(base, q).heightGcNo
    && st.space[st.chains[q][0]].retain == Head(base, q).retain
    && st.cycle[q] == base.cycle[q]
    && ChainEdges(st.space, st.chains[q], Head(base, q).nEdges) == PredsOf(base, q)
  }

  lemma PushedChanges(base: Store, st: Store, q: Obj, p: Obj)
    requires StoreOk(base) && ArenaOk(st) && ReadyToPush(base, st, q)
    ensures ChunkOf(Head(base, q).nEdges) < |st.chains[q]|
    ensures StoreOk(Pushed(st, q, p)) && GraphChangedAt(base, Pushed(st, q, p), q)
  {
    SlotInChain(Head(base, q).nEdges, |st.chains[q]|);
    PushedArena(st, q, p);
    PushedHead(st, q, p);
    var st' := Pushed(st, q, p);
    OnlyObjectTrans(base, st, st', q);
    OnlyObjectGraph(base, st', q);
  }

  lemma ChangedGraph(base: Store, st': Store, q: Obj, p: Obj)
    requires Readable(base) && Readable(st') && GraphChangedAt(base, st', q)
    requires q in base.chains && q in base.bgPtr && q in st'.chains && q in st'.bgPtr
    requires PredsOf(st', q) == PredsOf(base, q) + [p]
    requires CellOf(st', q) == CellOf(base, q) && Head(st', q).retain == Head(base, q).retain
    ensures GraphPreds(st') == GraphPreds(base)[q := GraphPreds(base)[q] + [p]]
    ensures GraphCells(st') == GraphCells(base) && GraphRetain(st') == GraphRetain(base)
  {
    SameAt(GraphCells(base), q, CellOf(base, q));
    SameMember(GraphRetain(base), GraphRetain(st'), q);
  }

  lemma SameMember(a: set<Obj>, b: set<Obj>, q: Obj)
    requires b == a - {q} + (if q in a then {q} else {})
    ensures a == b
  {
  }

  lemma PushedPreds(base: Store, st: Store, q: Obj, p: Obj)
    requires Readable(base) && ReadyToPush(base, st, q) && ChunkOf(Head(base, q).nEdges) < |st.chains[q]|
    ensures var st' := Pushed(st, q, p);
            && ObjectReadable(base, q) && ObjectReadable(st', q) && q in st'.bgPtr
            && PredsOf(st', q) == PredsOf(base, q) + [p]
            && CellOf(st', q) == CellOf(base, q) && Head(st', q).retain == Head(base, q).retain
  {
    PushedHead(st, q, p);
    PushedEdgesCounted(st.space, st.chains[q], Head(base, q).nEdges, p);
  }

  lemma PushedOk(base: Store, st: Store, q: Obj, p: Obj)
    requires StoreOk(base) && ArenaOk(st) && ReadyToPush(base, st, q)
    ensures ChunkOf(Head(base, q).nEdges) < |st.chains[q]|
    ensures var st' := Pushed(st, q, p);
            && StoreOk(st') && q in base.bgPtr
            && GraphPreds(st') == GraphPreds(base)[q := GraphPreds(base)[q] + [p]]
            && GraphCells(st') == GraphCells(base) && GraphRetain(st') == GraphRetain(base)
  {
    PushedChanges(base, st, q, p);
    PushedPreds(base, st, q, p);
    ChangedGraph(base, Pushed(st, q, p), q, p);
  }

  lemma OnlyObjectTrans(a: Store, b: Store, c: Store, q: Obj)
    requires OnlyObject(a, b, q) && OnlyObject(b, c, q)
    ensures OnlyObject(a, c, q)
  {
    forall x | x != q
      ensures SameObject(a, c, x)
    {
      assert SameObject(a, b, x) && SameObject(b, c, x);
    }
  }

  lemma RoomReady(st: Store, q: Obj)
    requires Readable(st) && q in st.chains && ChainOk(st, q, st.chains[q])
    requires Head(st, q).nEdges < Capacity(|st.chains[q]|)
    ensures ReadyToPush(st, st, q)
  {
    assert ObjectReadable(st, q);
    ChainDistinct(st, q, st.chains[q]);
  }

  lemma LinkedOwners(st: Store, q: Obj, c: nat)
    requires OwnersOk(st) && IsLoose(st, c) && q in st.chains && |st.chains[q]| > 0 && LastOf(st.chains[q]) < |st.space|
    ensures OwnersOk(Linked(st, q, c))
  {
    forall x | x in Linked(st, q, c).owner
      ensures Placed(Linked(st, q, c), x)
    {
      assert x in st.owner ==> Placed(st, x);
    }
  }

  lemma LinkedChain(st: Store, q: Obj, c: nat)
    requires q in st.chains && ChainOk(st, q, st.chains[q]) && IsLoose(st, c)
    ensures ChainOk(Linked(st, q, c), q, st.chains[q] + [c])
  {
    var chain, st' := st.chains[q], Linked(st, q, c);
    ChainDistinct(st, q, chain);
    forall k | 0 <= k <= |chain|
      ensures st'.space[(chain + [c])[k]].cont == LinkAfter(chain + [c], k)
    {
      assert k < |chain| ==> st.space[chain[k]].cont == LinkAfter(chain, k);
    }
  }

  lemma LinkedOther(st: Store, q: Obj, c: nat, x: Obj)
    requires q in st.chains && ChainOk(st, q, st.chains[q]) && IsLoose(st, c)
    requires x in st.chains && x != q && ChainOk(st, x, st.chains[x])
    ensures ChainOk(Linked(st, q, c), x, st.chains[x])
  {
  }

  lemma LinkedFree(st: Store, q: Obj, c: nat)
    requires FreeOk(st) && UnusedOk(st) && IsLoose(st, c) && q in st.chains && ChainOk(st, q, st.chains[q])
    ensures FreeOk(Linked(st, q, c)) && UnusedOk(Linked(st, q, c))
  {
    assert st.owner[LastOf(st.chains[q])].Owned?;
  }

  lemma LinkedArena(st: Store, q: Obj, c: nat)
    requires ArenaOk(st) && IsLoose(st, c) && q in st.chains
    ensures LastOf(st.chains[q]) < |st.space|
    ensures ArenaOk(Linked(st, q, c)) && OnlyObject(st, Linked(st, q, c), q)
  {
    var st' := Linked(st, q, c);
    assert ChainOk(st, q, st.chains[q]);
    LinkedOwners(st, q, c);
    LinkedFree(st, q, c);
    LinkedChain(st, q, c);
    forall x | x in st'.chains
      ensures ChainOk(st', x, st'.chains[x])
    {
      if x != q {
        LinkedOther(st, q, c, x);
      }
    }
    OnlyChunksOnlyObject(st, st', q);
  }

  lemma LinkedEdges(st: Store, q: Obj, c: nat)
    requires ObjectReadable(st, q) && q in st.chains && c < |st.space|
    ensures var st', n := Linked(st, q, c), Head(st, q).nEdges;
            && (forall k :: 0 <= k < |st'.chains[q]| ==> st'.chains[q][k] < |st'.space|)
            && ChainEdges(st'.space, st'.chains[q], n) == PredsOf(st, q)
  {
    var st', n := Linked(st, q, c), Head(st, q).nEdges;
    SameEdges(st.space, st'.space, st.chains[q], n);
    LongerChain(st'.space, st.chains[q], c, n);
  }

  lemma LongerChain(space: seq<BackEdges>, chain: seq<nat>, c: nat, n: nat)
    requires n <= Capacity(|chain|) && c < |space| && (forall k :: 0 <= k < |chain| ==> chain[k] < |space|)
    ensures ChainEdges(space, chain + [c], n) == ChainEdges(space, chain, n)
  {
  }

  lemma LinkedSlot(st: Store, q: Obj, c: nat)
    requires Readable(st) && q in st.chains && ChainOk(st, q, st.chains[q]) && IsLoose(st, c)
    requires Head(st, q).nEdges == Capacity(|st.chains[q]|)
    requires OnlyObject(st, Linked(st, q, c), q)
    ensures ReadyToPush(st, Linked(st, q, c), q)
  {
    assert ObjectReadable(st, q);
    LinkedChain(st, q, c);
    LinkedEdges(st, q, c);
    ChainDistinct(Linked(st, q, c), q, Linked(st, q, c).chains[q]);
  }

  lemma LinkedReady(st: Store, q: Obj, c: nat)
    requires StoreOk(st) && IsLoose(st, c) && q in st.chains && Head(st, q).nEdges == Capacity(|st.chains[q]|)
    ensures |st.chains[q]| > 0 && LastOf(st.chains[q]) < |st.space|
    ensures ArenaOk(Linked(st, q, c)) && ReadyToPush(st, Linked(st, q, c), q)
  {
    LinkedArena(st, q, c);
    LinkedSlot(st, q, c);
  }

  predicate FullChain(st: Store, q: Obj)
    requires q in st.chains && |st.chains[q]| > 0 && st.chains[q][0] < |st.space|
  {
    st.space[st.chains[q][0]].nEdges == Capacity(|st.chains[q]|)
  }

  predicate HasSlotAt(st: Store, q: Obj) {
    && q in st.chains && |st.chains[q]| > 0 && st.chains[q][0] < |st.space|
    && var n := st.space[st.chains[q][0]].nEdges;
       ChunkOf(n) < |st.chains[q]| && st.chains[q][ChunkOf(n)] < |st.space|
  }

  // ----- Giving chunks back (backgraph.c:110-118, 299-333) -----

  function Reverse(s: seq<nat>): (r: seq<nat>)
    ensures |r| == |s| && (forall i :: 0 <= i < |s| ==> r[i] == s[|s| - 1 - i])
  {
    seq(|s|, i requires 0 <= i < |s| => s[|s| - 1 - i])
  }

  // The owner table once the chunks of q from link `from` on are free; the last of `len`
  // chunks is just above the old free list, which has `place` chunks.
  function FreedOwner(o: Owner, place: nat, q: Obj, from: nat, len: nat): Owner {
    if o.Owned? && o.obj == q && from <= o.link < len then Free(place + len - 1 - o.link) else o
  }

  function WithCont(space: seq<BackEdges>, c: nat, cont: Option<nat>): seq<BackEdges>
    requires c < |space|
  {
    space[c := space[c].(cont := cont)]
  }

  function CutSpace(space: seq<BackEdges>, chain: seq<nat>, from: nat, avail: Option<nat>): seq<BackEdges>
    requires from < |chain| && (forall k :: 0 <= k < |chain| ==> chain[k] < |space|)
  {
    var cut := WithCont(space, LastOf(chain), avail);
    if from > 0 then WithCont(cut, chain[from - 1], None) else cut
  }

  // The links of the chunks of a chain after the cut.
  lemma CutLinks(space: seq<BackEdges>, chain: seq<nat>, from: nat, avail: Option<nat>, k: nat)
    requires from < |chain| && (forall i :: 0 <= i < |chain| ==> chain[i] < |space|)
    requires forall i, j :: 0 <= i < j < |chain| ==> chain[i] != chain[j]
    requires k < |chain| && space[chain[k]].cont == LinkAfter(chain, k)
    ensures var space' := CutSpace(space, chain, from, avail);
            space'[chain[k]].cont == if k == |chain| - 1 then avail else if k + 1 == from then None else Some(chain[k + 1])
  {
    assert k < |chain| - 1 ==> chain[k] != LastOf(chain);
    assert from > 0 && k < from - 1 ==> chain[k] != chain[from - 1];
    assert from > 0 && k > from - 1 ==> chain[k] != chain[from - 1];
  }

  // The chain of q is cut before link `from`; what is cut off goes to the front of the free list.
  function Cut(st: Store, q: Obj, from: nat): Store
    requires q in st.chains && from < |st.chains[q]| && (forall k :: 0 <= k < |st.chains[q]| ==> st.chains[q][k] < |st.space|)
  {
    var chain := st.chains[q];
    st.(space := CutSpace(st.space, chain, from, st.avail),
        avail := Some(chain[from]),
        free := st.free + Reverse(chain[from..]),
        chains := if from > 0 then st.chains[q := chain[..from]] else st.chains - {q},
        owner := map c | c in st.owner :: FreedOwner(st.owner[c], |st.free|, q, from, |chain|))
  }

  ghost predicate FreeLinkOk(st: Store, k: nat)
    requires k < |st.free|
  {
    && st.free[k] < st.n <= |st.space|
    && st.free[k] in st.owner && st.owner[st.free[k]] == Free(k)
    && st.space[st.free[k]].cont == LinkBelow(st.free, k)
  }

  lemma FreeLinks(st: Store)
    requires st.avail == LinkBelow(st.free, |st.free|) && (forall k: nat :: k < |st.free| ==> FreeLinkOk(st, k))
    ensures FreeOk(st)
  {
    forall k | 0 <= k < |st.free|
      ensures st.free[k] < st.n <= |st.space| && st.free[k] in st.owner && st.owner[st.free[k]] == Free(k)
              && st.space[st.free[k]].cont == LinkBelow(st.free, k)
    {
      assert FreeLinkOk(st, k);
    }
  }

  lemma CutOldFree(st: Store, q: Obj, from: nat, k: nat)
    requires q in st.chains && ChainOk(st, q, st.chains[q]) && from < |st.chains[q]|
    requires k < |st.free| && FreeLinkOk(st, k)
    ensures FreeLinkOk(Cut(st, q, from), k)
  {
  }

  lemma ReversedAt(free: seq<nat>, chain: seq<nat>, from: nat, j: nat)
    requires from <= j < |chain|
    ensures (free + Reverse(chain[from..]))[|free| + |chain| - 1 - j] == chain[j]
  {
  }

  lemma CutBelow(st: Store, q: Obj, from: nat, j: nat)
    requires q in st.chains && from <= j < |st.chains[q]|
    requires forall k :: 0 <= k < |st.chains[q]| ==> st.chains[q][k] < |st.space|
    ensures var chain, k := st.chains[q], |st.free| + |st.chains[q]| - 1 - j;
            && k < |Cut(st, q, from).free|
            && LinkBelow(Cut(st, q, from).free, k)
               == if j == |chain| - 1 then LinkBelow(st.free, |st.free|) else Some(chain[j + 1])
  {
    if j < |st.chains[q]| - 1 {
      ReversedAt(st.free, st.chains[q], from, j + 1);
    }
  }

  lemma CutNewFree(st: Store, q: Obj, from: nat, j: nat)
    requires q in st.chains && ChainOk(st, q, st.chains[q]) && from <= j < |st.chains[q]|
    requires st.avail == LinkBelow(st.free, |st.free|)
    ensures var k := |st.free| + |st.chains[q]| - 1 - j;
            k < |Cut(st, q, from).free| && FreeLinkOk(Cut(st, q, from), k)
  {
    var k := |st.free| + |st.chains[q]| - 1 - j;
    CutChunk(st, q, from, j);
    ReversedAt(st.free, st.chains[q], from, j);
    CutBelow(st, q, from, j);
  }

  // Where chunk j of q is after the cut.
  lemma CutChunk(st: Store, q: Obj, from: nat, j: nat)
    requires q in st.chains && ChainOk(st, q, st.chains[q]) && from <= j < |st.chains[q]|
    ensures var chain: seq<nat> := st.chains[q]; var st' := Cut(st, q, from);
            && chain[j] < st'.n <= |st'.space| && chain[j] in st'.owner
            && st'.owner[chain[j]] == Free(|st.free| + |chain| - 1 - j)
            && st'.space[chain[j]].cont == if j == |chain| - 1 then st.avail else Some(chain[j + 1])
  {
    ChainDistinct(st, q, st.chains[q]);
    CutLinks(st.space, st.chains[q], from, st.avail, j);
  }

  lemma CutFree(st: Store, q: Obj, from: nat)
    requires FreeOk(st) && q in st.chains && ChainOk(st, q, st.chains[q]) && from < |st.chains[q]|
    ensures FreeOk(Cut(st, q, from))
  {
    var st' := Cut(st, q, from);
    forall k: nat | k < |st'.free|
      ensures FreeLinkOk(st', k)
    {
      if k < |st.free| {
        CutOldFree(st, q, from, k);
      } else {
        CutNewFree(st, q, from, |st.free| + |st.chains[q]| - 1 - k);
      }
    }
    ReversedAt(st.free, st.chains[q], from, from);
    FreeLinks(st');
  }

  lemma CutOwners(st: Store, q: Obj, from: nat)
    requires OwnersOk(st) && q in st.chains && from < |st.chains[q]|
    requires forall k :: 0 <= k < |st.chains[q]| ==> st.chains[q][k] < |st.space|
    ensures OwnersOk(Cut(st, q, from))
  {
    var st' := Cut(st, q, from);
    forall c | c in st'.owner
      ensures Placed(st', c)
    {
      assert Placed(st, c);
    }
  }

  lemma CutOther(st: Store, q: Obj, from: nat, x: Obj)
    requires q in st.chains && ChainOk(st, q, st.chains[q]) && from < |st.chains[q]|
    requires x in st.chains && x != q && ChainOk(st, x, st.chains[x])
    ensures ChainOk(Cut(st, q, from), x, st.chains[x])
  {
  }

  lemma CutRest(st: Store, q: Obj, from: nat)
    requires q in st.chains && ChainOk(st, q, st.chains[q]) && 0 < from < |st.chains[q]|
    ensures ChainOk(Cut(st, q, from), q, st.chains[q][..from])
  {
    var chain, st' := st.chains[q], Cut(st, q, from);
    ChainDistinct(st, q, chain);
    forall k | 0 <= k < from
      ensures st'.owner[chain[k]] == Owned(q, k) && st'.space[chain[k]].cont == LinkAfter(chain[..from], k)
    {
      CutLinks(st.space, chain, from, st.avail, k);
    }
  }

  lemma CutUnused(st: Store, q: Obj, from: nat)
    requires UnusedOk(st) && q in st.chains && ChainOk(st, q, st.chains[q]) && from < |st.chains[q]|
    ensures UnusedOk(Cut(st, q, from))
  {
  }

  lemma CutChains(st: Store, q: Obj, from: nat)
    requires q in st.chains && from < |st.chains[q]| && (forall x :: x in st.chains ==> ChainOk(st, x, st.chains[x]))
    ensures ChainOk(st, q, st.chains[q])
    ensures var st' := Cut(st, q, from);
            forall x :: x in st'.chains ==> ChainOk(st', x, st'.chains[x])
  {
    var st' := Cut(st, q, from);
    forall x | x in st'.chains
      ensures ChainOk(st', x, st'.chains[x])
    {
      if x == q {
        CutRest(st, q, from);
      } else {
        CutOther(st, q, from, x);
      }
    }
  }

  lemma CutOnly(st: Store, q: Obj, from: nat)
    requires ArenaOk(st) && q in st.chains && ChainOk(st, q, st.chains[q]) && from < |st.chains[q]|
    ensures OnlyObject(st, Cut(st, q, from), q)
  {
    var st', chain := Cut(st, q, from), st.chains[q];
    assert st.owner[LastOf(chain)] == Owned(q, |chain| - 1);
    assert from > 0 ==> st.owner[chain[from - 1]] == Owned(q, from - 1);
    OnlyChunksOnlyObject(st, st', q);
  }

  // deallocate_back_edges leaves every chunk either free or in the chain of one object.
  lemma CutArena(st: Store, q: Obj, from: nat)
    requires ArenaOk(st) && q in st.chains && from < |st.chains[q]|
    ensures ChainOk(st, q, st.chains[q]) && ArenaOk(Cut(st, q, from)) && OnlyObject(st, Cut(st, q, from), q)
  {
    CutChains(st, q, from);
    CutUnused(st, q, from);
    CutOwners(st, q, from);
    CutFree(st, q, from);
    CutOnly(st, q, from);
  }

  // ----- Headers: reset, drop, allocate -----

  function WithHeader(st: Store, q: Obj, b: BackPtr): Store {
    st.(bgPtr := st.bgPtr[q := b], cycle := st.cycle - {q})
  }

  // Writing the header of an object without a structure.
  lemma WithHeaderOk(st: Store, q: Obj, b: BackPtr)
    requires StoreOk(st) && q !in st.chains && !b.Many?
    ensures var st' := WithHeader(st, q, b);
            && StoreOk(st') && GraphPreds(st') == GraphPreds(st)[q := if b.One? then Just(b.pred) else []]
            && GraphCells(st') == GraphCells(st) && GraphRetain(st') == GraphRetain(st)
            && ObjectReadable(st', q)
  {
    var st' := WithHeader(st, q, b);
    HeaderArena(st, st', q);
    WithHeaderOnly(st, q, b);
    OnlyObjectGraph(st, st', q);
    WithoutAbsent(GraphCells(st), GraphRetain(st), q);
  }

  lemma WithHeaderOnly(st: Store, q: Obj, b: BackPtr)
    requires Readable(st)
    ensures OnlyObject(st, WithHeader(st, q, b), q)
  {
    forall x | x != q && x in st.chains
      ensures SameChunks(st.space, st.space, st.chains[x])
    {
      assert ObjectReadable(st, x);
    }
  }

  lemma WithoutAbsent(cells: Cells, retain: set<Obj>, q: Obj)
    requires q !in cells && q !in retain
    ensures cells - {q} == cells && retain - {q} + {} == retain
  {
  }

  // The arena does not mention headers.
  lemma HeaderArena(st: Store, st': Store, q: Obj)
    requires ArenaOk(st) && st' == st.(bgPtr := st'.bgPtr, cycle := st'.cycle)
    ensures ArenaOk(st')
  {
    SameOwners(st, st');
    forall x | x in st'.chains
      ensures ChainOk(st', x, st'.chains[x])
    {
      assert ChainOk(st, x, st.chains[x]);
    }
  }

  // The structure of q is freed and its header cleared (backgraph.c:307-309).
  function FreedObject(st: Store, q: Obj): Store
    requires q in st.chains && |st.chains[q]| > 0 && (forall k :: 0 <= k < |st.chains[q]| ==> st.chains[q][k] < |st.space|)
  {
    WithHeader(Cut(st, q, 0), q, Null)
  }

  lemma FreedObjectOk(st: Store, q: Obj)
    requires StoreOk(st) && q in st.chains
    ensures ObjectReadable(st, q)
    ensures var st' := FreedObject(st, q);
            && StoreOk(st') && GraphPreds(st') == GraphPreds(st)[q := []]
            && GraphCells(st') == GraphCells(st) - {q} && GraphRetain(st') == GraphRetain(st) - {q}
  {
    hide StampsMatch, GraphPreds, GraphCells, GraphRetain, OnlyObject;
    var st1, st' := Cut(st, q, 0), FreedObject(st, q);
    CutArena(st, q, 0);
    HeaderArena(st1, st', q);
    HeaderOnly(st, st1, st', q);
    OnlyObjectGraph(st, st', q);
  }

  lemma HeaderOnly(st: Store, st1: Store, st': Store, q: Obj)
    requires OnlyObject(st, st1, q) && st' == st1.(bgPtr := st'.bgPtr, cycle := st'.cycle)
    requires forall x :: x != q ==>
               && (x in st'.bgPtr <==> x in st1.bgPtr) && (x in st1.bgPtr ==> st'.bgPtr[x] == st1.bgPtr[x])
               && (x in st'.cycle <==> x in st1.cycle) && (x in st1.cycle ==> st'.cycle[x] == st1.cycle[x])
    ensures OnlyObject(st, st', q)
  {
    forall x | x != q
      ensures SameObject(st, st', x)
    {
      assert SameObject(st, st1, x);
    }
  }

  // q keeps its first chunk and its height, without edges (backgraph.c:310-327).
  function Emptied(be: BackEdges): BackEdges {
    be.(nEdges := 0, retain := false)
  }

  function Shortened(st: Store, q: Obj): Store
    requires q in st.chains && |st.chains[q]| > 0 && (forall k :: 0 <= k < |st.chains[q]| ==> st.chains[q][k] < |st.space|)
  {
    if |st.chains[q]| > 1 then Cut(st, q, 1) else st
  }

  function KeptObject(st: Store, q: Obj): Store
    requires q in st.chains && |st.chains[q]| > 0 && (forall k :: 0 <= k < |st.chains[q]| ==> st.chains[q][k] < |st.space|)
  {
    var st1, c := Shortened(st, q), st.chains[q][0];
    st1.(space := st1.space[c := Emptied(st1.space[c])])
  }

  lemma ShortenedArena(st: Store, q: Obj)
    requires ArenaOk(st) && q in st.chains
    ensures ChainOk(st, q, st.chains[q]) && ArenaOk(Shortened(st, q)) && OnlyObject(st, Shortened(st, q), q)
    ensures Shortened(st, q).chains[q] == [st.chains[q][0]]
  {
    hide OnlyChunksOf, OnlyObject, FreeOk, OwnersOk, UnusedOk;
    if |st.chains[q]| > 1 {
      CutArena(st, q, 1);
    } else {
      SameStoreOnly(st, q);
    }
  }

  lemma SameStoreOnly(st: Store, q: Obj)
    requires ArenaOk(st)
    ensures OnlyObject(st, st, q)
  {
    OnlyChunksOnlyObject(st, st, q);
  }

  lemma ShortenedHead(st: Store, q: Obj)
    requires q in st.chains && ChainOk(st, q, st.chains[q])
    ensures var c := st.chains[q][0];
            var be := Shortened(st, q).space[c];
            be.height == st.space[c].height && be.heightGcNo == st.space[c].heightGcNo
    ensures Shortened(st, q).bgPtr == st.bgPtr && Shortened(st, q).cycle == st.cycle
  {
  }

  lemma KeptObjectArena(st: Store, q: Obj)
    requires ArenaOk(st) && q in st.chains
    ensures ChainOk(st, q, st.chains[q]) && ArenaOk(KeptObject(st, q)) && OnlyObject(st, KeptObject(st, q), q)
    ensures KeptObject(st, q).chains[q] == [st.chains[q][0]]
  {
    ShortenedArena(st, q);
    var st1, st' := Shortened(st, q), KeptObject(st, q);
    SameLinksArena(st1, st');
    assert ChainOk(st1, q, st1.chains[q]);
    OnlyChunksOnlyObject(st1, st', q);
    OnlyObjectTrans(st, st1, st', q);
  }

  lemma KeptObjectChanges(st: Store, q: Obj)
    requires StoreOk(st) && q in st.chains
    ensures ObjectReadable(st, q)
    ensures var st' := KeptObject(st, q);
            && StoreOk(st') && GraphChangedAt(st, st', q)
            && q in st'.bgPtr && st'.chains == st.chains[q := [st.chains[q][0]]]
            && PredsOf(st', q) == [] && CellOf(st', q) == CellOf(st, q) && !Head(st', q).retain
  {
    assert ObjectReadable(st, q);
    KeptObjectArena(st, q);
    KeptObjectHead(st, q);
    OnlyObjectGraph(st, KeptObject(st, q), q);
  }

  lemma KeptObjectHead(st: Store, q: Obj)
    requires ObjectReadable(st, q) && q in st.chains && ChainOk(st, q, st.chains[q])
    ensures var st' := KeptObject(st, q);
            && st'.chains == st.chains[q := [st.chains[q][0]]]
            && ObjectReadable(st', q) && q in st'.bgPtr
            && PredsOf(st', q) == [] && CellOf(st', q) == CellOf(st, q) && !Head(st', q).retain
            && Head(st', q).heightGcNo == Head(st, q).heightGcNo
  {
    ShortenedHead(st, q);
    if |st.chains[q]| == 1 {
      assert st.chains[q] == [st.chains[q][0]];
      SameAt(st.chains, q, st.chains[q]);
    } else {
      assert st.chains[q][..1] == [st.chains[q][0]];
    }
  }

  lemma KeptObjectOk(st: Store, q: Obj)
    requires StoreOk(st) && q in st.chains
    ensures ObjectReadable(st, q)
    ensures var st' := KeptObject(st, q);
            && StoreOk(st') && GraphPreds(st') == GraphPreds(st)[q := []]
            && GraphCells(st') == GraphCells(st) && GraphRetain(st') == GraphRetain(st) - {q}
  {
    KeptObjectChanges(st, q);
    EmptiedGraph(st, KeptObject(st, q), q);
  }

  lemma EmptiedGraph(base: Store, st': Store, q: Obj)
    requires Readable(base) && Readable(st') && GraphChangedAt(base, st', q)
    requires q in base.chains && q in base.bgPtr && q in st'.chains && q in st'.bgPtr
    requires PredsOf(st', q) == [] && CellOf(st', q) == CellOf(base, q) && !Head(st', q).retain
    ensures GraphPreds(st') == GraphPreds(base)[q := []]
    ensures GraphCells(st') == GraphCells(base) && GraphRetain(st') == GraphRetain(base) - {q}
  {
    SameAt(GraphCells(base), q, CellOf(base, q));
  }

  // q has lost its header: its chunks are no longer reachable from anywhere.
  function Dropped(st: Store, q: Obj): Store {
    st.(bgPtr := st.bgPtr - {q}, chains := st.chains - {q}, cycle := st.cycle - {q},
        owner := map c | c in st.owner :: if st.owner[c].Owned? && st.owner[c].obj == q then Loose else st.owner[c])
  }

  lemma DroppedOwners(st: Store, q: Obj)
    requires OwnersOk(st)
    ensures OwnersOk(Dropped(st, q))
  {
    forall x | x in Dropped(st, q).owner
      ensures Placed(Dropped(st, q), x)
    {
      assert x in st.owner ==> Placed(st, x);
    }
  }

  lemma DroppedFree(st: Store, q: Obj)
    requires FreeOk(st)
    ensures FreeOk(Dropped(st, q))
  {
    forall k | 0 <= k < |st.free|
      ensures st.space[st.free[k]].cont == LinkBelow(st.free, k)
    {
    }
  }

  lemma DroppedChain(st: Store, q: Obj, x: Obj)
    requires x in st.chains && x != q && ChainOk(st, x, st.chains[x])
    ensures ChainOk(Dropped(st, q), x, st.chains[x])
  {
  }

  lemma DroppedChains(st: Store, q: Obj)
    requires forall x :: x in st.chains ==> ChainOk(st, x, st.chains[x])
    ensures forall x :: x in st.chains && x != q ==> ChainOk(Dropped(st, q), x, st.chains[x])
  {
    forall x | x in st.chains && x != q
      ensures ChainOk(Dropped(st, q), x, st.chains[x])
    {
      DroppedChain(st, q, x);
    }
  }

  lemma DroppedArena(st: Store, q: Obj)
    requires ArenaOk(st)
    ensures ArenaOk(Dropped(st, q))
  {
    DroppedOwners(st, q);
    DroppedFree(st, q);
    DroppedChains(st, q);
  }

  lemma DroppedOnly(st: Store, q: Obj)
    requires ArenaOk(st)
    ensures OnlyObject(st, Dropped(st, q), q)
  {
    OnlyChunksOnlyObject(st, Dropped(st, q), q);
  }

  lemma DroppedOk(st: Store, q: Obj)
    requires StoreOk(st)
    ensures var st' := Dropped(st, q);
            && StoreOk(st') && GraphPreds(st') == GraphPreds(st) - {q}
            && GraphCells(st') == GraphCells(st) - {q} && GraphRetain(st') == GraphRetain(st) - {q}
  {
    DroppedArena(st, q);
    DroppedOnly(st, q);
    OnlyObjectGraph(st, Dropped(st, q), q);
  }

  // An edge is appended to the predecessors of q, and nothing else changes in the graph.
  ghost predicate EdgeAppended(st: Store, st': Store, q: Obj, p: Obj)
    requires Readable(st) && Readable(st') && q in st.bgPtr
  {
    && GraphPreds(st') == GraphPreds(st)[q := GraphPreds(st)[q] + [p]]
    && GraphCells(st') == GraphCells(st) && GraphRetain(st') == GraphRetain(st)
  }

  lemma PushedInPlace(st: Store, q: Obj, p: Obj)
    requires StoreOk(st) && q in st.chains
    requires ObjectReadable(st, q) && !FullChain(st, q)
    ensures HasSlotAt(st, q) && q in st.bgPtr
    ensures StoreOk(Pushed(st, q, p)) && EdgeAppended(st, Pushed(st, q, p), q, p)
  {
    RoomReady(st, q);
    PushedOk(st, st, q, p);
  }

  lemma PushedInNew(st: Store, q: Obj, c: nat, p: Obj)
    requires StoreOk(st) && IsLoose(st, c) && q in st.chains
    requires ObjectReadable(st, q) && FullChain(st, q)
    ensures LastOf(st.chains[q]) < |st.space| && HasSlotAt(Linked(st, q, c), q) && q in st.bgPtr
    ensures var st' := Pushed(Linked(st, q, c), q, p);
            StoreOk(st') && EdgeAppended(st, st', q, p) && Lost(st'.owner) == Lost(st.owner) - {c}
  {
    LinkedReady(st, q, c);
    PushedOk(st, Linked(st, q, c), q, p);
    OwnedLost(st.owner, c, Owned(q, |st.chains[q]|));
  }

  lemma AppendedTrans(st: Store, st1: Store, st': Store, q: Obj, p: Obj)
    requires Readable(st) && Readable(st1) && Readable(st') && q in st.bgPtr && q in st1.bgPtr
    requires SameGraph(st, st1) && EdgeAppended(st1, st', q, p)
    ensures EdgeAppended(st, st', q, p)
  {
  }

  lemma AppendedNew(st: Store, st1: Store, q: Obj, c: nat)
    requires StoreOk(st) && q in st.chains && ObjectReadable(st, q) && FullChain(st, q) && HasRoom(st)
    requires AvailOk(st) && st1 == Taken(st) && c == NextChunk(st)
    ensures StoreOk(st1) && IsLoose(st1, c) && SameGraph(st, st1)
    ensures q in st1.chains && ObjectReadable(st1, q) && FullChain(st1, q)
  {
    TakenOk(st);
    TakenReadable(st, q);
  }

  lemma PutBack(a: set<nat>, c: nat)
    requires c !in a
    ensures a + {c} - {c} == a
  {
  }

  lemma AppendedViaNew(st: Store, st1: Store, q: Obj, c: nat, p: Obj)
    requires StoreOk(st) && StoreOk(st1) && SameGraph(st, st1) && IsLoose(st1, c) && Lost(st1.owner) == Lost(st.owner) + {c}
    requires c !in Lost(st.owner)
    requires q in st.bgPtr && q in st1.chains && ObjectReadable(st1, q) && FullChain(st1, q)
    ensures LastOf(st1.chains[q]) < |st1.space| && HasSlotAt(Linked(st1, q, c), q)
    ensures var st' := Pushed(Linked(st1, q, c), q, p);
            StoreOk(st') && EdgeAppended(st, st', q, p) && Lost(st'.owner) == Lost(st.owner)
  {
    PushedInNew(st1, q, c, p);
    PutBack(Lost(st.owner), c);
    AppendedTrans(st, st1, Pushed(Linked(st1, q, c), q, p), q, p);
  }

  // The new last chunk of q is ready for the edge, and with it the store is in order again.
  lemma NewChunkReady(st: Store, st2: Store, q: Obj, c: nat, p: Obj)
    requires StoreOk(st) && q in st.chains && ObjectReadable(st, q) && FullChain(st, q) && HasRoom(st)
    requires AvailOk(st) && c == NextChunk(st) && LastOf(st.chains[q]) < |st.space| && st2 == Linked(Taken(st), q, c)
    ensures LinkedFacts(st, st2, q, c) && q in st.bgPtr && HasSlotAt(st2, q)
    ensures var st' := Pushed(st2, q, p);
            StoreOk(st') && EdgeAppended(st, st', q, p) && Lost(st'.owner) == Lost(st.owner)
  {
    AppendedNew(st, Taken(st), q, c);
    TakenLost(st);
    AppendedViaNew(st, Taken(st), q, c, p);
    TakenReadable(st, q);
    LinkedHead(st, Taken(st), q, c);
  }

  ghost predicate LinkedFacts(st: Store, st2: Store, q: Obj, c: nat) {
    && q in st.chains && q in st2.chains && |st.chains[q]| > 0 && |st2.chains[q]| == |st.chains[q]| + 1
    && LastOf(st2.chains[q]) == c < |st2.space| && st2.chains[q][0] == st.chains[q][0] < |st2.space|
    && st2.space[st2.chains[q][0]].nEdges == Capacity(|st2.chains[q]| - 1) && st2.bgPtr == st.bgPtr
  }

  lemma LinkedHead(st: Store, st1: Store, q: Obj, c: nat)
    requires q in st.chains && ObjectReadable(st, q) && FullChain(st, q)
    requires st1.chains == st.chains && st1.bgPtr == st.bgPtr && ObjectReadable(st1, q)
    requires Head(st1, q).nEdges == Head(st, q).nEdges && c < |st1.space|
    ensures LinkedFacts(st, Linked(st1, q, c), q, c)
  {
  }

  lemma TakenReadable(st: Store, q: Obj)
    requires StoreOk(st) && HasRoom(st) && FrontFree(st) && q in st.chains && ObjectReadable(st, q)
    ensures var st1 := Taken(st);
            st1.chains == st.chains && ObjectReadable(st1, q) && Head(st1, q).nEdges == Head(st, q).nEdges
  {
    TakenArena(st);
    OwnedSameObject(st, Taken(st), q);
    SameObjectGraph(st, Taken(st), q);
  }

  // ----- Walking the predecessors (backgraph.c:184-206) -----

  // Chunk `be` is link k of q, and `total` edges lie before slot `local` of it.
  ghost predicate Cursor(st: Store, q: Obj, k: nat, be: nat, local: nat, total: nat) {
    && q in st.chains && k < |st.chains[q]| && be == st.chains[q][k]
    && local <= MAX_IN && total == Capacity(k) + local
  }

  // While there are edges left, a full chunk has a continuation.
  lemma CursorNext(st: Store, q: Obj, k: nat, be: nat, local: nat, total: nat)
    requires ObjectReadable(st, q) && Cursor(st, q, k, be, local, total) && ChainOk(st, q, st.chains[q])
    requires total < Head(st, q).nEdges
    ensures local == MAX_IN ==> k + 1 < |st.chains[q]| && st.space[be].cont == Some(st.chains[q][k + 1])
    ensures local == MAX_IN ==> Cursor(st, q, k + 1, st.chains[q][k + 1], 0, total)
  {
    assert st.space[st.chains[q][k]].cont == LinkAfter(st.chains[q], k);
  }

  lemma CursorEdge(st: Store, q: Obj, k: nat, be: nat, local: nat, total: nat)
    requires ObjectReadable(st, q) && Cursor(st, q, k, be, local, total) && local < MAX_IN
    requires total < Head(st, q).nEdges
    ensures be < |st.space| && total < |PredsOf(st, q)| && PredsOf(st, q)[total] == st.space[be].edges[local]
    ensures Cursor(st, q, k, be, local + 1, total + 1)
  {
    assert ChunkOf(total) == k && SlotOf(total) == local;
  }

  // ----- add_edge on the graph of a store -----

  // q had no predecessor and no structure; now it has p, and a structure if `lucky`.
  ghost predicate FirstAdded(st: Store, st': Store, p: Obj, q: Obj, gc: nat, lucky: bool)
    requires Readable(st) && Readable(st')
  {
    && GraphPreds(st') == GraphPreds(st)[q := [p]] && GraphRetain(st') == GraphRetain(st)
    && GraphCells(st') == (if lucky then GraphCells(st)[q := Cell(HEIGHT_UNKNOWN, gc - 1)] else GraphCells(st))
  }

  lemma FirstUnlucky(st: Store, p: Obj, q: Obj, gc: nat)
    requires StoreOk(st) && q in st.bgPtr && st.bgPtr[q].Null?
    ensures var st1 := WithHeader(st, q, One(p));
            && StoreOk(st1) && FirstAdded(st, st1, p, q, gc, false) && st1.owner == st.owner
            && q in st1.bgPtr && q !in st1.chains
  {
    assert ObjectReadable(st, q);
    JustOne(p);
    WithHeaderOk(st, q, One(p));
  }

  lemma FirstLucky(st: Store, st1: Store, st2: Store, p: Obj, q: Obj, gc: nat)
    requires Readable(st) && Readable(st1) && Readable(st2) && q !in st1.chains
    requires FirstAdded(st, st1, p, q, gc, false) && EnsuredGraph(st1, st2, q, gc)
    ensures FirstAdded(st, st2, p, q, gc, true)
  {
  }

  // p joined the predecessors of q, which has a structure now.
  ghost predicate FurtherAdded(st: Store, st': Store, p: Obj, q: Obj, gc: nat)
    requires Readable(st) && Readable(st') && q in st.bgPtr
  {
    && GraphPreds(st') == GraphPreds(st)[q := GraphPreds(st)[q] + [p]] && GraphRetain(st') == GraphRetain(st)
    && GraphCells(st') == (if q in st.chains then GraphCells(st) else GraphCells(st)[q := Cell(HEIGHT_UNKNOWN, gc - 1)])
  }

  lemma EnsuredThenAppended(st: Store, st1: Store, st2: Store, p: Obj, q: Obj, gc: nat)
    requires Readable(st) && Readable(st1) && Readable(st2) && q in st.bgPtr && q in st1.bgPtr
    requires EnsuredGraph(st, st1, q, gc) && EdgeAppended(st1, st2, q, p)
    ensures FurtherAdded(st, st2, p, q, gc)
  {
  }

  // What the header of q says about the graph.
  lemma HeaderMeaning(st: Store, q: Obj)
    requires Readable(st) && q in st.bgPtr
    ensures q in GraphPreds(st) && ObjectReadable(st, q) && GraphPreds(st)[q] == PredsOf(st, q)
    ensures st.bgPtr[q].Null? <==> PredsOf(st, q) == [] && q !in GraphCells(st)
  {
  }

  lemma HeadersKnown(st: Store)
    requires Readable(st)
    ensures GraphPreds(st).Keys == st.bgPtr.Keys
  {
  }

  lemma NullMeaning(st: Store, p: Obj, q: Obj)
    requires Readable(st) && p in st.bgPtr && q in st.bgPtr && st.bgPtr[q].Null?
    ensures p in GraphPreds(st) && q in GraphPreds(st) && GraphPreds(st)[q] == [] && q !in GraphCells(st)
  {
    HeaderMeaning(st, q);
  }

  // ----- Heights during the search -----

  function HeightWritten(st: Store, p: Obj, h: Height, at: int): Store
    requires p in st.chains && |st.chains[p]| > 0 && st.chains[p][0] < |st.space|
  {
    WithHead(st, p, st.space[st.chains[p][0]].(height := h, heightGcNo := Low16(at)), at)
  }

  lemma HeightWrittenOk(st: Store, p: Obj, h: Height, at: int)
    requires StoreOk(st) && p in st.chains
    ensures ObjectReadable(st, p)
    ensures var st' := HeightWritten(st, p, h, at);
            && StoreOk(st') && GraphPreds(st') == GraphPreds(st) && GraphRetain(st') == GraphRetain(st)
            && GraphCells(st') == GraphCells(st)[p := Cell(h, at)]
            && st' == st.(space := st'.space, cycle := st'.cycle)
  {
    assert ObjectReadable(st, p);
    var be := st.space[st.chains[p][0]].(height := h, heightGcNo := Low16(at));
    WithHeadOk(st, p, be, at);
    SameMember(GraphRetain(st), GraphRetain(st) - {p} + (if be.retain then {p} else {}), p);
  }

  // What the cell of p means in its chunk, for the test on the low 16 bits of the cycle.
  lemma CellMeaning(st: Store, p: Obj, gc: int)
    requires StoreOk(st) && p in st.chains
    ensures ObjectReadable(st, p) && p in GraphCells(st) && p in st.bgPtr && p in GraphPreds(st)
    ensures st.bgPtr[p] == Many(st.chains[p][0]) && GraphPreds(st)[p] == PredsOf(st, p)
    ensures |PredsOf(st, p)| == Head(st, p).nEdges
    ensures GraphCells(st)[p] == Cell(Head(st, p).height, st.cycle[p]) && Head(st, p).heightGcNo == Low16(st.cycle[p])
  {
    assert ObjectReadable(st, p);
  }

  lemma BareMeaning(st: Store, p: Obj)
    requires Readable(st) && p in st.bgPtr && st.bgPtr[p].One?
    ensures p in GraphPreds(st) && GraphPreds(st)[p] == [st.bgPtr[p].pred] && p !in GraphCells(st)
  {
    JustOne(st.bgPtr[p].pred);
    HeaderMeaning(st, p);
  }

  // What a search leaves as it was: all but heights and stamps.
  ghost predicate OnlyHeights(st: Store, st': Store) {
    && st' == st.(space := st'.space, cycle := st'.cycle) && Readable(st) && Readable(st')
    && GraphPreds(st') == GraphPreds(st) && GraphRetain(st') == GraphRetain(st)
  }

  lemma OnlyHeightsSame(st: Store)
    requires Readable(st)
    ensures OnlyHeights(st, st)
  {
  }

  lemma OnlyHeightsTrans(a: Store, b: Store, c: Store)
    requires OnlyHeights(a, b) && OnlyHeights(b, c)
    ensures OnlyHeights(a, c)
  {
    hide Readable, GraphPreds, GraphRetain;
  }

  lemma CursorKept(st: Store, st': Store, q: Obj, k: nat, be: nat, local: nat, total: nat)
    requires OnlyHeights(st, st') && Cursor(st, q, k, be, local, total)
    ensures Cursor(st', q, k, be, local, total)
  {
    hide Readable, GraphPreds, GraphRetain;
  }

  // ----- Remembering a height (backgraph.c:445-455) -----

  function Remembered(st: Store, p: Obj, h: nat, gc: nat): Store
    requires p in st.chains && |st.chains[p]| > 0 && st.chains[p][0] < |st.space|
  {
    WithHead(st, p, st.space[st.chains[p][0]].(retain := true, height := h, heightGcNo := Low16(gc)), gc)
  }

  lemma RememberedOk(st: Store, p: Obj, h: nat, gc: nat)
    requires StoreOk(st) && p in st.chains
    ensures ObjectReadable(st, p)
    ensures var st' := Remembered(st, p, h, gc);
            && StoreOk(st') && GraphPreds(st') == GraphPreds(st) && GraphRetain(st') == GraphRetain(st) + {p}
            && GraphCells(st') == GraphCells(st)[p := Cell(h, gc)]
            && st' == st.(space := st'.space, cycle := st'.cycle)
  {
    assert ObjectReadable(st, p);
    WithHeadOk(st, p, st.space[st.chains[p][0]].(retain := true, height := h, heightGcNo := Low16(gc)), gc);
    AddMember(GraphRetain(st), p);
  }

  lemma AddMember(a: set<Obj>, p: Obj)
    ensures a - {p} + {p} == a + {p}
  {
  }

  // Giving chunks back loses none.
  lemma CutLost(st: Store, q: Obj, from: nat)
    requires q in st.chains && from < |st.chains[q]| && (forall k :: 0 <= k < |st.chains[q]| ==> st.chains[q][k] < |st.space|)
    ensures Lost(Cut(st, q, from).owner) == Lost(st.owner)
  {
  }

  lemma KeptLost(st: Store, q: Obj)
    requires q in st.chains && |st.chains[q]| > 0 && (forall k :: 0 <= k < |st.chains[q]| ==> st.chains[q][k] < |st.space|)
    ensures Lost(KeptObject(st, q).owner) == Lost(st.owner)
  {
    if |st.chains[q]| > 1 {
      CutLost(st, q, 1);
    }
  }

  // Only dropping an object loses chunks: those of its chain.
  lemma DroppedLost(st: Store, q: Obj)
    requires ArenaOk(st)
    ensures Lost(Dropped(st, q).owner) == Lost(st.owner) + (if q in st.chains then set c | c in st.chains[q] else {})
  {
    var lost := Lost(Dropped(st, q).owner);
    if q in st.chains {
      assert ChainOk(st, q, st.chains[q]);
      forall c
        ensures c in st.owner && st.owner[c].Owned? && st.owner[c].obj == q <==> c in st.chains[q]
      {
        if c in st.owner && st.owner[c].Owned? && st.owner[c].obj == q {
          assert Placed(st, c);
        }
      }
    } else {
      forall c | c in st.owner && st.owner[c].Owned?
        ensures st.owner[c].obj != q
      {
        assert Placed(st, c);
      }
    }
  }

  lemma NoChain(st: Store, p: Obj)
    requires Readable(st) && p !in st.bgPtr
    ensures p !in st.chains
  {
    assert p in st.chains ==> ObjectReadable(st, p);
  }

  lemma ManyMeaning(st: Store, p: Obj)
    requires Readable(st) && p in st.bgPtr
    ensures p in GraphPreds(st) && (st.bgPtr[p].Many? <==> p in st.chains)
    ensures p in GraphCells(st) <==> p in st.chains
    ensures p !in st.chains ==> p !in GraphRetain(st)
  {
    assert ObjectReadable(st, p);
  }
}
