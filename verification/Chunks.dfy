// How many chunks of the arena a graph needs, and when that is too many: the program aborts when
// it has handed out all of them and none is free (backgraph.c:86-108).
module Chunks {
  import opened Options
  import opened Heights
  import opened HeapScan
  import opened Sizes
  import opened GraphModel
  import opened FiniteSets
  import opened Arena
  import opened Conservation

  // A structure with n edges has one chunk for every ten of them, and at least one.
  function ChunkCount(n: nat): nat {
    if n == 0 then 1 else (n + 9) / 10
  }

  // The chunks of a graph: number k of the structure of q.
  ghost function InUse(s: State): set<(Obj, nat)> {
    set q, k: nat | q in s.cells && q in s.preds && k < ChunkCount(|s.preds[q]|) :: (q, k)
  }

  ghost function Need(s: State): nat {
    |InUse(s)|
  }

  // ----- What the program does to the number of chunks -----

  // Adding p to the predecessors of q takes a chunk.
  predicate TakesChunk(s: State, p: Obj, q: Obj) {
    && q in s.preds && p in s.preds && p !in s.preds[q]
    && (if s.preds[q] == [] then q !in s.cells && Lucky(NextRandom(s.random))
        else q !in s.cells || |s.preds[q]| % 10 == 0)
  }

  lemma AddEdgeUses(s: State, p: Obj, q: Obj)
    ensures InUse(s) <= InUse(AddEdge(s, p, q))
    ensures TakesChunk(s, p, q) ==> InUse(s) < InUse(AddEdge(s, p, q))
  {
    var s' := AddEdge(s, p, q);
    forall x, k: nat | (x, k) in InUse(s)
      ensures (x, k) in InUse(s')
    {
    }
    if TakesChunk(s, p, q) {
      var k := if q in s.cells then ChunkCount(|s.preds[q]|) else 0;
      assert (q, k) in InUse(s') && (q, k) !in InUse(s);
    }
  }

  lemma {:induction false} AddBackEdgesUses(heap: Heap, s: State, p: Obj, j: nat)
    requires p in heap.objects && WellSized(heap)
    ensures InUse(s) <= InUse(AddBackEdges(heap, s, p, j))
    decreases |heap.objects[p].words| - j
  {
    if BYTES_PER_WORD * j < ScanBytes(heap.objects[p]) {
      var target := Target(heap, heap.objects[p].words[j]);
      if target.Some? {
        AddEdgeUses(s, p, target.value);
      }
      AddBackEdgesUses(heap, AddWord(heap, s, p, heap.objects[p].words[j]), p, j + 1);
    }
  }

  lemma {:induction false} BuildUses(heap: Heap, s: State, objs: seq<Obj>)
    requires WellSized(heap) && (forall p :: p in objs ==> p in heap.objects)
    ensures InUse(s) <= InUse(Build(heap, s, objs))
    decreases |objs|
  {
    if objs != [] {
      AddBackEdgesUses(heap, s, objs[0], OH_WORDS);
      BuildUses(heap, AddBackEdges(heap, s, objs[0], OH_WORDS), objs[1..]);
    }
  }

  lemma UpdateUses(s: State, marked: set<Obj>, p: Obj)
    requires GraphOk(s)
    ensures InUse(s) <= InUse(UpdateMaxHeight(s, marked, p))
    ensures p in marked && p in s.preds && p !in s.cells && ScanObject(s, marked, p).height > 0 ==>
              InUse(s) < InUse(UpdateMaxHeight(s, marked, p))
  {
    var s' := UpdateMaxHeight(s, marked, p);
    if p in marked && p in s.preds && p !in s.cells && ScanObject(s, marked, p).height > 0 {
      assert (p, 0) in InUse(s') && (p, 0) !in InUse(s);
    }
  }

  lemma {:induction false} UpdateAllUses(s: State, marked: set<Obj>, objs: seq<Obj>)
    requires GraphOk(s)
    ensures InUse(s) <= InUse(UpdateAll(s, marked, objs))
    decreases |objs|
  {
    if objs != [] {
      UpdateUses(s, marked, objs[0]);
      UpdateAllUses(UpdateMaxHeight(s, marked, objs[0]), marked, objs[1..]);
    }
  }

  // ----- Counting the chunks of the arena -----

  lemma {:induction false} DistinctSize(xs: seq<nat>)
    requires Distinct(xs)
    ensures |Elements(xs)| == |xs|
    decreases |xs|
  {
    if xs != [] {
      DistinctSize(xs[1..]);
      ElementsSplit(xs, {});
      assert Elements(xs) == {xs[0]} + Elements(xs[1..]);
    }
  }

  ghost function Owned(owner: map<nat, Owner>): map<nat, (Obj, nat)> {
    map c | c in owner && owner[c].Owned? :: (owner[c].obj, owner[c].link)
  }

  lemma OwnedAreUsed(st: Store, s: State)
    requires StoreOk(st) && s.preds == GraphPreds(st) && s.cells == GraphCells(st)
    ensures |Owned(st.owner).Keys| == Need(s)
  {
    var m := Owned(st.owner);
    forall c | c in m
      ensures m[c] in InUse(s) && st.chains[m[c].0][m[c].1] == c
    {
      assert Placed(st, c);
      UsedChunk(st, s, m[c].0, m[c].1);
    }
    forall q, k: nat | (q, k) in InUse(s)
      ensures (q, k) in m.Values
    {
      UsedChunk(st, s, q, k);
      assert m[st.chains[q][k]] == (q, k);
    }
    assert m.Values == InUse(s);
    InjectiveSize(m);
  }

  lemma UsedChunk(st: Store, s: State, q: Obj, k: nat)
    requires StoreOk(st) && s.preds == GraphPreds(st) && s.cells == GraphCells(st)
    ensures q in st.chains && k < |st.chains[q]| <==> (q, k) in InUse(s)
    ensures (q, k) in InUse(s) ==> st.chains[q][k] in st.owner && st.owner[st.chains[q][k]] == Arena.Owned(q, k)
  {
    if q in st.chains {
      ChainLength(st, q);
      assert ChainOk(st, q, st.chains[q]);
    }
  }

  lemma FreeAre(st: Store)
    requires OwnersOk(st) && FreeOk(st)
    ensures forall c :: c in Elements(st.free) <==> c in st.owner && st.owner[c].Free?
    ensures Distinct(st.free)
  {
    forall c | c in st.owner && st.owner[c].Free?
      ensures c in Elements(st.free)
    {
      assert Placed(st, c);
    }
  }

  lemma OwnersSplit(owner: map<nat, Owner>, n: nat, free: set<nat>)
    requires forall c :: c in owner <==> 0 <= c < n
    requires forall c :: c in free <==> c in owner && owner[c].Free?
    ensures |Owned(owner).Keys| + |free| + |Lost(owner)| == n
  {
    var used, lost := Owned(owner).Keys, Lost(owner);
    forall c: nat
      ensures c in used <==> c in owner && owner[c].Owned?
      ensures c in lost <==> c in owner && owner[c].Loose?
    {
    }
    DisjointSizes(used, free, lost, Below(n));
  }

  // Every chunk handed out is in use, free or lost.
  lemma ChunksCounted(st: Store, s: State)
    requires StoreOk(st) && s.preds == GraphPreds(st) && s.cells == GraphCells(st)
    ensures Need(s) + |st.free| + |Lost(st.owner)| == st.n <= 99999
    ensures st.avail == None ==> |st.free| == 0
  {
    OwnedAreUsed(st, s);
    FreeAre(st);
    DistinctSize(st.free);
    OwnersSplit(st.owner, st.n, Elements(st.free));
    hide Need, Owned, Lost, Readable, StampsMatch;
  }

  // Nothing is left: what needs more chunks than this graph does not fit.
  lemma NoneLeft(st: Store, s: State, s': State)
    requires StoreOk(st) && s.preds == GraphPreds(st) && s.cells == GraphCells(st)
    requires st.avail == None && st.n == 99999 && InUse(s) < InUse(s')
    ensures Need(s') + |Lost(st.owner)| > 99999
  {
    ChunksCounted(st, s);
    SmallerSet(InUse(s), InUse(s'));
    hide StoreOk;
  }

  // The chunks lost when q is freed.
  lemma DroppedCount(st: Store, s: State, q: Obj)
    requires StoreOk(st) && s.preds == GraphPreds(st) && s.cells == GraphCells(st)
    ensures q in st.chains <==> q in s.cells
    ensures q in st.chains ==>
              q in s.preds && |Lost(st.owner) + (set c | c in st.chains[q])| == |Lost(st.owner)| + ChunkCount(|s.preds[q]|)
  {
    if q in st.chains {
      ChainLength(st, q);
      ChunksPartitioned(st);
      DistinctSize(st.chains[q]);
      assert Elements(st.chains[q]) == set c | c in st.chains[q];
      assert Lost(st.owner) !! Elements(st.chains[q]);
    }
  }
}
