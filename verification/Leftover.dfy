// What edges that are left from an earlier build do to the number printed. A build may add to
// recorded edges, because a print can be skipped (finalize.c:1353, 1368) and marking can be
// abandoned (alloc.c:812-833).
module Leftover {
  import opened Options
  import opened Heights
  import opened Exactness
  import opened HeapScan
  import opened GraphModel
  import opened BuildProofs
  import opened AnyMarks
  import opened Cycles
  import opened Example
  import opened Documented

  // ----- A chain that is not there -----

  // Object 0 no longer points to object 1.
  function Cleared(): Heap {
    Heap(map[0 := HeapObject([0, 0, 0, 0, 0, 0, 9], Other), 1 := HeapObject([], Other), 2 := HeapObject([], Other)],
         map[8 := 1], 0, 8)
  }

  const COLLECT_ALL := Collect({0, 1, 2}, ALL)

  // All objects are marked in the first collection, and nothing is printed.
  const UNPRINTED := NEW + [BUILD, COLLECT_ALL]

  lemma NothingPoints()
    ensures WellSized(Cleared()) && (forall p, q :: !PointsTo(Cleared(), p, q))
  {
    assert Target(Cleared(), 9) == None;
  }

  // Building finds nothing to add.
  lemma NothingAdded(s: State)
    requires WellSized(Cleared())
    ensures Build(Cleared(), s, ALL) == s
  {
    var heap := Cleared();
    assert Target(heap, 9) == None;
    assert AddBackEdges(heap, s, 0, 7) == s;
    assert AddBackEdges(heap, s, 0, 6) == s;
    assert AddBackEdges(heap, s, 1, 6) == s && AddBackEdges(heap, s, 2, 6) == s;
    assert ALL[1..] == [1, 2] && [1, 2][1..] == [2] && [2][1..] == [];
  }

  // With all objects marked a traversal finds nothing.
  lemma AllMarked(s: State)
    requires GraphOk(s) && s.preds == Edge() && s.cells == map[]
    ensures UpdateAll(s, {0, 1, 2}, ALL) == s
  {
    assert ALL[1..] == [1, 2] && [1, 2][1..] == [2] && [0][1..] == [];
    assert UpdateMaxHeight(s, {0, 1, 2}, 0) == s;
    assert UpdateMaxHeight(s, {0, 1, 2}, 1) == s;
    Alone(s, {0, 1, 2});
  }

  lemma Unprinted() returns (c: Config)
    ensures Reaches(INITIAL, UNPRINTED, c) && Inv(c) && c.phase == Traversed
    ensures c.s == State(Edge(), map[], {}, 1, 14, 0, None, 0)
  {
    hide *;
    var b := FirstBuilt();
    ReachesInv(INITIAL, NEW + [BUILD], b);
    AllEdges(b.s);
    CollectIs(b, {0, 1, 2});
    AllMarked(b.s.(gc := b.s.gc + 1, maxHeight := 0));
    c := Next(b, Collect({0, 1, 2}, ALL));
    ReachesOne(b, Collect({0, 1, 2}, ALL));
    ReachesInv(b, [Collect({0, 1, 2}, ALL)], c);
    ReachesJoin(INITIAL, NEW + [BUILD], b, [Collect({0, 1, 2}, ALL)], c);
    UnprintedIs();
  }

  lemma UnprintedIs()
    ensures NEW + [BUILD] + [Collect({0, 1, 2}, ALL)] == UNPRINTED
  {
  }

  // A run after which the next collection prints 1, although nothing is remembered and no object
  // points to another: the edge was recorded before the first collection.
  lemma LeftoverEdge() returns (c: Config)
    ensures Reaches(INITIAL, UNPRINTED, c) && c.s.cells == map[]
    ensures forall p, q :: !PointsTo(Cleared(), p, q)
    ensures Collection(c, Cleared(), ALL, {1, 2}, ALL)
    ensures Printed(c, Cleared(), ALL, {1, 2}, ALL) == 1 && !Attained(c, Cleared(), ALL, {1, 2}, ALL)
  {
    hide *;
    c := Unprinted();
    NothingPoints();
    NothingAdded(c.s);
    LeftoverCollection(c);
    LeftoverPrinted(c);
    NoCells(c);
    NothingAttained(c, Cleared(), ALL, {1, 2}, ALL);
  }

  lemma LeftoverCollection(c: Config)
    requires Inv(c) && c.s.preds == Edge() && WellSized(Cleared()) && (forall p, q :: !PointsTo(Cleared(), p, q))
    requires Build(Cleared(), c.s, ALL) == c.s
    ensures Collection(c, Cleared(), ALL, {1, 2}, ALL)
  {
    hide Build, PointsTo, SearchSafe, Inv;
    AllEdges(c.s);
    SafeCollection(c, Cleared(), ALL, {1, 2}, ALL);
  }

  lemma LeftoverPrinted(c: Config)
    requires Collection(c, Cleared(), ALL, {1, 2}, ALL) && Build(Cleared(), c.s, ALL) == c.s
    requires c.s == State(Edge(), map[], {}, 1, 14, 0, None, 0)
    ensures Printed(c, Cleared(), ALL, {1, 2}, ALL) == 1
  {
    TraversesEdge(c.s.(gc := c.s.gc + 1, maxHeight := 0));
    hide Build, Collection, UpdateAll;
  }

  // ----- Exactly when the number printed is attained -----

  ghost predicate NothingRemembered(c: Config) {
    forall p :: p in c.s.cells ==> c.s.cells[p].height == HEIGHT_UNKNOWN
  }

  lemma NoCells(c: Config)
    requires c.s.cells == map[]
    ensures NothingRemembered(c)
  {
  }

  // Without a chain and without a remembered height only 0 is attained.
  lemma NothingAttained(c: Config, heap: Heap, objs: seq<Obj>, marked: set<Obj>, order: seq<Obj>)
    requires Collection(c, heap, objs, marked, order) && NothingRemembered(c) && (forall p, q :: !PointsTo(heap, p, q))
    ensures Attained(c, heap, objs, marked, order) ==> Printed(c, heap, objs, marked, order) == 0
  {
    hide Collection, Printed, PointsTo;
  }

  function EmptyHeap(): Heap {
    Heap(map[], map[], 0, 0)
  }

  // With nothing remembered, the number printed is attained for all heaps, closed marks and passes
  // if and only if no edge is left from an object that a search can come to, to another object.
  lemma AttainedIff(c: Config)
    requires Inv(c) && NothingRemembered(c)
    ensures (forall heap, objs, marked, order :: Collection(c, heap, objs, marked, order) ==> Attained(c, heap, objs, marked, order))
            <==> NothingLeft(c.s.preds, c.s.preds.Keys)
  {
    if NothingLeft(c.s.preds, c.s.preds.Keys) {
      forall heap, objs, marked, order | Collection(c, heap, objs, marked, order)
        ensures Attained(c, heap, objs, marked, order)
      {
        PrintedIsAttained(c, heap, objs, marked, order);
      }
    } else {
      var q, r :| q in c.s.preds && r in c.s.preds[q] && r != q && Searchable(c.s.preds, r);
      LeftoverShows(c, q, r);
    }
  }

  // Where no recorded edge comes from a freed object that means that no object is recorded as a
  // predecessor of another.
  lemma NothingLeftIff(s: State)
    requires NoDangling(s)
    ensures NothingLeft(s.preds, s.preds.Keys) <==> forall q, r :: q in s.preds && r in s.preds[q] ==> r == q
  {
    forall q, r | q in s.preds && r in s.preds[q]
      ensures Searchable(s.preds, r)
    {
      var i :| 0 <= i < |s.preds[q]| && s.preds[q][i] == r;
      assert PredClosed(s.preds, s.preds.Keys);
    }
    if NothingLeft(s.preds, s.preds.Keys) {
      forall q, r | q in s.preds && r in s.preds[q]
        ensures r == q
      {
        assert Searchable(s.preds, r);
        assert q in s.preds.Keys && (r != q ==> !Searchable(s.preds, r));
      }
    }
  }

  // All but r is marked, and q alone is visited.
  lemma LeftoverShows(c: Config, q: Obj, r: Obj)
    requires Inv(c) && NothingRemembered(c)
    requires q in c.s.preds && r in c.s.preds[q] && r != q && Searchable(c.s.preds, r)
    ensures var marked := c.s.preds.Keys - {r};
            Collection(c, EmptyHeap(), [], marked, [q]) && !Attained(c, EmptyHeap(), [], marked, [q])
  {
    var marked := c.s.preds.Keys - {r};
    OnlyOneSearch(c, q, r);
    InvCanStart(c);
    LeftoverHeight(c.s.(gc := c.s.gc + 1, maxHeight := 0), marked, q, r);
    NothingAttained(c, EmptyHeap(), [], marked, [q]);
  }

  lemma OnlyOneSearch(c: Config, q: Obj, r: Obj)
    requires Inv(c) && q in c.s.preds && Searchable(c.s.preds, r)
    ensures Collection(c, EmptyHeap(), [], c.s.preds.Keys - {r}, [q])
  {
    var within :| PredClosed(c.s.preds, within) && r in within;
    assert Covers(c.s.preds, c.s.preds.Keys - {r}, [q], within);
  }

  lemma LeftoverHeight(s: State, marked: set<Obj>, q: Obj, r: Obj)
    requires GraphOk(s) && marked == s.preds.Keys - {r} && q in s.preds && r in s.preds && r in s.preds[q] && r != q
    requires forall p :: p in s.cells ==> s.cells[p].height == HEIGHT_UNKNOWN
    ensures UpdateAll(s, marked, [q]).maxHeight > 0
  {
    assert [q][1..] == [];
    ScanFinds(s.preds, s.gc, marked, s.preds[q], Scanned(KnownHeight(s, q), None, s.cells), r);
  }

  // A search from an object for which nothing is remembered finds a height.
  lemma UnknownPositive(preds: Preds, gc: nat, cells: Cells, r: Obj)
    requires Shaped(preds, cells.Keys) && (forall p :: p in cells ==> cells[p].height == HEIGHT_UNKNOWN)
    ensures Visit(preds, gc, cells, {}, r).height > 0
  {
    if r in preds && r in cells {
      assert r in preds.Keys - InProgress(cells);
      VisitAllAbove(preds, gc, Enter(cells, r), {}, preds[r], 1);
    }
  }

  lemma {:induction false} ScanFinds(preds: Preds, gc: nat, marked: set<Obj>, ps: seq<Obj>, from: Scanned, r: Obj)
    requires Shaped(preds, from.cells.Keys) && (forall p :: p in from.cells ==> from.cells[p].height == HEIGHT_UNKNOWN)
    requires r in ps && r in preds && marked == preds.Keys - {r}
    ensures ScanPreds(preds, gc, marked, ps, from).height > 0
    decreases |ps|
  {
    if ps[0] == r {
      UnknownPositive(preds, gc, from.cells, r);
      ScanPredsRaises(preds, gc, marked, ps[1..], ScanStep(preds, gc, marked, r, from));
    } else {
      ScanFinds(preds, gc, marked, ps[1..], from, r);
    }
  }
}
