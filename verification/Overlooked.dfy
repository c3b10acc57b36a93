// A chain that is overlooked: an edge that is left from an abandoned marking (alloc.c:812-833)
// closes a cycle that is not in the heap.
module Overlooked {
  import opened Options
  import opened Heights
  import opened Walks
  import opened HeapScan
  import opened GraphModel
  import opened Cycles
  import opened Documented

  const FIVE: seq<Obj> := [0, 1, 2, 3, 4]
  const NEW_FIVE := [NewObject(0), NewObject(1), NewObject(2), NewObject(3), NewObject(4)]

  // Object k is found at address 8 * k + 8.
  const PLACES: map<nat, Obj> := map[16 := 1, 24 := 2, 32 := 3, 40 := 4]

  function Pointing(targets: seq<nat>): HeapObject {
    HeapObject([0, 0, 0, 0, 0, 0] + targets, Other)
  }

  // Object 3 points to object 2.
  function Earlier(): Heap {
    Heap(map[0 := Pointing([]), 1 := Pointing([]), 2 := Pointing([]), 3 := Pointing([24]), 4 := Pointing([])], PLACES, 0, 40)
  }

  // 0 -> 1, 0 -> 3, 1 -> 2, 2 -> 3, 2 -> 4, 3 -> 4
  function Later(): Heap {
    Heap(map[0 := Pointing([16, 32]), 1 := Pointing([24]), 2 := Pointing([32, 40]), 3 := Pointing([40]), 4 := Pointing([])],
         PLACES, 0, 40)
  }

  const UNKNOWN := Cell(HEIGHT_UNKNOWN, -1)

  function Recorded(preds: Preds, cells: Cells, random: nat): State {
    State(preds, cells, {}, 0, random, 0, None, 0)
  }

  function NonePreds(): Preds {
    map[0 := [], 1 := [], 2 := [], 3 := [], 4 := []]
  }

  function AllPreds(): Preds {
    map[0 := [], 1 := [0], 2 := [3, 1], 3 := [0, 2], 4 := [2, 3]]
  }

  function AllCells(): Cells {
    map[2 := UNKNOWN, 3 := UNKNOWN, 4 := UNKNOWN]
  }

  // ----- Building -----

  lemma NoWord(heap: Heap, s: State, p: Obj)
    requires WellSized(heap) && p in heap.objects && heap.objects[p] == Pointing([])
    ensures AddBackEdges(heap, s, p, OH_WORDS) == s
  {
  }

  lemma OneWord(heap: Heap, s: State, p: Obj, word: nat, q: Obj)
    requires WellSized(heap) && p in heap.objects && heap.objects[p] == Pointing([word]) && Target(heap, word) == Some(q)
    ensures AddBackEdges(heap, s, p, OH_WORDS) == AddEdge(s, p, q)
  {
    assert AddBackEdges(heap, AddEdge(s, p, q), p, OH_WORDS + 1) == AddEdge(s, p, q);
  }

  lemma TwoWords(heap: Heap, s: State, p: Obj, w1: nat, w2: nat, q1: Obj, q2: Obj)
    requires WellSized(heap) && p in heap.objects && heap.objects[p] == Pointing([w1, w2])
    requires Target(heap, w1) == Some(q1) && Target(heap, w2) == Some(q2)
    ensures AddBackEdges(heap, s, p, OH_WORDS) == AddEdge(AddEdge(s, p, q1), p, q2)
  {
    var s2 := AddEdge(AddEdge(s, p, q1), p, q2);
    assert AddBackEdges(heap, s2, p, OH_WORDS + 2) == s2;
    assert AddBackEdges(heap, AddEdge(s, p, q1), p, OH_WORDS + 1) == s2;
  }

  lemma FiveSteps(heap: Heap, s: State)
    requires WellSized(heap) && heap.objects.Keys == {0, 1, 2, 3, 4}
    ensures Build(heap, s, FIVE)
         == AddBackEdges(heap, AddBackEdges(heap, AddBackEdges(heap, AddBackEdges(heap, AddBackEdges(heap, s,
              0, OH_WORDS), 1, OH_WORDS), 2, OH_WORDS), 3, OH_WORDS), 4, OH_WORDS)
  {
    assert FIVE[1..] == [1, 2, 3, 4] && [1, 2, 3, 4][1..] == [2, 3, 4] && [2, 3, 4][1..] == [3, 4] && [3, 4][1..] == [4];
    assert [4][1..] == [];
    hide AddBackEdges;
  }

  // The first predecessor goes into the header, the second one into a structure.
  lemma AddsFirst(s: State, p: Obj, q: Obj)
    requires p in s.preds && q in s.preds && s.preds[q] == [] && q !in s.cells && !Lucky(NextRandom(s.random))
    ensures AddEdge(s, p, q) == s.(preds := s.preds[q := [p]], random := NextRandom(s.random))
  {
  }

  lemma AddsSecond(s: State, p: Obj, q: Obj, r: Obj)
    requires p in s.preds && q in s.preds && s.preds[q] == [r] && q !in s.cells && p != r
    ensures AddEdge(s, p, q) == s.(preds := s.preds[q := [r, p]], cells := s.cells[q := Cell(HEIGHT_UNKNOWN, s.gc - 1)])
  {
    assert [r] + [p] == [r, p];
  }

  lemma Sized()
    ensures WellSized(Earlier()) && WellSized(Later())
  {
  }

  lemma EarlierBuilt()
    requires WellSized(Earlier())
    ensures Build(Earlier(), Recorded(NonePreds(), map[], 13), FIVE) == Recorded(NonePreds()[2 := [3]], map[], 14)
  {
    hide AddBackEdges, AddEdge, Build;
    var s, heap := Recorded(NonePreds(), map[], 13), Earlier();
    FiveSteps(heap, s);
    NoWord(heap, s, 0);
    NoWord(heap, s, 1);
    NoWord(heap, s, 2);
    OneWord(heap, s, 3, 24, 2);
    AddsFirst(s, 3, 2);
    NoWord(heap, AddEdge(s, 3, 2), 4);
  }

  // After objects 0, 1 and 2.
  function AfterOne(): State {
    Recorded(map[0 := [], 1 := [0], 2 := [3], 3 := [0], 4 := []], map[], 16)
  }

  function AfterTwo(): State {
    Recorded(map[0 := [], 1 := [0], 2 := [3, 1], 3 := [0], 4 := []], map[2 := UNKNOWN], 16)
  }

  function AfterThree(): State {
    Recorded(map[0 := [], 1 := [0], 2 := [3, 1], 3 := [0, 2], 4 := [2]], map[2 := UNKNOWN, 3 := UNKNOWN], 17)
  }

  lemma ScansZero()
    requires WellSized(Later())
    ensures AddBackEdges(Later(), Recorded(NonePreds()[2 := [3]], map[], 14), 0, OH_WORDS) == AfterOne()
  {
    hide AddBackEdges, AddEdge;
    TwoWords(Later(), Recorded(NonePreds()[2 := [3]], map[], 14), 0, 16, 32, 1, 3);
    ZeroTargets();
    hide Recorded, NonePreds, AfterOne;
  }

  lemma ZeroTargets()
    ensures AddEdge(AddEdge(Recorded(NonePreds()[2 := [3]], map[], 14), 0, 1), 0, 3) == AfterOne()
  {
    hide AddEdge;
    var s, t := Recorded(NonePreds()[2 := [3]], map[], 14), Recorded(map[0 := [], 1 := [0], 2 := [3], 3 := [], 4 := []], map[], 15);
    AddsFirst(s, 0, 1);
    assert t == s.(preds := s.preds[1 := [0]], random := 15);
    AddsFirst(t, 0, 3);
  }

  lemma ScansOne()
    requires WellSized(Later())
    ensures AddBackEdges(Later(), AfterOne(), 1, OH_WORDS) == AfterTwo()
  {
    hide AddBackEdges, AddEdge;
    OneWord(Later(), AfterOne(), 1, 24, 2);
    AddsSecond(AfterOne(), 1, 2, 3);
  }

  lemma ScansTwo()
    requires WellSized(Later())
    ensures AddBackEdges(Later(), AfterTwo(), 2, OH_WORDS) == AfterThree()
  {
    hide AddBackEdges, AddEdge;
    var t := Recorded(map[0 := [], 1 := [0], 2 := [3, 1], 3 := [0, 2], 4 := []], map[2 := UNKNOWN, 3 := UNKNOWN], 16);
    TwoWords(Later(), AfterTwo(), 2, 32, 40, 3, 4);
    AddsSecond(AfterTwo(), 2, 3, 0);
    assert AddEdge(AfterTwo(), 2, 3) == t;
    AddsFirst(t, 2, 4);
  }

  lemma ScansThree()
    requires WellSized(Later())
    ensures AddBackEdges(Later(), AfterThree(), 3, OH_WORDS) == Recorded(AllPreds(), AllCells(), 17)
  {
    hide AddBackEdges, AddEdge;
    OneWord(Later(), AfterThree(), 3, 40, 4);
    AddsSecond(AfterThree(), 3, 4, 2);
  }

  lemma LaterBuilt()
    requires WellSized(Later())
    ensures Build(Later(), Recorded(NonePreds()[2 := [3]], map[], 14), FIVE) == Recorded(AllPreds(), AllCells(), 17)
  {
    hide AddBackEdges, Build;
    FiveSteps(Later(), Recorded(NonePreds()[2 := [3]], map[], 14));
    ScansZero();
    ScansOne();
    ScansTwo();
    ScansThree();
    NoWord(Later(), Recorded(AllPreds(), AllCells(), 17), 4);
  }

  // ----- Searching -----

  // What the searches leave in the cells.
  function Searched(): Cells {
    AllCells()[3 := Cell(2, 1)][2 := Cell(3, 1)]
  }

  // The search from object 2 comes to object 3, whose predecessor 2 is on the path.
  lemma SearchTwo()
    ensures Shaped(AllPreds(), AllCells().Keys)
    ensures Visit(AllPreds(), 1, AllCells(), {}, 2) == Visited(3, Searched())
  {
    var preds, entered := AllPreds(), Enter(AllCells(), 2);
    SearchThree(entered);
    var found := Leave(entered, 3, 2, 1);
    assert Visit(preds, 1, found, {}, 1) == Visited(2, found) by {
      assert Visit(preds, 1, found, {1}, 0) == Visited(1, found);
    }
    assert VisitAll(preds, 1, found, {}, [1], 3) == Visited(3, found) by {
      assert [1][1..] == [];
    }
    assert VisitAll(preds, 1, entered, {}, [3, 1], 1) == Visited(3, found) by {
      assert [3, 1][1..] == [1];
    }
    assert Leave(found, 2, 3, 1) == Searched();
  }

  lemma SearchThree(cells: Cells)
    requires cells == Enter(AllCells(), 2)
    ensures Shaped(AllPreds(), cells.Keys)
    ensures Visit(AllPreds(), 1, cells, {}, 3) == Visited(2, Leave(cells, 3, 2, 1))
  {
    var preds, entered := AllPreds(), Enter(cells, 3);
    assert Visit(preds, 1, entered, {}, 0) == Visited(1, entered);
    assert Visit(preds, 1, entered, {}, 2) == Visited(0, entered);
    assert VisitAll(preds, 1, entered, {}, [2], 2) == Visited(2, entered) by {
      assert [2][1..] == [];
    }
    assert VisitAll(preds, 1, entered, {}, [0, 2], 1) == Visited(2, entered) by {
      assert [0, 2][1..] == [2];
    }
    assert Leave(entered, 3, 2, 1) == Leave(cells, 3, 2, 1);
  }

  lemma SearchesFour()
    requires GraphOk(Recorded(AllPreds(), AllCells(), 17))
    ensures Traverse(Recorded(AllPreds(), AllCells(), 17), {4}, FIVE).maxHeight == 3
  {
    var s := Recorded(AllPreds(), AllCells(), 17).(gc := 1);
    SearchTwo();
    assert Visit(s.preds, 1, Searched(), {}, 3) == Visited(2, Searched());
    var v := Scanned(3, Some(2), Searched());
    assert ScanStep(s.preds, 1, {4}, 2, Scanned(0, None, s.cells)) == v;
    assert ScanStep(s.preds, 1, {4}, 3, v) == v;
    assert [2, 3][1..] == [3] && [3][1..] == [];
    assert ScanPreds(s.preds, 1, {4}, [2, 3], Scanned(0, None, s.cells)) == v;
    assert UpdateMaxHeight(s, {4}, 4).maxHeight == 3;
    OnlyFour(s);
  }

  lemma OnlyFour(s: State)
    requires GraphOk(s)
    ensures UpdateAll(s, {4}, FIVE) == UpdateMaxHeight(s, {4}, 4)
  {
    SkipsUnmarked(s, {4}, 0, [1, 2, 3, 4]);
    SkipsUnmarked(s, {4}, 1, [2, 3, 4]);
    SkipsUnmarked(s, {4}, 2, [3, 4]);
    SkipsUnmarked(s, {4}, 3, [4]);
    Last(s, {4}, 4);
    assert FIVE == [0] + [1, 2, 3, 4] && [1, 2, 3, 4] == [1] + [2, 3, 4] && [2, 3, 4] == [2] + [3, 4] && [3, 4] == [3] + [4];
    hide UpdateAll, UpdateMaxHeight, GraphOk;
  }

  lemma SkipsUnmarked(s: State, marked: set<Obj>, p: Obj, rest: seq<Obj>)
    requires GraphOk(s) && p !in marked
    ensures UpdateAll(s, marked, [p] + rest) == UpdateAll(s, marked, rest)
  {
    assert ([p] + rest)[1..] == rest;
  }

  lemma Last(s: State, marked: set<Obj>, p: Obj)
    requires GraphOk(s)
    ensures UpdateAll(s, marked, [p]) == UpdateMaxHeight(s, marked, p)
  {
    assert [p][1..] == [];
  }

  // ----- The run -----

  const EARLIER := BuildGraph(Earlier(), FIVE)

  // The marking after the first build is abandoned; the collection that follows builds again.
  const ABANDONED := NEW_FIVE + [EARLIER]

  function AfterNew(preds: Preds): Config {
    Config(Idle, Recorded(preds, map[], 13), {}, 0, 0)
  }

  lemma AddsObject(preds: Preds, p: Obj)
    requires Inv(AfterNew(preds)) && p !in preds
    ensures Reaches(AfterNew(preds), [NewObject(p)], AfterNew(preds[p := []])) && Inv(AfterNew(preds[p := []]))
  {
    var d := AfterNew(preds);
    ReachesOne(d, NewObject(p));
    NextInv(d, NewObject(p));
    assert d.s.cells - {p} == map[] && d.s.retain - {p} == {};
  }

  lemma FiveObjects()
    ensures Reaches(INITIAL, NEW_FIVE, AfterNew(NonePreds())) && Inv(AfterNew(NonePreds()))
  {
    hide *;
    NoObjects();
    AddsObject(map[], 0);
    AddsObject(map[0 := []], 1);
    AddsObject(map[0 := [], 1 := []], 2);
    AddsObject(map[0 := [], 1 := [], 2 := []], 3);
    AddsObject(map[0 := [], 1 := [], 2 := [], 3 := []], 4);
    var c1, c2 := AfterNew(map[0 := []]), AfterNew(map[0 := [], 1 := []]);
    var c3, c4 := AfterNew(map[0 := [], 1 := [], 2 := []]), AfterNew(map[0 := [], 1 := [], 2 := [], 3 := []]);
    var c5 := AfterNew(map[0 := [], 1 := [], 2 := [], 3 := [], 4 := []]);
    ReachesJoin(INITIAL, [NewObject(0)], c1, [NewObject(1)], c2);
    ReachesJoin(INITIAL, [NewObject(0)] + [NewObject(1)], c2, [NewObject(2)], c3);
    ReachesJoin(INITIAL, [NewObject(0)] + [NewObject(1)] + [NewObject(2)], c3, [NewObject(3)], c4);
    ReachesJoin(INITIAL, [NewObject(0)] + [NewObject(1)] + [NewObject(2)] + [NewObject(3)], c4, [NewObject(4)], c5);
    AllNew();
  }

  lemma NoObjects()
    ensures AfterNew(map[]) == INITIAL && Inv(INITIAL)
  {
  }

  lemma AllNew()
    ensures [NewObject(0)] + [NewObject(1)] + [NewObject(2)] + [NewObject(3)] + [NewObject(4)] == NEW_FIVE
    ensures NonePreds() == map[0 := [], 1 := [], 2 := [], 3 := [], 4 := []]
  {
  }

  lemma Abandoned() returns (c: Config)
    ensures Reaches(INITIAL, ABANDONED, c) && Inv(c) && c.s == Recorded(NonePreds()[2 := [3]], map[], 14)
  {
    hide *;
    FiveObjects();
    Sized();
    var s := AfterNew(NonePreds());
    EarlierNext(s);
    c := Next(s, BuildGraph(Earlier(), FIVE));
    ReachesOne(s, BuildGraph(Earlier(), FIVE));
    ReachesInv(s, [BuildGraph(Earlier(), FIVE)], c);
    ReachesJoin(INITIAL, NEW_FIVE, s, [BuildGraph(Earlier(), FIVE)], c);
    AbandonedIs();
  }

  lemma EarlierNext(c: Config)
    requires Inv(c) && c == AfterNew(NonePreds()) && WellSized(Earlier())
    ensures Legal(c, BuildGraph(Earlier(), FIVE))
    ensures Next(c, BuildGraph(Earlier(), FIVE)).s == Recorded(NonePreds()[2 := [3]], map[], 14)
  {
    EarlierBuilt();
    hide Build;
  }

  lemma AbandonedIs()
    ensures ABANDONED == NEW_FIVE + [BuildGraph(Earlier(), FIVE)]
  {
  }

  // ----- The chain -----

  lemma LaterPoints()
    ensures forall p, q :: PointsTo(Later(), p, q) ==> p < q && p != 4
    ensures PointsTo(Later(), 0, 1) && PointsTo(Later(), 1, 2) && PointsTo(Later(), 2, 3) && PointsTo(Later(), 3, 4)
  {
    var heap := Later();
    assert PointsAt(heap, 0, 6, 1) && PointsAt(heap, 1, 6, 2) && PointsAt(heap, 2, 6, 3) && PointsAt(heap, 3, 6, 4);
  }

  lemma {:induction false} ChainRises(objects: set<Obj>, w: Walk, p: Obj)
    requires (forall x, y :: PointsTo(Later(), x, y) ==> x < y) && IsChainInto(Later(), objects, {4}, w, p)
    ensures w[0] < p
    decreases |w|
  {
    if |w| > 1 {
      var n := |w| - 1;
      assert PointsTo(Later(), w[n - 1], w[n - 1 + 1]);
      ChainRises(objects, w[..n], w[n]);
    }
  }

  // The chain of objects 0, 1, 2 and 3 into object 4 has weight 4 and no unmarked objects form a
  // cycle; the number printed is 3.
  lemma LeftoverHides() returns (c: Config)
    ensures Reaches(INITIAL, ABANDONED, c)
    ensures Collection(c, Later(), FIVE, {4}, FIVE) && NoUnmarkedCycle(Later(), BuiltFrom(c, FIVE), {4})
    ensures IsChainInto(Later(), BuiltFrom(c, FIVE), {4}, [0, 1, 2, 3], 4) && Weight(Base(c.s.cells), [0, 1, 2, 3]) == 4
    ensures Printed(c, Later(), FIVE, {4}, FIVE) == 3
  {
    hide *;
    c := Abandoned();
    Sized();
    LaterBuilt();
    LaterPoints();
    LaterCollection(c);
    LaterChain(c);
    LaterPrinted(c);
  }

  lemma LaterCollection(c: Config)
    requires Inv(c) && WellSized(Later()) && (forall p, q :: PointsTo(Later(), p, q) ==> p < q && p != 4)
    requires Build(Later(), c.s, FIVE) == Recorded(AllPreds(), AllCells(), 17)
    ensures Collection(c, Later(), FIVE, {4}, FIVE)
  {
    hide Build, PointsTo, Inv, SearchSafe;
    AllSafe();
    SafeCollection(c, Later(), FIVE, {4}, FIVE);
  }

  lemma AllSafe()
    ensures SearchSafe(AllPreds(), {4}, FIVE)
  {
    assert PredClosed(AllPreds(), AllPreds().Keys);
    assert Covers(AllPreds(), {4}, FIVE, AllPreds().Keys);
  }

  lemma LaterChain(c: Config)
    requires c.s == Recorded(NonePreds()[2 := [3]], map[], 14)
    requires forall p, q :: PointsTo(Later(), p, q) ==> p < q && p != 4
    requires PointsTo(Later(), 0, 1) && PointsTo(Later(), 1, 2) && PointsTo(Later(), 2, 3) && PointsTo(Later(), 3, 4)
    ensures NoUnmarkedCycle(Later(), BuiltFrom(c, FIVE), {4})
    ensures IsChainInto(Later(), BuiltFrom(c, FIVE), {4}, [0, 1, 2, 3], 4) && Weight(Base(c.s.cells), [0, 1, 2, 3]) == 4
  {
    hide PointsTo;
    forall w, p | IsChainInto(Later(), BuiltFrom(c, FIVE), {4}, w, p)
      ensures w[0] != p
    {
      ChainRises(BuiltFrom(c, FIVE), w, p);
    }
    assert BuiltFrom(c, FIVE) == {0, 1, 2, 3, 4};
  }

  lemma LaterPrinted(c: Config)
    requires Collection(c, Later(), FIVE, {4}, FIVE)
    requires Build(Later(), c.s, FIVE) == Recorded(AllPreds(), AllCells(), 17)
    ensures Printed(c, Later(), FIVE, {4}, FIVE) == 3
  {
    BuiltState(c, Later(), FIVE);
    SearchesFour();
    hide Build, Collection, Traverse;
  }
}
