// A heap of three objects, of which object 0 points to object 1, and runs on it.
module Example {
  import opened Options
  import opened Heights
  import opened HeapScan
  import opened GraphModel
  import opened BuildProofs
  import opened Cycles

  function ThreeObjects(): Heap {
    Heap(map[0 := HeapObject([0, 0, 0, 0, 0, 0, 8], Other), 1 := HeapObject([], Other), 2 := HeapObject([], Other)],
         map[8 := 1], 0, 8)
  }

  const ALL: seq<Obj> := [0, 1, 2]
  const NEW := [NewObject(0), NewObject(1), NewObject(2)]
  const BUILD := BuildGraph(ThreeObjects(), ALL)
  // Objects 1 and 2 are marked, or object 2 alone.
  const COLLECT := Collect({1, 2}, ALL)
  const QUIET := Collect({2}, ALL)
  const PRINT := PrintStats(ALL)

  // The graph before building and after.
  function NoEdge(): Preds {
    map[0 := [], 1 := [], 2 := []]
  }

  function Edge(): Preds {
    map[0 := [], 1 := [0], 2 := []]
  }

  const STARTED := Config(Idle, State(NoEdge(), map[], {}, 0, 13, 0, None, 0), {}, 0, 0)

  lemma AllEdges(s: State)
    requires s.preds == Edge() || s.preds == NoEdge()
    ensures NoDangling(s) && Distinct(ALL) && VisitsAll(ALL, s)
    ensures forall marked :: SearchSafe(s.preds, marked, ALL)
  {
    forall marked
      ensures SearchSafe(s.preds, marked, ALL)
    {
      NoDanglingSafe(s, marked, ALL);
    }
    assert 0 in ALL && 1 in ALL && 2 in ALL;
  }

  lemma Started()
    ensures Reaches(INITIAL, NEW, STARTED)
  {
    var c1 := Next(INITIAL, NewObject(0));
    var c2 := Next(c1, NewObject(1));
    NewSteps(c1, c2);
    hide *;
    ReachesOne(INITIAL, NewObject(0));
    ReachesOne(c1, NewObject(1));
    ReachesOne(c2, NewObject(2));
    ReachesJoin(INITIAL, [NewObject(0)], c1, [NewObject(1)], c2);
    ReachesJoin(INITIAL, [NewObject(0)] + [NewObject(1)], c2, [NewObject(2)], STARTED);
    NewIs();
  }

  lemma NewIs()
    ensures [NewObject(0)] + [NewObject(1)] + [NewObject(2)] == NEW
  {
  }

  lemma NewSteps(c1: Config, c2: Config)
    requires Inv(INITIAL) && Legal(INITIAL, NewObject(0)) && c1 == Next(INITIAL, NewObject(0))
    requires Inv(c1) && Legal(c1, NewObject(1)) && c2 == Next(c1, NewObject(1))
    ensures Inv(c2) && Legal(c2, NewObject(2)) && Next(c2, NewObject(2)) == STARTED
  {
    var c3 := Next(c2, NewObject(2));
    assert c3.s.preds == NoEdge() && c3.s.cells == map[] && c3.s.retain == {};
  }

  // What a build makes of s: the edge is there, in the header if nothing was, and the counter
  // has gone up if so.
  function WithEdge(s: State): State {
    s.(preds := Edge(), random := if s.preds == NoEdge() && 1 !in s.cells then NextRandom(s.random) else s.random)
  }

  lemma BuildsEdge(s: State)
    requires s.preds == Edge() || (s.preds == NoEdge() && (1 in s.cells || s.random == 13))
    ensures Build(ThreeObjects(), s, ALL) == WithEdge(s)
  {
    var heap := ThreeObjects();
    var s1 := AddEdge(s, 0, 1);
    assert s1 == WithEdge(s) by {
      assert s.preds[1] == [] ==> s.preds[1] + [0] == [0];
    }
    assert AddBackEdges(heap, s1, 0, 7) == s1;
    assert Target(heap, 8) == Some(1);
    assert AddBackEdges(heap, s, 0, 6) == s1;
    assert AddBackEdges(heap, s1, 1, 6) == s1;
    assert AddBackEdges(heap, s1, 2, 6) == s1;
    assert ALL[1..] == [1, 2] && [1, 2][1..] == [2] && [2][1..] == [];
  }

  lemma BuildNext(c: Config)
    requires Inv(c) && (c.s.preds == Edge() || (c.s.preds == NoEdge() && (1 in c.s.cells || c.s.random == 13)))
    ensures Legal(c, BUILD)
    ensures Next(c, BUILD) == c.(phase := Built, s := WithEdge(c.s))
  {
    BuildsEdge(c.s);
    assert WellSized(ThreeObjects());
    hide Inv, Build;
  }

  // A traversal with objects 1 and 2 marked: object 1 has the unmarked predecessor 0.
  lemma TraversesEdge(s: State)
    requires GraphOk(s) && s.preds == Edge() && s.maxHeight == 0
    requires s.cells == map[] || (s.cells.Keys == {1} && s.cells[1].height == 1)
    ensures UpdateAll(s, {1, 2}, ALL)
         == s.(cells := s.cells[1 := Cell(1, s.gc)], retain := s.retain + {1}, maxHeight := 1,
               deepest := if s.cells == map[] then Some(0) else None)
  {
    assert ALL[1..] == [1, 2] && [1, 2][1..] == [2] && [2][1..] == [] && [0][1..] == [];
    assert UpdateMaxHeight(s, {1, 2}, 0) == s;
    var known := KnownHeight(s, 1);
    assert Visit(s.preds, s.gc, s.cells, {}, 0) == Visited(1, s.cells);
    ScanOne(s.preds, s.gc, {1, 2}, 1, 0, Scanned(known, None, s.cells));
    var t := UpdateMaxHeight(s, {1, 2}, 1);
    Alone(t, {1, 2});
  }

  // Object 2 has no predecessor and no height.
  lemma Alone(s: State, marked: set<Obj>)
    requires GraphOk(s) && s.preds == Edge() && 2 !in s.cells
    ensures UpdateAll(s, marked, [2]) == s
  {
    assert [2][1..] == [];
  }

  // With object 2 alone marked, a traversal finds nothing.
  lemma TraversesNothing(s: State)
    requires GraphOk(s) && s.preds == Edge() && 2 !in s.cells
    ensures UpdateAll(s, {2}, ALL) == s
  {
    assert ALL[1..] == [1, 2] && [1, 2][1..] == [2];
    assert UpdateMaxHeight(s, {2}, 0) == s && UpdateMaxHeight(s, {2}, 1) == s;
    Alone(s, {2});
  }

  lemma Names()
    ensures COLLECT == Collect({1, 2}, ALL) && QUIET == Collect({2}, ALL)
  {
  }

  lemma CollectIs(c: Config, marked: set<Obj>)
    requires Inv(c) && c.phase == Built && SearchSafe(c.s.preds, marked, ALL)
    ensures Legal(c, Collect(marked, ALL)) && GraphOk(c.s.(gc := c.s.gc + 1, maxHeight := 0))
    ensures Next(c, Collect(marked, ALL))
         == Config(Traversed, UpdateAll(c.s.(gc := c.s.gc + 1, maxHeight := 0), marked, ALL), marked, c.since + 1, c.age + 1)
  {
    InvCanStart(c);
  }

  lemma CollectNext(c: Config)
    requires Inv(c) && c.phase == Built && c.s.preds == Edge()
    requires c.s.cells == map[] || (c.s.cells.Keys == {1} && c.s.cells[1].height == 1)
    ensures Legal(c, COLLECT)
    ensures Next(c, COLLECT)
         == Config(Traversed,
                   c.s.(gc := c.s.gc + 1, cells := c.s.cells[1 := Cell(1, c.s.gc + 1)], retain := c.s.retain + {1},
                        maxHeight := 1, deepest := if c.s.cells == map[] then Some(0) else None),
                   {1, 2}, c.since + 1, c.age + 1)
  {
    hide *;
    Names();
    AllEdges(c.s);
    CollectIs(c, {1, 2});
    TraversesEdge(c.s.(gc := c.s.gc + 1, maxHeight := 0));
  }

  lemma QuietNext(c: Config)
    requires Inv(c) && c.phase == Built && c.s.preds == Edge() && 2 !in c.s.cells
    ensures Legal(c, QUIET)
    ensures Next(c, QUIET) == Config(Traversed, c.s.(gc := c.s.gc + 1, maxHeight := 0), {2}, c.since + 1, c.age + 1)
  {
    hide *;
    Names();
    AllEdges(c.s);
    CollectIs(c, {2});
    TraversesNothing(c.s.(gc := c.s.gc + 1, maxHeight := 0));
  }

  lemma PrintNext(c: Config)
    requires Inv(c) && c.s.preds == Edge() && c.s.retain == c.s.cells.Keys && c.since > 0
    ensures Legal(c, PRINT)
    ensures Next(c, PRINT)
         == Config(Idle, c.s.(preds := NoEdge(), retain := {}, deepest := None,
                              maxMaxHeight := Max(c.s.maxMaxHeight, c.s.maxHeight)), c.marks, 0, c.since - 1)
  {
    AllEdges(c.s);
    PrintExact(c.s, ALL);
    ResetsEdge(c.s);
    hide Inv, Print, AfterReset;
  }

  lemma ResetsEdge(s: State)
    requires s.preds == Edge() && s.retain == s.cells.Keys <= s.preds.Keys
    ensures AfterReset(s, Elements(ALL)) == s.(preds := NoEdge(), retain := {})
  {
    var done := Elements(ALL);
    assert done == {0, 1, 2};
    assert AfterReset(s, done).cells == s.cells;
    assert AfterReset(s, done).preds == NoEdge();
    assert AfterReset(s, done).retain == {};
  }

  // Up to the first traversal.
  const FIRST := NEW + [BUILD, COLLECT]
  const COLLECTED := Config(Traversed, State(Edge(), map[1 := Cell(1, 1)], {1}, 1, 14, 1, Some(0), 0), {1, 2}, 1, 1)

  lemma FirstCollection()
    ensures Reaches(INITIAL, FIRST, COLLECTED)
  {
    hide *;
    var c := FirstBuilt();
    ReachesJoin(INITIAL, NEW + [BUILD], c, [COLLECT], COLLECTED);
    FirstIs();
  }

  // Before the first traversal.
  lemma FirstBuilt() returns (c: Config)
    ensures Reaches(INITIAL, NEW + [BUILD], c) && Reaches(c, [COLLECT], COLLECTED) && c.since == 0
    ensures c.phase == Built && c.s == State(Edge(), map[], {}, 0, 14, 0, None, 0)
  {
    hide *;
    Started();
    StartedInv();
    BuildNext(STARTED);
    ReachesOne(STARTED, BUILD);
    c := Next(STARTED, BUILD);
    ReachesInv(STARTED, [BUILD], c);
    BuiltStarted();
    ReachesJoin(INITIAL, NEW, STARTED, [BUILD], c);
    CollectNext(c);
    CollectedIs(c, Next(c, COLLECT));
    ReachesOne(c, COLLECT);
  }

  lemma CollectedIs(c: Config, d: Config)
    requires c.s == State(Edge(), map[], {}, 0, 14, 0, None, 0) && c.since == 0 && c.age == 0
    requires d == Config(Traversed,
                         c.s.(gc := c.s.gc + 1, cells := c.s.cells[1 := Cell(1, c.s.gc + 1)], retain := c.s.retain + {1},
                              maxHeight := 1, deepest := Some(0)),
                         {1, 2}, 1, 1)
    ensures d == COLLECTED
  {
  }

  lemma BuiltStarted()
    requires Inv(STARTED) && Legal(STARTED, BUILD)
    requires Next(STARTED, BUILD) == STARTED.(phase := Built, s := WithEdge(STARTED.s))
    ensures var c := Next(STARTED, BUILD);
            c.phase == Built && c.s == State(Edge(), map[], {}, 0, 14, 0, None, 0) && c.since == 0 && c.age == 0
  {
  }

  lemma StartedInv()
    ensures Inv(STARTED) && STARTED.s.preds == NoEdge() && STARTED.s.random == 13
  {
  }

  lemma FirstIs()
    ensures FIRST == NEW + [BUILD] + [COLLECT]
  {
  }
}
