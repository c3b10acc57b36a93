// An edge that dangles because a print is skipped (finalize.c:1353, 1368).
module Dangling {
  import opened Options
  import opened Heights
  import opened HeapScan
  import opened GraphModel
  import opened BuildProofs
  import opened TraverseProofs
  import opened Cycles
  import opened Example

  // Object 0 points to object 1, and object 1 to object 2.
  function Chain(): Heap {
    Heap(map[0 := HeapObject([0, 0, 0, 0, 0, 0, 8], Other), 1 := HeapObject([0, 0, 0, 0, 0, 0, 16], Other),
             2 := HeapObject([], Other)],
         map[8 := 1, 16 := 2], 0, 16)
  }

  const BUILD_CHAIN := BuildGraph(Chain(), ALL)
  const DROP := DropObject(0)
  const REBUILD := BuildGraph(Chain(), [1, 2])

  // Object 2 is marked; then object 0, which is not, is swept before anything is printed, and the
  // next collection builds on what is recorded.
  const DROPPED := NEW + [BUILD_CHAIN, QUIET, DROP, REBUILD]

  lemma ChainPoints(p: Obj, q: Obj)
    ensures PointsTo(Chain(), p, q) <==> (p == 0 && q == 1) || (p == 1 && q == 2)
  {
    var words := [0, 0, 0, 0, 0, 0, 8];
    if p == 0 && q == 1 {
      assert PointsAt(Chain(), 0, 6, 1);
    }
    if p == 1 && q == 2 {
      assert PointsAt(Chain(), 1, 6, 2);
    }
  }

  lemma ChainRecorded(b: State)
    requires b == Build(Chain(), STARTED.s, ALL)
    ensures ListsOk(b) && NoDangling(b) && HasBuilt(Chain(), STARTED.s, b, ALL)
  {
    assert WellSized(Chain());
    BuildExact(Chain(), STARTED.s, ALL);
    BuildKeepsEdges(Chain(), STARTED.s, ALL);
  }

  lemma ChainBuilt(b: State)
    requires b == Build(Chain(), STARTED.s, ALL)
    ensures ListsOk(b) && NoDangling(b) && b.preds.Keys == {0, 1, 2} && b.retain == {} && b.deepest == None
    ensures forall p, q :: q in b.preds ==> (p in b.preds[q] <==> (p == 0 && q == 1) || (p == 1 && q == 2))
    ensures forall c :: c in b.cells ==> b.cells[c].height == HEIGHT_UNKNOWN
  {
    ChainRecorded(b);
    ChainShape(b);
    forall p, q | q in b.preds
      ensures p in b.preds[q] <==> (p == 0 && q == 1) || (p == 1 && q == 2)
    {
      ChainPoints(p, q);
      ChainEdge(b, p, q);
    }
    hide HasBuilt, Build, PointsTo;
  }

  lemma ChainShape(b: State)
    requires HasBuilt(Chain(), STARTED.s, b, ALL)
    ensures b.preds.Keys == {0, 1, 2} && b.retain == {} && b.deepest == None
    ensures forall c :: c in b.cells ==> b.cells[c].height == HEIGHT_UNKNOWN
  {
    hide PointsTo;
  }

  lemma ChainEdge(b: State, p: Obj, q: Obj)
    requires HasBuilt(Chain(), STARTED.s, b, ALL) && q in b.preds
    requires PointsTo(Chain(), p, q) <==> (p == 0 && q == 1) || (p == 1 && q == 2)
    ensures p in b.preds[q] <==> (p == 0 && q == 1) || (p == 1 && q == 2)
  {
    hide PointsTo;
    assert 0 in ALL && 1 in ALL && 2 in ALL;
  }

  lemma ChainTraverses(b: State)
    requires ListsOk(b) && NoDangling(b) && b.preds.Keys == {0, 1, 2} && b.retain == {}
    requires forall p, q :: q in b.preds ==> (p in b.preds[q] <==> (p == 0 && q == 1) || (p == 1 && q == 2))
    requires forall c :: c in b.cells ==> b.cells[c].height == HEIGHT_UNKNOWN
    ensures GraphOk(b) && CanTraverse(b, {2}, {0, 1}, ALL)
  {
    forall q, i | q in {0, 1} && 0 <= i < |b.preds[q]|
      ensures b.preds[q][i] in {0, 1}
    {
      assert b.preds[q][i] in b.preds[q];
    }
    assert Covers(b.preds, {2}, ALL, {0, 1});
  }

  // The traversal keeps object 1 to be printed, not object 0.
  lemma ChainHolder(b: State)
    requires b == Build(Chain(), STARTED.s, ALL)
    ensures GraphOk(b) && Traverse(b, {2}, ALL).deepest != Some(0)
  {
    ChainBuilt(b);
    hide Build;
    ChainTraverses(b);
    TraverseReports(b, {2}, {0, 1}, ALL);
    hide Traverse, IsGreatestKept, AllExplained, HasWalk, CanTraverse;
  }

  // Object 1 has the predecessor 0, and object 2 the predecessor 1.
  ghost predicate ChainIn(s: State) {
    1 in s.preds && 2 in s.preds && 0 in s.preds[1] && 1 in s.preds[2]
  }

  lemma FirstBuild() returns (c: Config)
    ensures Reaches(STARTED, [BUILD_CHAIN], c) && Inv(c) && c.phase == Built && c.s == Build(Chain(), STARTED.s, ALL)
    ensures ChainIn(c.s) && NoDangling(c.s)
  {
    StartedInv();
    ChainBuilt(Build(Chain(), STARTED.s, ALL));
    assert Legal(STARTED, BUILD_CHAIN);
    ReachesOne(STARTED, BUILD_CHAIN);
    c := Next(STARTED, BUILD_CHAIN);
    ReachesInv(STARTED, [BUILD_CHAIN], c);
    hide Build, Reaches, Inv;
  }

  lemma QuietPass(c: Config) returns (d: Config)
    requires Inv(c) && c.phase == Built && c.s == Build(Chain(), STARTED.s, ALL) && ChainIn(c.s) && NoDangling(c.s)
    ensures Reaches(c, [QUIET], d) && Inv(d) && d.s.deepest != Some(0) && d.s.preds == c.s.preds
  {
    ChainHolder(c.s);
    NoDanglingSafe(c.s, {2}, ALL);
    ReachesOne(c, QUIET);
    d := Next(c, QUIET);
    ReachesInv(c, [QUIET], d);
    hide Build, Reaches, Inv, Traverse;
  }

  lemma SweepAndBuild(c: Config) returns (d: Config, e: Config)
    requires Inv(c) && ChainIn(c.s)
    ensures Reaches(c, [DROP], d) && Reaches(d, [REBUILD], e)
    ensures e.phase == Built && ChainIn(e.s) && 0 !in e.s.preds
  {
    ReachesOne(c, DROP);
    d := Next(c, DROP);
    ReachesInv(c, [DROP], d);
    assert ChainIn(d.s) && 0 !in d.s.preds;
    assert WellSized(Chain()) && Legal(d, REBUILD);
    BuildInv(d, Chain(), [1, 2]);
    ReachesOne(d, REBUILD);
    e := Next(d, REBUILD);
    hide Reaches, Inv, Build;
  }

  // A legal run from the start after which the next traversal reads the header of a freed
  // object: the print after the first collection is skipped, and an unmarked object that no
  // holder needs is swept.
  lemma DropAfterSkippedPrint() returns (c: Config)
    ensures Reaches(INITIAL, DROPPED, c)
    ensures c.phase == Built && 0 !in c.s.preds && !SearchSafe(c.s.preds, {2}, ALL)
  {
    hide *;
    Started();
    var c1 := FirstBuild();
    var c2 := QuietPass(c1);
    SameChain(c1.s, c2.s);
    var c3, c4 := SweepAndBuild(c2);
    c := c4;
    ReachesJoin(STARTED, [BUILD_CHAIN], c1, [QUIET], c2);
    ReachesJoin(STARTED, [BUILD_CHAIN] + [QUIET], c2, [DROP], c3);
    ReachesJoin(STARTED, [BUILD_CHAIN] + [QUIET] + [DROP], c3, [REBUILD], c4);
    ReachesJoin(INITIAL, NEW, STARTED, [BUILD_CHAIN] + [QUIET] + [DROP] + [REBUILD], c4);
    DroppedIs();
    Unsafe(c.s);
  }

  lemma SameChain(s: State, t: State)
    requires ChainIn(s) && t.preds == s.preds
    ensures ChainIn(t)
  {
  }

  lemma DroppedIs()
    ensures NEW + ([BUILD_CHAIN] + [QUIET] + [DROP] + [REBUILD]) == DROPPED
  {
  }

  lemma Unsafe(s: State)
    requires ChainIn(s) && 0 !in s.preds
    ensures !SearchSafe(s.preds, {2}, ALL)
  {
    var i :| 0 <= i < |s.preds[1]| && s.preds[1][i] == 0;
    assert 2 in ALL;
  }
}
