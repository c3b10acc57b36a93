// The documented meaning of the printed number, in terms of the heap alone: the greatest
// length of a chain of unreachable objects that ends at a reachable one
// (doc/README.environment:85-96), where a chain whose first object was reachable before
// starts from the height remembered for that object. The objects of the chain are those that
// the build has scanned, and the reachable one is one that the traversal visits: with complete
// passes over the heap these are all objects. What was recorded before the build may be anything;
// the number printed means this exactly as long as no search comes to it.
module Documented {
  import opened Heights
  import opened Walks
  import opened Exactness
  import opened CycleFree
  import opened HeapScan
  import opened GraphModel
  import opened BuildProofs
  import opened TraverseProofs
  import opened AnyMarks
  import opened Cycles
  import opened Example
  import BlockScan

  // A chain of unmarked objects, each pointing to the next, the last one pointing to p.
  ghost predicate IsChainInto(heap: Heap, objects: set<Obj>, marked: set<Obj>, w: Walk, p: Obj) {
    && |w| > 0
    && (forall i :: 0 <= i < |w| ==> w[i] in objects && w[i] !in marked)
    && (forall i :: 0 <= i < |w| - 1 ==> PointsTo(heap, w[i], w[i + 1]))
    && PointsTo(heap, w[|w| - 1], p)
  }

  // The marks of a collection of the objects with debug info in `heap`.
  ghost predicate IsMarking(heap: Heap, objects: set<Obj>, marked: set<Obj>) {
    forall p, q :: p in objects && q in objects && p in marked && PointsTo(heap, p, q) ==> q in marked
  }

  // No chain of unmarked objects comes back to its start.
  ghost predicate NoUnmarkedCycle(heap: Heap, objects: set<Obj>, marked: set<Obj>) {
    forall w, p :: IsChainInto(heap, objects, marked, w, p) ==> w[0] != p
  }

  // The objects with debug info that a build scans, and those that it scans or the traversal
  // visits.
  ghost function BuiltFrom(c: Config, objs: seq<Obj>): set<Obj> {
    c.s.preds.Keys * Elements(objs)
  }

  ghost function Touched(c: Config, objs: seq<Obj>, order: seq<Obj>): set<Obj> {
    c.s.preds.Keys * (Elements(objs) + Elements(order))
  }

  // A legal collection with closed marks: the build scans `objs`, the traversal visits `order`.
  ghost predicate Collection(c: Config, heap: Heap, objs: seq<Obj>, marked: set<Obj>, order: seq<Obj>) {
    && Inv(c) && Legal(c, BuildGraph(heap, objs))
    && Legal(Next(c, BuildGraph(heap, objs)), Collect(marked, order))
    && IsMarking(heap, c.s.preds.Keys, marked) && Distinct(order)
  }

  // What is printed after a collection that starts in configuration c.
  ghost function Printed(c: Config, heap: Heap, objs: seq<Obj>, marked: set<Obj>, order: seq<Obj>): nat
    requires Collection(c, heap, objs, marked, order)
  {
    BuiltState(c, heap, objs);
    Traverse(Build(heap, c.s, objs), marked, order).maxHeight
  }

  // No edge that was recorded before leads to one of `objects` from another object to which a
  // search can come.
  ghost predicate NothingLeft(preds: Preds, objects: set<Obj>) {
    forall q, r :: q in objects && q in preds && r in preds[q] && r != q ==> !Searchable(preds, r)
  }

  // Nor from the object itself.
  ghost predicate NoLoopLeft(preds: Preds, objects: set<Obj>) {
    forall q :: q in objects && q in preds && q in preds[q] ==> !Searchable(preds, q)
  }

  // Where the objects of the collection have been reset, nothing is left and every collection is
  // legal.
  lemma ResetCollection(c: Config, heap: Heap, objs: seq<Obj>, marked: set<Obj>, order: seq<Obj>)
    requires Inv(c) && Legal(c, BuildGraph(heap, objs)) && IsMarking(heap, c.s.preds.Keys, marked) && Distinct(order)
    requires forall q :: q in Touched(c, objs, order) ==> c.s.preds[q] == []
    ensures Collection(c, heap, objs, marked, order)
    ensures NothingLeft(c.s.preds, Touched(c, objs, order)) && NoLoopLeft(c.s.preds, Touched(c, objs, order))
  {
    BuiltEdges(c, heap, objs);
    hide PointsTo, Inv, Legal, Grown, IsMarking;
    var b, within := Build(heap, c.s, objs), Touched(c, objs, order);
    TouchedCover(c, b, objs, marked, order);
    assert SearchSafe(b.preds, marked, order);
    SafeCollection(c, heap, objs, marked, order);
  }

  lemma TouchedCover(c: Config, b: State, objs: seq<Obj>, marked: set<Obj>, order: seq<Obj>)
    requires b.preds.Keys == c.s.preds.Keys
    requires forall q, p :: q in Touched(c, objs, order) && q in b.preds && p in b.preds[q] ==> p in BuiltFrom(c, objs)
    ensures Covers(b.preds, marked, order, Touched(c, objs, order))
  {
    var within := Touched(c, objs, order);
    forall q, i | q in within && 0 <= i < |b.preds[q]|
      ensures b.preds[q][i] in within
    {
      assert q in b.preds.Keys && b.preds[q][i] in b.preds[q];
      assert b.preds[q][i] in BuiltFrom(c, objs);
    }
  }

  lemma SafeCollection(c: Config, heap: Heap, objs: seq<Obj>, marked: set<Obj>, order: seq<Obj>)
    requires Inv(c) && Legal(c, BuildGraph(heap, objs)) && IsMarking(heap, c.s.preds.Keys, marked) && Distinct(order)
    requires SearchSafe(Build(heap, c.s, objs).preds, marked, order)
    ensures Collection(c, heap, objs, marked, order)
  {
  }

  // ----- What a build records -----

  // The recorded predecessors are those recorded before and the scanned objects that point there.
  lemma BuiltEdges(c: Config, heap: Heap, objs: seq<Obj>)
    requires Inv(c) && Legal(c, BuildGraph(heap, objs))
    ensures var b := Build(heap, c.s, objs);
            && Grown(c.s, b)
            && (forall p, q :: q in c.s.preds ==>
                  (p in b.preds[q] <==> p in c.s.preds[q] || (p in BuiltFrom(c, objs) && PointsTo(heap, p, q))))
  {
    BuildExact(heap, c.s, objs);
    hide Inv, ListsOk, Grown, PointsTo;
  }

  // A traversal can start.
  lemma BuiltState(c: Config, heap: Heap, objs: seq<Obj>)
    requires Inv(c) && Legal(c, BuildGraph(heap, objs))
    ensures var b := Build(heap, c.s, objs);
            && GraphOk(b) && Fresh(b.gc + 1, b.cells) && b.preds.Keys == c.s.preds.Keys
            && (forall p :: p in b.retain ==> b.cells[p].height > 0)
  {
    BuildInv(c, heap, objs);
    InvCanStart(Next(c, BuildGraph(heap, objs)));
  }

  lemma GrownBefore(s: State, b: State, p: Obj)
    requires Grown(s, b)
    ensures Before(b, p) == Before(s, p)
  {
  }

  // ----- Where the searches go -----

  // What the searches of a collection read, as far as it belongs to the collection and is not
  // marked.
  ghost function Inside(c: Config, objs: seq<Obj>, marked: set<Obj>, order: seq<Obj>, within: set<Obj>): set<Obj> {
    Touched(c, objs, order) * within - marked
  }

  ghost predicate IsEdge(c: Config, heap: Heap, objs: seq<Obj>, p: Obj, q: Obj) {
    p in BuiltFrom(c, objs) && PointsTo(heap, p, q)
  }

  // The edges among these objects are those of the heap, but for an object that is left as its
  // own predecessor; and so are the edges from these objects to a marked one that is visited.
  ghost predicate EdgesInside(c: Config, heap: Heap, objs: seq<Obj>, marked: set<Obj>, order: seq<Obj>, b: State,
                              inside: set<Obj>) {
    && Covers(b.preds, marked, order, inside) && inside <= Touched(c, objs, order) - marked && b.preds.Keys == c.s.preds.Keys
    && (forall p, q :: q in b.preds && IsEdge(c, heap, objs, p, q) ==> p in b.preds[q])
    && (forall p, q :: q in inside && p in b.preds[q] && (p != q || NoLoopLeft(c.s.preds, Touched(c, objs, order))) ==>
          IsEdge(c, heap, objs, p, q))
    && (forall p, q :: q in order && q in marked && q in b.preds && p in b.preds[q] && p !in marked && p in b.preds ==>
          IsEdge(c, heap, objs, p, q))
  }

  lemma CollectionInside(c: Config, heap: Heap, objs: seq<Obj>, marked: set<Obj>, order: seq<Obj>) returns (inside: set<Obj>)
    requires Collection(c, heap, objs, marked, order) && NothingLeft(c.s.preds, Touched(c, objs, order))
    ensures EdgesInside(c, heap, objs, marked, order, Build(heap, c.s, objs), inside)
    ensures CanTraverse(Build(heap, c.s, objs), marked, inside, order)
  {
    hide *;
    CollectionHas(c, heap, objs, marked, order);
    var b := Build(heap, c.s, objs);
    BuiltEdges(c, heap, objs);
    BuiltState(c, heap, objs);
    var within := SearchedSet(b.preds, marked, order);
    inside := Inside(c, objs, marked, order, within);
    StillClosed(c.s, b, within);
    InsideEdges(c, heap, objs, marked, order, b, within);
    InsideTraverses(c, heap, objs, marked, order, b, inside);
  }

  lemma CollectionHas(c: Config, heap: Heap, objs: seq<Obj>, marked: set<Obj>, order: seq<Obj>)
    requires Collection(c, heap, objs, marked, order)
    ensures Inv(c) && Legal(c, BuildGraph(heap, objs)) && IsMarking(heap, c.s.preds.Keys, marked) && Distinct(order)
    ensures WellSized(heap) && (forall p :: p in objs ==> p in heap.objects)
    ensures SearchSafe(Build(heap, c.s, objs).preds, marked, order)
  {
  }

  lemma SearchedSet(preds: Preds, marked: set<Obj>, order: seq<Obj>) returns (within: set<Obj>)
    requires SearchSafe(preds, marked, order)
    ensures Covers(preds, marked, order, within) && PredClosed(preds, within)
  {
    within :| Covers(preds, marked, order, within);
  }

  lemma InsideTraverses(c: Config, heap: Heap, objs: seq<Obj>, marked: set<Obj>, order: seq<Obj>, b: State, inside: set<Obj>)
    requires EdgesInside(c, heap, objs, marked, order, b, inside) && Distinct(order)
    requires GraphOk(b) && Fresh(b.gc + 1, b.cells) && (forall p :: p in b.retain ==> b.cells[p].height > 0)
    ensures CanTraverse(b, marked, inside, order)
  {
    hide Covers, IsEdge, Fresh;
  }

  lemma InsideEdges(c: Config, heap: Heap, objs: seq<Obj>, marked: set<Obj>, order: seq<Obj>, b: State, within: set<Obj>)
    requires IsMarking(heap, c.s.preds.Keys, marked) && NothingLeft(c.s.preds, Touched(c, objs, order))
    requires b.preds.Keys == c.s.preds.Keys && Covers(b.preds, marked, order, within)
    requires forall p, q :: q in c.s.preds ==>
               (p in b.preds[q] <==> p in c.s.preds[q] || (p in BuiltFrom(c, objs) && PointsTo(heap, p, q)))
    requires forall r :: r in within ==> Searchable(c.s.preds, r)
    ensures EdgesInside(c, heap, objs, marked, order, b, Inside(c, objs, marked, order, within))
  {
    hide PointsTo, Searchable;
    var inside := Inside(c, objs, marked, order, within);
    forall p, q | q in inside && p in b.preds[q]
      ensures p in inside
      ensures p != q || NoLoopLeft(c.s.preds, Touched(c, objs, order)) ==> IsEdge(c, heap, objs, p, q)
    {
      var i :| 0 <= i < |b.preds[q]| && b.preds[q][i] == p;
      assert p in within && Searchable(c.s.preds, p);
      if p != q {
        assert p !in c.s.preds[q];
      }
      assert p == q || p in BuiltFrom(c, objs);
    }
    forall p, q | q in order && q in marked && q in b.preds && p in b.preds[q] && p !in marked && p in b.preds
      ensures p in inside && IsEdge(c, heap, objs, p, q)
    {
      assert q in Touched(c, objs, order) && p in within && Searchable(c.s.preds, p);
      assert p !in c.s.preds[q];
      assert p in BuiltFrom(c, objs);
    }
    assert PredClosed(b.preds, inside) by {
      forall q, i | q in inside && 0 <= i < |b.preds[q]|
        ensures b.preds[q][i] in inside
      {
        assert b.preds[q][i] in b.preds[q];
      }
    }
  }

  // What is closed under the recorded predecessors was so before the build.
  lemma StillClosed(s: State, b: State, within: set<Obj>)
    requires Grown(s, b) && PredClosed(b.preds, within)
    ensures forall r :: r in within ==> Searchable(s.preds, r)
  {
    forall q, i | q in within && 0 <= i < |s.preds[q]|
      ensures s.preds[q][i] in within
    {
      assert b.preds[q][i] == s.preds[q][i];
    }
    assert PredClosed(s.preds, within);
  }

  // ----- Walks and chains -----

  // A walk along the recorded edges to an unmarked predecessor of p.
  ghost predicate IsWalkInto(preds: Preds, marked: set<Obj>, w: Walk, p: Obj) {
    && |w| > 0 && IsWalk(preds, w)
    && p in preds && w[|w| - 1] in preds[p] && w[|w| - 1] !in marked
  }

  // The chains into a marked object that is visited are the walks along recorded edges to an
  // unmarked predecessor that never stay at an object.
  lemma {:induction false} WalkIsChain(c: Config, heap: Heap, objs: seq<Obj>, marked: set<Obj>, order: seq<Obj>, w: Walk, p: Obj)
    requires Collection(c, heap, objs, marked, order) && NothingLeft(c.s.preds, Touched(c, objs, order))
    requires p in marked && p in order && p in c.s.preds
    ensures var b := Build(heap, c.s, objs);
            && (IsChainInto(heap, BuiltFrom(c, objs), marked, w, p) ==> IsWalkInto(b.preds, marked, w, p))
            && (Moves(w) && IsWalkInto(b.preds, marked, w, p) ==> IsChainInto(heap, BuiltFrom(c, objs), marked, w, p))
  {
    hide *;
    CollectionHas(c, heap, objs, marked, order);
    var inside := CollectionInside(c, heap, objs, marked, order);
    EdgesKeys(c, heap, objs, marked, order, Build(heap, c.s, objs), inside);
    if IsChainInto(heap, BuiltFrom(c, objs), marked, w, p) {
      ChainRecorded(c, heap, objs, marked, Build(heap, c.s, objs), w, p);
    }
    if Moves(w) && IsWalkInto(Build(heap, c.s, objs).preds, marked, w, p) {
      WalkChains(c, heap, objs, marked, order, Build(heap, c.s, objs), inside, w, p);
    }
  }

  lemma EdgesKeys(c: Config, heap: Heap, objs: seq<Obj>, marked: set<Obj>, order: seq<Obj>, b: State, inside: set<Obj>)
    requires EdgesInside(c, heap, objs, marked, order, b, inside)
    ensures b.preds.Keys == c.s.preds.Keys
    ensures forall x, q :: q in b.preds && IsEdge(c, heap, objs, x, q) ==> x in b.preds[q]
  {
  }

  lemma WalkChains(c: Config, heap: Heap, objs: seq<Obj>, marked: set<Obj>, order: seq<Obj>, b: State, inside: set<Obj>,
                   w: Walk, p: Obj)
    requires EdgesInside(c, heap, objs, marked, order, b, inside) && p in marked && p in order
    requires IsWalkInto(b.preds, marked, w, p)
    requires Moves(w) || NoLoopLeft(c.s.preds, Touched(c, objs, order))
    ensures IsChainInto(heap, BuiltFrom(c, objs), marked, w, p)
  {
    hide PointsTo, NoLoopLeft;
    WalkInside(b.preds, inside, w, w[|w| - 1]);
    assert IsEdge(c, heap, objs, w[|w| - 1], p);
    StepsAreEdges(c, heap, objs, marked, order, b, inside, w);
    EdgesMakeChain(c, heap, objs, marked, w, p);
  }

  lemma EdgesMakeChain(c: Config, heap: Heap, objs: seq<Obj>, marked: set<Obj>, w: Walk, p: Obj)
    requires |w| > 0 && IsEdge(c, heap, objs, w[|w| - 1], p)
    requires forall i :: 0 <= i < |w| - 1 ==> IsEdge(c, heap, objs, w[i], w[i + 1])
    requires forall i :: 0 <= i < |w| ==> w[i] !in marked
    ensures IsChainInto(heap, BuiltFrom(c, objs), marked, w, p)
  {
    hide PointsTo;
    forall i | 0 <= i < |w|
      ensures w[i] in BuiltFrom(c, objs)
    {
      assert i < |w| - 1 ==> IsEdge(c, heap, objs, w[i], w[i + 1]);
    }
  }

  lemma StepsAreEdges(c: Config, heap: Heap, objs: seq<Obj>, marked: set<Obj>, order: seq<Obj>, b: State, inside: set<Obj>,
                      w: Walk)
    requires EdgesInside(c, heap, objs, marked, order, b, inside) && IsWalk(b.preds, w)
    requires forall i :: 0 <= i < |w| ==> w[i] in inside
    requires Moves(w) || NoLoopLeft(c.s.preds, Touched(c, objs, order))
    ensures forall i :: 0 <= i < |w| - 1 ==> IsEdge(c, heap, objs, w[i], w[i + 1])
    ensures forall i :: 0 <= i < |w| ==> w[i] !in marked
  {
    hide PointsTo, NoLoopLeft, Covers, IsEdge;
    forall i | 0 <= i < |w| - 1
      ensures IsEdge(c, heap, objs, w[i], w[i + 1])
    {
      assert w[i] in b.preds[w[i + 1]];
    }
  }

  // ----- The number printed -----

  // The number printed is not invented: unless it is 0 it is a height remembered for a visited
  // marked object, or the weight of a real chain of unmarked objects into one, which repeats no
  // object with a structure and no other object without one in between.
  ghost predicate Attained(c: Config, heap: Heap, objs: seq<Obj>, marked: set<Obj>, order: seq<Obj>)
    requires Collection(c, heap, objs, marked, order)
  {
    var h := Printed(c, heap, objs, marked, order);
    || h == 0
    || (exists p :: p in marked && p in order && p in c.s.preds && Before(c.s, p) == h)
    || (exists w, p :: p in marked && p in order && p in c.s.preds && IsChainInto(heap, BuiltFrom(c, objs), marked, w, p)
                       && Simple(Build(heap, c.s, objs).cells.Keys, w) && Weight(Base(c.s.cells), w) == h)
  }

  // That is so when nothing is left among the objects of the collection.
  lemma PrintedIsAttained(c: Config, heap: Heap, objs: seq<Obj>, marked: set<Obj>, order: seq<Obj>)
    requires Collection(c, heap, objs, marked, order) && NothingLeft(c.s.preds, Touched(c, objs, order))
    ensures Attained(c, heap, objs, marked, order)
  {
    var b := Build(heap, c.s, objs);
    CollectionHas(c, heap, objs, marked, order);
    BuiltEdges(c, heap, objs);
    BuiltState(c, heap, objs);
    var inside := CollectionInside(c, heap, objs, marked, order);
    TraverseReports(b, marked, inside, order);
    var t := Traverse(b, marked, order);
    if t.maxHeight > 0 {
      var p :| p in marked && p in order && p in b.preds && KeptHeight(t, p) == t.maxHeight;
      assert p in t.retain && Explained(b, marked, p, t.maxHeight);
      hide Collection, NothingLeft, EdgesInside, IsChainInto, Explained, IsGreatestKept, AllExplained, Reported, CanTraverse;
      ExplainedByChain(c, heap, objs, marked, order, p, t.maxHeight);
    }
  }

  // What explains a height of the traversal is the past or a chain.
  lemma ExplainedByChain(c: Config, heap: Heap, objs: seq<Obj>, marked: set<Obj>, order: seq<Obj>, p: Obj, h: nat)
    requires Collection(c, heap, objs, marked, order) && NothingLeft(c.s.preds, Touched(c, objs, order))
    requires p in marked && p in order && p in c.s.preds
    requires var b := Build(heap, c.s, objs); p in b.preds && Explained(b, marked, p, h)
    ensures || Before(c.s, p) == h
            || (exists w :: IsChainInto(heap, BuiltFrom(c, objs), marked, w, p)
                         && Simple(Build(heap, c.s, objs).cells.Keys, w) && Weight(Base(c.s.cells), w) == h)
  {
    var b := Build(heap, c.s, objs);
    CollectionHas(c, heap, objs, marked, order);
    BuiltEdges(c, heap, objs);
    GrownBefore(c.s, b, p);
    hide Collection, NothingLeft, IsChainInto, Grown, PointsTo, Inv, Legal, SearchSafe, IsMarking;
    if h != Before(b, p) {
      var q :| q in b.preds[p] && q !in marked && HasWalk(b.preds, Base(b.cells), q, h);
      var w :| IsWalkTo(b.preds, w, q) && Simple(b.cells.Keys, w) && Weight(Base(b.cells), w) == h;
      SimpleMoves(b.cells.Keys, w);
      assert IsWalkInto(b.preds, marked, w, p);
      WalkIsChain(c, heap, objs, marked, order, w, p);
      GrownBefore(c.s, b, w[0]);
    }
  }

  // The recorded edges that the searches read form no cycle.
  ghost predicate NoCycleRead(preds: Preds, marked: set<Obj>, order: seq<Obj>) {
    exists within :: Covers(preds, marked, order, within) && Acyclic(preds, within)
  }

  // That is so where scanned unreachable objects form no cycle and nothing is left.
  lemma NoCycleLeft(c: Config, heap: Heap, objs: seq<Obj>, marked: set<Obj>, order: seq<Obj>)
    requires Collection(c, heap, objs, marked, order) && NoUnmarkedCycle(heap, BuiltFrom(c, objs), marked)
    requires NothingLeft(c.s.preds, Touched(c, objs, order)) && NoLoopLeft(c.s.preds, Touched(c, objs, order))
    ensures NoCycleRead(Build(heap, c.s, objs).preds, marked, order)
  {
    CollectionHas(c, heap, objs, marked, order);
    var inside := CollectionInside(c, heap, objs, marked, order);
    InsideAcyclic(c, heap, objs, marked, order, Build(heap, c.s, objs), inside);
    hide Acyclic, Collection, NothingLeft, NoLoopLeft, NoUnmarkedCycle, CanTraverse;
  }

  // Whatever was recorded before: where the edges that the searches read form no cycle, every
  // height remembered for a visited marked object and every chain of scanned unmarked objects into
  // one is at most the number printed. With PrintedIsAttained it is their maximum, for every order
  // of visits and every choice of structures.
  lemma PrintedIsUpperBound(c: Config, heap: Heap, objs: seq<Obj>, marked: set<Obj>, order: seq<Obj>)
    requires Collection(c, heap, objs, marked, order)
    requires NoCycleRead(Build(heap, c.s, objs).preds, marked, order)
    ensures var h := Printed(c, heap, objs, marked, order);
            && (forall p :: p in marked && p in order && p in c.s.preds ==> Before(c.s, p) <= h)
            && (forall w, p :: p in marked && p in order && p in c.s.preds && IsChainInto(heap, BuiltFrom(c, objs), marked, w, p) ==>
                  Weight(Base(c.s.cells), w) <= h)
  {
    var b := Build(heap, c.s, objs);
    CollectionHas(c, heap, objs, marked, order);
    BuiltEdges(c, heap, objs);
    BuiltState(c, heap, objs);
    var within :| Covers(b.preds, marked, order, within) && Acyclic(b.preds, within);
    var rank := AcyclicRanked(b.preds, within);
    TraverseDominates(b, marked, order, within, rank);
    TraverseBounded(b, marked, order);
    var t := Traverse(b, marked, order);
    hide Collection, IsChainInto, Ranked, Acyclic, NoCycleRead, Covers, PointsTo, Traverse, GraphOk, Inv;
    forall p | p in marked && p in order && p in c.s.preds
      ensures Before(c.s, p) <= t.maxHeight
    {
      GrownBefore(c.s, b, p);
      KeptBefore(b.(gc := b.gc + 1, maxHeight := 0), marked, order, t, p);
    }
    forall w, p | p in marked && p in order && p in c.s.preds && IsChainInto(heap, BuiltFrom(c, objs), marked, w, p)
      ensures Weight(Base(c.s.cells), w) <= t.maxHeight
    {
      ChainRecorded(c, heap, objs, marked, b, w, p);
      GrownBefore(c.s, b, w[0]);
      ChainBelow(b, marked, w, p, t.maxHeight);
    }
  }

  lemma KeptBefore(s0: State, marked: set<Obj>, order: seq<Obj>, t: State, p: Obj)
    requires Bounded(s0, marked, Elements(order), t) && p in marked && p in order && p in s0.preds
    ensures Before(s0, p) <= t.maxHeight
  {
    hide HasHolder, Covered, GraphOk;
  }

  // A chain of scanned objects is recorded.
  lemma ChainRecorded(c: Config, heap: Heap, objs: seq<Obj>, marked: set<Obj>, b: State, w: Walk, p: Obj)
    requires b.preds.Keys == c.s.preds.Keys && p in b.preds && IsChainInto(heap, BuiltFrom(c, objs), marked, w, p)
    requires forall x, q :: q in b.preds && IsEdge(c, heap, objs, x, q) ==> x in b.preds[q]
    ensures IsWalkInto(b.preds, marked, w, p) && (forall i :: 0 <= i < |w| ==> w[i] !in marked)
  {
    hide PointsTo;
    forall i | 0 <= i < |w| - 1
      ensures w[i] in b.preds && w[i] in b.preds[w[i + 1]]
    {
      assert IsEdge(c, heap, objs, w[i], w[i + 1]);
    }
    assert IsEdge(c, heap, objs, w[|w| - 1], p);
  }

  lemma ChainBelow(b: State, marked: set<Obj>, w: Walk, p: Obj, h: nat)
    requires IsWalkInto(b.preds, marked, w, p) && (forall i :: 0 <= i < |w| ==> w[i] !in marked)
    requires AllBelow(RestrictPreds(b.preds, b.preds.Keys - marked), marked, Base(b.cells), b.preds[p], h)
    ensures Weight(Base(b.cells), w) <= h
  {
    var q := w[|w| - 1];
    var i :| 0 <= i < |b.preds[p]| && b.preds[p][i] == q;
    assert IsWalkTo(RestrictPreds(b.preds, b.preds.Keys - marked), w, q);
  }

  lemma InsideAcyclic(c: Config, heap: Heap, objs: seq<Obj>, marked: set<Obj>, order: seq<Obj>, b: State, inside: set<Obj>)
    requires EdgesInside(c, heap, objs, marked, order, b, inside) && NoLoopLeft(c.s.preds, Touched(c, objs, order))
    requires NoUnmarkedCycle(heap, BuiltFrom(c, objs), marked)
    ensures Acyclic(b.preds, inside)
  {
    hide NoLoopLeft, PointsTo;
    forall v | IsWalk(b.preds, v) && |v| > 1 && v[|v| - 1] in inside
      ensures v[0] != v[|v| - 1]
    {
      WalkInside(b.preds, inside, v, v[|v| - 1]);
      StepsAreEdges(c, heap, objs, marked, order, b, inside, v);
      var w, p := v[..|v| - 1], v[|v| - 1];
      assert IsEdge(c, heap, objs, v[|v| - 2], v[|v| - 2 + 1]);
      forall i | 0 <= i < |w| - 1
        ensures IsEdge(c, heap, objs, w[i], w[i + 1])
      {
        assert IsEdge(c, heap, objs, v[i], v[i + 1]);
      }
      EdgesMakeChain(c, heap, objs, marked, w, p);
    }
    InsideClosed(b.preds, inside);
  }

  lemma InsideClosed(preds: Preds, inside: set<Obj>)
    requires PredClosed(preds, inside)
    ensures forall p, q :: p in inside && q in preds[p] ==> q in inside
  {
  }

  // Objects 0 and 1 of a heap, one pointing to the other, may be numbers 8 and 9 of a block of
  // objects of 64 bytes. The passes over the heap visit neither, and the chain is not counted.
  lemma PassMissesChain()
    ensures BlockScan.VisitedInBlock(64) == 8 && BlockScan.ObjectsInBlock(64) == 64
    ensures Collection(STARTED, ThreeObjects(), [2], {1, 2}, [2])
    ensures IsChainInto(ThreeObjects(), STARTED.s.preds.Keys, {1, 2}, [0], 1)
    ensures Printed(STARTED, ThreeObjects(), [2], {1, 2}, [2]) == 0
  {
    hide *;
    MissedObjects();
    PassLegal();
    EdgePoints();
    ResetCollection(STARTED, ThreeObjects(), [2], {1, 2}, [2]);
    NothingPrinted();
  }

  lemma MissedObjects()
    ensures BlockScan.VisitedInBlock(64) == 8 && BlockScan.ObjectsInBlock(64) == 64
  {
  }

  lemma PassLegal()
    ensures Inv(STARTED) && Legal(STARTED, BuildGraph(ThreeObjects(), [2])) && Distinct([2])
    ensures IsMarking(ThreeObjects(), STARTED.s.preds.Keys, {1, 2}) && STARTED.s.preds == NoEdge()
    ensures forall q :: q in Touched(STARTED, [2], [2]) ==> STARTED.s.preds[q] == []
    ensures IsChainInto(ThreeObjects(), STARTED.s.preds.Keys, {1, 2}, [0], 1)
  {
    StartedInv();
    EdgePoints();
    hide PointsTo;
  }

  lemma EdgePoints()
    ensures forall p, q :: PointsTo(ThreeObjects(), p, q) <==> p == 0 && q == 1
  {
    assert PointsAt(ThreeObjects(), 0, 6, 1);
  }

  lemma NothingPrinted()
    requires Collection(STARTED, ThreeObjects(), [2], {1, 2}, [2]) && NothingLeft(NoEdge(), Touched(STARTED, [2], [2]))
    ensures Printed(STARTED, ThreeObjects(), [2], {1, 2}, [2]) == 0
  {
    EdgePoints();
    PrintedIsAttained(STARTED, ThreeObjects(), [2], {1, 2}, [2]);
  }
}
