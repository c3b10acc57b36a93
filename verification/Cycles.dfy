// Runs of the back graph over any number of collections, with objects coming and going.
module Cycles {
  import opened Options
  import opened Heights
  import opened Exactness
  import opened HeapScan
  import opened GraphModel
  import opened BuildProofs
  import opened AnyMarks

  // ----- What a reset does (backgraph.c:299-333, 474-494) -----

  ghost function AfterReset(s: State, done: set<Obj>): State {
    s.(preds := map q | q in s.preds :: if q in done then [] else s.preds[q],
       cells := map c | c in s.cells && (c in done ==> c in s.retain) :: s.cells[c],
       retain := s.retain - done)
  }

  lemma {:induction false} ResetAllExact(s: State, done: set<Obj>, objs: seq<Obj>)
    requires s.retain <= s.cells.Keys <= s.preds.Keys
    requires Distinct(objs) && (forall p :: p in objs ==> p !in done)
    ensures ResetAll(AfterReset(s, done), objs) == AfterReset(s, done + Elements(objs))
    decreases |objs|
  {
    if objs == [] {
      assert done + Elements(objs) == done;
    } else {
      ElementsSplit(objs, done);
      ResetStep(s, done, objs[0]);
      ResetAllExact(s, done + {objs[0]}, objs[1..]);
    }
  }

  lemma ResetStep(s: State, done: set<Obj>, p: Obj)
    requires s.retain <= s.cells.Keys <= s.preds.Keys && p !in done
    ensures ResetObject(AfterReset(s, done), p) == AfterReset(s, done + {p})
  {
    var t, t' := ResetObject(AfterReset(s, done), p), AfterReset(s, done + {p});
    assert t.preds == t'.preds;
    assert t.cells == t'.cells;
    assert t.retain == t'.retain;
  }

  // After printing, the objects that were visited have no predecessor and no RETAIN flag, those
  // of them that were retained still own a structure, with the height they had, and no other
  // object has changed.
  lemma PrintExact(s: State, objs: seq<Obj>)
    requires s.retain <= s.cells.Keys <= s.preds.Keys && Distinct(objs)
    ensures Print(s, objs)
         == AfterReset(s, Elements(objs)).(deepest := None, maxMaxHeight := Max(s.maxMaxHeight, s.maxHeight))
  {
    var s1 := s.(maxMaxHeight := Max(s.maxMaxHeight, s.maxHeight));
    assert AfterReset(s1, {}) == s1 by {
      assert AfterReset(s1, {}).preds == s1.preds;
      assert AfterReset(s1, {}).cells == s1.cells;
    }
    ResetAllExact(s1, {}, objs);
    assert {} + Elements(objs) == Elements(objs);
  }

  // ----- Events -----

  // Idle       nothing recorded
  // Built      predecessors recorded, marking still to come
  // Traversed  marked, GC_gc_no incremented, heights computed
  // Partly     printed, but some objects were not reset
  datatype Phase = Idle | Built | Traversed | Partly

  // The sequences are the objects that a pass over the heap visits.
  datatype Event =
    | BuildGraph(heap: Heap, objs: seq<Obj>)
    | Collect(marked: set<Obj>, order: seq<Obj>)
    | PrintStats(all: seq<Obj>)
    | NewObject(added: Obj)
    | DropObject(gone: Obj)

  // marks  the mark bits at the start of the latest traversal
  // since  the number of traversals since the latest print that visited all objects with a height
  // age    no remembered height is from an earlier traversal than the latest but `age`
  datatype Config = Config(phase: Phase, s: State, marks: set<Obj>, since: nat, age: nat)

  const INITIAL := Config(Idle, State(map[], map[], {}, 0, 13, 0, None, 0), {}, 0, 0)

  // A pass visits every object with debug info.
  predicate VisitsAll(objs: seq<Obj>, s: State) {
    s.preds.Keys <= Elements(objs)
  }

  // A pass visits every object that has a height.
  predicate VisitsHeights(objs: seq<Obj>, s: State) {
    forall c :: c in s.cells && s.cells[c].height != HEIGHT_UNKNOWN ==> c in objs
  }

  // When an event may happen. A pass may visit any objects (backgraph.c:280-297), and the marks
  // may be anything. A build may follow a build, because marking can be abandoned
  // (alloc.c:812-833), and it may follow a traversal, because a print can be skipped
  // (finalize.c:1353, 1368). The one condition on the program is that no search reads the header
  // of an object that has been freed.
  ghost predicate Legal(c: Config, e: Event) {
    match e
    case BuildGraph(heap, objs) => WellSized(heap) && (forall p :: p in objs ==> p in heap.objects)
    case Collect(marked, order) => c.phase == Built && SearchSafe(c.s.preds, marked, order)
    case PrintStats(all) => Distinct(all)
    case NewObject(p) => p !in c.s.preds
    case DropObject(_) => true
  }

  // Heights are unknown or come from one of the latest traversals; those with the RETAIN flag
  // come from a traversal since the latest print that visited all objects with a height.
  ghost predicate HeightsOk(s: State, since: nat, age: nat) {
    && (forall c :: c in s.cells ==>
          s.cells[c].height == HEIGHT_UNKNOWN || (0 < s.cells[c].height && s.gc - age <= s.cells[c].cycle <= s.gc))
    && (forall c :: c in s.retain ==> c in s.cells && s.cells[c].height > 0 && s.gc - since < s.cells[c].cycle)
  }

  // After a print nothing is recorded, and only remembered heights are left.
  ghost predicate ResetOk(s: State) {
    && s.retain == {} && s.deepest == None
    && (forall q :: q in s.preds ==> s.preds[q] == [])
    && (forall c :: c in s.cells ==> s.cells[c].height > 0)
  }

  ghost predicate Inv(c: Config) {
    && ListsOk(c.s) && HeightsOk(c.s, c.since, c.age)
    && (c.phase == Idle ==> ResetOk(c.s) && c.since == 0)
  }

  // When a traversal starts GC_gc_no has just been incremented, so no height looks current.
  lemma InvCanStart(c: Config)
    requires Inv(c)
    ensures GraphOk(c.s) && Fresh(c.s.gc + 1, c.s.cells)
  {
  }

  ghost function Next(c: Config, e: Event): Config
    requires Inv(c) && Legal(c, e)
  {
    match e
    case BuildGraph(heap, objs) => c.(phase := Built, s := Build(heap, c.s, objs))
    case Collect(marked, order) =>
      InvCanStart(c);
      Config(Traversed, Traverse(c.s, marked, order), marked, c.since + 1, c.age + 1)
    case PrintStats(all) =>
      var printed := c.(phase := if c.phase == Idle || VisitsAll(all, c.s) then Idle else Partly, s := Print(c.s, all));
      if VisitsHeights(all, c.s) then printed.(since := 0, age := if c.since == 0 then 0 else c.since - 1) else printed
    case NewObject(p) => c.(s := Allocate(c.s, p))
    case DropObject(p) => c.(s := Drop(c.s, p))
  }

  lemma BuildInv(c: Config, heap: Heap, objs: seq<Obj>)
    requires Inv(c) && Legal(c, BuildGraph(heap, objs))
    ensures Inv(Next(c, BuildGraph(heap, objs))) && ListsOk(Build(heap, c.s, objs)) && Grown(c.s, Build(heap, c.s, objs))
  {
    BuildExact(heap, c.s, objs);
  }

  lemma CollectInv(c: Config, marked: set<Obj>, order: seq<Obj>)
    requires Inv(c) && Legal(c, Collect(marked, order))
    ensures Inv(Next(c, Collect(marked, order)))
  {
    InvCanStart(c);
    TraverseBounded(c.s, marked, order);
    BoundedHeights(c.s.(gc := c.s.gc + 1, maxHeight := 0), marked, Elements(order), Traverse(c.s, marked, order), c.since, c.age);
    hide Traverse, Bounded;
  }

  lemma BoundedHeights(s0: State, marked: set<Obj>, done: set<Obj>, t: State, since: nat, age: nat)
    requires s0.gc > 0 && ListsOk(s0) && HeightsOk(s0.(gc := s0.gc - 1), since, age) && Bounded(s0, marked, done, t)
    ensures ListsOk(t) && HeightsOk(t, since + 1, age + 1)
  {
    hide Covered, HasHolder;
  }

  lemma PrintInv(c: Config, all: seq<Obj>)
    requires Inv(c) && Legal(c, PrintStats(all))
    ensures Inv(Next(c, PrintStats(all)))
  {
    PrintExact(c.s, all);
  }

  // The invariant needs no condition on the marks, no complete passes and no print after every
  // traversal.
  lemma NextInv(c: Config, e: Event)
    requires Inv(c) && Legal(c, e)
    ensures Inv(Next(c, e))
  {
    match e
    case BuildGraph(heap, objs) => BuildInv(c, heap, objs);
    case Collect(marked, order) => CollectInv(c, marked, order);
    case PrintStats(all) => PrintInv(c, all);
    case NewObject(p) =>
    case DropObject(p) =>
  }

  // Where no recorded edge comes from a freed object, every traversal is legal.
  lemma NoDanglingSafe(s: State, marked: set<Obj>, order: seq<Obj>)
    requires NoDangling(s)
    ensures SearchSafe(s.preds, marked, order)
  {
    assert Covers(s.preds, marked, order, s.preds.Keys);
  }

  // Every predecessor of an object that is recorded for another one has debug info.
  ghost predicate NoFreedBehind(preds: Preds) {
    forall p, r, i :: p in preds && r in preds && p != r && p in preds[r] && 0 <= i < |preds[p]| ==> preds[p][i] in preds
  }

  // That is exactly when every traversal is legal, whatever the marks and the objects visited.
  lemma SafeIff(preds: Preds)
    ensures (forall marked, order :: SearchSafe(preds, marked, order)) <==> NoFreedBehind(preds)
  {
    if NoFreedBehind(preds) {
      var within := set p, r | r in preds && p in preds[r] && p in preds && p != r :: p;
      forall marked, order
        ensures SearchSafe(preds, marked, order)
      {
        assert Covers(preds, marked, order, within);
      }
    }
    if forall marked, order :: SearchSafe(preds, marked, order) {
      forall p, r, i | p in preds && r in preds && p != r && p in preds[r] && 0 <= i < |preds[p]|
        ensures preds[p][i] in preds
      {
        assert SearchSafe(preds, preds.Keys - {p}, [r]);
      }
    }
  }

  // Edges dangle only when an object is freed that is still recorded as a predecessor.
  lemma DanglingExactly(c: Config, e: Event)
    requires Inv(c) && Legal(c, e) && NoDangling(c.s)
    ensures NoDangling(Next(c, e).s)
            <==> (e.DropObject? && e.gone in c.s.preds ==>
                    forall q :: q in c.s.preds && q != e.gone ==> e.gone !in c.s.preds[q])
  {
    match e
    case BuildGraph(heap, objs) => BuildKeepsEdges(heap, c.s, objs);
    case Collect(marked, order) => InvCanStart(c);
    case PrintStats(all) => PrintExact(c.s, all);
    case NewObject(p) =>
    case DropObject(p) => DropDangles(c.s, p);
  }

  lemma DropDangles(s: State, p: Obj)
    requires NoDangling(s)
    ensures NoDangling(Drop(s, p)) <==> (p in s.preds ==> forall q :: q in s.preds && q != p ==> p !in s.preds[q])
  {
    var t := Drop(s, p);
    if NoDangling(t) {
      forall q | q in s.preds && q != p && p in s.preds
        ensures p !in s.preds[q]
      {
        assert t.preds[q] == s.preds[q];
      }
    }
  }

  // ----- Runs -----

  ghost predicate LegalRun(c: Config, events: seq<Event>)
    requires Inv(c)
    decreases |events|
  {
    events == [] || (Legal(c, events[0]) && (NextInv(c, events[0]); LegalRun(Next(c, events[0]), events[1..])))
  }

  ghost function Run(c: Config, events: seq<Event>): Config
    requires Inv(c) && LegalRun(c, events)
    decreases |events|
  {
    if events == [] then c
    else
      NextInv(c, events[0]);
      Run(Next(c, events[0]), events[1..])
  }

  // The invariant holds after every run.
  lemma {:induction false} RunInv(c: Config, events: seq<Event>)
    requires Inv(c) && LegalRun(c, events)
    ensures Inv(Run(c, events))
    decreases |events|
  {
    if events != [] {
      NextInv(c, events[0]);
      RunInv(Next(c, events[0]), events[1..]);
    }
  }

  // The run is legal and leads from c to d.
  ghost predicate Reaches(c: Config, events: seq<Event>, d: Config) {
    Inv(c) && LegalRun(c, events) && Run(c, events) == d && Inv(d)
  }

  lemma ReachesInv(c: Config, events: seq<Event>, d: Config)
    requires Reaches(c, events, d)
    ensures Inv(c) && Inv(d) && LegalRun(c, events) && Run(c, events) == d
  {
  }

  lemma ReachesOne(c: Config, e: Event)
    requires Inv(c) && Legal(c, e)
    ensures Reaches(c, [e], Next(c, e))
  {
    NextInv(c, e);
    assert [e][1..] == [];
  }

  lemma {:induction false} ReachesJoin(c: Config, a: seq<Event>, d: Config, b: seq<Event>, f: Config)
    requires Reaches(c, a, d) && Reaches(d, b, f)
    ensures Reaches(c, a + b, f)
    decreases |a|
  {
    if a == [] {
      assert a + b == b;
    } else {
      NextInv(c, a[0]);
      RunInv(Next(c, a[0]), a[1..]);
      ReachesJoin(Next(c, a[0]), a[1..], d, b, f);
      assert (a + b)[0] == a[0] && (a + b)[1..] == a[1..] + b;
    }
  }
}
