// The back graph on values: what each operation of backgraph.c does to the predecessor
// lists, the cached heights and the counters, without chunks, links or loops.
module GraphModel {
  import opened Options
  import opened Heights
  import opened HeapScan
  import opened Sizes

  // The 32-bit counter behind GOT_LUCKY_NUMBER, and its test.
  function NextRandom(r: nat): nat {
    (r + 1) % 0x1_0000_0000
  }

  predicate Lucky(r: nat) {
    r % 0x80 == 0
  }

  // preds   predecessors of every object with debug info
  // cells   the objects that own a back_edges structure
  // retain  the objects whose structure has the RETAIN flag
  // gc      GC_gc_no
  // random  the counter behind GOT_LUCKY_NUMBER
  datatype State = State(preds: Preds, cells: Cells, retain: set<Obj>, gc: nat, random: nat,
                         maxHeight: nat, deepest: Option<Obj>, maxMaxHeight: nat)

  ghost predicate GraphOk(s: State) {
    Shaped(s.preds, s.cells.Keys) && InProgress(s.cells) == {} && s.retain <= s.cells.Keys
  }

  // ----- Building (backgraph.c:208-276, 335-362) -----

  function EnsureStruct(s: State, p: Obj): State {
    if p in s.cells then s else s.(cells := s.cells[p := Cell(HEIGHT_UNKNOWN, s.gc - 1)])
  }

  function AddEdge(s: State, p: Obj, q: Obj): State {
    if q !in s.preds || p !in s.preds then s
    else if s.preds[q] == [] && q !in s.cells then
      var s1 := s.(preds := s.preds[q := [p]], random := NextRandom(s.random));
      if Lucky(s1.random) then EnsureStruct(s1, q) else s1
    else if p in s.preds[q] then s
    else
      var s1 := EnsureStruct(s, q);
      s1.(preds := s1.preds[q := s1.preds[q] + [p]])
  }

  function AddWord(heap: Heap, s: State, p: Obj, word: nat): State {
    var target := Target(heap, word);
    if target.Some? then AddEdge(s, p, target.value) else s
  }

  // Scans the words of p from index j on.
  function AddBackEdges(heap: Heap, s: State, p: Obj, j: nat): State
    requires p in heap.objects && WellSized(heap)
    decreases |heap.objects[p].words| - j
  {
    if BYTES_PER_WORD * j < ScanBytes(heap.objects[p]) then
      AddBackEdges(heap, AddWord(heap, s, p, heap.objects[p].words[j]), p, j + 1)
    else s
  }

  function Build(heap: Heap, s: State, objs: seq<Obj>): State
    requires WellSized(heap) && (forall p :: p in objs ==> p in heap.objects)
    decreases |objs|
  {
    if objs == [] then s
    else Build(heap, AddBackEdges(heap, s, objs[0], OH_WORDS), objs[1..])
  }

  // ----- Traversing (backgraph.c:411-472) -----

  datatype Scanned = Scanned(height: nat, deepest: Option<Obj>, cells: Cells)

  ghost function ScanStep(preds: Preds, gc: nat, marked: set<Obj>, q: Obj, from: Scanned): (r: Scanned)
    requires Shaped(preds, from.cells.Keys)
    ensures r.cells.Keys == from.cells.Keys && InProgress(r.cells) == InProgress(from.cells)
  {
    if q in marked || q !in preds then from
    else
      var v := Visit(preds, gc, from.cells, {}, q);
      if v.height > from.height then Scanned(v.height, Some(q), v.cells) else from.(cells := v.cells)
  }

  // The greatest height among the unmarked predecessors `ps`, starting at `from`.
  ghost function ScanPreds(preds: Preds, gc: nat, marked: set<Obj>, ps: seq<Obj>, from: Scanned): (r: Scanned)
    requires Shaped(preds, from.cells.Keys)
    ensures r.cells.Keys == from.cells.Keys && InProgress(r.cells) == InProgress(from.cells)
    decreases |ps|
  {
    if ps == [] then from
    else ScanPreds(preds, gc, marked, ps[1..], ScanStep(preds, gc, marked, ps[0], from))
  }

  // The rest of the scan, from number i on.
  ghost function ScanRest(preds: Preds, gc: nat, marked: set<Obj>, ps: seq<Obj>, i: nat, from: Scanned): Scanned
    requires Shaped(preds, from.cells.Keys) && i <= |ps|
  {
    ScanPreds(preds, gc, marked, ps[i..], from)
  }

  lemma ScanNext(preds: Preds, gc: nat, marked: set<Obj>, ps: seq<Obj>, i: nat, from: Scanned)
    requires Shaped(preds, from.cells.Keys) && i < |ps|
    ensures ScanRest(preds, gc, marked, ps, i, from)
         == ScanRest(preds, gc, marked, ps, i + 1, ScanStep(preds, gc, marked, ps[i], from))
  {
    assert ps[i..][0] == ps[i] && ps[i..][1..] == ps[i + 1..];
  }

  lemma ScanEnds(preds: Preds, gc: nat, marked: set<Obj>, ps: seq<Obj>, from: Scanned)
    requires Shaped(preds, from.cells.Keys)
    ensures ScanRest(preds, gc, marked, ps, |ps|, from) == from
    ensures ScanRest(preds, gc, marked, ps, 0, from) == ScanPreds(preds, gc, marked, ps, from)
  {
    assert ps[0..] == ps;
  }

  lemma ScanOne(preds: Preds, gc: nat, marked: set<Obj>, p: Obj, q: Obj, from: Scanned)
    requires Shaped(preds, from.cells.Keys) && p in preds && preds[p] == [q]
    ensures ScanPreds(preds, gc, marked, preds[p], from) == ScanStep(preds, gc, marked, q, from)
  {
    assert preds[p][1..] == [];
  }

  function KnownHeight(s: State, p: Obj): (h: int)
  {
    if p in s.cells && s.cells[p].height != HEIGHT_UNKNOWN then s.cells[p].height else 0
  }

  ghost function ScanObject(s: State, marked: set<Obj>, p: Obj): (r: Scanned)
    requires GraphOk(s) && p in s.preds
    ensures r.cells.Keys == s.cells.Keys && InProgress(r.cells) == {}
  {
    assert p in s.cells && s.cells[p].height == HEIGHT_IN_PROGRESS ==> p in InProgress(s.cells);
    ScanPreds(s.preds, s.gc, marked, s.preds[p], Scanned(KnownHeight(s, p), None, s.cells))
  }

  ghost function UpdateMaxHeight(s: State, marked: set<Obj>, p: Obj): (r: State)
    requires GraphOk(s)
    ensures GraphOk(r) && r.preds == s.preds && r.gc == s.gc && r.maxMaxHeight == s.maxMaxHeight
  {
    if p !in marked || p !in s.preds then s
    else
      var v := ScanObject(s, marked, p);
      var s1 := if v.height > 0 then s.(cells := v.cells[p := Cell(v.height, s.gc)], retain := s.retain + {p})
                else s.(cells := v.cells);
      if v.height > s.maxHeight then s1.(maxHeight := v.height, deepest := v.deepest) else s1
  }

  // UpdateMaxHeight, piece by piece.
  lemma UpdateIs(s: State, s': State, marked: set<Obj>, p: Obj, v: Scanned)
    requires GraphOk(s) && p in marked && p in s.preds && v == ScanObject(s, marked, p)
    requires s'.preds == s.preds && s'.gc == s.gc && s'.random == s.random && s'.maxMaxHeight == s.maxMaxHeight
    requires s'.cells == if v.height > 0 then v.cells[p := Cell(v.height, s.gc)] else v.cells
    requires s'.retain == if v.height > 0 then s.retain + {p} else s.retain
    requires s'.maxHeight == if v.height > s.maxHeight then v.height else s.maxHeight
    requires s'.deepest == if v.height > s.maxHeight then v.deepest else s.deepest
    ensures s' == UpdateMaxHeight(s, marked, p)
  {
  }

  ghost function UpdateAll(s: State, marked: set<Obj>, objs: seq<Obj>): (r: State)
    requires GraphOk(s)
    ensures GraphOk(r) && r.preds == s.preds && r.gc == s.gc && r.maxMaxHeight == s.maxMaxHeight
    decreases |objs|
  {
    if objs == [] then s else UpdateAll(UpdateMaxHeight(s, marked, objs[0]), marked, objs[1..])
  }

  // What the searches of a traversal read: `within` holds every predecessor that is not marked
  // of a marked object that is visited, and all that leads there.
  ghost predicate Covers(preds: Preds, marked: set<Obj>, objs: seq<Obj>, within: set<Obj>) {
    && PredClosed(preds, within)
    && (forall p, q :: p in objs && p in marked && p in preds && q in preds[p] && q !in marked && q in preds ==> q in within)
  }

  // The predecessors `ps` of a marked object whose heights are asked for are in `within`.
  ghost predicate ScansWithin(preds: Preds, marked: set<Obj>, ps: seq<Obj>, within: set<Obj>) {
    forall j :: 0 <= j < |ps| ==> ScannedWithin(preds, marked, ps[j], within)
  }

  ghost predicate ScannedWithin(preds: Preds, marked: set<Obj>, q: Obj, within: set<Obj>) {
    q !in marked && q in preds ==> q in within
  }

  // The predecessors of a marked object that a traversal visits.
  lemma PredCovered(preds: Preds, marked: set<Obj>, objs: seq<Obj>, within: set<Obj>, p: Obj)
    requires Covers(preds, marked, objs, within) && p in objs && p in marked && p in preds
    ensures PredClosed(preds, within)
    ensures ScansWithin(preds, marked, preds[p], within)
  {
  }

  // No search of the traversal reads something that is not an object with debug info.
  ghost predicate SearchSafe(preds: Preds, marked: set<Obj>, objs: seq<Obj>) {
    exists within :: Covers(preds, marked, objs, within)
  }

  // A search for the height of r reads objects with debug info only.
  ghost predicate Searchable(preds: Preds, r: Obj) {
    exists within :: PredClosed(preds, within) && r in within
  }

  // A successful collection: GC_gc_no goes up (alloc.c:835), then the graph is traversed.
  ghost function Traverse(s: State, marked: set<Obj>, objs: seq<Obj>): State
    requires GraphOk(s)
  {
    UpdateAll(s.(gc := s.gc + 1, maxHeight := 0), marked, objs)
  }

  // ----- Printing and resetting (backgraph.c:299-333, 474-494) -----

  function ResetObject(s: State, p: Obj): State {
    if p !in s.preds then s
    else if p in s.cells && p in s.retain then s.(preds := s.preds[p := []], retain := s.retain - {p})
    else s.(preds := s.preds[p := []], cells := s.cells - {p})
  }

  // ResetObject, piece by piece.
  lemma ResetIs(s: State, s': State, p: Obj)
    requires p in s.preds && s' == s.(preds := s.preds[p := []], cells := s'.cells, retain := s.retain - {p})
    requires s'.cells == if p in s.cells && p in s.retain then s.cells else s.cells - {p}
    requires s.retain <= s.cells.Keys
    ensures s' == ResetObject(s, p)
  {
    if p !in s.retain {
      assert s.retain - {p} == s.retain;
    }
  }

  function ResetAll(s: State, objs: seq<Obj>): State
    decreases |objs|
  {
    if objs == [] then s else ResetAll(ResetObject(s, objs[0]), objs[1..])
  }

  function Print(s: State, objs: seq<Obj>): State {
    ResetAll(s.(maxMaxHeight := Max(s.maxMaxHeight, s.maxHeight)), objs).(deepest := None)
  }

  // ----- Objects come and go between collections -----

  // p receives a debugging header (dbg_mlc.c:286-288).
  function Allocate(s: State, p: Obj): State {
    s.(preds := s.preds[p := []], cells := s.cells - {p}, retain := s.retain - {p})
  }

  // p is swept or freed: it no longer has debug info.
  function Drop(s: State, p: Obj): State {
    s.(preds := s.preds - {p}, cells := s.cells - {p}, retain := s.retain - {p})
  }
}
