// What GC_traverse_back_graph reports.
module TraverseProofs {
  import opened Options
  import opened Heights
  import opened Walks
  import opened Exactness
  import opened GraphModel

  // ----- The search from an object inside a set closed under predecessors stays inside -----

  function RestrictCells(cells: Cells, within: set<Obj>): (r: Cells)
    ensures r.Keys == cells.Keys * within
  {
    map c | c in cells && c in within :: cells[c]
  }

  // v is the outcome of a search in the whole graph, u of the same search inside `within`.
  ghost predicate SameInside(within: set<Obj>, cells: Cells, v: Visited, u: Visited) {
    && v.height == u.height
    && v.cells.Keys == cells.Keys
    && RestrictCells(v.cells, within) == u.cells
    && (forall c :: c in cells && c !in within ==> v.cells[c] == cells[c])
  }

  lemma RestrictWellFormed(preds: Preds, cells: Cells, within: set<Obj>)
    requires Shaped(preds, cells.Keys) && PredClosed(preds, within)
    ensures WellFormed(RestrictPreds(preds, within), RestrictCells(cells, within).Keys)
  {
  }

  lemma {:induction false} VisitLocal(preds: Preds, gc: int, cells: Cells, table: set<Obj>, within: set<Obj>, p: Obj)
    requires Shaped(preds, cells.Keys) && table !! cells.Keys && PredClosed(preds, within) && p in within
    requires WellFormed(RestrictPreds(preds, within), RestrictCells(cells, within).Keys)
    ensures SameInside(within, cells, Visit(preds, gc, cells, table, p),
                       Visit(RestrictPreds(preds, within), gc, RestrictCells(cells, within), table, p))
    decreases preds.Keys - InProgress(cells) - table, 1
  {
    if p !in cells {
      if preds[p] != [] && p !in table {
        VisitLocal(preds, gc, cells, table + {p}, within, preds[p][0]);
      }
    } else if !Current(cells[p], gc) && cells[p].height != HEIGHT_IN_PROGRESS {
      VisitStructLocal(preds, gc, cells, table, within, p);
    }
  }

  // The case of VisitLocal in which the predecessors of p are searched.
  lemma {:induction false} VisitStructLocal(preds: Preds, gc: int, cells: Cells, table: set<Obj>, within: set<Obj>, p: Obj)
    requires Shaped(preds, cells.Keys) && table !! cells.Keys && PredClosed(preds, within) && p in within
    requires WellFormed(RestrictPreds(preds, within), RestrictCells(cells, within).Keys)
    requires p in cells && !Current(cells[p], gc) && cells[p].height != HEIGHT_IN_PROGRESS
    ensures SameInside(within, cells, Visit(preds, gc, cells, table, p),
                       Visit(RestrictPreds(preds, within), gc, RestrictCells(cells, within), table, p))
    decreases preds.Keys - InProgress(cells) - table, 0
  {
    assert p in preds.Keys - InProgress(cells) - table;
    var start := Max(cells[p].height, 1);
    PutInside(cells, within, p, Cell(HEIGHT_IN_PROGRESS, cells[p].cycle));
    VisitAllLocal(preds, gc, Enter(cells, p), table, within, preds[p], start);
    var v := VisitAll(preds, gc, Enter(cells, p), table, preds[p], start);
    PutInside(v.cells, within, p, Cell(v.height, gc));
    hide Shaped, PredClosed, SameInside, VisitAll;
    VisitStruct(preds, gc, cells, table, p);
    VisitStruct(RestrictPreds(preds, within), gc, RestrictCells(cells, within), table, p);
    FinishInside(within, cells, p, Cell(HEIGHT_IN_PROGRESS, cells[p].cycle), Cell(v.height, gc), v,
                 VisitAll(RestrictPreds(preds, within), gc, Enter(RestrictCells(cells, within), p), table, preds[p], start));
  }

  lemma PutInside(cells: Cells, within: set<Obj>, p: Obj, c: Cell)
    requires p in within && p in cells
    ensures RestrictCells(cells[p := c], within) == RestrictCells(cells, within)[p := c]
  {
  }

  lemma VisitStruct(preds: Preds, gc: int, cells: Cells, table: set<Obj>, p: Obj)
    requires Shaped(preds, cells.Keys) && table !! cells.Keys && p in preds
    requires p in cells && !Current(cells[p], gc) && cells[p].height != HEIGHT_IN_PROGRESS
    ensures var v := VisitAll(preds, gc, Enter(cells, p), table, preds[p], Max(cells[p].height, 1));
            Visit(preds, gc, cells, table, p) == Visited(v.height, v.cells[p := Cell(v.height, gc)])
  {
  }

  lemma FinishInside(within: set<Obj>, cells: Cells, p: Obj, entered: Cell, left: Cell, v: Visited, u: Visited)
    requires p in within && p in cells && SameInside(within, cells[p := entered], v, u)
    requires RestrictCells(v.cells[p := left], within) == RestrictCells(v.cells, within)[p := left]
    ensures SameInside(within, cells, Visited(v.height, v.cells[p := left]), Visited(u.height, u.cells[p := left]))
  {
  }

  lemma {:induction false} VisitAllLocal(preds: Preds, gc: int, cells: Cells, table: set<Obj>, within: set<Obj>,
                                         ps: seq<Obj>, acc: nat)
    requires Shaped(preds, cells.Keys) && table !! cells.Keys && PredClosed(preds, within)
    requires WellFormed(RestrictPreds(preds, within), RestrictCells(cells, within).Keys)
    requires forall i :: 0 <= i < |ps| ==> ps[i] in within
    ensures SameInside(within, cells, VisitAll(preds, gc, cells, table, ps, acc),
                       VisitAll(RestrictPreds(preds, within), gc, RestrictCells(cells, within), table, ps, acc))
    decreases preds.Keys - InProgress(cells) - table, |ps| + 1
  {
    if ps != [] {
      VisitLocal(preds, gc, cells, table, within, ps[0]);
      var v := Visit(preds, gc, cells, table, ps[0]);
      VisitAllLocal(preds, gc, v.cells, table, within, ps[1..], Raise(acc, v.height));
    }
  }

  // ----- Walks inside the set -----

  lemma WalkOutside(preds: Preds, within: set<Obj>, cells: Cells, w: Walk, p: Obj, h: nat)
    requires IsWalkTo(RestrictPreds(preds, within), w, p) && Simple(RestrictCells(cells, within).Keys, w)
    requires |w| > 0 && Weight(Base(RestrictCells(cells, within)), w) == h
    ensures HasWalk(preds, Base(cells), p, h)
  {
    assert IsWalkTo(preds, w, p) && Simple(cells.Keys, w);
    assert Weight(Base(cells), w) == h;
  }

  lemma LongestInside(preds: Preds, within: set<Obj>, cells: Cells, p: Obj, h: int)
    requires PredClosed(preds, within) && p in within
    requires Dominates(RestrictPreds(preds, within), Base(RestrictCells(cells, within)), p, h)
    ensures Dominates(preds, Base(cells), p, h)
  {
    forall w | IsWalkTo(preds, w, p)
      ensures Weight(Base(cells), w) <= h
    {
      WalkInside(preds, within, w, p);
      assert Weight(Base(cells), w) == Weight(Base(RestrictCells(cells, within)), w);
    }
  }

  // ----- One traversal -----

  // Inside `within`, the cells are those left by the calls `qs`, and by nothing else.
  ghost predicate Tracks(preds: Preds, gc: int, within: set<Obj>, start: Cells, cells: Cells, qs: seq<Obj>) {
    && PredClosed(preds, within) && Shaped(preds, start.Keys) && Fresh(gc, start)
    && WellFormed(RestrictPreds(preds, within), RestrictCells(start, within).Keys)
    && (forall q :: q in qs ==> q in within)
    && RestrictCells(cells, within) == AfterCalls(RestrictPreds(preds, within), gc, RestrictCells(start, within), qs)
  }

  ghost predicate HasWalk(preds: Preds, base: map<Obj, nat>, p: Obj, h: int) {
    exists w :: IsWalkTo(preds, w, p) && Simple(base.Keys, w) && Weight(base, w) == h
  }

  lemma VisitTracked(preds: Preds, gc: int, within: set<Obj>, start: Cells, cells: Cells, qs: seq<Obj>, q: Obj)
    requires Shaped(preds, cells.Keys) && Tracks(preds, gc, within, start, cells, qs) && q in within
    ensures var v := Visit(preds, gc, cells, {}, q);
            && v.height > 0 && HasWalk(preds, Base(start), q, v.height)
            && Tracks(preds, gc, within, start, v.cells, qs + [q])
            && (forall c :: c in cells && c !in within ==> v.cells[c] == cells[c])
  {
    hide *;
    var predsIn, startIn := RestrictPreds(preds, within), RestrictCells(start, within);
    TracksInside(preds, gc, within, start, cells, qs, q);
    VisitLocal(preds, gc, cells, {}, within, q);
    HeightIsWalk(predsIn, gc, startIn, qs, q);
    var v := Visit(preds, gc, cells, {}, q);
    InsideGives(within, cells, v, Visit(predsIn, gc, RestrictCells(cells, within), {}, q));
    WalksNotEmpty(predsIn, q);
    var w :| IsWalkTo(predsIn, w, q) && Simple(startIn.Keys, w) && Weight(Base(startIn), w) == v.height;
    WalkOutside(preds, within, start, w, q, v.height);
    TracksNext(preds, gc, within, start, cells, qs, q);
  }

  lemma WalksNotEmpty(preds: Preds, p: Obj)
    ensures forall w :: IsWalkTo(preds, w, p) ==> |w| > 0
  {
  }

  lemma TracksInside(preds: Preds, gc: int, within: set<Obj>, start: Cells, cells: Cells, qs: seq<Obj>, q: Obj)
    requires Shaped(preds, cells.Keys) && Tracks(preds, gc, within, start, cells, qs) && q in within
    ensures var predsIn, startIn := RestrictPreds(preds, within), RestrictCells(start, within);
            && PredClosed(preds, within) && WellFormed(predsIn, RestrictCells(cells, within).Keys)
            && WellFormed(predsIn, startIn.Keys) && Fresh(gc, startIn) && q in predsIn && (forall x :: x in qs ==> x in predsIn)
            && Shaped(predsIn, startIn.Keys) && Shaped(predsIn, RestrictCells(cells, within).Keys)
            && RestrictCells(cells, within) == AfterCalls(predsIn, gc, startIn, qs)
  {
    RestrictWellFormed(preds, cells, within);
  }

  lemma InsideGives(within: set<Obj>, cells: Cells, v: Visited, u: Visited)
    requires SameInside(within, cells, v, u)
    ensures v.height == u.height && RestrictCells(v.cells, within) == u.cells
    ensures forall c :: c in cells && c !in within ==> v.cells[c] == cells[c]
  {
  }

  lemma TracksNext(preds: Preds, gc: int, within: set<Obj>, start: Cells, cells: Cells, qs: seq<Obj>, q: Obj)
    requires Shaped(preds, cells.Keys) && Tracks(preds, gc, within, start, cells, qs) && q in within
    requires Shaped(RestrictPreds(preds, within), RestrictCells(cells, within).Keys)
    requires var v := Visit(preds, gc, cells, {}, q);
             RestrictCells(v.cells, within) == Visit(RestrictPreds(preds, within), gc, RestrictCells(cells, within), {}, q).cells
    ensures Tracks(preds, gc, within, start, Visit(preds, gc, cells, {}, q).cells, qs + [q])
  {
    hide Visit;
    assert (qs + [q])[..|qs + [q]| - 1] == qs;
  }

  lemma VisitTrackedExact(preds: Preds, gc: int, within: set<Obj>, rank: map<Obj, nat>, start: Cells, cells: Cells,
                          qs: seq<Obj>, q: Obj)
    requires Shaped(preds, cells.Keys) && Tracks(preds, gc, within, start, cells, qs) && q in within
    requires Ranked(preds, within, rank)
    ensures Dominates(preds, Base(start), q, Visit(preds, gc, cells, {}, q).height)
  {
    RestrictWellFormed(preds, cells, within);
    VisitLocal(preds, gc, cells, {}, within, q);
    HeightIsExact(RestrictPreds(preds, within), gc, within, rank, RestrictCells(start, within), qs, q);
    LongestInside(preds, within, start, q, Visit(preds, gc, cells, {}, q).height);
  }

  // What the loop over the predecessors of one marked object does: it raises the height only
  // to the weight of a walk to one of the unmarked predecessors, and then names it.
  ghost predicate RaisedBy(preds: Preds, marked: set<Obj>, base: map<Obj, nat>, ps: seq<Obj>, from: Scanned, to: Scanned) {
    && from.height <= to.height
    && ((to.height == from.height && to.deepest == from.deepest)
        || (to.deepest.Some? && to.deepest.value in ps && to.deepest.value !in marked
            && HasWalk(preds, base, to.deepest.value, to.height)))
  }

  lemma {:induction false} ScanPredsTracked(preds: Preds, gc: nat, marked: set<Obj>, within: set<Obj>, start: Cells,
                                            ps: seq<Obj>, from: Scanned, qs: seq<Obj>)
    returns (qs': seq<Obj>)
    requires Shaped(preds, from.cells.Keys) && ScansWithin(preds, marked, ps, within)
    requires Tracks(preds, gc, within, start, from.cells, qs)
    ensures var to := ScanPreds(preds, gc, marked, ps, from);
            && Tracks(preds, gc, within, start, to.cells, qs')
            && (forall c :: c in from.cells && c !in within ==> to.cells[c] == from.cells[c])
            && RaisedBy(preds, marked, Base(start), ps, from, to)
    decreases |ps|
  {
    qs' := qs;
    if ps != [] {
      if ps[0] in marked || ps[0] !in preds {
        qs' := ScanPredsTracked(preds, gc, marked, within, start, ps[1..], from, qs);
      } else {
        VisitTracked(preds, gc, within, start, from.cells, qs, ps[0]);
        var v := Visit(preds, gc, from.cells, {}, ps[0]);
        var next := if v.height > from.height then Scanned(v.height, Some(ps[0]), v.cells) else from.(cells := v.cells);
        qs' := ScanPredsTracked(preds, gc, marked, within, start, ps[1..], next, qs + [ps[0]]);
      }
    }
  }

  lemma {:induction false} ScanPredsExact(preds: Preds, gc: nat, marked: set<Obj>, within: set<Obj>, rank: map<Obj, nat>,
                                          start: Cells, ps: seq<Obj>, from: Scanned, qs: seq<Obj>)
    requires Shaped(preds, from.cells.Keys) && ScansWithin(preds, marked, ps, within)
    requires Tracks(preds, gc, within, start, from.cells, qs)
    requires Ranked(preds, within, rank)
    ensures var to := ScanPreds(preds, gc, marked, ps, from);
            && from.height <= to.height
            && (forall i :: 0 <= i < |ps| && ps[i] !in marked ==> Dominates(preds, Base(start), ps[i], to.height))
    decreases |ps|
  {
    if ps != [] {
      if ps[0] in marked || ps[0] !in preds {
        if ps[0] !in preds {
          NoWalk(preds, Base(start), ps[0], ScanPreds(preds, gc, marked, ps, from).height);
        }
        ScanPredsExact(preds, gc, marked, within, rank, start, ps[1..], from, qs);
      } else {
        VisitTracked(preds, gc, within, start, from.cells, qs, ps[0]);
        VisitTrackedExact(preds, gc, within, rank, start, from.cells, qs, ps[0]);
        var v := Visit(preds, gc, from.cells, {}, ps[0]);
        var next := if v.height > from.height then Scanned(v.height, Some(ps[0]), v.cells) else from.(cells := v.cells);
        ScanPredsExact(preds, gc, marked, within, rank, start, ps[1..], next, qs + [ps[0]]);
      }
    }
  }

  // ----- The state between two objects of the traversal that began in `s0` -----

  // The height remembered for p when the traversal began.
  function Before(s0: State, p: Obj): nat {
    Remembered(Base(s0.cells), p)
  }

  // Unless nothing was found, deepest and maxHeight describe a marked object and the end of a
  // longest chain into it.
  ghost predicate Reported(s0: State, marked: set<Obj>, s: State) {
    if s.maxHeight == 0 then s.deepest == s0.deepest
    else match s.deepest
    case None => exists p :: p in marked && p in s0.preds && Before(s0, p) == s.maxHeight
    case Some(q) => q !in marked && (exists p :: p in marked && p in s0.preds && q in s0.preds[p])
                    && HasWalk(s0.preds, Base(s0.cells), q, s.maxHeight)
  }

  // The start of a traversal of `objs`: nothing is computed in this cycle, and every search stays
  // among the objects `within`, none of which is marked.
  ghost predicate Starting(s0: State, marked: set<Obj>, within: set<Obj>, objs: seq<Obj>) {
    && GraphOk(s0) && Fresh(s0.gc, s0.cells) && s0.maxHeight == 0
    && (forall c :: c in s0.retain ==> s0.cells[c].height > 0)
    && Covers(s0.preds, marked, objs, within) && within !! marked
  }

  // The height h of p is the one remembered for it, or it comes from a real chain of objects
  // that ends in an unmarked predecessor of p.
  ghost predicate Explained(s0: State, marked: set<Obj>, p: Obj, h: nat)
    requires p in s0.preds
  {
    h == Before(s0, p) || exists q :: q in s0.preds[p] && q !in marked && HasWalk(s0.preds, Base(s0.cells), q, h)
  }

  // The height kept for p by this traversal.
  function KeptHeight(s: State, p: Obj): int {
    if p in s.retain && p in s.cells then s.cells[p].height else 0
  }

  // Marked objects still to come are as they were; those done keep at least what was
  // remembered for them, stamped with this cycle.
  ghost predicate Retained(s0: State, marked: set<Obj>, done: set<Obj>, s: State) {
    && s.retain <= s.cells.Keys && s0.retain <= s.retain <= s0.retain + marked * done
    && (forall c :: c in marked && c !in done ==> (c in s.cells <==> c in s0.cells))
    && (forall c :: c in marked && c !in done && c in s0.cells ==> s.cells[c] == s0.cells[c])
    && (forall c :: c in marked && c in done && c in s.retain ==>
          0 < s.cells[c].height <= s.maxHeight && Before(s0, c) <= s.cells[c].height && s.cells[c].cycle == s.gc)
    && (forall c :: c in marked && c in done && Before(s0, c) > 0 ==> c in s.retain)
    && (s.maxHeight == 0 || exists p :: p in marked && p in done && p in s.retain && s.cells[p].height == s.maxHeight)
  }

  // Every height kept for a marked object that is done is explained.
  ghost predicate AllExplained(s0: State, marked: set<Obj>, done: set<Obj>, s: State) {
    forall c :: c in marked && c in done && c in s.retain ==>
      c in s0.preds && c in s.cells && s.cells[c].height > 0 && Explained(s0, marked, c, s.cells[c].height)
  }

  ghost predicate Traversing(s0: State, marked: set<Obj>, done: set<Obj>, s: State) {
    && GraphOk(s) && s.preds == s0.preds && s.gc == s0.gc && s.maxMaxHeight == s0.maxMaxHeight
    && Reported(s0, marked, s)
    && Retained(s0, marked, done, s)
    && AllExplained(s0, marked, done, s)
  }

  lemma ScanTracked(s0: State, marked: set<Obj>, within: set<Obj>, all: seq<Obj>, done: set<Obj>, s: State, p: Obj,
                    qs: seq<Obj>)
    returns (qs': seq<Obj>)
    requires Starting(s0, marked, within, all) && Traversing(s0, marked, done, s)
    requires p !in done && p in all && p in marked && p in s.preds
    requires Tracks(s0.preds, s0.gc, within, s0.cells, s.cells, qs)
    ensures var v := ScanObject(s, marked, p);
            && Tracks(s0.preds, s0.gc, within, s0.cells, v.cells, qs')
            && (forall c :: c in s.cells && c in marked ==> v.cells[c] == s.cells[c])
            && RaisedBy(s0.preds, marked, Base(s0.cells), s0.preds[p], Scanned(Before(s0, p), None, s.cells), v)
  {
    assert p in s.cells ==> p !in InProgress(s.cells);
    assert KnownHeight(s, p) == Before(s0, p);
    PredCovered(s.preds, marked, all, within, p);
    qs' := ScanPredsTracked(s.preds, s.gc, marked, within, s0.cells, s.preds[p], Scanned(KnownHeight(s, p), None, s.cells), qs);
  }

  lemma ReportedStep(s0: State, marked: set<Obj>, s: State, p: Obj, v: Scanned, cells: Cells)
    requires Reported(s0, marked, s) && p in marked && p in s0.preds
    requires RaisedBy(s0.preds, marked, Base(s0.cells), s0.preds[p], Scanned(Before(s0, p), None, cells), v)
    ensures v.height > s.maxHeight ==> Reported(s0, marked, s.(maxHeight := v.height, deepest := v.deepest))
  {
  }

  lemma ExplainedStep(s0: State, marked: set<Obj>, done: set<Obj>, s: State, p: Obj, v: Scanned)
    requires GraphOk(s) && AllExplained(s0, marked, done, s) && p in marked && p in s.preds && s.preds == s0.preds
    requires (p in s.retain ==> Before(s0, p) > 0) && v == ScanObject(s, marked, p)
    requires forall c :: c in s.cells && c in marked ==> v.cells[c] == s.cells[c]
    requires RaisedBy(s0.preds, marked, Base(s0.cells), s0.preds[p], Scanned(Before(s0, p), None, s.cells), v)
    ensures AllExplained(s0, marked, done + {p}, UpdateMaxHeight(s, marked, p))
  {
    hide ScanObject, HasWalk;
    if v.height > 0 {
      assert Explained(s0, marked, p, v.height);
    }
  }

  // The marked part of the state after an object whose height is h.
  ghost predicate Kept(marked: set<Obj>, s: State, s': State, p: Obj, h: nat) {
    && s'.retain == s.retain + (if h > 0 then {p} else {}) && s'.retain <= s'.cells.Keys
    && s'.maxHeight == Max(s.maxHeight, h) && s'.gc == s.gc
    && (forall c :: c in marked && c != p ==> (c in s'.cells <==> c in s.cells))
    && (forall c :: c in marked && c != p && c in s.cells ==> s'.cells[c] == s.cells[c])
    && (h > 0 ==> s'.cells[p] == Cell(h, s.gc))
  }

  lemma UpdateKeeps(s: State, marked: set<Obj>, p: Obj, v: Scanned)
    requires GraphOk(s) && p in marked && p in s.preds && v == ScanObject(s, marked, p)
    requires forall c :: c in s.cells && c in marked ==> v.cells[c] == s.cells[c]
    ensures Kept(marked, s, UpdateMaxHeight(s, marked, p), p, v.height)
  {
  }

  lemma RetainedStep(s0: State, marked: set<Obj>, done: set<Obj>, s: State, s': State, p: Obj, h: nat)
    requires Retained(s0, marked, done, s) && p !in done && p in marked && Before(s0, p) <= h
    requires p in s0.retain ==> Before(s0, p) > 0
    requires Kept(marked, s, s', p, h)
    ensures Retained(s0, marked, done + {p}, s')
  {
    if s'.maxHeight > 0 {
      if h > s.maxHeight {
        assert p in s'.retain;
      } else {
        var x :| x in marked && x in done && x in s.retain && s.cells[x].height == s.maxHeight;
        assert x in s'.retain;
      }
    }
  }

  lemma MarkedStep(s0: State, marked: set<Obj>, done: set<Obj>, s: State, p: Obj)
    requires GraphOk(s) && Traversing(s0, marked, done, s) && p !in done && p in marked && p in s.preds
    requires p in s0.retain ==> Before(s0, p) > 0
    requires var v := ScanObject(s, marked, p);
             && (forall c :: c in s.cells && c in marked ==> v.cells[c] == s.cells[c])
             && RaisedBy(s0.preds, marked, Base(s0.cells), s0.preds[p], Scanned(Before(s0, p), None, s.cells), v)
    ensures Traversing(s0, marked, done + {p}, UpdateMaxHeight(s, marked, p))
  {
    var v := ScanObject(s, marked, p);
    ReportedStep(s0, marked, s, p, v, s.cells);
    UpdateKeeps(s, marked, p, v);
    RetainedStep(s0, marked, done, s, UpdateMaxHeight(s, marked, p), p, v.height);
    ExplainedStep(s0, marked, done, s, p, v);
  }

  // One object of the traversal.
  lemma UpdateTracked(s0: State, marked: set<Obj>, within: set<Obj>, all: seq<Obj>, done: set<Obj>, s: State, p: Obj,
                      qs: seq<Obj>)
    returns (qs': seq<Obj>)
    requires Starting(s0, marked, within, all) && Traversing(s0, marked, done, s) && p !in done && p in all
    requires Tracks(s0.preds, s0.gc, within, s0.cells, s.cells, qs)
    ensures GraphOk(s)
    ensures var s' := UpdateMaxHeight(s, marked, p);
            && Traversing(s0, marked, done + {p}, s')
            && Tracks(s0.preds, s0.gc, within, s0.cells, s'.cells, qs')
  {
    hide *;
    StartingHas(s0, marked, within, all);
    TraversingHas(s0, marked, done, s);
    qs' := qs;
    if p in marked && p in s.preds {
      qs' := ScanTracked(s0, marked, within, all, done, s, p, qs);
      MarkedStep(s0, marked, done, s, p);
      OnlyMarked(s, marked, p, within);
      TracksSame(s0.preds, s0.gc, within, s0.cells, ScanObject(s, marked, p).cells, UpdateMaxHeight(s, marked, p).cells, qs');
    } else {
      SkipStep(s0, marked, done, s, p);
    }
  }

  lemma StartingHas(s0: State, marked: set<Obj>, within: set<Obj>, all: seq<Obj>)
    requires Starting(s0, marked, within, all)
    ensures GraphOk(s0) && within !! marked
    ensures forall p :: p in s0.retain ==> Before(s0, p) > 0
  {
  }

  lemma TraversingHas(s0: State, marked: set<Obj>, done: set<Obj>, s: State)
    requires Traversing(s0, marked, done, s)
    ensures GraphOk(s)
  {
  }

  // Outside the search an update writes to a marked object only.
  lemma OnlyMarked(s: State, marked: set<Obj>, p: Obj, within: set<Obj>)
    requires GraphOk(s) && p in marked && p in s.preds && within !! marked
    ensures SameCells(within, ScanObject(s, marked, p).cells, UpdateMaxHeight(s, marked, p).cells)
  {
    hide ScanObject;
  }

  ghost predicate SameCells(within: set<Obj>, cells: Cells, cells': Cells) {
    forall c :: c in within ==> (c in cells <==> c in cells') && (c in cells ==> cells'[c] == cells[c])
  }

  lemma TracksSame(preds: Preds, gc: int, within: set<Obj>, start: Cells, cells: Cells, cells': Cells, qs: seq<Obj>)
    requires Tracks(preds, gc, within, start, cells, qs)
    requires SameCells(within, cells, cells')
    ensures Tracks(preds, gc, within, start, cells', qs)
  {
    assert RestrictCells(cells', within) == RestrictCells(cells, within);
  }

  // An object that is not marked, or has no debug info, changes nothing.
  lemma SkipStep(s0: State, marked: set<Obj>, done: set<Obj>, s: State, p: Obj)
    requires GraphOk(s0) && Traversing(s0, marked, done, s) && p !in done
    requires !(p in marked && p in s.preds)
    ensures UpdateMaxHeight(s, marked, p) == s && Traversing(s0, marked, done + {p}, s)
  {
    assert p in marked ==> p !in s0.cells && p !in s.retain;
    SkipRetained(s0, marked, done, s, p);
    assert AllExplained(s0, marked, done + {p}, s);
    hide Retained, Reported, Explained, GraphOk;
  }

  lemma SkipRetained(s0: State, marked: set<Obj>, done: set<Obj>, s: State, p: Obj)
    requires Retained(s0, marked, done, s) && p !in done && (p in marked ==> p !in s0.cells && p !in s.retain)
    ensures Retained(s0, marked, done + {p}, s)
  {
  }

  lemma {:induction false} UpdateAllTracked(s0: State, marked: set<Obj>, within: set<Obj>, all: seq<Obj>, done: set<Obj>,
                                            s: State, objs: seq<Obj>, qs: seq<Obj>)
    returns (qs': seq<Obj>)
    requires Starting(s0, marked, within, all) && Traversing(s0, marked, done, s)
    requires Distinct(objs) && (forall p :: p in objs ==> p !in done && p in all)
    requires Tracks(s0.preds, s0.gc, within, s0.cells, s.cells, qs)
    ensures var s' := UpdateAll(s, marked, objs);
            && Traversing(s0, marked, done + Elements(objs), s')
            && Tracks(s0.preds, s0.gc, within, s0.cells, s'.cells, qs')
    decreases |objs|
  {
    qs' := qs;
    if objs == [] {
      assert done + Elements(objs) == done;
    } else {
      ElementsSplit(objs, done);
      qs' := UpdateTracked(s0, marked, within, all, done, s, objs[0], qs);
      qs' := UpdateAllTracked(s0, marked, within, all, done + {objs[0]}, UpdateMaxHeight(s, marked, objs[0]), objs[1..], qs');
    }
  }

  // ----- Acyclic graphs: the kept heights are exact -----

  // h is the greatest of the height remembered for p and the weights of the walks to its
  // unmarked predecessors.
  ghost predicate IsHeightOf(s0: State, marked: set<Obj>, p: Obj, h: nat)
    requires p in s0.preds
  {
    && Before(s0, p) <= h
    && (forall q :: q in s0.preds[p] && q !in marked ==> Dominates(s0.preds, Base(s0.cells), q, h))
    && Explained(s0, marked, p, h)
  }

  ghost predicate AllExact(s0: State, marked: set<Obj>, done: set<Obj>, s: State) {
    forall p :: p in marked && p in done && p in s0.preds ==> KeptHeight(s, p) >= 0 && IsHeightOf(s0, marked, p, KeptHeight(s, p))
  }

  lemma UpdateExact(s0: State, marked: set<Obj>, within: set<Obj>, rank: map<Obj, nat>, all: seq<Obj>, done: set<Obj>,
                    s: State, p: Obj, qs: seq<Obj>)
    requires Starting(s0, marked, within, all) && Traversing(s0, marked, done, s) && p !in done
    requires Tracks(s0.preds, s0.gc, within, s0.cells, s.cells, qs)
    requires Ranked(s0.preds, within, rank)
    requires p in marked && p in all && p in s0.preds
    ensures var s' := UpdateMaxHeight(s, marked, p);
            KeptHeight(s', p) >= 0 && IsHeightOf(s0, marked, p, KeptHeight(s', p))
  {
    var qs' := ScanTracked(s0, marked, within, all, done, s, p, qs);
    assert p in s.cells ==> p !in InProgress(s.cells);
    assert KnownHeight(s, p) == Before(s0, p);
    PredCovered(s.preds, marked, all, within, p);
    ScanPredsExact(s.preds, s.gc, marked, within, rank, s0.cells, s.preds[p], Scanned(KnownHeight(s, p), None, s.cells), qs);
    var v := ScanObject(s, marked, p);
    assert KeptHeight(UpdateMaxHeight(s, marked, p), p) == v.height;
  }

  lemma UpdateKeepsOthers(s0: State, marked: set<Obj>, within: set<Obj>, all: seq<Obj>, done: set<Obj>, s: State, p: Obj,
                          qs: seq<Obj>, c: Obj)
    requires Starting(s0, marked, within, all) && Traversing(s0, marked, done, s) && p !in done
    requires Tracks(s0.preds, s0.gc, within, s0.cells, s.cells, qs)
    requires c in marked && c in done && p in all
    ensures KeptHeight(UpdateMaxHeight(s, marked, p), c) == KeptHeight(s, c)
  {
    if p in marked && p in s.preds {
      var qs' := ScanTracked(s0, marked, within, all, done, s, p, qs);
      UpdateKeeps(s, marked, p, ScanObject(s, marked, p));
    }
  }

  lemma {:induction false} UpdateAllExact(s0: State, marked: set<Obj>, within: set<Obj>, rank: map<Obj, nat>, all: seq<Obj>,
                                          done: set<Obj>, s: State, objs: seq<Obj>, qs: seq<Obj>)
    requires Starting(s0, marked, within, all) && Traversing(s0, marked, done, s) && AllExact(s0, marked, done, s)
    requires Distinct(objs) && (forall p :: p in objs ==> p !in done && p in all)
    requires Tracks(s0.preds, s0.gc, within, s0.cells, s.cells, qs)
    requires Ranked(s0.preds, within, rank)
    ensures AllExact(s0, marked, done + Elements(objs), UpdateAll(s, marked, objs))
    decreases |objs|
  {
    if objs == [] {
      assert done + Elements(objs) == done;
    } else {
      ElementsSplit(objs, done);
      var p, s1 := objs[0], UpdateMaxHeight(s, marked, objs[0]);
      var qs' := UpdateTracked(s0, marked, within, all, done, s, p, qs);
      forall c | c in marked && c in done + {p} && c in s0.preds
        ensures KeptHeight(s1, c) >= 0 && IsHeightOf(s0, marked, c, KeptHeight(s1, c))
      {
        if c == p {
          UpdateExact(s0, marked, within, rank, all, done, s, p, qs);
        } else {
          UpdateKeepsOthers(s0, marked, within, all, done, s, p, qs, c);
        }
      }
      UpdateAllExact(s0, marked, within, rank, all, done + {p}, s1, objs[1..], qs');
    }
  }

  // ----- Whole traversals -----

  ghost predicate CanTraverse(s: State, marked: set<Obj>, within: set<Obj>, objs: seq<Obj>) {
    Starting(s.(gc := s.gc + 1, maxHeight := 0), marked, within, objs) && Distinct(objs)
  }

  lemma StartTracks(s0: State, marked: set<Obj>, within: set<Obj>, all: seq<Obj>)
    requires Starting(s0, marked, within, all)
    ensures Traversing(s0, marked, {}, s0)
    ensures Tracks(s0.preds, s0.gc, within, s0.cells, s0.cells, [])
  {
    RestrictWellFormed(s0.preds, s0.cells, within);
  }

  lemma TraverseKeeps(s: State, marked: set<Obj>, within: set<Obj>, objs: seq<Obj>)
    requires CanTraverse(s, marked, within, objs)
    ensures Traversing(s.(gc := s.gc + 1, maxHeight := 0), marked, Elements(objs), Traverse(s, marked, objs))
  {
    var s0 := s.(gc := s.gc + 1, maxHeight := 0);
    StartTracks(s0, marked, within, objs);
    var _ := UpdateAllTracked(s0, marked, within, objs, {}, s0, objs, []);
    assert {} + Elements(objs) == Elements(objs);
  }

  // What is kept for the marked objects among `visited`.
  ghost predicate IsGreatestKept(s: State, marked: set<Obj>, visited: set<Obj>, t: State) {
    && (forall p :: p in marked && p in visited && p in s.preds ==> Before(s, p) <= KeptHeight(t, p) <= t.maxHeight)
    && (t.maxHeight > 0 ==>
          exists p :: p in marked && p in visited && p in s.preds && KeptHeight(t, p) == t.maxHeight)
  }

  lemma KeptBounds(s0: State, marked: set<Obj>, done: set<Obj>, t: State)
    requires Retained(s0, marked, done, t) && AllExplained(s0, marked, done, t)
    requires forall c :: c in s0.retain ==> Before(s0, c) > 0
    ensures IsGreatestKept(s0, marked, done, t)
  {
    if t.maxHeight > 0 {
      var p :| p in marked && p in done && p in t.retain && t.cells[p].height == t.maxHeight;
      assert KeptHeight(t, p) == t.maxHeight;
    }
  }

  // On any graph, GC_max_height is the greatest height kept for a marked object that is
  // visited, no kept height is below what was remembered, and every one is explained by a real
  // chain or by the past. GC_deepest_obj, if there is one, is an unmarked object that points to
  // a marked one and ends a chain of weight GC_max_height.
  lemma TraverseReports(s: State, marked: set<Obj>, within: set<Obj>, objs: seq<Obj>)
    requires CanTraverse(s, marked, within, objs)
    ensures var t := Traverse(s, marked, objs);
            && IsGreatestKept(s, marked, Elements(objs), t)
            && AllExplained(s, marked, Elements(objs), t)
            && Reported(s, marked, t)
  {
    TraverseKeeps(s, marked, within, objs);
    var s0, t := s.(gc := s.gc + 1, maxHeight := 0), Traverse(s, marked, objs);
    KeptBounds(s0, marked, Elements(objs), t);
    SameExplained(s, s0, marked, Elements(objs), t);
  }

  // What is said about the start of a traversal depends on its edges and heights only.
  lemma SameExplained(s: State, s0: State, marked: set<Obj>, done: set<Obj>, t: State)
    requires s0 == s.(gc := s.gc + 1, maxHeight := 0)
    ensures AllExplained(s0, marked, done, t) ==> AllExplained(s, marked, done, t)
  {
    forall c | AllExplained(s0, marked, done, t) && c in marked && c in done && c in t.retain
      ensures Explained(s, marked, c, t.cells[c].height)
    {
    }
  }

  // Where the unmarked objects form no cycle, the height kept for every marked object that is
  // visited is exactly the greatest of what was remembered and the weights of the chains into it.
  lemma TraverseExact(s: State, marked: set<Obj>, within: set<Obj>, objs: seq<Obj>, rank: map<Obj, nat>)
    requires CanTraverse(s, marked, within, objs) && Ranked(s.preds, within, rank)
    ensures AllExact(s, marked, Elements(objs), Traverse(s, marked, objs))
  {
    var s0 := s.(gc := s.gc + 1, maxHeight := 0);
    StartTracks(s0, marked, within, objs);
    hide Traversing, Tracks, Ranked, IsHeightOf, AllExact, UpdateAll, GraphOk;
    UpdateAllExact(s0, marked, within, rank, objs, {}, s0, objs, []);
    assert {} + Elements(objs) == Elements(objs);
    SameExact(s, s0, marked, Elements(objs), Traverse(s, marked, objs));
  }

  lemma SameExact(s: State, s0: State, marked: set<Obj>, done: set<Obj>, t: State)
    requires s0 == s.(gc := s.gc + 1, maxHeight := 0)
    requires AllExact(s0, marked, done, t)
    ensures AllExact(s, marked, done, t)
  {
    forall p | p in marked && p in done && p in s.preds
      ensures KeptHeight(t, p) >= 0 && IsHeightOf(s, marked, p, KeptHeight(t, p))
    {
      assert IsHeightOf(s0, marked, p, KeptHeight(t, p));
    }
  }

  // ----- Stamps -----

  lemma {:induction false} ScanPredsStamps(preds: Preds, gc: nat, marked: set<Obj>, ps: seq<Obj>, from: Scanned)
    requires Shaped(preds, from.cells.Keys)
    requires StampsOk(gc, from.cells)
    ensures StampsOk(gc, ScanPreds(preds, gc, marked, ps, from).cells)
    decreases |ps|
  {
    if ps != [] {
      if ps[0] in marked || ps[0] !in preds {
        ScanPredsStamps(preds, gc, marked, ps[1..], from);
      } else {
        var v := Visit(preds, gc, from.cells, {}, ps[0]);
        VisitAdvances(preds, gc, from.cells, {}, ps[0]);
        ScanPredsStamps(preds, gc, marked, ps[1..],
                        if v.height > from.height then Scanned(v.height, Some(ps[0]), v.cells) else from.(cells := v.cells));
      }
    }
  }

  lemma UpdateStamps(s: State, marked: set<Obj>, p: Obj)
    requires GraphOk(s) && StampsOk(s.gc, s.cells)
    ensures StampsOk(s.gc, UpdateMaxHeight(s, marked, p).cells)
  {
    if p in marked && p in s.preds {
      assert p in s.cells ==> p !in InProgress(s.cells);
      ScanPredsStamps(s.preds, s.gc, marked, s.preds[p], Scanned(KnownHeight(s, p), None, s.cells));
    }
  }

  lemma {:induction false} UpdateAllStamps(s: State, marked: set<Obj>, objs: seq<Obj>)
    requires GraphOk(s) && StampsOk(s.gc, s.cells)
    ensures StampsOk(s.gc, UpdateAll(s, marked, objs).cells)
    decreases |objs|
  {
    if objs != [] {
      UpdateStamps(s, marked, objs[0]);
      UpdateAllStamps(UpdateMaxHeight(s, marked, objs[0]), marked, objs[1..]);
    }
  }
}
