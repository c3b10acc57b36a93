// What a traversal keeps whatever the marks are: nothing here supposes that what a marked
// object points to is marked.
module AnyMarks {
  import opened Options
  import opened Heights
  import opened Walks
  import opened Exactness
  import opened GraphModel

  // Every cell that the search finished has a height between what the cell held and `h`.
  ghost predicate RaisedUpTo(gc: int, cells: Cells, cells': Cells, h: nat) {
    && cells'.Keys == cells.Keys
    && (forall c :: c in cells ==>
          cells'[c] == cells[c]
          || (!Current(cells[c], gc) && cells'[c].cycle == gc && Max(cells[c].height, 1) <= cells'[c].height <= h))
  }

  lemma RaisedJoin(gc: int, a: Cells, b: Cells, c: Cells, h: nat, k: nat)
    requires RaisedUpTo(gc, a, b, h) && RaisedUpTo(gc, b, c, k) && h <= k
    ensures RaisedUpTo(gc, a, c, k)
  {
  }

  lemma {:induction false} VisitRaises(preds: Preds, gc: int, cells: Cells, table: set<Obj>, p: Obj)
    requires Shaped(preds, cells.Keys) && table !! cells.Keys
    ensures var v := Visit(preds, gc, cells, table, p);
            RaisedUpTo(gc, cells, v.cells, v.height)
    decreases preds.Keys - InProgress(cells) - table, 0
  {
    if p !in preds {
    } else if p !in cells {
      if preds[p] != [] && p !in table {
        VisitRaises(preds, gc, cells, table + {p}, preds[p][0]);
      }
    } else if !Current(cells[p], gc) && cells[p].height != HEIGHT_IN_PROGRESS {
      assert p in preds.Keys - InProgress(cells) - table;
      VisitAllRaises(preds, gc, Enter(cells, p), table, preds[p], Max(cells[p].height, 1));
    }
  }

  lemma {:induction false} VisitAllRaises(preds: Preds, gc: int, cells: Cells, table: set<Obj>, ps: seq<Obj>, acc: nat)
    requires Shaped(preds, cells.Keys) && table !! cells.Keys
    ensures var v := VisitAll(preds, gc, cells, table, ps, acc);
            acc <= v.height && RaisedUpTo(gc, cells, v.cells, v.height)
    decreases preds.Keys - InProgress(cells) - table, |ps|
  {
    if ps != [] {
      VisitRaises(preds, gc, cells, table, ps[0]);
      var v := Visit(preds, gc, cells, table, ps[0]);
      VisitAllRaises(preds, gc, v.cells, table, ps[1..], Raise(acc, v.height));
      RaisedJoin(gc, cells, v.cells, VisitAll(preds, gc, cells, table, ps, acc).cells, v.height,
                 VisitAll(preds, gc, cells, table, ps, acc).height);
    }
  }

  lemma {:induction false} ScanPredsRaises(preds: Preds, gc: nat, marked: set<Obj>, ps: seq<Obj>, from: Scanned)
    requires Shaped(preds, from.cells.Keys)
    ensures var to := ScanPreds(preds, gc, marked, ps, from);
            && from.height <= to.height && RaisedUpTo(gc, from.cells, to.cells, to.height)
            && ((to.height == from.height && to.deepest == from.deepest)
                || (to.deepest.Some? && to.deepest.value !in marked && to.deepest.value in preds))
    decreases |ps|
  {
    if ps != [] {
      var next := ScanStep(preds, gc, marked, ps[0], from);
      if ps[0] !in marked && ps[0] in preds {
        VisitRaises(preds, gc, from.cells, {}, ps[0]);
      }
      ScanPredsRaises(preds, gc, marked, ps[1..], next);
      var to := ScanPreds(preds, gc, marked, ps, from);
      RaisedJoin(gc, from.cells, next.cells, to.cells, next.height, to.height);
    }
  }

  // Heights of this cycle lie between what `was` remembers and `top`; other cells are as in `was`.
  ghost predicate CellsBounded(was: Cells, gc: int, cells: Cells, top: nat) {
    && was.Keys <= cells.Keys
    && (forall c :: c in cells && Current(cells[c], gc) ==> Max(Remembered(Base(was), c), 1) <= cells[c].height <= top)
    && (forall c :: c in cells && !Current(cells[c], gc) ==> c in was && cells[c] == was[c])
  }

  lemma SearchBounded(was: Cells, gc: int, cells: Cells, cells': Cells, top: nat, h: nat)
    requires CellsBounded(was, gc, cells, top) && RaisedUpTo(gc, cells, cells', h)
    ensures CellsBounded(was, gc, cells', Max(top, h))
  {
    forall c | c in cells' && Current(cells'[c], gc)
      ensures Max(Remembered(Base(was), c), 1) <= cells'[c].height <= Max(top, h)
    {
    }
  }

  lemma WrittenBounded(was: Cells, gc: int, cells: Cells, top: nat, p: Obj, h: nat)
    requires CellsBounded(was, gc, cells, top) && Max(Remembered(Base(was), p), 1) <= h <= top
    ensures CellsBounded(was, gc, cells[p := Cell(h, gc)], top)
  {
  }

  // The objects with the RETAIN flag: those that had it in `was` and visited ones. Marked objects
  // that are visited and for which something is remembered are among them, with a height of
  // this cycle.
  ghost predicate RetainBounded(was: State, marked: set<Obj>, done: set<Obj>, retain: set<Obj>, cells: Cells) {
    && retain <= cells.Keys && was.retain <= retain <= was.retain + done
    && (forall c :: c in retain ==> c in was.retain || Current(cells[c], was.gc))
    && (forall c :: c in marked && c in done && c in was.preds && Remembered(Base(was.cells), c) > 0 ==>
          c in retain && Current(cells[c], was.gc))
  }

  lemma RetainStep(was: State, marked: set<Obj>, done: set<Obj>, retain: set<Obj>, cells: Cells, cells': Cells, p: Obj, h: nat)
    requires RetainBounded(was, marked, done, retain, cells) && p in was.preds && Remembered(Base(was.cells), p) <= h
    requires exists k :: RaisedUpTo(was.gc, cells, cells', k)
    ensures h == 0 ==> RetainBounded(was, marked, done + {p}, retain, cells')
    ensures h > 0 ==> RetainBounded(was, marked, done + {p}, retain + {p}, cells'[p := Cell(h, was.gc)])
  {
  }

  // The state in a traversal that began in `s0`, after the objects in `done`.
  ghost predicate Bounded(s0: State, marked: set<Obj>, done: set<Obj>, s: State) {
    && GraphOk(s) && s.preds == s0.preds && s.gc == s0.gc && s.maxMaxHeight == s0.maxMaxHeight
    && CellsBounded(s0.cells, s.gc, s.cells, s.maxHeight)
    && RetainBounded(s0, marked, done, s.retain, s.cells)
    && (Covered(s0) ==> HasHolder(s, marked))
  }

  // A new record has an object with debug info to print, and it is not marked.
  ghost predicate HasHolder(s: State, marked: set<Obj>) {
    s.maxHeight > s.maxMaxHeight ==> s.deepest.Some? && s.deepest.value !in marked && s.deepest.value in s.preds
  }

  // No remembered height is above the record.
  ghost predicate Covered(s: State) {
    forall c :: c in s.cells ==> s.cells[c].height <= s.maxMaxHeight
  }

  // What the traversal starts from: nothing is current or in progress.
  ghost predicate CanStart(s0: State) {
    GraphOk(s0) && Fresh(s0.gc, s0.cells) && s0.maxHeight == 0
  }

  // The height known for an object before its turn: what was remembered, unless the search
  // has passed it.
  lemma KnownBounds(s0: State, marked: set<Obj>, done: set<Obj>, s: State, p: Obj)
    requires CanStart(s0) && Bounded(s0, marked, done, s)
    ensures var h := KnownHeight(s, p);
            h >= 0 && Remembered(Base(s0.cells), p) <= h && (Covered(s0) ==> h <= s.maxHeight || h <= s.maxMaxHeight)
  {
    if p in s.cells {
      assert p !in InProgress(s.cells);
      assert Remembered(Base(s0.cells), p) == if p in s0.cells then Max(s0.cells[p].height, 0) else 0;
    }
  }

  lemma UpdateBounded(s0: State, marked: set<Obj>, done: set<Obj>, s: State, p: Obj)
    requires CanStart(s0) && Bounded(s0, marked, done, s)
    ensures Bounded(s0, marked, done + {p}, UpdateMaxHeight(s, marked, p))
  {
    if p in marked && p in s.preds {
      KnownBounds(s0, marked, done, s, p);
      assert p in s.cells ==> p !in InProgress(s.cells);
      ScanPredsRaises(s.preds, s.gc, marked, s.preds[p], Scanned(KnownHeight(s, p), None, s.cells));
      hide ScanPreds, ScanObject, GraphOk;
      UpdatedBounded(s0, marked, done, s, p, ScanObject(s, marked, p));
    }
  }

  lemma UpdatedBounded(s0: State, marked: set<Obj>, done: set<Obj>, s: State, p: Obj, v: Scanned)
    requires CanStart(s0) && Bounded(s0, marked, done, s) && p in marked && p in s.preds
    requires v == ScanObject(s, marked, p)
    requires Remembered(Base(s0.cells), p) <= KnownHeight(s, p) <= v.height
    requires Covered(s0) ==> KnownHeight(s, p) <= s.maxHeight || KnownHeight(s, p) <= s.maxMaxHeight
    requires RaisedUpTo(s.gc, s.cells, v.cells, v.height)
    requires v.height == KnownHeight(s, p) || (v.deepest.Some? && v.deepest.value !in marked && v.deepest.value in s.preds)
    ensures Bounded(s0, marked, done + {p}, UpdateMaxHeight(s, marked, p))
  {
    UpdatedShape(s, marked, p, v);
    SearchBounded(s0.cells, s.gc, s.cells, v.cells, s.maxHeight, v.height);
    if v.height > 0 {
      WrittenBounded(s0.cells, s.gc, v.cells, Max(s.maxHeight, v.height), p, v.height);
    }
    RetainStep(s0, marked, done, s.retain, s.cells, v.cells, p, v.height);
    HolderKept(s0, marked, s, UpdateMaxHeight(s, marked, p), KnownHeight(s, p), v);
    hide UpdateMaxHeight, ScanObject, Covered, HasHolder, CellsBounded, RetainBounded, RaisedUpTo, KnownHeight, Current, GraphOk;
  }

  // A height raised above what was known names the unmarked object it comes from.
  lemma HolderKept(s0: State, marked: set<Obj>, s: State, s': State, known: int, v: Scanned)
    requires s'.maxHeight == Max(s.maxHeight, v.height) && s'.maxMaxHeight == s.maxMaxHeight && s'.preds == s.preds
    requires s'.deepest == if v.height > s.maxHeight then v.deepest else s.deepest
    requires Covered(s0) ==> HasHolder(s, marked) && (known <= s.maxHeight || known <= s.maxMaxHeight)
    requires v.height == known || (v.deepest.Some? && v.deepest.value !in marked && v.deepest.value in s.preds)
    ensures Covered(s0) ==> HasHolder(s', marked)
  {
  }

  lemma UpdatedShape(s: State, marked: set<Obj>, p: Obj, v: Scanned)
    requires GraphOk(s) && p in marked && p in s.preds && v == ScanObject(s, marked, p)
    ensures var s' := UpdateMaxHeight(s, marked, p);
            && s'.cells == (if v.height > 0 then v.cells[p := Cell(v.height, s.gc)] else v.cells)
            && s'.retain == (if v.height > 0 then s.retain + {p} else s.retain)
            && s'.maxHeight == Max(s.maxHeight, v.height)
            && s'.deepest == (if v.height > s.maxHeight then v.deepest else s.deepest)
  {
    hide ScanObject;
  }

  lemma {:induction false} UpdateAllBounded(s0: State, marked: set<Obj>, done: set<Obj>, s: State, objs: seq<Obj>)
    requires CanStart(s0) && Bounded(s0, marked, done, s)
    ensures Bounded(s0, marked, done + Elements(objs), UpdateAll(s, marked, objs))
    decreases |objs|
  {
    if objs == [] {
      assert done + Elements(objs) == done;
    } else {
      ElementsSplit(objs, done);
      UpdateBounded(s0, marked, done, s, objs[0]);
      UpdateAllBounded(s0, marked, done + {objs[0]}, UpdateMaxHeight(s, marked, objs[0]), objs[1..]);
    }
  }

  // Whatever the marks are and whichever objects are visited, heights of this collection lie
  // between what was remembered and GC_max_height, every marked object that is visited and for
  // which something was remembered is retained, and if nothing remembered was above the record,
  // a new record has an unmarked holder.
  lemma TraverseBounded(s: State, marked: set<Obj>, objs: seq<Obj>)
    requires GraphOk(s) && Fresh(s.gc + 1, s.cells)
    ensures Bounded(s.(gc := s.gc + 1, maxHeight := 0), marked, Elements(objs), Traverse(s, marked, objs))
  {
    var s0 := s.(gc := s.gc + 1, maxHeight := 0);
    UpdateAllBounded(s0, marked, {}, s0, objs);
    assert {} + Elements(objs) == Elements(objs);
  }

  // ----- No chain of unmarked objects is overlooked -----

  // Every walk of unmarked objects to one of the unmarked predecessors `ps` weighs at most h.
  ghost predicate AllBelow(edges: Preds, marked: set<Obj>, base: map<Obj, nat>, ps: seq<Obj>, h: nat) {
    forall i :: 0 <= i < |ps| && ps[i] !in marked ==> Dominates(edges, base, ps[i], h)
  }

  lemma {:induction false} ScanDominates(preds: Preds, gc: nat, marked: set<Obj>, base: map<Obj, nat>, within: set<Obj>,
                                         rank: map<Obj, nat>, ps: seq<Obj>, from: Scanned)
    requires Shaped(preds, from.cells.Keys) && InProgress(from.cells) == {}
    requires Ranked(preds, within, rank) && ScansWithin(preds, marked, ps, within)
    requires Dominating(RestrictPreds(preds, preds.Keys - marked), gc, base, within, from.cells)
    ensures var edges := RestrictPreds(preds, preds.Keys - marked); var to := ScanPreds(preds, gc, marked, ps, from);
            Dominating(edges, gc, base, within, to.cells) && from.height <= to.height && AllBelow(edges, marked, base, ps, to.height)
    decreases |ps|
  {
    if ps != [] {
      var edges := RestrictPreds(preds, preds.Keys - marked);
      if ps[0] !in preds {
        NoWalk(edges, base, ps[0], ScanPreds(preds, gc, marked, ps, from).height);
      } else if ps[0] !in marked {
        VisitDominates(preds, edges, gc, base, within, rank, from.cells, {}, ps[0]);
      }
      ScanDominates(preds, gc, marked, base, within, rank, ps[1..], ScanStep(preds, gc, marked, ps[0], from));
    }
  }

  // What is known after the objects in `done`: finished heights are not too low, and
  // GC_max_height is not below a walk of unmarked objects to a predecessor of one that is done.
  ghost predicate NoneMissed(preds: Preds, marked: set<Obj>, base: map<Obj, nat>, within: set<Obj>, done: set<Obj>, s: State) {
    var edges := RestrictPreds(preds, preds.Keys - marked);
    && Dominating(edges, s.gc, base, within, s.cells)
    && (forall p :: p in marked && p in done && p in preds ==> AllBelow(edges, marked, base, preds[p], s.maxHeight))
  }

  lemma UpdateDominates(s: State, marked: set<Obj>, objs: seq<Obj>, base: map<Obj, nat>, within: set<Obj>, rank: map<Obj, nat>,
                        done: set<Obj>, p: Obj)
    requires GraphOk(s) && Ranked(s.preds, within, rank) && Covers(s.preds, marked, objs, within) && p in objs
    requires NoneMissed(s.preds, marked, base, within, done, s)
    ensures NoneMissed(s.preds, marked, base, within, done + {p}, UpdateMaxHeight(s, marked, p))
  {
    if p in marked && p in s.preds {
      assert p in s.cells ==> p !in InProgress(s.cells);
      PredCovered(s.preds, marked, objs, within, p);
      ScanDominates(s.preds, s.gc, marked, base, within, rank, s.preds[p], Scanned(KnownHeight(s, p), None, s.cells));
      UpdatedShape(s, marked, p, ScanObject(s, marked, p));
      MarkedDominates(s, marked, base, within, done, p, ScanObject(s, marked, p), UpdateMaxHeight(s, marked, p));
    }
  }

  // A height written for a marked object is on no walk of unmarked ones.
  lemma MarkedDominates(s: State, marked: set<Obj>, base: map<Obj, nat>, within: set<Obj>, done: set<Obj>, p: Obj, v: Scanned,
                        t: State)
    requires NoneMissed(s.preds, marked, base, within, done, s) && p in marked && p in s.preds
    requires Dominating(RestrictPreds(s.preds, s.preds.Keys - marked), s.gc, base, within, v.cells)
    requires AllBelow(RestrictPreds(s.preds, s.preds.Keys - marked), marked, base, s.preds[p], v.height)
    requires t.cells == (if v.height > 0 then v.cells[p := Cell(v.height, s.gc)] else v.cells)
    requires t.gc == s.gc && t.maxHeight == Max(s.maxHeight, v.height)
    ensures NoneMissed(s.preds, marked, base, within, done + {p}, t)
  {
    NoWalk(RestrictPreds(s.preds, s.preds.Keys - marked), base, p, v.height);
  }

  lemma {:induction false} UpdateAllDominates(s: State, marked: set<Obj>, all: seq<Obj>, base: map<Obj, nat>, within: set<Obj>,
                                              rank: map<Obj, nat>, done: set<Obj>, objs: seq<Obj>)
    requires GraphOk(s) && Ranked(s.preds, within, rank) && Covers(s.preds, marked, all, within)
    requires NoneMissed(s.preds, marked, base, within, done, s) && (forall p :: p in objs ==> p in all)
    ensures NoneMissed(s.preds, marked, base, within, done + Elements(objs), UpdateAll(s, marked, objs))
    decreases |objs|
  {
    if objs == [] {
      assert done + Elements(objs) == done;
    } else {
      ElementsSplit(objs, done);
      UpdateDominates(s, marked, all, base, within, rank, done, objs[0]);
      UpdateAllDominates(UpdateMaxHeight(s, marked, objs[0]), marked, all, base, within, rank, done + {objs[0]}, objs[1..]);
    }
  }

  // Whatever the marks are: where the recorded edges that the searches read form no cycle, no
  // walk of unmarked objects to a predecessor of a visited marked object weighs more than
  // GC_max_height.
  lemma TraverseDominates(s: State, marked: set<Obj>, objs: seq<Obj>, within: set<Obj>, rank: map<Obj, nat>)
    requires GraphOk(s) && Fresh(s.gc + 1, s.cells)
    requires Covers(s.preds, marked, objs, within) && Ranked(s.preds, within, rank)
    ensures forall p :: p in marked && p in objs && p in s.preds ==>
              AllBelow(RestrictPreds(s.preds, s.preds.Keys - marked), marked, Base(s.cells), s.preds[p],
                       Traverse(s, marked, objs).maxHeight)
  {
    var s0 := s.(gc := s.gc + 1, maxHeight := 0);
    UpdateAllDominates(s0, marked, objs, Base(s.cells), within, rank, {}, objs);
  }
}
