// The steps of the search of backwards_height (backgraph.c:364-406), with the search path as
// the program keeps it: a table of objects and the heights that are in progress.
module Search {
  import opened Heights
  import opened Exactness
  import opened SearchTable

  // What the search relies on: an object without a structure has at most one predecessor, only
  // such objects are in the table, each once, and 16 bits of a stamp tell whether a height is
  // current.
  ghost predicate SearchOk(preds: Preds, cells: Cells, path: Path, gc: nat) {
    && Shaped(preds, cells.Keys)
    && NoRepeats(path) && Members(path) !! cells.Keys
    && StampsOk(gc, cells)
  }

  // The objects that are not on the search path.
  ghost function OffPath(preds: Preds, cells: Cells, path: Path): set<Obj> {
    preds.Keys - InProgress(cells) - Members(path)
  }

  ghost function SearchFrom(preds: Preds, cells: Cells, path: Path, gc: nat, p: Obj): Visited
    requires SearchOk(preds, cells, path, gc)
  {
    Visit(preds, gc, cells, Members(path), p)
  }

  // The search of the predecessors `ps` from number i on.
  ghost function SearchRest(preds: Preds, cells: Cells, path: Path, gc: nat, ps: seq<Obj>, i: nat, acc: nat): Visited
    requires SearchOk(preds, cells, path, gc) && i <= |ps|
  {
    VisitAll(preds, gc, cells, Members(path), ps[i..], acc)
  }

  lemma SearchKeeps(preds: Preds, cells: Cells, path: Path, gc: nat, p: Obj)
    requires SearchOk(preds, cells, path, gc)
    ensures var v := SearchFrom(preds, cells, path, gc, p);
            && SearchOk(preds, v.cells, path, gc)
            && OffPath(preds, v.cells, path) == OffPath(preds, cells, path)
  {
    VisitStamps(preds, gc, cells, Members(path), p);
  }

  lemma SearchNext(preds: Preds, cells: Cells, path: Path, gc: nat, ps: seq<Obj>, i: nat, acc: nat)
    requires SearchOk(preds, cells, path, gc) && i < |ps|
    ensures var v := SearchFrom(preds, cells, path, gc, ps[i]);
            && SearchOk(preds, v.cells, path, gc)
            && OffPath(preds, v.cells, path) == OffPath(preds, cells, path)
            && SearchRest(preds, cells, path, gc, ps, i, acc)
               == SearchRest(preds, v.cells, path, gc, ps, i + 1, Raise(acc, v.height))
  {
    SearchKeeps(preds, cells, path, gc, ps[i]);
    assert ps[i..][0] == ps[i] && ps[i..][1..] == ps[i + 1..];
  }

  lemma SearchDone(preds: Preds, cells: Cells, path: Path, gc: nat, ps: seq<Obj>, acc: nat)
    requires SearchOk(preds, cells, path, gc)
    ensures SearchRest(preds, cells, path, gc, ps, |ps|, acc) == Visited(acc, cells)
  {
  }

  // Remembering a height between searches keeps what they rely on.
  lemma RememberKeeps(preds: Preds, cells: Cells, gc: nat, p: Obj, h: nat)
    requires SearchOk(preds, cells, Start, gc) && p in preds && InProgress(cells) == {}
    ensures SearchOk(preds, cells[p := Cell(h, gc)], Start, gc) && InProgress(cells[p := Cell(h, gc)]) == {}
  {
  }

  // Predecessors of what a search visits are visited too.
  lemma PredWithin(preds: Preds, within: set<Obj>, p: Obj, i: nat)
    requires PredClosed(preds, within) && p in within && i < |preds[p]|
    ensures preds[p][i] in within && preds[p][i] in preds
  {
  }

  // ----- Objects with a bare predecessor -----

  lemma BareStep(preds: Preds, cells: Cells, path: Path, gc: nat, p: Obj, q: Obj, within: set<Obj>)
    requires PredClosed(preds, within) && p in within
    requires SearchOk(preds, cells, path, gc) && p in preds && p !in cells && preds[p] == [q] && p !in Members(path)
    ensures SearchOk(preds, cells, Step(path, p), gc) && q in within && q in preds
    ensures OffPath(preds, cells, Step(path, p)) < OffPath(preds, cells, path)
    ensures var v := SearchFrom(preds, cells, Step(path, p), gc, q);
            SearchFrom(preds, cells, path, gc, p) == Visited(v.height + 1, v.cells)
  {
    assert preds[p][0] in within;
    assert p in preds.Keys - InProgress(cells) - Members(path);
  }

  lemma ShorterPath(preds: Preds, cells: Cells, path: Path, gc: nat, p: Obj)
    requires SearchOk(preds, cells, Step(path, p), gc)
    ensures SearchOk(preds, cells, path, gc)
  {
  }

  // ----- Objects with a structure -----

  // When the search returns what is cached, when it meets its own path, and when it goes on.
  lemma StructCase(preds: Preds, cells: Cells, path: Path, gc: nat, p: Obj, stamp: nat)
    requires SearchOk(preds, cells, path, gc) && p in preds && p in cells && stamp == Low16(cells[p].cycle)
    ensures cells[p].height >= 0 && stamp == Low16(gc) ==>
              SearchFrom(preds, cells, path, gc, p) == Visited(cells[p].height, cells)
    ensures cells[p].height == HEIGHT_IN_PROGRESS ==> SearchFrom(preds, cells, path, gc, p) == Visited(0, cells)
    ensures cells[p].height >= 0 && stamp != Low16(gc) ==> !Current(cells[p], gc)
  {
  }

  // p goes on the path.
  lemma StructStart(preds: Preds, cells: Cells, path: Path, gc: nat, p: Obj)
    requires SearchOk(preds, cells, path, gc) && p in preds && p in cells && cells[p].height != HEIGHT_IN_PROGRESS
    ensures SearchOk(preds, Enter(cells, p), path, gc)
    ensures OffPath(preds, Enter(cells, p), path) < OffPath(preds, cells, path)
  {
    assert p in preds.Keys - InProgress(cells) - Members(path);
  }

  // p comes off the path with its height.
  lemma StructFinish(preds: Preds, cells: Cells, path: Path, gc: nat, p: Obj, v: Visited)
    requires SearchOk(preds, cells, path, gc) && p in preds && p in cells && cells[p].height != HEIGHT_IN_PROGRESS
    requires !Current(cells[p], gc) && SearchOk(preds, Enter(cells, p), path, gc)
    requires v == SearchRest(preds, Enter(cells, p), path, gc, preds[p], 0, Max(cells[p].height, 1))
    requires SearchOk(preds, v.cells, path, gc)
    ensures SearchFrom(preds, cells, path, gc, p) == Visited(v.height, Leave(v.cells, p, v.height, gc))
    ensures SearchOk(preds, Leave(v.cells, p, v.height, gc), path, gc)
  {
    assert preds[p][0..] == preds[p];
  }
}
