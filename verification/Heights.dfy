// Heights of objects in the backward points-to graph (backgraph.c:364-406), on values:
// a graph is a map from each object to the sequence of its recorded predecessors, and a
// cell is the cached height of an object that owns a back_edges structure.
module Heights {
  type Obj = nat

  const HEIGHT_UNKNOWN := -2
  const HEIGHT_IN_PROGRESS := -1

  type Height = h: int | HEIGHT_UNKNOWN <= h witness HEIGHT_UNKNOWN

  // `cycle` is the full number of the collection in which the height was computed.
  // The program keeps only its low 16 bits; module Arena relates the two.
  datatype Cell = Cell(height: Height, cycle: int)

  // (unsigned short)
  function Low16(n: int): nat {
    n % 0x1_0000
  }

  // The test on 16 bits is the test on the whole number, when that is at most 65535 behind.
  lemma StampTest(cycle: int, gc: int)
    requires gc - 0x1_0000 < cycle <= gc
    ensures Low16(cycle) == Low16(gc) <==> cycle == gc
  {
    if Low16(cycle) == Low16(gc) {
      var k := gc / 0x1_0000 - cycle / 0x1_0000;
      assert gc - cycle == 0x1_0000 * k;
    }
  }

  type Preds = map<Obj, seq<Obj>>
  type Cells = map<Obj, Cell>

  // Structures belong to objects of the graph, and an object without one has at most one
  // predecessor.
  ghost predicate Shaped(preds: Preds, chunked: set<Obj>) {
    chunked <= preds.Keys && (forall q :: q in preds && q !in chunked ==> |preds[q]| <= 1)
  }

  // Every predecessor of an object in `within` is in `within`.
  ghost predicate PredClosed(preds: Preds, within: set<Obj>) {
    within <= preds.Keys && (forall q, i :: q in within && 0 <= i < |preds[q]| ==> preds[q][i] in within)
  }

  // Moreover every predecessor is an object of the graph.
  ghost predicate WellFormed(preds: Preds, chunked: set<Obj>) {
    Shaped(preds, chunked) && PredClosed(preds, preds.Keys)
  }

  predicate Current(c: Cell, gc: int) {
    c.height >= 0 && c.cycle == gc
  }

  function InProgress(cells: Cells): set<Obj> {
    set c | c in cells && cells[c].height == HEIGHT_IN_PROGRESS
  }

  ghost predicate Distinct(xs: seq<Obj>) {
    forall i, j :: 0 <= i < j < |xs| ==> xs[i] != xs[j]
  }

  function Elements(xs: seq<Obj>): set<Obj> {
    set x | x in xs
  }

  lemma ElementsSplit(xs: seq<Obj>, done: set<Obj>)
    requires xs != []
    ensures done + {xs[0]} + Elements(xs[1..]) == done + Elements(xs)
    ensures Distinct(xs) ==> Distinct(xs[1..]) && xs[0] !in xs[1..]
  {
    assert xs == [xs[0]] + xs[1..];
  }

  function Max(a: int, b: int): int {
    if a < b then b else a
  }

  datatype Visited = Visited(height: nat, cells: Cells)

  // The depth-first search. Objects on the search path are those in `table` (objects with
  // a bare back pointer) and those whose cell is in progress (objects with a structure). The
  // program never asks for the height of something that is not an object; here it is 1.
  ghost function Visit(preds: Preds, gc: int, cells: Cells, table: set<Obj>, p: Obj): (v: Visited)
    requires Shaped(preds, cells.Keys) && table !! cells.Keys
    ensures v.cells.Keys == cells.Keys
    ensures InProgress(v.cells) == InProgress(cells)
    decreases preds.Keys - InProgress(cells) - table, 0
  {
    if p !in preds then Visited(1, cells)
    else if p !in cells then
      if preds[p] == [] then Visited(1, cells)
      else if p in table then Visited(0, cells)
      else
        var v := Visit(preds, gc, cells, table + {p}, preds[p][0]);
        Visited(v.height + 1, v.cells)
    else if Current(cells[p], gc) then Visited(cells[p].height, cells)
    else if cells[p].height == HEIGHT_IN_PROGRESS then Visited(0, cells)
    else
      assert p in preds.Keys - InProgress(cells) - table;
      var v := VisitAll(preds, gc, Enter(cells, p), table, preds[p], Max(cells[p].height, 1));
      Visited(v.height, v.cells[p := Cell(v.height, gc)])
  }

  // Visits `ps` in order; the running result starts at `acc`.
  ghost function VisitAll(preds: Preds, gc: int, cells: Cells, table: set<Obj>, ps: seq<Obj>, acc: nat): (v: Visited)
    requires Shaped(preds, cells.Keys) && table !! cells.Keys
    ensures v.cells.Keys == cells.Keys
    ensures InProgress(v.cells) == InProgress(cells)
    decreases preds.Keys - InProgress(cells) - table, |ps|
  {
    if ps == [] then Visited(acc, cells)
    else
      var v := Visit(preds, gc, cells, table, ps[0]);
      VisitAll(preds, gc, v.cells, table, ps[1..], Raise(acc, v.height))
  }

  function Raise(acc: nat, h: nat): nat {
    if h >= acc then h + 1 else acc
  }

  // Puts p on the search path.
  function Enter(cells: Cells, p: Obj): (r: Cells)
    requires p in cells
    ensures InProgress(r) == InProgress(cells) + {p}
  {
    cells[p := Cell(HEIGHT_IN_PROGRESS, cells[p].cycle)]
  }

  // Takes p off the search path and caches its height.
  function Leave(cells: Cells, p: Obj, h: nat, gc: int): (r: Cells)
    requires p in cells
    ensures InProgress(r) == InProgress(cells) - {p}
  {
    cells[p := Cell(h, gc)]
  }
}
