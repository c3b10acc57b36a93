// On which graphs the height is the longest path: exactly where no cycle leads to the object.
module CycleFree {
  import opened FiniteSets
  import opened Heights
  import opened Walks
  import opened Exactness

  // ----- Without a cycle the objects can be ranked -----

  lemma {:induction false} DistinctCount(w: Walk)
    requires Distinct(w)
    ensures |Elements(w)| == |w|
  {
    if w != [] {
      var u, x := w[..|w| - 1], w[|w| - 1];
      DistinctCount(u);
      assert forall i :: 0 <= i < |u| ==> u[i] == w[i];
      assert x !in u;
      assert w == u + [x];
      assert Elements(w) == Elements(u) + {x};
    }
  }

  // A sequence longer than the set it stays in repeats an element.
  lemma Repeats(w: Walk, s: set<Obj>)
    requires |w| > |s| && (forall i :: 0 <= i < |w| ==> w[i] in s)
    ensures !Distinct(w)
  {
    if Distinct(w) {
      DistinctCount(w);
      SubsetSize(Elements(w), s);
    }
  }

  ghost predicate HasSuccessor(preds: Preds, s: set<Obj>, x: Obj) {
    exists y :: y in s && y in preds && x in preds[y]
  }

  // Where every object has a successor there are walks of every length.
  lemma {:induction false} LongWalk(preds: Preds, s: set<Obj>, x: Obj, n: nat) returns (w: Walk)
    requires s <= preds.Keys && x in s && (forall y :: y in s ==> HasSuccessor(preds, s, y))
    ensures |w| == n + 1 && IsWalk(preds, w) && (forall i :: 0 <= i < |w| ==> w[i] in s)
  {
    w := [x];
    if n > 0 {
      var u := LongWalk(preds, s, x, n - 1);
      assert HasSuccessor(preds, s, u[|u| - 1]);
      var y :| y in s && u[|u| - 1] in preds[y];
      ExtendWalk(preds, map[], u, u[|u| - 1], y);
      w := u + [y];
    }
  }

  lemma WalkPart(preds: Preds, w: Walk, i: nat, j: nat)
    requires IsWalk(preds, w) && i <= j < |w|
    ensures IsWalk(preds, w[i..j + 1])
  {
    var u := w[i..j + 1];
    forall k | 0 <= k < |u| - 1
      ensures u[k] in preds[u[k + 1]]
    {
      assert w[i + k] in preds[w[i + k + 1]];
    }
  }

  // A walk longer than the set it stays in goes round a cycle.
  lemma CycleIn(preds: Preds, s: set<Obj>, w: Walk) returns (c: Walk)
    requires IsWalk(preds, w) && |w| > |s| && (forall i :: 0 <= i < |w| ==> w[i] in s)
    ensures IsWalk(preds, c) && |c| > 1 && c[|c| - 1] in s && c[0] == c[|c| - 1]
  {
    Repeats(w, s);
    var i, j :| 0 <= i < j < |w| && w[i] == w[j];
    WalkPart(preds, w, i, j);
    c := w[i..j + 1];
  }

  lemma LongWalkCycle(preds: Preds, s: set<Obj>, x: Obj)
    requires s <= preds.Keys && x in s && (forall y :: y in s ==> HasSuccessor(preds, s, y))
    ensures !Acyclic(preds, s)
  {
    var w := LongWalk(preds, s, x, |s|);
    var c := CycleIn(preds, s, w);
  }

  // Some object of a cycle-free set points to no other object of the set.
  lemma LastExists(preds: Preds, s: set<Obj>) returns (x: Obj)
    requires Acyclic(preds, s) && s != {}
    ensures x in s && !HasSuccessor(preds, s, x)
  {
    var y :| y in s;
    if forall z :: z in s ==> HasSuccessor(preds, s, z) {
      LongWalkCycle(preds, s, y);
    }
    x :| x in s && !HasSuccessor(preds, s, x);
  }

  lemma {:induction false} AcyclicRanked(preds: Preds, within: set<Obj>) returns (rank: map<Obj, nat>)
    requires Acyclic(preds, within)
    ensures Ranked(preds, within, rank) && rank.Keys == within
    ensures forall x :: x in rank ==> rank[x] < |within|
    decreases |within|
  {
    rank := map[];
    if within != {} {
      var x := LastExists(preds, within);
      var rest := within - {x};
      assert forall p, q :: p in rest && q in preds[p] ==> q in rest;
      var r := AcyclicRanked(preds, rest);
      rank := r[x := |rest|];
    }
  }

  lemma {:induction false} RankGrows(preds: Preds, within: set<Obj>, rank: map<Obj, nat>, w: Walk)
    requires Ranked(preds, within, rank) && IsWalk(preds, w) && |w| > 1 && w[|w| - 1] in within
    ensures w[0] in within && rank[w[0]] < rank[w[|w| - 1]]
  {
    var u := w[..|w| - 1];
    assert w[|w| - 2] in preds[w[|w| - 2 + 1]];
    if |u| > 1 {
      RankGrows(preds, within, rank, u);
    }
  }

  // No walk inside a set closed under predecessors comes back to its start exactly when the
  // set can be ranked along the edges.
  lemma AcyclicIffRanked(preds: Preds, within: set<Obj>)
    ensures Acyclic(preds, within) <==> exists rank :: Ranked(preds, within, rank)
  {
    if Acyclic(preds, within) {
      var rank := AcyclicRanked(preds, within);
    }
    forall rank | Ranked(preds, within, rank)
      ensures Acyclic(preds, within)
    {
      forall w | IsWalk(preds, w) && |w| > 1 && w[|w| - 1] in within
        ensures w[0] != w[|w| - 1]
      {
        RankGrows(preds, within, rank, w);
      }
    }
  }

  // ----- With a cycle there is no longest walk -----

  // The objects from which a walk leads to p.
  ghost predicate LeadsTo(preds: Preds, q: Obj, p: Obj) {
    exists w :: IsWalkTo(preds, w, p) && w[0] == q
  }

  ghost function Ancestors(preds: Preds, p: Obj): set<Obj> {
    set q | q in preds && LeadsTo(preds, q, p)
  }

  lemma JoinWalks(preds: Preds, u: Walk, w: Walk)
    requires IsWalk(preds, u) && IsWalk(preds, w) && |u| > 0 && |w| > 0 && u[|u| - 1] == w[0]
    ensures IsWalkTo(preds, u + w[1..], w[|w| - 1]) && (u + w[1..])[0] == u[0]
  {
    var v := u + w[1..];
    forall k | 0 <= k < |v| - 1
      ensures v[k] in preds[v[k + 1]]
    {
      if k >= |u| - 1 {
        var j := k - (|u| - 1);
        assert w[j] in preds[w[j + 1]];
        assert v[k] == w[j] && v[k + 1] == w[j + 1];
      }
    }
  }

  lemma AncestorsClosed(preds: Preds, p: Obj)
    requires p in preds && (forall q, i :: q in preds && 0 <= i < |preds[q]| ==> preds[q][i] in preds)
    ensures p in Ancestors(preds, p)
    ensures forall q, r :: q in Ancestors(preds, p) && r in preds[q] ==> r in Ancestors(preds, p)
  {
    assert IsWalkTo(preds, [p], p) && [p][0] == p;
    forall q, r | q in Ancestors(preds, p) && r in preds[q]
      ensures r in Ancestors(preds, p)
    {
      var w :| IsWalkTo(preds, w, p) && w[0] == q;
      var i :| 0 <= i < |preds[q]| && preds[q][i] == r;
      assert IsWalk(preds, [r, q]);
      JoinWalks(preds, [r, q], w);
    }
  }

  // Going n times round a cycle.
  lemma {:induction false} Around(preds: Preds, w: Walk, n: nat) returns (u: Walk)
    requires IsWalk(preds, w) && |w| > 1 && w[0] == w[|w| - 1]
    ensures IsWalkTo(preds, u, w[0]) && |u| > n
  {
    u := [w[0]];
    if n > 0 {
      var v := Around(preds, w, n - 1);
      JoinWalks(preds, v, w);
      u := v + w[1..];
    }
  }

  lemma CycleUnbounded(preds: Preds, base: map<Obj, nat>, p: Obj, w: Walk, h: int)
    requires IsWalk(preds, w) && |w| > 1 && w[0] == w[|w| - 1] && LeadsTo(preds, w[0], p)
    ensures !Dominates(preds, base, p, h)
  {
    var tail :| IsWalkTo(preds, tail, p) && tail[0] == w[0];
    var u := Around(preds, w, if h > 0 then h else 0);
    JoinWalks(preds, u, tail);
    assert Weight(base, u + tail[1..]) > h;
  }

  // The height of p, after any earlier calls, is the largest weight of a walk to p exactly
  // when no cycle of recorded edges leads to p.
  lemma HeightExactIff(preds: Preds, gc: int, cells: Cells, qs: seq<Obj>, p: Obj)
    requires WellFormed(preds, cells.Keys) && Fresh(gc, cells) && p in preds
    requires forall q :: q in qs ==> q in preds
    ensures IsLongest(preds, Base(cells), p, Visit(preds, gc, AfterCalls(preds, gc, cells, qs), {}, p).height)
            <==> Acyclic(preds, Ancestors(preds, p))
  {
    AncestorsClosed(preds, p);
    var h := Visit(preds, gc, AfterCalls(preds, gc, cells, qs), {}, p).height;
    if Acyclic(preds, Ancestors(preds, p)) {
      var rank := AcyclicRanked(preds, Ancestors(preds, p));
      HeightIsExact(preds, gc, Ancestors(preds, p), rank, cells, qs, p);
    } else {
      var w :| IsWalk(preds, w) && |w| > 1 && w[|w| - 1] in Ancestors(preds, p) && w[0] == w[|w| - 1];
      CycleUnbounded(preds, Base(cells), p, w, h);
    }
  }

  // A walk leads from q back to q.
  ghost predicate OnCycle(preds: Preds, q: Obj) {
    exists w :: IsWalkTo(preds, w, q) && |w| > 1 && w[0] == q
  }

  // Where nothing is remembered, the height is never above the longest path that repeats no
  // object, as long as every object that lies on a cycle and leads to p owns a structure.
  lemma StructuresNeverTooHigh(preds: Preds, gc: int, cells: Cells, qs: seq<Obj>, p: Obj)
    requires WellFormed(preds, cells.Keys) && Fresh(gc, cells) && p in preds
    requires forall q :: q in qs ==> q in preds
    requires forall c :: c in cells ==> cells[c].height <= 0
    requires forall q :: q in Ancestors(preds, p) && OnCycle(preds, q) ==> q in cells
    ensures exists w :: IsWalkTo(preds, w, p) && Distinct(w)
                        && |w| == Visit(preds, gc, AfterCalls(preds, gc, cells, qs), {}, p).height
  {
    hide Visit, AfterCalls, OnCycle, IsWalkTo;
    HeightIsWalk(preds, gc, cells, qs, p);
    var h := Visit(preds, gc, AfterCalls(preds, gc, cells, qs), {}, p).height;
    var w :| IsWalkTo(preds, w, p) && |w| == h && Simple(cells.Keys, w);
    forall i, j | 0 <= i < j < |w|
      ensures w[i] != w[j]
    {
      if w[i] == w[j] {
        RepeatedOnCycle(preds, w, p, i, j);
      }
    }
  }

  lemma RepeatedOnCycle(preds: Preds, w: Walk, p: Obj, i: nat, j: nat)
    requires IsWalkTo(preds, w, p) && i < j < |w| && w[i] == w[j]
    ensures w[i] in Ancestors(preds, p) && OnCycle(preds, w[i])
  {
    WalkPart(preds, w, i, j);
    assert IsWalkTo(preds, w[i..j + 1], w[i]) && w[i..j + 1][0] == w[i];
    WalkPart(preds, w, i, |w| - 1);
    assert w[i..|w| - 1 + 1][0] == w[i] && IsWalkTo(preds, w[i..|w| - 1 + 1], p);
  }

  // ----- Objects without structures -----

  // The search along bare pointers: it counts the objects it comes to, up to one in the table.
  lemma {:induction false} VisitBare(preds: Preds, gc: int, cells: Cells, table: set<Obj>, within: set<Obj>, p: Obj)
    returns (r: set<Obj>)
    requires WellFormed(preds, cells.Keys) && table !! cells.Keys && TableOk(preds, table)
    requires PredClosed(preds, within) && within !! cells.Keys && p in within && p !in table
    ensures Visit(preds, gc, cells, table, p).height == |r| && p in r && r <= within && r !! table
    ensures forall q, i :: q in r && 0 <= i < |preds[q]| ==> preds[q][i] in r + table
    decreases preds.Keys - InProgress(cells) - table
  {
    r := {p};
    if preds[p] != [] {
      var q := preds[p][0];
      if q !in table + {p} {
        var r' := VisitBare(preds, gc, cells, table + {p}, within, q);
        r := r' + {p};
      }
    }
  }

  // Where no object that leads to p owns a structure, the height is the number of those objects,
  // on a cycle or not.
  lemma BareHeight(preds: Preds, gc: int, cells: Cells, qs: seq<Obj>, p: Obj)
    requires WellFormed(preds, cells.Keys) && p in preds && Ancestors(preds, p) !! cells.Keys
    requires forall q :: q in qs ==> q in preds
    ensures Visit(preds, gc, AfterCalls(preds, gc, cells, qs), {}, p).height == |Ancestors(preds, p)|
  {
    AncestorsClosed(preds, p);
    hide Visit, AfterCalls, WellFormed;
    var r := VisitBare(preds, gc, AfterCalls(preds, gc, cells, qs), {}, Ancestors(preds, p), p);
    forall q | q in Ancestors(preds, p)
      ensures q in r
    {
      var w :| IsWalkTo(preds, w, p) && w[0] == q;
      WalkInside(preds, r, w, p);
    }
    assert r == Ancestors(preds, p);
  }

  // ----- What happens on a cycle -----

  // Two objects that point to each other.
  function Pair(): Preds {
    map[0 := [1], 1 := [0]]
  }

  // No walk visits more than two different objects, and [0, 1] visits two.
  lemma PairWalks()
    ensures forall w :: IsWalk(Pair(), w) && Distinct(w) ==> |w| <= 2
    ensures IsWalkTo(Pair(), [0, 1], 1) && Distinct([0, 1])
  {
    forall w | IsWalk(Pair(), w) && Distinct(w)
      ensures |w| <= 2
    {
      assert forall i :: 0 <= i < |w| ==> w[i] in {0, 1};
      if |w| > 2 {
        Repeats(w, {0, 1});
      }
    }
  }

  // The search from an object with a structure, one predecessor and no current height.
  lemma StructOfOne(preds: Preds, gc: int, cells: Cells, p: Obj, q: Obj)
    requires WellFormed(preds, cells.Keys) && p in preds && preds[p] == [q] && q in preds
    requires p in cells && cells[p].height == HEIGHT_UNKNOWN
    ensures var v := Visit(preds, gc, Enter(cells, p), {}, q);
            var h := Raise(1, v.height);
            Visit(preds, gc, cells, {}, p) == Visited(h, v.cells[p := Cell(h, gc)])
  {
    assert [q][1..] == [];
    var v := Visit(preds, gc, Enter(cells, p), {}, q);
    assert VisitAll(preds, gc, Enter(cells, p), {}, preds[p], 1) == Visited(Raise(1, v.height), v.cells);
  }

  lemma AfterOne(preds: Preds, gc: int, cells: Cells, q: Obj)
    requires WellFormed(preds, cells.Keys) && q in preds
    ensures AfterCalls(preds, gc, cells, [q]) == Visit(preds, gc, cells, {}, q).cells
  {
    assert [q][..0] == [];
  }

  // The search from an object with a bare predecessor.
  lemma BareOf(preds: Preds, gc: int, cells: Cells, p: Obj)
    requires WellFormed(preds, cells.Keys) && p in preds && p !in cells && preds[p] != []
    ensures var v := Visit(preds, gc, cells, {p}, preds[p][0]);
            Visit(preds, gc, cells, {}, p) == Visited(v.height + 1, v.cells)
  {
    assert {} + {p} == {p};
  }

  // On a cycle the height can exceed the longest path that repeats no object: when object 1
  // has a structure and its height is asked for first, object 0 has height 3.
  lemma TooHighOnCycle()
    ensures var cells: Cells := map[1 := Cell(HEIGHT_UNKNOWN, 0)];
            && WellFormed(Pair(), cells.Keys) && Fresh(1, cells)
            && Visit(Pair(), 1, AfterCalls(Pair(), 1, cells, [1]), {}, 0).height == 3
            && (forall w :: IsWalk(Pair(), w) && Distinct(w) ==> |w| <= 2)
  {
    PairWalks();
    var cells: Cells := map[1 := Cell(HEIGHT_UNKNOWN, 0)];
    BareOf(Pair(), 1, Enter(cells, 1), 0);
    StructOfOne(Pair(), 1, cells, 1, 0);
    AfterOne(Pair(), 1, cells, 1);
    BareOf(Pair(), 1, Visit(Pair(), 1, cells, {}, 1).cells, 0);
  }

  // It can also fall short of one: when both have structures and object 0 is asked for
  // first, object 1 is cached as 1.
  lemma TooLowOnCycle()
    ensures var cells: Cells := map[0 := Cell(HEIGHT_UNKNOWN, 0), 1 := Cell(HEIGHT_UNKNOWN, 0)];
            && WellFormed(Pair(), cells.Keys) && Fresh(1, cells)
            && Visit(Pair(), 1, AfterCalls(Pair(), 1, cells, [0]), {}, 1).height == 1
            && IsWalkTo(Pair(), [0, 1], 1) && Distinct([0, 1])
  {
    PairWalks();
    var cells: Cells := map[0 := Cell(HEIGHT_UNKNOWN, 0), 1 := Cell(HEIGHT_UNKNOWN, 0)];
    StructOfOne(Pair(), 1, Enter(cells, 0), 1, 0);
    StructOfOne(Pair(), 1, cells, 0, 1);
    AfterOne(Pair(), 1, cells, 0);
  }
}
