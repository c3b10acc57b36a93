// Walks along recorded edges, oldest ancestor first, and their weights. These say what a
// height ought to be, without mentioning the search that computes it.
module Walks {
  import opened Heights

  type Walk = seq<Obj>

  // The remembered height of an object: 0 when there is none.
  function Remembered(base: map<Obj, nat>, p: Obj): nat {
    if p in base then base[p] else 0
  }

  // The heights that survive in `cells` from an earlier collection.
  function Base(cells: Cells): (base: map<Obj, nat>)
    ensures base.Keys == cells.Keys
    ensures forall c :: c in cells ==> base[c] == Max(cells[c].height, 0)
  {
    map c | c in cells :: Max(cells[c].height, 0)
  }

  ghost predicate IsWalk(preds: Preds, w: Walk) {
    && (forall i :: 0 <= i < |w| ==> w[i] in preds)
    && (forall i :: 0 <= i < |w| - 1 ==> w[i] in preds[w[i + 1]])
  }

  ghost predicate IsWalkTo(preds: Preds, w: Walk, p: Obj) {
    |w| > 0 && w[|w| - 1] == p && IsWalk(preds, w)
  }

  // No step of w stays at the same object.
  ghost predicate Moves(w: Walk) {
    forall i :: 0 <= i < |w| - 1 ==> w[i] != w[i + 1]
  }

  // Between two places of w with the same object stands one of `structs`.
  ghost predicate Spaced(structs: set<Obj>, w: Walk) {
    forall i, j :: 0 <= i < j < |w| && w[i] == w[j] ==> HasWithin(structs, w, i + 1, j)
  }

  ghost predicate HasWithin(structs: set<Obj>, w: Walk, i: int, j: int)
    requires 0 <= i && j <= |w|
  {
    exists k :: i <= k < j && w[k] in structs
  }

  // What comes after the last of `structs` on w avoids `table`.
  ghost predicate TailAvoids(structs: set<Obj>, w: Walk, table: set<Obj>) {
    forall i :: 0 <= i < |w| && w[i] in table ==> HasWithin(structs, w, i + 1, |w|)
  }

  // w repeats none of `structs`, and no other object without one of them in between.
  ghost predicate Simple(structs: set<Obj>, w: Walk) {
    && (forall i, j :: 0 <= i < j < |w| && w[i] in structs ==> w[i] != w[j])
    && (forall i, j :: 0 <= i < j < |w| && w[i] == w[j] ==> exists k :: i < k < j && w[k] in structs)
  }

  lemma SimpleMoves(structs: set<Obj>, w: Walk)
    requires Simple(structs, w)
    ensures Moves(w)
  {
  }

  lemma ExtendSpaced(structs: set<Obj>, w: Walk, table: set<Obj>, p: Obj)
    requires Spaced(structs, w) && TailAvoids(structs, w, table + {p}) && p !in table
    ensures Spaced(structs, w + [p]) && TailAvoids(structs, w + [p], table)
  {
    HasWithinGrows(structs, w, p);
  }

  lemma HasWithinGrows(structs: set<Obj>, w: Walk, p: Obj)
    ensures forall i, j :: 0 <= i && j <= |w| && HasWithin(structs, w, i, j) ==> HasWithin(structs, w + [p], i, j)
    ensures forall i :: 0 <= i && HasWithin(structs, w, i, |w|) ==> HasWithin(structs, w + [p], i, |w| + 1)
  {
    forall i, j | 0 <= i && j <= |w| && HasWithin(structs, w, i, j)
      ensures HasWithin(structs, w + [p], i, j) && HasWithin(structs, w + [p], i, |w| + 1)
    {
      var k :| i <= k < j && w[k] in structs;
      assert (w + [p])[k] in structs;
    }
  }

  // A walk that ends at one of `structs` it has not passed.
  lemma EndSpaced(structs: set<Obj>, w: Walk, p: Obj)
    requires Spaced(structs, w) && p in structs && p !in w
    ensures Spaced(structs, w + [p])
  {
    HasWithinGrows(structs, w, p);
  }

  lemma EndAvoids(structs: set<Obj>, w: Walk, table: set<Obj>)
    requires |w| > 0 && w[|w| - 1] in structs && table !! structs
    ensures TailAvoids(structs, w, table)
  {
    forall i | 0 <= i < |w| && w[i] in table
      ensures HasWithin(structs, w, i + 1, |w|)
    {
      assert w[|w| - 1] in structs;
    }
  }

  // The number of nodes of w, when nothing is remembered for its first node; otherwise the
  // remembered height of the first node plus the number of nodes after it.
  ghost function Weight(base: map<Obj, nat>, w: Walk): nat
    requires |w| > 0
  {
    Max(Remembered(base, w[0]), 1) + |w| - 1
  }

  ghost predicate Dominates(preds: Preds, base: map<Obj, nat>, p: Obj, h: int) {
    forall w :: IsWalkTo(preds, w, p) ==> Weight(base, w) <= h
  }

  ghost predicate DominatesAll(preds: Preds, base: map<Obj, nat>, ps: seq<Obj>, h: int) {
    forall i :: 0 <= i < |ps| ==> Dominates(preds, base, ps[i], h)
  }

  // h is the largest weight of a walk to p.
  ghost predicate IsLongest(preds: Preds, base: map<Obj, nat>, p: Obj, h: int) {
    && (exists w :: IsWalkTo(preds, w, p) && Weight(base, w) == h)
    && Dominates(preds, base, p, h)
  }

  lemma ExtendWalk(preds: Preds, base: map<Obj, nat>, w: Walk, q: Obj, p: Obj)
    requires IsWalkTo(preds, w, q) && p in preds && q in preds[p]
    ensures IsWalkTo(preds, w + [p], p) && Weight(base, w + [p]) == Weight(base, w) + 1
  {
  }

  lemma SingletonWalk(preds: Preds, base: map<Obj, nat>, p: Obj)
    requires p in preds
    ensures IsWalkTo(preds, [p], p) && Weight(base, [p]) == Max(Remembered(base, p), 1)
  {
  }

  // No walk leads to something that is not an object.
  lemma NoWalk(preds: Preds, base: map<Obj, nat>, q: Obj, h: int)
    requires q !in preds
    ensures Dominates(preds, base, q, h)
  {
  }

  // An object is dominated by one more than what dominates its predecessors.
  lemma DominatesStep(preds: Preds, base: map<Obj, nat>, p: Obj, h: int)
    requires h >= Max(Remembered(base, p), 1)
    requires p in preds ==> DominatesAll(preds, base, preds[p], h - 1)
    ensures Dominates(preds, base, p, h)
  {
    forall w | IsWalkTo(preds, w, p)
      ensures Weight(base, w) <= h
    {
      if |w| > 1 {
        var u, q := w[..|w| - 1], w[|w| - 2];
        assert w[|w| - 2] in preds[w[|w| - 2 + 1]];
        assert IsWalkTo(preds, u, q);
      }
    }
  }

  // The graph with some of its objects left out: walks avoid them.
  ghost predicate IsPart(edges: Preds, preds: Preds) {
    edges.Keys <= preds.Keys && (forall q :: q in edges ==> edges[q] == preds[q])
  }

  function RestrictPreds(preds: Preds, within: set<Obj>): Preds {
    map q | q in preds && q in within :: preds[q]
  }

  // A walk to an object of a set closed under predecessors stays in the set.
  lemma {:induction false} WalkInside(preds: Preds, within: set<Obj>, w: Walk, p: Obj)
    requires PredClosed(preds, within) && p in within && IsWalkTo(preds, w, p)
    ensures IsWalkTo(RestrictPreds(preds, within), w, p)
    ensures forall i :: 0 <= i < |w| ==> w[i] in within
    decreases |w|
  {
    if |w| > 1 {
      assert w[|w| - 2] in preds[w[|w| - 2 + 1]];
      WalkInside(preds, within, w[..|w| - 1], w[|w| - 2]);
      forall i | 0 <= i < |w|
        ensures w[i] in within
      {
        if i < |w| - 1 {
          assert w[i] == w[..|w| - 1][i];
        }
      }
    }
  }

  // No walk revisits a node exactly when the nodes can be ranked along the edges.
  ghost predicate Ranked(preds: Preds, within: set<Obj>, rank: map<Obj, nat>) {
    && within <= preds.Keys && within <= rank.Keys
    && (forall p, q :: p in within && q in preds[p] ==> q in within && rank[q] < rank[p])
  }

  // `within` is closed under predecessors and no walk inside it comes back to its start.
  ghost predicate Acyclic(preds: Preds, within: set<Obj>) {
    && within <= preds.Keys
    && (forall p, q :: p in within && q in preds[p] ==> q in within)
    && (forall w :: IsWalk(preds, w) && |w| > 1 && w[|w| - 1] in within ==> w[0] != w[|w| - 1])
  }
}
