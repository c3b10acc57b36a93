// What the depth-first search computes, in terms of walks.
module Exactness {
  import opened Heights
  import opened Walks

  type Witnesses = map<Obj, Walk>

  // A walk to p on which every object with a structure is already finished, none of them occurs
  // twice, and no other object occurs twice without one of them in between.
  ghost predicate GoodWalk(preds: Preds, gc: int, cells: Cells, w: Walk, p: Obj) {
    && IsWalkTo(preds, w, p) && Spaced(cells.Keys, w)
    && (forall i :: 0 <= i < |w| && w[i] in cells ==> Current(cells[w[i]], gc))
    && (forall i, j :: 0 <= i < j < |w| && w[i] in cells ==> w[i] != w[j])
  }

  // Unfinished cells still hold what was remembered at the start.
  ghost predicate Untouched(gc: int, base: map<Obj, nat>, cells: Cells) {
    && (forall c :: c in base ==> c in cells)
    && (forall c :: c in cells && !Current(cells[c], gc) && cells[c].height != HEIGHT_IN_PROGRESS ==>
          Max(cells[c].height, 0) == Remembered(base, c))
  }

  ghost predicate Witnessed(preds: Preds, gc: int, base: map<Obj, nat>, cells: Cells, ws: Witnesses) {
    && Untouched(gc, base, cells)
    && (forall c :: c in cells && Current(cells[c], gc) ==> c in ws)
    && (forall c {:trigger ws[c]} :: c in cells && Current(cells[c], gc) ==>
          GoodWalk(preds, gc, cells, ws[c], c) && Weight(base, ws[c]) == cells[c].height)
  }

  // The search only finishes cells, it never changes a finished one.
  ghost predicate Advanced(gc: int, cells: Cells, cells': Cells) {
    && cells'.Keys == cells.Keys
    && (forall c :: c in cells ==> cells'[c] == cells[c] || (!Current(cells[c], gc) && Current(cells'[c], gc)))
  }

  lemma {:induction false} VisitAdvances(preds: Preds, gc: int, cells: Cells, table: set<Obj>, p: Obj)
    requires Shaped(preds, cells.Keys) && table !! cells.Keys
    ensures Advanced(gc, cells, Visit(preds, gc, cells, table, p).cells)
    decreases preds.Keys - InProgress(cells) - table, 0
  {
    if p !in preds {
    } else if p !in cells {
      if preds[p] != [] && p !in table {
        VisitAdvances(preds, gc, cells, table + {p}, preds[p][0]);
      }
    } else if !Current(cells[p], gc) && cells[p].height != HEIGHT_IN_PROGRESS {
      assert p in preds.Keys - InProgress(cells) - table;
      VisitAllAdvances(preds, gc, Enter(cells, p), table, preds[p], Max(cells[p].height, 1));
    }
  }

  lemma {:induction false} VisitAllAdvances(preds: Preds, gc: int, cells: Cells, table: set<Obj>, ps: seq<Obj>, acc: nat)
    requires Shaped(preds, cells.Keys) && table !! cells.Keys
    ensures Advanced(gc, cells, VisitAll(preds, gc, cells, table, ps, acc).cells)
    decreases preds.Keys - InProgress(cells) - table, |ps|
  {
    if ps != [] {
      VisitAdvances(preds, gc, cells, table, ps[0]);
      var v := Visit(preds, gc, cells, table, ps[0]);
      VisitAllAdvances(preds, gc, v.cells, table, ps[1..], Raise(acc, v.height));
    }
  }

  // The test of the program on the low 16 bits of the collection picks the current heights.
  ghost predicate StampsOk(gc: int, cells: Cells) {
    forall c :: c in cells && cells[c].height >= 0 && Low16(cells[c].cycle) == Low16(gc) ==> cells[c].cycle == gc
  }

  lemma VisitStamps(preds: Preds, gc: int, cells: Cells, table: set<Obj>, p: Obj)
    requires Shaped(preds, cells.Keys) && table !! cells.Keys && StampsOk(gc, cells)
    ensures StampsOk(gc, Visit(preds, gc, cells, table, p).cells)
  {
    VisitAdvances(preds, gc, cells, table, p);
  }

  // Only objects with a predecessor are put into the table.
  ghost predicate TableOk(preds: Preds, table: set<Obj>) {
    forall x :: x in table ==> x in preds && preds[x] != []
  }

  lemma {:induction false} VisitWitnessed(preds: Preds, gc: int, base: map<Obj, nat>, cells: Cells, table: set<Obj>, p: Obj,
                                          ws: Witnesses)
    returns (w: Walk, ws': Witnesses)
    requires WellFormed(preds, cells.Keys) && table !! cells.Keys && p in preds
    requires Witnessed(preds, gc, base, cells, ws) && TableOk(preds, table)
    ensures var v := Visit(preds, gc, cells, table, p);
            && Witnessed(preds, gc, base, v.cells, ws')
            && (v.height > 0 ==> GoodWalk(preds, gc, v.cells, w, p) && Weight(base, w) == v.height
                                 && TailAvoids(cells.Keys, w, table))
    decreases preds.Keys - InProgress(cells) - table, 1
  {
    w, ws' := [p], ws;
    if p !in cells {
      if preds[p] != [] && p !in table {
        w, ws' := VisitWitnessed(preds, gc, base, cells, table + {p}, preds[p][0], ws);
        var v := Visit(preds, gc, cells, table + {p}, preds[p][0]);
        if v.height == 0 {
          w := [p];
        } else {
          ExtendGoodWalk(preds, gc, base, v.cells, table, w, preds[p][0], p);
          w := w + [p];
        }
      }
    } else if Current(cells[p], gc) {
      w := ws[p];
      EndAvoids(cells.Keys, w, table);
    } else if cells[p].height != HEIGHT_IN_PROGRESS {
      w, ws' := VisitStructWitnessed(preds, gc, base, cells, table, p, ws);
    }
  }

  // The case of VisitWitnessed in which the predecessors of p are searched.
  lemma {:induction false} VisitStructWitnessed(preds: Preds, gc: int, base: map<Obj, nat>, cells: Cells, table: set<Obj>,
                                                p: Obj, ws: Witnesses)
    returns (w: Walk, ws': Witnesses)
    requires WellFormed(preds, cells.Keys) && table !! cells.Keys && p in preds
    requires Witnessed(preds, gc, base, cells, ws) && TableOk(preds, table)
    requires p in cells && !Current(cells[p], gc) && cells[p].height != HEIGHT_IN_PROGRESS
    ensures var v := Visit(preds, gc, cells, table, p);
            && Witnessed(preds, gc, base, v.cells, ws')
            && GoodWalk(preds, gc, v.cells, w, p) && Weight(base, w) == v.height
            && TailAvoids(cells.Keys, w, table)
    decreases preds.Keys - InProgress(cells) - table, 0
  {
    hide GoodWalk, Spaced, TailAvoids, Witnessed;
    assert p in preds.Keys - InProgress(cells) - table;
    WitnessedEnter(preds, gc, base, cells, p, ws);
    var wa, ws1 := VisitAllWitnessed(preds, gc, base, Enter(cells, p), table, p, preds[p], Max(cells[p].height, 1), [], ws);
    var v := VisitAll(preds, gc, Enter(cells, p), table, preds[p], Max(cells[p].height, 1));
    w, ws' := wa + [p], ws1[p := wa + [p]];
    FinishWitnessed(preds, gc, base, v.cells, p, v.height, wa, ws1);
    EndAvoids(cells.Keys, w, table);
  }

  // Putting p on the path keeps what is known.
  lemma WitnessedEnter(preds: Preds, gc: int, base: map<Obj, nat>, cells: Cells, p: Obj, ws: Witnesses)
    requires Witnessed(preds, gc, base, cells, ws) && p in cells && !Current(cells[p], gc)
    requires cells[p].height != HEIGHT_IN_PROGRESS && p in preds
    ensures Witnessed(preds, gc, base, Enter(cells, p), ws)
    ensures Candidate(preds, gc, base, Enter(cells, p), p, Max(cells[p].height, 1), [])
  {
    hide Spaced;
    forall c | c in cells && Current(cells[c], gc)
      ensures GoodWalk(preds, gc, Enter(cells, p), ws[c], c)
    {
      assert GoodWalk(preds, gc, cells, ws[c], c);
      assert Enter(cells, p).Keys == cells.Keys;
    }
  }

  lemma ExtendGoodWalk(preds: Preds, gc: int, base: map<Obj, nat>, cells: Cells, table: set<Obj>, w: Walk, q: Obj, p: Obj)
    requires p in preds && q in preds[p] && p !in cells && p !in table && GoodWalk(preds, gc, cells, w, q)
    requires TailAvoids(cells.Keys, w, table + {p})
    ensures GoodWalk(preds, gc, cells, w + [p], p) && Weight(base, w + [p]) == Weight(base, w) + 1
    ensures TailAvoids(cells.Keys, w + [p], table)
  {
    ExtendSpaced(cells.Keys, w, table, p);
    hide Spaced, TailAvoids;
  }

  // The best walk found so far to p, which is on the search path: `wa` followed by p.
  ghost predicate Candidate(preds: Preds, gc: int, base: map<Obj, nat>, cells: Cells, p: Obj, acc: nat, wa: Walk)
    requires p in preds
  {
    && (wa == [] ==> acc == Max(Remembered(base, p), 1))
    && (wa != [] ==>
          var q := wa[|wa| - 1];
          q in preds[p] && GoodWalk(preds, gc, cells, wa, q) && acc == Weight(base, wa) + 1)
  }

  lemma {:induction false} VisitAllWitnessed(preds: Preds, gc: int, base: map<Obj, nat>, cells: Cells, table: set<Obj>,
                                             p: Obj, ps: seq<Obj>, acc: nat, wa: Walk, ws: Witnesses)
    returns (wa': Walk, ws': Witnesses)
    requires WellFormed(preds, cells.Keys) && table !! cells.Keys && p in preds
    requires forall i :: 0 <= i < |ps| ==> ps[i] in preds[p]
    requires Witnessed(preds, gc, base, cells, ws) && Candidate(preds, gc, base, cells, p, acc, wa) && TableOk(preds, table)
    ensures var v := VisitAll(preds, gc, cells, table, ps, acc);
            && Witnessed(preds, gc, base, v.cells, ws')
            && Candidate(preds, gc, base, v.cells, p, v.height, wa')
    decreases preds.Keys - InProgress(cells) - table, |ps| + 1
  {
    wa', ws' := wa, ws;
    if ps != [] {
      var w, ws1 := VisitWitnessed(preds, gc, base, cells, table, ps[0], ws);
      var v := Visit(preds, gc, cells, table, ps[0]);
      VisitAdvances(preds, gc, cells, table, ps[0]);
      var best := if v.height >= acc then w else wa;
      RaiseCandidate(preds, gc, base, cells, v.cells, p, acc, wa, ps[0], v.height, w);
      wa', ws' := VisitAllWitnessed(preds, gc, base, v.cells, table, p, ps[1..], Raise(acc, v.height), best, ws1);
    }
  }

  lemma RaiseCandidate(preds: Preds, gc: int, base: map<Obj, nat>, cells: Cells, cells': Cells, p: Obj, acc: nat, wa: Walk,
                       q: Obj, h: nat, w: Walk)
    requires p in preds && q in preds[p] && Advanced(gc, cells, cells')
    requires Candidate(preds, gc, base, cells, p, acc, wa)
    requires h > 0 ==> GoodWalk(preds, gc, cells', w, q) && Weight(base, w) == h
    ensures Candidate(preds, gc, base, cells', p, Raise(acc, h), if h >= acc then w else wa)
  {
  }

  // Finishing p keeps every witness and gives p one.
  lemma FinishWitnessed(preds: Preds, gc: int, base: map<Obj, nat>, cells: Cells, p: Obj, h: nat, wa: Walk, ws: Witnesses)
    requires p in preds && p in cells && cells[p].height == HEIGHT_IN_PROGRESS
    requires Witnessed(preds, gc, base, cells, ws) && Candidate(preds, gc, base, cells, p, h, wa)
    ensures var cells' := Leave(cells, p, h, gc);
            && GoodWalk(preds, gc, cells', wa + [p], p) && Weight(base, wa + [p]) == h
            && Witnessed(preds, gc, base, cells', ws[p := wa + [p]])
  {
    var cells' := Leave(cells, p, h, gc);
    assert p !in wa;
    EndSpaced(cells.Keys, wa, p);
    hide Spaced;
    if wa == [] {
      SingletonWalk(preds, base, p);
    } else {
      ExtendWalk(preds, base, wa, wa[|wa| - 1], p);
    }
    forall c | c in cells' && Current(cells'[c], gc) && c != p
      ensures GoodWalk(preds, gc, cells', ws[c], c)
    {
    }
  }

  // Finished cells inside `within` are at least as high as every walk to them along `edges`.
  ghost predicate Dominating(edges: Preds, gc: int, base: map<Obj, nat>, within: set<Obj>, cells: Cells) {
    && Untouched(gc, base, cells)
    && (forall c :: c in cells && c in within && Current(cells[c], gc) ==> Dominates(edges, base, c, cells[c].height))
  }

  // Every object on the search path ranks above p.
  ghost predicate PathAbove(rank: map<Obj, nat>, within: set<Obj>, cells: Cells, table: set<Obj>, k: nat)
    requires within <= rank.Keys
  {
    forall x :: x in within && (x in table || x in InProgress(cells)) ==> k <= rank[x]
  }

  lemma {:induction false} VisitDominates(preds: Preds, edges: Preds, gc: int, base: map<Obj, nat>, within: set<Obj>,
                                          rank: map<Obj, nat>, cells: Cells, table: set<Obj>, p: Obj)
    requires Shaped(preds, cells.Keys) && table !! cells.Keys && IsPart(edges, preds)
    requires Ranked(preds, within, rank) && p in within
    requires PathAbove(rank, within, cells, table, rank[p] + 1)
    requires Dominating(edges, gc, base, within, cells)
    ensures var v := Visit(preds, gc, cells, table, p);
            Dominates(edges, base, p, v.height) && Dominating(edges, gc, base, within, v.cells)
    decreases preds.Keys - InProgress(cells) - table, 1
  {
    if p !in cells {
      if preds[p] == [] {
        DominatesStep(edges, base, p, 1);
      } else {
        var q := preds[p][0];
        VisitDominates(preds, edges, gc, base, within, rank, cells, table + {p}, q);
        DominatesStep(edges, base, p, Visit(preds, gc, cells, table + {p}, q).height + 1);
      }
    } else if !Current(cells[p], gc) {
      VisitStructDominates(preds, edges, gc, base, within, rank, cells, table, p);
    }
  }

  // The case of VisitDominates in which the predecessors of p are searched.
  lemma {:induction false} VisitStructDominates(preds: Preds, edges: Preds, gc: int, base: map<Obj, nat>, within: set<Obj>,
                                                rank: map<Obj, nat>, cells: Cells, table: set<Obj>, p: Obj)
    requires Shaped(preds, cells.Keys) && table !! cells.Keys && IsPart(edges, preds)
    requires Ranked(preds, within, rank) && p in within
    requires PathAbove(rank, within, cells, table, rank[p] + 1)
    requires Dominating(edges, gc, base, within, cells)
    requires p in cells && !Current(cells[p], gc) && p !in InProgress(cells)
    ensures var v := Visit(preds, gc, cells, table, p);
            Dominates(edges, base, p, v.height) && Dominating(edges, gc, base, within, v.cells)
    decreases preds.Keys - InProgress(cells) - table, 0
  {
    assert p in preds.Keys - InProgress(cells) - table;
    var entered, start := Enter(cells, p), Max(cells[p].height, 1);
    var v := VisitAll(preds, gc, entered, table, preds[p], start);
    EnterDominating(edges, gc, base, within, cells, p);
    VisitAllDominates(preds, edges, gc, base, within, rank, entered, table, rank[p], preds[p], start);
    FinishDominating(preds, edges, gc, base, within, v.cells, p, v.height);
  }

  lemma EnterDominating(edges: Preds, gc: int, base: map<Obj, nat>, within: set<Obj>, cells: Cells, p: Obj)
    requires Dominating(edges, gc, base, within, cells) && p in cells
    ensures Dominating(edges, gc, base, within, Enter(cells, p))
  {
  }

  lemma FinishDominating(preds: Preds, edges: Preds, gc: int, base: map<Obj, nat>, within: set<Obj>, cells: Cells, p: Obj, h: nat)
    requires Dominating(edges, gc, base, within, cells) && IsPart(edges, preds) && p in preds && p in cells
    requires h >= Max(Remembered(base, p), 1)
    requires DominatesAll(edges, base, preds[p], h - 1)
    ensures Dominates(edges, base, p, h) && Dominating(edges, gc, base, within, Leave(cells, p, h, gc))
  {
    DominatesStep(edges, base, p, h);
    var cells' := Leave(cells, p, h, gc);
    assert forall c :: c in cells' && c != p ==> cells'[c] == cells[c];
  }

  lemma {:induction false} VisitAllDominates(preds: Preds, edges: Preds, gc: int, base: map<Obj, nat>, within: set<Obj>,
                                             rank: map<Obj, nat>, cells: Cells, table: set<Obj>, k: nat, ps: seq<Obj>, acc: nat)
    requires Shaped(preds, cells.Keys) && table !! cells.Keys && IsPart(edges, preds)
    requires Ranked(preds, within, rank)
    requires forall i :: 0 <= i < |ps| ==> ps[i] in within && rank[ps[i]] < k
    requires PathAbove(rank, within, cells, table, k)
    requires Dominating(edges, gc, base, within, cells)
    ensures var v := VisitAll(preds, gc, cells, table, ps, acc);
            && Dominating(edges, gc, base, within, v.cells)
            && acc <= v.height
            && DominatesAll(edges, base, ps, v.height - 1)
    decreases preds.Keys - InProgress(cells) - table, |ps| + 1
  {
    if ps != [] {
      VisitDominates(preds, edges, gc, base, within, rank, cells, table, ps[0]);
      var v := Visit(preds, gc, cells, table, ps[0]);
      VisitAllDominates(preds, edges, gc, base, within, rank, v.cells, table, k, ps[1..], Raise(acc, v.height));
    }
  }

  // ----- Searches that start outside `within` -----

  ghost predicate PathOutside(within: set<Obj>, cells: Cells, table: set<Obj>) {
    table !! within && InProgress(cells) !! within
  }

  // A search from anywhere keeps what is known about `within`, which it can only enter.
  lemma {:induction false} VisitKeepsDominating(preds: Preds, gc: int, base: map<Obj, nat>, within: set<Obj>,
                                                rank: map<Obj, nat>, cells: Cells, table: set<Obj>, p: Obj)
    requires WellFormed(preds, cells.Keys) && table !! cells.Keys && p in preds
    requires Ranked(preds, within, rank) && PathOutside(within, cells, table)
    requires Dominating(preds, gc, base, within, cells)
    ensures Dominating(preds, gc, base, within, Visit(preds, gc, cells, table, p).cells)
    decreases preds.Keys - InProgress(cells) - table, 0
  {
    if p in within {
      VisitDominates(preds, preds, gc, base, within, rank, cells, table, p);
    } else if p !in cells {
      if preds[p] != [] && p !in table {
        VisitKeepsDominating(preds, gc, base, within, rank, cells, table + {p}, preds[p][0]);
      }
    } else if !Current(cells[p], gc) && cells[p].height != HEIGHT_IN_PROGRESS {
      assert p in preds.Keys - InProgress(cells) - table;
      var start := Max(cells[p].height, 1);
      EnterDominating(preds, gc, base, within, cells, p);
      VisitAllKeepsDominating(preds, gc, base, within, rank, Enter(cells, p), table, preds[p], start);
      var v := VisitAll(preds, gc, Enter(cells, p), table, preds[p], start);
      LeaveOutside(preds, gc, base, within, v.cells, p, v.height);
    }
  }

  lemma LeaveOutside(preds: Preds, gc: int, base: map<Obj, nat>, within: set<Obj>, cells: Cells, p: Obj, h: nat)
    requires Dominating(preds, gc, base, within, cells) && p in cells && p !in within
    ensures Dominating(preds, gc, base, within, Leave(cells, p, h, gc))
  {
  }

  lemma {:induction false} VisitAllKeepsDominating(preds: Preds, gc: int, base: map<Obj, nat>, within: set<Obj>,
                                                   rank: map<Obj, nat>, cells: Cells, table: set<Obj>, ps: seq<Obj>, acc: nat)
    requires WellFormed(preds, cells.Keys) && table !! cells.Keys
    requires forall i :: 0 <= i < |ps| ==> ps[i] in preds
    requires Ranked(preds, within, rank) && PathOutside(within, cells, table)
    requires Dominating(preds, gc, base, within, cells)
    ensures Dominating(preds, gc, base, within, VisitAll(preds, gc, cells, table, ps, acc).cells)
    decreases preds.Keys - InProgress(cells) - table, |ps| + 1
  {
    if ps != [] {
      VisitKeepsDominating(preds, gc, base, within, rank, cells, table, ps[0]);
      var v := Visit(preds, gc, cells, table, ps[0]);
      VisitAllKeepsDominating(preds, gc, base, within, rank, v.cells, table, ps[1..], Raise(acc, v.height));
    }
  }

  // ----- The theorems about whole collections -----

  // The state in which a collection starts: nothing computed yet, nothing on the path.
  ghost predicate Fresh(gc: int, cells: Cells) {
    forall c :: c in cells ==> !Current(cells[c], gc) && cells[c].height != HEIGHT_IN_PROGRESS
  }

  // The cells after asking for the heights of `qs`, one after the other.
  ghost function AfterCalls(preds: Preds, gc: int, cells: Cells, qs: seq<Obj>): (r: Cells)
    requires WellFormed(preds, cells.Keys)
    requires forall q :: q in qs ==> q in preds
    ensures r.Keys == cells.Keys && InProgress(r) == InProgress(cells)
  {
    if qs == [] then cells
    else
      var before := AfterCalls(preds, gc, cells, qs[..|qs| - 1]);
      Visit(preds, gc, before, {}, qs[|qs| - 1]).cells
  }

  lemma {:induction false} AfterCallsWitnessed(preds: Preds, gc: int, cells: Cells, qs: seq<Obj>) returns (ws: Witnesses)
    requires WellFormed(preds, cells.Keys) && Fresh(gc, cells)
    requires forall q :: q in qs ==> q in preds
    ensures Witnessed(preds, gc, Base(cells), AfterCalls(preds, gc, cells, qs), ws)
  {
    ws := map[];
    if qs != [] {
      ws := AfterCallsWitnessed(preds, gc, cells, qs[..|qs| - 1]);
      var before := AfterCalls(preds, gc, cells, qs[..|qs| - 1]);
      var _, ws1 := VisitWitnessed(preds, gc, Base(cells), before, {}, qs[|qs| - 1], ws);
      ws := ws1;
    }
  }

  lemma {:induction false} AfterCallsDominating(preds: Preds, gc: int, within: set<Obj>, rank: map<Obj, nat>, cells: Cells,
                                                qs: seq<Obj>)
    requires WellFormed(preds, cells.Keys) && Fresh(gc, cells) && Ranked(preds, within, rank)
    requires forall q :: q in qs ==> q in preds
    ensures Dominating(preds, gc, Base(cells), within, AfterCalls(preds, gc, cells, qs))
  {
    if qs != [] {
      AfterCallsDominating(preds, gc, within, rank, cells, qs[..|qs| - 1]);
      var before := AfterCalls(preds, gc, cells, qs[..|qs| - 1]);
      assert InProgress(cells) == {};
      VisitKeepsDominating(preds, gc, Base(cells), within, rank, before, {}, qs[|qs| - 1]);
    }
  }

  // On any graph, cyclic or not, and after any earlier calls, the height of p is positive
  // and is the weight of a real walk to p that repeats no object with a structure, and no other object
  // without one in between. When nothing is remembered it is the number of nodes of that walk.
  lemma HeightIsWalk(preds: Preds, gc: int, cells: Cells, qs: seq<Obj>, p: Obj)
    requires WellFormed(preds, cells.Keys) && Fresh(gc, cells) && p in preds
    requires forall q :: q in qs ==> q in preds
    ensures var h := Visit(preds, gc, AfterCalls(preds, gc, cells, qs), {}, p).height;
            && h > 0
            && (exists w :: IsWalkTo(preds, w, p) && Weight(Base(cells), w) == h && Simple(cells.Keys, w)
                            && ((forall c :: c in cells ==> cells[c].height <= 0) ==> h == |w|))
  {
    hide Visit, GoodWalk, Spaced, TailAvoids, Simple, Witnessed, IsWalkTo, AfterCalls;
    var ws := AfterCallsWitnessed(preds, gc, cells, qs);
    var now := AfterCalls(preds, gc, cells, qs);
    assert InProgress(now) == {};
    VisitPositive(preds, gc, Base(cells), now, {}, p, ws);
    var w, _ := VisitWitnessed(preds, gc, Base(cells), now, {}, p, ws);
    GoodIsSimple(preds, gc, Visit(preds, gc, now, {}, p).cells, w, p);
  }

  lemma GoodIsSimple(preds: Preds, gc: int, cells: Cells, w: Walk, p: Obj)
    requires GoodWalk(preds, gc, cells, w, p)
    ensures IsWalkTo(preds, w, p) && |w| > 0 && Simple(cells.Keys, w)
  {
  }

  // Only an object that is itself on the search path gets height 0.
  lemma VisitPositive(preds: Preds, gc: int, base: map<Obj, nat>, cells: Cells, table: set<Obj>, p: Obj, ws: Witnesses)
    requires WellFormed(preds, cells.Keys) && table !! cells.Keys && p in preds
    requires Witnessed(preds, gc, base, cells, ws)
    requires p !in table && p !in InProgress(cells)
    ensures Visit(preds, gc, cells, table, p).height > 0
  {
    if p in cells && !Current(cells[p], gc) {
      assert p in preds.Keys - InProgress(cells) - table;
      VisitAllAbove(preds, gc, Enter(cells, p), table, preds[p], Max(cells[p].height, 1));
    } else if p in cells {
      assert Weight(base, ws[p]) == cells[p].height;
    }
  }

  lemma {:induction false} VisitAllAbove(preds: Preds, gc: int, cells: Cells, table: set<Obj>, ps: seq<Obj>, acc: nat)
    requires Shaped(preds, cells.Keys) && table !! cells.Keys
    ensures VisitAll(preds, gc, cells, table, ps, acc).height >= acc
    decreases |ps|
  {
    if ps != [] {
      var v := Visit(preds, gc, cells, table, ps[0]);
      VisitAllAbove(preds, gc, v.cells, table, ps[1..], Raise(acc, v.height));
    }
  }

  // Where the edges that lead to p are ranked the height of p is exactly the largest weight of
  // a walk to p, whatever was asked before and whichever objects own a structure.
  lemma HeightIsExact(preds: Preds, gc: int, within: set<Obj>, rank: map<Obj, nat>, cells: Cells, qs: seq<Obj>, p: Obj)
    requires WellFormed(preds, cells.Keys) && Fresh(gc, cells) && Ranked(preds, within, rank) && p in within
    requires forall q :: q in qs ==> q in preds
    ensures IsLongest(preds, Base(cells), p, Visit(preds, gc, AfterCalls(preds, gc, cells, qs), {}, p).height)
  {
    HeightIsWalk(preds, gc, cells, qs, p);
    AfterCallsDominating(preds, gc, within, rank, cells, qs);
    VisitDominates(preds, preds, gc, Base(cells), within, rank, AfterCalls(preds, gc, cells, qs), {}, p);
  }

  // With nothing remembered the height depends on the edges alone: two searches over the
  // same edges agree, whatever their cells and earlier calls.
  lemma HeightIgnoresRepresentation(preds: Preds, gc: int, gc': int, within: set<Obj>, rank: map<Obj, nat>,
                                    cells: Cells, cells': Cells, qs: seq<Obj>, qs': seq<Obj>, p: Obj)
    requires WellFormed(preds, cells.Keys) && Fresh(gc, cells) && WellFormed(preds, cells'.Keys) && Fresh(gc', cells')
    requires Ranked(preds, within, rank) && p in within
    requires forall q :: q in qs ==> q in preds
    requires forall q :: q in qs' ==> q in preds
    requires forall c :: c in cells ==> cells[c].height <= 0
    requires forall c :: c in cells' ==> cells'[c].height <= 0
    ensures Visit(preds, gc, AfterCalls(preds, gc, cells, qs), {}, p).height
         == Visit(preds, gc', AfterCalls(preds, gc', cells', qs'), {}, p).height
  {
    HeightIsExact(preds, gc, within, rank, cells, qs, p);
    HeightIsExact(preds, gc', within, rank, cells', qs', p);
    NothingRemembered(cells);
    NothingRemembered(cells');
    hide *;
    LongestAgrees(preds, Base(cells), Base(cells'), p, Visit(preds, gc, AfterCalls(preds, gc, cells, qs), {}, p).height,
                  Visit(preds, gc', AfterCalls(preds, gc', cells', qs'), {}, p).height);
  }

  lemma NothingRemembered(cells: Cells)
    requires forall c :: c in cells ==> cells[c].height <= 0
    ensures forall w: Walk :: |w| > 0 ==> Weight(Base(cells), w) == |w|
  {
  }

  lemma LongestAgrees(preds: Preds, base: map<Obj, nat>, base': map<Obj, nat>, p: Obj, h: int, h': int)
    requires IsLongest(preds, base, p, h) && IsLongest(preds, base', p, h')
    requires forall w: Walk :: |w| > 0 ==> Weight(base, w) == |w|
    requires forall w: Walk :: |w| > 0 ==> Weight(base', w) == |w|
    ensures h == h'
  {
  }
}
