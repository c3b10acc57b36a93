// The record that GC_print_back_graph_stats keeps, and the object it prints for a new one
// (backgraph.c:408-494).
module Records {
  import opened Options
  import opened Heights
  import opened Exactness
  import opened GraphModel
  import opened AnyMarks
  import opened Cycles
  import opened Example

  // ----- One traversal: when a new record surely has a holder -----

  lemma {:induction false} ScanMarked(preds: Preds, gc: nat, marked: set<Obj>, ps: seq<Obj>, from: Scanned)
    requires Shaped(preds, from.cells.Keys) && (forall i :: 0 <= i < |ps| ==> ps[i] in marked || ps[i] !in preds)
    ensures ScanPreds(preds, gc, marked, ps, from) == from
    decreases |ps|
  {
    if ps != [] {
      ScanMarked(preds, gc, marked, ps[1..], from);
    }
  }

  // With every object marked, a traversal searches nothing: it only counts what is known.
  lemma UpdateMarked(s: State, p: Obj)
    requires GraphOk(s) && (s.maxHeight > 0 ==> s.deepest == None)
    ensures var t := UpdateMaxHeight(s, s.preds.Keys, p);
            && (t.maxHeight > 0 ==> t.deepest == None) && t.cells.Keys == s.cells.Keys
            && (forall c :: c in s.cells ==> t.cells[c].height == s.cells[c].height)
            && s.maxHeight <= t.maxHeight && (p in s.cells ==> s.cells[p].height <= t.maxHeight)
  {
    if p in s.preds {
      assert p in s.cells ==> p !in InProgress(s.cells);
      ScanMarked(s.preds, s.gc, s.preds.Keys, s.preds[p], Scanned(KnownHeight(s, p), None, s.cells));
    }
  }

  lemma {:induction false} UpdateAllMarked(s: State, objs: seq<Obj>, p: Obj)
    requires GraphOk(s) && (s.maxHeight > 0 ==> s.deepest == None) && p in s.cells
    ensures var t := UpdateAll(s, s.preds.Keys, objs);
            && (t.maxHeight > 0 ==> t.deepest == None)
            && s.maxHeight <= t.maxHeight && (p in objs ==> s.cells[p].height <= t.maxHeight)
    decreases |objs|
  {
    if objs != [] {
      UpdateMarked(s, objs[0]);
      UpdateAllMarked(UpdateMaxHeight(s, s.preds.Keys, objs[0]), objs[1..], p);
    }
  }

  lemma {:induction false} Enumeration(xs: set<Obj>) returns (order: seq<Obj>)
    ensures xs <= Elements(order)
    decreases |xs|
  {
    order := [];
    if xs != {} {
      var x :| x in xs;
      var rest := Enumeration(xs - {x});
      order := rest + [x];
      forall y | y in xs
        ensures y in order
      {
        assert y != x ==> y in Elements(rest);
      }
    }
  }

  // Every traversal from s leaves a holder for a new record.
  ghost predicate AlwaysHolder(s: State)
    requires GraphOk(s)
  {
    forall marked, order :: HasHolder(Traverse(s, marked, order), marked)
  }

  // A new record has an unmarked holder for all marks and all passes if and only if no
  // remembered height is above the record when the traversal starts.
  lemma HolderIff(s: State)
    requires GraphOk(s) && Fresh(s.gc + 1, s.cells)
    ensures AlwaysHolder(s) <==> Covered(s)
  {
    if Covered(s) {
      forall marked, order
        ensures HasHolder(Traverse(s, marked, order), marked)
      {
        CoveredHolder(s, marked, order);
      }
    } else {
      var p :| p in s.cells && s.cells[p].height > s.maxMaxHeight;
      var order := Enumeration(s.preds.Keys);
      UncoveredNoHolder(s, order, p);
    }
  }

  lemma CoveredHolder(s: State, marked: set<Obj>, order: seq<Obj>)
    requires GraphOk(s) && Fresh(s.gc + 1, s.cells) && Covered(s)
    ensures HasHolder(Traverse(s, marked, order), marked)
  {
    assert Covered(s.(gc := s.gc + 1, maxHeight := 0));
    TraverseBounded(s, marked, order);
  }

  lemma UncoveredNoHolder(s: State, order: seq<Obj>, p: Obj)
    requires GraphOk(s) && p in s.cells && s.cells[p].height > s.maxMaxHeight && s.preds.Keys <= Elements(order)
    ensures !HasHolder(Traverse(s, s.preds.Keys, order), s.preds.Keys)
  {
    assert p in Elements(order);
    UpdateAllMarked(s.(gc := s.gc + 1, maxHeight := 0), order, p);
  }

  // ----- Runs -----

  // Every new record is printed before the next traversal.
  ghost predicate RecordsPrinted(c: Config, events: seq<Event>)
    requires Inv(c) && LegalRun(c, events)
    decreases |events|
  {
    events == []
    || ((events[0].Collect? ==> c.s.maxHeight <= c.s.maxMaxHeight)
        && (NextInv(c, events[0]); RecordsPrinted(Next(c, events[0]), events[1..])))
  }

  // A new record that is still to be printed has a holder that was not marked.
  ghost predicate RecordNamed(c: Config) {
    c.phase == Traversed && c.s.maxHeight > c.s.maxMaxHeight ==> c.s.deepest.Some? && c.s.deepest.value !in c.marks
  }

  // Remembered heights are no greater than the record or GC_max_height.
  ghost predicate RecordOk(c: Config) {
    && (forall p :: p in c.s.cells ==> c.s.cells[p].height <= Max(c.s.maxHeight, c.s.maxMaxHeight))
    && (c.phase == Idle ==> c.s.maxHeight <= c.s.maxMaxHeight)
    && RecordNamed(c)
  }

  lemma CollectRecord(c: Config, marked: set<Obj>, order: seq<Obj>)
    requires Inv(c) && Legal(c, Collect(marked, order)) && RecordOk(c) && c.s.maxHeight <= c.s.maxMaxHeight
    ensures RecordOk(Next(c, Collect(marked, order))) && HolderLives(Next(c, Collect(marked, order)))
  {
    InvCanStart(c);
    TraverseBounded(c.s, marked, order);
    var s0, t := c.s.(gc := c.s.gc + 1, maxHeight := 0), Traverse(c.s, marked, order);
    assert Covered(s0);
    hide Traverse, RetainBounded;
  }

  lemma RecordStep(c: Config, e: Event)
    requires Inv(c) && Legal(c, e) && RecordOk(c) && (e.Collect? ==> c.s.maxHeight <= c.s.maxMaxHeight)
    ensures RecordOk(Next(c, e))
  {
    match e
    case BuildGraph(heap, objs) => BuildInv(c, heap, objs);
    case Collect(marked, order) => CollectRecord(c, marked, order);
    case PrintStats(all) => PrintExact(c.s, all);
    case NewObject(p) =>
    case DropObject(p) =>
  }

  lemma {:induction false} RunRecord(c: Config, events: seq<Event>)
    requires Inv(c) && LegalRun(c, events) && RecordsPrinted(c, events) && RecordOk(c)
    ensures RecordOk(Run(c, events))
    decreases |events|
  {
    if events != [] {
      NextInv(c, events[0]);
      RecordStep(c, events[0]);
      RunRecord(Next(c, events[0]), events[1..]);
    }
  }

  // The holder of a new record that is still to be printed is an object with debug info.
  ghost predicate HolderLives(c: Config) {
    c.phase == Traversed && c.s.maxHeight > c.s.maxMaxHeight ==> c.s.deepest.Some? && c.s.deepest.value in c.s.preds
  }

  // No holder is freed before it is printed; the traversal marks it, so that sweeping does not.
  ghost predicate HoldersKept(c: Config, events: seq<Event>)
    requires Inv(c) && LegalRun(c, events)
    decreases |events|
  {
    events == []
    || ((events[0].DropObject? && c.phase == Traversed ==> c.s.deepest != Some(events[0].gone))
        && (NextInv(c, events[0]); HoldersKept(Next(c, events[0]), events[1..])))
  }

  lemma HolderStep(c: Config, e: Event)
    requires Inv(c) && Legal(c, e) && RecordOk(c) && HolderLives(c)
    requires e.Collect? ==> c.s.maxHeight <= c.s.maxMaxHeight
    requires e.DropObject? && c.phase == Traversed ==> c.s.deepest != Some(e.gone)
    ensures HolderLives(Next(c, e))
  {
    if e.Collect? {
      CollectRecord(c, e.marked, e.order);
    }
  }

  lemma {:induction false} RunHolder(c: Config, events: seq<Event>)
    requires Inv(c) && LegalRun(c, events) && RecordsPrinted(c, events) && HoldersKept(c, events)
    requires RecordOk(c) && HolderLives(c)
    ensures HolderLives(Run(c, events))
    decreases |events|
  {
    if events != [] {
      NextInv(c, events[0]);
      RecordStep(c, events[0]);
      HolderStep(c, events[0]);
      RunHolder(Next(c, events[0]), events[1..]);
    }
  }

  // In every run that prints each new record before the next traversal, a new record has an
  // object to print that was not marked when the traversal began, and that still is an object
  // with debug info unless it has been freed since.
  lemma {:induction false} RecordHasHolder(events: seq<Event>)
    requires LegalRun(INITIAL, events) && RecordsPrinted(INITIAL, events)
    ensures var c := Run(INITIAL, events);
            c.phase == Traversed && c.s.maxHeight > c.s.maxMaxHeight ==>
              && c.s.deepest.Some? && c.s.deepest.value !in c.marks
              && (HoldersKept(INITIAL, events) ==> c.s.deepest.value in c.s.preds)
  {
    RunRecord(INITIAL, events);
    if HoldersKept(INITIAL, events) {
      RunHolder(INITIAL, events);
    }
  }

  // In such a run no remembered height exceeds the greater of GC_max_height and the record,
  // which is the record between a print that resets every object and the next traversal.
  lemma {:induction false} RememberedBelowRecord(events: seq<Event>, p: Obj)
    requires LegalRun(INITIAL, events) && RecordsPrinted(INITIAL, events)
    ensures var c := Run(INITIAL, events);
            && (p in c.s.cells ==> c.s.cells[p].height <= Max(c.s.maxHeight, c.s.maxMaxHeight))
            && (c.phase == Idle ==> c.s.maxHeight <= c.s.maxMaxHeight)
  {
    RunRecord(INITIAL, events);
  }

  // ----- A skipped print -----

  // Two collections with no print between them.
  const SKIPPED_PRINT := FIRST + [BUILD, COLLECT]

  // When a new record is not printed before the next traversal, the record that this traversal
  // finds may have no object to print.
  lemma SkippedPrintLosesHolder() returns (c: Config)
    ensures Reaches(INITIAL, SKIPPED_PRINT, c)
    ensures c.phase == Traversed && c.s.maxHeight == 1 && c.s.maxMaxHeight == 0 && c.s.deepest == None
  {
    FirstCollection();
    c := SecondCollection();
    ReachesJoin(INITIAL, FIRST, COLLECTED, [BUILD, COLLECT], c);
  }

  lemma SecondCollection() returns (c: Config)
    requires Inv(COLLECTED)
    ensures Reaches(COLLECTED, [BUILD, COLLECT], c)
    ensures c.phase == Traversed && c.s.maxHeight == 1 && c.s.maxMaxHeight == 0 && c.s.deepest == None
  {
    BuildNext(COLLECTED);
    ReachesOne(COLLECTED, BUILD);
    var d := Next(COLLECTED, BUILD);
    ReachesInv(COLLECTED, [BUILD], d);
    assert d.s.preds == Edge() && d.s.cells == map[1 := Cell(1, 1)];
    CollectNext(d);
    ReachesOne(d, COLLECT);
    c := Next(d, COLLECT);
    hide Inv, Reaches;
    ReachesJoin(COLLECTED, [BUILD], d, [COLLECT], c);
    assert [BUILD] + [COLLECT] == [BUILD, COLLECT];
  }
}
