// How long a remembered height lasts (backgraph.c:299-333, 420-455).
module Remembering {
  import opened Heights
  import opened GraphModel
  import opened TraverseProofs
  import opened AnyMarks
  import opened Cycles
  import opened Example

  // The height that p carries from one collection to the next.
  ghost function Carried(c: Config, p: Obj): int {
    if c.phase == Traversed then KeptHeight(c.s, p) else Before(c.s, p)
  }

  // p stays marked and is neither freed nor allocated anew.
  ghost predicate StaysLive(c: Config, e: Event, p: Obj) {
    match e
    case BuildGraph(_, _) => true
    case Collect(marked, _) => p in marked && p in c.s.preds
    case PrintStats(_) => true
    case NewObject(q) => q != p
    case DropObject(q) => q != p
  }

  // An event keeps what is remembered for p: a print that visits p finds the RETAIN flag, and a
  // traversal that misses p finds it too, or nothing is remembered.
  ghost predicate Keeps(c: Config, e: Event, p: Obj) {
    match e
    case PrintStats(all) => p in all && p !in c.s.retain ==> Carried(c, p) == 0
    case Collect(_, order) => p !in order && p !in c.s.retain ==> Carried(c, p) == 0
    case _ => true
  }

  lemma CollectCarries(c: Config, marked: set<Obj>, order: seq<Obj>, p: Obj)
    requires Inv(c) && Legal(c, Collect(marked, order)) && p in marked && p in c.s.preds
    ensures GraphOk(c.s)
    ensures Before(c.s, p) <= KeptHeight(Traverse(c.s, marked, order), p) <==> Keeps(c, Collect(marked, order), p)
  {
    InvCanStart(c);
    TraverseBounded(c.s, marked, order);
    KeptAtLeast(c.s.(gc := c.s.gc + 1, maxHeight := 0), marked, Elements(order), Traverse(c.s, marked, order), p);
    assert Carried(c, p) == Before(c.s, p);
  }

  lemma KeptAtLeast(s0: State, marked: set<Obj>, done: set<Obj>, t: State, p: Obj)
    requires Bounded(s0, marked, done, t) && p in marked && p in s0.preds
    requires forall c :: c in s0.retain ==> c in s0.cells && s0.cells[c].height > 0
    ensures Before(s0, p) <= KeptHeight(t, p) <==> p in done || p in s0.retain || Before(s0, p) == 0
  {
    hide HasHolder, Covered;
  }

  // While an object stays live, one event lowers the height it carries exactly when it is a
  // print that finds that height without the RETAIN flag, or a traversal that misses the object
  // and does.
  lemma CarriedIff(c: Config, e: Event, p: Obj)
    requires Inv(c) && Legal(c, e) && StaysLive(c, e, p)
    ensures Carried(c, p) <= Carried(Next(c, e), p) <==> Keeps(c, e, p)
  {
    match e
    case BuildGraph(heap, objs) => BuildInv(c, heap, objs);
    case Collect(marked, order) => CollectCarries(c, marked, order, p);
    case PrintStats(all) => PrintExact(c.s, all);
    case NewObject(q) =>
    case DropObject(q) =>
  }

  // ----- Runs -----

  ghost predicate StaysLiveRun(c: Config, events: seq<Event>, p: Obj)
    requires Inv(c) && LegalRun(c, events)
    decreases |events|
  {
    events == [] || (StaysLive(c, events[0], p) && (NextInv(c, events[0]); StaysLiveRun(Next(c, events[0]), events[1..], p)))
  }

  ghost predicate EventsKeep(c: Config, events: seq<Event>, p: Obj)
    requires Inv(c) && LegalRun(c, events)
    decreases |events|
  {
    events == [] || (Keeps(c, events[0], p) && (NextInv(c, events[0]); EventsKeep(Next(c, events[0]), events[1..], p)))
  }

  // No event of the run lowers the height that p carries.
  ghost predicate NeverLowered(c: Config, events: seq<Event>, p: Obj)
    requires Inv(c) && LegalRun(c, events)
    decreases |events|
  {
    events == []
    || (Carried(c, p) <= Carried(Next(c, events[0]), p)
        && (NextInv(c, events[0]); NeverLowered(Next(c, events[0]), events[1..], p)))
  }

  // Over any run in which p stays live, the height remembered for p never goes down if and
  // only if every print and every traversal of the run keeps it.
  lemma {:induction false} NeverLoweredIff(c: Config, events: seq<Event>, p: Obj)
    requires Inv(c) && LegalRun(c, events) && StaysLiveRun(c, events, p)
    ensures NeverLowered(c, events, p) <==> EventsKeep(c, events, p)
    decreases |events|
  {
    if events != [] {
      NextInv(c, events[0]);
      CarriedIff(c, events[0], p);
      NeverLoweredIff(Next(c, events[0]), events[1..], p);
    }
  }

  lemma {:induction false} CarriedGrows(c: Config, events: seq<Event>, p: Obj)
    requires Inv(c) && LegalRun(c, events) && StaysLiveRun(c, events, p) && EventsKeep(c, events, p)
    ensures Carried(c, p) <= Carried(Run(c, events), p)
    decreases |events|
  {
    if events != [] {
      NextInv(c, events[0]);
      CarriedIff(c, events[0], p);
      CarriedGrows(Next(c, events[0]), events[1..], p);
    }
  }

  // ----- One print per collection -----

  // A print right after a traversal keeps every height that the traversal kept.
  lemma FirstPrintKeeps(c: Config, all: seq<Obj>, p: Obj)
    requires Inv(c) && Legal(c, PrintStats(all)) && c.phase == Traversed
    ensures Carried(c, p) <= Carried(Next(c, PrintStats(all)), p)
    ensures p in all ==> Carried(Next(c, PrintStats(all)), p) == Carried(c, p)
  {
    PrintExact(c.s, all);
  }

  // A print with nothing recorded since the one before forgets the height of every object that
  // it visits.
  lemma SecondPrintForgets(c: Config, all: seq<Obj>, p: Obj)
    requires Inv(c) && Legal(c, PrintStats(all)) && c.phase == Idle && p in all
    ensures Carried(Next(c, PrintStats(all)), p) == 0
  {
    PrintExact(c.s, all);
  }

  // An object that stays marked loses the height 1 remembered for it when the statistics are
  // printed twice after the first collection.
  lemma PrintedTwice() returns (c: Config)
    ensures Reaches(INITIAL, FIRST, COLLECTED) && Carried(COLLECTED, 1) == 1
    ensures Reaches(COLLECTED, [PRINT, PRINT], c) && StaysLiveRun(COLLECTED, [PRINT, PRINT], 1) && Carried(c, 1) == 0
  {
    FirstCollection();
    PrintNext(COLLECTED);
    ReachesOne(COLLECTED, PRINT);
    var d := Next(COLLECTED, PRINT);
    ReachesInv(COLLECTED, [PRINT], d);
    c := PrintAgain(d);
    hide Inv, Reaches, Carried;
    ReachesJoin(COLLECTED, [PRINT], d, [PRINT], c);
    assert [PRINT] + [PRINT] == [PRINT, PRINT];
    PrintsOnly(COLLECTED, [PRINT, PRINT], 1);
  }

  lemma PrintAgain(d: Config) returns (c: Config)
    requires Inv(d) && d.phase == Idle && d.s.preds == NoEdge()
    ensures Reaches(d, [PRINT], c) && Carried(c, 1) == 0
  {
    AllEdges(d.s);
    ReachesOne(d, PRINT);
    c := Next(d, PRINT);
    SecondPrintForgets(d, ALL, 1);
  }

  // Prints alone leave every object live.
  lemma {:induction false} PrintsOnly(c: Config, events: seq<Event>, p: Obj)
    requires Inv(c) && LegalRun(c, events) && (forall e :: e in events ==> e.PrintStats?)
    ensures StaysLiveRun(c, events, p)
    decreases |events|
  {
    if events != [] {
      NextInv(c, events[0]);
      PrintsOnly(Next(c, events[0]), events[1..], p);
    }
  }
}
