// When 16 bits of GC_gc_no are enough to tell whether a height is current
// (backgraph.c:54-61, 384-385).
module Stamps {
  import opened Heights
  import opened Exactness
  import opened GraphModel
  import opened BuildProofs
  import opened TraverseProofs
  import opened AnyMarks
  import opened Cycles
  import opened Example

  // ----- Runs in which every traversal reads its stamps right -----

  ghost predicate StampsRight(c: Config, e: Event) {
    e.Collect? ==> StampsOk(c.s.gc + 1, c.s.cells)
  }

  ghost predicate StampsRun(c: Config, events: seq<Event>)
    requires Inv(c) && LegalRun(c, events)
    decreases |events|
  {
    events == [] || (StampsRight(c, events[0]) && (NextInv(c, events[0]); StampsRun(Next(c, events[0]), events[1..])))
  }

  lemma {:induction false} StampsJoin(c: Config, a: seq<Event>, d: Config, b: seq<Event>)
    requires Reaches(c, a, d) && LegalRun(d, b)
    ensures LegalRun(c, a + b) && (StampsRun(c, a + b) ==> StampsRun(d, b))
    decreases |a|
  {
    if a == [] {
      assert a + b == b;
    } else {
      NextInv(c, a[0]);
      RunInv(Next(c, a[0]), a[1..]);
      StampsJoin(Next(c, a[0]), a[1..], d, b);
      assert (a + b)[0] == a[0] && (a + b)[1..] == a[1..] + b;
    }
  }

  // No more than k traversals happen from one print that visits all objects with a height to the
  // next.
  ghost predicate PrintedWithin(c: Config, events: seq<Event>, k: nat)
    requires Inv(c) && LegalRun(c, events)
    decreases |events|
  {
    events == []
    || ((events[0].Collect? ==> c.since < k)
        && (NextInv(c, events[0]); PrintedWithin(Next(c, events[0]), events[1..], k)))
  }

  lemma {:induction false} WithinJoin(c: Config, a: seq<Event>, d: Config, b: seq<Event>, k: nat)
    requires Reaches(c, a, d) && LegalRun(d, b) && PrintedWithin(c, a, k) && PrintedWithin(d, b, k)
    ensures LegalRun(c, a + b) && PrintedWithin(c, a + b, k)
    decreases |a|
  {
    if a == [] {
      assert a + b == b;
    } else {
      NextInv(c, a[0]);
      RunInv(Next(c, a[0]), a[1..]);
      WithinJoin(Next(c, a[0]), a[1..], d, b, k);
      assert (a + b)[0] == a[0] && (a + b)[1..] == a[1..] + b;
    }
  }

  // ----- Prints that are not too far apart -----

  ghost predicate AgeOk(c: Config, k: nat) {
    c.since <= k && c.age <= c.since + (if k == 0 then 0 else k - 1)
  }

  lemma YoungStamps(c: Config)
    requires Inv(c) && c.age < 0xFFFF
    ensures StampsOk(c.s.gc + 1, c.s.cells) && StampsOk(c.s.gc, c.s.cells)
  {
    forall x | x in c.s.cells && c.s.cells[x].height >= 0
      ensures Low16(c.s.cells[x].cycle) == Low16(c.s.gc + 1) ==> c.s.cells[x].cycle == c.s.gc + 1
      ensures Low16(c.s.cells[x].cycle) == Low16(c.s.gc) ==> c.s.cells[x].cycle == c.s.gc
    {
      StampTest(c.s.cells[x].cycle, c.s.gc + 1);
      StampTest(c.s.cells[x].cycle, c.s.gc);
    }
  }

  lemma {:induction false} WithinRight(c: Config, events: seq<Event>, k: nat)
    requires Inv(c) && LegalRun(c, events) && AgeOk(c, k) && PrintedWithin(c, events, k) && k <= 0x8000
    ensures StampsRun(c, events)
    decreases |events|
  {
    if events != [] {
      if events[0].Collect? {
        YoungStamps(c);
      }
      NextInv(c, events[0]);
      WithinRight(Next(c, events[0]), events[1..], k);
    }
  }

  lemma StampsKept(c: Config, e: Event)
    requires Inv(c) && Legal(c, e) && StampsRight(c, e) && StampsOk(c.s.gc, c.s.cells)
    ensures StampsOk(Next(c, e).s.gc, Next(c, e).s.cells)
  {
    match e
    case BuildGraph(heap, objs) => BuildInv(c, heap, objs);
    case Collect(marked, order) =>
      InvCanStart(c);
      UpdateAllStamps(c.s.(gc := c.s.gc + 1, maxHeight := 0), marked, order);
    case PrintStats(all) => PrintExact(c.s, all);
    case NewObject(p) =>
    case DropObject(p) =>
  }

  // Then stamps are right in the state that the run ends in, too.
  lemma {:induction false} StampsAtEnd(c: Config, events: seq<Event>)
    requires Inv(c) && LegalRun(c, events) && StampsRun(c, events) && StampsOk(c.s.gc, c.s.cells)
    ensures var d := Run(c, events); StampsOk(d.s.gc, d.s.cells)
    decreases |events|
  {
    if events != [] {
      NextInv(c, events[0]);
      StampsKept(c, events[0]);
      StampsAtEnd(Next(c, events[0]), events[1..]);
    }
  }

  // ----- Objects that are marked often enough -----

  predicate HasHeight(c: Config, p: Obj) {
    p in c.s.cells && c.s.cells[p].height >= 0
  }

  // The height of p, if it has one, is at most n collections old.
  ghost predicate NoOlder(c: Config, p: Obj, n: nat) {
    HasHeight(c, p) ==> c.s.gc - n <= c.s.cells[p].cycle <= c.s.gc
  }

  // How old it may be after a traversal: the traversal stamps every marked object that it visits
  // and that has a height, and every object to which it gives one.
  function OlderBy(c: Config, marked: set<Obj>, order: seq<Obj>, p: Obj, n: nat): nat {
    if (p in marked && p in order) || !HasHeight(c, p) then 0 else n + 1
  }

  lemma CollectStamps(c: Config, marked: set<Obj>, order: seq<Obj>, p: Obj, n: nat)
    requires Inv(c) && Legal(c, Collect(marked, order)) && NoOlder(c, p, n)
    ensures NoOlder(Next(c, Collect(marked, order)), p, OlderBy(c, marked, order, p, n))
  {
    InvCanStart(c);
    TraverseBounded(c.s, marked, order);
    BoundedStamp(c.s.(gc := c.s.gc + 1, maxHeight := 0), marked, Elements(order), Traverse(c.s, marked, order), p, n);
    hide Traverse, Bounded;
  }

  lemma BoundedStamp(s0: State, marked: set<Obj>, done: set<Obj>, t: State, p: Obj, n: nat)
    requires Bounded(s0, marked, done, t) && ListsOk(s0)
    requires p in s0.cells && s0.cells[p].height >= 0 ==> s0.cells[p].height > 0 && s0.gc - 1 - n <= s0.cells[p].cycle < s0.gc
    requires p in s0.cells ==> s0.cells[p].height >= HEIGHT_UNKNOWN
    ensures p in t.cells && t.cells[p].height >= 0 ==>
              && t.cells[p].cycle <= s0.gc
              && s0.gc - 1 - n <= t.cells[p].cycle
              && ((p in marked && p in done) || p !in s0.cells || s0.cells[p].height < 0 ==> t.cells[p].cycle == s0.gc)
  {
    hide HasHolder, Covered;
  }

  // Whenever p has a height at a traversal, that is from one of the latest 65535 before it or p
  // was marked and visited by one of them; n counts those since then.
  ghost predicate Attended(c: Config, events: seq<Event>, p: Obj, n: nat)
    requires Inv(c) && LegalRun(c, events)
    decreases |events|
  {
    events == []
    || (NextInv(c, events[0]);
        match events[0]
        case Collect(marked, order) =>
          (HasHeight(c, p) ==> n < 0xFFFF) && Attended(Next(c, events[0]), events[1..], p, OlderBy(c, marked, order, p, n))
        case _ => Attended(Next(c, events[0]), events[1..], p, n))
  }

  // Every traversal of the run reads the stamp of p right.
  ghost predicate StampRun(c: Config, events: seq<Event>, p: Obj)
    requires Inv(c) && LegalRun(c, events)
    decreases |events|
  {
    events == []
    || ((events[0].Collect? && HasHeight(c, p) ==>
           (Low16(c.s.cells[p].cycle) == Low16(c.s.gc + 1) ==> c.s.cells[p].cycle == c.s.gc + 1))
        && (NextInv(c, events[0]); StampRun(Next(c, events[0]), events[1..], p)))
  }

  lemma {:induction false} StampsOneByOne(c: Config, events: seq<Event>)
    requires Inv(c) && LegalRun(c, events) && (forall p :: StampRun(c, events, p))
    ensures StampsRun(c, events)
    decreases |events|
  {
    if events != [] {
      NextInv(c, events[0]);
      forall p
        ensures StampRun(Next(c, events[0]), events[1..], p)
      {
        assert StampRun(c, events, p);
      }
      assert StampsRight(c, events[0]) by {
        if events[0].Collect? {
          forall p | p in c.s.cells && c.s.cells[p].height >= 0
            ensures Low16(c.s.cells[p].cycle) == Low16(c.s.gc + 1) ==> c.s.cells[p].cycle == c.s.gc + 1
          {
            assert StampRun(c, events, p);
          }
        }
      }
      StampsOneByOne(Next(c, events[0]), events[1..]);
    }
  }

  lemma OtherStamps(c: Config, e: Event, p: Obj, n: nat)
    requires Inv(c) && Legal(c, e) && !e.Collect? && NoOlder(c, p, n)
    ensures NoOlder(Next(c, e), p, n)
  {
    match e
    case BuildGraph(heap, objs) => BuildInv(c, heap, objs);
    case PrintStats(all) => PrintExact(c.s, all);
    case NewObject(q) =>
    case DropObject(q) =>
  }

  lemma {:induction false} AttendedStamp(c: Config, events: seq<Event>, p: Obj, n: nat)
    requires Inv(c) && LegalRun(c, events) && NoOlder(c, p, n) && Attended(c, events, p, n)
    ensures StampRun(c, events, p)
    decreases |events|
  {
    if events != [] {
      var e := events[0];
      NextInv(c, e);
      if e.Collect? {
        if HasHeight(c, p) {
          StampTest(c.s.cells[p].cycle, c.s.gc + 1);
        }
        CollectStamps(c, e.marked, e.order, p, n);
        AttendedStamp(Next(c, e), events[1..], p, OlderBy(c, e.marked, e.order, p, n));
      } else {
        OtherStamps(c, e, p, n);
        AttendedStamp(Next(c, e), events[1..], p, n);
      }
    }
  }

  // However far prints are apart, all stamps are read right in a run in which no object with a
  // height is left unmarked or unvisited by 65535 traversals in a row.
  lemma {:induction false} AttendedRight(events: seq<Event>)
    requires LegalRun(INITIAL, events) && (forall p :: Attended(INITIAL, events, p, 0))
    ensures StampsRun(INITIAL, events)
  {
    forall p
      ensures StampRun(INITIAL, events, p)
    {
      AttendedStamp(INITIAL, events, p, 0);
    }
    StampsOneByOne(INITIAL, events);
  }

  // ----- Prints that are too far apart -----

  // n collections, in each of which object 2 is all that is marked.
  function Rounds(n: nat): seq<Event> {
    if n == 0 then [] else Rounds(n - 1) + [BUILD, QUIET]
  }

  // Object 1 has the height that the first collection gave it.
  ghost predicate Resting(c: Config) {
    Inv(c) && (c.s.preds == Edge() || c.s.preds == NoEdge()) && c.s.cells == map[1 := Cell(1, 1)]
  }

  // The configuration after n rounds.
  function Rested(c: Config, n: nat): Config {
    if n == 0 then c
    else c.(phase := Traversed, s := c.s.(preds := Edge(), gc := c.s.gc + n, maxHeight := 0), marks := {2},
            since := c.since + n, age := c.age + n)
  }

  lemma RestingBuild(c: Config)
    requires Resting(c)
    ensures Legal(c, BUILD) && Inv(Next(c, BUILD)) && Next(c, BUILD) == c.(phase := Built, s := c.s.(preds := Edge()))
    ensures Next(c, BUILD).s.preds == Edge() && 2 !in Next(c, BUILD).s.cells
  {
    BuildNext(c);
    NextInv(c, BUILD);
  }

  lemma RoundNext(c: Config)
    requires Resting(c)
    ensures Legal(c, BUILD) && Inv(Next(c, BUILD)) && Legal(Next(c, BUILD), QUIET)
    ensures Next(Next(c, BUILD), QUIET) == Rested(c, 1)
  {
    RestingBuild(c);
    hide Resting, Inv;
    QuietNext(Next(c, BUILD));
  }

  lemma Round(c: Config, k: nat)
    requires Resting(c) && c.since < k
    ensures Reaches(c, [BUILD, QUIET], Rested(c, 1)) && Resting(Rested(c, 1)) && PrintedWithin(c, [BUILD, QUIET], k)
  {
    RoundNext(c);
    var d := Next(c, BUILD);
    ReachesOne(c, BUILD);
    ReachesOne(d, QUIET);
    ReachesJoin(c, [BUILD], d, [QUIET], Rested(c, 1));
    RestingBuild(c);
    WithinOne(c, BUILD, k);
    WithinOne(d, QUIET, k);
    WithinJoin(c, [BUILD], d, [QUIET], k);
    assert [BUILD] + [QUIET] == [BUILD, QUIET];
  }

  lemma WithinOne(c: Config, e: Event, k: nat)
    requires Inv(c) && Legal(c, e) && (e.Collect? ==> c.since < k)
    ensures LegalRun(c, [e]) && PrintedWithin(c, [e], k)
  {
    NextInv(c, e);
    assert [e][1..] == [];
  }

  // The run leads from c to d, with no more than k traversals between prints.
  ghost predicate Within(c: Config, events: seq<Event>, d: Config, k: nat) {
    Reaches(c, events, d) && PrintedWithin(c, events, k)
  }

  lemma WithinJoins(c: Config, a: seq<Event>, d: Config, b: seq<Event>, f: Config, k: nat)
    requires Within(c, a, d, k) && Within(d, b, f, k)
    ensures Within(c, a + b, f, k)
  {
    ReachesJoin(c, a, d, b, f);
    WithinJoin(c, a, d, b, k);
  }

  lemma {:induction false} RoundsRun(c: Config, n: nat, k: nat)
    requires Resting(c) && c.since + n <= k
    ensures Within(c, Rounds(n), Rested(c, n), k) && Resting(Rested(c, n))
  {
    if n > 0 {
      RoundsRun(c, n - 1, k);
      RoundsNext(c, n - 1, k);
    }
  }

  lemma RoundsNext(c: Config, n: nat, k: nat)
    requires Resting(c) && c.since + n < k
    requires Within(c, Rounds(n), Rested(c, n), k) && Resting(Rested(c, n))
    ensures Within(c, Rounds(n + 1), Rested(c, n + 1), k) && Resting(Rested(c, n + 1))
  {
    var d := Rested(c, n);
    Round(d, k);
    RestedTwice(c, n);
    WithinJoins(c, Rounds(n), d, [BUILD, QUIET], Rested(c, n + 1), k);
  }

  lemma RestedTwice(c: Config, n: nat)
    ensures Rested(Rested(c, n), 1) == Rested(c, n + 1)
  {
  }

  // 65536 collections after the first one, the height of object 1 passes for current.
  lemma StampFails(c: Config)
    requires Resting(c) && c.s.gc == 0x1_0000
    ensures Legal(c, BUILD) && Legal(Next(c, BUILD), QUIET)
    ensures LegalRun(c, [BUILD, QUIET]) && !StampsRun(c, [BUILD, QUIET])
  {
    RoundNext(c);
    ReachesOne(c, BUILD);
    ReachesOne(Next(c, BUILD), QUIET);
    RestingBuild(c);
    assert !StampsRight(Next(c, BUILD), QUIET) by {
      assert c.s.cells[1] == Cell(1, 1) && Low16(1) == Low16(0x1_0001);
    }
    assert [BUILD, QUIET][1..] == [QUIET];
    hide Inv, Resting, Legal, StampsOk;
  }

  // A first collection, 32768 rounds, a print, 32767 rounds, and a round.
  function LongGap(n: nat): seq<Event>
    requires n > 0
  {
    FIRST + Rounds(n) + [PRINT] + Rounds(n - 1) + [BUILD, QUIET]
  }

  // Everything up to the last round.
  lemma LongGapRun(n: nat, k: nat) returns (c: Config)
    requires n == 0x8000 && k > n
    ensures Within(INITIAL, FIRST + Rounds(n) + [PRINT] + Rounds(n - 1), c, k) && Resting(c) && c.s.gc == 0x1_0000
    ensures c.since < k
  {
    FirstWithin(k);
    RoundsRun(COLLECTED, n, k);
    var c2 := Rested(COLLECTED, n);
    var c3 := PrintWithin(c2, k);
    RoundsRun(c3, n - 1, k);
    c := Rested(c3, n - 1);
    hide Within, Rounds, Resting, FIRST;
    WithinJoins(INITIAL, FIRST, COLLECTED, Rounds(n), c2, k);
    WithinJoins(INITIAL, FIRST + Rounds(n), c2, [PRINT], c3, k);
    WithinJoins(INITIAL, FIRST + Rounds(n) + [PRINT], c3, Rounds(n - 1), c, k);
  }

  lemma {:induction false} CalmWithin(c: Config, events: seq<Event>, k: nat)
    requires Inv(c) && LegalRun(c, events) && (forall e :: e in events ==> !e.Collect?)
    ensures PrintedWithin(c, events, k)
    decreases |events|
  {
    if events != [] {
      NextInv(c, events[0]);
      CalmWithin(Next(c, events[0]), events[1..], k);
    }
  }

  lemma FirstWithin(k: nat)
    requires k > 0
    ensures Within(INITIAL, FIRST, COLLECTED, k) && Resting(COLLECTED)
  {
    hide *;
    FirstCollection();
    var c := FirstBuilt();
    FirstParts(c, k);
    WithinJoins(INITIAL, NEW + [BUILD], c, [COLLECT], COLLECTED, k);
    FirstIs();
    CollectedRests();
  }

  lemma FirstParts(c: Config, k: nat)
    requires Reaches(INITIAL, NEW + [BUILD], c) && Reaches(c, [COLLECT], COLLECTED) && c.since < k
    ensures Within(INITIAL, NEW + [BUILD], c, k) && Within(c, [COLLECT], COLLECTED, k)
  {
    CalmWithin(INITIAL, NEW + [BUILD], k);
    CollectWithin(c, k);
    hide LegalRun, Run, PrintedWithin, Inv;
  }

  lemma CollectedRests()
    requires Reaches(INITIAL, FIRST, COLLECTED)
    ensures Resting(COLLECTED)
  {
  }

  lemma CollectWithin(c: Config, k: nat)
    requires Inv(c) && LegalRun(c, [COLLECT]) && c.since < k
    ensures PrintedWithin(c, [COLLECT], k)
  {
    NextInv(c, COLLECT);
    assert [COLLECT][1..] == [];
  }

  lemma PrintWithin(c: Config, k: nat) returns (d: Config)
    requires Resting(c) && c.s.preds == Edge() && c.s.retain == {1} && c.since > 0
    ensures Within(c, [PRINT], d, k) && Resting(d) && d.since == 0 && d.s.gc == c.s.gc
  {
    assert c.s.cells.Keys == {1};
    PrintNext(c);
    d := Next(c, PRINT);
    ReachesOne(c, PRINT);
    WithinOne(c, PRINT, k);
  }

  // ----- The exact bound -----

  // Every traversal of every legal run with at most k traversals between prints reads its stamps
  // right if and only if k is at most 32768.
  lemma PrintGapIff(k: nat)
    ensures (forall events :: LegalRun(INITIAL, events) && PrintedWithin(INITIAL, events, k) ==> StampsRun(INITIAL, events))
            <==> k <= 0x8000
  {
    if k <= 0x8000 {
      forall events | LegalRun(INITIAL, events) && PrintedWithin(INITIAL, events, k)
        ensures StampsRun(INITIAL, events)
      {
        WithinRight(INITIAL, events, k);
      }
    } else {
      LongGapFails(0x8000, k);
    }
  }

  // The run in which the stamp of object 1 is misread.
  lemma LongGapFails(n: nat, k: nat)
    requires n == 0x8000 && k > n
    ensures LegalRun(INITIAL, LongGap(n)) && PrintedWithin(INITIAL, LongGap(n), k) && !StampsRun(INITIAL, LongGap(n))
  {
    var c := LongGapRun(n, k);
    StampFails(c);
    Round(c, k);
    var before := FIRST + Rounds(n) + [PRINT] + Rounds(n - 1);
    LastRound(before, c, k);
  }

  lemma LastRound(before: seq<Event>, c: Config, k: nat)
    requires Within(INITIAL, before, c, k) && LegalRun(c, [BUILD, QUIET]) && PrintedWithin(c, [BUILD, QUIET], k)
    requires !StampsRun(c, [BUILD, QUIET])
    ensures LegalRun(INITIAL, before + [BUILD, QUIET])
    ensures PrintedWithin(INITIAL, before + [BUILD, QUIET], k) && !StampsRun(INITIAL, before + [BUILD, QUIET])
  {
    WithinJoin(INITIAL, before, c, [BUILD, QUIET], k);
    StampsJoin(INITIAL, before, c, [BUILD, QUIET]);
  }
}
