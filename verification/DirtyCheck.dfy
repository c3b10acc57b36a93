// What the dirty-bit checker reports (external/bdwgc/checksums.c), as a state machine over
// repeated checks: what was seen of every page at its latest check, the log of write
// faults, and the four counters.
module DirtyCheck {
  import opened FiniteSets
  import opened Options
  import opened Sizes

  const NSUMS := 10000

  type Word = w: nat | w < 0x1_0000_0000_0000_0000

  type Page = ws: seq<Word> | |ws| == WORDS_PER_BLOCK witness seq(WORDS_PER_BLOCK, _ => 0)

  // ----- Checksums (checksums.c:61-71) -----

  function Total(ws: seq<Word>): nat {
    if ws == [] then 0 else Total(ws[..|ws| - 1]) + ws[|ws| - 1]
  }

  // Addition in a machine word.
  function Wrap(n: int): Word {
    n % 0x1_0000_0000_0000_0000
  }

  predicate Bit31(w: Word) {
    (w / 0x8000_0000) % 2 == 1
  }

  // w | 0x80000000
  function WithBit31(w: Word): Word {
    if Bit31(w) then w else w + 0x8000_0000
  }

  function Checksum(ws: seq<Word>): Word {
    WithBit31(Wrap(Total(ws)))
  }

  lemma {:induction false} TotalUpdate(ws: seq<Word>, i: nat, w: Word)
    requires i < |ws|
    ensures Total(ws[i := w]) == Total(ws) - ws[i] + w
  {
    var n := |ws| - 1;
    if i < n {
      assert ws[i := w][..n] == ws[..n][i := w];
      TotalUpdate(ws[..n], i, w);
    } else {
      assert ws[i := w][..n] == ws[..n];
    }
  }

  // A change of one word goes unseen exactly when it changes nothing but bit 31 of the sum.
  lemma OneWordChanged(ws: seq<Word>, i: nat, w: Word)
    requires i < |ws|
    ensures var d, sum := Wrap(w - ws[i]), Wrap(Total(ws));
            Checksum(ws[i := w]) == Checksum(ws)
            <==> w == ws[i] || (d == 0x8000_0000 && !Bit31(sum)) || (d == 0xFFFF_FFFF_8000_0000 && Bit31(sum))
  {
    TotalUpdate(ws, i, w);
    WrapAdd(Total(ws), w - ws[i]);
    WithBit31Shift(Wrap(Total(ws)), Wrap(w - ws[i]));
  }

  lemma WrapAdd(n: int, d: int)
    ensures Wrap(n + d) == Wrap(Wrap(n) + Wrap(d))
  {
  }

  lemma WithBit31Shift(sum: Word, d: Word)
    ensures WithBit31(Wrap(sum + d)) == WithBit31(sum)
            <==> d == 0 || (d == 0x8000_0000 && !Bit31(sum)) || (d == 0xFFFF_FFFF_8000_0000 && Bit31(sum))
  {
    assert Wrap(sum + d) == if sum + d < 0x1_0000_0000_0000_0000 then sum + d else sum + d - 0x1_0000_0000_0000_0000;
  }

  // Words that only change places are never seen.
  lemma {:induction false} ReorderedUnseen(a: seq<Word>, b: seq<Word>)
    requires multiset(a) == multiset(b)
    ensures Checksum(a) == Checksum(b)
  {
    TotalOfMultiset(a, b);
  }

  lemma {:induction false} TotalOfMultiset(a: seq<Word>, b: seq<Word>)
    requires multiset(a) == multiset(b)
    ensures Total(a) == Total(b)
    decreases |a|
  {
    if a == [] {
      assert |multiset(b)| == 0;
    } else {
      var n, last := |a| - 1, a[|a| - 1];
      assert a[..n] + a[n + 1..] == a[..n];
      assert last in multiset(b);
      var i :| 0 <= i < |b| && b[i] == last;
      MultisetRemove(a, n);
      MultisetRemove(b, i);
      TotalOfMultiset(a[..n], b[..i] + b[i + 1..]);
      TotalRemove(b, i);
    }
  }

  lemma MultisetRemove(ws: seq<Word>, i: nat)
    requires i < |ws|
    ensures multiset(ws[..i] + ws[i + 1..]) == multiset(ws) - multiset{ws[i]}
  {
    assert ws == ws[..i] + [ws[i]] + ws[i + 1..];
  }

  lemma {:induction false} TotalRemove(ws: seq<Word>, i: nat)
    requires i < |ws|
    ensures Total(ws) == Total(ws[..i] + ws[i + 1..]) + ws[i]
  {
    var n := |ws| - 1;
    if i == n {
      assert ws[..i] + ws[i + 1..] == ws[..n];
    } else {
      assert (ws[..i] + ws[i + 1..])[..n - 1] == ws[..n][..i] + ws[..n][i + 1..];
      TotalRemove(ws[..n], i);
    }
  }

  // ----- The heap at the time of a check -----

  // A forwarding address leads `blocks` blocks back.
  datatype Hdr = Forward(blocks: nat) | Block(descr: nat)

  datatype Section = Section(start: nat, bytes: nat)

  // memory   the contents of every page           headers   HDR
  // dirty, everDirty   GC_page_was_dirty, GC_page_was_ever_dirty
  datatype Snapshot = Snapshot(sections: seq<Section>, memory: map<nat, Page>, headers: map<nat, Hdr>,
                               dirty: set<nat>, everDirty: set<nat>)

  ghost predicate HeadersOk(headers: map<nat, Hdr>) {
    forall b :: b in headers && headers[b].Forward? ==> 0 < headers[b].blocks && HBLKSIZE * headers[b].blocks <= b
  }

  // The descriptor of the block that b belongs to, if there is one.
  ghost function DescrOf(headers: map<nat, Hdr>, b: nat): Option<nat>
    requires HeadersOk(headers)
    decreases b
  {
    if b !in headers then None
    else match headers[b]
         case Block(descr) => Some(descr)
         case Forward(blocks) => DescrOf(headers, b - HBLKSIZE * blocks)
  }

  function PagesFrom(a: nat, end: nat): seq<nat>
    decreases end - a
  {
    if a < end then [a] + PagesFrom(a + HBLKSIZE, end) else []
  }

  function Pages(sections: seq<Section>): seq<nat> {
    if sections == [] then []
    else PagesFrom(sections[0].start, sections[0].start + sections[0].bytes) + Pages(sections[1..])
  }

  // The pages that a check looks at: all of them, or as many as there are entries.
  function CheckedPages(snap: Snapshot): (pages: seq<nat>)
    ensures |pages| == Min(NSUMS, |Pages(snap.sections)|) && pages <= Pages(snap.sections)
  {
    Pages(snap.sections)[..Min(NSUMS, |Pages(snap.sections)|)]
  }

  function Min(a: nat, b: nat): nat {
    if a < b then a else b
  }

  ghost predicate SnapshotOk(snap: Snapshot) {
    HeadersOk(snap.headers) && (forall h :: h in Pages(snap.sections) ==> h in snap.memory)
  }

  // A section has as many pages as it takes to cover its bytes, one behind the other.
  lemma {:induction false} PagesCover(a: nat, end: nat)
    requires a <= end
    ensures |PagesFrom(a, end)| == (end - a + 4095) / 4096
    ensures forall i :: 0 <= i < |PagesFrom(a, end)| ==> PagesFrom(a, end)[i] == a + 4096 * i
    decreases end - a
  {
    if a + HBLKSIZE <= end {
      PagesCover(a + HBLKSIZE, end);
    }
  }

  // The pages of the sections follow one another in the order of the sections.
  lemma {:induction false} PagesAppend(sections: seq<Section>, s: Section)
    ensures Pages(sections + [s]) == Pages(sections) + PagesFrom(s.start, s.start + s.bytes)
    decreases |sections|
  {
    if sections == [] {
      assert [s][1..] == [] && [] + [s] == [s];
    } else {
      assert (sections + [s])[0] == sections[0] && (sections + [s])[1..] == sections[1..] + [s];
      PagesAppend(sections[1..], s);
    }
  }

  // ----- Checks -----

  // A page and its words at its latest check.
  datatype Seen = Seen(page: nat, words: Page)

  // seen  by table index      log  GC_faulted      and the counters of the latest check
  datatype State = State(seen: seq<Seen>, log: seq<nat>, errors: nat, faultedErrors: nat, clean: nat, dirty: nat)

  const INITIAL := State([], [], 0, 0, 0, 0)

  // The page of the operating system that h lies in.
  function OsPage(h: nat, pageSize: nat): nat
    requires pageSize > 0
  {
    h - h % pageSize
  }

  // The check stops with "goofed": a table entry belongs to another page.
  ghost predicate Goofs(seen: seq<Seen>, pages: seq<nat>) {
    exists i :: 0 <= i < |seen| && i < |pages| && seen[i].page != pages[i]
  }

  predicate Recorded(snap: Snapshot, h: nat) {
    h in snap.dirty && h in snap.everDirty
  }

  // Page number i, which is h, is counted as an error.
  ghost predicate Alarm(seen: seq<Seen>, snap: Snapshot, h: nat, i: nat)
    requires SnapshotOk(snap) && h in snap.memory
  {
    && i < |seen|
    && DescrOf(snap.headers, h).Some? && DescrOf(snap.headers, h).value != 0
    && Checksum(seen[i].words) != Checksum(snap.memory[h])
    && !Recorded(snap, h)
  }

  ghost predicate AllInMemory(snap: Snapshot, pages: seq<nat>) {
    forall i :: 0 <= i < |pages| ==> pages[i] in snap.memory
  }

  // The errors among the first n pages, and those of them with a logged write fault.
  ghost function Alarms(seen: seq<Seen>, snap: Snapshot, pages: seq<nat>, n: nat): set<nat>
    requires SnapshotOk(snap) && AllInMemory(snap, pages) && n <= |pages|
  {
    set i: nat | i < n && Alarm(seen, snap, pages[i], i)
  }

  ghost function FaultedAlarms(seen: seq<Seen>, snap: Snapshot, pages: seq<nat>, n: nat, log: seq<nat>, pageSize: nat): set<nat>
    requires SnapshotOk(snap) && AllInMemory(snap, pages) && n <= |pages| && pageSize > 0
  {
    set i: nat | i < n && Alarm(seen, snap, pages[i], i) && OsPage(pages[i], pageSize) in log
  }

  ghost function DirtyPages(snap: Snapshot, pages: seq<nat>, n: nat): set<nat>
    requires n <= |pages|
  {
    set i: nat | i < n && pages[i] in snap.dirty
  }

  ghost function CleanPages(snap: Snapshot, pages: seq<nat>, n: nat): set<nat>
    requires n <= |pages|
  {
    set i: nat | i < n && pages[i] !in snap.dirty
  }

  function SeenIn(snap: Snapshot, h: nat): Seen
    requires h in snap.memory
  {
    Seen(h, snap.memory[h])
  }

  lemma SnapshotPages(snap: Snapshot)
    requires SnapshotOk(snap)
    ensures AllInMemory(snap, CheckedPages(snap))
  {
    var pages := CheckedPages(snap);
    forall i | 0 <= i < |pages|
      ensures pages[i] in snap.memory
    {
      assert pages[i] == Pages(snap.sections)[i];
    }
  }

  // The words of page number i.
  ghost function WordsOf(snap: Snapshot, i: nat): Page
    requires SnapshotOk(snap) && i < |CheckedPages(snap)|
  {
    SnapshotPages(snap);
    snap.memory[CheckedPages(snap)[i]]
  }

  // What is seen after the first n pages are checked: entries beyond them keep what they had.
  ghost function SeenNext(seen: seq<Seen>, snap: Snapshot, pages: seq<nat>, n: nat): (r: seq<Seen>)
    requires AllInMemory(snap, pages) && n <= |pages|
    ensures |r| == if |seen| < n then n else |seen|
  {
    seq(n, i requires 0 <= i < n => SeenIn(snap, pages[i])) + (if |seen| < n then [] else seen[n..])
  }

  ghost function Check(s: State, snap: Snapshot, pageSize: nat): State
    requires SnapshotOk(snap) && pageSize > 0
  {
    SnapshotPages(snap);
    var pages := CheckedPages(snap);
    var n := |pages|;
    State(SeenNext(s.seen, snap, pages, n), [],
          |Alarms(s.seen, snap, pages, n)|, |FaultedAlarms(s.seen, snap, pages, n, s.log, pageSize)|,
          |CleanPages(snap, pages, n)|, |DirtyPages(snap, pages, n)|)
  }

  // ----- Runs -----

  datatype Event = Fault(h: nat) | CheckDirty(snap: Snapshot)

  // The step does not end in ABORT.
  ghost predicate Enabled(s: State, e: Event) {
    match e
    case Fault(_) => |s.log| < NSUMS
    case CheckDirty(snap) => !Goofs(s.seen, CheckedPages(snap))
  }

  ghost predicate EventOk(e: Event) {
    e.CheckDirty? ==> SnapshotOk(e.snap)
  }

  ghost function Next(s: State, e: Event, pageSize: nat): State
    requires EventOk(e) && pageSize > 0
  {
    match e
    case Fault(h) => s.(log := s.log + [OsPage(h, pageSize)])
    case CheckDirty(snap) => Check(s, snap, pageSize)
  }

  // A run, the latest event outermost.
  datatype Run = Start | Then(before: Run, event: Event)

  ghost predicate RunOk(run: Run) {
    match run
    case Start => true
    case Then(before, e) => EventOk(e) && RunOk(before)
  }

  ghost function After(run: Run, pageSize: nat): State
    requires pageSize > 0 && RunOk(run)
  {
    match run
    case Start => INITIAL
    case Then(before, e) => Next(After(before, pageSize), e, pageSize)
  }

  // The latest check that reached page i.
  function Latest(run: Run, i: nat): Option<Snapshot> {
    match run
    case Start => None
    case Then(before, e) =>
      if e.CheckDirty? && i < |CheckedPages(e.snap)| then Some(e.snap) else Latest(before, i)
  }

  // What is held about page i after a run is what the latest check that reached it saw.
  lemma {:induction false} SeenIsLatest(run: Run, pageSize: nat, i: nat)
    requires pageSize > 0 && RunOk(run)
    ensures var seen, latest := After(run, pageSize).seen, Latest(run, i);
            && (i < |seen| <==> latest.Some?)
            && (latest.Some? ==>
                  && SnapshotOk(latest.value) && i < |CheckedPages(latest.value)|
                  && seen[i] == Seen(CheckedPages(latest.value)[i], WordsOf(latest.value, i)))
  {
    if run.Then? {
      SeenIsLatest(run.before, pageSize, i);
      if run.event.CheckDirty? {
        SnapshotPages(run.event.snap);
      }
    }
  }

  // ----- No false alarms -----

  // The contents of page number i differ from what was seen of it.
  ghost predicate Changed(seen: seq<Seen>, snap: Snapshot, i: nat)
    requires SnapshotOk(snap)
  {
    i < |seen| && i < |CheckedPages(snap)| && seen[i].words != WordsOf(snap, i)
  }

  // The error count of a check is the number of pages whose checksum changed without being
  // recorded, in blocks that may hold pointers; each of them really changed, and the clean
  // and dirty pages make up all the pages checked.
  lemma CheckCounts(s: State, snap: Snapshot, pageSize: nat)
    requires SnapshotOk(snap) && pageSize > 0
    ensures var pages, t := CheckedPages(snap), Check(s, snap, pageSize);
            && AllInMemory(snap, pages)
            && t.clean + t.dirty == Min(10000, |Pages(snap.sections)|)
            && t.faultedErrors <= t.errors <= |pages|
            && t.log == []
            && t.errors == |Alarms(s.seen, snap, pages, |pages|)|
            && (forall i :: i in Alarms(s.seen, snap, pages, |pages|) ==>
                  i < |pages| && Changed(s.seen, snap, i) && !Recorded(snap, pages[i]))
  {
    SnapshotPages(snap);
    AlarmsChanged(s.seen, snap);
    ErrorsBound(s.seen, snap, CheckedPages(snap), s.log, pageSize);
    CleanOrDirty(snap, CheckedPages(snap));
  }

  lemma AlarmsChanged(seen: seq<Seen>, snap: Snapshot)
    requires SnapshotOk(snap)
    ensures var pages := CheckedPages(snap);
            && AllInMemory(snap, pages)
            && (forall i :: i in Alarms(seen, snap, pages, |pages|) ==>
                  i < |pages| && Changed(seen, snap, i) && !Recorded(snap, pages[i]))
  {
    SnapshotPages(snap);
  }

  lemma ErrorsBound(seen: seq<Seen>, snap: Snapshot, pages: seq<nat>, log: seq<nat>, pageSize: nat)
    requires SnapshotOk(snap) && AllInMemory(snap, pages) && pageSize > 0
    ensures |FaultedAlarms(seen, snap, pages, |pages|, log, pageSize)| <= |Alarms(seen, snap, pages, |pages|)| <= |pages|
  {
    hide Alarm, OsPage, SnapshotOk;
    SubsetSize(Alarms(seen, snap, pages, |pages|), Below(|pages|));
    SubsetSize(FaultedAlarms(seen, snap, pages, |pages|, log, pageSize), Alarms(seen, snap, pages, |pages|));
  }

  lemma CleanOrDirty(snap: Snapshot, pages: seq<nat>)
    ensures |CleanPages(snap, pages, |pages|)| + |DirtyPages(snap, pages, |pages|)| == |pages|
  {
    var clean, dirty := CleanPages(snap, pages, |pages|), DirtyPages(snap, pages, |pages|);
    assert clean !! dirty && clean + dirty == Below(|pages|);
  }

  // After any run, an error counted for page number i is a page whose words differ from what
  // the latest check that reached it saw, and that is not both dirty and ever dirty.
  lemma {:induction false} AlarmsAreReal(run: Run, pageSize: nat, snap: Snapshot, i: nat)
    requires pageSize > 0 && RunOk(run) && SnapshotOk(snap) && Enabled(After(run, pageSize), CheckDirty(snap))
    requires AllInMemory(snap, CheckedPages(snap))
    requires i in Alarms(After(run, pageSize).seen, snap, CheckedPages(snap), |CheckedPages(snap)|)
    ensures var latest := Latest(run, i);
            && latest.Some? && SnapshotOk(latest.value)
            && i < |CheckedPages(latest.value)| && i < |CheckedPages(snap)|
            && CheckedPages(latest.value)[i] == CheckedPages(snap)[i]
            && WordsOf(latest.value, i) != WordsOf(snap, i)
            && !Recorded(snap, CheckedPages(snap)[i])
  {
    SeenIsLatest(run, pageSize, i);
    AlarmsChanged(After(run, pageSize).seen, snap);
  }

  // ----- Every alarm that there should be -----

  // Forwarding addresses lead along `path` from h to the header of a block with descriptor d.
  ghost predicate Forwards(headers: map<nat, Hdr>, path: seq<nat>, h: nat, d: nat) {
    && |path| > 0 && path[0] == h
    && (forall i :: 0 <= i < |path| ==> path[i] in headers)
    && (forall i :: 0 <= i < |path| - 1 ==> headers[path[i]].Forward? && path[i + 1] == path[i] - 4096 * headers[path[i]].blocks)
    && headers[path[|path| - 1]] == Block(d)
  }

  lemma {:induction false} DescrFound(headers: map<nat, Hdr>, h: nat) returns (path: seq<nat>)
    requires HeadersOk(headers)
    ensures DescrOf(headers, h).Some? ==> Forwards(headers, path, h, DescrOf(headers, h).value)
    decreases h
  {
    path := [h];
    if h in headers && headers[h].Forward? {
      var rest := DescrFound(headers, h - HBLKSIZE * headers[h].blocks);
      path := [h] + rest;
    }
  }

  lemma {:induction false} DescrOnPath(headers: map<nat, Hdr>, path: seq<nat>, h: nat, d: nat)
    requires HeadersOk(headers) && Forwards(headers, path, h, d)
    ensures DescrOf(headers, h) == Some(d)
    decreases |path|
  {
    if |path| > 1 {
      DescrOnPath(headers, path[1..], path[1], d);
    }
  }

  // Page number i has another checksum than the latest check that reached it saw, lies in a block
  // with a descriptor other than 0, and is not both dirty and ever dirty.
  ghost predicate Unrecorded(run: Run, snap: Snapshot, i: nat)
    requires SnapshotOk(snap) && i < |CheckedPages(snap)|
  {
    var page, latest := CheckedPages(snap)[i], Latest(run, i);
    && latest.Some? && SnapshotOk(latest.value) && i < |CheckedPages(latest.value)|
    && Checksum(WordsOf(latest.value, i)) != Checksum(WordsOf(snap, i))
    && (exists path: seq<nat>, d: nat :: d != 0 && Forwards(snap.headers, path, page, d))
    && (page !in snap.dirty || page !in snap.everDirty)
  }

  lemma {:induction false} AlarmIff(run: Run, pageSize: nat, snap: Snapshot, i: nat)
    requires pageSize > 0 && RunOk(run) && SnapshotOk(snap) && i < |CheckedPages(snap)| && AllInMemory(snap, CheckedPages(snap))
    ensures Alarm(After(run, pageSize).seen, snap, CheckedPages(snap)[i], i) <==> Unrecorded(run, snap, i)
  {
    var page := CheckedPages(snap)[i];
    SeenIsLatest(run, pageSize, i);
    var found := DescrFound(snap.headers, page);
    forall path: seq<nat>, d: nat | Forwards(snap.headers, path, page, d)
      ensures DescrOf(snap.headers, page) == Some(d)
    {
      DescrOnPath(snap.headers, path, page, d);
    }
    hide After, Checksum, DescrOf, Forwards, SnapshotOk;
  }

  // The addresses of the write faults since the latest check.
  function FaultsSince(run: Run): seq<nat> {
    match run
    case Start => []
    case Then(before, Fault(h)) => FaultsSince(before) + [h]
    case Then(_, CheckDirty(_)) => []
  }

  lemma SamePage(a: nat, b: nat, pageSize: nat)
    requires pageSize > 0
    ensures OsPage(a, pageSize) == OsPage(b, pageSize) <==> a / pageSize == b / pageSize
  {
    var q, r := a / pageSize, b / pageSize;
    assert OsPage(a, pageSize) == pageSize * q && OsPage(b, pageSize) == pageSize * r;
    if q < r {
      assert pageSize * q + pageSize == pageSize * (q + 1) <= pageSize * r;
    } else if r < q {
      assert pageSize * r + pageSize == pageSize * (r + 1) <= pageSize * q;
    }
  }

  // Some of these addresses lies on that page of the operating system.
  ghost predicate OnPage(faults: seq<nat>, page: nat, pageSize: nat)
    requires pageSize > 0
  {
    exists h :: h in faults && h / pageSize == page / pageSize
  }

  // A page is in the log exactly when there was a write fault on it since the latest check.
  lemma {:induction false} LogIs(run: Run, pageSize: nat, page: nat)
    requires pageSize > 0 && RunOk(run)
    ensures OsPage(page, pageSize) in After(run, pageSize).log <==> OnPage(FaultsSince(run), page, pageSize)
  {
    if run.Then? && run.event.Fault? {
      var h := run.event.h;
      LogIs(run.before, pageSize, page);
      SamePage(h, page, pageSize);
      assert After(run, pageSize).log == After(run.before, pageSize).log + [OsPage(h, pageSize)];
      FaultAdded(FaultsSince(run.before), h, page, pageSize);
      assert FaultsSince(run) == FaultsSince(run.before) + [h];
      hide OsPage, OnPage;
    }
  }

  lemma FaultAdded(before: seq<nat>, h: nat, page: nat, pageSize: nat)
    requires pageSize > 0
    ensures OnPage(before + [h], page, pageSize) <==> h / pageSize == page / pageSize || OnPage(before, page, pageSize)
  {
    var after := before + [h];
    assert h in after;
    if k :| k in before && k / pageSize == page / pageSize {
      assert k in after;
    }
  }

  // A write fault finds room in the log exactly when fewer than 10000 happened since the latest
  // check.
  lemma {:induction false} FaultFits(run: Run, pageSize: nat, h: nat)
    requires pageSize > 0 && RunOk(run)
    ensures |After(run, pageSize).log| == |FaultsSince(run)|
    ensures Enabled(After(run, pageSize), Fault(h)) <==> |FaultsSince(run)| < 10000
  {
    if run.Then? {
      FaultFits(run.before, pageSize, h);
    }
  }

  // What a check counts after any run: as errors the pages that changed unrecorded, as faulted
  // those of them on whose page of the operating system a write fault happened since the latest
  // check, and the pages that are dirty and those that are not.
  lemma CountsExact(run: Run, pageSize: nat, snap: Snapshot)
    requires pageSize > 0 && RunOk(run) && SnapshotOk(snap)
    ensures var t, pages := After(Then(run, CheckDirty(snap)), pageSize), CheckedPages(snap);
            && t.errors == |(set i: nat | i < |pages| && Unrecorded(run, snap, i))|
            && t.faultedErrors == |(set i: nat | i < |pages| && Unrecorded(run, snap, i)
                                                 && OnPage(FaultsSince(run), pages[i], pageSize))|
            && t.dirty == |(set i: nat | i < |pages| && pages[i] in snap.dirty)|
            && t.clean == |(set i: nat | i < |pages| && pages[i] !in snap.dirty)|
  {
    SnapshotPages(snap);
    var s, pages := After(run, pageSize), CheckedPages(snap);
    forall i: nat | i < |pages|
      ensures Alarm(s.seen, snap, pages[i], i) <==> Unrecorded(run, snap, i)
      ensures OsPage(pages[i], pageSize) in s.log <==> OnPage(FaultsSince(run), pages[i], pageSize)
    {
      AlarmIff(run, pageSize, snap, i);
      LogIs(run, pageSize, pages[i]);
    }
    hide Alarm, Unrecorded, OsPage, OnPage, SnapshotOk;
    assert Alarms(s.seen, snap, pages, |pages|) == set i: nat | i < |pages| && Unrecorded(run, snap, i);
    assert FaultedAlarms(s.seen, snap, pages, |pages|, s.log, pageSize)
        == set i: nat | i < |pages| && Unrecorded(run, snap, i) && OnPage(FaultsSince(run), pages[i], pageSize);
  }

  // Every page that changed is recorded as dirty and as ever dirty.
  ghost predicate AllRecorded(seen: seq<Seen>, snap: Snapshot)
    requires SnapshotOk(snap)
  {
    forall i: nat :: Changed(seen, snap, i) ==> Recorded(snap, CheckedPages(snap)[i])
  }

  lemma NoFalseAlarm(s: State, snap: Snapshot, pageSize: nat)
    requires SnapshotOk(snap) && pageSize > 0 && AllRecorded(s.seen, snap)
    ensures Check(s, snap, pageSize).errors == 0
  {
    SnapshotPages(snap);
    var pages := CheckedPages(snap);
    assert Alarms(s.seen, snap, pages, |pages|) == {};
  }

  ghost predicate RecordedRun(run: Run, pageSize: nat)
    requires pageSize > 0 && RunOk(run)
  {
    match run
    case Start => true
    case Then(before, e) =>
      RecordedRun(before, pageSize) && (e.CheckDirty? ==> AllRecorded(After(before, pageSize).seen, e.snap))
  }

  // In a run in which every change is recorded, no check counts an error.
  lemma {:induction false} NoErrorsInRun(run: Run, pageSize: nat)
    requires pageSize > 0 && RunOk(run) && RecordedRun(run, pageSize)
    ensures After(run, pageSize).errors == 0
  {
    if run.Then? {
      NoErrorsInRun(run.before, pageSize);
      if run.event.CheckDirty? {
        NoFalseAlarm(After(run.before, pageSize), run.event.snap, pageSize);
      }
    }
  }

  // ----- "goofed" -----

  // Every check of the run looked at a list of pages that `pages` continues.
  ghost predicate AllContinued(run: Run, pages: seq<nat>) {
    match run
    case Start => true
    case Then(before, e) => AllContinued(before, pages) && (e.CheckDirty? ==> Pages(e.snap.sections) <= pages)
  }

  // When the list of pages has only grown at its end, a check does not stop with "goofed".
  lemma {:induction false} NeverGoofs(run: Run, pageSize: nat, snap: Snapshot)
    requires pageSize > 0 && RunOk(run) && AllContinued(run, Pages(snap.sections))
    ensures Enabled(After(run, pageSize), CheckDirty(snap))
  {
    var seen, pages := After(run, pageSize).seen, CheckedPages(snap);
    forall i | 0 <= i < |seen| && i < |pages|
      ensures seen[i].page == pages[i]
    {
      SeenIsLatest(run, pageSize, i);
      LatestContinued(run, Pages(snap.sections), i);
    }
  }

  lemma {:induction false} LatestContinued(run: Run, pages: seq<nat>, i: nat)
    requires AllContinued(run, pages) && Latest(run, i).Some?
    ensures i < |CheckedPages(Latest(run, i).value)| <= |pages| && CheckedPages(Latest(run, i).value)[i] == pages[i]
  {
    match run
    case Then(before, e) =>
      if !(e.CheckDirty? && i < |CheckedPages(e.snap)|) {
        LatestContinued(before, pages, i);
      }
  }

  // In general it stops exactly when some page number it reaches stood for another page at
  // the latest check that reached it.
  lemma {:induction false} GoofsExactly(run: Run, pageSize: nat, snap: Snapshot)
    requires pageSize > 0 && RunOk(run)
    ensures !Enabled(After(run, pageSize), CheckDirty(snap))
            <==> exists i :: 0 <= i < |CheckedPages(snap)| && Moved(run, snap, i)
  {
    var seen, pages := After(run, pageSize).seen, CheckedPages(snap);
    forall i | 0 <= i < |pages|
      ensures Moved(run, snap, i) <==> i < |seen| && seen[i].page != pages[i]
    {
      SeenIsLatest(run, pageSize, i);
    }
  }

  ghost predicate Moved(run: Run, snap: Snapshot, i: nat)
    requires i < |CheckedPages(snap)|
  {
    var latest := Latest(run, i);
    latest.Some? && i < |CheckedPages(latest.value)| && CheckedPages(latest.value)[i] != CheckedPages(snap)[i]
  }
}
