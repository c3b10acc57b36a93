// The dirty-bit checker as the program keeps it (external/bdwgc/checksums.c): a table of
// checksums and a log of write faults in fixed arrays, each method proved to do what module
// DirtyCheck says.
module DirtyChecker {
  import opened Options
  import opened Sizes
  import opened DirtyCheck

  // OFFSET blocks, which hides a block address from the collector.
  const HIDING := 0x1000_0000

  // `block` is 0 until the entry is used.
  datatype PageEntry = PageEntry(newValid: bool, oldSum: Word, newSum: Word, block: nat)

  ghost predicate EntryOk(e: PageEntry, seen: seq<Seen>, i: nat) {
    if i < |seen| then e.newValid && e.newSum == Checksum(seen[i].words) && e.block == seen[i].page + HIDING
    else !e.newValid && e.block == 0
  }

  ghost predicate TableOk(sums: seq<PageEntry>, seen: seq<Seen>) {
    |seen| <= |sums| && (forall i :: 0 <= i < |sums| ==> EntryOk(sums[i], seen, i))
  }

  // The table after entry i is filled in for page h.
  lemma EntryWritten(sums: seq<PageEntry>, seen: seq<Seen>, i: nat, e: PageEntry, now: Seen)
    requires TableOk(sums, seen) && i <= |seen| && i < |sums|
    requires e.newValid && e.newSum == Checksum(now.words) && e.block == now.page + HIDING
    ensures TableOk(sums[i := e], if i < |seen| then seen[i := now] else seen + [now])
  {
  }

  // One more page is checked.
  lemma SeenStep(seen: seq<Seen>, snap: Snapshot, pages: seq<nat>, i: nat)
    requires AllInMemory(snap, pages) && i < |pages|
    ensures var now, next := SeenNext(seen, snap, pages, i), SeenIn(snap, pages[i]);
            && i <= |now|
            && (i < |seen| ==> now[i] == seen[i]) && (i < |now| <==> i < |seen|)
            && SeenNext(seen, snap, pages, i + 1) == if i < |now| then now[i := next] else now + [next]
  {
  }

  function One(b: bool): nat {
    if b then 1 else 0
  }

  lemma SetStep(a: set<nat>, a': set<nat>, i: nat, b: bool)
    requires i !in a && a' == if b then a + {i} else a
    ensures |a'| == |a| + One(b)
  {
  }

  lemma AlarmsStep(seen: seq<Seen>, snap: Snapshot, pages: seq<nat>, i: nat, log: seq<nat>, pageSize: nat)
    requires SnapshotOk(snap) && AllInMemory(snap, pages) && i < |pages| && pageSize > 0
    ensures var alarm := Alarm(seen, snap, pages[i], i);
            && |Alarms(seen, snap, pages, i + 1)| == |Alarms(seen, snap, pages, i)| + One(alarm)
            && |FaultedAlarms(seen, snap, pages, i + 1, log, pageSize)|
               == |FaultedAlarms(seen, snap, pages, i, log, pageSize)| + One(alarm && OsPage(pages[i], pageSize) in log)
  {
    hide Alarm, OsPage, SnapshotOk;
    var alarm := Alarm(seen, snap, pages[i], i);
    SetStep(Alarms(seen, snap, pages, i), Alarms(seen, snap, pages, i + 1), i, alarm);
    SetStep(FaultedAlarms(seen, snap, pages, i, log, pageSize), FaultedAlarms(seen, snap, pages, i + 1, log, pageSize), i,
            alarm && OsPage(pages[i], pageSize) in log);
  }

  lemma SameAlarm(was: seq<Seen>, seen: seq<Seen>, snap: Snapshot, h: nat, i: nat)
    requires SnapshotOk(snap) && h in snap.memory
    requires (i < |was| <==> i < |seen|) && (i < |was| ==> was[i] == seen[i])
    ensures Alarm(was, snap, h, i) == Alarm(seen, snap, h, i)
  {
  }

  lemma DirtyStep(snap: Snapshot, pages: seq<nat>, i: nat)
    requires i < |pages|
    ensures |CleanPages(snap, pages, i + 1)| == |CleanPages(snap, pages, i)| + One(pages[i] !in snap.dirty)
    ensures |DirtyPages(snap, pages, i + 1)| == |DirtyPages(snap, pages, i)| + One(pages[i] in snap.dirty)
  {
    SetStep(CleanPages(snap, pages, i), CleanPages(snap, pages, i + 1), i, pages[i] !in snap.dirty);
    SetStep(DirtyPages(snap, pages, i), DirtyPages(snap, pages, i + 1), i, pages[i] in snap.dirty);
  }

  lemma NextPage(all: seq<nat>, index: nat, h: nat, end: nat, rest: seq<nat>)
    requires index <= |all| && h < end && all[index..] == PagesFrom(h, end) + rest
    ensures index < |all| && all[index] == h && all[index + 1..] == PagesFrom(h + HBLKSIZE, end) + rest
  {
    var tail := PagesFrom(h + HBLKSIZE, end) + rest;
    assert PagesFrom(h, end) + rest == [h] + tail;
    DropHead(all, index, h, tail);
  }

  lemma DropHead(all: seq<nat>, index: nat, h: nat, tail: seq<nat>)
    requires index <= |all| && all[index..] == [h] + tail
    ensures index < |all| && all[index] == h && all[index + 1..] == tail
  {
    assert all[index..][0] == h && all[index..][1..] == tail;
  }

  class Checker {
    const pageSize: nat          // GC_page_size
    const sums: array<PageEntry> // GC_sums
    const faulted: array<nat>    // GC_faulted
    var nFaulted: nat
    var errors: nat
    var faultedErrors: nat
    var clean: nat
    var dirty: nat

    ghost var seen: seq<Seen>

    ghost predicate Valid()
      reads this, sums, faulted
    {
      && pageSize > 0 && sums.Length == NSUMS && faulted.Length == NSUMS && nFaulted <= NSUMS
      && (sums as object) != faulted
      && TableOk(sums[..], seen)
    }

    ghost function Model(): State
      requires Valid()
      reads this, sums, faulted
    {
      State(seen, faulted[..nFaulted], errors, faultedErrors, clean, dirty)
    }

    constructor (pageSize: nat)
      requires pageSize > 0
      ensures Valid() && fresh(sums) && fresh(faulted) && this.pageSize == pageSize && Model() == INITIAL
    {
      this.pageSize := pageSize;
      sums := new PageEntry[NSUMS](_ => PageEntry(false, 0, 0, 0));
      faulted := new nat[NSUMS](_ => 0);
      nFaulted, errors, faultedErrors, clean, dirty := 0, 0, 0, 0, 0;
      seen := [];
    }

    // The result is false for ABORT.
    method RecordFault(h: nat) returns (ok: bool)
      requires Valid()
      modifies `nFaulted, faulted
      ensures ok <==> Enabled(old(Model()), Fault(h))
      ensures ok ==> Valid() && Model() == Next(old(Model()), Fault(h), pageSize)
    {
      var page := h - h % pageSize;
      if nFaulted >= NSUMS {
        return false;
      }
      faulted[nFaulted] := page;
      nFaulted := nFaulted + 1;
      return true;
    }

    method WasFaulted(h: nat) returns (found: bool)
      requires Valid()
      ensures found <==> OsPage(h, pageSize) in faulted[..nFaulted]
    {
      var page := h - h % pageSize;
      var i := 0;
      while i < nFaulted
        invariant i <= nFaulted && page !in faulted[..i]
      {
        if faulted[i] == page {
          assert faulted[..nFaulted][i] == page;
          return true;
        }
        i := i + 1;
      }
      return false;
    }

    // GC_checksum, over the words of a page.
    static method SumPage(ws: Page) returns (sum: Word)
      ensures sum == Checksum(ws)
    {
      var result: Word := 0;
      var i := 0;
      while i < |ws|
        invariant i <= |ws| && result == Wrap(Total(ws[..i]))
      {
        assert ws[..i + 1][..i] == ws[..i];
        WrapAdd(Total(ws[..i]), ws[i]);
        result := Wrap(result + ws[i]);
        i := i + 1;
      }
      assert ws[..i] == ws;
      return WithBit31(result);
    }

    // The descriptor of the block of h, following forwarding addresses; none without a header.
    static method FindDescr(headers: map<nat, Hdr>, h: nat) returns (descr: Option<nat>)
      requires HeadersOk(headers)
      ensures descr == DescrOf(headers, h)
    {
      var b := h;
      while b in headers && headers[b].Forward?
        invariant 0 <= b && DescrOf(headers, b) == DescrOf(headers, h)
        decreases b
      {
        b := b - HBLKSIZE * headers[b].blocks;
      }
      return if b in headers then Some(headers[b].descr) else None;
    }

    // Counts an error if the words of page h changed unrecorded.
    method CountError(snap: Snapshot, h: nat, index: nat, pe: PageEntry)
      requires Valid() && SnapshotOk(snap) && h in snap.memory && index < NSUMS
      requires pe.newSum == Checksum(snap.memory[h]) && pe.newValid == (index < |seen|)
      requires index < |seen| ==> pe.oldSum == Checksum(seen[index].words)
      modifies `errors, `faultedErrors
      ensures Valid()
      ensures var alarm := Alarm(seen, snap, h, index);
              && errors == old(errors) + One(alarm)
              && faultedErrors == old(faultedErrors) + One(alarm && OsPage(h, pageSize) in faulted[..nFaulted])
    {
      var descr := FindDescr(snap.headers, h);
      if pe.newValid && descr.Some? && descr.value != 0 && pe.oldSum != pe.newSum {
        if h !in snap.dirty || h !in snap.everDirty {
          var wasFaulted := WasFaulted(h);
          errors := errors + 1;
          if wasFaulted {
            faultedErrors := faultedErrors + 1;
          }
        }
      }
    }

    // The result is false for ABORT("goofed").
    method UpdateCheckPage(snap: Snapshot, h: nat, index: nat) returns (ok: bool)
      requires Valid() && SnapshotOk(snap) && h in snap.memory && index < NSUMS && index <= |seen|
      modifies sums, `errors, `faultedErrors, `clean, `dirty, `seen
      ensures ok <==> index == |old(seen)| || old(seen)[index].page == h
      ensures ok ==> Valid()
      ensures ok ==> seen == if index < |old(seen)| then old(seen)[index := SeenIn(snap, h)] else old(seen) + [SeenIn(snap, h)]
      ensures var alarm := Alarm(old(seen), snap, h, index);
              ok ==> && errors == old(errors) + One(alarm)
                     && faultedErrors == old(faultedErrors) + One(alarm && OsPage(h, pageSize) in faulted[..nFaulted])
                     && clean == old(clean) + One(h !in snap.dirty) && dirty == old(dirty) + One(h in snap.dirty)
    {
      var pe := sums[index];
      assert EntryOk(pe, seen, index);
      if pe.block != 0 && pe.block != h + HIDING {
        return false;
      }
      var sum := SumPage(snap.memory[h]);
      pe := pe.(oldSum := pe.newSum, newSum := sum);
      if h in snap.dirty {
        dirty := dirty + 1;
      } else {
        clean := clean + 1;
      }
      CountError(snap, h, index, pe);
      pe := pe.(newValid := true, block := h + HIDING);
      EntryWritten(sums[..], seen, index, pe, SeenIn(snap, h));
      sums[index] := pe;
      assert sums[..] == old(sums[..])[index := pe];
      seen := if index < |seen| then seen[index := SeenIn(snap, h)] else seen + [SeenIn(snap, h)];
      return true;
    }

    // The first n pages are checked; `was` is what had been seen before, `log` the fault log.
    ghost predicate CheckedFirst(was: seq<Seen>, log: seq<nat>, snap: Snapshot, n: nat)
      requires SnapshotOk(snap) && AllInMemory(snap, CheckedPages(snap)) && n <= |CheckedPages(snap)|
      reads this, sums, faulted
    {
      var pages := CheckedPages(snap);
      && Valid() && faulted[..nFaulted] == log
      && seen == SeenNext(was, snap, pages, n)
      && errors == |Alarms(was, snap, pages, n)| && faultedErrors == |FaultedAlarms(was, snap, pages, n, log, pageSize)|
      && clean == |CleanPages(snap, pages, n)| && dirty == |DirtyPages(snap, pages, n)|
      && (forall i :: 0 <= i < n && i < |was| ==> was[i].page == pages[i])
    }

    // One page of the check. The result is false for ABORT.
    method CheckNext(snap: Snapshot, h: nat, index: nat, ghost was: seq<Seen>, ghost log: seq<nat>) returns (ok: bool)
      requires SnapshotOk(snap) && AllInMemory(snap, CheckedPages(snap)) && index < |CheckedPages(snap)|
      requires CheckedPages(snap)[index] == h && CheckedFirst(was, log, snap, index)
      modifies sums, `errors, `faultedErrors, `clean, `dirty, `seen
      ensures ok ==> CheckedFirst(was, log, snap, index + 1)
      ensures !ok ==> Goofs(was, CheckedPages(snap))
    {
      hide Alarm, TableOk, SnapshotOk, SeenNext, Alarms, FaultedAlarms, CleanPages, DirtyPages, CheckedPages;
      ghost var pages := CheckedPages(snap);
      SeenStep(was, snap, pages, index);
      AlarmsStep(was, snap, pages, index, log, pageSize);
      DirtyStep(snap, pages, index);
      SameAlarm(was, seen, snap, h, index);
      ok := UpdateCheckPage(snap, h, index);
    }

    // Clears the log of write faults.
    method ClearLog()
      requires Valid()
      modifies faulted, `nFaulted
      ensures Valid() && nFaulted == 0
    {
      var i := 0;
      while i < nFaulted
        invariant i <= nFaulted && Valid()
      {
        faulted[i] := 0;
        i := i + 1;
      }
      nFaulted := 0;
    }

    lemma NoneChecked(snap: Snapshot)
      requires Valid() && SnapshotOk(snap) && errors == faultedErrors == clean == dirty == 0
      ensures AllInMemory(snap, CheckedPages(snap)) && CheckedFirst(seen, faulted[..nFaulted], snap, 0)
    {
      SnapshotPages(snap);
    }

    lemma AllChecked(was: State, snap: Snapshot)
      requires SnapshotOk(snap) && AllInMemory(snap, CheckedPages(snap))
      requires CheckedFirst(was.seen, was.log, snap, |CheckedPages(snap)|)
      ensures Valid() && Enabled(was, Event.CheckDirty(snap))
      ensures State(seen, [], errors, faultedErrors, clean, dirty) == Next(was, Event.CheckDirty(snap), pageSize)
    {
    }

    // The pages of one section. The result is false for ABORT.
    method CheckSection(snap: Snapshot, start: nat, end: nat, index: nat, ghost rest: seq<nat>,
                        ghost was: seq<Seen>, ghost log: seq<nat>)
      returns (ok: bool, index': nat)
      requires SnapshotOk(snap) && AllInMemory(snap, CheckedPages(snap)) && index <= |CheckedPages(snap)|
      requires index < NSUMS && Pages(snap.sections)[index..] == PagesFrom(start, end) + rest
      requires CheckedFirst(was, log, snap, index)
      modifies sums, `errors, `faultedErrors, `clean, `dirty, `seen
      ensures !ok ==> Goofs(was, CheckedPages(snap))
      ensures ok ==> index' <= |CheckedPages(snap)| && CheckedFirst(was, log, snap, index')
      ensures ok && index' < NSUMS ==> Pages(snap.sections)[index'..] == rest
    {
      hide SnapshotOk, CheckedFirst, Goofs, AllInMemory;
      ghost var all := Pages(snap.sections);
      hide Pages;
      var h := start;
      ok, index' := true, index;
      while h < end
        invariant ok && index' <= |CheckedPages(snap)| && index' < NSUMS
        invariant all[index'..] == PagesFrom(h, end) + rest
        invariant CheckedFirst(was, log, snap, index')
      {
        NextPage(all, index', h, end, rest);
        ok := CheckNext(snap, h, index', was, log);
        if !ok {
          return;
        }
        index' := index' + 1;
        if index' >= NSUMS {
          return;
        }
        h := h + HBLKSIZE;
      }
    }

    // The result is false for ABORT.
    method CheckDirty(snap: Snapshot) returns (ok: bool)
      requires Valid() && SnapshotOk(snap)
      modifies sums, faulted, `nFaulted, `errors, `faultedErrors, `clean, `dirty, `seen
      ensures ok <==> Enabled(old(Model()), Event.CheckDirty(snap))
      ensures ok ==> Valid() && Model() == Next(old(Model()), Event.CheckDirty(snap), pageSize)
    {
      ghost var was, all := Model(), Pages(snap.sections);
      errors, faultedErrors, clean, dirty := 0, 0, 0, 0;
      NoneChecked(snap);
      hide SnapshotOk, CheckedFirst, Goofs, AllInMemory, TableOk, Check, PagesFrom;
      var index: nat, i: nat := 0, 0;
      while i < |snap.sections|
        invariant i <= |snap.sections| && index <= |CheckedPages(snap)| && index < NSUMS
        invariant all[index..] == Pages(snap.sections[i..])
        invariant CheckedFirst(was.seen, was.log, snap, index)
      {
        var s := snap.sections[i];
        ok, index := CheckSection(snap, s.start, s.start + s.bytes, index, Pages(snap.sections[i + 1..]), was.seen, was.log);
        if !ok {
          return;
        }
        if index >= NSUMS {
          break;
        }
        i := i + 1;
      }
      assert index == |CheckedPages(snap)|;
      AllChecked(was, snap);
      ClearLog();
      return true;
    }
  }
}
