// GC_build_back_graph records exactly the edges of the heap.
module BuildProofs {
  import opened Options
  import opened Heights
  import opened HeapScan
  import opened Sizes
  import opened GraphModel

  // Structures belong to objects with debug info, an object without one has at most one
  // predecessor, and no object is recorded twice for another.
  ghost predicate ListsOk(s: State) {
    && s.cells.Keys <= s.preds.Keys
    && (forall q :: q in s.preds ==> Distinct(s.preds[q]) && (q in s.cells || |s.preds[q]| <= 1))
  }

  // Every recorded edge comes from an object with debug info.
  ghost predicate NoDangling(s: State) {
    forall q, i :: q in s.preds && 0 <= i < |s.preds[q]| ==> s.preds[q][i] in s.preds
  }

  // Building only appends predecessors and only adds structures without a height.
  ghost predicate Grown(s: State, s': State) {
    && s' == s.(preds := s'.preds, cells := s'.cells, random := s'.random)
    && s'.preds.Keys == s.preds.Keys
    && (forall q :: q in s.preds ==> s.preds[q] <= s'.preds[q])
    && (forall c :: c in s.cells ==> c in s'.cells && s'.cells[c] == s.cells[c])
    && (forall c :: c in s'.cells && c !in s.cells ==> s'.cells[c] == Cell(HEIGHT_UNKNOWN, s.gc - 1))
  }

  // The predecessor lists with p inserted into the list of q.
  function Insert(preds: Preds, p: Obj, q: Obj): Preds {
    if p in preds && q in preds && p !in preds[q] then preds[q := preds[q] + [p]] else preds
  }

  lemma AddEdgeShape(s: State, p: Obj, q: Obj)
    requires ListsOk(s)
    ensures var s' := AddEdge(s, p, q);
            && s' == s.(preds := Insert(s.preds, p, q), cells := s'.cells, random := s'.random)
            && (s'.cells == s.cells || (q in s.preds && q !in s.cells && s'.cells == s.cells[q := Cell(HEIGHT_UNKNOWN, s.gc - 1)]))
            && (q in s.preds && s.preds[q] != [] && Insert(s.preds, p, q) != s.preds ==> q in s'.cells)
  {
    if q in s.preds && s.preds[q] == [] {
      assert s.preds[q] + [p] == [p];
    }
  }

  // add_edge is insertion into a list without duplicates; no other list changes.
  lemma AddEdgeInserts(s: State, p: Obj, q: Obj)
    requires ListsOk(s)
    ensures var s' := AddEdge(s, p, q);
            ListsOk(s') && Grown(s, s') && s'.preds == Insert(s.preds, p, q)
  {
    AddEdgeShape(s, p, q);
    var s' := AddEdge(s, p, q);
    forall x | x in s'.preds
      ensures Distinct(s'.preds[x]) && (x in s'.cells || |s'.preds[x]| <= 1)
    {
      assert Distinct(s.preds[x]);
    }
  }

  // The first predecessor of q takes a structure when the counter of add_edge has reached a
  // multiple of 128, and so one time in 128.
  lemma FirstEdge(s: State, p: Obj, q: Obj)
    requires p in s.preds && q in s.preds && s.preds[q] == [] && q !in s.cells
    ensures var s' := AddEdge(s, p, q);
            && s'.preds == s.preds[q := [p]] && s'.random == (s.random + 1) % 0x1_0000_0000
            && s'.cells == if (s.random + 1) % 128 == 0 then s.cells[q := Cell(HEIGHT_UNKNOWN, s.gc - 1)] else s.cells
  {
    CounterSame(s.random + 1);
  }

  lemma CounterSame(n: nat)
    ensures n % 0x1_0000_0000 % 128 == n % 128
  {
    assert n == 0x1_0000_0000 * (n / 0x1_0000_0000) + n % 0x1_0000_0000;
    assert n == 128 * (0x200_0000 * (n / 0x1_0000_0000)) + n % 0x1_0000_0000;
  }

  ghost predicate EdgeAdded(heap: Heap, s: State, s': State, p: Obj, j: nat) {
    forall q, x :: q in s.preds && q in s'.preds ==>
      (x in s'.preds[q] <==> x in s.preds[q] || (x == p && p in s.preds && PointsToFrom(heap, p, j, q)))
  }

  lemma {:induction false} AddBackEdgesExact(heap: Heap, s: State, p: Obj, j: nat)
    requires ListsOk(s) && p in heap.objects && WellSized(heap)
    ensures var s' := AddBackEdges(heap, s, p, j);
            ListsOk(s') && Grown(s, s') && EdgeAdded(heap, s, s', p, j)
    decreases |heap.objects[p].words| - j
  {
    hide PointsToFrom, Target, AddWord, ListsOk, Grown;
    GrownSame(s);
    PointsToSplit(heap, p, j);
    var o := heap.objects[p];
    if BYTES_PER_WORD * j < ScanBytes(o) {
      var s1 := AddWord(heap, s, p, o.words[j]);
      WordAdded(heap, s, p, j);
      AddBackEdgesExact(heap, s1, p, j + 1);
      var s' := AddBackEdges(heap, s1, p, j + 1);
      GrownJoin(s, s1, s');
      GrownKeys(s, s1);
    }
  }

  // The program reads word j if the descriptor covers it, and goes on.
  lemma PointsToSplit(heap: Heap, p: Obj, j: nat)
    requires p in heap.objects && WellSized(heap)
    ensures var o := heap.objects[p];
            if BYTES_PER_WORD * j < ScanBytes(o) then
              j < |o.words| && (forall q: Obj :: PointsToFrom(heap, p, j, q)
                                            <==> Target(heap, o.words[j]) == Some(q) || PointsToFrom(heap, p, j + 1, q))
            else forall q: Obj :: !PointsToFrom(heap, p, j, q)
  {
    var o := heap.objects[p];
    if BYTES_PER_WORD * j < ScanBytes(o) {
      forall q: Obj
        ensures PointsToFrom(heap, p, j, q) <==> Target(heap, o.words[j]) == Some(q) || PointsToFrom(heap, p, j + 1, q)
      {
        assert PointsAt(heap, p, j, q) <==> Target(heap, o.words[j]) == Some(q);
      }
    }
  }

  lemma WordAdded(heap: Heap, s: State, p: Obj, j: nat)
    requires ListsOk(s) && p in heap.objects && j < |heap.objects[p].words|
    ensures var t := Target(heap, heap.objects[p].words[j]);
            var s' := AddWord(heap, s, p, heap.objects[p].words[j]);
            && ListsOk(s') && Grown(s, s')
            && (forall q, x :: q in s.preds ==>
                  (x in s'.preds[q] <==> x in s.preds[q] || (x == p && p in s.preds && t == Some(q))))
  {
    var t := Target(heap, heap.objects[p].words[j]);
    if t.Some? {
      AddEdgeInserts(s, p, t.value);
    }
  }

  // s' has the predecessors of s and the objects of `objs` with debug info that point to
  // them, each of them once.
  ghost predicate HasBuilt(heap: Heap, s: State, s': State, objs: seq<Obj>) {
    && Grown(s, s')
    && (forall q, p :: q in s.preds && q in s'.preds ==>
          (p in s'.preds[q] <==> p in s.preds[q] || (p in objs && p in s.preds && PointsTo(heap, p, q))))
  }

  lemma BuiltJoin(heap: Heap, s: State, s1: State, s': State, objs: seq<Obj>)
    requires objs != [] && Grown(s, s1) && EdgeAdded(heap, s, s1, objs[0], OH_WORDS) && HasBuilt(heap, s1, s', objs[1..])
    ensures HasBuilt(heap, s, s', objs)
  {
    GrownJoin(s, s1, s');
    hide PointsToFrom;
    assert objs == [objs[0]] + objs[1..];
  }

  lemma GrownSame(s: State)
    ensures Grown(s, s)
  {
  }

  lemma GrownKeys(s: State, s': State)
    requires Grown(s, s')
    ensures s'.preds.Keys == s.preds.Keys
  {
  }

  lemma GrownJoin(s: State, s1: State, s': State)
    requires Grown(s, s1) && Grown(s1, s')
    ensures Grown(s, s')
  {
  }

  // Building adds exactly the edges of the heap.
  lemma {:induction false} BuildExact(heap: Heap, s: State, objs: seq<Obj>)
    requires ListsOk(s) && WellSized(heap) && (forall p :: p in objs ==> p in heap.objects)
    ensures ListsOk(Build(heap, s, objs)) && HasBuilt(heap, s, Build(heap, s, objs), objs)
    decreases |objs|
  {
    if objs != [] {
      var s1 := AddBackEdges(heap, s, objs[0], OH_WORDS);
      AddBackEdgesExact(heap, s, objs[0], OH_WORDS);
      BuildExact(heap, s1, objs[1..]);
      BuiltJoin(heap, s, s1, Build(heap, s, objs), objs);
    }
  }

  // An object with a length descriptor is recorded for q exactly when a word behind the header,
  // within the length, looks like a pointer into the heap and leads to q.
  lemma LengthScanned(heap: Heap, s: State, p: Obj, n: nat, q: Obj)
    requires ListsOk(s) && WellSized(heap) && p in heap.objects && heap.objects[p].descr == Length(n)
    requires p in s.preds && q in s.preds
    ensures var words, s' := heap.objects[p].words, AddBackEdges(heap, s, p, OH_WORDS);
            && q in s'.preds
            && (p in s'.preds[q]
                <==> || p in s.preds[q]
                     || exists k :: 0 <= k < |words| && 48 <= 8 * k < n && heap.least <= words[k] <= heap.greatest
                                    && words[k] in heap.resolve && heap.resolve[words[k]] == q)
  {
    AddBackEdgesExact(heap, s, p, OH_WORDS);
    PointsWithin(heap, p, q);
    hide AddBackEdges, ListsOk, PointsToFrom, WellSized;
  }

  // One with any other descriptor exactly when any word behind the header does.
  lemma OtherScanned(heap: Heap, s: State, p: Obj, q: Obj)
    requires ListsOk(s) && WellSized(heap) && p in heap.objects && heap.objects[p].descr == Other
    requires p in s.preds && q in s.preds
    ensures var words, s' := heap.objects[p].words, AddBackEdges(heap, s, p, OH_WORDS);
            && q in s'.preds
            && (p in s'.preds[q]
                <==> || p in s.preds[q]
                     || exists k :: 6 <= k < |words| && heap.least <= words[k] <= heap.greatest
                                    && words[k] in heap.resolve && heap.resolve[words[k]] == q)
  {
    AddBackEdgesExact(heap, s, p, OH_WORDS);
    PointsWithin(heap, p, q);
    hide AddBackEdges, ListsOk, PointsToFrom, WellSized;
  }

  // The same of a whole build.
  lemma BuildScanned(heap: Heap, s: State, objs: seq<Obj>, p: Obj, q: Obj)
    requires ListsOk(s) && WellSized(heap) && (forall x :: x in objs ==> x in heap.objects)
    requires p in objs && p in s.preds && q in s.preds
    ensures var o, s' := heap.objects[p], Build(heap, s, objs);
            && q in s'.preds
            && (p in s'.preds[q]
                <==> || p in s.preds[q]
                     || exists k :: 0 <= k < |o.words| && 48 <= 8 * k && (o.descr.Length? ==> 8 * k < o.descr.bytes)
                                    && heap.least <= o.words[k] <= heap.greatest
                                    && o.words[k] in heap.resolve && heap.resolve[o.words[k]] == q)
  {
    BuildExact(heap, s, objs);
    PointsWithin(heap, p, q);
    hide Build, ListsOk, PointsToFrom, WellSized;
  }

  lemma PointsWithin(heap: Heap, p: Obj, q: Obj)
    requires p in heap.objects
    ensures var o := heap.objects[p];
            PointsToFrom(heap, p, OH_WORDS, q)
            <==> exists k :: 0 <= k < |o.words| && 48 <= 8 * k && (o.descr.Length? ==> 8 * k < o.descr.bytes)
                             && heap.least <= o.words[k] <= heap.greatest && o.words[k] in heap.resolve && heap.resolve[o.words[k]] == q
  {
    var o := heap.objects[p];
    if k :| 0 <= k < |o.words| && 48 <= 8 * k && (o.descr.Length? ==> 8 * k < o.descr.bytes)
            && heap.least <= o.words[k] <= heap.greatest && o.words[k] in heap.resolve && heap.resolve[o.words[k]] == q {
      assert PointsAt(heap, p, k, q);
    }
  }

  // Building starts no edge at an object without debug info.
  lemma BuildKeepsEdges(heap: Heap, s: State, objs: seq<Obj>)
    requires ListsOk(s) && WellSized(heap) && (forall p :: p in objs ==> p in heap.objects) && NoDangling(s)
    ensures NoDangling(Build(heap, s, objs))
  {
    BuildExact(heap, s, objs);
    var s' := Build(heap, s, objs);
    forall q, i | q in s'.preds && 0 <= i < |s'.preds[q]|
      ensures s'.preds[q][i] in s'.preds
    {
      assert s'.preds[q][i] in s'.preds[q];
      if s'.preds[q][i] in s.preds[q] {
        var j :| 0 <= j < |s.preds[q]| && s.preds[q][j] == s'.preds[q][i];
      }
    }
  }
}
