// The heap as GC_build_back_graph reads it (backgraph.c:335-362).
module HeapScan {
  import opened Options
  import opened Heights
  import opened Sizes

  // Words of the debugging header `oh` in front of every object: back-graph pointer, padding
  // word, string, line number, size and start flag (include/private/dbg_mlc.h:86-101).
  const OH_WORDS := 6

  // A descriptor is a length in bytes or one of the other kinds, which are scanned in full.
  datatype Descriptor = Length(bytes: nat) | Other

  datatype HeapObject = HeapObject(words: seq<nat>, descr: Descriptor)

  // `resolve` is GC_base: it takes a word to the object it points into, if there is one.
  datatype Heap = Heap(objects: map<Obj, HeapObject>, resolve: map<nat, Obj>, least: nat, greatest: nat)

  // The number of bytes of an object that are scanned, header included.
  function ScanBytes(o: HeapObject): nat {
    if o.descr.Length? then o.descr.bytes else BYTES_PER_WORD * |o.words|
  }

  // A length descriptor does not reach past the object.
  ghost predicate WellSized(heap: Heap) {
    forall p :: p in heap.objects && heap.objects[p].descr.Length? ==>
      heap.objects[p].descr.bytes <= BYTES_PER_WORD * |heap.objects[p].words|
  }

  function Target(heap: Heap, word: nat): Option<Obj> {
    if heap.least <= word <= heap.greatest && word in heap.resolve then Some(heap.resolve[word]) else None
  }

  // A word that looks like a pointer into the heap and leads to q.
  predicate Resolves(heap: Heap, word: nat, q: Obj) {
    heap.least <= word <= heap.greatest && word in heap.resolve && heap.resolve[word] == q
  }

  // Word k of p leads to q, and lies in the part of p that the descriptor covers.
  predicate PointsAt(heap: Heap, p: Obj, k: nat, q: Obj)
    requires p in heap.objects && k < |heap.objects[p].words|
  {
    && (heap.objects[p].descr.Length? ==> BYTES_PER_WORD * k < heap.objects[p].descr.bytes)
    && Resolves(heap, heap.objects[p].words[k], q)
  }

  // Some such word of p, not before word j, leads to q.
  ghost predicate PointsToFrom(heap: Heap, p: Obj, j: nat, q: Obj) {
    p in heap.objects && exists k :: j <= k < |heap.objects[p].words| && PointsAt(heap, p, k, q)
  }

  ghost predicate PointsTo(heap: Heap, p: Obj, q: Obj) {
    PointsToFrom(heap, p, OH_WORDS, q)
  }
}
