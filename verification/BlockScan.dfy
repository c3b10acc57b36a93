// Which objects of a block a pass over the heap visits (backgraph.c:280-297).
module BlockScan {
  import opened Sizes

  // The objects of `sz` bytes in a block start at 0, sz, 2 * sz, ...: as many as fit, and one if
  // an object is larger than a block.
  function ObjectsInBlock(sz: nat): nat
    requires sz > 0
  {
    if sz > HBLKSIZE then 1 else HBLKSIZE / sz
  }

  // The offsets that the loop of per_object_helper visits. The bound of the loop is a number of
  // words, the offsets are bytes.
  method PerObjectHelper(sz: nat) returns (visited: seq<nat>)
    requires sz > 0
    ensures |visited| == VisitedInBlock(sz)
    ensures forall k :: 0 <= k < |visited| ==> visited[k] == k * sz
  {
    visited := [0];
    var i := sz;
    while i + sz <= WORDS_PER_BLOCK
      invariant |visited| > 0 && i == |visited| * sz
      invariant forall k :: 0 <= k < |visited| ==> visited[k] == k * sz
      invariant |visited| == 1 || i <= WORDS_PER_BLOCK
    {
      visited := visited + [i];
      i := i + sz;
    }
    CountVisited(|visited|, sz, WORDS_PER_BLOCK);
  }

  // How many objects the loop visits: those that end within 512 bytes, and the first one.
  function VisitedInBlock(sz: nat): nat
    requires sz > 0
  {
    if sz > WORDS_PER_BLOCK then 1 else WORDS_PER_BLOCK / sz
  }

  lemma QuotientIs(a: nat, n: nat, d: nat)
    requires d > 0 && n * d <= a < (n + 1) * d
    ensures a / d == n
  {
    var q := a / d;
    assert q * d <= a < (q + 1) * d;
    assert q < n ==> (q + 1) * d <= n * d;
    assert n < q ==> (n + 1) * d <= q * d;
  }

  lemma CountVisited(n: nat, sz: nat, limit: nat)
    requires sz > 0 && n > 0 && n * sz + sz > limit && (n == 1 || n * sz <= limit)
    ensures n == if sz > limit then 1 else limit / sz
  {
    assert n > 1 ==> 2 * sz <= n * sz;
    if sz <= limit {
      assert (n + 1) * sz == n * sz + sz;
      QuotientIs(limit, n, sz);
    }
  }

  // The loop visits every object of a block if and only if objects are larger than half a block.
  lemma VisitsAllIff(sz: nat)
    requires sz > 0
    ensures VisitedInBlock(sz) <= ObjectsInBlock(sz)
    ensures VisitedInBlock(sz) == ObjectsInBlock(sz) <==> sz > 2048
  {
    if sz <= 512 {
      EightTimes(sz);
    } else if sz <= 4096 {
      QuotientAtLeast(4096, if sz <= 2048 then 2 else 1, sz);
      QuotientBelow(4096, 2, sz);
    }
  }

  lemma QuotientAtLeast(a: nat, n: nat, d: nat)
    requires d > 0 && n * d <= a
    ensures n <= a / d
  {
    var q := a / d;
    assert a < (q + 1) * d;
    assert q < n ==> (q + 1) * d <= n * d;
  }

  lemma QuotientBelow(a: nat, n: nat, d: nat)
    requires d > 0
    ensures a < n * d ==> a / d < n
  {
    var q := a / d;
    assert q * d <= a;
    assert n <= q ==> n * d <= q * d;
  }

  // A block of objects up to 512 bytes has at least eight times as many as end within 512 bytes.
  lemma EightTimes(sz: nat)
    requires 0 < sz <= 512
    ensures 0 < 8 * (512 / sz) <= 4096 / sz
  {
    var q := 512 / sz;
    assert q * sz <= 512;
    assert (8 * q) * sz == 8 * (q * sz);
    QuotientAtLeast(512, 1, sz);
    QuotientAtLeast(4096, 8 * q, sz);
  }
}
