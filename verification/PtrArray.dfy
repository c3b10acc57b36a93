// The pointer array that doubles its capacity (libil2cpp/il2cpp-mono-api.cpp:582-616).
module PtrArray {

  const MIN_CAPACITY := 16

  function Pow2(k: nat): nat {
    if k == 0 then 1 else 2 * Pow2(k - 1)
  }

  ghost predicate IsPow2(n: nat) {
    exists k :: n == Pow2(k)
  }

  // size <<= 1 in 32 bits
  function Doubled(size: nat): nat {
    (2 * size) % 0x1_0000_0000
  }

  // The capacity after k turns of the doubling loop.
  function Turns(k: nat): nat {
    if k == 0 then 1 else Doubled(Turns(k - 1))
  }

  lemma {:induction false} Pow2Add(j: nat, k: nat)
    ensures Pow2(j + k) == Pow2(j) * Pow2(k)
  {
    if j > 0 {
      Pow2Add(j - 1, k);
      Twice(Pow2(j - 1), Pow2(k));
      assert Pow2(j) == 2 * Pow2(j - 1) && Pow2(j + k) == 2 * Pow2(j - 1 + k);
    }
  }

  lemma Twice(a: nat, b: nat)
    ensures (2 * a) * b == 2 * (a * b)
  {
  }

  lemma Pow2Top()
    ensures Pow2(30) == 0x4000_0000 && Pow2(31) == 0x8000_0000
  {
    assert Pow2(10) == 0x400;
    Pow2Add(10, 10);
    Pow2Add(10, 20);
    assert Pow2(31) == 2 * Pow2(30);
  }

  lemma {:induction false} Pow2Grows(j: nat, k: nat)
    requires j <= k
    ensures 0 < Pow2(j) <= Pow2(k)
    decreases k
  {
    if j < k {
      Pow2Grows(j, k - 1);
    } else if k > 0 {
      Pow2Grows(k - 1, k - 1);
    }
  }

  lemma Pow2Small(k: nat)
    ensures k < 32 ==> 0 < Pow2(k) <= 0x8000_0000
    ensures k < 31 ==> Pow2(k) <= 0x4000_0000
  {
    Pow2Top();
    if k < 32 {
      Pow2Grows(k, 31);
    }
    if k < 31 {
      Pow2Grows(k, 30);
    }
  }

  lemma {:induction false} TurnsDouble(k: nat)
    ensures Turns(k) == if k < 32 then Pow2(k) else 0
  {
    if k > 0 {
      TurnsDouble(k - 1);
      Pow2Small(k - 1);
      DoubledSmall(Turns(k - 1));
    }
    if k == 32 {
      Pow2Top();
    }
  }

  lemma DoubledSmall(n: nat)
    ensures n < 0x8000_0000 ==> Doubled(n) == 2 * n
    ensures n == 0x8000_0000 || n == 0 ==> Doubled(n) == 0
  {
  }

  // The doubling loop ends exactly for lengths up to 2^31; beyond, the capacity becomes 0
  // and stays 0.
  lemma DoublingEnds(length: nat)
    requires length < 0x1_0000_0000
    ensures (exists k :: Turns(k) >= length) <==> length <= 0x8000_0000
  {
    Pow2Top();
    if length <= 0x8000_0000 {
      TurnsDouble(31);
      assert Turns(31) >= length;
    } else {
      forall k: nat
        ensures Turns(k) < length
      {
        TurnsDouble(k);
        Pow2Small(k);
      }
    }
  }

  // The least power of two that is at least n.
  ghost predicate IsLeastPow2(m: nat, n: nat) {
    IsPow2(m) && m >= n && (forall k :: Pow2(k) >= n ==> m <= Pow2(k))
  }

  // The capacity asked for when n elements do not fit: the least power of two that is at least
  // n and at least 16.
  ghost predicate IsCapacityFor(m: nat, n: nat) {
    IsLeastPow2(m, if n < 16 then 16 else n)
  }

  // A power of two that is enough is the least one when the one before is not enough.
  lemma LeastPow2(k: nat, n: nat)
    requires Pow2(k) >= n && (k == 0 || Pow2(k - 1) < n)
    ensures IsLeastPow2(Pow2(k), n)
  {
    forall j: nat | Pow2(j) >= n
      ensures Pow2(k) <= Pow2(j)
    {
      if j < k {
        Pow2Grows(j, k - 1);
      } else {
        Pow2Grows(k, j);
      }
    }
  }

  lemma CapacityAtLeast16(m: nat, n: nat)
    requires IsLeastPow2(m, n)
    ensures IsCapacityFor(if m < MIN_CAPACITY then MIN_CAPACITY else m, n)
  {
    assert Pow2(4) == MIN_CAPACITY && Pow2(3) == 8;
    if n <= MIN_CAPACITY {
      LeastPow2(4, MIN_CAPACITY);
    }
  }

  // One element more than a full array holds takes twice its capacity.
  lemma FullCapacity(size: nat, m: nat)
    requires IsPow2(size) && size >= MIN_CAPACITY && IsCapacityFor(m, size + 1)
    ensures m == 2 * size
  {
    var k: nat :| size == Pow2(k);
    var j: nat :| m == Pow2(j);
    assert Pow2(k + 1) == 2 * size;
    if j <= k {
      Pow2Grows(j, k);
    } else {
      Pow2Grows(k + 1, j);
    }
  }

  class GPtrArray<T(0)> {
    var pdata: array?<T>
    var len: nat
    var size: nat
    // The number of elements that all reallocations have copied.
    ghost var copied: nat
    ghost var Repr: set<object>

    ghost predicate Valid()
      reads this, Repr
      ensures Valid() ==> this in Repr
    {
      && this in Repr && len <= size
      && (size == 0 || (IsPow2(size) && size >= MIN_CAPACITY))
      && (pdata == null <==> size == 0)
      && (pdata != null ==> pdata in Repr && pdata.Length == size)
    }

    ghost function Contents(): seq<T>
      requires Valid()
      reads this, Repr
    {
      if pdata == null then [] else pdata[..len]
    }

    // Elements are added one at a time: every doubling is paid for by the elements added
    // since the one before.
    ghost predicate Amortized()
      reads this
    {
      if size == 0 then copied == 0 else copied + MIN_CAPACITY == size && (size > MIN_CAPACITY ==> size < 2 * len) && len > 0
    }

    constructor ()
      ensures Valid() && fresh(Repr) && Contents() == [] && Amortized()
    {
      pdata, len, size, copied := null, 0, 0, 0;
      Repr := {this};
    }

    // The doubling loop. It does not end for lengths above 2^31.
    static method FindSize(length: nat) returns (size: nat)
      requires length <= 0x8000_0000
      ensures IsLeastPow2(size, length) && size <= 0x8000_0000
    {
      size := 1;
      ghost var k := 0;
      while size < length
        invariant k < 32 && size == Turns(k) == Pow2(k) <= 0x8000_0000 && (k == 0 || Pow2(k - 1) < length)
        decreases 32 - k
      {
        DoublingStep(k, length);
        size := Doubled(size);
        k := k + 1;
      }
      LeastPow2(k, length);
    }

    // In the loop, nothing overflows.
    static lemma DoublingStep(k: nat, length: nat)
      requires length <= 0x8000_0000 && k < 32 && Pow2(k) < length
      ensures k < 31 && Turns(k + 1) == Pow2(k + 1) <= 0x8000_0000
    {
      Pow2Top();
      TurnsDouble(k + 1);
      Pow2Small(k + 1);
    }

    // realloc
    method Realloc()
      requires this in Repr && (pdata != null ==> pdata in Repr && pdata.Length <= size)
      requires 0 < size && len <= size && (if pdata == null then len == 0 else len <= pdata.Length)
      modifies this
      ensures len == old(len) && size == old(size)
      ensures pdata != null && fresh(pdata) && pdata.Length == size && Repr == old(Repr) + {pdata}
      ensures pdata[..len] == if old(pdata) == null then [] else old(pdata[..len])
      ensures copied == old(copied) + (if old(pdata) == null then 0 else old(pdata).Length)
    {
      var data := new T[size];
      if pdata != null {
        copied := copied + pdata.Length;
        forall i | 0 <= i < pdata.Length {
          data[i] := pdata[i];
        }
        assert data[..len] == pdata[..len];
      }
      pdata := data;
      Repr := Repr + {data};
    }

    // Makes room for `length` more elements.
    method Grow(length: nat)
      requires Valid() && len + length <= 0x8000_0000
      modifies this
      ensures Valid() && fresh(Repr - old(Repr)) && Contents() == old(Contents()) && len == old(len)
      ensures if len + length <= old(size) then size == old(size) else IsCapacityFor(size, len + length)
      ensures copied == old(copied) + (if len + length <= old(size) then 0 else old(size))
      ensures size >= len + length
    {
      var newLength := (len + length) % 0x1_0000_0000;
      if newLength <= size {
        return;
      }
      size := FindSize(newLength);
      CapacityAtLeast16(size, newLength);
      size := if size < MIN_CAPACITY then MIN_CAPACITY else size;
      Realloc();
    }

    method Add(data: T)
      requires Valid() && Amortized() && len < 0x8000_0000
      modifies Repr
      ensures Valid() && Amortized() && fresh(Repr - old(Repr)) && Contents() == old(Contents()) + [data]
      ensures len == old(len) + 1
      ensures if len <= old(size) then size == old(size) else IsCapacityFor(size, len)
    {
      ghost var before := size;
      Grow(1);
      if len == before {
        CapacityAfterFull(before, size);
      }
      pdata[len] := data;
      len := len + 1;
    }
  }

  lemma CapacityAfterFull(size: nat, m: nat)
    requires size == 0 || (IsPow2(size) && size >= MIN_CAPACITY)
    requires IsCapacityFor(m, size + 1)
    ensures m == if size == 0 then MIN_CAPACITY else 2 * size
  {
    if size == 0 {
      assert Pow2(4) == MIN_CAPACITY;
    } else {
      FullCapacity(size, m);
    }
  }

  // Up to 2^31 values, added one at a time to a new array: it holds them in order, in the least
  // power of two that is at least 16 and has room for all, and all reallocations together have
  // copied fewer than twice as many elements.
  method AddAll<T(0)>(values: seq<T>) returns (a: GPtrArray<T>)
    requires |values| <= 0x8000_0000
    ensures fresh(a) && fresh(a.Repr) && a.Valid() && a.Contents() == values && a.len == |values| <= a.size
    ensures if values == [] then a.size == 0 else IsCapacityFor(a.size, |values|)
    ensures values != [] ==> a.copied < 2 * |values|
    ensures values == [] ==> a.copied == 0
  {
    a := new GPtrArray<T>();
    var i := 0;
    while i < |values|
      invariant i <= |values| && fresh(a) && fresh(a.Repr) && a.Valid() && a.Amortized()
      invariant a.len == i && a.Contents() == values[..i]
      invariant if i == 0 then a.size == 0 else IsCapacityFor(a.size, i)
    {
      a.Add(values[i]);
      i := i + 1;
    }
  }
}
