// Sizes of finite sets.
module FiniteSets {

  lemma SubsetSize<T>(a: set<T>, b: set<T>)
    requires a <= b
    ensures |a| <= |b|
  {
    assert b == a + (b - a);
  }

  lemma SmallerSet<T>(a: set<T>, b: set<T>)
    requires a < b
    ensures |a| < |b|
  {
    assert b == a + (b - a);
    assert b - a != {};
  }

  lemma DisjointSizes<T>(a: set<T>, b: set<T>, c: set<T>, all: set<T>)
    requires a !! b && a !! c && b !! c && (forall x :: x in all <==> x in a || x in b || x in c)
    ensures |a| + |b| + |c| == |all|
  {
    assert a + b + c == all;
  }

  lemma {:induction false} InjectiveSize<A, B>(m: map<A, B>)
    requires forall x, y :: x in m && y in m && m[x] == m[y] ==> x == y
    ensures |m.Values| == |m.Keys|
    decreases |m|
  {
    if m != map[] {
      var x :| x in m;
      var rest := m - {x};
      InjectiveSize(rest);
      assert m.Keys == rest.Keys + {x};
      assert m.Values == rest.Values + {m[x]};
      assert m[x] !in rest.Values;
    }
  }

  function Below(n: nat): (r: set<nat>)
    ensures |r| == n && (forall i: nat :: i in r <==> i < n)
  {
    if n == 0 then {} else Below(n - 1) + {n - 1}
  }
}
