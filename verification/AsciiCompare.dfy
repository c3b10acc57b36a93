// Case-insensitive comparison of C strings (libil2cpp/il2cpp-mono-api.cpp:639-659).
module AsciiCompare {
  import opened Options

  // The characters of an ASCII string, without its terminator.
  type Ascii = c: int | 0 < c < 128 witness 1
  type Text = seq<Ascii>

  // tolower, on ASCII and on the terminator.
  function ToLower(c: int): int {
    if 65 <= c <= 90 then c + 32 else c
  }

  function Fold(s: Text): (r: Text)
    ensures |r| == |s| && (forall i :: 0 <= i < |s| ==> r[i] == ToLower(s[i]))
  {
    seq(|s|, i requires 0 <= i < |s| => ToLower(s[i]))
  }

  // The string as it lies in memory.
  function CString(s: Text): (r: seq<int>)
    ensures |r| == |s| + 1 && r[|s|] == 0 && (forall i :: 0 <= i < |s| ==> r[i] == s[i])
  {
    seq(|s| + 1, i requires 0 <= i < |s| + 1 => if i < |s| then s[i] as int else 0)
  }

  // Dictionary order: x and y agree up to place k, where x ends or has the lesser character.
  ghost predicate LessAt(x: seq<int>, y: seq<int>, k: int) {
    && 0 <= k <= |x| && k < |y| && x[..k] == y[..k]
    && (k < |x| ==> x[k] < y[k])
  }

  ghost predicate Less(x: seq<int>, y: seq<int>) {
    exists k :: LessAt(x, y, k)
  }

  // What a result says about the two strings.
  ghost predicate Orders(r: int, a: Text, b: Text) {
    && (r == 0 <==> Fold(a) == Fold(b))
    && (r < 0 <==> Less(Fold(a), Fold(b)))
    && (r > 0 <==> Less(Fold(b), Fold(a)))
  }

  // The indices into the two strings stay within their terminators. A null pointer compares
  // equal to everything.
  method StrCaseCmp(s1: Option<Text>, s2: Option<Text>) returns (r: int)
    ensures s1.None? || s2.None? ==> r == 0
    ensures s1.Some? && s2.Some? ==> Orders(r, s1.value, s2.value) && (r == 0 <==> SameButCase(s1.value, s2.value))
  {
    if s1.Some? && s2.Some? {
      FoldSame(s1.value, s2.value);
    }
    if s1.None? {
      return 0;
    }
    if s2.None? {
      return 0;
    }
    var m1, m2 := CString(s1.value), CString(s2.value);
    ghost var x, y := Fold(s1.value), Fold(s2.value);
    var sp: nat := 0;
    while m1[sp] != 0
      decreases |s1.value| - sp
      invariant sp <= |s1.value| && sp <= |s2.value| && x[..sp] == y[..sp]
    {
      var c1, c2 := ToLower(m1[sp]), ToLower(m2[sp]);
      if c1 != c2 {
        FirstDifference(s1.value, s2.value, sp);
        return c1 - c2;
      }
      sp := sp + 1;
    }
    if sp == |s2.value| {
      assert x == y;
      Irreflexive(x);
    } else {
      FirstDifference(s1.value, s2.value, sp);
    }
    return m1[sp] - m2[sp];
  }

  // The strings agree but for the case of letters: at each place stands the same character, or one
  // of them is a letter A to Z and the other the same letter a to z.
  predicate SameButCase(a: Text, b: Text) {
    && |a| == |b|
    && (forall i :: 0 <= i < |a| ==> a[i] == b[i] || (65 <= a[i] <= 90 && b[i] == a[i] + 32) || (65 <= b[i] <= 90 && a[i] == b[i] + 32))
  }

  lemma FoldSame(a: Text, b: Text)
    ensures Fold(a) == Fold(b) <==> SameButCase(a, b)
  {
    if Fold(a) == Fold(b) {
      forall i | 0 <= i < |a|
        ensures a[i] == b[i] || (65 <= a[i] <= 90 && b[i] == a[i] + 32) || (65 <= b[i] <= 90 && a[i] == b[i] + 32)
      {
        assert Fold(a)[i] == Fold(b)[i];
      }
    }
  }

  // The first difference of two strings decides.
  lemma FirstDifference(a: Text, b: Text, k: nat)
    requires k <= |a| && k <= |b| && (k < |a| || k < |b|) && Fold(a)[..k] == Fold(b)[..k]
    requires k < |a| && k < |b| ==> Fold(a)[k] != Fold(b)[k]
    ensures Fold(a) != Fold(b)
    ensures Less(Fold(a), Fold(b)) <==> k == |a| || (k < |b| && Fold(a)[k] < Fold(b)[k])
    ensures Less(Fold(b), Fold(a)) <==> k == |b| || (k < |a| && Fold(b)[k] < Fold(a)[k])
  {
    DecidedAt(Fold(a), Fold(b), k);
    DecidedAt(Fold(b), Fold(a), k);
  }

  lemma DecidedAt(x: seq<int>, y: seq<int>, k: nat)
    requires k <= |x| && k <= |y| && (k < |x| || k < |y|) && x[..k] == y[..k]
    requires k < |x| && k < |y| ==> x[k] != y[k]
    ensures Less(x, y) <==> k == |x| || (k < |y| && x[k] < y[k])
  {
    if k == |x| || (k < |y| && x[k] < y[k]) {
      assert LessAt(x, y, k);
    }
    forall j | LessAt(x, y, j)
      ensures j == k
    {
      if j < k {
        SameBefore(x, y, k, j);
      } else if k < j {
        SameBefore(x, y, j, k);
      }
    }
  }

  lemma SameBefore(x: seq<int>, y: seq<int>, k: int, i: int)
    requires 0 <= i < k <= |x| && k <= |y| && x[..k] == y[..k]
    ensures x[i] == y[i]
  {
    assert x[..k][i] == y[..k][i];
  }

  lemma Irreflexive(x: seq<int>)
    ensures !Less(x, x)
  {
  }

  // Every result that orders two strings has the sign of every other one, so the sign is
  // antisymmetric and transitive.
  lemma SignAntisymmetric(r: int, r': int, a: Text, b: Text)
    requires Orders(r, a, b) && Orders(r', b, a)
    ensures (r < 0 <==> r' > 0) && (r == 0 <==> r' == 0)
  {
  }

  lemma SignTransitive(r: int, r': int, r'': int, a: Text, b: Text, c: Text)
    requires Orders(r, a, b) && Orders(r', b, c) && Orders(r'', a, c)
    ensures r <= 0 && r' <= 0 ==> r'' <= 0
    ensures r < 0 && r' <= 0 ==> r'' < 0
    ensures r <= 0 && r' < 0 ==> r'' < 0
  {
    if r < 0 && r' < 0 {
      LessTransitive(Fold(a), Fold(b), Fold(c));
    }
  }

  lemma LessTransitive(x: seq<int>, y: seq<int>, z: seq<int>)
    requires Less(x, y) && Less(y, z)
    ensures Less(x, z)
  {
    var j :| LessAt(x, y, j);
    var k :| LessAt(y, z, k);
    var i := if j < k then j else k;
    assert x[..i] == x[..j][..i] == y[..i] == y[..k][..i] == z[..i];
    if j < k {
      SameBefore(y, z, k, j);
    } else if k < j {
      SameBefore(x, y, j, k);
    }
    assert LessAt(x, z, i);
  }
}
