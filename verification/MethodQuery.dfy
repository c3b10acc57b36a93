// The debugger's query for the methods of a class by name and binding flags
// (libil2cpp/il2cpp-mono-api.cpp:567-580, 661-734).
module MethodQuery {
  import opened Options
  import opened AsciiCompare
  import opened PtrArray

  // ----- Flags (il2cpp-tabledefs.h:51-60, il2cpp-mono-api.cpp:158-165) -----

  const ACCESS_PRIVATE := 1
  const ACCESS_ASSEM := 3
  const ACCESS_PUBLIC := 6

  // flags & METHOD_ATTRIBUTE_MEMBER_ACCESS_MASK
  function Access(flags: nat): nat {
    flags % 8
  }

  // flags & METHOD_ATTRIBUTE_STATIC
  predicate IsStatic(flags: nat) {
    (flags / 16) % 2 == 1
  }

  // The binding flags that the query looks at.
  datatype Binding = Binding(declaredOnly: bool, inst: bool, static_: bool, pub: bool, nonPublic: bool, flatten: bool)

  predicate Bit(n: nat, mask: nat)
    requires mask > 0
  {
    (n / mask) % 2 == 1
  }

  function BindingOf(bflags: nat): Binding {
    Binding(Bit(bflags, 2), Bit(bflags, 4), Bit(bflags, 8), Bit(bflags, 16), Bit(bflags, 32), Bit(bflags, 64))
  }

  // ----- Classes -----

  datatype MethodInfo = MethodInfo(name: Text, flags: nat)

  datatype Class = Class(methods: seq<MethodInfo>, parent: Option<Class>)

  // k is one of the classes above c.
  ghost predicate Above(k: Class, c: Class) {
    c.parent.Some? && (c.parent.value == k || Above(k, c.parent.value))
  }

  // The parent of a class on the way up is above the start, and is not the start.
  lemma AboveParent(klass: Class, start: Class)
    requires (klass == start || Above(klass, start)) && klass.parent.Some?
    ensures Above(klass.parent.value, start) && klass.parent.value != start
    ensures klass.parent.value < klass
  {
    if klass != start {
      AboveHigher(klass.parent.value, klass, start);
    }
    AboveSmaller(klass.parent.value, start);
  }

  lemma {:induction false} AboveHigher(k: Class, klass: Class, start: Class)
    requires klass.parent == Some(k) && Above(klass, start)
    ensures Above(k, start)
  {
    if start.parent.value != klass {
      AboveHigher(k, klass, start.parent.value);
    }
  }

  lemma {:induction false} AboveSmaller(k: Class, c: Class)
    requires Above(k, c)
    ensures k < c && k != c
  {
    if c.parent.value != k {
      AboveSmaller(k, c.parent.value);
    }
  }

  // ----- What the query asks for -----

  // hasIList says whether the runtime knows IList<T>; method_nonpublic lets that stand in for
  // the start class when a method has assembly access.
  datatype Query = Query(name: Option<Text>, binding: Binding, ignoreCase: bool, allowCtors: bool, hasIList: bool)

  // ".", ".ctor" and ".cctor" in ASCII
  const DOT: Ascii := 46
  const CTOR_NAME: Text := [DOT, 99, 116, 111, 114]
  const CCTOR_NAME: Text := [DOT, 99, 99, 116, 111, 114]

  predicate IsCtor(m: MethodInfo) {
    m.name == CTOR_NAME || m.name == CCTOR_NAME
  }

  // `declared`: the method belongs to the class the query starts from.
  predicate Accessible(m: MethodInfo, declared: bool, q: Query) {
    if Access(m.flags) == ACCESS_PUBLIC then q.binding.pub
    else
      && q.binding.nonPublic
      && (Access(m.flags) == ACCESS_PRIVATE ==> declared)
      && (Access(m.flags) == ACCESS_ASSEM ==> declared || q.hasIList)
  }

  predicate Bindable(m: MethodInfo, declared: bool, q: Query) {
    if IsStatic(m.flags) then q.binding.static_ && (declared || q.binding.flatten) else q.binding.inst
  }

  predicate Named(m: MethodInfo, q: Query) {
    q.name.Some? ==> (if q.ignoreCase then Fold(q.name.value) == Fold(m.name) else q.name.value == m.name)
  }

  predicate Matches(m: MethodInfo, declared: bool, q: Query) {
    (q.allowCtors || !IsCtor(m)) && Accessible(m, declared, q) && Bindable(m, declared, q) && Named(m, q)
  }

  function Filter(ms: seq<MethodInfo>, declared: bool, q: Query): seq<MethodInfo> {
    if ms == [] then []
    else Filter(ms[..|ms| - 1], declared, q) + (if Matches(ms[|ms| - 1], declared, q) then [ms[|ms| - 1]] else [])
  }

  // The matches in `parent` and the classes above it.
  function Inherited(parent: Option<Class>, q: Query): seq<MethodInfo>
    decreases parent
  {
    if parent.None? then [] else Filter(parent.value.methods, false, q) + Inherited(parent.value.parent, q)
  }

  function Answer(start: Class, q: Query): seq<MethodInfo> {
    Filter(start.methods, true, q) + (if q.binding.declaredOnly then [] else Inherited(start.parent, q))
  }

  // ----- The query -----

  method MethodNonpublic(flags: nat, startKlass: bool, hasIList: bool) returns (r: bool)
    ensures Access(flags) != ACCESS_PUBLIC ==>
              (r <==> && (Access(flags) == ACCESS_PRIVATE ==> startKlass)
                      && (Access(flags) == ACCESS_ASSEM ==> startKlass || hasIList))
    ensures Access(flags) == ACCESS_PUBLIC ==> !r
  {
    match flags % 8 {
      case 3 => return startKlass || hasIList;
      case 1 => return startKlass;
      case 6 => return false;
      case _ => return true;
    }
  }

  method NameDiffers(name: Text, m: MethodInfo, ignoreCase: bool) returns (r: bool)
    ensures r <==> if ignoreCase then Fold(name) != Fold(m.name) else name != m.name
  {
    if ignoreCase {
      var order := StrCaseCmp(Some(name), Some(m.name));
      return order != 0;
    }
    return name != m.name;
  }

  // The body of the loop: whether the method is added.
  method IsMatch(m: MethodInfo, declared: bool, name: Option<Text>, bflags: nat, ignoreCase: bool, allowCtors: bool, hasIList: bool)
    returns (added: bool)
    ensures added <==> Matches(m, declared, Query(name, BindingOf(bflags), ignoreCase, allowCtors, hasIList))
  {
    var matched := 0;
    if !allowCtors && |m.name| > 0 && m.name[0] == DOT && (m.name == CTOR_NAME || m.name == CCTOR_NAME) {
      return false;
    }
    if Access(m.flags) == ACCESS_PUBLIC {
      if Bit(bflags, 16) {
        matched := matched + 1;
      }
    } else {
      var nonPublic := MethodNonpublic(m.flags, declared, hasIList);
      if Bit(bflags, 32) && nonPublic {
        matched := matched + 1;
      }
    }
    if matched == 0 {
      return false;
    }
    matched := 0;
    if IsStatic(m.flags) {
      if Bit(bflags, 8) {
        if Bit(bflags, 64) || declared {
          matched := matched + 1;
        }
      }
    } else {
      if Bit(bflags, 4) {
        matched := matched + 1;
      }
    }
    if matched == 0 {
      return false;
    }
    if name.Some? {
      var differs := NameDiffers(name.value, m, ignoreCase);
      if differs {
        return false;
      }
    }
    return true;
  }

  lemma FilterNext(ms: seq<MethodInfo>, i: nat, declared: bool, q: Query)
    requires i < |ms|
    ensures Filter(ms[..i + 1], declared, q)
         == Filter(ms[..i], declared, q) + (if Matches(ms[i], declared, q) then [ms[i]] else [])
  {
    assert ms[..i + 1][..i] == ms[..i];
  }

  lemma FilterNone(ms: seq<MethodInfo>, declared: bool, q: Query)
    ensures Filter(ms[..0], declared, q) == []
  {
  }

  // One class of the walk: adds its matches to the array.
  method AddMatches(array_: GPtrArray<MethodInfo>, klass: Class, declared: bool, name: Option<Text>, bflags: nat,
                    ignoreCase: bool, allowCtors: bool, hasIList: bool)
    requires array_.Valid() && array_.Amortized() && array_.len + |klass.methods| <= 0x8000_0000
    modifies array_.Repr
    ensures array_.Valid() && array_.Amortized() && fresh(array_.Repr - old(array_.Repr))
    ensures var q := Query(name, BindingOf(bflags), ignoreCase, allowCtors, hasIList);
            array_.Contents() == old(array_.Contents()) + Filter(klass.methods, declared, q)
    ensures array_.len <= old(array_.len) + |klass.methods|
  {
    hide *;
    ghost var q := Query(name, BindingOf(bflags), ignoreCase, allowCtors, hasIList);
    ghost var before := array_.Contents();
    FilterNone(klass.methods, declared, q);
    var iter := 0;
    while iter < |klass.methods|
      invariant iter <= |klass.methods|
      invariant array_.Valid() && array_.Amortized() && fresh(array_.Repr - old(array_.Repr))
      invariant array_.Contents() == before + Filter(klass.methods[..iter], declared, q)
      invariant array_.len <= old(array_.len) + iter
    {
      var m := klass.methods[iter];
      FilterNext(klass.methods, iter, declared, q);
      iter := iter + 1;
      var matched := IsMatch(m, declared, name, bflags, ignoreCase, allowCtors, hasIList);
      if !matched {
        continue;
      }
      array_.Add(m);
    }
    assert klass.methods[..iter] == klass.methods;
  }

  // The number of methods in a class and the classes above it.
  function MethodCount(c: Class): nat {
    |c.methods| + (if c.parent.Some? then MethodCount(c.parent.value) else 0)
  }

  // The part of the answer that klass and the classes above it contribute.
  function AnswerFrom(klass: Class, declared: bool, q: Query): seq<MethodInfo> {
    Filter(klass.methods, declared, q) + (if q.binding.declaredOnly then [] else Inherited(klass.parent, q))
  }

  lemma AnswerStep(done: seq<MethodInfo>, klass: Class, declared: bool, q: Query)
    requires klass.parent.Some? && !q.binding.declaredOnly
    ensures done + AnswerFrom(klass, declared, q)
         == done + Filter(klass.methods, declared, q) + AnswerFrom(klass.parent.value, false, q)
  {
  }

  // The array holds the matches class by class, from the start class upwards, in order.
  method GetMethodsByName(start: Class, name: Option<Text>, bflags: nat, ignoreCase: bool, allowCtors: bool, hasIList: bool)
    returns (array_: GPtrArray<MethodInfo>)
    requires MethodCount(start) <= 0x8000_0000
    ensures fresh(array_) && fresh(array_.Repr) && array_.Valid() && array_.Amortized()
    ensures array_.Contents() == Answer(start, Query(name, BindingOf(bflags), ignoreCase, allowCtors, hasIList))
  {
    hide Filter, Above;
    ghost var q := Query(name, BindingOf(bflags), ignoreCase, allowCtors, hasIList);
    array_ := new GPtrArray<MethodInfo>();
    var klass := start;
    while true
      invariant klass == start || Above(klass, start)
      invariant fresh(array_) && fresh(array_.Repr) && array_.Valid() && array_.Amortized()
      invariant array_.len + MethodCount(klass) <= 0x8000_0000
      invariant array_.Contents() + AnswerFrom(klass, klass == start, q) == Answer(start, q)
      decreases klass
    {
      ghost var done := array_.Contents();
      AddMatches(array_, klass, klass == start, name, bflags, ignoreCase, allowCtors, hasIList);
      if Bit(bflags, 2) || klass.parent.None? {
        return;
      }
      AnswerStep(done, klass, klass == start, q);
      AboveParent(klass, start);
      klass := klass.parent.value;
    }
  }

  // ----- What the answer means -----

  // No private method is inherited, and inherited static methods take FlattenHierarchy.
  lemma {:induction false} InheritedVisible(parent: Option<Class>, q: Query, m: MethodInfo)
    requires m in Inherited(parent, q)
    ensures Access(m.flags) != ACCESS_PRIVATE
    ensures IsStatic(m.flags) ==> q.binding.flatten
    decreases parent
  {
    if m in Filter(parent.value.methods, false, q) {
      FilterMatches(parent.value.methods, false, q, m);
    } else {
      InheritedVisible(parent.value.parent, q, m);
    }
  }

  lemma {:induction false} FilterMatches(ms: seq<MethodInfo>, declared: bool, q: Query, m: MethodInfo)
    ensures m in Filter(ms, declared, q) <==> m in ms && Matches(m, declared, q)
  {
    if ms != [] {
      FilterMatches(ms[..|ms| - 1], declared, q, m);
      assert ms == ms[..|ms| - 1] + [ms[|ms| - 1]];
    }
  }

  // A method is in the answer exactly when it matches where it stands: in the start class,
  // or in a class above it that the flags let the query reach.
  lemma AnswerMembers(start: Class, q: Query, m: MethodInfo)
    ensures m in Answer(start, q)
            <==> || (m in start.methods && Matches(m, true, q))
                 || (!q.binding.declaredOnly && exists k :: Above(k, start) && m in k.methods && Matches(m, false, q))
  {
    FilterMatches(start.methods, true, q, m);
    InheritedMembers(start, q, m);
  }

  lemma {:induction false} InheritedMembers(c: Class, q: Query, m: MethodInfo)
    ensures m in Inherited(c.parent, q) <==> exists k :: Above(k, c) && m in k.methods && Matches(m, false, q)
  {
    if c.parent.Some? {
      var p := c.parent.value;
      FilterMatches(p.methods, false, q, m);
      InheritedMembers(p, q, m);
      if m in Filter(p.methods, false, q) {
        assert Above(p, c);
      } else if m in Inherited(p.parent, q) {
        var k :| Above(k, p) && m in k.methods && Matches(m, false, q);
        assert Above(k, c);
      }
    }
  }

  // a is b with some elements left out.
  ghost predicate Subsequence(a: seq<MethodInfo>, b: seq<MethodInfo>) {
    || a == []
    || (b != [] && (Subsequence(a, b[..|b| - 1])
                    || (a[|a| - 1] == b[|b| - 1] && Subsequence(a[..|a| - 1], b[..|b| - 1]))))
  }

  lemma {:induction false} SubsequenceJoins(a: seq<MethodInfo>, b: seq<MethodInfo>, c: seq<MethodInfo>, d: seq<MethodInfo>)
    requires Subsequence(a, b) && Subsequence(c, d)
    ensures Subsequence(a + c, b + d)
    decreases |d|
  {
    if c == [] && d == [] {
      assert a + c == a && b + d == b;
    } else {
      var d' := d[..|d| - 1];
      assert (b + d)[..|b + d| - 1] == b + d';
      if Subsequence(c, d') {
        SubsequenceJoins(a, b, c, d');
      } else {
        SubsequenceJoins(a, b, c[..|c| - 1], d');
        assert (a + c)[..|a + c| - 1] == a + c[..|c| - 1];
      }
    }
  }

  // All methods of a class and the classes above it, from the class upwards.
  function AllMethods(c: Class): seq<MethodInfo> {
    c.methods + (if c.parent.Some? then AllMethods(c.parent.value) else [])
  }

  // The answer keeps the order of the methods: class by class from the start upwards, and
  // within a class as it lists them.
  lemma AnswerInOrder(start: Class, q: Query)
    ensures Subsequence(Answer(start, q), AllMethods(start))
  {
    FilterInOrder(start.methods, true, q);
    if start.parent.Some? {
      InheritedInOrder(start.parent.value, q);
    }
    SubsequenceJoins(Filter(start.methods, true, q), start.methods,
                     if q.binding.declaredOnly then [] else Inherited(start.parent, q),
                     if start.parent.Some? then AllMethods(start.parent.value) else []);
  }

  lemma {:induction false} FilterInOrder(ms: seq<MethodInfo>, declared: bool, q: Query)
    ensures Subsequence(Filter(ms, declared, q), ms)
  {
    if ms != [] {
      FilterInOrder(ms[..|ms| - 1], declared, q);
      var a, b := Filter(ms[..|ms| - 1], declared, q), Filter(ms, declared, q);
      assert b != a ==> b[..|b| - 1] == a;
    }
  }

  lemma {:induction false} InheritedInOrder(c: Class, q: Query)
    ensures Subsequence(Inherited(Some(c), q), AllMethods(c))
  {
    FilterInOrder(c.methods, false, q);
    if c.parent.Some? {
      InheritedInOrder(c.parent.value, q);
    }
    SubsequenceJoins(Filter(c.methods, false, q), c.methods, Inherited(c.parent, q),
                     if c.parent.Some? then AllMethods(c.parent.value) else []);
  }

  // q' asks for no less than q.
  predicate AsksMore(q: Query, q': Query) {
    && (q'.name == q.name || q'.name.None?)
    && (q.binding.inst ==> q'.binding.inst) && (q.binding.static_ ==> q'.binding.static_)
    && (q.binding.pub ==> q'.binding.pub) && (q.binding.nonPublic ==> q'.binding.nonPublic)
    && (q.binding.flatten ==> q'.binding.flatten) && (q'.binding.declaredOnly ==> q.binding.declaredOnly)
    && (q.ignoreCase ==> q'.ignoreCase) && (q.allowCtors ==> q'.allowCtors) && (q.hasIList ==> q'.hasIList)
  }

  // Asking for more never loses a method, nor changes the order of those there were.
  lemma AskingMoreKeepsAll(start: Class, q: Query, q': Query)
    requires AsksMore(q, q')
    ensures Subsequence(Answer(start, q), Answer(start, q'))
  {
    FilterGrows(start.methods, true, q, q');
    InheritedGrows(start.parent, q, q');
    SubsequenceJoins(Filter(start.methods, true, q), Filter(start.methods, true, q'),
                     if q.binding.declaredOnly then [] else Inherited(start.parent, q),
                     if q'.binding.declaredOnly then [] else Inherited(start.parent, q'));
  }

  lemma {:induction false} FilterGrows(ms: seq<MethodInfo>, declared: bool, q: Query, q': Query)
    requires AsksMore(q, q')
    ensures Subsequence(Filter(ms, declared, q), Filter(ms, declared, q'))
  {
    if ms != [] {
      var m := ms[|ms| - 1];
      FilterGrows(ms[..|ms| - 1], declared, q, q');
      var a, b := if Matches(m, declared, q) then [m] else [], if Matches(m, declared, q') then [m] else [];
      assert Matches(m, declared, q) ==> Matches(m, declared, q');
      assert Subsequence(a, b);
      SubsequenceJoins(Filter(ms[..|ms| - 1], declared, q), Filter(ms[..|ms| - 1], declared, q'), a, b);
    }
  }

  lemma {:induction false} InheritedGrows(parent: Option<Class>, q: Query, q': Query)
    requires AsksMore(q, q')
    ensures Subsequence(Inherited(parent, q), Inherited(parent, q'))
    decreases parent
  {
    if parent.Some? {
      FilterGrows(parent.value.methods, false, q, q');
      InheritedGrows(parent.value.parent, q, q');
      SubsequenceJoins(Filter(parent.value.methods, false, q), Filter(parent.value.methods, false, q'),
                       Inherited(parent.value.parent, q), Inherited(parent.value.parent, q'));
    }
  }
}
