// What each flag of a query does to its answer, in terms of the bits of the flags
// (il2cpp-tabledefs.h:51-60, il2cpp-mono-api.cpp:158-165).
module QueryFlags {
  import opened Options
  import opened AsciiCompare
  import opened MethodQuery

  function Ask(start: Class, name: Option<Text>, bflags: nat, ignoreCase: bool, allowCtors: bool, hasIList: bool): seq<MethodInfo> {
    Answer(start, Query(name, BindingOf(bflags), ignoreCase, allowCtors, hasIList))
  }

  // The class without the classes above it.
  function Alone(c: Class): Class {
    Class(c.methods, None)
  }

  function Select(ms: seq<MethodInfo>, keep: MethodInfo -> bool): seq<MethodInfo> {
    if ms == [] then []
    else Select(ms[..|ms| - 1], keep) + (if keep(ms[|ms| - 1]) then [ms[|ms| - 1]] else [])
  }

  // What c and the classes above it contribute, class by class upwards.
  function SelectAbove(c: Option<Class>, keep: MethodInfo -> bool): seq<MethodInfo>
    decreases c
  {
    if c.None? then [] else Select(c.value.methods, keep) + SelectAbove(c.value.parent, keep)
  }

  // ----- Kinds of methods -----

  predicate IsPublic(m: MethodInfo) {
    m.flags % 8 == 6
  }

  predicate IsPrivate(m: MethodInfo) {
    m.flags % 8 == 1
  }

  predicate IsAssembly(m: MethodInfo) {
    m.flags % 8 == 3
  }

  predicate HasStaticBit(m: MethodInfo) {
    m.flags / 16 % 2 == 1
  }

  // ".ctor" or ".cctor"
  predicate NamedCtor(m: MethodInfo) {
    m.name == [46, 99, 116, 111, 114] || m.name == [46, 99, 99, 116, 111, 114]
  }

  predicate HasName(m: MethodInfo, name: Text, ignoreCase: bool) {
    if ignoreCase then SameButCase(name, m.name) else name == m.name
  }

  // ----- The whole answer -----

  function InStart(name: Option<Text>, bflags: nat, ignoreCase: bool, allowCtors: bool): MethodInfo -> bool {
    (m: MethodInfo) =>
      && (NamedCtor(m) ==> allowCtors)
      && (if IsPublic(m) then Bit(bflags, 16) else Bit(bflags, 32))
      && (if HasStaticBit(m) then Bit(bflags, 8) else Bit(bflags, 4))
      && (name.Some? ==> HasName(m, name.value, ignoreCase))
  }

  // What a class above the start leaves out.
  function Inheritable(bflags: nat, hasIList: bool): MethodInfo -> bool {
    (m: MethodInfo) => !IsPrivate(m) && (HasStaticBit(m) ==> Bit(bflags, 64)) && (IsAssembly(m) ==> hasIList)
  }

  function Both(a: MethodInfo -> bool, b: MethodInfo -> bool): MethodInfo -> bool {
    (m: MethodInfo) => a(m) && b(m)
  }

  function Except(kind: MethodInfo -> bool): MethodInfo -> bool {
    (m: MethodInfo) => !kind(m)
  }

  lemma MatchIs(m: MethodInfo, declared: bool, name: Option<Text>, bflags: nat, ignoreCase: bool, allowCtors: bool, hasIList: bool)
    ensures Matches(m, declared, Query(name, BindingOf(bflags), ignoreCase, allowCtors, hasIList))
            <==> InStart(name, bflags, ignoreCase, allowCtors)(m) && (declared || Inheritable(bflags, hasIList)(m))
  {
    if name.Some? {
      FoldSame(name.value, m.name);
    }
  }

  lemma {:induction false} FilterIs(ms: seq<MethodInfo>, declared: bool, q: Query, keep: MethodInfo -> bool)
    requires forall m :: keep(m) <==> Matches(m, declared, q)
    ensures Filter(ms, declared, q) == Select(ms, keep)
  {
    if ms != [] {
      FilterIs(ms[..|ms| - 1], declared, q, keep);
    }
  }

  lemma {:induction false} InheritedIs(c: Option<Class>, q: Query, keep: MethodInfo -> bool)
    requires forall m :: keep(m) <==> Matches(m, false, q)
    ensures Inherited(c, q) == SelectAbove(c, keep)
    decreases c
  {
    if c.Some? {
      FilterIs(c.value.methods, false, q, keep);
      InheritedIs(c.value.parent, q, keep);
    }
  }

  // The answer is what the start class and, without DeclaredOnly, the classes above it hold of the
  // kinds asked for; neither FlattenHierarchy nor IList matters for the start class.
  lemma AnswerIs(start: Class, name: Option<Text>, bflags: nat, ignoreCase: bool, allowCtors: bool, hasIList: bool)
    ensures var asked := InStart(name, bflags, ignoreCase, allowCtors);
            && Ask(Alone(start), name, bflags, ignoreCase, allowCtors, hasIList) == Select(start.methods, asked)
            && Ask(start, name, bflags, ignoreCase, allowCtors, hasIList)
               == Select(start.methods, asked)
                  + (if Bit(bflags, 2) then [] else SelectAbove(start.parent, Both(asked, Inheritable(bflags, hasIList))))
  {
    var q, asked := Query(name, BindingOf(bflags), ignoreCase, allowCtors, hasIList), InStart(name, bflags, ignoreCase, allowCtors);
    var above := Both(asked, Inheritable(bflags, hasIList));
    forall m
      ensures asked(m) <==> Matches(m, true, q)
      ensures above(m) <==> Matches(m, false, q)
    {
      MatchIs(m, true, name, bflags, ignoreCase, allowCtors, hasIList);
      MatchIs(m, false, name, bflags, ignoreCase, allowCtors, hasIList);
    }
    FilterIs(start.methods, true, q, asked);
    InheritedIs(start.parent, q, above);
  }

  // ----- All flags -----

  lemma {:induction false} SelectAll(ms: seq<MethodInfo>, keep: MethodInfo -> bool)
    requires forall m :: keep(m)
    ensures Select(ms, keep) == ms
  {
    if ms != [] {
      SelectAll(ms[..|ms| - 1], keep);
      assert ms == ms[..|ms| - 1] + [ms[|ms| - 1]];
    }
  }

  lemma {:induction false} SelectSame(ms: seq<MethodInfo>, a: MethodInfo -> bool, b: MethodInfo -> bool)
    requires forall m :: a(m) <==> b(m)
    ensures Select(ms, a) == Select(ms, b)
  {
    if ms != [] {
      SelectSame(ms[..|ms| - 1], a, b);
    }
  }

  lemma {:induction false} SelectAboveSame(c: Option<Class>, a: MethodInfo -> bool, b: MethodInfo -> bool)
    requires forall m :: a(m) <==> b(m)
    ensures SelectAbove(c, a) == SelectAbove(c, b)
    decreases c
  {
    if c.Some? {
      SelectSame(c.value.methods, a, b);
      SelectAboveSame(c.value.parent, a, b);
    }
  }

  // With Instance, Static, Public and NonPublic, without a name and with constructors, the start
  // class gives all its methods, and each class above all but the private ones, the static ones
  // without FlattenHierarchy and the assembly ones without IList.
  lemma AllFlags(start: Class, bflags: nat, ignoreCase: bool, hasIList: bool)
    requires Bit(bflags, 4) && Bit(bflags, 8) && Bit(bflags, 16) && Bit(bflags, 32)
    ensures Ask(start, None, bflags, ignoreCase, true, hasIList)
         == start.methods
            + (if Bit(bflags, 2) then []
               else SelectAbove(start.parent, (m: MethodInfo) =>
                      m.flags % 8 != 1 && (m.flags / 16 % 2 == 1 ==> Bit(bflags, 64)) && (m.flags % 8 == 3 ==> hasIList)))
  {
    AnswerIs(start, None, bflags, ignoreCase, true, hasIList);
    var asked := InStart(None, bflags, ignoreCase, true);
    SelectAll(start.methods, asked);
    SelectAboveSame(start.parent, Both(asked, Inheritable(bflags, hasIList)), (m: MethodInfo) =>
                    m.flags % 8 != 1 && (m.flags / 16 % 2 == 1 ==> Bit(bflags, 64)) && (m.flags % 8 == 3 ==> hasIList));
  }

  // ----- Each flag alone -----

  lemma {:induction false} SelectTwice(ms: seq<MethodInfo>, a: MethodInfo -> bool, b: MethodInfo -> bool)
    ensures Select(Select(ms, a), b) == Select(ms, Both(a, b))
  {
    if ms != [] {
      SelectTwice(ms[..|ms| - 1], a, b);
      var first, last := Select(ms[..|ms| - 1], a), ms[|ms| - 1];
      if a(last) {
        assert (first + [last])[..|first + [last]| - 1] == first;
      } else {
        assert first + [] == first;
      }
    }
  }

  lemma {:induction false} SelectConcat(a: seq<MethodInfo>, b: seq<MethodInfo>, keep: MethodInfo -> bool)
    ensures Select(a + b, keep) == Select(a, keep) + Select(b, keep)
    decreases |b|
  {
    if b == [] {
      assert a + b == a && Select(a, keep) + [] == Select(a, keep);
    } else {
      SelectConcat(a, b[..|b| - 1], keep);
      assert (a + b)[..|a + b| - 1] == a + b[..|b| - 1];
    }
  }

  lemma {:induction false} SelectAboveTwice(c: Option<Class>, a: MethodInfo -> bool, b: MethodInfo -> bool)
    ensures Select(SelectAbove(c, a), b) == SelectAbove(c, Both(a, b))
    decreases c
  {
    if c.Some? {
      SelectTwice(c.value.methods, a, b);
      SelectAboveTwice(c.value.parent, a, b);
      SelectConcat(Select(c.value.methods, a), SelectAbove(c.value.parent, a), b);
    }
  }

  // The flags agree on the bits that the query looks at, but for `mask`.
  predicate SameBut(bflags: nat, bflags': nat, mask: nat) {
    && (mask != 2 ==> Bit(bflags, 2) == Bit(bflags', 2)) && (mask != 4 ==> Bit(bflags, 4) == Bit(bflags', 4))
    && (mask != 8 ==> Bit(bflags, 8) == Bit(bflags', 8)) && (mask != 16 ==> Bit(bflags, 16) == Bit(bflags', 16))
    && (mask != 32 ==> Bit(bflags, 32) == Bit(bflags', 32)) && (mask != 64 ==> Bit(bflags, 64) == Bit(bflags', 64))
  }

  // The methods that Instance, Static, Public and NonPublic ask for.
  function OfKind(mask: nat): MethodInfo -> bool {
    (m: MethodInfo) =>
      if mask == 4 then m.flags / 16 % 2 == 0 else if mask == 8 then m.flags / 16 % 2 == 1
      else if mask == 16 then m.flags % 8 == 6 else m.flags % 8 != 6
  }

  // Two queries of which one leaves out a kind of methods, wherever they stand.
  lemma LeavesOut(start: Class, asked: MethodInfo -> bool, above: MethodInfo -> bool, less: MethodInfo -> bool,
                  lessAbove: MethodInfo -> bool, drop: MethodInfo -> bool)
    requires forall m :: less(m) <==> asked(m) && !drop(m)
    requires forall m :: lessAbove(m) <==> above(m) && !drop(m)
    ensures Select(start.methods, less) == Select(Select(start.methods, asked), Except(drop))
    ensures SelectAbove(start.parent, lessAbove) == Select(SelectAbove(start.parent, above), Except(drop))
    ensures Select(start.methods, less) + SelectAbove(start.parent, lessAbove)
         == Select(Select(start.methods, asked) + SelectAbove(start.parent, above), Except(drop))
  {
    SelectTwice(start.methods, asked, Except(drop));
    SelectSame(start.methods, less, Both(asked, Except(drop)));
    SelectAboveTwice(start.parent, above, Except(drop));
    SelectAboveSame(start.parent, lessAbove, Both(above, Except(drop)));
    SelectConcat(Select(start.methods, asked), SelectAbove(start.parent, above), Except(drop));
  }

  // Without one of the flags Instance, Static, Public and NonPublic exactly the methods of that
  // kind are missing.
  lemma KindUnset(start: Class, name: Option<Text>, bflags: nat, bflags': nat, mask: nat, ignoreCase: bool, allowCtors: bool,
                  hasIList: bool)
    requires mask in {4, 8, 16, 32} && SameBut(bflags, bflags', mask) && Bit(bflags', mask) && !Bit(bflags, mask)
    ensures Ask(start, name, bflags, ignoreCase, allowCtors, hasIList)
         == Select(Ask(start, name, bflags', ignoreCase, allowCtors, hasIList), Except(OfKind(mask)))
  {
    AnswerIs(start, name, bflags, ignoreCase, allowCtors, hasIList);
    AnswerIs(start, name, bflags', ignoreCase, allowCtors, hasIList);
    var less, asked := InStart(name, bflags, ignoreCase, allowCtors), InStart(name, bflags', ignoreCase, allowCtors);
    LeavesOut(start, asked, Both(asked, Inheritable(bflags', hasIList)), less, Both(less, Inheritable(bflags, hasIList)),
              OfKind(mask));
  }

  // Without leave for constructors exactly these are missing.
  lemma CtorsUnset(start: Class, name: Option<Text>, bflags: nat, ignoreCase: bool, hasIList: bool)
    ensures Ask(start, name, bflags, ignoreCase, false, hasIList)
         == Select(Ask(start, name, bflags, ignoreCase, true, hasIList), (m: MethodInfo) => !NamedCtor(m))
  {
    AnswerIs(start, name, bflags, ignoreCase, false, hasIList);
    AnswerIs(start, name, bflags, ignoreCase, true, hasIList);
    var less, asked := InStart(name, bflags, ignoreCase, false), InStart(name, bflags, ignoreCase, true);
    var drop := (m: MethodInfo) => NamedCtor(m);
    LeavesOut(start, asked, Both(asked, Inheritable(bflags, hasIList)), less, Both(less, Inheritable(bflags, hasIList)), drop);
    SelectSame(Ask(start, name, bflags, ignoreCase, true, hasIList), Except(drop), (m: MethodInfo) => !NamedCtor(m));
  }

  // With a name exactly the methods of that name are left, or those of it but for the case of
  // letters.
  lemma NameGiven(start: Class, name: Text, bflags: nat, ignoreCase: bool, allowCtors: bool, hasIList: bool)
    ensures Ask(start, Some(name), bflags, ignoreCase, allowCtors, hasIList)
         == Select(Ask(start, None, bflags, ignoreCase, allowCtors, hasIList),
                   (m: MethodInfo) => if ignoreCase then SameButCase(name, m.name) else name == m.name)
  {
    AnswerIs(start, Some(name), bflags, ignoreCase, allowCtors, hasIList);
    AnswerIs(start, None, bflags, ignoreCase, allowCtors, hasIList);
    var less, asked := InStart(Some(name), bflags, ignoreCase, allowCtors), InStart(None, bflags, ignoreCase, allowCtors);
    var drop := (m: MethodInfo) => !HasName(m, name, ignoreCase);
    LeavesOut(start, asked, Both(asked, Inheritable(bflags, hasIList)), less, Both(less, Inheritable(bflags, hasIList)), drop);
    SelectSame(Ask(start, None, bflags, ignoreCase, allowCtors, hasIList), Except(drop),
               (m: MethodInfo) => if ignoreCase then SameButCase(name, m.name) else name == m.name);
  }

  // With DeclaredOnly exactly the part of the start class is left.
  lemma DeclaredOnlySet(start: Class, name: Option<Text>, bflags: nat, bflags': nat, ignoreCase: bool, allowCtors: bool, hasIList: bool)
    requires SameBut(bflags, bflags', 2) && Bit(bflags, 2)
    ensures Ask(start, name, bflags, ignoreCase, allowCtors, hasIList)
         == Ask(Alone(start), name, bflags', ignoreCase, allowCtors, hasIList)
  {
    AnswerIs(start, name, bflags, ignoreCase, allowCtors, hasIList);
    AnswerIs(start, name, bflags', ignoreCase, allowCtors, hasIList);
    SelectSame(start.methods, InStart(name, bflags, ignoreCase, allowCtors), InStart(name, bflags', ignoreCase, allowCtors));
  }

  // FlattenHierarchy and IList change nothing in the part of the start class; without them exactly
  // the static, and the assembly, methods of the classes above are missing.
  lemma FlattenUnset(start: Class, name: Option<Text>, bflags: nat, bflags': nat, ignoreCase: bool, allowCtors: bool, hasIList: bool)
    requires SameBut(bflags, bflags', 64) && Bit(bflags', 64) && !Bit(bflags, 64)
    ensures var own, all := Ask(Alone(start), name, bflags', ignoreCase, allowCtors, hasIList),
                            Ask(start, name, bflags', ignoreCase, allowCtors, hasIList);
            && own == Ask(Alone(start), name, bflags, ignoreCase, allowCtors, hasIList) && own <= all
            && Ask(start, name, bflags, ignoreCase, allowCtors, hasIList)
               == own + Select(all[|own|..], (m: MethodInfo) => m.flags / 16 % 2 != 1)
  {
    AnswerIs(start, name, bflags, ignoreCase, allowCtors, hasIList);
    AnswerIs(start, name, bflags', ignoreCase, allowCtors, hasIList);
    var less, asked := InStart(name, bflags, ignoreCase, allowCtors), InStart(name, bflags', ignoreCase, allowCtors);
    SelectSame(start.methods, less, asked);
    AboveLeavesOut(start.parent, Both(asked, Inheritable(bflags', hasIList)), Both(less, Inheritable(bflags, hasIList)),
                   (m: MethodInfo) => m.flags / 16 % 2 != 1);
  }

  lemma IListUnknown(start: Class, name: Option<Text>, bflags: nat, ignoreCase: bool, allowCtors: bool)
    ensures var own, all := Ask(Alone(start), name, bflags, ignoreCase, allowCtors, true),
                            Ask(start, name, bflags, ignoreCase, allowCtors, true);
            && own == Ask(Alone(start), name, bflags, ignoreCase, allowCtors, false) && own <= all
            && Ask(start, name, bflags, ignoreCase, allowCtors, false)
               == own + Select(all[|own|..], (m: MethodInfo) => m.flags % 8 != 3)
  {
    AnswerIs(start, name, bflags, ignoreCase, allowCtors, false);
    AnswerIs(start, name, bflags, ignoreCase, allowCtors, true);
    var asked := InStart(name, bflags, ignoreCase, allowCtors);
    AboveLeavesOut(start.parent, Both(asked, Inheritable(bflags, true)), Both(asked, Inheritable(bflags, false)),
                   (m: MethodInfo) => m.flags % 8 != 3);
  }

  lemma AboveLeavesOut(c: Option<Class>, above: MethodInfo -> bool, less: MethodInfo -> bool, keep: MethodInfo -> bool)
    requires forall m :: less(m) <==> above(m) && keep(m)
    ensures SelectAbove(c, less) == Select(SelectAbove(c, above), keep)
  {
    SelectAboveTwice(c, above, keep);
    SelectAboveSame(c, less, Both(above, keep));
  }
}
