/**
 The comparison of the class definitions of two dex files (dexlayout/dex_verify.cc).

 Annotations, class data and static values are compared by a predicate that is a parameter.
 */
module ClassDefsVerify {
  import opened Wrappers

  datatype ClassDef<D> = ClassDef(typeIdx: nat, accessFlags: nat, superclass: Option<nat>,
                                  interfaces: Option<seq<nat>>, sourceFile: Option<string>, parts: D)

  /** A missing superclass counts as type 0 and a missing source file as the empty string. */
  predicate SameDef<D>(a: ClassDef<D>, b: ClassDef<D>, sameParts: (D, D) -> bool) {
    && a.typeIdx == b.typeIdx && a.accessFlags == b.accessFlags
    && Or(a.superclass, 0) == Or(b.superclass, 0) && a.interfaces == b.interfaces
    && Or(a.sourceFile, "") == Or(b.sourceFile, "") && sameParts(a.parts, b.parts)
  }

  function Or<T>(x: Option<T>, otherwise: T): T {
    if x.Some? then x.value else otherwise
  }

  method VerifyTypeList(a: Option<seq<nat>>, b: Option<seq<nat>>) returns (ok: bool)
    ensures ok <==> a == b
  {
    if a.None? || b.None? {
      return a == b;
    }
    if |a.value| != |b.value| {
      return false;
    }
    for i := 0 to |a.value|
      invariant a.value[..i] == b.value[..i]
    {
      if a.value[i] != b.value[i] {
        return false;
      }
      assert a.value[..i + 1] == a.value[..i] + [a.value[i]];
      assert b.value[..i + 1] == b.value[..i] + [b.value[i]];
    }
    assert a.value[..|a.value|] == a.value && b.value[..|b.value|] == b.value;
    return true;
  }

  method VerifyClassDef<D>(a: ClassDef<D>, b: ClassDef<D>, sameParts: (D, D) -> bool) returns (ok: bool)
    ensures ok <==> SameDef(a, b, sameParts)
  {
    if a.typeIdx != b.typeIdx || a.accessFlags != b.accessFlags || Or(a.superclass, 0) != Or(b.superclass, 0) {
      return false;
    }
    var interfaces := VerifyTypeList(a.interfaces, b.interfaces);
    if !interfaces || Or(a.sourceFile, "") != Or(b.sourceFile, "") {
      return false;
    }
    return sameParts(a.parts, b.parts);
  }

  // --- Sets ordered by type index -------------------------------------------------------------------

  ghost predicate Ordered<D>(s: seq<ClassDef<D>>) {
    forall i, j :: 0 <= i < j < |s| ==> s[i].typeIdx < s[j].typeIdx
  }

  ghost function Indices<D>(s: seq<ClassDef<D>>): set<nat> {
    set i | 0 <= i < |s| :: s[i].typeIdx
  }

  /** Insertion does nothing when the index is there. */
  function Insert<D>(s: seq<ClassDef<D>>, d: ClassDef<D>): seq<ClassDef<D>> {
    if s == [] || d.typeIdx < s[0].typeIdx then [d] + s
    else if d.typeIdx == s[0].typeIdx then s
    else [s[0]] + Insert(s[1..], d)
  }

  /** `r` has the elements of `s`, and `d`. */
  ghost predicate Added<D>(s: seq<ClassDef<D>>, d: ClassDef<D>, r: seq<ClassDef<D>>) {
    && d in r && (forall i :: 0 <= i < |s| ==> s[i] in r)
    && (forall i :: 0 <= i < |r| ==> r[i] in s || r[i] == d)
  }

  lemma {:induction false} InsertKeeps<D>(s: seq<ClassDef<D>>, d: ClassDef<D>)
    requires Ordered(s)
    ensures d.typeIdx in Indices(s) ==> Insert(s, d) == s
    ensures d.typeIdx !in Indices(s) ==> |Insert(s, d)| == |s| + 1 && Added(s, d, Insert(s, d)) && Ordered(Insert(s, d))
    decreases |s|
  {
    hide *;
    InsertCases(s, d);
    if s != [] && d.typeIdx > s[0].typeIdx {
      var tail := s[1..];
      IndicesCons(s);
      OrderedTail(s);
      InsertKeeps(tail, d);
      assert s == [s[0]] + tail;
      if d.typeIdx !in Indices(s) {
        AddedBehind(s[0], tail, d, Insert(tail, d));
      }
    } else if s != [] && d.typeIdx == s[0].typeIdx {
      FirstIndex(s);
    } else {
      AddedFirst(s, d);
    }
  }

  lemma InsertCases<D>(s: seq<ClassDef<D>>, d: ClassDef<D>)
    ensures s == [] || d.typeIdx < s[0].typeIdx ==> Insert(s, d) == [d] + s
    ensures s != [] && d.typeIdx == s[0].typeIdx ==> Insert(s, d) == s
    ensures s != [] && d.typeIdx > s[0].typeIdx ==> Insert(s, d) == [s[0]] + Insert(s[1..], d)
  {
  }

  lemma OrderedTail<D>(s: seq<ClassDef<D>>)
    requires Ordered(s) && s != []
    ensures Ordered(s[1..])
  {
  }

  lemma AddedFirst<D>(s: seq<ClassDef<D>>, d: ClassDef<D>)
    requires Ordered(s) && (s == [] || d.typeIdx < s[0].typeIdx)
    ensures d.typeIdx !in Indices(s) && Added(s, d, [d] + s) && Ordered([d] + s)
  {
    assert forall j :: 0 <= j < |s| ==> d.typeIdx < s[j].typeIdx;
    OrderedCons(d, s);
  }

  lemma AddedBehind<D>(first: ClassDef<D>, tail: seq<ClassDef<D>>, d: ClassDef<D>, r: seq<ClassDef<D>>)
    requires Ordered([first] + tail) && first.typeIdx < d.typeIdx && Ordered(r) && Added(tail, d, r)
    ensures Added([first] + tail, d, [first] + r) && Ordered([first] + r)
  {
    AddedCons(first, tail, d, r);
    var s := [first] + tail;
    forall j | 0 <= j < |r|
      ensures first.typeIdx < r[j].typeIdx
    {
      if r[j] in tail {
        var i :| 0 <= i < |tail| && tail[i] == r[j];
        assert s[0].typeIdx < s[i + 1].typeIdx;
      }
    }
    hide Added;
    OrderedCons(first, r);
  }

  lemma AddedCons<D>(first: ClassDef<D>, tail: seq<ClassDef<D>>, d: ClassDef<D>, r: seq<ClassDef<D>>)
    requires Added(tail, d, r)
    ensures Added([first] + tail, d, [first] + r)
  {
  }

  lemma OrderedCons<D>(first: ClassDef<D>, r: seq<ClassDef<D>>)
    requires Ordered(r) && forall j :: 0 <= j < |r| ==> first.typeIdx < r[j].typeIdx
    ensures Ordered([first] + r)
  {
  }

  lemma IndicesCons<D>(s: seq<ClassDef<D>>)
    requires s != []
    ensures Indices(s) == {s[0].typeIdx} + Indices(s[1..])
  {
    forall t | t in Indices(s)
      ensures t in {s[0].typeIdx} + Indices(s[1..])
    {
      var i :| 0 <= i < |s| && s[i].typeIdx == t;
      if i > 0 {
        assert s[1..][i - 1].typeIdx == t;
      }
    }
    forall t | t in Indices(s[1..])
      ensures t in Indices(s)
    {
      var i :| 0 <= i < |s[1..]| && s[1..][i].typeIdx == t;
      assert s[i + 1].typeIdx == t;
    }
  }

  /** The set that the first `n` definitions make. */
  ghost function SetOf<D>(defs: seq<ClassDef<D>>, n: nat): seq<ClassDef<D>>
    requires n <= |defs|
  {
    if n == 0 then [] else Insert(SetOf(defs, n - 1), defs[n - 1])
  }

  ghost predicate Unique<D>(defs: seq<ClassDef<D>>) {
    forall i, j :: 0 <= i < j < |defs| ==> defs[i].typeIdx != defs[j].typeIdx
  }

  ghost predicate SameMembers<D>(s: seq<ClassDef<D>>, t: seq<ClassDef<D>>) {
    (forall i :: 0 <= i < |s| ==> s[i] in t) && (forall i :: 0 <= i < |t| ==> t[i] in s)
  }

  /** With unique indices, the set has all the definitions. */
  lemma {:induction false} SetOfUnique<D>(defs: seq<ClassDef<D>>, n: nat)
    requires Unique(defs) && n <= |defs|
    ensures Ordered(SetOf(defs, n)) && |SetOf(defs, n)| == n
    ensures SameMembers(SetOf(defs, n), defs[..n])
    decreases n
  {
    hide *;
    if n == 0 {
      SetOfNone(defs);
    } else {
      SetOfUnique(defs, n - 1);
      var s, d, front := SetOf(defs, n - 1), defs[n - 1], defs[..n - 1];
      NewIndex(s, defs, n - 1);
      InsertKeeps(s, d);
      SetOfStep(defs, n);
      assert defs[..n] == front + [d];
      AddedMembers(s, front, d, SetOf(defs, n));
    }
  }

  lemma SetOfNone<D>(defs: seq<ClassDef<D>>)
    ensures SetOf(defs, 0) == [] && Ordered(SetOf(defs, 0)) && SameMembers(SetOf(defs, 0), defs[..0])
  {
  }

  lemma NewIndex<D>(s: seq<ClassDef<D>>, defs: seq<ClassDef<D>>, n: nat)
    requires Unique(defs) && n < |defs| && SameMembers(s, defs[..n])
    ensures defs[n].typeIdx !in Indices(s)
  {
    var front := defs[..n];
    forall i | 0 <= i < |s|
      ensures s[i].typeIdx != defs[n].typeIdx
    {
      var j :| 0 <= j < |front| && front[j] == s[i];
      assert defs[j].typeIdx != defs[n].typeIdx;
    }
  }

  lemma AddedMembers<D>(s: seq<ClassDef<D>>, front: seq<ClassDef<D>>, d: ClassDef<D>, r: seq<ClassDef<D>>)
    requires SameMembers(s, front) && Added(s, d, r)
    ensures SameMembers(r, front + [d])
  {
    var all := front + [d];
    assert all[|front|] == d;
    forall i | 0 <= i < |r|
      ensures r[i] in all
    {
      if r[i] != d {
        var j :| 0 <= j < |s| && s[j] == r[i];
        var k :| 0 <= k < |front| && front[k] == s[j];
        assert all[k] == r[i];
      }
    }
    forall i | 0 <= i < |all|
      ensures all[i] in r
    {
      if i < |front| {
        var j :| 0 <= j < |s| && s[j] == front[i];
        assert s[j] in r;
      }
    }
  }

  lemma SetOfStep<D>(defs: seq<ClassDef<D>>, n: nat)
    requires 0 < n <= |defs|
    ensures SetOf(defs, n) == Insert(SetOf(defs, n - 1), defs[n - 1])
  {
  }

  // --- The comparison -------------------------------------------------------------------------------

  /** The two sets are compared from the front until one of them ends. */
  ghost predicate Accepts<D>(orig: seq<ClassDef<D>>, output: seq<ClassDef<D>>, sameParts: (D, D) -> bool) {
    |orig| == |output| && PairsMatch(SetOf(orig, |orig|), SetOf(output, |output|), sameParts)
  }

  ghost predicate PairsMatch<D>(a: seq<ClassDef<D>>, b: seq<ClassDef<D>>, sameParts: (D, D) -> bool) {
    forall i :: 0 <= i < |a| && i < |b| ==> SameDef(a[i], b[i], sameParts)
  }

  method InsertDef<D>(s: seq<ClassDef<D>>, d: ClassDef<D>) returns (s': seq<ClassDef<D>>)
    ensures s' == Insert(s, d)
  {
    var k := 0;
    ghost var rest := s;
    assert s[..0] + Insert(s, d) == Insert(s, d);
    while k < |s| && s[k].typeIdx < d.typeIdx
      invariant 0 <= k <= |s| && rest == s[k..]
      invariant s[..k] + Insert(rest, d) == Insert(s, d)
    {
      hide Insert;
      InsertCases(rest, d);
      assert s[..k] + ([s[k]] + Insert(rest[1..], d)) == s[..k + 1] + Insert(rest[1..], d);
      rest := rest[1..];
      k := k + 1;
    }
    InsertCases(rest, d);
    if k < |s| && s[k].typeIdx == d.typeIdx {
      assert s[..k] + s[k..] == s;
      s' := s;
    } else {
      assert s[..k] + ([d] + s[k..]) == s[..k] + [d] + s[k..];
      s' := s[..k] + [d] + s[k..];
    }
  }

  method VerifyClassDefs<D>(orig: seq<ClassDef<D>>, output: seq<ClassDef<D>>, sameParts: (D, D) -> bool)
    returns (ok: bool)
    ensures ok <==> Accepts(orig, output, sameParts)
  {
    hide Insert, SameDef;
    var i, origSet, outputSet := 0, [], [];
    while i < |orig| && i < |output|
      invariant 0 <= i <= |orig| && i <= |output|
      invariant origSet == SetOf(orig, i) && outputSet == SetOf(output, i)
    {
      origSet := InsertDef(origSet, orig[i]);
      outputSet := InsertDef(outputSet, output[i]);
      i := i + 1;
    }
    if i != |orig| || i != |output| {
      return false;
    }
    var k := 0;
    while k < |origSet| && k < |outputSet|
      invariant 0 <= k
      invariant forall j :: 0 <= j < k && j < |origSet| && j < |outputSet| ==> SameDef(origSet[j], outputSet[j], sameParts)
    {
      var same := VerifyClassDef(origSet[k], outputSet[k], sameParts);
      if !same {
        return false;
      }
      k := k + 1;
    }
    return true;
  }

  // --- What it decides ------------------------------------------------------------------------------

  /** The same classes, and each definition the same as its namesake's. */
  ghost predicate SameClasses<D>(orig: seq<ClassDef<D>>, output: seq<ClassDef<D>>, sameParts: (D, D) -> bool) {
    && Indices(orig) == Indices(output)
    && forall i, j :: 0 <= i < |orig| && 0 <= j < |output| && orig[i].typeIdx == output[j].typeIdx ==>
         SameDef(orig[i], output[j], sameParts)
  }

  lemma IndicesOfMembers<D>(s: seq<ClassDef<D>>, t: seq<ClassDef<D>>)
    requires SameMembers(s, t)
    ensures Indices(s) == Indices(t)
  {
    forall k | k in Indices(s)
      ensures k in Indices(t)
    {
      var i :| 0 <= i < |s| && s[i].typeIdx == k;
      assert s[i] in t;
      var j :| 0 <= j < |t| && t[j] == s[i];
    }
    forall k | k in Indices(t)
      ensures k in Indices(s)
    {
      var i :| 0 <= i < |t| && t[i].typeIdx == k;
      assert t[i] in s;
      var j :| 0 <= j < |s| && s[j] == t[i];
    }
  }

  /** Two ordered sets with the same indices have them at the same places. */
  lemma {:induction false} OrderedSameIndices<D>(a: seq<ClassDef<D>>, b: seq<ClassDef<D>>)
    requires Ordered(a) && Ordered(b) && Indices(a) == Indices(b)
    ensures |a| == |b| && forall i :: 0 <= i < |a| ==> a[i].typeIdx == b[i].typeIdx
    decreases |a|
  {
    if a == [] {
      assert Indices(a) == {};
      FirstIndex(b);
    } else {
      FirstIndex(a);
      FirstIndex(b);
      assert a[0].typeIdx in Indices(b);
      var j :| 0 <= j < |b| && b[j].typeIdx == a[0].typeIdx;
      assert b[0].typeIdx in Indices(a);
      var k :| 0 <= k < |a| && a[k].typeIdx == b[0].typeIdx;
      TailIndices(a);
      TailIndices(b);
      OrderedSameIndices(a[1..], b[1..]);
    }
  }

  lemma FirstIndex<D>(s: seq<ClassDef<D>>)
    ensures s == [] || s[0].typeIdx in Indices(s)
  {
  }

  lemma TailIndices<D>(s: seq<ClassDef<D>>)
    requires Ordered(s) && s != []
    ensures Ordered(s[1..]) && Indices(s[1..]) == Indices(s) - {s[0].typeIdx}
  {
    IndicesCons(s);
    forall i | 0 <= i < |s[1..]|
      ensures s[1..][i].typeIdx != s[0].typeIdx
    {
      assert s[1..][i] == s[i + 1];
    }
  }

  /** For files whose class type indices are unique, this is what is decided. */
  lemma AcceptsSameClasses<D>(orig: seq<ClassDef<D>>, output: seq<ClassDef<D>>, sameParts: (D, D) -> bool)
    requires Unique(orig) && Unique(output)
    ensures Accepts(orig, output, sameParts) <==> SameClasses(orig, output, sameParts)
  {
    hide SetOf, Indices, SameDef, SameClasses, SameMembers;
    var a, b := SetOf(orig, |orig|), SetOf(output, |output|);
    SetOfUnique(orig, |orig|);
    SetOfUnique(output, |output|);
    assert orig[..|orig|] == orig && output[..|output|] == output;
    SameClassesOfSets(orig, output, a, b, sameParts);
    if SameClasses(a, b, sameParts) {
      SameClassesPairs(a, b, sameParts);
    }
    if Accepts(orig, output, sameParts) {
      PairsSameClasses(a, b, sameParts);
    }
  }

  lemma SameClassesOfSets<D>(orig: seq<ClassDef<D>>, output: seq<ClassDef<D>>, a: seq<ClassDef<D>>, b: seq<ClassDef<D>>,
                             sameParts: (D, D) -> bool)
    requires SameMembers(a, orig) && SameMembers(b, output)
    ensures SameClasses(orig, output, sameParts) <==> SameClasses(a, b, sameParts)
  {
    hide SameDef, Indices;
    IndicesOfMembers(a, orig);
    IndicesOfMembers(b, output);
    if SameClasses(a, b, sameParts) {
      SameClassesMembers(orig, output, a, b, sameParts);
    }
    if SameClasses(orig, output, sameParts) {
      SameClassesMembers(a, b, orig, output, sameParts);
    }
  }

  lemma SameClassesMembers<D>(s: seq<ClassDef<D>>, t: seq<ClassDef<D>>, s': seq<ClassDef<D>>, t': seq<ClassDef<D>>,
                              sameParts: (D, D) -> bool)
    requires (forall i :: 0 <= i < |s| ==> s[i] in s') && (forall i :: 0 <= i < |t| ==> t[i] in t')
    requires Indices(s) == Indices(t) && SameClasses(s', t', sameParts)
    ensures SameClasses(s, t, sameParts)
  {
    hide SameDef, Indices;
    forall i, j | 0 <= i < |s| && 0 <= j < |t| && s[i].typeIdx == t[j].typeIdx
      ensures SameDef(s[i], t[j], sameParts)
    {
      var i' :| 0 <= i' < |s'| && s'[i'] == s[i];
      var j' :| 0 <= j' < |t'| && t'[j'] == t[j];
    }
  }

  lemma SameClassesPairs<D>(a: seq<ClassDef<D>>, b: seq<ClassDef<D>>, sameParts: (D, D) -> bool)
    requires Ordered(a) && Ordered(b) && SameClasses(a, b, sameParts)
    ensures |a| == |b| && PairsMatch(a, b, sameParts)
  {
    hide SameDef, Indices;
    OrderedSameIndices(a, b);
  }

  lemma PairsSameClasses<D>(a: seq<ClassDef<D>>, b: seq<ClassDef<D>>, sameParts: (D, D) -> bool)
    requires Ordered(a) && Ordered(b) && |a| == |b| && PairsMatch(a, b, sameParts)
    ensures SameClasses(a, b, sameParts)
  {
    assert forall i :: 0 <= i < |a| ==> a[i].typeIdx == b[i].typeIdx;
    assert Indices(a) == Indices(b);
    forall i, j | 0 <= i < |a| && 0 <= j < |b| && a[i].typeIdx == b[j].typeIdx
      ensures SameDef(a[i], b[j], sameParts)
    {
      assert i == j;
    }
  }

  // --- Reordering -----------------------------------------------------------------------------------

  lemma {:induction false} UniqueByCount<D>(defs: seq<ClassDef<D>>)
    ensures |Indices(defs)| <= |defs|
    ensures Unique(defs) <==> |Indices(defs)| == |defs|
    decreases |defs|
  {
    if defs != [] {
      IndicesCons(defs);
      UniqueByCount(defs[1..]);
      UniqueCons(defs);
    }
  }

  lemma UniqueCons<D>(defs: seq<ClassDef<D>>)
    requires defs != []
    ensures Unique(defs) <==> defs[0].typeIdx !in Indices(defs[1..]) && Unique(defs[1..])
  {
    var tail := defs[1..];
    if Unique(defs) {
      forall i | 0 <= i < |tail|
        ensures tail[i].typeIdx != defs[0].typeIdx
      {
        assert tail[i] == defs[i + 1];
      }
    } else {
      var i, j :| 0 <= i < j < |defs| && defs[i].typeIdx == defs[j].typeIdx;
      assert tail[j - 1].typeIdx == defs[j].typeIdx;
      if i > 0 {
        assert tail[i - 1].typeIdx == defs[i].typeIdx;
      }
    }
  }

  /** Reordering either list does not change the verdict. */
  lemma ReorderKeepsVerdict<D>(orig: seq<ClassDef<D>>, orig': seq<ClassDef<D>>, output: seq<ClassDef<D>>,
                               output': seq<ClassDef<D>>, sameParts: (D, D) -> bool)
    requires Unique(orig) && Unique(output)
    requires multiset(orig) == multiset(orig') && multiset(output) == multiset(output')
    ensures Accepts(orig, output, sameParts) <==> Accepts(orig', output', sameParts)
  {
    hide *;
    UniqueReordered(orig, orig');
    UniqueReordered(output, output');
    AcceptsSameClasses(orig, output, sameParts);
    AcceptsSameClasses(orig', output', sameParts);
    SameClassesOfSets(orig, output, orig', output', sameParts);
  }

  lemma UniqueReordered<D>(defs: seq<ClassDef<D>>, defs': seq<ClassDef<D>>)
    requires Unique(defs) && multiset(defs) == multiset(defs')
    ensures Unique(defs') && SameMembers(defs', defs)
  {
    hide Indices, Unique;
    forall i | 0 <= i < |defs|
      ensures defs[i] in defs'
    {
      assert defs[i] in multiset(defs');
    }
    forall i | 0 <= i < |defs'|
      ensures defs'[i] in defs
    {
      assert defs'[i] in multiset(defs);
    }
    IndicesOfMembers(defs, defs');
    assert |multiset(defs)| == |defs| && |multiset(defs')| == |defs'|;
    UniqueByCount(defs);
    UniqueByCount(defs');
  }

  /** Without unique indices the shorter set ends the comparison: a class too many is not noticed. */
  lemma DuplicateHidesClass(a: ClassDef<int>, b: ClassDef<int>)
    requires a.typeIdx < b.typeIdx
    ensures Accepts([a, a], [a, b], (x: int, y: int) => x == y)
    ensures !SameClasses([a, a], [a, b], (x: int, y: int) => x == y)
  {
    var orig, output := [a, a], [a, b];
    assert SetOf(orig, 1) == [a] && SetOf(output, 1) == [a];
    assert [a][1..] == [];
    assert Insert([], b) == [b] && Insert([a], b) == [a] + Insert([], b);
    assert SetOf(orig, 2) == [a] && SetOf(output, 2) == [a, b];
    assert output[1].typeIdx in Indices(output);
    assert b.typeIdx !in Indices(orig);
  }

  // --- Duplicate indices ------------------------------------------------------------------------------

  /** Definition `i` is the first with its index. */
  ghost predicate IsFirst<D>(defs: seq<ClassDef<D>>, i: int) {
    0 <= i < |defs| && forall j :: 0 <= j < i ==> defs[j].typeIdx != defs[i].typeIdx
  }

  /** The same indices, and of each the first definitions agree. */
  ghost predicate SameFirst<D>(orig: seq<ClassDef<D>>, output: seq<ClassDef<D>>, sameParts: (D, D) -> bool) {
    && Indices(orig) == Indices(output)
    && forall i, j :: IsFirst(orig, i) && IsFirst(output, j) && orig[i].typeIdx == output[j].typeIdx ==>
         SameDef(orig[i], output[j], sameParts)
  }

  /** The set holds first definitions only, and one of each index. */
  ghost predicate Firsts<D>(s: seq<ClassDef<D>>, defs: seq<ClassDef<D>>, n: nat)
    requires n <= |defs|
  {
    && Ordered(s) && Indices(s) == Indices(defs[..n])
    && forall k :: 0 <= k < |s| ==> exists i :: IsFirst(defs, i) && defs[i] == s[k]
  }

  lemma {:induction false} SetOfFirsts<D>(defs: seq<ClassDef<D>>, n: nat)
    requires n <= |defs|
    ensures Firsts(SetOf(defs, n), defs, n)
    decreases n
  {
    hide SetOf, Insert, Ordered, Indices, IsFirst;
    if n == 0 {
      SetOfNone(defs);
      NoIndices(defs);
    } else {
      SetOfFirsts(defs, n - 1);
      SetOfStep(defs, n);
      IndicesAppend(defs, n - 1);
      var s, d := SetOf(defs, n - 1), defs[n - 1];
      InsertKeeps(s, d);
      if d.typeIdx !in Indices(s) {
        NewIsFirst(defs, n - 1);
        AddedFirsts(s, d, SetOf(defs, n), defs, n - 1);
      } else {
        KnownFirsts(s, defs, n - 1);
      }
    }
  }

  lemma KnownFirsts<D>(s: seq<ClassDef<D>>, defs: seq<ClassDef<D>>, n: nat)
    requires n < |defs| && Firsts(s, defs, n) && defs[n].typeIdx in Indices(s)
    ensures Firsts(s, defs, n + 1)
  {
    hide Ordered;
    IndicesAppend(defs, n);
    assert Indices(defs[..n + 1]) == Indices(s);
  }

  lemma NoIndices<D>(defs: seq<ClassDef<D>>)
    ensures Indices(defs[..0]) == {} && Indices<D>([]) == {}
  {
  }

  lemma IndicesAppend<D>(defs: seq<ClassDef<D>>, n: nat)
    requires n < |defs|
    ensures Indices(defs[..n + 1]) == Indices(defs[..n]) + {defs[n].typeIdx}
  {
    var more := defs[..n + 1];
    forall t | t in Indices(more)
      ensures t in Indices(defs[..n]) + {defs[n].typeIdx}
    {
      var i :| 0 <= i < |more| && more[i].typeIdx == t;
      if i < n {
        assert defs[..n][i].typeIdx == t;
      }
    }
    forall t | t in Indices(defs[..n])
      ensures t in Indices(more)
    {
      var i :| 0 <= i < n && defs[..n][i].typeIdx == t;
      assert more[i].typeIdx == t;
    }
    assert more[n].typeIdx in Indices(more);
  }

  lemma NewIsFirst<D>(defs: seq<ClassDef<D>>, n: nat)
    requires n < |defs| && defs[n].typeIdx !in Indices(defs[..n])
    ensures IsFirst(defs, n)
  {
    forall j | 0 <= j < n
      ensures defs[j].typeIdx != defs[n].typeIdx
    {
      assert defs[..n][j].typeIdx in Indices(defs[..n]);
    }
  }

  lemma AddedFirsts<D>(s: seq<ClassDef<D>>, d: ClassDef<D>, r: seq<ClassDef<D>>, defs: seq<ClassDef<D>>, n: nat)
    requires n < |defs| && Firsts(s, defs, n) && Added(s, d, r) && Ordered(r) && d == defs[n] && IsFirst(defs, n)
    ensures Firsts(r, defs, n + 1)
  {
    hide Ordered;
    IndicesAppend(defs, n);
    assert Indices(r) == Indices(s) + {d.typeIdx} by {
      IndicesAdded(s, d, r);
    }
    forall k | 0 <= k < |r|
      ensures exists i :: IsFirst(defs, i) && defs[i] == r[k]
    {
      if r[k] in s {
        var j :| 0 <= j < |s| && s[j] == r[k];
      } else {
        assert IsFirst(defs, n) && defs[n] == r[k];
      }
    }
  }

  lemma IndicesAdded<D>(s: seq<ClassDef<D>>, d: ClassDef<D>, r: seq<ClassDef<D>>)
    requires Added(s, d, r)
    ensures Indices(r) == Indices(s) + {d.typeIdx}
  {
    forall t | t in Indices(r)
      ensures t in Indices(s) + {d.typeIdx}
    {
      var i :| 0 <= i < |r| && r[i].typeIdx == t;
      if r[i] in s {
        var j :| 0 <= j < |s| && s[j] == r[i];
      }
    }
    forall t | t in Indices(s)
      ensures t in Indices(r)
    {
      var i :| 0 <= i < |s| && s[i].typeIdx == t;
      assert s[i] in r;
      var j :| 0 <= j < |r| && r[j] == s[i];
    }
    var k :| 0 <= k < |r| && r[k] == d;
  }

  /** Every first definition is in the set. */
  lemma FirstInSet<D>(s: seq<ClassDef<D>>, defs: seq<ClassDef<D>>, i: nat) returns (k: nat)
    requires Firsts(s, defs, |defs|) && IsFirst(defs, i)
    ensures k < |s| && s[k] == defs[i]
  {
    assert defs[..|defs|] == defs;
    assert defs[i].typeIdx in Indices(s);
    k :| 0 <= k < |s| && s[k].typeIdx == defs[i].typeIdx;
    var j :| IsFirst(defs, j) && defs[j] == s[k];
    assert i == j;
  }

  lemma SameFirstOfSets<D>(orig: seq<ClassDef<D>>, output: seq<ClassDef<D>>, a: seq<ClassDef<D>>, b: seq<ClassDef<D>>,
                           sameParts: (D, D) -> bool)
    requires Firsts(a, orig, |orig|) && Firsts(b, output, |output|)
    ensures SameFirst(orig, output, sameParts) <==> SameClasses(a, b, sameParts)
  {
    hide SameDef, Indices, Ordered;
    assert orig[..|orig|] == orig && output[..|output|] == output;
    if SameClasses(a, b, sameParts) {
      forall i, j | IsFirst(orig, i) && IsFirst(output, j) && orig[i].typeIdx == output[j].typeIdx
        ensures SameDef(orig[i], output[j], sameParts)
      {
        var x := FirstInSet(a, orig, i);
        var y := FirstInSet(b, output, j);
        assert a[x].typeIdx == b[y].typeIdx;
      }
    }
    if SameFirst(orig, output, sameParts) {
      forall x, y | 0 <= x < |a| && 0 <= y < |b| && a[x].typeIdx == b[y].typeIdx
        ensures SameDef(a[x], b[y], sameParts)
      {
        var i :| IsFirst(orig, i) && orig[i] == a[x];
        var j :| IsFirst(output, j) && output[j] == b[y];
      }
    }
  }

  lemma OrderedSize<D>(s: seq<ClassDef<D>>)
    requires Ordered(s)
    ensures |Indices(s)| == |s|
  {
    UniqueByCount(s);
  }

  /**
   With duplicates the verdict is about the first definitions: for lists of one length, acceptance means
   that these agree if and only if both lists have the same number of distinct indices, and then it is
   exactly that.
   */
  lemma AcceptsFirstDefinitions<D>(orig: seq<ClassDef<D>>, output: seq<ClassDef<D>>, sameParts: (D, D) -> bool)
    requires |orig| == |output|
    ensures |Indices(orig)| == |Indices(output)| ==>
              (Accepts(orig, output, sameParts) <==> SameFirst(orig, output, sameParts))
    ensures Accepts(orig, output, sameParts) ==>
              (SameFirst(orig, output, sameParts) <==> |Indices(orig)| == |Indices(output)|)
  {
    hide SetOf, Indices, SameDef, SameClasses, IsFirst;
    var a, b := SetOf(orig, |orig|), SetOf(output, |output|);
    SetOfFirsts(orig, |orig|);
    SetOfFirsts(output, |output|);
    assert orig[..|orig|] == orig && output[..|output|] == output;
    OrderedSize(a);
    OrderedSize(b);
    SameFirstOfSets(orig, output, a, b, sameParts);
    if SameClasses(a, b, sameParts) {
      SameClassesPairs(a, b, sameParts);
    }
    if Accepts(orig, output, sameParts) && |a| == |b| {
      PairsSameClasses(a, b, sameParts);
    }
  }
}
