/**
 Whether a dex file can be written as compact dex, and the table of debug-info offsets by method id
 (dexlayout/compact_dex_writer.cc).

 Code items and debug infos are compared as objects: an identity stands for each.
 */
module DebugInfoTable {
  import opened Bytes
  import opened Leb128
  import opened CompactOffsetTable
  import opened Wrappers

  datatype DebugInfo = DebugInfo(id: nat, offset: nat)
  datatype Code = Code(id: nat, debugInfo: Option<DebugInfo>)
  datatype Method = Method(idx: nat, code: Option<Code>)

  /** The direct and the virtual methods of a class. */
  datatype ClassData = ClassData(direct: seq<Method>, virtuals: seq<Method>)

  /** A class that is not defined in this dex file has no data. */
  type ClassDef = Option<ClassData>

  function DebugInfoOf(m: Method): Option<DebugInfo> {
    if m.code.Some? then m.code.value.debugInfo else None
  }

  function MethodsOf(def: ClassDef, direct: bool): seq<Method> {
    if def.None? then [] else if direct then def.value.direct else def.value.virtuals
  }

  /** The methods of one kind in the first `n` classes. */
  function Visits(defs: seq<ClassDef>, direct: bool, n: nat): seq<Method>
    requires n <= |defs|
  {
    if n == 0 then [] else Visits(defs, direct, n - 1) + MethodsOf(defs[n - 1], direct)
  }

  /** The order of the writer: every direct method, then every virtual one. */
  function AllVisits(defs: seq<ClassDef>): seq<Method> {
    Visits(defs, true, |defs|) + Visits(defs, false, |defs|)
  }

  predicate InTable(vs: seq<Method>, methodIds: nat) {
    forall i :: 0 <= i < |vs| ==> vs[i].idx < methodIds
  }

  /** A method id is never given two different code items. */
  predicate Agreeing(vs: seq<Method>) {
    forall i, j :: 0 <= i < j < |vs| && vs[i].idx == vs[j].idx ==> vs[i].code == vs[j].code
  }

  // --- Whether compact dex can be generated ---------------------------------------------------------

  /** What the vectors hold once the methods have been seen. */
  ghost predicate Tracked(vs: seq<Method>, saw: seq<bool>, codes: seq<Option<Code>>, infos: seq<Option<DebugInfo>>) {
    && |saw| == |codes| == |infos| && InTable(vs, |saw|)
    && (forall i :: 0 <= i < |vs| ==>
          saw[vs[i].idx] && codes[vs[i].idx] == vs[i].code && infos[vs[i].idx] == DebugInfoOf(vs[i]))
    && (forall k :: 0 <= k < |saw| && saw[k] ==> exists i :: 0 <= i < |vs| && vs[i].idx == k)
  }

  lemma TrackedAgrees(vs: seq<Method>, saw: seq<bool>, codes: seq<Option<Code>>, infos: seq<Option<DebugInfo>>)
    requires Tracked(vs, saw, codes, infos)
    ensures Agreeing(vs)
  {
  }

  lemma TrackedMore(vs: seq<Method>, saw: seq<bool>, codes: seq<Option<Code>>, infos: seq<Option<DebugInfo>>, m: Method)
    requires Tracked(vs, saw, codes, infos) && m.idx < |saw|
    requires saw[m.idx] ==> codes[m.idx] == m.code
    ensures Tracked(vs + [m], saw[m.idx := true], codes[m.idx := m.code], infos[m.idx := DebugInfoOf(m)])
  {
    var vs', saw' := vs + [m], saw[m.idx := true];
    forall k | 0 <= k < |saw'| && saw'[k]
      ensures exists i :: 0 <= i < |vs'| && vs'[i].idx == k
    {
      if k == m.idx {
        assert vs'[|vs|].idx == k;
      } else {
        var i :| 0 <= i < |vs| && vs[i].idx == k;
        assert vs'[i].idx == k;
      }
    }
  }

  /** A conflict with what was seen. */
  lemma TrackedConflict(vs: seq<Method>, saw: seq<bool>, codes: seq<Option<Code>>, infos: seq<Option<DebugInfo>>,
                        m: Method)
    requires Tracked(vs, saw, codes, infos) && m.idx < |saw| && saw[m.idx]
    ensures codes[m.idx] == m.code ==> infos[m.idx] == DebugInfoOf(m)
    ensures codes[m.idx] != m.code ==> !Agreeing(vs + [m])
  {
    var i :| 0 <= i < |vs| && vs[i].idx == m.idx;
    var all := vs + [m];
    assert all[i] == vs[i] && all[|vs|] == m;
  }

  lemma ConflictStays(vs: seq<Method>, more: seq<Method>)
    requires Agreeing(vs + more)
    ensures Agreeing(vs)
  {
    var all := vs + more;
    assert forall i :: 0 <= i < |vs| ==> all[i] == vs[i];
  }

  method CheckMethods(methods: seq<Method>, saw: array<bool>, codes: array<Option<Code>>,
                      infos: array<Option<DebugInfo>>,
                      ghost vs: seq<Method>)
    returns (ok: bool)
    requires saw.Length == codes.Length == infos.Length && InTable(methods, saw.Length)
    requires Tracked(vs, saw[..], codes[..], infos[..])
    modifies saw, codes, infos
    ensures ok ==> Tracked(vs + methods, saw[..], codes[..], infos[..])
    ensures !ok ==> !Agreeing(vs + methods)
  {
    hide Tracked, Agreeing, InTable;
    assert vs + methods[..0] == vs;
    for i := 0 to |methods|
      invariant Tracked(vs + methods[..i], saw[..], codes[..], infos[..])
    {
      var m := methods[i];
      ghost var seen := vs + methods[..i];
      assert vs + methods[..i + 1] == seen + [m];
      MethodInTable(methods, saw.Length, i);
      var info := DebugInfoOf(m);
      if saw[m.idx] {
        TrackedConflict(seen, saw[..], codes[..], infos[..], m);
        if codes[m.idx] != m.code || infos[m.idx] != info {
          assert vs + methods == (seen + [m]) + methods[i + 1..];
          if Agreeing(vs + methods) {
            ConflictStays(seen + [m], methods[i + 1..]);
          }
          return false;
        }
      }
      TrackedMore(seen, saw[..], codes[..], infos[..], m);
      ghost var s, c, d := saw[..], codes[..], infos[..];
      codes[m.idx] := m.code;
      infos[m.idx] := info;
      saw[m.idx] := true;
      assert saw[..] == s[m.idx := true] && codes[..] == c[m.idx := m.code] && infos[..] == d[m.idx := info];
    }
    assert methods[..|methods|] == methods;
    return true;
  }

  lemma MethodInTable(vs: seq<Method>, methodIds: nat, i: nat)
    requires InTable(vs, methodIds) && i < |vs|
    ensures vs[i].idx < methodIds
  {
  }

  ghost predicate DefsInTable(defs: seq<ClassDef>, methodIds: nat) {
    forall k, direct :: 0 <= k < |defs| ==> InTable(MethodsOf(defs[k], direct), methodIds)
  }

  /** Compact dex can be generated exactly when no method id has conflicting code items. */
  method CanGenerateCompactDex(defs: seq<ClassDef>, methodIds: nat) returns (ok: bool)
    requires DefsInTable(defs, methodIds)
    ensures ok <==> Agreeing(AllVisits(defs))
  {
    hide Tracked, Agreeing, InTable;
    var saw := new bool[methodIds](_ => false);
    var codes := new Option<Code>[methodIds](_ => None);
    var infos := new Option<DebugInfo>[methodIds](_ => None);
    NothingTracked(saw[..], codes[..], infos[..]);
    ghost var vs := [];
    for pass := 0 to 2
      invariant vs == if pass == 0 then [] else if pass == 1 then Visits(defs, true, |defs|) else AllVisits(defs)
      invariant Tracked(vs, saw[..], codes[..], infos[..])
    {
      var direct := pass == 0;
      ghost var before := vs;
      assert before + Visits(defs, direct, 0) == before;
      for k := 0 to |defs|
        invariant vs == before + Visits(defs, direct, k)
        invariant Tracked(vs, saw[..], codes[..], infos[..])
      {
        hide Visits, AllVisits;
        VisitsStep(defs, direct, k, before);
        var methods := MethodsOf(defs[k], direct);
        if defs[k].None? {
          assert vs + methods == vs;
          continue;
        }
        var accepted := CheckMethods(methods, saw, codes, infos, vs);
        vs := vs + methods;
        if !accepted {
          ConflictInAll(defs, direct, k + 1);
          return false;
        }
      }
    }
    TrackedAgrees(vs, saw[..], codes[..], infos[..]);
    return true;
  }

  lemma NothingTracked(saw: seq<bool>, codes: seq<Option<Code>>, infos: seq<Option<DebugInfo>>)
    requires |saw| == |codes| == |infos| && forall k :: 0 <= k < |saw| ==> !saw[k]
    ensures Tracked([], saw, codes, infos)
  {
  }

  lemma {:induction false} VisitsPrefix(defs: seq<ClassDef>, direct: bool, k: nat, n: nat) returns (more: seq<Method>)
    requires k <= n <= |defs|
    ensures Visits(defs, direct, n) == Visits(defs, direct, k) + more
    decreases n
  {
    if k == n {
      more := [];
    } else {
      var front := VisitsPrefix(defs, direct, k, n - 1);
      more := front + MethodsOf(defs[n - 1], direct);
    }
  }

  /** A conflict among the first methods is one among them all. */
  lemma ConflictInAll(defs: seq<ClassDef>, direct: bool, k: nat)
    requires k <= |defs|
    requires !Agreeing((if direct then [] else Visits(defs, true, |defs|)) + Visits(defs, direct, k))
    ensures !Agreeing(AllVisits(defs))
  {
    hide Agreeing, Visits;
    var before := if direct then [] else Visits(defs, true, |defs|);
    var more := VisitsPrefix(defs, direct, k, |defs|);
    var rest := if direct then more + Visits(defs, false, |defs|) else more;
    assert AllVisits(defs) == (before + Visits(defs, direct, k)) + rest;
    if Agreeing(AllVisits(defs)) {
      ConflictStays(before + Visits(defs, direct, k), rest);
    }
  }

  // --- The table ------------------------------------------------------------------------------------

  /** The entry of a method id: the offset of its debug info, or 0 when it has none. */
  ghost predicate IsEntry(vs: seq<Method>, k: nat, offset: nat) {
    && (forall i :: 0 <= i < |vs| && vs[i].idx == k && DebugInfoOf(vs[i]).Some? ==>
          offset == DebugInfoOf(vs[i]).value.offset)
    && (offset != 0 ==> exists i :: 0 <= i < |vs| && vs[i].idx == k && DebugInfoOf(vs[i]).Some?)
  }

  ghost predicate IsTable(vs: seq<Method>, offsets: seq<nat>) {
    forall k :: 0 <= k < |offsets| ==> IsEntry(vs, k, offsets[k])
  }

  /** The entry does not depend on the order of the visits. */
  lemma EntryUnique(vs: seq<Method>, vs': seq<Method>, k: nat, offset: nat, offset': nat)
    requires forall m :: m in vs <==> m in vs'
    requires IsEntry(vs, k, offset) && IsEntry(vs', k, offset')
    ensures offset == offset'
  {
    forall m | m in vs && m.idx == k && DebugInfoOf(m).Some?
      ensures offset == offset'
    {
      assert m in vs';
    }
    if offset != 0 {
      var i :| 0 <= i < |vs| && vs[i].idx == k && DebugInfoOf(vs[i]).Some?;
      assert vs[i] in vs;
    }
  }

  /** One more method: the check against the entry it already has cannot fail. */
  lemma TableMore(vs: seq<Method>, offsets: seq<nat>, m: Method)
    requires IsTable(vs, offsets) && Agreeing(vs + [m]) && m.idx < |offsets|
    ensures DebugInfoOf(m).None? ==> IsTable(vs + [m], offsets)
    ensures DebugInfoOf(m).Some? ==>
              var offset := DebugInfoOf(m).value.offset;
              (offsets[m.idx] != 0 ==> offset == offsets[m.idx]) && IsTable(vs + [m], offsets[m.idx := offset])
  {
    var all := vs + [m];
    var info := DebugInfoOf(m);
    assert all[|vs|] == m;
    forall i | 0 <= i < |vs| && vs[i].idx == m.idx
      ensures DebugInfoOf(vs[i]) == info
    {
      assert all[i] == vs[i];
    }
    hide Agreeing;
    forall k, offset | 0 <= k < |offsets| && k != m.idx && IsEntry(vs, k, offset)
      ensures IsEntry(all, k, offset)
    {
      EntryOther(vs, m, k, offset);
    }
    if info.None? {
      EntryNoInfo(vs, m, offsets[m.idx]);
    } else {
      EntryInfo(vs, m);
    }
  }

  lemma EntryOther(vs: seq<Method>, m: Method, k: nat, offset: nat)
    requires IsEntry(vs, k, offset) && k != m.idx
    ensures IsEntry(vs + [m], k, offset)
  {
    var all := vs + [m];
    if offset != 0 {
      var i :| 0 <= i < |vs| && vs[i].idx == k && DebugInfoOf(vs[i]).Some?;
      assert all[i] == vs[i];
    }
  }

  lemma EntryNoInfo(vs: seq<Method>, m: Method, offset: nat)
    requires IsEntry(vs, m.idx, offset) && DebugInfoOf(m).None?
    ensures IsEntry(vs + [m], m.idx, offset)
  {
    var all := vs + [m];
    if offset != 0 {
      var i :| 0 <= i < |vs| && vs[i].idx == m.idx && DebugInfoOf(vs[i]).Some?;
      assert all[i] == vs[i];
    }
  }

  lemma EntryInfo(vs: seq<Method>, m: Method)
    requires DebugInfoOf(m).Some?
    requires forall i :: 0 <= i < |vs| && vs[i].idx == m.idx ==> DebugInfoOf(vs[i]) == DebugInfoOf(m)
    ensures IsEntry(vs + [m], m.idx, DebugInfoOf(m).value.offset)
  {
    var all := vs + [m];
    assert all[|vs|].idx == m.idx;
  }

  method EnterMethods(methods: seq<Method>, offsets: array<nat>, ghost vs: seq<Method>)
    requires InTable(methods, offsets.Length) && Agreeing(vs + methods) && IsTable(vs, offsets[..])
    modifies offsets
    ensures IsTable(vs + methods, offsets[..])
  {
    hide InTable, Agreeing, IsTable;
    assert vs + methods[..0] == vs;
    for i := 0 to |methods|
      invariant IsTable(vs + methods[..i], offsets[..])
    {
      var m := methods[i];
      ghost var seen := vs + methods[..i];
      assert vs + methods[..i + 1] == seen + [m];
      assert vs + methods == (seen + [m]) + methods[i + 1..];
      ConflictStays(seen + [m], methods[i + 1..]);
      MethodInTable(methods, offsets.Length, i);
      TableMore(seen, offsets[..], m);
      var info := DebugInfoOf(m);
      if info.Some? {
        ghost var before := offsets[..];
        if offsets[m.idx] != 0 {
          assert info.value.offset == offsets[m.idx];
        }
        offsets[m.idx] := info.value.offset;
        assert offsets[..] == before[m.idx := info.value.offset];
      }
    }
    assert methods[..|methods|] == methods;
  }

  /** The direct methods come in the first pass. */
  ghost function Before(defs: seq<ClassDef>, direct: bool): seq<Method> {
    if direct then [] else Visits(defs, true, |defs|)
  }

  /** One pass over the classes, of their direct or of their virtual methods. */
  method CollectPass(defs: seq<ClassDef>, direct: bool, offsets: array<nat>)
    requires DefsInTable(defs, offsets.Length) && Agreeing(AllVisits(defs))
    requires IsTable(Before(defs, direct), offsets[..])
    modifies offsets
    ensures IsTable(Before(defs, direct) + Visits(defs, direct, |defs|), offsets[..])
  {
    hide *;
    ghost var before := Before(defs, direct);
    NoVisits(defs, direct, before);
    for k := 0 to |defs|
      invariant IsTable(before + Visits(defs, direct, k), offsets[..])
    {
      var methods := MethodsOf(defs[k], direct);
      VisitsStep(defs, direct, k, before);
      AgreeSoFar(defs, direct, k + 1);
      MethodsInTable(defs, direct, k, offsets.Length);
      if defs[k].Some? {
        EnterMethods(methods, offsets, before + Visits(defs, direct, k));
      } else {
        assert (before + Visits(defs, direct, k)) + methods == before + Visits(defs, direct, k);
      }
    }
  }

  lemma NoVisits(defs: seq<ClassDef>, direct: bool, before: seq<Method>)
    ensures before + Visits(defs, direct, 0) == before
  {
  }

  lemma MethodsInTable(defs: seq<ClassDef>, direct: bool, k: nat, n: nat)
    requires DefsInTable(defs, n) && k < |defs|
    ensures InTable(MethodsOf(defs[k], direct), n)
    ensures defs[k].None? ==> MethodsOf(defs[k], direct) == []
  {
  }

  lemma EmptyTable(offsets: seq<nat>)
    requires forall k :: 0 <= k < |offsets| ==> offsets[k] == 0
    ensures IsTable([], offsets)
  {
  }

  /** The offsets by method id; the conflict check is the assertion that is made on the way. */
  method CollectOffsets(defs: seq<ClassDef>, methodIds: nat) returns (table: seq<nat>)
    requires DefsInTable(defs, methodIds) && Agreeing(AllVisits(defs))
    ensures |table| == methodIds && IsTable(AllVisits(defs), table)
  {
    hide *;
    var offsets := new nat[methodIds](_ => 0);
    EmptyTable(offsets[..]);
    Passes(defs);
    for pass := 0 to 2
      invariant IsTable(if pass < 2 then Before(defs, pass == 0) else AllVisits(defs), offsets[..])
    {
      CollectPass(defs, pass == 0, offsets);
    }
    table := offsets[..];
  }

  lemma Passes(defs: seq<ClassDef>)
    ensures Before(defs, true) == []
    ensures Before(defs, true) + Visits(defs, true, |defs|) == Before(defs, false)
    ensures Before(defs, false) + Visits(defs, false, |defs|) == AllVisits(defs)
  {
  }

  lemma VisitsStep(defs: seq<ClassDef>, direct: bool, k: nat, before: seq<Method>)
    requires k < |defs|
    ensures before + Visits(defs, direct, k + 1) == (before + Visits(defs, direct, k)) + MethodsOf(defs[k], direct)
  {
  }

  lemma AgreeSoFar(defs: seq<ClassDef>, direct: bool, k: nat)
    requires k <= |defs| && Agreeing(AllVisits(defs))
    ensures Agreeing(Before(defs, direct) + Visits(defs, direct, k))
  {
    hide Agreeing;
    if !Agreeing(Before(defs, direct) + Visits(defs, direct, k)) {
      ConflictInAll(defs, direct, k);
    }
  }

  /** What a reader of the compact table finds for each method id. */
  ghost predicate Found(vs: seq<Method>, data: seq<Byte>, base: nat, tableOffset: nat, k: nat) {
    var r := LookUp(data, base, tableOffset, k);
    r.Some? && IsEntry(vs, k, r.value)
  }

  ghost predicate OffsetsFit(vs: seq<Method>) {
    forall i :: 0 <= i < |vs| && DebugInfoOf(vs[i]).Some? ==> DebugInfoOf(vs[i]).value.offset < TWO_32
  }

  /**
   Collects, builds and encodes: in the bytes, the accessor finds for each method id its debug-info
   offset, or 0 when it has none.
   */
  method WriteDebugInfoOffsetTable(defs: seq<ClassDef>, methodIds: nat)
    returns (data: seq<Byte>, base: nat, tableOffset: nat)
    requires DefsInTable(defs, methodIds) && Agreeing(AllVisits(defs)) && methodIds <= 0x2000_0000
    requires OffsetsFit(AllVisits(defs))
    ensures forall k :: 0 <= k < methodIds ==> Found(AllVisits(defs), data, base, tableOffset, k)
  {
    hide AllVisits, InTable, Agreeing, LookUp, TableData, MinOffset, TableOffset;
    var offsets := CollectOffsets(defs, methodIds);
    TableWords(AllVisits(defs), offsets);
    data, base, tableOffset := Build(offsets);
    forall k: nat | k < methodIds
      ensures Found(AllVisits(defs), data, base, tableOffset, k)
    {
      TableRoundTrip(offsets, k);
    }
  }

  lemma TableWords(vs: seq<Method>, offsets: seq<nat>)
    requires IsTable(vs, offsets) && OffsetsFit(vs)
    ensures Words(offsets)
  {
    forall k | 0 <= k < |offsets|
      ensures offsets[k] < TWO_32
    {
      assert IsEntry(vs, k, offsets[k]);
    }
  }
}
