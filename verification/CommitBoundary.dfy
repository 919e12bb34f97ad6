/**
 Where the all-or-nothing promise of artd's commit ends: a plan keeps it in every run exactly when no
 path that may have to be moved back is a new file or clashes with the name of another old file.
 */
module CommitBoundary {
  import opened FileCommit

  // --- Moving and moving back -----------------------------------------------------------------

  /** The moves so far only add to the record, each from one of the paths to its name. */
  lemma {:induction false} Recorded(s: Progress, paths: seq<Path>, names: seq<Path>)
    requires |names| == |paths|
    ensures var t := MoveUnder(s, paths, names);
            && s.moved <= t.moved
            && forall k :: |s.moved| <= k < |t.moved| ==> t.moved[k].original in paths && t.moved[k].temp in names
    decreases |paths|
  {
    if paths != [] {
      Recorded(AfterFirst(s, paths, names), paths[1..], names[1..]);
    }
  }

  /** A path that is not there and is not used as a name is not moved. */
  lemma {:induction false} StaysAbsent(s: Progress, paths: seq<Path>, names: seq<Path>, x: Path)
    requires |names| == |paths| && x !in s.nodes && x !in names
    ensures var t := MoveUnder(s, paths, names);
            && x !in t.nodes && s.moved <= t.moved
            && forall k :: |s.moved| <= k < |t.moved| ==> t.moved[k].original != x
    decreases |paths|
  {
    if paths != [] {
      StaysAbsent(AfterFirst(s, paths, names), paths[1..], names[1..], x);
    }
  }

  lemma {:induction false} GetsAbsent(s: Progress, paths: seq<Path>, names: seq<Path>, x: Path)
    requires |names| == |paths| && x in paths && x !in names
    ensures x !in MoveUnder(s, paths, names).nodes
    decreases |paths|
  {
    var t := AfterFirst(s, paths, names);
    if x == paths[0] {
      StaysAbsent(t, paths[1..], names[1..], x);
    } else {
      GetsAbsent(t, paths[1..], names[1..], x);
    }
  }

  lemma {:induction false} Untouched(s: Progress, paths: seq<Path>, names: seq<Path>, x: Path)
    requires |names| == |paths| && x !in paths && x !in names
    ensures SameAt(s.nodes, MoveUnder(s, paths, names).nodes, x)
    decreases |paths|
  {
    if paths != [] {
      Untouched(AfterFirst(s, paths, names), paths[1..], names[1..], x);
    }
  }

  lemma UntilEnd(m: Nodes, paths: seq<Path>, names: seq<Path>, j: nat, k: nat)
    requires |names| == |paths| && j <= k <= |paths|
    ensures Until(m, paths, names, k) == MoveUnder(Until(m, paths, names, j), paths[j..k], names[j..k])
  {
    var a, b := paths[..k], names[..k];
    MoveSplit(Progress(m, []), a, b, j);
    assert a[..j] == paths[..j] && b[..j] == names[..j] && a[j..] == paths[j..k] && b[j..] == names[j..k];
  }

  lemma {:induction false} BackAbsent(m: Nodes, moved: seq<Moved>, x: Path)
    requires x !in m && forall k :: 0 <= k < |moved| ==> moved[k].original != x
    ensures x !in MovedBackInOrder(m, moved)
    decreases |moved|
  {
    if moved != [] {
      BackAbsent(TryRename(m, moved[0].temp, moved[0].original), moved[1..], x);
    }
  }

  lemma {:induction false} BackUntouched(m: Nodes, moved: seq<Moved>, x: Path)
    requires forall k :: 0 <= k < |moved| ==> moved[k].original != x && moved[k].temp != x
    ensures SameAt(m, MovedBackInOrder(m, moved), x)
    decreases |moved|
  {
    if moved != [] {
      BackUntouched(TryRename(m, moved[0].temp, moved[0].original), moved[1..], x);
    }
  }

  /** Up to an entry, that entry, and the others. */
  lemma {:induction false} BackSplit(m: Nodes, moved: seq<Moved>, k: nat)
    requires k < |moved|
    ensures var n := MovedBackInOrder(m, moved[..k]);
            MovedBackInOrder(m, moved) == MovedBackInOrder(TryRename(n, moved[k].temp, moved[k].original), moved[k + 1..])
    decreases |moved|
  {
    if k > 0 {
      BackSplit(TryRename(m, moved[0].temp, moved[0].original), moved[1..], k - 1);
      assert moved[..k][1..] == moved[1..][..k - 1] && moved[1..][k..] == moved[k + 1..];
    } else {
      assert moved[..0] == [];
    }
  }

  /** If the listed nodes are files, they stay files. */
  lemma {:induction false} ListedFiles(s: Progress, paths: seq<Path>, names: seq<Path>, all: set<Path>)
    requires |names| == |paths| && PathSet(paths) <= all && !HasDirectory(s.nodes, all)
    ensures !HasDirectory(MoveUnder(s, paths, names).nodes, all)
    decreases |paths|
  {
    if paths != [] {
      assert paths[0] in PathSet(paths) && PathSet(paths[1..]) <= PathSet(paths);
      var t := AfterFirst(s, paths, names);
      assert !HasDirectory(t.nodes, all);
      ListedFiles(t, paths[1..], names[1..], all);
    }
  }

  /** The first time a path has its turn: its file goes under the name, and the others do not touch it. */
  lemma FirstMove(m: Nodes, paths: seq<Path>, picked: seq<Path>, j: nat) returns (b: nat)
    requires |picked| == |paths| && j < |paths| && paths[j] in m && paths[j] !in paths[..j] && paths[j] !in picked[..j]
    ensures var s, t := Until(m, paths, picked, j), Until(m, paths, picked, |paths|);
            && b == |s.moved| < |t.moved| && t.moved[..b] == s.moved && t.moved[b] == Moved(paths[j], picked[j])
            && paths[j] in s.nodes && s.nodes[paths[j]] == m[paths[j]]
            && Until(m, paths, picked, j + 1) ==
                 Progress((s.nodes - {paths[j]})[picked[j] := m[paths[j]]], s.moved + [Moved(paths[j], picked[j])])
            && (forall k :: 0 <= k < b ==> t.moved[k].original in paths[..j] && t.moved[k].temp in picked[..j])
            && (forall k :: b < k < |t.moved| ==> t.moved[k].original in paths[j + 1..] && t.moved[k].temp in picked[j + 1..])
  {
    hide MoveUnder, IsTempOf;
    Untouched(Progress(m, []), paths[..j], picked[..j], paths[j]);
    Recorded(Progress(m, []), paths[..j], picked[..j]);
    UntilStep(m, paths, picked, j);
    UntilEnd(m, paths, picked, j + 1, |paths|);
    assert paths[j + 1..|paths|] == paths[j + 1..] && picked[j + 1..|paths|] == picked[j + 1..];
    Recorded(Until(m, paths, picked, j + 1), paths[j + 1..], picked[j + 1..]);
    b := |Until(m, paths, picked, j).moved|;
  }

  lemma {:induction false} FirstPlace(paths: seq<Path>, q: Path) returns (j: nat)
    requires q in paths
    ensures j < |paths| && paths[j] == q && q !in paths[..j]
    decreases |paths|
  {
    if paths[0] == q {
      j := 0;
    } else {
      j := FirstPlace(paths[1..], q);
      assert paths[..j + 1] == [paths[0]] + paths[1..][..j];
      j := j + 1;
    }
  }

  // --- Runs that go wrong ------------------------------------------------------------------------

  /** Names that are free, none of them listed, and no two the same. */
  ghost predicate FreshNames(m: Nodes, paths: seq<Path>, names: seq<Path>) {
    && |names| == |paths|
    && (forall k :: 0 <= k < |names| ==> IsTempOf(names[k], paths[k]) && names[k] !in m && names[k] !in paths)
    && (forall j, k :: 0 <= j < k < |names| ==> names[j] != names[k])
  }

  lemma FreshBefore(m: Nodes, paths: seq<Path>, names: seq<Path>, n: nat)
    requires FreshNames(m, paths, names) && n <= |paths|
    ensures FreshNames(m, paths[..n], names[..n])
  {
    hide IsTempOf;
  }

  /** Names that are not in use, or only by a path that was listed before. */
  ghost predicate Pickable(m: Nodes, paths: seq<Path>, picked: seq<Path>) {
    && |picked| == |paths|
    && forall k :: 0 <= k < |picked| ==>
         IsTempOf(picked[k], paths[k]) && picked[k] !in picked[..k] && (picked[k] in m ==> picked[k] in paths[..k])
  }

  /** Such names can be picked: each is free when its turn comes. */
  lemma PicksCanHappen(m: Nodes, paths: seq<Path>, picked: seq<Path>)
    requires Pickable(m, paths, picked) && !HasDirectory(m, PathSet(paths))
    ensures CanPick(m, paths, picked)
  {
    hide IsTempOf, MoveUnder, HasDirectory;
    forall k | 0 <= k < |paths|
      ensures CanMove(Until(m, paths, picked, k).nodes, paths[k], picked[k])
    {
      if picked[k] in m {
        GetsAbsent(Progress(m, []), paths[..k], picked[..k], picked[k]);
      } else {
        StaysAbsent(Progress(m, []), paths[..k], picked[..k], picked[k]);
      }
      PrefixListed(paths, k, |paths|);
      ListedFiles(Progress(m, []), paths[..k], picked[..k], PathSet(paths));
      NoDirectoryAt(Until(m, paths, picked, k).nodes, paths, k);
    }
  }

  lemma NoDirectoryAt(nodes: Nodes, paths: seq<Path>, k: nat)
    requires !HasDirectory(nodes, PathSet(paths)) && k < |paths|
    ensures paths[k] in nodes ==> nodes[paths[k]].File?
  {
    assert paths[k] in PathSet(paths);
  }

  lemma FreshIsPickable(m: Nodes, paths: seq<Path>, names: seq<Path>)
    requires FreshNames(m, paths, names)
    ensures Pickable(m, paths, names)
  {
    hide IsTempOf;
  }

  lemma ClashIsPickable(m: Nodes, paths: seq<Path>, names: seq<Path>, i: nat, q: Path)
    requires FreshNames(m, paths, names) && i < |paths| && q in paths
    requires IsTempOf(q, paths[i]) && (q in m ==> q in paths[..i])
    ensures Pickable(m, paths, names[i := q])
  {
    hide IsTempOf;
    var picked := names[i := q];
    forall k | 0 <= k < |picked|
      ensures picked[k] !in picked[..k]
    {
      forall j | 0 <= j < k
        ensures picked[j] != picked[k]
      {
        assert j == i ==> names[k] !in paths;
        assert k == i ==> names[j] !in paths;
      }
    }
  }

  /** A new file that is listed among the old ones comes back. */
  lemma ListedTempStays(m: Nodes, paths: seq<Path>, names: seq<Path>, x: Path, gone: set<Path>)
    requires FreshNames(m, paths, names) && x in paths && x in m && gone <= m.Keys
    ensures var t := Until(m, paths, names, |paths|);
            x in MovedBackInOrder(t.nodes - gone, t.moved)
  {
    hide IsTempOf, MoveUnder, MovedBackInOrder;
    var j := FirstPlace(paths, x);
    var r := names[j];
    var b := FirstMove(m, paths, names, j);
    var s, t := Until(m, paths, names, j + 1), Until(m, paths, names, |paths|);
    UntilEnd(m, paths, names, j + 1, |paths|);
    assert paths[j + 1..|paths|] == paths[j + 1..] && names[j + 1..|paths|] == names[j + 1..];
    Untouched(s, paths[j + 1..], names[j + 1..], r);
    StaysAbsent(s, paths[j + 1..], names[j + 1..], x);
    var n := t.nodes - gone;
    BackSplit(n, t.moved, b);
    BackUntouched(n, t.moved[..b], r);
    BackAbsent(n, t.moved[..b], x);
    var n1 := TryRename(MovedBackInOrder(n, t.moved[..b]), r, x);
    assert x in n1;
    BackUntouched(n1, t.moved[b + 1..], x);
  }

  /** A clash with a path listed later: the file is moved twice and does not come back. */
  lemma ClashWithLater(m: Nodes, paths: seq<Path>, names: seq<Path>, i: nat, q: Path, gone: set<Path>)
    requires FreshNames(m, paths, names) && i < |paths| && q !in m && q in paths[i..]
    requires paths[i] in m && paths[i] !in paths[..i] && q != paths[i]
    ensures var t := Until(m, paths, names[i := q], |paths|);
            paths[i] !in MovedBackInOrder(t.nodes - gone, t.moved)
  {
    hide IsTempOf, MoveUnder, MovedBackInOrder;
    var picked, p := names[i := q], paths[i];
    var a := FirstMove(m, paths, picked, i);
    var s, t := Until(m, paths, picked, i + 1), Until(m, paths, picked, |paths|);
    StaysAbsent(Progress(m, []), paths[..i], picked[..i], q);
    UntilEnd(m, paths, picked, i + 1, |paths|);
    assert paths[i + 1..|paths|] == paths[i + 1..] && picked[i + 1..|paths|] == picked[i + 1..];
    assert paths[i..] == [p] + paths[i + 1..];
    StaysAbsent(s, paths[i + 1..], picked[i + 1..], p);
    GetsAbsent(s, paths[i + 1..], picked[i + 1..], q);
    var n := t.nodes - gone;
    BackSplit(n, t.moved, a);
    BackAbsent(n, t.moved[..a], p);
    BackAbsent(n, t.moved[..a], q);
    BackAbsent(MovedBackInOrder(n, t.moved[..a]), t.moved[a + 1..], p);
  }

  /** Moving back puts a file over the one that waits for the last move, which then takes it elsewhere. */
  lemma BackOver(n: Nodes, moved: seq<Moved>, b: nat, p: Path, q: Path, r: Path)
    requires b < |moved| - 1 && moved[b] == Moved(q, r) && moved[|moved| - 1] == Moved(p, q)
    requires r in n && q in n && p !in n && n[q].File? && r != q && p != q
    requires forall k :: 0 <= k < b ==> moved[k].original !in {q, r} && moved[k].temp !in {q, r}
    requires forall k :: b < k < |moved| - 1 ==> moved[k].original != q && moved[k].temp != q
    requires forall k :: 0 <= k < |moved| - 1 ==> moved[k].original != p
    ensures q !in MovedBackInOrder(n, moved)
  {
    hide MovedBackInOrder;
    var a := |moved| - 1;
    var first := moved[..a];
    BackSplit(n, moved, a);
    BackSplit(n, first, b);
    BackUntouched(n, first[..b], r);
    BackUntouched(n, first[..b], q);
    var n2 := TryRename(MovedBackInOrder(n, first[..b]), r, q);
    assert q in n2;
    BackUntouched(n2, first[b + 1..], q);
    BackAbsent(n, first, p);
    assert moved[a + 1..] == [];
    BackNone(TryRename(MovedBackInOrder(n, first), q, p));
  }

  /** A clash with an old file that was moved before: on its way back it is taken for the other. */
  lemma ClashWithEarlier(m: Nodes, paths: seq<Path>, names: seq<Path>, q: Path, gone: set<Path>)
    requires FreshNames(m, paths, names) && paths != [] && q in m && gone <= m.Keys - PathSet(paths)
    requires var i := |paths| - 1; q in paths[..i] && paths[i] in m && paths[i] !in paths[..i] && m[paths[i]].File?
    ensures var t := Until(m, paths, names[|paths| - 1 := q], |paths|);
            q !in MovedBackInOrder(t.nodes - gone, t.moved)
  {
    hide IsTempOf, MoveUnder, MovedBackInOrder;
    var i := |paths| - 1;
    var picked, p := names[i := q], paths[i];
    var j := FirstPlace(paths[..i], q);
    assert paths[..i][..j] == paths[..j];
    var r := names[j];
    var b := FirstMove(m, paths, picked, j);
    var a := FirstMove(m, paths, picked, i);
    var s, t := Until(m, paths, picked, j + 1), Until(m, paths, picked, |paths|);
    UntilEnd(m, paths, picked, j + 1, i);
    StaysAbsent(s, paths[j + 1..i], picked[j + 1..i], q);
    Untouched(s, paths[j + 1..i], picked[j + 1..i], r);
    assert q in PathSet(paths);
    var n := t.nodes - gone;
    assert n[r] == m[q] && n[q] == m[p];
    BackOver(n, t.moved, b, p, q, r);
  }

  lemma BackNone(m: Nodes)
    ensures MovedBackInOrder(m, []) == m
  {
  }

  /** A clash with a final path: what is unlinked at the end of a success is the new file. */
  lemma ClashWithFinal(m: Nodes, paths: seq<Path>, names: seq<Path>, i: nat, q: Path)
    requires FreshNames(m, paths, names) && i < |paths| && q in paths
    requires paths[i] in m && paths[i] !in paths[..i] && q != paths[i]
    ensures q in Stashes(Until(m, paths, names[i := q], |paths|).moved)
  {
    hide IsTempOf, MoveUnder;
    var a := FirstMove(m, paths, names[i := q], i);
    var moved := Until(m, paths, names[i := q], |paths|).moved;
    assert moved[a] in moved;
  }

  // --- The boundary ------------------------------------------------------------------------------

  /** Every run that the code may take ends with all or nothing. */
  ghost predicate AlwaysRight(m: Nodes, ps: seq<Pending>, removed: seq<Path>)
    requires Temps(ps) <= m.Keys
  {
    var paths := PathList(ps, removed);
    forall r :: Possible(m, ps, paths, r) ==> Right(m, ps, removed, r.ok, Leaves(m, ps, paths, r))
  }

  lemma TempsOfRest(ps: seq<Pending>)
    requires ps != []
    ensures {ps[0].tempPath} + Dropped(ps, 0, |ps|) == Temps(ps)
  {
    hide Dropped, Temps;
    forall t: Path
      ensures t in {ps[0].tempPath} + Dropped(ps, 0, |ps|) <==> t in Temps(ps)
    {
      DroppedExact(ps, 0, |ps|, t);
      TempsAt(ps, t);
    }
  }

  /** A transaction may fail wherever a path is left to be moved or a file to be committed. */
  lemma FailsThere(m: Nodes, ps: seq<Pending>, paths: seq<Path>, picked: seq<Path>)
    requires |picked| <= |paths| && CanPick(m, paths[..|picked|], picked) && (|picked| < |paths| || ps != [])
    ensures Possible(m, ps, paths, Run(picked, 0, false))
    ensures var s := AsideBy(m, paths, picked);
            Leaves(m, ps, paths, Run(picked, 0, false)) == MovedBackInOrder(s.nodes - Temps(ps), s.moved)
  {
    hide CanPick, AsideBy, MovedBackInOrder, Temps, Dropped;
    if |picked| == |paths| {
      TempsOfRest(ps);
      var nodes := AsideBy(m, paths, picked).nodes;
      assert nodes - {ps[0].tempPath} - Dropped(ps, 0, |ps|) == nodes - ({ps[0].tempPath} + Dropped(ps, 0, |ps|));
    }
  }

  /** The temporaries from the `c`-th on are there. */
  ghost predicate Waiting(nodes: Nodes, ps: seq<Pending>, c: nat) {
    forall j :: c <= j < |ps| ==> ps[j].tempPath in nodes && nodes[ps[j].tempPath].File?
  }

  lemma OwnedWait(m: Nodes, ps: seq<Pending>)
    requires Owned(m, ps)
    ensures Waiting(m, ps, 0)
  {
    forall j | 0 <= j < |ps|
      ensures ps[j].tempPath in m && m[ps[j].tempPath].File?
    {
      assert ps[j] in ps && ps[j].tempPath in Temps(ps);
    }
  }

  /** New files whose final paths hold no directory are committed one after the other. */
  lemma {:induction false} CommitsCanGo(base: Nodes, ps: seq<Pending>, c: nat)
    requires c <= |ps| && Temps(ps) !! Finals(ps) && Owned(base, ps) && !HasDirectory(base, Finals(ps))
    ensures CommitsGo(base, ps, c)
    ensures !HasDirectory(CommitsOf(base, ps, c), Finals(ps)) && Waiting(CommitsOf(base, ps, c), ps, c)
  {
    hide *;
    if c == 0 {
      OwnedWait(base, ps);
      CommitsNone(base, ps);
    } else {
      CommitsCanGo(base, ps, c - 1);
      CommitsStep(base, ps, c - 1);
      OwnTemps(base, ps);
      CommitKeeps(CommitsOf(base, ps, c - 1), ps, c - 1);
      CommitsGoOn(base, ps, c - 1);
    }
  }

  lemma OwnTemps(m: Nodes, ps: seq<Pending>)
    requires Owned(m, ps)
    ensures forall i, j :: 0 <= i < j < |ps| ==> ps[i].tempPath != ps[j].tempPath
  {
  }

  lemma CommitKeeps(nodes: Nodes, ps: seq<Pending>, c: nat)
    requires c < |ps| && Temps(ps) !! Finals(ps) && !HasDirectory(nodes, Finals(ps)) && Waiting(nodes, ps, c)
    requires forall i, j :: 0 <= i < j < |ps| ==> ps[i].tempPath != ps[j].tempPath
    ensures CanCommit(nodes, ps[c])
    ensures var nodes' := TryRename(nodes, ps[c].tempPath, ps[c].finalPath);
            !HasDirectory(nodes', Finals(ps)) && Waiting(nodes', ps, c + 1)
  {
    assert ps[c] in ps && ps[c].finalPath in Finals(ps);
    forall j | c < j < |ps|
      ensures ps[j].tempPath != ps[c].finalPath
    {
      assert ps[j] in ps && ps[j].tempPath in Temps(ps);
    }
  }

  /** A transaction that moves everything aside may also succeed. */
  lemma SucceedsThere(m: Nodes, ps: seq<Pending>, paths: seq<Path>, picked: seq<Path>)
    requires Owned(m, ps) && Temps(ps) !! PathSet(paths) && Finals(ps) <= PathSet(paths)
    requires CanPick(m, paths, picked) && !HasDirectory(m, PathSet(paths))
    requires forall k :: 0 <= k < |picked| ==> picked[k] !in Temps(ps)
    ensures Possible(m, ps, paths, Run(picked, |ps|, true))
  {
    hide IsTempOf, MoveUnder, CommitsOf;
    var base := AsideBy(m, paths, picked).nodes;
    assert paths[..|paths|] == paths;
    ListedFiles(Progress(m, []), paths, picked, PathSet(paths));
    assert !HasDirectory(base, Finals(ps));
    forall t | t in Temps(ps)
      ensures t in base && base[t] == m[t]
    {
      Untouched(Progress(m, []), paths, picked, t);
    }
    CommitsCanGo(base, ps, |ps|);
  }

  lemma RiskHasNoDirectory(m: Nodes, ps: seq<Pending>, paths: seq<Path>)
    ensures !HasDirectory(m, PathSet(AtRisk(m, ps, paths)))
    ensures Reach(m, ps, paths) < |paths| || ps != [] || paths == []
  {
    var front := AtRisk(m, ps, paths);
    forall p | p in front && p in m
      ensures m[p].File?
    {
      var k :| 0 <= k < |front| && front[k] == p;
      assert paths[k] == p;
    }
  }

  /** A new file among the paths at risk: a failure leaves it behind. */
  lemma ListedTempBreaks(m: Nodes, ps: seq<Pending>, removed: seq<Path>, names: seq<Path>, x: Path) returns (r: Run)
    requires Owned(m, ps) && FreshNames(m, AtRisk(m, ps, PathList(ps, removed)), names)
    requires x in Temps(ps) && x in AtRisk(m, ps, PathList(ps, removed))
    ensures Possible(m, ps, PathList(ps, removed), r)
    ensures !Right(m, ps, removed, r.ok, Leaves(m, ps, PathList(ps, removed), r))
  {
    var paths := PathList(ps, removed);
    var front := AtRisk(m, ps, paths);
    assert ps != [];
    hide *;
    RiskIs(m, ps, paths);
    RiskHasNoDirectory(m, ps, paths);
    FreshIsPickable(m, front, names);
    PicksCanHappen(m, front, names);
    FreshSize(m, front, names);
    r := Run(names, 0, false);
    FailsThere(m, ps, paths, names);
    OwnedKeys(m, ps);
    UntilAll(m, front, names, |front|);
    AsideByIs(m, paths, names);
    ListedTempStays(m, front, names, x, Temps(ps));
    TempIsGone(m, ps, removed, x);
  }

  lemma FreshSize(m: Nodes, paths: seq<Path>, names: seq<Path>)
    requires FreshNames(m, paths, names)
    ensures |names| == |paths|
  {
  }

  lemma OwnedKeys(m: Nodes, ps: seq<Pending>)
    requires Owned(m, ps)
    ensures Temps(ps) <= m.Keys
  {
  }

  lemma TempIsGone(m: Nodes, ps: seq<Pending>, removed: seq<Path>, x: Path)
    requires Temps(ps) <= m.Keys && x in Temps(ps)
    ensures forall nodes: Nodes :: x in nodes ==> !Right(m, ps, removed, false, nodes)
  {
  }

  lemma OldFileKept(m: Nodes, ps: seq<Pending>, removed: seq<Path>, x: Path)
    requires Temps(ps) <= m.Keys && x in m && x !in Temps(ps)
    ensures forall nodes: Nodes :: x !in nodes ==> !Right(m, ps, removed, false, nodes)
  {
  }

  lemma NewFileThere(m: Nodes, ps: seq<Pending>, removed: seq<Path>, x: Path)
    requires Temps(ps) <= m.Keys && x in Finals(ps)
    ensures forall nodes: Nodes :: x !in nodes ==> !Right(m, ps, removed, true, nodes)
  {
    NewContentsKeys(m, ps);
  }

  /** What a clash says about the two paths. */
  lemma ClashPaths(m: Nodes, paths: seq<Path>, finals: set<Path>, i: int, q: Path)
    requires Clash(m, paths, finals, i, q) && finals <= PathSet(paths) && !HasDirectory(m, PathSet(paths))
    ensures 0 <= i < |paths| && q in paths && q != paths[i] && IsTempOf(q, paths[i])
    ensures paths[i] in m && m[paths[i]].File? && paths[i] !in paths[..i]
    ensures if q in m then q in paths[..i] else q in finals || q in paths[i..]
  {
    NoDirectoryAt(m, paths, i);
    assert forall x :: x in paths[..i] || x in paths[i..] ==> x in paths;
  }

  /** A clash with an earlier path: failing right behind the move loses the file of that path. */
  lemma EarlierBreaks(m: Nodes, ps: seq<Pending>, removed: seq<Path>, names: seq<Path>, i: nat,
                      q: Path) returns (r: Run)
    requires var front := AtRisk(m, ps, PathList(ps, removed));
             && Owned(m, ps) && FreshNames(m, front, names) && Temps(ps) !! PathSet(front)
             && Clash(m, front, Exposed(m, ps, PathList(ps, removed)), i, q) && q in m
    ensures Possible(m, ps, PathList(ps, removed), r)
    ensures !Right(m, ps, removed, r.ok, Leaves(m, ps, PathList(ps, removed), r))
  {
    var paths := PathList(ps, removed);
    var front := AtRisk(m, ps, paths);
    hide *;
    RiskIs(m, ps, paths);
    RiskHasNoDirectory(m, ps, paths);
    ExposedListed(m, ps, removed);
    ClashPaths(m, front, Exposed(m, ps, paths), i, q);
    FreshSize(m, front, names);
    var a, b := front[..i + 1], names[..i + 1];
    assert a == paths[..i + 1] && a[..i] == front[..i];
    FreshBefore(m, front, names, i + 1);
    PrefixListed(front, i + 1, |front|);
    FewerDirectories(m, PathSet(a), PathSet(front));
    assert q in a by {
      assert a == front[..i] + [front[i]];
    }
    ClashIsPickable(m, a, b, i, q);
    PicksCanHappen(m, a, b[i := q]);
    r := Run(b[i := q], 0, false);
    FailsThere(m, ps, paths, r.names);
    OwnedKeys(m, ps);
    UntilAll(m, a, r.names, i + 1);
    AsideByIs(m, paths, r.names);
    ClashWithEarlier(m, a, b, q, Temps(ps));
    InPathSet(front, q);
    OldFileKept(m, ps, removed, q);
  }

  lemma FewerDirectories(m: Nodes, fewer: set<Path>, all: set<Path>)
    requires !HasDirectory(m, all) && fewer <= all
    ensures !HasDirectory(m, fewer)
  {
  }

  lemma InPathSet(paths: seq<Path>, p: Path)
    requires p in paths
    ensures p in PathSet(paths)
  {
  }

  lemma ExposedListed(m: Nodes, ps: seq<Pending>, removed: seq<Path>)
    ensures var paths := PathList(ps, removed); Exposed(m, ps, paths) <= PathSet(AtRisk(m, ps, paths))
  {
    var paths := PathList(ps, removed);
    PathListed(ps, removed);
    if Reach(m, ps, paths) == |paths| {
      assert AtRisk(m, ps, paths) == paths;
      FinalsListed(ps, removed);
    }
  }

  /** A clash with a later path: failing once that one is moved too loses the file. */
  lemma LaterBreaks(m: Nodes, ps: seq<Pending>, removed: seq<Path>, names: seq<Path>, i: nat, q: Path) returns (r: Run)
    requires var front := AtRisk(m, ps, PathList(ps, removed));
             && Owned(m, ps) && FreshNames(m, front, names) && Temps(ps) !! PathSet(front)
             && Clash(m, front, Exposed(m, ps, PathList(ps, removed)), i, q) && q !in m && q in front[i..]
    ensures Possible(m, ps, PathList(ps, removed), r)
    ensures !Right(m, ps, removed, r.ok, Leaves(m, ps, PathList(ps, removed), r))
  {
    var paths := PathList(ps, removed);
    var front := AtRisk(m, ps, paths);
    hide *;
    RiskIs(m, ps, paths);
    RiskHasNoDirectory(m, ps, paths);
    ExposedListed(m, ps, removed);
    ClashPaths(m, front, Exposed(m, ps, paths), i, q);
    FreshSize(m, front, names);
    ClashIsPickable(m, front, names, i, q);
    PicksCanHappen(m, front, names[i := q]);
    r := Run(names[i := q], 0, false);
    FailsThere(m, ps, paths, r.names);
    OwnedKeys(m, ps);
    UntilAll(m, front, r.names, |front|);
    AsideByIs(m, paths, r.names);
    ClashWithLater(m, front, names, i, q, Temps(ps));
    InPathSet(front, front[i]);
    OldFileKept(m, ps, removed, front[i]);
  }

  /** A clash with a final path alone: a success loses the new file. */
  lemma FinalBreaks(m: Nodes, ps: seq<Pending>, removed: seq<Path>, names: seq<Path>, i: nat, q: Path) returns (r: Run)
    requires var front := AtRisk(m, ps, PathList(ps, removed));
             && Owned(m, ps) && FreshNames(m, front, names) && Temps(ps) !! PathSet(front)
             && Clash(m, front, Exposed(m, ps, PathList(ps, removed)), i, q) && q !in m && q !in front[i..]
    ensures Possible(m, ps, PathList(ps, removed), r)
    ensures !Right(m, ps, removed, r.ok, Leaves(m, ps, PathList(ps, removed), r))
  {
    var paths := PathList(ps, removed);
    var front := AtRisk(m, ps, paths);
    hide *;
    RiskIs(m, ps, paths);
    RiskHasNoDirectory(m, ps, paths);
    ExposedListed(m, ps, removed);
    ClashPaths(m, front, Exposed(m, ps, paths), i, q);
    assert q in Finals(ps) && front == paths;
    FreshSize(m, front, names);
    ClashIsPickable(m, front, names, i, q);
    PicksCanHappen(m, front, names[i := q]);
    OwnedKeys(m, ps);
    PathListed(ps, removed);
    FinalsListed(ps, removed);
    r := Run(names[i := q], |ps|, true);
    NoTempPicked(m, ps, front, names, i, q, r.names);
    SucceedsThere(m, ps, paths, r.names);
    UntilAll(m, paths, r.names, |paths|);
    AsideByIs(m, paths, r.names);
    ClashWithFinal(m, paths, names, i, q);
    SuccessLeaves(m, ps, paths, r);
    NewFileThere(m, ps, removed, q);
  }

  lemma NoTempPicked(m: Nodes, ps: seq<Pending>, paths: seq<Path>, names: seq<Path>, i: nat, q: Path, picked: seq<Path>)
    requires FreshNames(m, paths, names) && Temps(ps) <= m.Keys && q !in m && i < |names| && picked == names[i := q]
    ensures forall k :: 0 <= k < |picked| ==> picked[k] !in Temps(ps)
  {
    hide IsTempOf;
  }

  lemma SuccessLeaves(m: Nodes, ps: seq<Pending>, paths: seq<Path>, r: Run)
    requires Possible(m, ps, paths, r) && r.ok
    ensures |r.names| == |paths|
    ensures var s := AsideBy(m, paths, r.names);
            Leaves(m, ps, paths, r) == CommitsOf(s.nodes, ps, |ps|) - Stashes(s.moved)
  {
  }

  /** A plan that is not plannable has a run that goes wrong. */
  lemma UnplannableBreaks(m: Nodes, ps: seq<Pending>, removed: seq<Path>, names: seq<Path>) returns (r: Run)
    requires Owned(m, ps) && FreshNames(m, AtRisk(m, ps, PathList(ps, removed)), names)
    requires !Plannable(m, ps, removed)
    ensures Possible(m, ps, PathList(ps, removed), r)
    ensures !Right(m, ps, removed, r.ok, Leaves(m, ps, PathList(ps, removed), r))
  {
    var paths := PathList(ps, removed);
    var front, exposed := AtRisk(m, ps, paths), Exposed(m, ps, paths);
    if x :| x in Temps(ps) && x in PathSet(front) {
      r := ListedTempBreaks(m, ps, removed, names, x);
    } else {
      var i, q :| Clash(m, front, exposed, i, q);
      hide *;
      RiskHasNoDirectory(m, ps, paths);
      ExposedListed(m, ps, removed);
      ClashPaths(m, front, exposed, i, q);
      if q in m {
        r := EarlierBreaks(m, ps, removed, names, i, q);
      } else if q in front[i..] {
        r := LaterBreaks(m, ps, removed, names, i, q);
      } else {
        r := FinalBreaks(m, ps, removed, names, i, q);
      }
    }
  }

  /**
   The exact boundary: with new files of its own, and a free name left for each path at risk, a plan is
   all or nothing in every run if and only if it is plannable.
   */
  lemma ExactBoundary(m: Nodes, ps: seq<Pending>, removed: seq<Path>, names: seq<Path>)
    requires Owned(m, ps) && FreshNames(m, AtRisk(m, ps, PathList(ps, removed)), names)
    ensures Temps(ps) <= m.Keys && (Plannable(m, ps, removed) <==> AlwaysRight(m, ps, removed))
  {
    OwnedKeys(m, ps);
    hide Plannable, Possible, Leaves, Right, Owned, FreshNames, Temps, PathList, AtRisk;
    var paths := PathList(ps, removed);
    if Plannable(m, ps, removed) {
      forall r | Possible(m, ps, paths, r)
        ensures Right(m, ps, removed, r.ok, Leaves(m, ps, paths, r))
      {
        PlannableIsRight(m, ps, removed, r);
      }
    } else {
      var r := UnplannableBreaks(m, ps, removed, names);
      assert Possible(m, ps, paths, r);
    }
  }
}
