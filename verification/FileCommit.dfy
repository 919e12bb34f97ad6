/**
 Transactional replacement of files in artd.

 The file system is a map from paths to nodes.  Status, temporary-file creation, rename and close may
 fail at any point without effect; as the program's own comments say, unlinking a file it created and
 moving a file back to where it was taken from do not fail.
 */
module FileCommit {
  import opened Wrappers

  type Path = string
  type Nodes = map<Path, Node>

  datatype Node = File(data: seq<bv8>) | Directory

  const ID_LENGTH := 6

  function BuildTempPath(finalPath: Path, id: string): Path {
    finalPath + "." + id + ".tmp"
  }

  /** `t` is a name that a temporary file for `p` may get. */
  predicate IsTempOf(t: Path, p: Path) {
    && |t| == |p| + 1 + ID_LENGTH + 4
    && t == BuildTempPath(p, t[|p| + 1..|p| + 1 + ID_LENGTH])
  }

  /** A rename where it is possible: the file is there, and no directory is in its way. */
  function TryRename(m: Nodes, a: Path, b: Path): Nodes {
    if a in m && (b in m ==> m[b].File?) then (m - {a})[b := m[a]] else m
  }

  class FileSystem {
    var nodes: Nodes
    /** How many calls have failed for no reason to be found in the nodes. */
    ghost var faults: nat

    constructor (nodes: Nodes)
      ensures this.nodes == nodes
    {
      this.nodes, faults := nodes, 0;
    }

    method Status(p: Path) returns (known: bool, node: Option<Node>)
      modifies this`faults
      ensures known ==> node == if p in nodes then Some(nodes[p]) else None
      ensures faults >= old(faults) && (!known ==> faults > old(faults))
    {
      known := *;
      node := if p in nodes then Some(nodes[p]) else None;
      if !known {
        faults := faults + 1;
      }
    }

    /** mkstemps: an empty file under a name that was not in use. */
    method MakeTemp(p: Path) returns (t: Option<Path>)
      modifies this
      ensures t.None? ==> nodes == old(nodes)
      ensures t.Some? ==> IsTempOf(t.value, p) && t.value !in old(nodes)
      ensures t.Some? ==> nodes == old(nodes)[t.value := File([])]
      ensures faults >= old(faults) && (t.None? ==> faults > old(faults))
    {
      var id: string := *;
      var name := BuildTempPath(p, id);
      if |id| != ID_LENGTH || name in nodes {
        faults := faults + 1;
        return None;
      }
      assert name[|p| + 1..|p| + 1 + ID_LENGTH] == id;
      nodes := nodes[name := File([])];
      return Some(name);
    }

    method Rename(a: Path, b: Path) returns (ok: bool)
      modifies this
      ensures !ok ==> nodes == old(nodes)
      ensures ok ==> a in old(nodes) && (b in old(nodes) ==> old(nodes)[b].File?)
      ensures ok ==> nodes == (old(nodes) - {a})[b := old(nodes)[a]]
      ensures faults >= old(faults)
      ensures !ok ==> faults > old(faults) || a !in old(nodes) || (b in old(nodes) && old(nodes)[b].Directory?)
    {
      ok := *;
      if a !in nodes || (b in nodes && nodes[b].Directory?) {
        ok := false;
      } else if ok {
        nodes := (nodes - {a})[b := nodes[a]];
      } else {
        faults := faults + 1;
      }
    }

    /** A rename that undoes an earlier one; if it cannot, that is only logged. */
    method MoveBack(a: Path, b: Path)
      modifies this`nodes
      ensures nodes == TryRename(old(nodes), a, b)
    {
      if a in nodes && (b in nodes ==> nodes[b].File?) {
        nodes := (nodes - {a})[b := nodes[a]];
      }
    }

    method UnlinkIfExists(p: Path)
      modifies this`nodes
      ensures nodes == old(nodes) - {p}
    {
      nodes := nodes - {p};
    }
  }

  /** A file being written at a temporary path, to be moved to its final path. */
  class NewFile {
    const fs: FileSystem
    const finalPath: Path
    const tempPath: Path
    var open: bool
    var committed: bool

    constructor (fs: FileSystem, finalPath: Path, tempPath: Path)
      ensures this.fs == fs && this.finalPath == finalPath && this.tempPath == tempPath
      ensures open && !committed
    {
      this.fs, this.finalPath, this.tempPath := fs, finalPath, tempPath;
      open, committed := true, false;
    }

    /** Creates the temporary file; a failure after mkstemps leaves no trace of it. */
    static method Create(fs: FileSystem, path: Path) returns (file: NewFile?)
      modifies fs
      ensures file == null ==> fs.nodes == old(fs.nodes)
      ensures file != null ==> fresh(file) && file.fs == fs && file.finalPath == path && file.open && !file.committed
      ensures file != null ==> IsTempOf(file.tempPath, path) && file.tempPath !in old(fs.nodes)
      ensures file != null ==> fs.nodes == old(fs.nodes)[file.tempPath := File([])]
      ensures fs.faults >= old(fs.faults) && (file == null ==> fs.faults > old(fs.faults))
    {
      var t := fs.MakeTemp(path);
      if t.None? {
        return null;
      }
      file := new NewFile(fs, path, t.value);
      var permissionsSet: bool := *;
      if !permissionsSet {
        fs.faults := fs.faults + 1;
        file.Cleanup();
        file := null;
      }
    }

    method Keep() returns (ok: bool)
      modifies this`open, fs`faults
      ensures !open
      ensures fs.faults >= old(fs.faults) && (!ok ==> fs.faults > old(fs.faults))
    {
      ok := *;
      open := false;
      if !ok {
        fs.faults := fs.faults + 1;
      }
    }

    method CommitOrAbandon() returns (ok: bool)
      modifies this, fs
      ensures !open
      ensures committed == (old(committed) || ok)
      ensures !ok ==> fs.nodes == old(fs.nodes) - {tempPath}
      ensures ok ==> tempPath in old(fs.nodes) && (finalPath in old(fs.nodes) ==> old(fs.nodes)[finalPath].File?)
      ensures ok ==> fs.nodes == (old(fs.nodes) - {tempPath})[finalPath := old(fs.nodes)[tempPath]]
      ensures fs.faults >= old(fs.faults)
      ensures !ok ==> fs.faults > old(fs.faults) || tempPath !in old(fs.nodes) ||
                      (finalPath in old(fs.nodes) && old(fs.nodes)[finalPath].Directory?)
    {
      ok := Keep();
      if ok {
        ok := fs.Rename(tempPath, finalPath);
      }
      if ok {
        committed := true;
      } else {
        fs.UnlinkIfExists(tempPath);
      }
    }

    method Cleanup()
      modifies this`open, fs`nodes
      ensures !open
      ensures fs.nodes == if old(open) then old(fs.nodes) - {tempPath} else old(fs.nodes)
    {
      if open {
        fs.UnlinkIfExists(tempPath);
        open := false;
      }
    }
  }

  // --- Specification --------------------------------------------------------------------------

  /** What a `NewFile` is to the transaction. */
  datatype Pending = Pending(finalPath: Path, tempPath: Path)

  ghost function Plan(files: seq<NewFile>): (ps: seq<Pending>)
    ensures |ps| == |files|
    ensures forall i :: 0 <= i < |ps| ==> ps[i] == Pending(files[i].finalPath, files[i].tempPath)
  {
    seq(|files|, i requires 0 <= i < |files| => Pending(files[i].finalPath, files[i].tempPath))
  }

  ghost function Temps(ps: seq<Pending>): set<Path> {
    set p | p in ps :: p.tempPath
  }

  ghost function Finals(ps: seq<Pending>): set<Path> {
    set p | p in ps :: p.finalPath
  }

  ghost function Listed(ps: seq<Pending>, removed: seq<Path>): set<Path> {
    Finals(ps) + set p | p in removed
  }

  /** New contents of the final paths; the last file wins when two share a path. */
  ghost function NewContents(m: Nodes, ps: seq<Pending>): Nodes
    requires Temps(ps) <= m.Keys
  {
    if ps == [] then map[]
    else
      var last := ps[|ps| - 1];
      assert last in ps && Temps(ps[..|ps| - 1]) <= Temps(ps);
      NewContents(m, ps[..|ps| - 1])[last.finalPath := m[last.tempPath]]
  }

  /** The file system after a successful transaction. */
  ghost function Committed(m: Nodes, ps: seq<Pending>, removed: seq<Path>): Nodes
    requires Temps(ps) <= m.Keys
  {
    m - Temps(ps) - Listed(ps, removed) + NewContents(m, ps)
  }

  /** The file system after a failed transaction. */
  ghost function Abandoned(m: Nodes, ps: seq<Pending>): Nodes {
    m - Temps(ps)
  }

  ghost function PathSet(paths: seq<Path>): set<Path> {
    set p | p in paths
  }

  /** The paths a transaction moves aside, in this order. */
  ghost function PathList(ps: seq<Pending>, removed: seq<Path>): seq<Path> {
    seq(|ps|, i requires 0 <= i < |ps| => ps[i].finalPath) + removed
  }

  /**
   Moving `paths[i]` aside under the name `q`, which is free at that point, gets into the way of
   another listed path: `q` is moved, moved back or committed while it holds the old file.
   */
  ghost predicate Clash(m: Nodes, paths: seq<Path>, finals: set<Path>, i: int, q: Path) {
    && 0 <= i < |paths|
    && paths[i] in m && paths[i] !in paths[..i] && IsTempOf(q, paths[i])
    && if q in m then q in paths[..i] else q in finals || q in paths[i..]
  }

  ghost predicate NoClash(m: Nodes, paths: seq<Path>, finals: set<Path>) {
    forall i, q :: !Clash(m, paths, finals, i, q)
  }

  /** The new files are there, each under its own name. */
  ghost predicate Owned(m: Nodes, ps: seq<Pending>) {
    && Temps(ps) <= m.Keys && !HasDirectory(m, Temps(ps))
    && (forall i, j :: 0 <= i < j < |ps| ==> ps[i].tempPath != ps[j].tempPath)
  }

  ghost predicate HasDirectory(m: Nodes, paths: set<Path>) {
    exists p :: p in paths && p in m && m[p].Directory?
  }

  /** Where the first directory is, at which moving files aside stops. */
  function FirstDirectory(m: Nodes, paths: seq<Path>): (k: nat)
    ensures k <= |paths| && (k < |paths| ==> paths[k] in m && m[paths[k]].Directory?)
    ensures forall j :: 0 <= j < k ==> paths[j] in m ==> m[paths[j]].File?
  {
    if paths == [] || (paths[0] in m && m[paths[0]].Directory?) then 0 else 1 + FirstDirectory(m, paths[1..])
  }

  /** How many paths may be dealt with when the transaction fails: without new files nothing fails behind the last. */
  ghost function Reach(m: Nodes, ps: seq<Pending>, paths: seq<Path>): (n: nat)
    ensures n <= |paths|
  {
    var k := FirstDirectory(m, paths);
    if k == |paths| && ps == [] && k > 0 then k - 1 else k
  }

  /** The paths that may have to be moved back. */
  ghost function AtRisk(m: Nodes, ps: seq<Pending>, paths: seq<Path>): seq<Path> {
    paths[..Reach(m, ps, paths)]
  }

  /** Nothing is committed unless all paths can be moved. */
  ghost function Exposed(m: Nodes, ps: seq<Pending>, paths: seq<Path>): set<Path> {
    if Reach(m, ps, paths) == |paths| then Finals(ps) else {}
  }

  /** What a transaction needs: of the paths it may move, none is a new file, and no free name clashes. */
  ghost predicate Plannable(m: Nodes, ps: seq<Pending>, removed: seq<Path>) {
    var paths := PathList(ps, removed);
    && Owned(m, ps)
    && Temps(ps) !! PathSet(AtRisk(m, ps, paths))
    && NoClash(m, AtRisk(m, ps, paths), Exposed(m, ps, paths))
  }

  // --- Moving old files aside -----------------------------------------------------------------

  datatype Moved = Moved(original: Path, temp: Path)

  ghost function Originals(moved: seq<Moved>): set<Path> {
    set x | x in moved :: x.original
  }

  ghost function Stashes(moved: seq<Moved>): set<Path> {
    set x | x in moved :: x.temp
  }

  /** The moved files, under their temporary names. */
  ghost function Stash(m: Nodes, moved: seq<Moved>): Nodes
    requires Originals(moved) <= m.Keys
  {
    if moved == [] then map[]
    else
      assert moved[0] in moved && Originals(moved[1..]) <= Originals(moved);
      Stash(m, moved[1..])[moved[0].temp := m[moved[0].original]]
  }

  /** A record of moves from `m`: each original once, to a name that was free. */
  ghost predicate MovedFrom(m: Nodes, moved: seq<Moved>) {
    && Originals(moved) <= m.Keys
    && Stashes(moved) !! m.Keys
    && (forall i :: 0 <= i < |moved| ==> m[moved[i].original].File?)
    && (forall i, j :: 0 <= i < j < |moved| ==> moved[i].original != moved[j].original && moved[i].temp != moved[j].temp)
  }

  lemma {:induction false} StashAppend(m: Nodes, moved: seq<Moved>, x: Moved)
    requires Originals(moved + [x]) <= m.Keys
    requires x.temp !in Stashes(moved)
    ensures Originals(moved) <= m.Keys
    ensures Stash(m, moved + [x]) == Stash(m, moved)[x.temp := m[x.original]]
    decreases |moved|
  {
    assert forall y :: y in moved ==> y in moved + [x];
    if moved == [] {
      assert [] + [x] == [x];
      assert [x][1..] == [];
    } else {
      assert (moved + [x])[1..] == moved[1..] + [x];
      assert moved[0] in moved;
      assert Originals(moved[1..] + [x]) <= Originals(moved + [x]);
      StashAppend(m, moved[1..], x);
    }
  }

  lemma {:induction false} StashKeys(m: Nodes, moved: seq<Moved>)
    requires Originals(moved) <= m.Keys
    ensures Stash(m, moved).Keys == Stashes(moved)
    decreases |moved|
  {
    if moved != [] {
      assert moved == [moved[0]] + moved[1..];
      assert Originals(moved[1..]) <= Originals(moved);
      StashKeys(m, moved[1..]);
      assert Stashes(moved) == Stashes(moved[1..]) + {moved[0].temp};
    }
  }

  /** The file system `m` with the recorded files moved aside. */
  ghost function Aside(m: Nodes, moved: seq<Moved>): Nodes
    requires Originals(moved) <= m.Keys
  {
    m - Originals(moved) + Stash(m, moved)
  }

  lemma MovedAppend(m: Nodes, moved: seq<Moved>, x: Moved)
    requires MovedFrom(m, moved)
    requires x.original in m && x.original !in Originals(moved) && m[x.original].File?
    requires x.temp !in m && x.temp !in Stashes(moved)
    ensures MovedFrom(m, moved + [x])
    ensures Originals(moved + [x]) == Originals(moved) + {x.original}
    ensures Stashes(moved + [x]) == Stashes(moved) + {x.temp}
  {
    var all := moved + [x];
    assert forall y :: y in all <==> y in moved || y == x;
    assert Originals(all) == Originals(moved) + {x.original};
    assert Stashes(all) == Stashes(moved) + {x.temp};
    forall i | 0 <= i < |moved|
      ensures all[i].original != x.original && all[i].temp != x.temp
    {
      assert moved[i] in moved;
    }
  }

  lemma AsideAppend(m: Nodes, moved: seq<Moved>, x: Moved)
    requires MovedFrom(m, moved)
    requires x.original in m && x.original !in Originals(moved) && m[x.original].File?
    requires x.temp !in m && x.temp !in Stashes(moved)
    ensures MovedFrom(m, moved + [x])
    ensures Aside(m, moved + [x]) == (Aside(m, moved) - {x.original})[x.temp := m[x.original]]
  {
    MovedAppend(m, moved, x);
    StashAppend(m, moved, x);
    StashKeys(m, moved);
  }

  datatype Progress = Progress(nodes: Nodes, moved: seq<Moved>)

  /** The first of `paths` is moved aside if it is there. */
  function AfterFirst(s: Progress, paths: seq<Path>, names: seq<Path>): Progress
    requires |names| == |paths| > 0
  {
    if paths[0] in s.nodes
    then Progress((s.nodes - {paths[0]})[names[0] := s.nodes[paths[0]]], s.moved + [Moved(paths[0], names[0])])
    else s
  }

  /** Moving `paths` aside without a failure when mkstemps picks `names`. */
  function MoveUnder(s: Progress, paths: seq<Path>, names: seq<Path>): Progress
    requires |names| == |paths|
    decreases |paths|
  {
    if paths == [] then s else MoveUnder(AfterFirst(s, paths, names), paths[1..], names[1..])
  }

  lemma {:induction false} MoveSplit(s: Progress, paths: seq<Path>, names: seq<Path>, k: nat)
    requires |names| == |paths| && k <= |paths|
    ensures MoveUnder(s, paths, names) == MoveUnder(MoveUnder(s, paths[..k], names[..k]), paths[k..], names[k..])
    decreases |paths|
  {
    if k > 0 {
      MoveSplit(AfterFirst(s, paths, names), paths[1..], names[1..], k - 1);
      assert paths[..k][1..] == paths[1..][..k - 1] && names[..k][1..] == names[1..][..k - 1];
    } else {
      assert paths[..0] == [] && paths[0..] == paths && names[0..] == names;
    }
  }

  /** The state when it is the turn of `paths[k]`. */
  ghost function Until(m: Nodes, paths: seq<Path>, names: seq<Path>, k: nat): Progress
    requires |names| == |paths| && k <= |paths|
  {
    MoveUnder(Progress(m, []), paths[..k], names[..k])
  }

  lemma UntilStep(m: Nodes, paths: seq<Path>, names: seq<Path>, k: nat)
    requires |names| == |paths| && k < |paths|
    ensures Until(m, paths, names, k + 1) == AfterFirst(Until(m, paths, names, k), paths[k..], names[k..])
  {
    var a, b := paths[..k + 1], names[..k + 1];
    MoveSplit(Progress(m, []), a, b, k);
    assert a[..k] == paths[..k] && b[..k] == names[..k];
    assert a[k..][0] == paths[k] && b[k..][0] == names[k] && a[k..][1..] == [] && b[k..][1..] == [];
  }

  /** `p` is a file and can be moved to `t`. */
  predicate CanMove(nodes: Nodes, p: Path, t: Path) {
    p in nodes ==> nodes[p].File? && IsTempOf(t, p) && t !in nodes
  }

  /** A choice that mkstemps can make, in a run that moves only files: each name is free when it is picked. */
  ghost predicate CanPick(m: Nodes, paths: seq<Path>, names: seq<Path>) {
    && |names| == |paths|
    && forall k :: 0 <= k < |paths| ==> CanMove(Until(m, paths, names, k).nodes, paths[k], names[k])
  }

  /** One more path, moved under the name `x` if it is there. */
  lemma PickMore(m: Nodes, paths: seq<Path>, names: seq<Path>, x: Path)
    requires |names| < |paths| && CanPick(m, paths[..|names|], names)
    requires CanMove(MoveUnder(Progress(m, []), paths[..|names|], names).nodes, paths[|names|], x)
    ensures CanPick(m, paths[..|names| + 1], names + [x])
    ensures MoveUnder(Progress(m, []), paths[..|names| + 1], names + [x]) ==
            AfterFirst(MoveUnder(Progress(m, []), paths[..|names|], names), [paths[|names|]], [x])
  {
    hide MoveUnder, CanMove, Until, AfterFirst, CanPick;
    var n := |names|;
    var a, b := paths[..n + 1], names + [x];
    assert a[..n] == paths[..n] && b[..n] == names;
    UntilAll(m, a, b, n + 1);
    UntilAll(m, a, b, n);
    UntilStep(m, a, b, n);
    assert a[n..] == [paths[n]] && b[n..] == [x];
    CanPickMore(m, a, b);
  }

  lemma CanPickMore(m: Nodes, paths: seq<Path>, names: seq<Path>)
    requires |names| == |paths| > 0
    requires var n := |paths| - 1;
             CanPick(m, paths[..n], names[..n]) && CanMove(Until(m, paths, names, n).nodes, paths[n], names[n])
    ensures CanPick(m, paths, names)
  {
    hide MoveUnder, CanMove, Until;
    var n := |paths| - 1;
    forall k | 0 <= k < n
      ensures CanMove(Until(m, paths, names, k).nodes, paths[k], names[k])
    {
      UntilPrefix(m, paths, names, n, k);
      assert paths[..n][k] == paths[k] && names[..n][k] == names[k];
    }
  }

  lemma UntilAll(m: Nodes, paths: seq<Path>, names: seq<Path>, k: nat)
    requires |names| == |paths| && k <= |paths|
    ensures Until(m, paths, names, k) == MoveUnder(Progress(m, []), paths[..k], names[..k])
    ensures k == |paths| ==> paths[..k] == paths && names[..k] == names
  {
  }

  lemma UntilPrefix(m: Nodes, paths: seq<Path>, names: seq<Path>, n: nat, k: nat)
    requires |names| == |paths| && k <= n <= |paths|
    ensures Until(m, paths, names, k) == Until(m, paths[..n], names[..n], k)
  {
    assert paths[..n][..k] == paths[..k] && names[..n][..k] == names[..k];
  }

  /** Some listed files are aside: `moved` records them, and none is where a new file goes. */
  ghost predicate MovingAside(m: Nodes, moved: seq<Moved>, listed: set<Path>, finals: set<Path>, nodes: Nodes) {
    && MovedFrom(m, moved)
    && nodes == Aside(m, moved)
    && Originals(moved) <= listed
    && Stashes(moved) !! finals
  }

  /** The first `k` paths are dealt with, and no later one holds a moved file. */
  ghost predicate MovedUpTo(m: Nodes, moved: seq<Moved>, paths: seq<Path>, k: nat)
    requires k <= |paths|
  {
    && Originals(moved) == m.Keys * PathSet(paths[..k])
    && Stashes(moved) !! PathSet(paths[k..])
  }

  lemma NextUntouched(m: Nodes, moved: seq<Moved>, paths: seq<Path>, finals: set<Path>, nodes: Nodes, k: nat)
    requires MovingAside(m, moved, PathSet(paths), finals, nodes)
    requires k < |paths| && MovedUpTo(m, moved, paths, k)
    ensures paths[k] in nodes ==> paths[k] in m && nodes[paths[k]] == m[paths[k]]
    ensures paths[k] in nodes ==> paths[k] !in Originals(moved) && paths[k] !in paths[..k]
    ensures paths[k] !in nodes ==> paths[k] !in m || paths[k] in Originals(moved)
  {
    StashKeys(m, moved);
    assert paths[k..][0] == paths[k];
  }

  /** One more file moved to a free name that does not clash. */
  lemma MovingAsideStep(m: Nodes, moved: seq<Moved>, paths: seq<Path>, finals: set<Path>, nodes: Nodes, k: nat, t: Path)
    requires MovingAside(m, moved, PathSet(paths), finals, nodes)
    requires k < |paths| && MovedUpTo(m, moved, paths, k)
    requires paths[k] in nodes && nodes[paths[k]].File? && t !in nodes
    requires IsTempOf(t, paths[k]) && NoClash(m, paths, finals)
    ensures MovingAside(m, moved + [Moved(paths[k], t)], PathSet(paths), finals, (nodes - {paths[k]})[t := nodes[paths[k]]])
    ensures MovedUpTo(m, moved + [Moved(paths[k], t)], paths, k + 1)
  {
    hide IsTempOf;
    var p := paths[k];
    NextUntouched(m, moved, paths, finals, nodes, k);
    FreeName(m, moved, paths, finals, nodes, k, t);
    MovedAppend(m, moved, Moved(p, t));
    AsideAppend(m, moved, Moved(p, t));
    UpToStep(paths, k);
  }

  lemma FreeName(m: Nodes, moved: seq<Moved>, paths: seq<Path>, finals: set<Path>, nodes: Nodes, k: nat, t: Path)
    requires MovingAside(m, moved, PathSet(paths), finals, nodes)
    requires k < |paths| && MovedUpTo(m, moved, paths, k)
    requires paths[k] in m && paths[k] !in paths[..k] && t !in nodes
    requires IsTempOf(t, paths[k]) && !Clash(m, paths, finals, k, t)
    ensures t !in m && t !in Stashes(moved) && t !in finals && t !in paths[k..]
  {
    hide IsTempOf;
    StashKeys(m, moved);
    assert t in m ==> t in Originals(moved);
  }

  lemma UpToStep(paths: seq<Path>, k: nat)
    requires k < |paths|
    ensures PathSet(paths[..k + 1]) == PathSet(paths[..k]) + {paths[k]}
    ensures PathSet(paths[k..]) == PathSet(paths[k + 1..]) + {paths[k]}
  {
    assert paths[..k + 1] == paths[..k] + [paths[k]];
    assert paths[k..] == [paths[k]] + paths[k + 1..];
  }

  lemma NothingToMove(m: Nodes, moved: seq<Moved>, paths: seq<Path>, finals: set<Path>, nodes: Nodes, k: nat)
    requires MovingAside(m, moved, PathSet(paths), finals, nodes)
    requires k < |paths| && MovedUpTo(m, moved, paths, k)
    requires paths[k] !in nodes
    ensures MovedUpTo(m, moved, paths, k + 1)
  {
    NextUntouched(m, moved, paths, finals, nodes, k);
    UpToStep(paths, k);
  }

  lemma NothingMoved(m: Nodes, paths: seq<Path>, finals: set<Path>)
    ensures MovingAside(m, [], PathSet(paths), finals, m)
    ensures MovedUpTo(m, [], paths, 0)
  {
    assert m - Originals([]) + map[] == m;
    assert paths[..0] == [];
  }

  /** Moves one old file aside, or fails and changes nothing. */
  method MoveOneAside(fs: FileSystem, p: Path) returns (ok: bool, moved: Option<Moved>)
    modifies fs
    ensures moved.None? ==> fs.nodes == old(fs.nodes)
    ensures ok && moved.None? ==> p !in fs.nodes
    ensures moved.Some? ==> ok && moved.value.original == p && IsTempOf(moved.value.temp, p)
    ensures moved.Some? ==> p in old(fs.nodes) && old(fs.nodes)[p].File? && moved.value.temp !in old(fs.nodes)
    ensures moved.Some? ==> fs.nodes == (old(fs.nodes) - {p})[moved.value.temp := old(fs.nodes)[p]]
    ensures fs.faults >= old(fs.faults)
    ensures !ok ==> fs.faults > old(fs.faults) || (p in old(fs.nodes) && old(fs.nodes)[p].Directory?)
  {
    var known, node := fs.Status(p);
    if !known || node == Some(Directory) {
      return false, None;
    }
    if node.None? {
      return true, None;
    }
    var temp := fs.MakeTemp(p);
    if temp.None? {
      return false, None;
    }
    var renamed := fs.Rename(p, temp.value);
    if !renamed {
      fs.UnlinkIfExists(temp.value);
      return false, None;
    }
    return true, Some(Moved(p, temp.value));
  }

  /** Moves the old files aside under names that mkstemps picks, until one of them cannot be moved. */
  method MoveAside(fs: FileSystem, paths: seq<Path>) returns (ok: bool, moved: seq<Moved>, ghost names: seq<Path>)
    modifies fs
    ensures if ok then |names| == |paths| else |names| < |paths|
    ensures CanPick(old(fs.nodes), paths[..|names|], names)
    ensures MoveUnder(Progress(old(fs.nodes), []), paths[..|names|], names) == Progress(fs.nodes, moved)
    ensures fs.faults >= old(fs.faults)
    ensures !ok ==> fs.faults > old(fs.faults) || (paths[|names|] in fs.nodes && fs.nodes[paths[|names|]].Directory?)
  {
    ghost var m := fs.nodes;
    moved, names := [], [];
    NothingPicked(m, paths);
    hide MoveUnder, CanPick, IsTempOf;
    for k := 0 to |paths|
      invariant fs.faults >= old(fs.faults)
      invariant |names| == k && CanPick(m, paths[..k], names)
      invariant MoveUnder(Progress(m, []), paths[..k], names) == Progress(fs.nodes, moved)
    {
      var done, one := MoveOneAside(fs, paths[k]);
      if !done {
        return false, moved, names;
      }
      ghost var name := if one.Some? then one.value.temp else "";
      PickMore(m, paths, names, name);
      names := names + [name];
      if one.Some? {
        moved := moved + [one.value];
      }
    }
    ok := true;
  }

  lemma NothingPicked(m: Nodes, paths: seq<Path>)
    ensures CanPick(m, paths[..0], []) && MoveUnder(Progress(m, []), paths[..0], []) == Progress(m, [])
  {
  }

  lemma AllDealtWith(m: Nodes, moved: seq<Moved>, paths: seq<Path>)
    requires MovedUpTo(m, moved, paths, |paths|)
    ensures Originals(moved) == m.Keys * PathSet(paths)
  {
    assert paths[..|paths|] == paths;
  }

  // --- What the moves come to ------------------------------------------------------------------

  /** When no name clashes, the record says what was moved where. */
  lemma {:induction false} RunAside(m: Nodes, paths: seq<Path>, names: seq<Path>, finals: set<Path>, k: nat)
    requires CanPick(m, paths, names) && NoClash(m, paths, finals) && k <= |paths|
    ensures var s := Until(m, paths, names, k);
            MovingAside(m, s.moved, PathSet(paths), finals, s.nodes) && MovedUpTo(m, s.moved, paths, k)
  {
    hide MovingAside, MovedUpTo, NoClash, MoveUnder, IsTempOf;
    if k == 0 {
      NothingMoved(m, paths, finals);
      NothingPicked(m, paths);
    } else {
      RunAside(m, paths, names, finals, k - 1);
      UntilStep(m, paths, names, k - 1);
      var s := Until(m, paths, names, k - 1);
      assert CanMove(s.nodes, paths[k - 1], names[k - 1]);
      if paths[k - 1] in s.nodes {
        MovingAsideStep(m, s.moved, paths, finals, s.nodes, k - 1, names[k - 1]);
      } else {
        NothingToMove(m, s.moved, paths, finals, s.nodes, k - 1);
      }
    }
  }

  lemma NoClashBefore(m: Nodes, paths: seq<Path>, finals: set<Path>, n: nat, fewer: set<Path>)
    requires NoClash(m, paths, finals) && n <= |paths| && fewer <= finals
    ensures NoClash(m, paths[..n], fewer)
  {
    hide IsTempOf;
    forall i, q
      ensures !Clash(m, paths[..n], fewer, i, q)
    {
      if 0 <= i < n {
        assert paths[..n][..i] == paths[..i] && paths[..n][i..] == paths[i..n];
        assert q in paths[i..n] ==> q in paths[i..];
        assert Clash(m, paths[..n], fewer, i, q) ==> Clash(m, paths, finals, i, q);
      }
    }
  }

  /** What is not listed yet stays as it is. */
  lemma {:induction false} NodeStays(m: Nodes, paths: seq<Path>, names: seq<Path>, k: nat, x: Path)
    requires CanPick(m, paths, names) && k <= |paths| && x in m && x !in paths[..k]
    ensures SameAt(m, Until(m, paths, names, k).nodes, x)
  {
    hide MoveUnder, IsTempOf;
    if k == 0 {
      NothingPicked(m, paths);
    } else {
      assert paths[..k] == paths[..k - 1] + [paths[k - 1]];
      NodeStays(m, paths, names, k - 1, x);
      UntilStep(m, paths, names, k - 1);
      assert CanMove(Until(m, paths, names, k - 1).nodes, paths[k - 1], names[k - 1]);
    }
  }

  ghost predicate SameAt(a: Nodes, b: Nodes, x: Path) {
    (x in a <==> x in b) && (x in a ==> a[x] == b[x])
  }

  /** Moving aside does not get past a directory. */
  lemma StopsAtDirectory(m: Nodes, paths: seq<Path>, names: seq<Path>)
    requires |names| <= |paths| && CanPick(m, paths[..|names|], names)
    ensures |names| <= FirstDirectory(m, paths)
  {
    var n, k := |names|, FirstDirectory(m, paths);
    if k < n {
      var a := paths[..n];
      forall j | 0 <= j < k
        ensures a[j] != a[k]
      {
        assert paths[j] in m ==> m[paths[j]].File?;
      }
      DirectoryBlocks(m, a, names, k);
    }
  }

  lemma DirectoryBlocks(m: Nodes, paths: seq<Path>, names: seq<Path>, k: nat)
    requires k < |paths| == |names| && paths[k] in m && m[paths[k]].Directory? && paths[k] !in paths[..k]
    ensures !CanPick(m, paths, names)
  {
    if CanPick(m, paths, names) {
      NodeStays(m, paths, names, k, paths[k]);
    }
  }

  /** No run makes a directory. */
  lemma {:induction false} DirectoriesAreOld(m: Nodes, paths: seq<Path>, names: seq<Path>, k: nat, x: Path)
    requires CanPick(m, paths, names) && k <= |paths|
    requires x in Until(m, paths, names, k).nodes && Until(m, paths, names, k).nodes[x].Directory?
    ensures x in m && m[x].Directory?
  {
    hide MoveUnder, IsTempOf;
    if k == 0 {
      NothingPicked(m, paths);
    } else {
      UntilStep(m, paths, names, k - 1);
      assert CanMove(Until(m, paths, names, k - 1).nodes, paths[k - 1], names[k - 1]);
      DirectoriesAreOld(m, paths, names, k - 1, x);
    }
  }

  /** Unlinking what was moved aside leaves what was not listed, whatever the names. */
  lemma {:induction false} StashesGone(m: Nodes, paths: seq<Path>, names: seq<Path>, k: nat)
    requires CanPick(m, paths, names) && k <= |paths|
    ensures var s := Until(m, paths, names, k);
            s.nodes - Stashes(s.moved) == m - PathSet(paths[..k])
  {
    hide MoveUnder, IsTempOf, Stashes, PathSet;
    if k == 0 {
      NothingPicked(m, paths);
      NoneGone(m, paths);
    } else {
      StashesGone(m, paths, names, k - 1);
      UntilStep(m, paths, names, k - 1);
      UpToStep(paths, k - 1);
      var s := Until(m, paths, names, k - 1);
      assert CanMove(s.nodes, paths[k - 1], names[k - 1]);
      StashesMore(s.moved, Moved(paths[k - 1], names[k - 1]));
      OneMoreGone(m, PathSet(paths[..k - 1]), s.nodes, Stashes(s.moved), paths[k - 1], names[k - 1]);
    }
  }

  lemma OneMoreGone(m: Nodes, gone: set<Path>, nodes: Nodes, stashes: set<Path>, p: Path, t: Path)
    requires nodes - stashes == m - gone
    ensures p in nodes && t !in nodes ==> (nodes - {p})[t := nodes[p]] - (stashes + {t}) == m - (gone + {p})
    ensures p !in nodes ==> nodes - stashes == m - (gone + {p})
  {
    assert p !in nodes ==> p !in m - gone;
    assert m - (gone + {p}) == m - gone - {p};
    if p in nodes && t !in nodes {
      assert (nodes - {p})[t := nodes[p]] - (stashes + {t}) == nodes - stashes - {p};
    }
  }

  lemma NoneGone(m: Nodes, paths: seq<Path>)
    ensures m - Stashes([]) == m - PathSet(paths[..0])
  {
  }

  lemma StashesMore(moved: seq<Moved>, x: Moved)
    ensures Stashes(moved + [x]) == Stashes(moved) + {x.temp}
  {
    assert forall y :: y in moved + [x] <==> y in moved || y == x;
  }

  // --- Committing new files -------------------------------------------------------------------

  /** The file system once the first `c` new files are in place, `d` of them closed for good. */
  ghost function Installed(base: Nodes, m: Nodes, ps: seq<Pending>, c: nat, d: nat): Nodes
    requires Temps(ps) <= m.Keys
    requires c <= d <= |ps|
  {
    TempsPrefix(ps, c);
    base - Temps(ps[..d]) + NewContents(m, ps[..c])
  }

  lemma TempsPrefix(ps: seq<Pending>, c: nat)
    requires c <= |ps|
    ensures Temps(ps[..c]) <= Temps(ps)
    ensures Finals(ps[..c]) <= Finals(ps)
  {
  }

  lemma TempsStep(ps: seq<Pending>, c: nat)
    requires c < |ps|
    ensures Temps(ps[..c + 1]) == Temps(ps[..c]) + {ps[c].tempPath}
    ensures Finals(ps[..c + 1]) == Finals(ps[..c]) + {ps[c].finalPath}
  {
    assert ps[..c + 1] == ps[..c] + [ps[c]];
  }

  lemma {:induction false} NewContentsKeys(m: Nodes, ps: seq<Pending>)
    requires Temps(ps) <= m.Keys
    ensures NewContents(m, ps).Keys == Finals(ps)
    decreases |ps|
  {
    if ps != [] {
      var n := |ps| - 1;
      TempsPrefix(ps, n);
      TempsStep(ps, n);
      assert ps[..n + 1] == ps;
      NewContentsKeys(m, ps[..n]);
    }
  }

  /** The new files of a plan, as they stand on top of `base`. */
  ghost predicate Ready(base: Nodes, m: Nodes, ps: seq<Pending>) {
    && Temps(ps) <= m.Keys
    && Temps(ps) !! Finals(ps)
    && (forall i, j :: 0 <= i < j < |ps| ==> ps[i].tempPath != ps[j].tempPath)
    && (forall i :: 0 <= i < |ps| ==> ps[i].tempPath in base && base[ps[i].tempPath] == m[ps[i].tempPath])
  }

  lemma NewContentsStep(m: Nodes, ps: seq<Pending>, c: nat)
    requires Temps(ps) <= m.Keys
    requires c < |ps|
    ensures Temps(ps[..c]) <= m.Keys && Temps(ps[..c + 1]) <= m.Keys && ps[c].tempPath in m
    ensures NewContents(m, ps[..c + 1]) == NewContents(m, ps[..c])[ps[c].finalPath := m[ps[c].tempPath]]
  {
    TempsPrefix(ps, c);
    TempsPrefix(ps, c + 1);
    TempsStep(ps, c);
    assert ps[..c + 1][..c] == ps[..c];
  }

  lemma NextTemp(base: Nodes, m: Nodes, ps: seq<Pending>, c: nat)
    requires Ready(base, m, ps)
    requires c < |ps|
    ensures ps[c].tempPath !in Temps(ps[..c])
    ensures ps[c].tempPath !in Finals(ps[..c])
  {
    TempsPrefix(ps, c);
    assert ps[c] in ps;
    assert ps[c].tempPath in Temps(ps);
  }

  lemma InstalledStep(base: Nodes, m: Nodes, ps: seq<Pending>, c: nat)
    requires Ready(base, m, ps)
    requires c < |ps|
    ensures ps[c].tempPath in Installed(base, m, ps, c, c)
    ensures Installed(base, m, ps, c, c + 1) == Installed(base, m, ps, c, c) - {ps[c].tempPath}
    ensures Installed(base, m, ps, c + 1, c + 1) ==
            (Installed(base, m, ps, c, c) - {ps[c].tempPath})[ps[c].finalPath := Installed(base, m, ps, c, c)[ps[c].tempPath]]
  {
    TempsPrefix(ps, c);
    NextTemp(base, m, ps, c);
    NewContentsStep(m, ps, c);
    NewContentsKeys(m, ps[..c]);
    TempsStep(ps, c);
    ReplaceOne(base, Temps(ps[..c]), NewContents(m, ps[..c]), ps[c].tempPath, ps[c].finalPath);
  }

  /** Removing one more key below an overlay, and putting its value on top. */
  lemma ReplaceOne(base: Nodes, gone: set<Path>, overlay: Nodes, t: Path, f: Path)
    requires t in base && t !in gone && t !in overlay
    ensures t in base - gone + overlay && (base - gone + overlay)[t] == base[t]
    ensures base - (gone + {t}) + overlay == (base - gone + overlay) - {t}
    ensures base - (gone + {t}) + overlay[f := base[t]] == (base - gone + overlay - {t})[f := base[t]]
  {
    assert base - (gone + {t}) + overlay == (base - gone + overlay) - {t};
  }

  lemma InstalledNone(base: Nodes, m: Nodes, ps: seq<Pending>)
    requires Ready(base, m, ps)
    ensures Installed(base, m, ps, 0, 0) == base
  {
    assert ps[..0] == [];
    assert base - Temps([]) == base;
  }

  lemma {:induction false} NewContentsValues(m: Nodes, ps: seq<Pending>, p: Path)
    requires Temps(ps) <= m.Keys && p in NewContents(m, ps) && NewContents(m, ps)[p].Directory?
    ensures HasDirectory(m, Temps(ps))
    decreases |ps|
  {
    var last := ps[|ps| - 1];
    assert last in ps && last.tempPath in Temps(ps);
    if p != last.finalPath {
      TempsPrefix(ps, |ps| - 1);
      NewContentsValues(m, ps[..|ps| - 1], p);
    }
  }

  /** What is at the next final path, if anything, is a new file that was committed before. */
  lemma InstalledFinal(base: Nodes, m: Nodes, ps: seq<Pending>, c: nat)
    requires Ready(base, m, ps) && base.Keys !! Finals(ps) && c < |ps|
    ensures var nodes := Installed(base, m, ps, c, c);
            && ps[c].tempPath in nodes
            && (ps[c].finalPath in nodes && nodes[ps[c].finalPath].Directory? ==> HasDirectory(m, Temps(ps)))
  {
    NextTemp(base, m, ps, c);
    TempsPrefix(ps, c);
    assert ps[c] in ps && ps[c].finalPath in Finals(ps);
    var nodes := Installed(base, m, ps, c, c);
    if ps[c].finalPath in nodes && nodes[ps[c].finalPath].Directory? {
      NewContentsValues(m, ps[..c], ps[c].finalPath);
    }
  }

  /** The first `c` files are committed, and all from `d` on still open. */
  ghost predicate Stage(files: seq<NewFile>, c: int, d: int)
    reads files
  {
    forall j :: 0 <= j < |files| ==> files[j].committed == (j < c) && files[j].open == (j >= d)
  }

  ghost predicate Distinct(files: seq<NewFile>) {
    forall i, j :: 0 <= i < j < |files| ==> files[i] != files[j]
  }

  lemma OthersDiffer(files: seq<NewFile>, i: nat)
    requires Distinct(files) && i < |files|
    ensures forall j :: 0 <= j < |files| && j != i ==> files[j] != files[i]
  {
  }

  predicate CanCommit(m: Nodes, p: Pending) {
    p.tempPath in m && (p.finalPath in m ==> m[p.finalPath].File?)
  }

  /** The file system after the first `c` commits. */
  function CommitsOf(m: Nodes, ps: seq<Pending>, c: nat): Nodes
    requires c <= |ps|
  {
    if c == 0 then m else TryRename(CommitsOf(m, ps, c - 1), ps[c - 1].tempPath, ps[c - 1].finalPath)
  }

  /** The first `c` commits are possible, one after the other. */
  ghost predicate CommitsGo(m: Nodes, ps: seq<Pending>, c: nat)
    requires c <= |ps|
  {
    forall j :: 0 <= j < c ==> CanCommit(CommitsOf(m, ps, j), ps[j])
  }

  lemma CommitsGoOn(m: Nodes, ps: seq<Pending>, c: nat)
    requires c < |ps| && CommitsGo(m, ps, c) && CanCommit(CommitsOf(m, ps, c), ps[c])
    ensures CommitsGo(m, ps, c + 1)
  {
    hide CanCommit, CommitsOf;
  }

  lemma CommitsStep(m: Nodes, ps: seq<Pending>, c: nat)
    requires c < |ps|
    ensures CommitsOf(m, ps, 0) == m
    ensures CommitsOf(m, ps, c + 1) == TryRename(CommitsOf(m, ps, c), ps[c].tempPath, ps[c].finalPath)
  {
  }

  /** Commits one more new file, or loses its temporary. */
  method CommitNext(fs: FileSystem, files: seq<NewFile>, i: nat, ghost ps: seq<Pending>, ghost base: Nodes)
    returns (ok: bool)
    requires i < |files| && files[i].fs == fs && Distinct(files) && Stage(files, i, i)
    requires ps == Plan(files) && fs.nodes == CommitsOf(base, ps, i)
    modifies fs, files[i]
    ensures Stage(files, if ok then i + 1 else i, i + 1)
    ensures ok ==> CanCommit(CommitsOf(base, ps, i), ps[i]) && fs.nodes == CommitsOf(base, ps, i + 1)
    ensures !ok ==> fs.nodes == CommitsOf(base, ps, i) - {ps[i].tempPath}
    ensures fs.faults >= old(fs.faults)
    ensures !ok ==> fs.faults > old(fs.faults) || !CanCommit(CommitsOf(base, ps, i), ps[i])
  {
    hide CommitsOf, Distinct;
    CommitsStep(base, ps, i);
    OthersDiffer(files, i);
    ok := files[i].CommitOrAbandon();
  }

  lemma StageEnds(files: seq<NewFile>)
    ensures Stage(files, 0, 0) ==> Stage(files, -1, 0)
    ensures Stage(files, |files|, |files|) ==> Stage(files, |files|, |files| + 1)
    ensures Stage(files, |files|, |files| + 1) ==> forall i :: 0 <= i < |files| ==> !files[i].open && files[i].committed
  {
  }

  method CommitEach(fs: FileSystem, files: seq<NewFile>, ghost ps: seq<Pending>) returns (ok: bool, ghost c: nat)
    requires forall i :: 0 <= i < |files| ==> files[i].fs == fs
    requires Distinct(files) && Stage(files, 0, 0)
    requires ps == Plan(files)
    modifies fs, files
    ensures c <= |files| && (ok <==> c == |files|)
    ensures Stage(files, c, c + 1)
    ensures CommitsGo(old(fs.nodes), ps, c)
    ensures fs.nodes == if ok then CommitsOf(old(fs.nodes), ps, c) else CommitsOf(old(fs.nodes), ps, c) - {ps[c].tempPath}
    ensures fs.faults >= old(fs.faults)
    ensures !ok ==> fs.faults > old(fs.faults) || !CanCommit(CommitsOf(old(fs.nodes), ps, c), ps[c])
  {
    hide Stage, Distinct, CanCommit, CommitsOf, CommitsGo, Plan;
    ghost var base := fs.nodes;
    CommitsNone(base, ps);
    for i := 0 to |files|
      invariant fs.faults >= old(fs.faults)
      invariant fs.nodes == CommitsOf(base, ps, i)
      invariant CommitsGo(base, ps, i)
      invariant Stage(files, i, i)
    {
      var done := CommitNext(fs, files, i, ps, base);
      if !done {
        return false, i;
      }
      CommitsGoOn(base, ps, i);
    }
    StageEnds(files);
    return true, |files|;
  }

  /** With the old files aside the commits install the new ones. */
  lemma {:induction false} CommitsInstall(base: Nodes, m: Nodes, ps: seq<Pending>, c: nat)
    requires Ready(base, m, ps) && base.Keys !! Finals(ps) && !HasDirectory(m, Temps(ps)) && c <= |ps|
    ensures CommitsOf(base, ps, c) == Installed(base, m, ps, c, c)
    ensures c < |ps| ==> CanCommit(CommitsOf(base, ps, c), ps[c])
  {
    hide Ready, Installed, HasDirectory, Temps, Finals, CommitsOf;
    if c == 0 {
      InstalledNone(base, m, ps);
      CommitsNone(base, ps);
    } else {
      CommitsInstall(base, m, ps, c - 1);
      CommitsStep(base, ps, c - 1);
      InstalledStep(base, m, ps, c - 1);
    }
    if c < |ps| {
      InstalledFinal(base, m, ps, c);
    }
  }

  lemma CommitsNone(m: Nodes, ps: seq<Pending>)
    ensures CommitsOf(m, ps, 0) == m && CommitsGo(m, ps, 0)
  {
  }

  // --- Rolling back ---------------------------------------------------------------------------

  /** What the clean-up guard unlinks for the first `k` new files when `c` of them were committed. */
  ghost function Dropped(ps: seq<Pending>, c: int, k: nat): set<Path>
    requires k <= |ps|
  {
    if k == 0 then {}
    else Dropped(ps, c, k - 1) +
         if k - 1 < c then {ps[k - 1].finalPath} else if k - 1 > c then {ps[k - 1].tempPath} else {}
  }

  method DropNewFiles(fs: FileSystem, files: seq<NewFile>, ghost ps: seq<Pending>, ghost c: int)
    requires forall i :: 0 <= i < |files| ==> files[i].fs == fs
    requires ps == Plan(files)
    requires Distinct(files) && Stage(files, c, c + 1)
    modifies fs, files
    ensures forall i :: 0 <= i < |files| ==> !files[i].open
    ensures fs.nodes == old(fs.nodes) - Dropped(ps, c, |files|) && fs.faults == old(fs.faults)
  {
    for k := 0 to |files|
      invariant forall j :: 0 <= j < |files| ==> files[j].committed == (j < c) && files[j].open == (j > c && j >= k)
      invariant fs.nodes == old(fs.nodes) - Dropped(ps, c, k) && fs.faults == old(fs.faults)
    {
      hide Dropped, Plan;
      DropMore(old(fs.nodes), ps, c, k);
      if files[k].committed {
        fs.UnlinkIfExists(files[k].finalPath);
      } else {
        files[k].Cleanup();
      }
    }
  }

  lemma DropMore(m: Nodes, ps: seq<Pending>, c: int, k: nat)
    requires k < |ps|
    ensures k < c ==> m - Dropped(ps, c, k + 1) == m - Dropped(ps, c, k) - {ps[k].finalPath}
    ensures k > c ==> m - Dropped(ps, c, k + 1) == m - Dropped(ps, c, k) - {ps[k].tempPath}
    ensures k == c ==> m - Dropped(ps, c, k + 1) == m - Dropped(ps, c, k)
  {
  }

  lemma {:induction false} DroppedExact(ps: seq<Pending>, c: int, k: nat, p: Path)
    requires k <= |ps|
    ensures p in Dropped(ps, c, k) <==>
            || (exists i :: 0 <= i < k && i < c && p == ps[i].finalPath)
            || (exists i :: 0 <= i < k && i > c && p == ps[i].tempPath)
  {
    if k > 0 {
      DroppedExact(ps, c, k - 1, p);
    }
  }

  lemma {:induction false} StashIgnores(m: Nodes, gone: set<Path>, moved: seq<Moved>)
    requires Originals(moved) <= m.Keys - gone
    ensures Stash(m - gone, moved) == Stash(m, moved)
    decreases |moved|
  {
    if moved != [] {
      assert moved[0] in moved && Originals(moved[1..]) <= Originals(moved);
      StashIgnores(m, gone, moved[1..]);
    }
  }

  /** Taking away files that are not recorded commutes with moving the recorded ones aside. */
  lemma MovedFromLess(m: Nodes, gone: set<Path>, moved: seq<Moved>)
    requires MovedFrom(m, moved) && gone <= m.Keys && Originals(moved) !! gone
    ensures Originals(moved) <= m.Keys - gone && MovedFrom(m - gone, moved)
    ensures Aside(m, moved) - gone == Aside(m - gone, moved)
  {
    StashIgnores(m, gone, moved);
    StashKeys(m, moved);
    forall i | 0 <= i < |moved|
      ensures moved[i].original in m - gone && m[moved[i].original].File?
    {
      assert moved[i] in moved;
    }
    hide Originals, Stashes, Stash;
    TakeBelow(m, Originals(moved), Stash(m, moved), gone);
  }

  lemma TakeBelow(m: Nodes, moved: set<Path>, stash: Nodes, gone: set<Path>)
    requires stash.Keys !! gone
    ensures m - moved + stash - gone == m - gone - moved + stash
  {
  }

  lemma InstalledDropped(base: Nodes, m: Nodes, ps: seq<Pending>, c: nat)
    requires Ready(base, m, ps)
    requires base.Keys !! Finals(ps)
    requires c < |ps|
    ensures Installed(base, m, ps, c, c + 1) - Dropped(ps, c, |ps|) == base - Temps(ps)
  {
    TempsPrefix(ps, c);
    TempsPrefix(ps, c + 1);
    NewContentsKeys(m, ps[..c]);
    var l := Installed(base, m, ps, c, c + 1) - Dropped(ps, c, |ps|);
    forall p: Path
      ensures p in l <==> p in base - Temps(ps)
      ensures p in l ==> l[p] == base[p]
    {
      DroppedExact(ps, c, |ps|, p);
      DroppedCovers(ps, c, p);
    }
  }

  /** After `c + 1` temporaries are gone, dropping removes the rest and the committed finals. */
  lemma DroppedCovers(ps: seq<Pending>, c: nat, p: Path)
    requires c < |ps|
    ensures p in Finals(ps[..c]) ==> p in Dropped(ps, c, |ps|)
    ensures p in Temps(ps) <==> p in Temps(ps[..c + 1]) || (exists i :: c < i < |ps| && p == ps[i].tempPath)
    ensures p in Dropped(ps, c, |ps|) ==> p in Finals(ps) || p in Temps(ps)
  {
    hide Dropped, Finals, Temps;
    DroppedExact(ps, c, |ps|, p);
    FinalsAt(ps[..c], p);
    FinalsAt(ps, p);
    TempsAt(ps, p);
    TempsAt(ps[..c + 1], p);
    assert forall i :: 0 <= i < c ==> ps[..c][i] == ps[i];
    assert forall i :: 0 <= i < c + 1 ==> ps[..c + 1][i] == ps[i];
  }

  lemma FinalsAt(ps: seq<Pending>, p: Path)
    ensures p in Finals(ps) <==> exists i :: 0 <= i < |ps| && p == ps[i].finalPath
  {
    if p in Finals(ps) {
      var x :| x in ps && x.finalPath == p;
    }
    if i :| 0 <= i < |ps| && p == ps[i].finalPath {
      assert ps[i] in ps;
    }
  }

  lemma TempsAt(ps: seq<Pending>, p: Path)
    ensures p in Temps(ps) <==> exists i :: 0 <= i < |ps| && p == ps[i].tempPath
  {
    if p in Temps(ps) {
      var x :| x in ps && x.tempPath == p;
    }
    if i :| 0 <= i < |ps| && p == ps[i].tempPath {
      assert ps[i] in ps;
    }
  }

  /** The guard's attempts to move the recorded files back, first record first. */
  function MovedBackInOrder(m: Nodes, moved: seq<Moved>): Nodes
    decreases |moved|
  {
    if moved == [] then m
    else MovedBackInOrder(TryRename(m, moved[0].temp, moved[0].original), moved[1..])
  }

  method MoveAllBack(fs: FileSystem, moved: seq<Moved>)
    modifies fs`nodes
    ensures fs.nodes == MovedBackInOrder(old(fs.nodes), moved)
  {
    ghost var back := MovedBackInOrder(fs.nodes, moved);
    assert moved[0..] == moved;
    for k := 0 to |moved|
      invariant MovedBackInOrder(fs.nodes, moved[k..]) == back
    {
      assert moved[k..][1..] == moved[k + 1..];
      assert moved[k..][0] == moved[k];
      fs.MoveBack(moved[k].temp, moved[k].original);
    }
    assert moved[|moved|..] == [];
  }

  /** Files that are aside under fresh names all come back. */
  lemma {:induction false} BackRestores(m: Nodes, moved: seq<Moved>)
    requires MovedFrom(m, moved)
    ensures MovedBackInOrder(Aside(m, moved), moved) == m
    decreases |moved|
  {
    if moved == [] {
      assert m - Originals([]) + map[] == m;
    } else {
      hide Aside, MovedFrom;
      AsideFirst(m, moved);
      BackRestores(m, moved[1..]);
    }
  }

  /** Moving the first recorded file back. */
  lemma AsideFirst(m: Nodes, moved: seq<Moved>)
    requires moved != []
    requires MovedFrom(m, moved)
    ensures MovedFrom(m, moved[1..])
    ensures moved[0].temp in Aside(m, moved) && moved[0].original !in Aside(m, moved)
    ensures Aside(m, moved[1..]) ==
            (Aside(m, moved) - {moved[0].temp})[moved[0].original := Aside(m, moved)[moved[0].temp]]
  {
    var x, rest := moved[0], moved[1..];
    assert moved == [x] + rest;
    assert Originals(moved) == Originals(rest) + {x.original};
    assert Stashes(moved) == Stashes(rest) + {x.temp};
    FirstIsApart(m, moved);
    StashKeys(m, rest);
    PutBack(m, Originals(rest), Stash(m, rest), x.original, x.temp);
  }

  lemma PutBack(m: Nodes, gone: set<Path>, stash: Nodes, o: Path, t: Path)
    requires o in m && o !in gone
    requires t !in m && t !in stash && stash.Keys !! m.Keys
    ensures (m - (gone + {o}) + stash[t := m[o]] - {t})[o := m[o]] == m - gone + stash
  {
    assert m - (gone + {o}) + stash[t := m[o]] - {t} == m - (gone + {o}) + stash;
  }

  lemma FirstIsApart(m: Nodes, moved: seq<Moved>)
    requires moved != []
    requires MovedFrom(m, moved)
    ensures MovedFrom(m, moved[1..])
    ensures moved[0].original !in Originals(moved[1..])
    ensures moved[0].temp !in Stashes(moved[1..])
    ensures moved[0].temp !in m && moved[0].original in m
  {
    var rest := moved[1..];
    assert forall y :: y in rest ==> y in moved;
    assert Originals(rest) <= Originals(moved) && Stashes(rest) <= Stashes(moved);
    assert moved[0] in moved;
    assert moved[0].original in Originals(moved) && moved[0].temp in Stashes(moved);
  }

  method UnlinkStashes(fs: FileSystem, moved: seq<Moved>)
    modifies fs`nodes
    ensures fs.nodes == old(fs.nodes) - Stashes(moved)
  {
    for k := 0 to |moved|
      invariant fs.nodes == old(fs.nodes) - Stashes(moved[..k])
    {
      assert moved[..k + 1] == moved[..k] + [moved[k]];
      fs.UnlinkIfExists(moved[k].temp);
    }
    assert moved[..|moved|] == moved;
  }

  // --- The transaction ------------------------------------------------------------------------

  lemma AsideIsReady(m: Nodes, ps: seq<Pending>, moved: seq<Moved>, listed: set<Path>, base: Nodes)
    requires Owned(m, ps) && Temps(ps) !! listed && Finals(ps) <= listed
    requires MovingAside(m, moved, listed, Finals(ps), base)
    ensures Ready(base, m, ps)
  {
    StashKeys(m, moved);
    forall i | 0 <= i < |ps|
      ensures ps[i].tempPath in base && base[ps[i].tempPath] == m[ps[i].tempPath]
    {
      assert ps[i] in ps;
      assert ps[i].tempPath in Temps(ps);
    }
  }

  lemma {:induction false} DroppedNone(ps: seq<Pending>, k: nat)
    requires k <= |ps|
    ensures Dropped(ps, -1, k) == Temps(ps[..k])
  {
    if k > 0 {
      DroppedNone(ps, k - 1);
      TempsStep(ps, k - 1);
    }
  }

  /** What remains once the stashes of a complete run are unlinked. */
  lemma InstalledAll(m: Nodes, ps: seq<Pending>, removed: seq<Path>, moved: seq<Moved>, base: Nodes)
    requires Temps(ps) <= m.Keys
    requires MovingAside(m, moved, Listed(ps, removed), Finals(ps), base)
    requires Originals(moved) == m.Keys * Listed(ps, removed)
    ensures Installed(base, m, ps, |ps|, |ps|) - Stashes(moved) == Committed(m, ps, removed)
  {
    hide Originals, Stashes, Listed, Temps, Finals, NewContents, Stash;
    assert ps[..|ps|] == ps;
    NewContentsKeys(m, ps);
    DropBelow(base, Temps(ps), NewContents(m, ps), Stashes(moved));
    StashesUnlinked(m, moved);
    RemoveListed(m, Temps(ps), Listed(ps, removed), Originals(moved));
  }

  lemma StashesUnlinked(m: Nodes, moved: seq<Moved>)
    requires MovedFrom(m, moved)
    ensures Aside(m, moved) - Stashes(moved) == m - Originals(moved)
  {
    StashKeys(m, moved);
  }

  lemma RemoveListed(m: Nodes, temps: set<Path>, listed: set<Path>, originals: set<Path>)
    requires originals == m.Keys * listed
    ensures m - originals - temps == m - temps - listed
  {
  }

  /** Nothing is left where the new files go. */
  lemma FinalsFree(m: Nodes, ps: seq<Pending>, removed: seq<Path>, moved: seq<Moved>, base: Nodes)
    requires MovingAside(m, moved, Listed(ps, removed), Finals(ps), base)
    requires Originals(moved) == m.Keys * Listed(ps, removed)
    ensures base.Keys !! Finals(ps)
  {
    StashKeys(m, moved);
  }

  lemma DropBelow(base: Nodes, gone: set<Path>, overlay: Nodes, dropped: set<Path>)
    requires overlay.Keys !! dropped
    ensures base - gone + overlay - dropped == base - dropped - gone + overlay
  {
  }

  /** The clean-up guard: drops the new files and moves the old ones back, as far as it can. */
  method RollBack(fs: FileSystem, files: seq<NewFile>, moved: seq<Moved>, ghost c: int)
    requires forall i :: 0 <= i < |files| ==> files[i].fs == fs
    requires Distinct(files) && Stage(files, c, c + 1)
    modifies fs, files
    ensures forall i :: 0 <= i < |files| ==> !files[i].open
    ensures fs.nodes == MovedBackInOrder(old(fs.nodes) - Dropped(Plan(files), c, |files|), moved)
    ensures fs.faults == old(fs.faults)
  {
    hide Stage, Distinct, Dropped, MovedBackInOrder, Plan;
    DropNewFiles(fs, files, Plan(files), c);
    MoveAllBack(fs, moved);
  }

  method PathsToMove(files: seq<NewFile>, toRemove: seq<Path>) returns (paths: seq<Path>)
    ensures paths == PathList(Plan(files), toRemove)
  {
    var finals := seq(|files|, i requires 0 <= i < |files| => files[i].finalPath);
    paths := finals + toRemove;
  }

  lemma PathListed(ps: seq<Pending>, removed: seq<Path>)
    ensures PathSet(PathList(ps, removed)) == Listed(ps, removed)
    ensures forall f :: f in Finals(ps) ==> f in PathList(ps, removed)
  {
    var finals := PathList(ps, [])[..|ps|];
    assert PathList(ps, removed) == finals + removed;
    forall p: Path
      ensures p in finals <==> p in Finals(ps)
    {
      FinalsAt(ps, p);
      if i :| 0 <= i < |ps| && p == ps[i].finalPath {
        assert finals[i] == p;
      }
    }
  }

  /** How a transaction went: the names picked before it stopped moving, the files committed, the end. */
  datatype Run = Run(names: seq<Path>, committed: nat, ok: bool)

  ghost function AsideBy(m: Nodes, paths: seq<Path>, names: seq<Path>): Progress
    requires |names| <= |paths|
  {
    MoveUnder(Progress(m, []), paths[..|names|], names)
  }

  /** A run that the code may take: it moves and commits what it can, and may fail at any call. */
  ghost predicate Possible(m: Nodes, ps: seq<Pending>, paths: seq<Path>, r: Run) {
    && |r.names| <= |paths| && CanPick(m, paths[..|r.names|], r.names)
    && r.committed <= |ps|
    && (if |r.names| < |paths| then !r.ok && r.committed == 0 else r.ok <==> r.committed == |ps|)
    && CommitsGo(AsideBy(m, paths, r.names).nodes, ps, r.committed)
  }

  /** What the run leaves. */
  ghost function Leaves(m: Nodes, ps: seq<Pending>, paths: seq<Path>, r: Run): Nodes
    requires Possible(m, ps, paths, r)
  {
    var s := AsideBy(m, paths, r.names);
    if |r.names| < |paths| then MovedBackInOrder(s.nodes - Temps(ps), s.moved)
    else
      var done := CommitsOf(s.nodes, ps, r.committed);
      if r.ok then done - Stashes(s.moved)
      else MovedBackInOrder(done - {ps[r.committed].tempPath} - Dropped(ps, r.committed, |ps|), s.moved)
  }

  /** All or nothing. */
  ghost predicate Right(m: Nodes, ps: seq<Pending>, removed: seq<Path>, ok: bool, nodes: Nodes)
    requires Temps(ps) <= m.Keys
  {
    nodes == if ok then Committed(m, ps, removed) else Abandoned(m, ps)
  }

  // --- Why a plan without a clash ends right ------------------------------------------------------

  /** As far as a run gets with its moves, it stays among the paths at risk. */
  lemma WithinReach(m: Nodes, ps: seq<Pending>, paths: seq<Path>, r: Run)
    requires Possible(m, ps, paths, r)
    ensures !r.ok ==> |r.names| <= Reach(m, ps, paths)
    ensures |r.names| == |paths| && ps != [] ==> Reach(m, ps, paths) == |paths|
  {
    hide CanPick, CanCommit, CommitsGo, CommitsOf, FirstDirectory;
    StopsAtDirectory(m, paths, r.names);
  }

  lemma AsideWithoutClash(m: Nodes, ps: seq<Pending>, paths: seq<Path>, names: seq<Path>, finals: set<Path>)
    requires |names| <= Reach(m, ps, paths) && CanPick(m, paths[..|names|], names)
    requires NoClash(m, AtRisk(m, ps, paths), Exposed(m, ps, paths)) && finals <= Exposed(m, ps, paths)
    ensures var s, front := AsideBy(m, paths, names), PathSet(paths[..|names|]);
            MovingAside(m, s.moved, front, finals, s.nodes) && Originals(s.moved) == m.Keys * front
  {
    hide *;
    var n, k := |names|, Reach(m, ps, paths);
    RiskIs(m, ps, paths);
    NoClashBefore(m, paths[..k], Exposed(m, ps, paths), n, finals);
    assert paths[..k][..n] == paths[..n];
    RunAside(m, paths[..n], names, finals, n);
    UntilAll(m, paths[..n], names, n);
    AsideByIs(m, paths, names);
    AllDealtWith(m, AsideBy(m, paths, names).moved, paths[..n]);
  }

  lemma AsideByIs(m: Nodes, paths: seq<Path>, names: seq<Path>)
    requires |names| <= |paths|
    ensures AsideBy(m, paths, names) == MoveUnder(Progress(m, []), paths[..|names|], names)
  {
  }

  lemma RiskIs(m: Nodes, ps: seq<Pending>, paths: seq<Path>)
    ensures AtRisk(m, ps, paths) == paths[..Reach(m, ps, paths)]
    ensures Exposed(m, ps, paths) == if Reach(m, ps, paths) == |paths| then Finals(ps) else {}
  {
  }

  /** Dropping the temporaries and moving back restores what was there. */
  lemma BackFromAside(m: Nodes, ps: seq<Pending>, moved: seq<Moved>, listed: set<Path>, finals: set<Path>, base: Nodes)
    requires Temps(ps) <= m.Keys && Temps(ps) !! listed && MovingAside(m, moved, listed, finals, base)
    ensures MovedBackInOrder(base - Temps(ps), moved) == Abandoned(m, ps)
  {
    hide Temps, Originals, Stashes, MovedFrom, Aside, MovedBackInOrder;
    MovedFromLess(m, Temps(ps), moved);
    BackRestores(m - Temps(ps), moved);
  }

  lemma RightBeforeCommits(m: Nodes, ps: seq<Pending>, removed: seq<Path>, r: Run)
    requires Plannable(m, ps, removed) && Possible(m, ps, PathList(ps, removed), r)
    requires |r.names| < |PathList(ps, removed)|
    ensures Right(m, ps, removed, r.ok, Leaves(m, ps, PathList(ps, removed), r))
  {
    var paths := PathList(ps, removed);
    hide CanPick, CanCommit, CommitsGo, CommitsOf, NoClash, MovingAside, MovedBackInOrder, PathList, Temps, Originals;
    hide Reach, HasDirectory;
    WithinReach(m, ps, paths, r);
    AsideWithoutClash(m, ps, paths, r.names, {});
    PrefixListed(paths, |r.names|, Reach(m, ps, paths));
    var s := AsideBy(m, paths, r.names);
    BackFromAside(m, ps, s.moved, PathSet(paths[..|r.names|]), {}, s.nodes);
  }

  lemma PrefixListed(paths: seq<Path>, n: nat, k: nat)
    requires n <= k <= |paths|
    ensures PathSet(paths[..n]) <= PathSet(paths[..k])
    ensures k == |paths| ==> paths[..k] == paths
  {
    assert paths[..n] == paths[..k][..n];
  }

  /** Without new files a run that moves everything has nothing left to do but to unlink. */
  lemma RightWithoutFiles(m: Nodes, removed: seq<Path>, r: Run)
    requires Possible(m, [], PathList([], removed), r) && |r.names| == |PathList([], removed)|
    ensures Right(m, [], removed, r.ok, Leaves(m, [], PathList([], removed), r))
  {
    var paths := PathList([], removed);
    assert paths == removed && paths[..|paths|] == paths;
    StashesGone(m, paths, r.names, |paths|);
    UntilAll(m, paths, r.names, |paths|);
    assert m - Temps([]) - Listed([], removed) + map[] == m - PathSet(paths);
  }

  lemma RightAfterMoves(m: Nodes, ps: seq<Pending>, removed: seq<Path>, r: Run)
    requires Plannable(m, ps, removed) && Possible(m, ps, PathList(ps, removed), r)
    requires |r.names| == |PathList(ps, removed)| && ps != []
    ensures Right(m, ps, removed, r.ok, Leaves(m, ps, PathList(ps, removed), r))
    ensures !r.ok ==> CanCommit(CommitsOf(AsideBy(m, PathList(ps, removed), r.names).nodes, ps, r.committed), ps[r.committed])
  {
    var paths := PathList(ps, removed);
    hide CanPick, CanCommit, CommitsGo, CommitsOf, NoClash, MovingAside, MovedBackInOrder, PathList, Temps, Originals;
    hide Reach, Stashes;
    hide Committed, Listed, Finals, Dropped, HasDirectory;
    WithinReach(m, ps, paths, r);
    PathListed(ps, removed);
    PrefixListed(paths, |paths|, |paths|);
    AsideWithoutClash(m, ps, paths, r.names, Finals(ps));
    var s := AsideBy(m, paths, r.names);
    var c := r.committed;
    FinalsFree(m, ps, removed, s.moved, s.nodes);
    FinalsListed(ps, removed);
    AsideIsReady(m, ps, s.moved, Listed(ps, removed), s.nodes);
    CommitsInstall(s.nodes, m, ps, c);
    if r.ok {
      InstalledAll(m, ps, removed, s.moved, s.nodes);
    } else {
      InstalledStep(s.nodes, m, ps, c);
      InstalledDropped(s.nodes, m, ps, c);
      BackFromAside(m, ps, s.moved, Listed(ps, removed), Finals(ps), s.nodes);
    }
  }

  lemma FinalsListed(ps: seq<Pending>, removed: seq<Path>)
    ensures Finals(ps) <= Listed(ps, removed)
  {
  }

  /** For a plan without a clash, every run the code may take ends with all or nothing. */
  lemma PlannableIsRight(m: Nodes, ps: seq<Pending>, removed: seq<Path>, r: Run)
    requires Plannable(m, ps, removed) && Possible(m, ps, PathList(ps, removed), r)
    ensures Right(m, ps, removed, r.ok, Leaves(m, ps, PathList(ps, removed), r))
    ensures !r.ok && |r.names| == |PathList(ps, removed)| ==>
              CanCommit(CommitsOf(AsideBy(m, PathList(ps, removed), r.names).nodes, ps, r.committed), ps[r.committed])
  {
    assert Temps(ps) <= m.Keys;
    hide *;
    if |r.names| < |PathList(ps, removed)| {
      RightBeforeCommits(m, ps, removed, r);
    } else if ps == [] {
      RightWithoutFiles(m, removed, r);
    } else {
      RightAfterMoves(m, ps, removed, r);
    }
  }

  // --- The transaction ----------------------------------------------------------------------------

  /**
   Moves the old files aside, commits the new ones and unlinks the old, or rolls back: the result is the
   outcome of the run that was taken.  For a plan without a clash it is all or nothing, and only a
   failing call or a directory prevents the first.
   */
  method CommitAllOrAbandon(fs: FileSystem, files: seq<NewFile>, toRemove: seq<Path>) returns (ok: bool, ghost run: Run)
    requires forall i :: 0 <= i < |files| ==> files[i].fs == fs
    requires Distinct(files) && Stage(files, 0, 0)
    modifies fs, files
    ensures forall i :: 0 <= i < |files| ==> !files[i].open && (ok ==> files[i].committed)
    ensures Possible(old(fs.nodes), Plan(files), PathList(Plan(files), toRemove), run) && run.ok == ok
    ensures fs.nodes == Leaves(old(fs.nodes), Plan(files), PathList(Plan(files), toRemove), run)
    ensures fs.faults >= old(fs.faults)
    ensures Plannable(old(fs.nodes), Plan(files), toRemove) ==>
              && Temps(Plan(files)) <= old(fs.nodes).Keys
              && Right(old(fs.nodes), Plan(files), toRemove, ok, fs.nodes)
              && (!ok ==> fs.faults > old(fs.faults) || HasDirectory(old(fs.nodes), Listed(Plan(files), toRemove)))
  {
    hide *;
    ghost var m, ps := fs.nodes, Plan(files);
    var paths := PathsToMove(files, toRemove);
    var moved;
    ghost var names;
    ok, moved, names := MoveAside(fs, paths);
    ghost var base := fs.nodes;
    if !ok {
      StageEnds(files);
      RollBack(fs, files, moved, -1);
      run := Run(names, 0, false);
      StoppedMoving(m, ps, toRemove, paths, run, base, moved);
    } else {
      ghost var c;
      ok, c := CommitEach(fs, files, ps);
      run := Run(names, c, ok);
      StageEnds(files);
      WentOn(m, ps, paths, run, base, moved);
      if !ok {
        RollBack(fs, files, moved, c);
      } else {
        UnlinkStashes(fs, moved);
      }
    }
    if Plannable(m, ps, toRemove) {
      PlannableIsRight(m, ps, toRemove, run);
      PlanIsOwned(m, ps, toRemove);
    }
  }

  lemma PlanIsOwned(m: Nodes, ps: seq<Pending>, removed: seq<Path>)
    requires Plannable(m, ps, removed)
    ensures Temps(ps) <= m.Keys
  {
  }

  lemma StoppedMoving(m: Nodes, ps: seq<Pending>, removed: seq<Path>, paths: seq<Path>, r: Run, base: Nodes,
                      moved: seq<Moved>)
    requires |r.names| < |paths| && CanPick(m, paths[..|r.names|], r.names) && r.committed == 0 && !r.ok
    requires paths == PathList(ps, removed)
    requires MoveUnder(Progress(m, []), paths[..|r.names|], r.names) == Progress(base, moved)
    ensures Possible(m, ps, paths, r)
    ensures Leaves(m, ps, paths, r) == MovedBackInOrder(base - Dropped(ps, -1, |ps|), moved)
    ensures paths[|r.names|] in base && base[paths[|r.names|]].Directory? ==> HasDirectory(m, Listed(ps, removed))
  {
    hide CanPick, MoveUnder, MovedBackInOrder, Temps, Dropped;
    var n := |r.names|;
    DroppedNone(ps, |ps|);
    assert ps[..|ps|] == ps;
    if paths[n] in base && base[paths[n]].Directory? {
      UntilAll(m, paths[..n], r.names, n);
      DirectoriesAreOld(m, paths[..n], r.names, n, paths[n]);
      PathListed(ps, removed);
      assert paths[n] in PathSet(paths);
    }
  }

  lemma WentOn(m: Nodes, ps: seq<Pending>, paths: seq<Path>, r: Run, base: Nodes, moved: seq<Moved>)
    requires |r.names| == |paths| && CanPick(m, paths[..|r.names|], r.names)
    requires r.committed <= |ps| && (r.ok <==> r.committed == |ps|)
    requires MoveUnder(Progress(m, []), paths[..|r.names|], r.names) == Progress(base, moved)
    requires CommitsGo(base, ps, r.committed)
    ensures Possible(m, ps, paths, r) && AsideBy(m, paths, r.names).nodes == base
    ensures var done := CommitsOf(base, ps, r.committed);
            Leaves(m, ps, paths, r) ==
              if r.ok then done - Stashes(moved)
              else MovedBackInOrder(done - {ps[r.committed].tempPath} - Dropped(ps, r.committed, |ps|), moved)
  {
    hide CanPick, MoveUnder, MovedBackInOrder, CommitsOf, CommitsGo, Dropped, Stashes;
  }
}
