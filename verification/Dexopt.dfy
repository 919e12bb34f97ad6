/**
 The tail of artd's dexopt: creating output files, running the compiler under a cancellation signal,
 measuring sizes and committing.
 */
module Dexopt {
  import opened FileCommit
  import opened Wrappers

  // --- Cancellation ---------------------------------------------------------------------------

  /** What happened to a signal, in the order its mutex admits. */
  datatype Entry = Cancelled | Started(pid: nat) | Ended(pid: nat) | Killed(pid: nat)

  /** Processes bound to the signal after a history. */
  function Live(log: seq<Entry>): set<nat> {
    if log == [] then {} else LiveAfter(Live(log[..|log| - 1]), log[|log| - 1])
  }

  function LiveAfter(live: set<nat>, e: Entry): set<nat> {
    if e.Started? then live + {e.pid} else if e.Ended? then live - {e.pid} else live
  }

  /** `pid` was killed after it last started. */
  predicate KilledSinceStart(log: seq<Entry>, pid: nat) {
    log != [] &&
    var last := log[|log| - 1];
    last == Killed(pid) || (last != Started(pid) && KilledSinceStart(log[..|log| - 1], pid))
  }

  /** Every kill went to a process that had started and not ended. */
  ghost predicate KillsOnlyLive(log: seq<Entry>) {
    forall k :: 0 <= k < |log| && log[k].Killed? ==> log[k].pid in Live(log[..k])
  }

  /** Once cancelled, every live process has been killed, whether it started before or after. */
  ghost predicate CancelledKillsAll(log: seq<Entry>) {
    Cancelled in log ==> forall p :: p in Live(log) ==> KilledSinceStart(log, p)
  }

  lemma AppendEntry(log: seq<Entry>, e: Entry)
    ensures (log + [e])[..|log|] == log
    ensures Live(log + [e]) == LiveAfter(Live(log), e)
    ensures forall p :: KilledSinceStart(log + [e], p) <==> e == Killed(p) || (e != Started(p) && KilledSinceStart(log, p))
    ensures KillsOnlyLive(log) && (e.Killed? ==> e.pid in Live(log)) ==> KillsOnlyLive(log + [e])
    ensures Cancelled in log + [e] <==> Cancelled in log || e == Cancelled
  {
    assert (log + [e])[..|log|] == log;
    if KillsOnlyLive(log) && (e.Killed? ==> e.pid in Live(log)) {
      forall k | 0 <= k < |log + [e]| && (log + [e])[k].Killed?
        ensures (log + [e])[k].pid in Live((log + [e])[..k])
      {
        if k < |log| {
          assert (log + [e])[..k] == log[..k];
        }
      }
    }
  }

  /** The calls that were made, without the kills they led to. */
  function Calls(log: seq<Entry>): seq<Entry> {
    if log == [] then []
    else Calls(log[..|log| - 1]) + if log[|log| - 1].Killed? then [] else [log[|log| - 1]]
  }

  lemma CallsAppend(log: seq<Entry>, e: Entry)
    ensures Calls(log + [e]) == Calls(log) + if e.Killed? then [] else [e]
  {
    assert (log + [e])[..|log|] == log;
  }

  class CancellationSignal {
    var cancelled: bool
    var pids: set<nat>
    ghost var log: seq<Entry>

    ghost predicate Valid()
      reads this
    {
      && pids == Live(log)
      && (cancelled <==> Cancelled in log)
      && KillsOnlyLive(log)
      && CancelledKillsAll(log)
    }

    constructor ()
      ensures Valid() && log == []
    {
      cancelled, pids, log := false, {}, [];
    }

    method Kill(pid: nat)
      modifies this`log
      ensures log == old(log) + [Killed(pid)] && Calls(log) == Calls(old(log))
    {
      CallsAppend(log, Killed(pid));
      log := log + [Killed(pid)];
    }

    method Cancel()
      requires Valid()
      modifies this
      ensures Valid()
      ensures cancelled && pids == old(pids)
      ensures old(log) <= log && Calls(log) == Calls(old(log)) + [Cancelled]
    {
      hide Live, KilledSinceStart, KillsOnlyLive, Calls;
      AppendEntry(log, Cancelled);
      CallsAppend(log, Cancelled);
      cancelled := true;
      log := log + [Cancelled];
      var rest := pids;
      while rest != {}
        invariant rest <= pids == old(pids) == Live(log)
        invariant cancelled && Cancelled in log && KillsOnlyLive(log) && old(log) <= log
        invariant Calls(log) == Calls(old(log)) + [Cancelled]
        invariant forall p :: p in pids - rest ==> KilledSinceStart(log, p)
        decreases |rest|
      {
        var p :| p in rest;
        AppendEntry(log, Killed(p));
        Kill(p);
        rest := rest - {p};
      }
    }

    method OnStart(pid: nat)
      requires Valid()
      modifies this
      ensures Valid()
      ensures pids == old(pids) + {pid} && cancelled == old(cancelled)
      ensures old(log) <= log && Calls(log) == Calls(old(log)) + [Started(pid)]
    {
      hide Live, KilledSinceStart, KillsOnlyLive, Calls;
      AppendEntry(log, Started(pid));
      CallsAppend(log, Started(pid));
      pids := pids + {pid};
      log := log + [Started(pid)];
      if cancelled {
        AppendEntry(log, Killed(pid));
        Kill(pid);
      }
    }

    method OnEnd(pid: nat)
      requires Valid()
      modifies this
      ensures Valid()
      ensures pids == old(pids) - {pid} && cancelled == old(cancelled)
      ensures old(log) <= log && Calls(log) == Calls(old(log)) + [Ended(pid)]
    {
      AppendEntry(log, Ended(pid));
      CallsAppend(log, Ended(pid));
      pids := pids - {pid};
      log := log + [Ended(pid)];
    }
  }

  /** Any interleaving of the calls that share one signal: the log has all of them in order. */
  method RunSignal(calls: seq<Entry>) returns (signal: CancellationSignal)
    requires forall i :: 0 <= i < |calls| ==> !calls[i].Killed?
    ensures fresh(signal) && signal.Valid() && Calls(signal.log) == calls
  {
    signal := new CancellationSignal();
    for i := 0 to |calls|
      invariant signal.Valid() && fresh(signal)
      invariant Calls(signal.log) == calls[..i]
    {
      assert calls[..i + 1] == calls[..i] + [calls[i]];
      match calls[i]
      case Cancelled => signal.Cancel();
      case Started(pid) => signal.OnStart(pid);
      case Ended(pid) => signal.OnEnd(pid);
      case Killed(_) => assert false;
    }
    assert calls[..|calls|] == calls;
  }

  // --- Output files ---------------------------------------------------------------------------

  /** Extensions of the optimized code file. */
  predicate OatExtension(ext: string) {
    ext == "odex" || ext == "dex"
  }

  function OatPath(stem: string, ext: string): Path {
    stem + "." + ext
  }

  function VdexPath(stem: string): Path {
    stem + ".vdex"
  }

  function ArtPath(stem: string): Path {
    stem + ".art"
  }

  /** What the compiler writes when it succeeds. */
  datatype Artifacts = Artifacts(oat: seq<bv8>, vdex: seq<bv8>, art: seq<bv8>)

  /**
   How the surroundings treat one run: whether its inputs can be opened, whether and as what process
   the compiler starts and ends, when the signal is cancelled, and which sizes cannot be read.
   */
  datatype Surroundings = Surroundings(inputsOpen: bool, cancelBefore: bool, pid: Option<nat>, cancelDuring: bool,
                                       exit: Option<int>, cancelAfter: bool, unreadable: set<Path>)

  /** No exit code without a process, nor when it was killed or timed out. */
  function ExitCode(env: Surroundings): Option<int> {
    if env.pid.None? then None else env.exit
  }

  datatype Outcome = Failed | WasCancelled | Done(sizeBytes: int, sizeBeforeBytes: int)

  function Size(m: Nodes, p: Path): nat {
    if p in m && m[p].File? then |m[p].data| else 0
  }

  function TotalSize(m: Nodes, stem: string, ext: string): nat {
    Size(m, OatPath(stem, ext)) + Size(m, VdexPath(stem)) + Size(m, ArtPath(stem))
  }

  /** The file system after a run that succeeds. */
  function Optimized(m: Nodes, stem: string, ext: string, image: bool, out: Artifacts): Nodes {
    var two := m[OatPath(stem, ext) := File(out.oat)][VdexPath(stem) := File(out.vdex)];
    if image then two[ArtPath(stem) := File(out.art)] else two - {ArtPath(stem)}
  }

  lemma TempEnding(t: Path, p: Path)
    requires IsTempOf(t, p)
    ensures |t| > 0 && t[|t| - 1] == 'p'
  {
  }

  lemma PathsApart(stem: string, ext: string)
    requires OatExtension(ext)
    ensures OatPath(stem, ext) != VdexPath(stem) && OatPath(stem, ext) != ArtPath(stem) && VdexPath(stem) != ArtPath(stem)
    ensures forall q, p :: q in {OatPath(stem, ext), VdexPath(stem), ArtPath(stem)} ==> !IsTempOf(q, p)
  {
    var o, v, a := OatPath(stem, ext), VdexPath(stem), ArtPath(stem);
    assert v[|stem| + 1] == 'v' && a[|stem| + 1] == 'a' && o[|stem| + 1] == ext[0];
    assert o[|o| - 1] == 'x' && v[|v| - 1] == 'x' && a[|a| - 1] == 't';
    forall q, p | q in {o, v, a}
      ensures !IsTempOf(q, p)
    {
      if IsTempOf(q, p) {
        TempEnding(q, p);
      }
    }
  }

  /** The files created so far by one run: all of them open, and all that was added to `m`. */
  ghost predicate Building(m: Nodes, nodes: Nodes, ps: seq<Pending>) {
    && Temps(ps) !! m.Keys
    && Temps(ps) <= nodes.Keys
    && nodes - Temps(ps) == m
    && (forall i, j :: 0 <= i < j < |ps| ==> ps[i].tempPath != ps[j].tempPath)
    && (forall i :: 0 <= i < |ps| ==> IsTempOf(ps[i].tempPath, ps[i].finalPath))
  }

  ghost predicate AllOpen(fs: FileSystem, files: seq<NewFile>)
    reads files
  {
    && (forall i :: 0 <= i < |files| ==> files[i].fs == fs && files[i].open && !files[i].committed)
    && (forall i, j :: 0 <= i < j < |files| ==> files[i] != files[j])
  }

  lemma BuildingAppend(m: Nodes, nodes: Nodes, ps: seq<Pending>, p: Pending, nodes': Nodes)
    requires Building(m, nodes, ps)
    requires p.tempPath !in nodes && IsTempOf(p.tempPath, p.finalPath)
    requires nodes' == nodes[p.tempPath := File([])]
    ensures Building(m, nodes', ps + [p])
  {
    var all := ps + [p];
    assert Temps(all) == Temps(ps) + {p.tempPath} by {
      assert all[..|ps|] == ps && all[..|ps| + 1] == all;
      TempsStep(all, |ps|);
    }
    forall i | 0 <= i < |ps|
      ensures all[i].tempPath != p.tempPath
    {
      assert ps[i] in ps && ps[i].tempPath in Temps(ps);
    }
  }

  lemma BuildingNothing(m: Nodes)
    ensures Building(m, m, Plan([]))
  {
    assert m - Temps([]) == m;
  }

  ghost function FinalsOf(files: seq<NewFile>): seq<Path> {
    seq(|files|, i requires 0 <= i < |files| => files[i].finalPath)
  }

  /** Creates one more output if it is wanted and none has failed. */
  method AddFile(fs: FileSystem, ok: bool, files: seq<NewFile>, want: bool, path: Path, ghost m: Nodes)
    returns (ok': bool, files': seq<NewFile>)
    requires AllOpen(fs, files)
    requires Building(m, fs.nodes, Plan(files))
    modifies fs
    ensures Building(m, fs.nodes, Plan(files'))
    ensures AllOpen(fs, files')
    ensures forall f :: f in files' ==> f in files || fresh(f)
    ensures ok' ==> ok && FinalsOf(files') == FinalsOf(files) + if want then [path] else []
    ensures fs.faults >= old(fs.faults) && (ok && !ok' ==> fs.faults > old(fs.faults))
  {
    ok', files' := ok, files;
    if ok && want {
      ghost var before := fs.nodes;
      var file := NewFile.Create(fs, path);
      ok' := file != null;
      if file != null {
        files' := files + [file];
        BuildingAppend(m, before, Plan(files), Pending(path, file.tempPath), fs.nodes);
        assert Plan(files') == Plan(files) + [Pending(path, file.tempPath)];
      }
    }
  }

  ghost function OpenTemps(files: seq<NewFile>): set<Path>
    reads files
  {
    set i | 0 <= i < |files| && files[i].open :: files[i].tempPath
  }

  /** Destructors: files that are still open go away. */
  method Destroy(fs: FileSystem, files: seq<NewFile>)
    requires forall i :: 0 <= i < |files| ==> files[i].fs == fs
    requires forall i, j :: 0 <= i < j < |files| ==> files[i] != files[j]
    modifies fs`nodes, files
    ensures fs.nodes == old(fs.nodes) - old(OpenTemps(files))
  {
    for k := 0 to |files|
      invariant forall i :: k <= i < |files| ==> files[i].open == old(files[i].open)
      invariant fs.nodes == old(fs.nodes) - set i | 0 <= i < k && old(files[i].open) :: files[i].tempPath
    {
      files[k].Cleanup();
    }
  }

  /** Runs the compiler: whatever it does, it writes only to the files it was given. */
  method WriteOutputs(fs: FileSystem, files: seq<NewFile>, wanted: seq<seq<bv8>>, success: bool, ghost m: Nodes)
    requires AllOpen(fs, files)
    requires Building(m, fs.nodes, Plan(files))
    requires |wanted| <= |files|
    modifies fs`nodes
    ensures Building(m, fs.nodes, Plan(files))
    ensures success ==> forall k :: 0 <= k < |wanted| ==>
              files[k].tempPath in fs.nodes && fs.nodes[files[k].tempPath] == File(wanted[k])
  {
    ghost var ps := Plan(files);
    for k := 0 to |files|
      invariant Building(m, fs.nodes, ps)
      invariant success ==> forall j :: 0 <= j < k && j < |wanted| ==>
                  files[j].tempPath in fs.nodes && fs.nodes[files[j].tempPath] == File(wanted[j])
    {
      var data: seq<bv8> := *;
      if success && k < |wanted| {
        data := wanted[k];
      }
      assert ps[k] in ps && ps[k].tempPath in Temps(ps);
      fs.nodes := fs.nodes[files[k].tempPath := File(data)];
    }
  }

  method RunDex2oat(fs: FileSystem, files: seq<NewFile>, wanted: seq<seq<bv8>>, signal: CancellationSignal,
                    env: Surroundings,
                    ghost m: Nodes)
    returns (code: Option<int>)
    requires AllOpen(fs, files)
    requires Building(m, fs.nodes, Plan(files))
    requires |wanted| <= |files|
    requires signal.Valid()
    modifies fs`nodes, signal
    ensures Building(m, fs.nodes, Plan(files))
    ensures signal.Valid()
    ensures signal.cancelled ==
            (old(signal.cancelled) || env.cancelBefore || (env.pid.Some? && env.cancelDuring) || env.cancelAfter)
    ensures code == ExitCode(env)
    ensures code == Some(0) ==> forall k :: 0 <= k < |wanted| ==>
              files[k].tempPath in fs.nodes && fs.nodes[files[k].tempPath] == File(wanted[k])
  {
    if env.cancelBefore {
      signal.Cancel();
    }
    code := None;
    if env.pid.Some? {
      signal.OnStart(env.pid.value);
      if env.cancelDuring {
        signal.Cancel();
      }
      WriteOutputs(fs, files, wanted, env.exit == Some(0), m);
      signal.OnEnd(env.pid.value);
      code := env.exit;
    }
    if env.cancelAfter {
      signal.Cancel();
    }
  }

  function SumSizes(m: Nodes, ps: seq<Path>): nat {
    if ps == [] then 0 else SumSizes(m, ps[..|ps| - 1]) + Size(m, ps[|ps| - 1])
  }

  method GetSize(fs: FileSystem, p: Path, unreadable: set<Path>) returns (size: Option<nat>)
    ensures size == if p in fs.nodes && p !in unreadable && fs.nodes[p].File? then Some(|fs.nodes[p].data|) else None
  {
    if p in unreadable || p !in fs.nodes || fs.nodes[p].Directory? {
      return None;
    }
    return Some(|fs.nodes[p].data|);
  }

  /** Adds up file sizes; one that cannot be read counts as zero. */
  method AddSizes(fs: FileSystem, paths: seq<Path>, unreadable: set<Path>) returns (total: int)
    ensures total == SumSizes(fs.nodes - unreadable, paths)
  {
    total := 0;
    for k := 0 to |paths|
      invariant total == SumSizes(fs.nodes - unreadable, paths[..k])
    {
      assert paths[..k + 1][..k] == paths[..k];
      var size := GetSize(fs, paths[k], unreadable);
      if size.Some? {
        total := total + size.value;
      }
    }
    assert paths[..|paths|] == paths;
  }

  /** The plan of a run that has created its outputs. */
  ghost predicate OutputPlan(ps: seq<Pending>, stem: string, ext: string, image: bool) {
    && |ps| >= (if image then 3 else 2)
    && ps[0].finalPath == OatPath(stem, ext) && ps[1].finalPath == VdexPath(stem)
    && (image ==> ps[2].finalPath == ArtPath(stem))
  }

  function Removals(stem: string, image: bool): seq<Path> {
    if image then [] else [ArtPath(stem)]
  }

  function CommitCount(image: bool): nat {
    if image then 3 else 2
  }

  lemma OutputListed(ps: seq<Pending>, stem: string, ext: string, image: bool)
    requires OutputPlan(ps, stem, ext, image)
    ensures Listed(ps[..CommitCount(image)], Removals(stem, image)) == {OatPath(stem, ext), VdexPath(stem), ArtPath(stem)}
  {
    var qs := ps[..CommitCount(image)];
    assert qs == if image then [ps[0], ps[1], ps[2]] else [ps[0], ps[1]];
  }

  lemma OutputPlannable(m: Nodes, nodes: Nodes, ps: seq<Pending>, stem: string, ext: string, image: bool)
    requires OatExtension(ext)
    requires Building(m, nodes, ps)
    requires OutputPlan(ps, stem, ext, image) && !HasDirectory(nodes, Temps(ps[..CommitCount(image)]))
    ensures Plannable(nodes, ps[..CommitCount(image)], Removals(stem, image))
  {
    hide IsTempOf, Temps, Listed, OatPath, VdexPath, ArtPath, Removals, Finals, PathList, Reach, HasDirectory;
    var qs, paths := ps[..CommitCount(image)], PathList(ps[..CommitCount(image)], Removals(stem, image));
    TempsPrefix(ps, |qs|);
    OutputListed(ps, stem, ext, image);
    PathsApart(stem, ext);
    TempsApart(m, nodes, ps, stem, ext);
    PathListed(qs, Removals(stem, image));
    FinalsListed(qs, Removals(stem, image));
    PrefixListed(paths, Reach(nodes, qs, paths), |paths|);
    forall i, q
      ensures !Clash(nodes, AtRisk(nodes, qs, paths), Exposed(nodes, qs, paths), i, q)
    {
      NoTempClash(nodes, AtRisk(nodes, qs, paths), Exposed(nodes, qs, paths), i, q);
    }
  }

  /** A name that is none of the listed ones does not clash. */
  lemma NoTempClash(m: Nodes, paths: seq<Path>, finals: set<Path>, i: int, q: Path)
    requires forall x, p :: x in PathSet(paths) + finals ==> !IsTempOf(x, p)
    ensures !Clash(m, paths, finals, i, q)
  {
    hide IsTempOf;
    assert Clash(m, paths, finals, i, q) ==> q in PathSet(paths) + finals;
  }

  /** What the transaction leaves once the other temporaries are gone too. */
  lemma CommittedIsOptimized(m: Nodes, nodes: Nodes, ps: seq<Pending>, stem: string, ext: string, image: bool,
                             out: Artifacts, gone: set<Path>)
    requires OatExtension(ext)
    requires Building(m, nodes, ps)
    requires OutputPlan(ps, stem, ext, image)
    requires ps[0].tempPath in nodes && nodes[ps[0].tempPath] == File(out.oat)
    requires ps[1].tempPath in nodes && nodes[ps[1].tempPath] == File(out.vdex)
    requires image ==> ps[2].tempPath in nodes && nodes[ps[2].tempPath] == File(out.art)
    requires Temps(ps[..CommitCount(image)]) <= nodes.Keys
    requires Temps(ps) == Temps(ps[..CommitCount(image)]) + gone
    ensures Committed(nodes, ps[..CommitCount(image)], Removals(stem, image)) - gone == Optimized(m, stem, ext, image, out)
  {
    var qs := ps[..CommitCount(image)];
    var three := {OatPath(stem, ext), VdexPath(stem), ArtPath(stem)};
    OutputListed(ps, stem, ext, image);
    OutputContents(nodes, ps, stem, ext, image, out);
    TempsApart(m, nodes, ps, stem, ext);
    OverlayAlone(m, nodes, Temps(qs), gone, three, NewContents(nodes, qs));
    OptimizedForm(m, stem, ext, image, out);
  }

  lemma TempsApart(m: Nodes, nodes: Nodes, ps: seq<Pending>, stem: string, ext: string)
    requires OatExtension(ext)
    requires Building(m, nodes, ps)
    ensures Temps(ps) !! {OatPath(stem, ext), VdexPath(stem), ArtPath(stem)}
  {
    PathsApart(stem, ext);
    forall t | t in Temps(ps)
      ensures t !in {OatPath(stem, ext), VdexPath(stem), ArtPath(stem)}
    {
      var p :| p in ps && p.tempPath == t;
    }
  }

  lemma OverlayAlone(m: Nodes, nodes: Nodes, temps: set<Path>, gone: set<Path>, listed: set<Path>, contents: Nodes)
    requires nodes - (temps + gone) == m
    requires contents.Keys <= listed && gone !! listed
    ensures nodes - temps - listed + contents - gone == m - listed + contents
  {
  }

  lemma OptimizedForm(m: Nodes, stem: string, ext: string, image: bool, out: Artifacts)
    requires OatExtension(ext)
    ensures var two := map[OatPath(stem, ext) := File(out.oat)][VdexPath(stem) := File(out.vdex)];
            var contents := if image then two[ArtPath(stem) := File(out.art)] else two;
            Optimized(m, stem, ext, image, out) == m - {OatPath(stem, ext), VdexPath(stem), ArtPath(stem)} + contents
  {
    PathsApart(stem, ext);
  }

  lemma OutputContents(nodes: Nodes, ps: seq<Pending>, stem: string, ext: string, image: bool, out: Artifacts)
    requires OutputPlan(ps, stem, ext, image)
    requires ps[0].tempPath in nodes && nodes[ps[0].tempPath] == File(out.oat)
    requires ps[1].tempPath in nodes && nodes[ps[1].tempPath] == File(out.vdex)
    requires image ==> ps[2].tempPath in nodes && nodes[ps[2].tempPath] == File(out.art)
    ensures Temps(ps[..CommitCount(image)]) <= nodes.Keys
    ensures var two := map[OatPath(stem, ext) := File(out.oat)][VdexPath(stem) := File(out.vdex)];
            NewContents(nodes, ps[..CommitCount(image)]) == if image then two[ArtPath(stem) := File(out.art)] else two
  {
    var qs := ps[..CommitCount(image)];
    assert qs == if image then [ps[0], ps[1], ps[2]] else [ps[0], ps[1]];
    assert qs[..2] == [ps[0], ps[1]];
    assert qs[..2][..1] == [ps[0]];
    assert qs[..2][..1][..0] == [];
    NewContentsStep(nodes, qs, 1);
    NewContentsStep(nodes, qs, 0);
    assert qs[..1] == [ps[0]] && qs[..0] == [];
    if image {
      NewContentsStep(nodes, qs, 2);
      assert qs[..3] == qs;
    } else {
      assert qs[..2] == qs;
    }
  }

  /** Destroying files that were never committed restores the file system. */
  method Abort(fs: FileSystem, files: seq<NewFile>, ghost m: Nodes)
    requires AllOpen(fs, files)
    requires Building(m, fs.nodes, Plan(files))
    modifies fs`nodes, files
    ensures fs.nodes == m
  {
    ghost var ps := Plan(files);
    assert OpenTemps(files) == Temps(ps) by {
      forall i | 0 <= i < |files|
        ensures files[i].tempPath in Temps(ps)
      {
        assert ps[i] in ps;
      }
    }
    Destroy(fs, files);
  }

  /** Creates the outputs: the code, its verification data, then an image and a swap file if wanted. */
  method CreateOutputs(fs: FileSystem, stem: string, ext: string, image: bool, swap: bool)
    returns (ok: bool, files: seq<NewFile>)
    modifies fs
    ensures AllOpen(fs, files) && fresh(files)
    ensures Building(old(fs.nodes), fs.nodes, Plan(files))
    ensures ok ==> OutputPlan(Plan(files), stem, ext, image)
    ensures ok ==> |files| == CommitCount(image) + if swap then 1 else 0
    ensures fs.faults >= old(fs.faults) && (!ok ==> fs.faults > old(fs.faults))
  {
    ghost var m := fs.nodes;
    assert AllOpen(fs, []);
    BuildingNothing(m);
    hide *;
    ok, files := AddFile(fs, true, [], true, OatPath(stem, ext), m);
    ok, files := AddFile(fs, ok, files, true, VdexPath(stem), m);
    ok, files := AddFile(fs, ok, files, image, ArtPath(stem), m);
    ok, files := AddFile(fs, ok, files, swap, OatPath(stem, ext) + ".swap", m);
    assert forall i :: 0 <= i < |files| ==> files[i] in files;
    if ok {
      CreatedAll(files, stem, ext, image, swap);
    }
  }

  lemma CreatedAll(files: seq<NewFile>, stem: string, ext: string, image: bool, swap: bool)
    requires FinalsOf(files) == FinalsOf([]) + [OatPath(stem, ext)] + [VdexPath(stem)] + (if image then [ArtPath(stem)] else []) +
                                (if swap then [OatPath(stem, ext) + ".swap"] else [])
    ensures OutputPlan(Plan(files), stem, ext, image)
    ensures |files| == CommitCount(image) + if swap then 1 else 0
  {
    hide OatPath, VdexPath, ArtPath;
    var finals := FinalsOf(files);
    assert |finals| == |files| && finals[0] == OatPath(stem, ext) && finals[1] == VdexPath(stem);
    assert image ==> finals[2] == ArtPath(stem);
  }

  lemma MeasuredBefore(m: Nodes, nodes: Nodes, ps: seq<Pending>, stem: string, ext: string, image: bool,
                       unreadable: set<Path>)
    requires OatExtension(ext)
    requires Building(m, nodes, ps)
    requires OutputPlan(ps, stem, ext, image)
    ensures SumSizes(nodes - unreadable, FinalPaths(ps, image) + Removals(stem, image)) == TotalSize(m - unreadable, stem, ext)
  {
    var o, v, a := OatPath(stem, ext), VdexPath(stem), ArtPath(stem);
    assert FinalPaths(ps, image) + Removals(stem, image) == [o, v, a];
    ThreeSizes(nodes - unreadable, o, v, a);
    TempsApart(m, nodes, ps, stem, ext);
    forall p | p in {o, v, a}
      ensures Size(nodes - unreadable, p) == Size(m - unreadable, p)
    {
      assert p in m <==> p in nodes;
    }
  }

  lemma ThreeSizes(nodes: Nodes, a: Path, b: Path, c: Path)
    ensures SumSizes(nodes, [a, b, c]) == Size(nodes, a) + Size(nodes, b) + Size(nodes, c)
    ensures SumSizes(nodes, [a, b]) == Size(nodes, a) + Size(nodes, b)
  {
    assert [a, b, c][..2] == [a, b] && [a, b][..1] == [a] && [a][..0] == [];
    assert SumSizes(nodes, [a]) == Size(nodes, a);
    assert SumSizes(nodes, [a, b]) == SumSizes(nodes, [a]) + Size(nodes, b);
    assert SumSizes(nodes, [a, b, c]) == SumSizes(nodes, [a, b]) + Size(nodes, c);
  }

  ghost function FinalPaths(ps: seq<Pending>, image: bool): seq<Path>
    requires |ps| >= CommitCount(image)
  {
    if image then [ps[0].finalPath, ps[1].finalPath, ps[2].finalPath] else [ps[0].finalPath, ps[1].finalPath]
  }

  ghost function TempPaths(ps: seq<Pending>, image: bool): seq<Path>
    requires |ps| >= CommitCount(image)
  {
    if image then [ps[0].tempPath, ps[1].tempPath, ps[2].tempPath] else [ps[0].tempPath, ps[1].tempPath]
  }

  /** What the new artifacts under `temps` add up to when the `unreadable` count as zero. */
  function NewSize(temps: seq<Path>, image: bool, out: Artifacts, unreadable: set<Path>): nat
    requires |temps| == CommitCount(image)
  {
    (if temps[0] in unreadable then 0 else |out.oat|) +
    (if temps[1] in unreadable then 0 else |out.vdex|) +
    (if !image || temps[2] in unreadable then 0 else |out.art|)
  }

  /** `temps` are unused temporary names of the artifacts a run commits, in order. */
  ghost predicate NamesArtifacts(m: Nodes, temps: seq<Path>, stem: string, ext: string, image: bool) {
    && |temps| == CommitCount(image)
    && (forall t :: t in temps ==> t !in m)
    && IsTempOf(temps[0], OatPath(stem, ext)) && IsTempOf(temps[1], VdexPath(stem))
    && (image ==> IsTempOf(temps[2], ArtPath(stem)))
  }

  lemma MeasuredAfter(nodes: Nodes, ps: seq<Pending>, image: bool, out: Artifacts, unreadable: set<Path>)
    requires |ps| >= CommitCount(image)
    requires Complete(nodes, ps, image, out)
    ensures SumSizes(nodes - unreadable, TempPaths(ps, image)) == NewSize(TempPaths(ps, image), image, out, unreadable)
  {
    ThreeSizes(nodes - unreadable, ps[0].tempPath, ps[1].tempPath, if image then ps[2].tempPath else "");
  }

  lemma MeasuredNames(m: Nodes, nodes: Nodes, ps: seq<Pending>, stem: string, ext: string, image: bool)
    requires Building(m, nodes, ps)
    requires OutputPlan(ps, stem, ext, image)
    ensures NamesArtifacts(m, TempPaths(ps, image), stem, ext, image)
  {
    hide IsTempOf, OatPath, VdexPath, ArtPath;
    assert ps[0] in ps && ps[1] in ps && (image ==> ps[2] in ps);
  }

  /** If nothing is unreadable, the new sizes are those of the artifacts that a run leaves. */
  lemma ReadableAll(m: Nodes, temps: seq<Path>, stem: string, ext: string, image: bool, out: Artifacts,
                    unreadable: set<Path>)
    requires OatExtension(ext)
    requires |temps| == CommitCount(image) && unreadable !! set t | t in temps
    ensures NewSize(temps, image, out, unreadable) == TotalSize(Optimized(m, stem, ext, image, out), stem, ext)
  {
    assert temps[0] in temps && temps[1] in temps && (image ==> temps[2] in temps);
    PathsApart(stem, ext);
  }

  /** The outputs are complete: each file to commit holds what the compiler wrote for it. */
  ghost predicate Complete(nodes: Nodes, ps: seq<Pending>, image: bool, out: Artifacts)
    requires |ps| >= CommitCount(image)
  {
    && ps[0].tempPath in nodes && nodes[ps[0].tempPath] == File(out.oat)
    && ps[1].tempPath in nodes && nodes[ps[1].tempPath] == File(out.vdex)
    && (image ==> ps[2].tempPath in nodes && nodes[ps[2].tempPath] == File(out.art))
  }

  /** Sizes before and after; what is not readable counts as zero. */
  method Measure(fs: FileSystem, files: seq<NewFile>, stem: string, ext: string, image: bool, unreadable: set<Path>,
                 ghost out: Artifacts, ghost m: Nodes)
    returns (sizeBytes: int, sizeBeforeBytes: int, ghost temps: seq<Path>)
    requires OatExtension(ext)
    requires Building(m, fs.nodes, Plan(files))
    requires OutputPlan(Plan(files), stem, ext, image)
    requires Complete(fs.nodes, Plan(files), image, out)
    ensures sizeBeforeBytes == TotalSize(m - unreadable, stem, ext)
    ensures NamesArtifacts(m, temps, stem, ext, image)
    ensures sizeBytes == NewSize(temps, image, out, unreadable)
  {
    hide Complete, Optimized, TotalSize, IsTempOf, SumSizes, OatPath, VdexPath, ArtPath, NamesArtifacts, Building;
    ghost var ps := Plan(files);
    var n := CommitCount(image);
    var paths := seq(n, i requires 0 <= i < n => files[i].tempPath);
    var finals := seq(n, i requires 0 <= i < n => files[i].finalPath);
    temps := TempPaths(ps, image);
    assert paths == temps && finals == FinalPaths(ps, image);
    MeasuredBefore(m, fs.nodes, ps, stem, ext, image, unreadable);
    MeasuredAfter(fs.nodes, ps, image, out, unreadable);
    MeasuredNames(m, fs.nodes, ps, stem, ext, image);
    sizeBytes := AddSizes(fs, paths, unreadable);
    sizeBeforeBytes := AddSizes(fs, finals + Removals(stem, image), unreadable);
  }

  ghost function ArtifactPaths(stem: string, ext: string): set<Path> {
    {OatPath(stem, ext), VdexPath(stem), ArtPath(stem)}
  }

  /** Commits the first `n` files; the others stay as they are. */
  method CommitFirst(fs: FileSystem, files: seq<NewFile>, n: nat, toRemove: seq<Path>) returns (ok: bool)
    requires AllOpen(fs, files)
    requires n <= |files|
    requires Plannable(fs.nodes, Plan(files)[..n], toRemove)
    modifies fs, files
    ensures forall i :: 0 <= i < |files| ==> files[i].open == (i >= n)
    ensures ok ==> fs.nodes == Committed(old(fs.nodes), Plan(files)[..n], toRemove)
    ensures !ok ==> fs.nodes == Abandoned(old(fs.nodes), Plan(files)[..n])
    ensures fs.faults >= old(fs.faults)
    ensures !ok ==> fs.faults > old(fs.faults) || HasDirectory(old(fs.nodes), Listed(Plan(files)[..n], toRemove))
  {
    hide Plannable, Possible, Leaves, Committed, Abandoned, Listed, HasDirectory, Temps, PathList;
    var first := files[..n];
    assert Plan(first) == Plan(files)[..n];
    ghost var run;
    ok, run := CommitAllOrAbandon(fs, first, toRemove);
    forall i | 0 <= i < n
      ensures !files[i].open
    {
      assert first[i] == files[i];
    }
  }

  lemma CommitOutcome(m: Nodes, nodes: Nodes, ps: seq<Pending>, stem: string, ext: string, image: bool,
                      out: Artifacts, gone: set<Path>)
    requires OatExtension(ext)
    requires Building(m, nodes, ps)
    requires OutputPlan(ps, stem, ext, image)
    requires Complete(nodes, ps, image, out)
    requires Temps(ps) == Temps(ps[..CommitCount(image)]) + gone
    ensures Plannable(nodes, ps[..CommitCount(image)], Removals(stem, image))
    ensures Committed(nodes, ps[..CommitCount(image)], Removals(stem, image)) - gone == Optimized(m, stem, ext, image, out)
    ensures Abandoned(nodes, ps[..CommitCount(image)]) - gone == m
  {
    NothingElseInTheWay(m, nodes, ps, stem, ext, image, out);
    OutputPlannable(m, nodes, ps, stem, ext, image);
    CommittedIsOptimized(m, nodes, ps, stem, ext, image, out, gone);
    assert nodes - Temps(ps[..CommitCount(image)]) - gone == nodes - Temps(ps);
  }

  /** Of what the commit needs, only the old artifacts can be directories. */
  lemma NothingElseInTheWay(m: Nodes, nodes: Nodes, ps: seq<Pending>, stem: string, ext: string, image: bool,
                            out: Artifacts)
    requires OatExtension(ext)
    requires Building(m, nodes, ps)
    requires OutputPlan(ps, stem, ext, image)
    requires Complete(nodes, ps, image, out)
    ensures !HasDirectory(nodes, Temps(ps[..CommitCount(image)]))
    ensures HasDirectory(nodes, Listed(ps[..CommitCount(image)], Removals(stem, image))) ==>
              HasDirectory(m, ArtifactPaths(stem, ext))
  {
    var n := CommitCount(image);
    var qs := ps[..n];
    forall p | p in Temps(qs)
      ensures p in nodes && nodes[p].File?
    {
      TempsAt(qs, p);
      var i :| 0 <= i < |qs| && p == qs[i].tempPath;
      assert ps[i] == qs[i];
    }
    OutputListed(ps, stem, ext, image);
    TempsApart(m, nodes, ps, stem, ext);
    hide OatPath, VdexPath, ArtPath, Temps, Listed;
    forall p | p in ArtifactPaths(stem, ext) && p in nodes
      ensures p in m && m[p] == nodes[p]
    {
      assert p in nodes - Temps(ps);
    }
  }

  /** Commits and destroys: the end of a run whose compiler returned zero. */
  method CommitOutputs(fs: FileSystem, files: seq<NewFile>, stem: string, ext: string, image: bool,
                       ghost out: Artifacts, ghost m: Nodes)
    returns (ok: bool)
    requires OatExtension(ext)
    requires AllOpen(fs, files)
    requires Building(m, fs.nodes, Plan(files))
    requires OutputPlan(Plan(files), stem, ext, image)
    requires Complete(fs.nodes, Plan(files), image, out)
    modifies fs, files
    ensures !ok ==> fs.nodes == m
    ensures ok ==> fs.nodes == Optimized(m, stem, ext, image, out)
    ensures fs.faults >= old(fs.faults)
    ensures !ok ==> fs.faults > old(fs.faults) || HasDirectory(m, ArtifactPaths(stem, ext))
  {
    assert |files| >= CommitCount(image);
    hide Building, Complete, Plannable, Optimized, Committed, Removals, Abandoned, Listed, Temps, Plan;
    hide HasDirectory, ArtifactPaths, OutputPlan, OatPath, VdexPath, ArtPath, IsTempOf, OpenTemps;
    NothingElseInTheWay(m, fs.nodes, Plan(files), stem, ext, image, out);
    var n := CommitCount(image);
    ghost var gone := LateTemps(files, n);
    RestTemps(files, n, gone);
    CommitOutcome(m, fs.nodes, Plan(files), stem, ext, image, out, gone);
    ok := CommitFirst(fs, files, n, Removals(stem, image));
    StillOpen(files, n, gone);
    Destroy(fs, files);
  }

  lemma StillOpen(files: seq<NewFile>, n: nat, gone: set<Path>)
    requires n <= |files| && forall i :: 0 <= i < |files| ==> files[i].open == (i >= n)
    requires gone == LateTemps(files, n)
    ensures OpenTemps(files) == gone
  {
  }

  ghost function LateTemps(files: seq<NewFile>, n: nat): set<Path> {
    set i | n <= i < |files| :: files[i].tempPath
  }

  lemma RestTemps(files: seq<NewFile>, n: nat, gone: set<Path>)
    requires n <= |files|
    requires gone == LateTemps(files, n)
    ensures Temps(Plan(files)) == Temps(Plan(files)[..n]) + gone
  {
    var ps := Plan(files);
    forall t | t in Temps(ps)
      ensures t in Temps(ps[..n]) + gone
    {
      var p :| p in ps && p.tempPath == t;
      var i :| 0 <= i < |ps| && ps[i] == p;
      if i < n {
        assert ps[..n][i] == p;
      }
    }
    TempsPrefix(ps, n);
    forall t | t in gone
      ensures t in Temps(ps)
    {
      var i :| n <= i < |files| && files[i].tempPath == t;
      assert ps[i] in ps;
    }
  }

  /**
   One run of dexopt from the creation of its outputs.  Unless it reports success the file system is
   exactly what it was; on success the three artifacts, and nothing else, are replaced.
   */
  method Dexopt(fs: FileSystem, stem: string, ext: string, image: bool, swap: bool, out: Artifacts,
                signal: CancellationSignal,
                env: Surroundings)
    returns (r: Outcome, ghost temps: seq<Path>)
    requires OatExtension(ext)
    requires signal.Valid()
    modifies fs, signal
    ensures signal.Valid() && fs.faults >= old(fs.faults)
    ensures !r.Done? ==> fs.nodes == old(fs.nodes)
    ensures r.Done? ==> fs.nodes == Optimized(old(fs.nodes), stem, ext, image, out)
    ensures r.Done? ==> env.inputsOpen && ExitCode(env) == Some(0)
    ensures r.WasCancelled? ==> env.inputsOpen && ExitCode(env).None? && signal.cancelled
    ensures fs.faults == old(fs.faults) && env.inputsOpen && ExitCode(env).None? ==>
              r == if signal.cancelled then WasCancelled else Failed
    ensures fs.faults == old(fs.faults) && env.inputsOpen && ExitCode(env) == Some(0) ==>
              r.Done? || HasDirectory(old(fs.nodes), ArtifactPaths(stem, ext))
    ensures r.Done? ==> r.sizeBeforeBytes == TotalSize(old(fs.nodes) - env.unreadable, stem, ext)
    ensures r.Done? ==> NamesArtifacts(old(fs.nodes), temps, stem, ext, image)
    ensures r.Done? ==> r.sizeBytes == NewSize(temps, image, out, env.unreadable)
    ensures r.Done? && env.unreadable !! (set t | t in temps) ==> r.sizeBytes == TotalSize(fs.nodes, stem, ext)
  {
    hide Optimized, Building, OutputPlan, TotalSize, NewSize, ArtifactPaths, HasDirectory, IsTempOf, OatPath;
    hide VdexPath, ArtPath;
    temps := [];
    ghost var m := fs.nodes;
    var ok, files := CreateOutputs(fs, stem, ext, image, swap);
    if !ok || !env.inputsOpen {
      Abort(fs, files, m);
      return Failed, temps;
    }
    var wanted := if image then [out.oat, out.vdex, out.art] else [out.oat, out.vdex];
    var code := RunDex2oat(fs, files, wanted, signal, env, m);
    if code != Some(0) {
      Abort(fs, files, m);
      return (if code.None? && signal.cancelled then WasCancelled else Failed), temps;
    }
    assert files[0].tempPath in fs.nodes && fs.nodes[files[0].tempPath] == File(wanted[0]);
    assert files[1].tempPath in fs.nodes && fs.nodes[files[1].tempPath] == File(wanted[1]);
    assert image ==> files[2].tempPath in fs.nodes && fs.nodes[files[2].tempPath] == File(wanted[2]);
    var sizeBytes, sizeBeforeBytes;
    sizeBytes, sizeBeforeBytes, temps := Measure(fs, files, stem, ext, image, env.unreadable, out, m);
    if env.unreadable !! (set t | t in temps) {
      ReadableAll(m, temps, stem, ext, image, out, env.unreadable);
    }
    ok := CommitOutputs(fs, files, stem, ext, image, out, m);
    r := if ok then Done(sizeBytes, sizeBeforeBytes) else Failed;
  }
}
