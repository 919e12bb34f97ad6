/**
 The control-flow-graph builder of dexdump.

 Text output is replaced by sets of edges.  An instruction carries what the builder asks of it: its
 size in code units, its control-flow kind and the handler addresses the try table gives for its
 address, in iteration order.
 */
module Cfg {
  const UINT32_MAX: nat := 0xFFFF_FFFF

  datatype Kind =
    | Branch(offset: int, unconditional: bool)
    | Switch(offsets: seq<int>)
    | Return
    | Throw
    | Plain

  datatype Insn = Insn(size: nat, kind: Kind, handlers: seq<nat>)

  /** A regular or taken edge, from an instruction to the first instruction of a block. */
  datatype Edge = Edge(fromNode: nat, fromPc: nat, toNode: nat, toPc: nat)

  /** Exception edges leave either the block as a whole or one instruction of it. */
  datatype Port = WholeBlock | At(pc: nat)
  datatype ExcEdge = ExcEdge(fromNode: nat, port: Port, toNode: nat, handlerPc: nat)

  /** Code as an accessor yields it: no empty instruction, a length that fits in 32 bits. */
  predicate ValidCode(code: seq<Insn>) {
    && (forall i :: 0 <= i < |code| ==> code[i].size >= 1)
    && Pc(code, |code|) <= UINT32_MAX
  }

  // --- Addresses ------------------------------------------------------------------------------

  function Pc(code: seq<Insn>, i: nat): nat
    requires i <= |code|
  {
    if i == 0 then 0 else Pc(code, i - 1) + code[i - 1].size
  }

  lemma {:induction false} PcIncreasing(code: seq<Insn>, i: nat, j: nat)
    requires ValidCode(code)
    requires i < j <= |code|
    ensures Pc(code, i) < Pc(code, j)
    decreases j
  {
    if i < j - 1 {
      PcIncreasing(code, i, j - 1);
    }
  }

  lemma PcInjective(code: seq<Insn>, i: nat, j: nat)
    requires ValidCode(code)
    requires i <= |code| && j <= |code|
    requires Pc(code, i) == Pc(code, j)
    ensures i == j
  {
    if i < j {
      PcIncreasing(code, i, j);
    } else if j < i {
      PcIncreasing(code, j, i);
    }
  }

  lemma PcBelowMax(code: seq<Insn>, i: nat)
    requires ValidCode(code)
    requires i < |code|
    ensures Pc(code, i) < UINT32_MAX
  {
    PcIncreasing(code, i, |code|);
  }

  /** `pc` is the address of one of the first `n` instructions. */
  predicate IsAddress(code: seq<Insn>, n: nat, pc: nat)
    requires n <= |code|
  {
    n > 0 && (pc == Pc(code, n - 1) || IsAddress(code, n - 1, pc))
  }

  lemma {:induction false} IsAddressIntro(code: seq<Insn>, n: nat, i: nat)
    requires i < n <= |code|
    ensures IsAddress(code, n, Pc(code, i))
    decreases n
  {
    if i < n - 1 {
      IsAddressIntro(code, n - 1, i);
    }
  }

  /** The instruction at an address. */
  function IndexOf(code: seq<Insn>, n: nat, pc: nat): (i: nat)
    requires n <= |code|
    requires IsAddress(code, n, pc)
    ensures i < n && Pc(code, i) == pc
  {
    if pc == Pc(code, n - 1) then n - 1 else IndexOf(code, n - 1, pc)
  }

  // --- Successors of one instruction ----------------------------------------------------------

  /** Addition of a signed offset to a 32-bit address. */
  function Displace(pc: nat, offset: int): nat {
    (pc + offset) % (UINT32_MAX + 1)
  }

  predicate IsBasicBlockEnd(k: Kind) {
    k.Branch? || k.Return? || k.Throw?
  }

  predicate FallsThrough(k: Kind) {
    !(k.Return? || k.Throw? || (k.Branch? && k.unconditional))
  }

  function Offsets(k: Kind): seq<int> {
    match k
    case Branch(offset, _) => [offset]
    case Switch(offsets) => offsets
    case _ => []
  }

  /** Absolute branch and switch targets of instruction `i`. */
  function Targets(code: seq<Insn>, i: nat): set<nat>
    requires i < |code|
  {
    set o | o in Offsets(code[i].kind) :: Displace(Pc(code, i), o)
  }

  function TargetsUpTo(code: seq<Insn>, n: nat): set<nat>
    requires n <= |code|
  {
    if n == 0 then {} else TargetsUpTo(code, n - 1) + Targets(code, n - 1)
  }

  function AllTargets(code: seq<Insn>): set<nat> {
    TargetsUpTo(code, |code|)
  }

  lemma {:induction false} TargetsUpToContains(code: seq<Insn>, n: nat, i: nat)
    requires i < n <= |code|
    ensures Targets(code, i) <= TargetsUpTo(code, n)
    decreases n
  {
    if i < n - 1 {
      TargetsUpToContains(code, n - 1, i);
    }
  }

  // --- Basic blocks ---------------------------------------------------------------------------

  /** An instruction that starts a block. */
  predicate Leader(code: seq<Insn>, i: nat)
    requires i < |code|
  {
    || i == 0
    || Pc(code, i) in AllTargets(code)
    || code[i - 1].kind.Switch?
    || IsBasicBlockEnd(code[i - 1].kind)
  }

  /** Number of the block that holds instruction `i`. */
  function Block(code: seq<Insn>, i: nat): nat
    requires i < |code|
  {
    if i == 0 then 0 else Block(code, i - 1) + if Leader(code, i) then 1 else 0
  }

  /** First instruction of the block that holds instruction `i`. */
  function Start(code: seq<Insn>, i: nat): (s: nat)
    requires i < |code|
    ensures s <= i
    ensures Leader(code, s)
    ensures forall k :: s < k <= i ==> !Leader(code, k)
    ensures Block(code, s) == Block(code, i)
  {
    if Leader(code, i) then i else Start(code, i - 1)
  }

  /** Block numbers grow along the code, by one exactly at each leader. */
  lemma {:induction false} BlockMonotone(code: seq<Insn>, i: nat, j: nat)
    requires i <= j < |code|
    ensures Block(code, i) <= Block(code, j)
    ensures Block(code, i) == Block(code, j) <==> forall k :: i < k <= j ==> !Leader(code, k)
    decreases j
  {
    if i < j {
      BlockMonotone(code, i, j - 1);
    }
  }

  lemma {:induction false} BlockAtMost(code: seq<Insn>, i: nat)
    requires i < |code|
    ensures Block(code, i) <= i
  {
    if i > 0 {
      BlockAtMost(code, i - 1);
    }
  }

  /** Two instructions share a block exactly when they share its first instruction. */
  lemma SameBlockSameStart(code: seq<Insn>, i: nat, j: nat)
    requires i < |code| && j < |code|
    ensures Block(code, i) == Block(code, j) <==> Start(code, i) == Start(code, j)
  {
    var s, t := Start(code, i), Start(code, j);
    if Block(code, i) == Block(code, j) {
      if s < t {
        BlockMonotone(code, s, t);
      } else if t < s {
        BlockMonotone(code, t, s);
      }
    }
  }

  // --- Pass 1: branch targets -----------------------------------------------------------------

  function SwitchTargets(pc: nat, offsets: seq<int>): set<nat> {
    set o | o in offsets :: Displace(pc, o)
  }

  method CollectSwitchTargets(pc: nat, offsets: seq<int>, before: set<nat>) returns (targets: set<nat>)
    ensures targets == before + SwitchTargets(pc, offsets)
  {
    targets := before;
    var n := |offsets|;
    for t := 0 to n
      invariant targets == before + SwitchTargets(pc, offsets[..t])
    {
      hide Displace;
      assert offsets[..t + 1] == offsets[..t] + [offsets[t]];
      targets := targets + {Displace(pc, offsets[t])};
    }
    assert offsets[..n] == offsets;
  }

  method CollectTargets(code: seq<Insn>) returns (targets: set<nat>)
    ensures targets == AllTargets(code)
  {
    targets := {};
    for i := 0 to |code|
      invariant targets == TargetsUpTo(code, i)
    {
      hide Displace, Pc;
      var pc := PcOf(code, i);
      var kind := code[i].kind;
      if kind.Branch? {
        targets := targets + {Displace(pc, kind.offset)};
      } else if kind.Switch? {
        targets := CollectSwitchTargets(pc, kind.offsets, targets);
      }
    }
  }

  /** The address an iterator over the code reports for its `i`-th instruction. */
  method PcOf(code: seq<Insn>, i: nat) returns (pc: nat)
    requires i <= |code|
    ensures pc == Pc(code, i)
  {
    pc := 0;
    for k := 0 to i
      invariant pc == Pc(code, k)
    {
      pc := pc + code[k].size;
    }
  }

  // --- Pass 2: cutting blocks -----------------------------------------------------------------

  /** Ids of the block starts among the first `n` instructions, by address. */
  function NodeIds(code: seq<Insn>, n: nat): map<nat, nat>
    requires n <= |code|
  {
    if n == 0 then map[]
    else if Leader(code, n - 1) then NodeIds(code, n - 1)[Pc(code, n - 1) := Block(code, n - 1)]
    else NodeIds(code, n - 1)
  }

  /** Ids of the blocks that hold the first `n` instructions, by address. */
  function InclIds(code: seq<Insn>, n: nat): map<nat, nat>
    requires n <= |code|
  {
    if n == 0 then map[] else InclIds(code, n - 1)[Pc(code, n - 1) := Block(code, n - 1)]
  }

  lemma {:induction false} NodeIdsExact(code: seq<Insn>, n: nat)
    requires ValidCode(code)
    requires n <= |code|
    ensures |NodeIds(code, n)| == if n == 0 then 0 else Block(code, n - 1) + 1
    ensures forall i :: 0 <= i < n && Leader(code, i) ==>
              Pc(code, i) in NodeIds(code, n) && NodeIds(code, n)[Pc(code, i)] == Block(code, i)
    ensures forall pc :: pc in NodeIds(code, n) ==> exists i :: 0 <= i < n && Leader(code, i) && Pc(code, i) == pc
  {
    if n > 0 {
      NodeIdsExact(code, n - 1);
      forall k | 0 <= k < n - 1
        ensures Pc(code, k) != Pc(code, n - 1)
      {
        PcIncreasing(code, k, n - 1);
      }
      assert Pc(code, n - 1) !in NodeIds(code, n - 1);
    }
  }

  lemma {:induction false} InclIdsExact(code: seq<Insn>, n: nat)
    requires ValidCode(code)
    requires n <= |code|
    ensures forall i :: 0 <= i < n ==>
              Pc(code, i) in InclIds(code, n) && InclIds(code, n)[Pc(code, i)] == Block(code, i)
    ensures forall pc :: pc in InclIds(code, n) <==> IsAddress(code, n, pc)
  {
    if n > 0 {
      InclIdsExact(code, n - 1);
      forall k | 0 <= k < n - 1
        ensures Pc(code, k) != Pc(code, n - 1)
      {
        PcIncreasing(code, k, n - 1);
      }
    }
  }

  /** The id pass 2 is about to hand out, and the one it registers for the instruction. */
  lemma NodeIdsSize(code: seq<Insn>, i: nat)
    requires ValidCode(code)
    requires i < |code|
    ensures |NodeIds(code, i + 1)| == Block(code, i) + 1
    ensures Leader(code, i) ==> |NodeIds(code, i)| == Block(code, i)
    ensures Pc(code, i) == 0 <==> i == 0
  {
    NodeIdsCount(code, i);
    NodeIdsCount(code, i + 1);
    hide NodeIds;
    if i > 0 {
      PcIncreasing(code, 0, i);
    }
  }

  lemma NodeIdsCount(code: seq<Insn>, n: nat)
    requires ValidCode(code)
    requires n <= |code|
    ensures |NodeIds(code, n)| == if n == 0 then 0 else Block(code, n - 1) + 1
  {
    hide NodeIds, Block, Leader;
    NodeIdsExact(code, n);
  }

  method CutBlocks(code: seq<Insn>, targets: set<nat>) returns (nodeId: map<nat, nat>, inclId: map<nat, nat>)
    requires ValidCode(code)
    requires targets == AllTargets(code)
    ensures nodeId == NodeIds(code, |code|)
    ensures inclId == InclIds(code, |code|)
  {
    nodeId, inclId := map[], map[];
    var forceNewBlock := false;
    var pc := 0;
    for i := 0 to |code|
      invariant pc == Pc(code, i)
      invariant forceNewBlock == (i > 0 && (code[i - 1].kind.Switch? || IsBasicBlockEnd(code[i - 1].kind)))
      invariant nodeId == NodeIds(code, i)
      invariant inclId == InclIds(code, i)
    {
      NodeIdsSize(code, i);
      if pc == 0 || pc in targets || forceNewBlock {
        nodeId := nodeId[pc := |nodeId|];
        forceNewBlock := false;
      }
      inclId := inclId[pc := |nodeId| - 1];
      forceNewBlock := code[i].kind.Switch? || IsBasicBlockEnd(code[i].kind);
      pc := pc + code[i].size;
    }
  }

  // --- Pass 3: edges --------------------------------------------------------------------------

  /** Handler addresses that cover instruction `i`. */
  function Handlers(code: seq<Insn>, i: nat): set<nat>
    requires i < |code|
  {
    set h | h in code[i].handlers
  }

  /** The handler set carried along a block, after instruction `i`. */
  function Carried(code: seq<Insn>, i: nat): set<nat>
    requires i < |code|
  {
    if Leader(code, i) || Carried(code, i - 1) <= Handlers(code, i) then Handlers(code, i) else {}
  }

  /** Instruction `i` gives up the carried set of its block. */
  predicate GivesUp(code: seq<Insn>, i: nat)
    requires i < |code|
  {
    !Leader(code, i) && !(Carried(code, i - 1) <= Handlers(code, i))
  }

  /** Starts of the blocks in which one of the first `n` instructions gives up. */
  function DetailedStarts(code: seq<Insn>, n: nat): set<nat>
    requires n <= |code|
  {
    if n == 0 then {}
    else DetailedStarts(code, n - 1) + if GivesUp(code, n - 1) then {Pc(code, Start(code, n - 1))} else {}
  }

  function RegularAt(code: seq<Insn>, i: nat): set<Edge>
    requires i < |code|
  {
    if i > 0 && Leader(code, i) && FallsThrough(code[i - 1].kind)
    then {Edge(Block(code, i - 1), Pc(code, i - 1), Block(code, i), Pc(code, i))}
    else {}
  }

  function TakenAt(code: seq<Insn>, i: nat): set<Edge>
    requires i < |code|
  {
    set t | t in Targets(code, i) && t in NodeIds(code, |code|) ::
      Edge(Block(code, i), Pc(code, i), NodeIds(code, |code|)[t], t)
  }

  /** Exception edges of `node` to those of `handlers` that are instruction addresses. */
  function ExcEdges(inclId: map<nat, nat>, node: nat, port: Port, handlers: set<nat>): set<ExcEdge> {
    set h | h in handlers && h in inclId :: ExcEdge(node, port, inclId[h], h)
  }

  function RegularUpTo(code: seq<Insn>, n: nat): set<Edge>
    requires n <= |code|
  {
    if n == 0 then {} else RegularUpTo(code, n - 1) + RegularAt(code, n - 1)
  }

  function TakenUpTo(code: seq<Insn>, n: nat): set<Edge>
    requires n <= |code|
  {
    if n == 0 then {} else TakenUpTo(code, n - 1) + TakenAt(code, n - 1)
  }

  /** Edges flushed for the block that ends at instruction `i`. */
  function FlushedAt(code: seq<Insn>, i: nat): set<ExcEdge>
    requires i < |code|
  {
    ExcEdges(InclIds(code, |code|), Block(code, i), WholeBlock, Carried(code, i))
  }

  /** Instruction `i` is the last of its block. */
  predicate EndsBlock(code: seq<Insn>, i: nat)
    requires i < |code|
  {
    i + 1 == |code| || Leader(code, i + 1)
  }

  /** Edges flushed for the blocks that end before instruction `n`. */
  function FlushedUpTo(code: seq<Insn>, n: nat): set<ExcEdge>
    requires n <= |code|
  {
    if n == 0 then {}
    else FlushedUpTo(code, n - 1) + if EndsBlock(code, n - 1) then FlushedAt(code, n - 1) else {}
  }

  /** Edges of the second pass for instruction `i`. */
  function DetailAt(code: seq<Insn>, i: nat): set<ExcEdge>
    requires i < |code|
  {
    ExcEdges(InclIds(code, |code|), Block(code, i), At(Pc(code, i)), Handlers(code, i))
  }

  predicate InDetailedBlock(code: seq<Insn>, i: nat)
    requires i < |code|
  {
    Pc(code, Start(code, i)) in DetailedStarts(code, |code|)
  }

  function DetailUpTo(code: seq<Insn>, n: nat): set<ExcEdge>
    requires n <= |code|
  {
    if n == 0 then {}
    else DetailUpTo(code, n - 1) + if InDetailedBlock(code, n - 1) then DetailAt(code, n - 1) else {}
  }

  /** Iterates the handlers of one instruction, as a catch handler iterator does. */
  method HandlerSet(insn: Insn) returns (pcs: set<nat>)
    ensures pcs == set h | h in insn.handlers
  {
    pcs := {};
    for k := 0 to |insn.handlers|
      invariant pcs == set h | h in insn.handlers[..k]
    {
      pcs := pcs + {insn.handlers[k]};
    }
    assert insn.handlers[..|insn.handlers|] == insn.handlers;
  }

  method EmitExcEdges(inclId: map<nat, nat>, node: nat, port: Port, handlers: set<nat>)
    returns (edges: set<ExcEdge>)
    ensures edges == ExcEdges(inclId, node, port, handlers)
  {
    edges := {};
    var rest := handlers;
    while rest != {}
      invariant rest <= handlers
      invariant edges == ExcEdges(inclId, node, port, handlers - rest)
      decreases |rest|
    {
      var h :| h in rest;
      if h in inclId {
        edges := edges + {ExcEdge(node, port, inclId[h], h)};
      }
      rest := rest - {h};
    }
    assert handlers - rest == handlers;
  }

  method EmitTaken(nodeId: map<nat, nat>, node: nat, pc: nat, kind: Kind) returns (edges: set<Edge>)
    ensures edges == set o | o in Offsets(kind) && Displace(pc, o) in nodeId ::
                       Edge(node, pc, nodeId[Displace(pc, o)], Displace(pc, o))
  {
    edges := {};
    var offsets := Offsets(kind);
    for t := 0 to |offsets|
      invariant edges == set o | o in offsets[..t] && Displace(pc, o) in nodeId ::
                           Edge(node, pc, nodeId[Displace(pc, o)], Displace(pc, o))
    {
      var target := Displace(pc, offsets[t]);
      if target in nodeId {
        edges := edges + {Edge(node, pc, nodeId[target], target)};
      }
      assert offsets[..t + 1] == offsets[..t] + [offsets[t]];
    }
    assert offsets[..|offsets|] == offsets;
  }

  /** What the block-start table answers for the address of instruction `i`. */
  lemma NodeIdAt(code: seq<Insn>, i: nat)
    requires ValidCode(code)
    requires i < |code|
    ensures Pc(code, i) in NodeIds(code, |code|) <==> Leader(code, i)
    ensures Leader(code, i) ==> NodeIds(code, |code|)[Pc(code, i)] == Block(code, i)
    ensures Block(code, i) < UINT32_MAX && Pc(code, i) < UINT32_MAX
  {
    NodeIdsExact(code, |code|);
    if Pc(code, i) in NodeIds(code, |code|) {
      var k :| 0 <= k < |code| && Leader(code, k) && Pc(code, k) == Pc(code, i);
      PcInjective(code, k, i);
    }
    PcBelowMax(code, i);
    BlockAtMost(code, i);
    PcAtLeast(code, i);
  }

  lemma InclIdAt(code: seq<Insn>, i: nat)
    requires ValidCode(code)
    requires i < |code|
    ensures Pc(code, i) in InclIds(code, |code|)
    ensures InclIds(code, |code|)[Pc(code, i)] == Block(code, i)
  {
    InclIdsExact(code, |code|);
  }

  lemma {:induction false} PcAtLeast(code: seq<Insn>, i: nat)
    requires ValidCode(code)
    requires i <= |code|
    ensures i <= Pc(code, i)
  {
    if i > 0 {
      PcAtLeast(code, i - 1);
    }
  }

  /** The state the first pass carries from one instruction to the next. */
  datatype Walk = Walk(carried: set<nat>, lastNode: nat, oldPc: nat, blockStart: nat)

  /** The walk state once the first `n` instructions have been visited. */
  ghost predicate WalkAt(code: seq<Insn>, n: nat, w: Walk)
    requires n <= |code|
  {
    if n == 0 then
      w.carried == {} && w.lastNode == UINT32_MAX && w.blockStart == UINT32_MAX
    else
      && w.carried == Carried(code, n - 1)
      && w.lastNode == (if FallsThrough(code[n - 1].kind) then Block(code, n - 1) else UINT32_MAX)
      && w.oldPc == Pc(code, n - 1)
      && w.blockStart == Pc(code, Start(code, n - 1))
  }

  /** The exception edges carried through the block that ends before instruction `n`. */
  method Flush(code: seq<Insn>, n: nat, nodeId: map<nat, nat>, inclId: map<nat, nat>,
               w: Walk) returns (flushed: set<ExcEdge>)
    requires ValidCode(code)
    requires n <= |code| && WalkAt(code, n, w)
    requires nodeId == NodeIds(code, |code|) && inclId == InclIds(code, |code|)
    ensures flushed == if n == 0 then {} else FlushedAt(code, n - 1)
  {
    hide NodeIds, InclIds, Carried, Leader, Pc;
    flushed := {};
    if w.carried != {} {
      NodeIdAt(code, Start(code, n - 1));
      flushed := EmitExcEdges(inclId, nodeId[w.blockStart], WholeBlock, w.carried);
    }
  }

  /** A block start: flush the previous block and connect a fall-through. */
  method EnterBlock(code: seq<Insn>, i: nat, nodeId: map<nat, nat>, inclId: map<nat, nat>, w: Walk)
    returns (w': Walk, regular: set<Edge>, flushed: set<ExcEdge>)
    requires ValidCode(code)
    requires i < |code| && Leader(code, i)
    requires nodeId == NodeIds(code, |code|) && inclId == InclIds(code, |code|)
    requires WalkAt(code, i, w)
    ensures regular == RegularAt(code, i)
    ensures flushed == if i == 0 then {} else FlushedAt(code, i - 1)
    ensures w' == Walk({}, Block(code, i), w.oldPc, Pc(code, i))
  {
    hide FlushedAt, NodeIds, InclIds;
    var pc := PcOf(code, i);
    NodeIdAt(code, i);
    regular := {};
    flushed := Flush(code, i, nodeId, inclId, w);
    var oldLast := w.lastNode;
    w' := Walk({}, nodeId[pc], w.oldPc, pc);
    if i > 0 {
      NodeIdAt(code, i - 1);
    }
    if oldLast != UINT32_MAX {
      regular := {Edge(oldLast, w.oldPc, w'.lastNode, pc)};
    }
  }

  /** The walk state once a block start has been dealt with, before instruction `i` itself. */
  ghost predicate Entered(code: seq<Insn>, i: nat, w: Walk)
    requires i < |code|
  {
    && w.carried == (if Leader(code, i) then {} else Carried(code, i - 1))
    && w.lastNode == Block(code, i)
    && w.blockStart == Pc(code, Start(code, i))
  }

  lemma EnteredInsideBlock(code: seq<Insn>, i: nat, w: Walk)
    requires i < |code| && !Leader(code, i)
    requires WalkAt(code, i, w)
    ensures Entered(code, i, w)
  {
  }

  method Visit(code: seq<Insn>, i: nat, pc: nat, nodeId: map<nat, nat>, w: Walk)
    returns (w': Walk, taken: set<Edge>, detailed: set<nat>)
    requires ValidCode(code)
    requires i < |code| && pc == Pc(code, i)
    requires nodeId == NodeIds(code, |code|)
    requires Entered(code, i, w)
    ensures WalkAt(code, i + 1, w')
    ensures taken == TakenAt(code, i)
    ensures detailed == if GivesUp(code, i) then {Pc(code, Start(code, i))} else {}
  {
    var kind := code[i].kind;
    var handlers := HandlerSet(code[i]);
    w' := w.(carried := w.carried + handlers);
    taken := EmitTaken(nodeId, w'.lastNode, pc, kind);
    detailed := {};
    if Start(code, i) < i {
      PcIncreasing(code, Start(code, i), i);
    }
    assert w.carried <= handlers <==> handlers == w.carried + handlers;
    if w'.blockStart != pc {
      var current := HandlerSet(code[i]);
      if current != w'.carried {
        w' := w'.(carried := {});
        detailed := {w'.blockStart};
      }
    }
    if kind.Return? || kind.Throw? || (kind.Branch? && kind.unconditional) {
      w' := w'.(lastNode := UINT32_MAX);
    }
    w' := w'.(oldPc := pc);
  }

  lemma EnteredAtStart(code: seq<Insn>, i: nat, oldPc: nat)
    requires i < |code| && Leader(code, i)
    ensures Entered(code, i, Walk({}, Block(code, i), oldPc, Pc(code, i)))
  {
  }

  lemma FirstPassStep(code: seq<Insn>, i: nat)
    requires i < |code|
    ensures RegularUpTo(code, i + 1) == RegularUpTo(code, i) + RegularAt(code, i)
    ensures !Leader(code, i) ==> RegularAt(code, i) == {}
    ensures TakenUpTo(code, i + 1) == TakenUpTo(code, i) + TakenAt(code, i)
    ensures DetailedStarts(code, i + 1) ==
            DetailedStarts(code, i) + if GivesUp(code, i) then {Pc(code, Start(code, i))} else {}
    ensures i == 0 ==> FlushedUpTo(code, i) == {} && Leader(code, i)
    ensures i > 0 ==>
              FlushedUpTo(code, i) == FlushedUpTo(code, i - 1) + if Leader(code, i) then FlushedAt(code, i - 1) else {}
    ensures Pc(code, i + 1) == Pc(code, i) + code[i].size
  {
  }

  /** The first pass at one instruction. */
  method FirstPassAt(code: seq<Insn>, i: nat, pc: nat, nodeId: map<nat, nat>, inclId: map<nat, nat>, w: Walk)
    returns (w': Walk, edge: set<Edge>, flushed: set<ExcEdge>, edges: set<Edge>, gaveUp: set<nat>)
    requires ValidCode(code) && i < |code| && pc == Pc(code, i) && WalkAt(code, i, w)
    requires nodeId == NodeIds(code, |code|) && inclId == InclIds(code, |code|)
    ensures WalkAt(code, i + 1, w')
    ensures edge == RegularAt(code, i)
    ensures flushed == if i > 0 && Leader(code, i) then FlushedAt(code, i - 1) else {}
    ensures edges == TakenAt(code, i)
    ensures gaveUp == if GivesUp(code, i) then {Pc(code, Start(code, i))} else {}
  {
    hide *;
    w', edge, flushed := w, {}, {};
    FirstPassStep(code, i);
    NodeIdAt(code, i);
    if pc in nodeId {
      EnteredAtStart(code, i, w.oldPc);
      w', edge, flushed := EnterBlock(code, i, nodeId, inclId, w);
    } else {
      EnteredInsideBlock(code, i, w);
    }
    w', edges, gaveUp := Visit(code, i, pc, nodeId, w');
  }

  method FirstPass(code: seq<Insn>, nodeId: map<nat, nat>, inclId: map<nat, nat>)
    returns (regular: set<Edge>, taken: set<Edge>, exceptions: set<ExcEdge>, detailed: set<nat>)
    requires ValidCode(code)
    requires nodeId == NodeIds(code, |code|) && inclId == InclIds(code, |code|)
    ensures regular == RegularUpTo(code, |code|)
    ensures taken == TakenUpTo(code, |code|)
    ensures exceptions == FlushedUpTo(code, |code|)
    ensures detailed == DetailedStarts(code, |code|)
  {
    hide *;
    regular, taken, exceptions, detailed := {}, {}, {}, {};
    var w := Walk({}, UINT32_MAX, 0, UINT32_MAX);
    var pc := 0;
    FirstPassStart(code, w);
    for i := 0 to |code|
      invariant pc == Pc(code, i)
      invariant WalkAt(code, i, w)
      invariant regular == RegularUpTo(code, i)
      invariant taken == TakenUpTo(code, i)
      invariant exceptions == if i == 0 then {} else FlushedUpTo(code, i - 1)
      invariant detailed == DetailedStarts(code, i)
    {
      FirstPassStep(code, i);
      var edge, flushed, edges, gaveUp;
      w, edge, flushed, edges, gaveUp := FirstPassAt(code, i, pc, nodeId, inclId, w);
      regular, taken := regular + edge, taken + edges;
      exceptions, detailed := exceptions + flushed, detailed + gaveUp;
      pc := pc + code[i].size;
    }
    FirstPassEnd(code);
    var flushed := Flush(code, |code|, nodeId, inclId, w);
    exceptions := exceptions + flushed;
  }

  lemma FirstPassStart(code: seq<Insn>, w: Walk)
    requires w == Walk({}, UINT32_MAX, 0, UINT32_MAX)
    ensures Pc(code, 0) == 0 && WalkAt(code, 0, w)
    ensures RegularUpTo(code, 0) == {} && TakenUpTo(code, 0) == {} && DetailedStarts(code, 0) == {}
  {
  }

  lemma FirstPassEnd(code: seq<Insn>)
    ensures |code| == 0 ==> FlushedUpTo(code, 0) == {}
    ensures |code| > 0 ==> FlushedUpTo(code, |code|) == FlushedUpTo(code, |code| - 1) + FlushedAt(code, |code| - 1)
  {
  }

  // --- Second pass over blocks whose handlers vary ---------------------------------------------

  /** Edges the second pass emits from instruction `k` to the end of its block. */
  function DetailFrom(code: seq<Insn>, k: nat): set<ExcEdge>
    requires k < |code|
    decreases |code| - k
  {
    DetailAt(code, k) + if EndsBlock(code, k) then {} else DetailFrom(code, k + 1)
  }

  /** How the second pass recognises the end of a block. */
  lemma NextInBlock(code: seq<Insn>, k: nat)
    requires ValidCode(code)
    requires k < |code|
    ensures Pc(code, k + 1) >= Pc(code, |code|) <==> k + 1 == |code|
    ensures k + 1 < |code| ==> (Pc(code, k + 1) in NodeIds(code, |code|) <==> Leader(code, k + 1))
    ensures IsBasicBlockEnd(code[k].kind) ==> EndsBlock(code, k)
    ensures !EndsBlock(code, k) ==> Block(code, k + 1) == Block(code, k)
  {
    if k + 1 < |code| {
      PcIncreasing(code, k + 1, |code|);
      NodeIdAt(code, k + 1);
    }
  }

  method DetailBlock(code: seq<Insn>, nodeId: map<nat, nat>, inclId: map<nat, nat>, s: nat)
    returns (edges: set<ExcEdge>)
    requires ValidCode(code)
    requires s < |code| && Leader(code, s)
    requires nodeId == NodeIds(code, |code|) && inclId == InclIds(code, |code|)
    ensures edges == DetailFrom(code, s)
  {
    edges := {};
    var k := s;
    var pc := PcOf(code, s);
    var size := PcOf(code, |code|);
    InclIdAt(code, s);
    var node := inclId[pc];
    while true
      invariant s <= k < |code|
      invariant pc == Pc(code, k)
      invariant node == Block(code, k)
      invariant DetailFrom(code, s) == edges + DetailFrom(code, k)
      decreases |code| - k
    {
      var handlers := HandlerSet(code[k]);
      var more := EmitExcEdges(inclId, node, At(pc), handlers);
      assert more == DetailAt(code, k);
      edges := edges + more;
      NextInBlock(code, k);
      if IsBasicBlockEnd(code[k].kind) {
        break;
      }
      pc := pc + code[k].size;
      if pc >= size {
        break;
      }
      if pc in nodeId {
        break;
      }
      k := k + 1;
    }
  }

  lemma {:induction false} DetailFromMember(code: seq<Insn>, k: nat, e: ExcEdge)
    requires k < |code|
    ensures e in DetailFrom(code, k) <==>
            exists i :: k <= i < |code| && Block(code, i) == Block(code, k) && e in DetailAt(code, i)
    decreases |code| - k
  {
    if EndsBlock(code, k) {
      forall i | k < i < |code|
        ensures Block(code, i) != Block(code, k)
      {
        BlockMonotone(code, k, i);
      }
    } else {
      DetailFromMember(code, k + 1, e);
    }
  }

  lemma {:induction false} DetailedStartsMember(code: seq<Insn>, n: nat, pc: nat)
    requires n <= |code|
    ensures pc in DetailedStarts(code, n) <==>
            exists i :: 0 <= i < n && GivesUp(code, i) && Pc(code, Start(code, i)) == pc
  {
    if n > 0 {
      DetailedStartsMember(code, n - 1, pc);
    }
  }

  lemma {:induction false} DetailUpToMember(code: seq<Insn>, n: nat, e: ExcEdge)
    requires n <= |code|
    ensures e in DetailUpTo(code, n) <==>
            exists i :: 0 <= i < n && InDetailedBlock(code, i) && e in DetailAt(code, i)
  {
    if n > 0 {
      DetailUpToMember(code, n - 1, e);
    }
  }

  /** `e` is a second-pass edge of an instruction whose block starts at an address in `starts`. */
  ghost predicate DetailOfBlocks(code: seq<Insn>, starts: set<nat>, e: ExcEdge) {
    exists i :: 0 <= i < |code| && Pc(code, Start(code, i)) in starts && e in DetailAt(code, i)
  }

  lemma DetailOfOneBlock(code: seq<Insn>, s: nat, e: ExcEdge)
    requires ValidCode(code)
    requires s < |code| && Leader(code, s)
    ensures e in DetailFrom(code, s) <==> DetailOfBlocks(code, {Pc(code, s)}, e)
  {
    DetailFromMember(code, s, e);
    assert Start(code, s) == s;
    if e in DetailFrom(code, s) {
      var i :| s <= i < |code| && Block(code, i) == Block(code, s) && e in DetailAt(code, i);
      SameBlockSameStart(code, i, s);
    }
    if DetailOfBlocks(code, {Pc(code, s)}, e) {
      var i :| 0 <= i < |code| && Pc(code, Start(code, i)) in {Pc(code, s)} && e in DetailAt(code, i);
      PcInjective(code, Start(code, i), s);
    }
  }

  lemma DetailedStartIsLeader(code: seq<Insn>, pc: nat)
    requires ValidCode(code)
    requires pc in DetailedStarts(code, |code|)
    ensures IsAddress(code, |code|, pc) && Leader(code, IndexOf(code, |code|, pc))
  {
    DetailedStartsMember(code, |code|, pc);
    var i :| 0 <= i < |code| && GivesUp(code, i) && Pc(code, Start(code, i)) == pc;
    IsAddressIntro(code, |code|, Start(code, i));
    PcInjective(code, IndexOf(code, |code|, pc), Start(code, i));
  }

  /** `edges` is what the second pass owes for the blocks that start at `starts`. */
  ghost predicate DetailedExactly(code: seq<Insn>, starts: set<nat>, edges: set<ExcEdge>) {
    forall e :: e in edges <==> DetailOfBlocks(code, starts, e)
  }

  lemma DetailedExactlyExtends(code: seq<Insn>, starts: set<nat>, edges: set<ExcEdge>, s: nat)
    requires ValidCode(code)
    requires s < |code| && Leader(code, s)
    requires DetailedExactly(code, starts, edges)
    ensures DetailedExactly(code, starts + {Pc(code, s)}, edges + DetailFrom(code, s))
  {
    forall e
      ensures e in edges + DetailFrom(code, s) <==> DetailOfBlocks(code, starts + {Pc(code, s)}, e)
    {
      DetailOfOneBlock(code, s, e);
      DetailOfBlocksUnion(code, starts, Pc(code, s), e);
    }
  }

  lemma DetailedExactlyAll(code: seq<Insn>, edges: set<ExcEdge>)
    requires DetailedExactly(code, DetailedStarts(code, |code|), edges)
    ensures edges == DetailUpTo(code, |code|)
  {
    forall e
      ensures e in edges <==> e in DetailUpTo(code, |code|)
    {
      DetailUpToMember(code, |code|, e);
    }
  }

  method SecondPass(code: seq<Insn>, nodeId: map<nat, nat>, inclId: map<nat, nat>, detailed: set<nat>)
    returns (edges: set<ExcEdge>)
    requires ValidCode(code)
    requires nodeId == NodeIds(code, |code|) && inclId == InclIds(code, |code|)
    requires detailed == DetailedStarts(code, |code|)
    ensures edges == DetailUpTo(code, |code|)
  {
    edges := {};
    var rest := detailed;
    while rest != {}
      invariant rest <= detailed
      invariant DetailedExactly(code, detailed - rest, edges)
      decreases |rest|
    {
      var pc :| pc in rest;
      DetailedStartIsLeader(code, pc);
      var s := IndexOf(code, |code|, pc);
      var more := DetailBlock(code, nodeId, inclId, s);
      DetailedExactlyExtends(code, detailed - rest, edges, s);
      assert detailed - (rest - {pc}) == detailed - rest + {pc};
      edges := edges + more;
      rest := rest - {pc};
    }
    assert detailed - rest == detailed;
    DetailedExactlyAll(code, edges);
  }

  lemma DetailOfBlocksUnion(code: seq<Insn>, starts: set<nat>, pc: nat, e: ExcEdge)
    ensures DetailOfBlocks(code, starts + {pc}, e) <==>
            DetailOfBlocks(code, starts, e) || DetailOfBlocks(code, {pc}, e)
  {
    hide Pc, Start, DetailAt;
    if DetailOfBlocks(code, starts + {pc}, e) {
      var i :| 0 <= i < |code| && Pc(code, Start(code, i)) in starts + {pc} && e in DetailAt(code, i);
      if Pc(code, Start(code, i)) in starts {
        assert DetailOfBlocks(code, starts, e);
      } else {
        assert Pc(code, Start(code, i)) in {pc};
      }
    }
    if DetailOfBlocks(code, starts, e) {
      var i :| 0 <= i < |code| && Pc(code, Start(code, i)) in starts && e in DetailAt(code, i);
      assert Pc(code, Start(code, i)) in starts + {pc};
    }
    if DetailOfBlocks(code, {pc}, e) {
      var i :| 0 <= i < |code| && Pc(code, Start(code, i)) in {pc} && e in DetailAt(code, i);
      assert Pc(code, Start(code, i)) in starts + {pc};
    }
  }

  // --- The exception edges are exact ------------------------------------------------------------

  /** Some instruction of block `b` is covered by handler `h`. */
  ghost predicate Covers(code: seq<Insn>, b: nat, h: nat) {
    exists i :: 0 <= i < |code| && Block(code, i) == b && h in Handlers(code, i)
  }

  function ExceptionEdges(code: seq<Insn>): set<ExcEdge> {
    FlushedUpTo(code, |code|) + DetailUpTo(code, |code|)
  }

  lemma {:induction false} FlushedMember(code: seq<Insn>, n: nat, e: ExcEdge)
    requires n <= |code|
    ensures e in FlushedUpTo(code, n) <==>
            exists i :: 0 <= i < n && EndsBlock(code, i) && e in FlushedAt(code, i)
  {
    if n > 0 {
      FlushedMember(code, n - 1, e);
    }
  }

  /** Last instruction of the block that holds instruction `i`. */
  function Last(code: seq<Insn>, i: nat): (l: nat)
    requires i < |code|
    ensures i <= l < |code| && EndsBlock(code, l)
    ensures Block(code, l) == Block(code, i)
    ensures forall k :: i < k <= l ==> !Leader(code, k)
    decreases |code| - i
  {
    if EndsBlock(code, i) then i else Last(code, i + 1)
  }

  /** Without giving up, the carried set never loses a handler inside a block. */
  lemma {:induction false} CarriedKeeps(code: seq<Insn>, i: nat, j: nat)
    requires i <= j < |code|
    requires forall k :: i < k <= j ==> !Leader(code, k) && !GivesUp(code, k)
    requires Carried(code, i) == Handlers(code, i)
    ensures Handlers(code, i) <= Carried(code, j)
    ensures Carried(code, j) == Handlers(code, j)
    decreases j
  {
    if i < j {
      CarriedKeeps(code, i, j - 1);
      assert !GivesUp(code, j);
    }
  }

  /** An instruction that does not give up carries exactly its own handlers. */
  lemma CarriedIsOwn(code: seq<Insn>, i: nat)
    requires i < |code| && !GivesUp(code, i)
    ensures Carried(code, i) == Handlers(code, i)
  {
  }

  lemma CoveredHasEdge(code: seq<Insn>, i: nat, h: nat)
    requires ValidCode(code)
    requires i < |code| && h in Handlers(code, i) && h in InclIds(code, |code|)
    ensures exists e :: e in ExceptionEdges(code) && e.fromNode == Block(code, i) && e.handlerPc == h
  {
    var incl := InclIds(code, |code|);
    if InDetailedBlock(code, i) {
      var e := ExcEdge(Block(code, i), At(Pc(code, i)), incl[h], h);
      assert e in DetailAt(code, i);
      DetailUpToMember(code, |code|, e);
    } else {
      var l := Last(code, i);
      forall k | i <= k <= l
        ensures !GivesUp(code, k)
      {
        NotDetailed(code, i, k);
      }
      CarriedIsOwn(code, i);
      CarriedKeeps(code, i, l);
      var e := ExcEdge(Block(code, l), WholeBlock, incl[h], h);
      assert e in FlushedAt(code, l);
      FlushedMember(code, |code|, e);
    }
  }

  lemma NotDetailed(code: seq<Insn>, i: nat, k: nat)
    requires i < |code| && !InDetailedBlock(code, i)
    requires i <= k <= Last(code, i)
    ensures !GivesUp(code, k)
  {
    BlockMonotone(code, i, k);
    SameBlockSameStart(code, i, k);
    DetailedStartsMember(code, |code|, Pc(code, Start(code, i)));
  }

  /**
   Whichever mix of flushing and detailing produced it, there is an exception edge from block `b`
   to handler `h` exactly when `h` is an instruction address that covers an instruction of `b`.
   */
  lemma ExceptionEdgesExact(code: seq<Insn>, b: nat, h: nat)
    requires ValidCode(code)
    ensures (exists e :: e in ExceptionEdges(code) && e.fromNode == b && e.handlerPc == h) <==>
            (IsAddress(code, |code|, h) && Covers(code, b, h))
  {
    InclIdsExact(code, |code|);
    if exists e :: e in ExceptionEdges(code) && e.fromNode == b && e.handlerPc == h {
      var e :| e in ExceptionEdges(code) && e.fromNode == b && e.handlerPc == h;
      ExceptionEdgeSound(code, e);
    }
    if IsAddress(code, |code|, h) && Covers(code, b, h) {
      var i :| 0 <= i < |code| && Block(code, i) == b && h in Handlers(code, i);
      CoveredHasEdge(code, i, h);
    }
  }

  /** Where an exception edge comes from and where it points. */
  lemma ExceptionEdgeSound(code: seq<Insn>, e: ExcEdge)
    requires ValidCode(code)
    requires e in ExceptionEdges(code)
    ensures IsAddress(code, |code|, e.handlerPc)
    ensures e.toNode == Block(code, IndexOf(code, |code|, e.handlerPc))
    ensures Covers(code, e.fromNode, e.handlerPc)
    ensures e.port.At? ==> exists i :: 0 <= i < |code| && Pc(code, i) == e.port.pc &&
                             Block(code, i) == e.fromNode && e.handlerPc in Handlers(code, i)
  {
    FlushedMember(code, |code|, e);
    DetailUpToMember(code, |code|, e);
    if e in FlushedUpTo(code, |code|) {
      var i :| 0 <= i < |code| && EndsBlock(code, i) && e in FlushedAt(code, i);
      FlushedSound(code, e, i);
    } else {
      var i :| 0 <= i < |code| && InDetailedBlock(code, i) && e in DetailAt(code, i);
      DetailSound(code, e, i);
    }
  }

  lemma FlushedSound(code: seq<Insn>, e: ExcEdge, i: nat)
    requires ValidCode(code) && i < |code| && e in FlushedAt(code, i)
    ensures IsAddress(code, |code|, e.handlerPc) && !e.port.At?
    ensures e.toNode == Block(code, IndexOf(code, |code|, e.handlerPc))
    ensures Covers(code, e.fromNode, e.handlerPc)
  {
    InclIdsExact(code, |code|);
    assert Carried(code, i) <= Handlers(code, i);
  }

  lemma DetailSound(code: seq<Insn>, e: ExcEdge, i: nat)
    requires ValidCode(code) && i < |code| && e in DetailAt(code, i)
    ensures IsAddress(code, |code|, e.handlerPc)
    ensures e.toNode == Block(code, IndexOf(code, |code|, e.handlerPc))
    ensures Covers(code, e.fromNode, e.handlerPc)
    ensures e.port.At? && Pc(code, i) == e.port.pc && Block(code, i) == e.fromNode && e.handlerPc in Handlers(code, i)
  {
    InclIdsExact(code, |code|);
  }

  // --- Regular and taken edges are exact ---------------------------------------------------------

  /** Control may pass from instruction `i` to instruction `j` without an exception. */
  predicate Flows(code: seq<Insn>, i: nat, j: nat)
    requires i < |code| && j < |code|
  {
    (j == i + 1 && FallsThrough(code[i].kind)) || Pc(code, j) in Targets(code, i)
  }

  /** Control may pass from `i` to `j` because `j` handles an exception of `i`. */
  predicate Raises(code: seq<Insn>, i: nat, j: nat)
    requires i < |code| && j < |code|
  {
    Pc(code, j) in Handlers(code, i)
  }

  function EdgeOf(code: seq<Insn>, i: nat, j: nat): Edge
    requires i < |code| && j < |code|
  {
    Edge(Block(code, i), Pc(code, i), Block(code, j), Pc(code, j))
  }

  lemma {:induction false} RegularMember(code: seq<Insn>, n: nat, e: Edge)
    requires n <= |code|
    ensures e in RegularUpTo(code, n) <==> exists i :: 0 <= i < n && e in RegularAt(code, i)
  {
    if n > 0 {
      RegularMember(code, n - 1, e);
    }
  }

  lemma {:induction false} TakenMember(code: seq<Insn>, n: nat, e: Edge)
    requires n <= |code|
    ensures e in TakenUpTo(code, n) <==> exists i :: 0 <= i < n && e in TakenAt(code, i)
  {
    if n > 0 {
      TakenMember(code, n - 1, e);
    }
  }

  function FlowEdges(code: seq<Insn>): set<Edge> {
    RegularUpTo(code, |code|) + TakenUpTo(code, |code|)
  }

  /** A branch or switch target that is an instruction starts a block. */
  lemma TargetIsLeader(code: seq<Insn>, i: nat, j: nat)
    requires i < |code| && j < |code|
    requires Pc(code, j) in Targets(code, i)
    ensures Leader(code, j)
  {
    TargetsUpToContains(code, |code|, i);
  }

  lemma FlowHasEdge(code: seq<Insn>, i: nat, j: nat)
    requires ValidCode(code)
    requires i < |code| && j < |code| && Flows(code, i, j)
    ensures (j == i + 1 && !Leader(code, j)) || EdgeOf(code, i, j) in FlowEdges(code)
  {
    var e := EdgeOf(code, i, j);
    if Pc(code, j) in Targets(code, i) {
      TargetIsLeader(code, i, j);
      NodeIdAt(code, j);
      assert e in TakenAt(code, i);
      TakenMember(code, |code|, e);
    } else if Leader(code, j) {
      assert e in RegularAt(code, j);
      RegularMember(code, |code|, e);
    }
  }

  /** Every edge joins an instruction to a block start it may pass control to. */
  lemma FlowEdgeSound(code: seq<Insn>, e: Edge)
    requires ValidCode(code)
    requires e in FlowEdges(code)
    ensures exists i: nat, j: nat :: i < |code| && j < |code| && Flows(code, i, j) && Leader(code, j) && e == EdgeOf(code, i, j)
  {
    RegularMember(code, |code|, e);
    TakenMember(code, |code|, e);
    if e in RegularUpTo(code, |code|) {
      var j :| 0 <= j < |code| && e in RegularAt(code, j);
      assert Flows(code, j - 1, j) && e == EdgeOf(code, j - 1, j);
    } else {
      var i :| 0 <= i < |code| && e in TakenAt(code, i);
      NodeIdsExact(code, |code|);
      var j :| 0 <= j < |code| && Leader(code, j) && Pc(code, j) == e.toPc;
      NodeIdAt(code, j);
      assert Flows(code, i, j) && e == EdgeOf(code, i, j);
    }
  }

  /**
   Between any two instructions, control flows exactly when one follows the other inside a block or
   the graph has the edge.
   */
  lemma FlowEdgesExact(code: seq<Insn>, i: nat, j: nat)
    requires ValidCode(code)
    requires i < |code| && j < |code|
    ensures Flows(code, i, j) <==> (j == i + 1 && !Leader(code, j)) || EdgeOf(code, i, j) in FlowEdges(code)
  {
    if Flows(code, i, j) {
      FlowHasEdge(code, i, j);
    }
    var e := EdgeOf(code, i, j);
    if e in FlowEdges(code) {
      FlowEdgeSound(code, e);
      var k: nat, l: nat :| k < |code| && l < |code| && Flows(code, k, l) && Leader(code, l) && e == EdgeOf(code, k, l);
      PcInjective(code, i, k);
      PcInjective(code, j, l);
    }
  }

  // --- Blocks partition the code ------------------------------------------------------------------

  /**
   The block of an address is the one with the greatest start at or below it, and a branch or
   switch target never lies inside a block.
   */
  lemma BlocksPartition(code: seq<Insn>, i: nat, pc: nat)
    requires ValidCode(code)
    requires i < |code|
    ensures Pc(code, i) in InclIds(code, |code|)
    ensures Pc(code, Start(code, i)) in NodeIds(code, |code|)
    ensures InclIds(code, |code|)[Pc(code, i)] == NodeIds(code, |code|)[Pc(code, Start(code, i))]
    ensures pc in NodeIds(code, |code|) && pc <= Pc(code, i) ==> pc <= Pc(code, Start(code, i))
    ensures Pc(code, i) in AllTargets(code) ==> Start(code, i) == i
  {
    InclIdAt(code, i);
    NodeIdAt(code, Start(code, i));
    if pc in NodeIds(code, |code|) && pc <= Pc(code, i) {
      StartIsGreatest(code, i, pc);
    }
  }

  lemma StartIsGreatest(code: seq<Insn>, i: nat, pc: nat)
    requires ValidCode(code)
    requires i < |code| && pc in NodeIds(code, |code|) && pc <= Pc(code, i)
    ensures pc <= Pc(code, Start(code, i))
  {
    var k := LeaderAt(code, pc);
    if i < k {
      PcIncreasing(code, i, k);
    } else if k < Start(code, i) {
      PcIncreasing(code, k, Start(code, i));
    }
  }

  lemma LeaderAt(code: seq<Insn>, pc: nat) returns (k: nat)
    requires ValidCode(code)
    requires pc in NodeIds(code, |code|)
    ensures k < |code| && Leader(code, k) && Pc(code, k) == pc
  {
    NodeIdsExact(code, |code|);
    k :| 0 <= k < |code| && Leader(code, k) && Pc(code, k) == pc;
  }

  /** Block ids are consecutive from zero: every id handed out is the id of some block. */
  lemma {:induction false} BlockIdsConsecutive(code: seq<Insn>, i: nat, b: nat)
    requires i < |code| && b <= Block(code, i)
    ensures exists s :: 0 <= s <= i && Leader(code, s) && Block(code, s) == b
    decreases i
  {
    if i == 0 {
      assert Leader(code, 0);
    } else if b <= Block(code, i - 1) {
      BlockIdsConsecutive(code, i - 1, b);
    } else {
      assert Leader(code, i);
    }
  }

  // --- Whole executions ---------------------------------------------------------------------------

  datatype Graph = Graph(regular: set<Edge>, taken: set<Edge>, exceptions: set<ExcEdge>)

  function GraphOf(code: seq<Insn>): Graph {
    Graph(RegularUpTo(code, |code|), TakenUpTo(code, |code|), ExceptionEdges(code))
  }

  /** The graph has an edge between two nodes. */
  ghost predicate Linked(g: Graph, a: nat, b: nat) {
    || (exists e :: e in g.regular + g.taken && e.fromNode == a && e.toNode == b)
    || (exists x :: x in g.exceptions && x.fromNode == a && x.toNode == b)
  }

  /** A sequence of instructions as control may visit them. */
  ghost predicate Execution(code: seq<Insn>, trace: seq<nat>) {
    && (forall k :: 0 <= k < |trace| ==> trace[k] < |code|)
    && (forall k :: 0 <= k < |trace| - 1 ==> Flows(code, trace[k], trace[k + 1]) || Raises(code, trace[k], trace[k + 1]))
  }

  /** The blocks an execution passes through, leaving out steps inside a block. */
  function BlocksOf(code: seq<Insn>, trace: seq<nat>): (nodes: seq<nat>)
    requires forall k :: 0 <= k < |trace| ==> trace[k] < |code|
    ensures trace != [] ==> nodes != [] && nodes[|nodes| - 1] == Block(code, trace[|trace| - 1])
    ensures trace != [] ==> nodes[0] == Block(code, trace[0])
  {
    if trace == [] then []
    else if |trace| == 1 then [Block(code, trace[0])]
    else
      var last, prev := trace[|trace| - 1], trace[|trace| - 2];
      var front := BlocksOf(code, trace[..|trace| - 1]);
      if last == prev + 1 && !Leader(code, last) then front else front + [Block(code, last)]
  }

  ghost predicate IsPath(g: Graph, nodes: seq<nat>) {
    forall k :: 0 <= k < |nodes| - 1 ==> Linked(g, nodes[k], nodes[k + 1])
  }

  lemma StepIsLinked(code: seq<Insn>, i: nat, j: nat)
    requires ValidCode(code)
    requires i < |code| && j < |code|
    requires Flows(code, i, j) || Raises(code, i, j)
    ensures (j == i + 1 && !Leader(code, j)) || Linked(GraphOf(code), Block(code, i), Block(code, j))
  {
    if Flows(code, i, j) {
      FlowHasEdge(code, i, j);
    } else {
      InclIdAt(code, j);
      CoveredHasEdge(code, i, Pc(code, j));
      var e :| e in ExceptionEdges(code) && e.fromNode == Block(code, i) && e.handlerPc == Pc(code, j);
      ExceptionEdgeSound(code, e);
      PcInjective(code, IndexOf(code, |code|, e.handlerPc), j);
    }
  }

  /** Every execution, however long, is a path in the graph. */
  lemma {:induction false} ExecutionsArePaths(code: seq<Insn>, trace: seq<nat>)
    requires ValidCode(code)
    requires Execution(code, trace)
    ensures IsPath(GraphOf(code), BlocksOf(code, trace))
    decreases |trace|
  {
    if |trace| >= 2 {
      var front := trace[..|trace| - 1];
      ExecutionsArePaths(code, front);
      assert trace[|trace| - 2 + 1] == trace[|trace| - 1];
      StepIsLinked(code, trace[|trace| - 2], trace[|trace| - 1]);
    }
  }

  /** Every link of the graph is taken by some step of some execution. */
  lemma LinksAreSteps(code: seq<Insn>, a: nat, b: nat)
    requires ValidCode(code)
    requires Linked(GraphOf(code), a, b)
    ensures exists i: nat, j: nat :: i < |code| && j < |code| && Block(code, i) == a && Block(code, j) == b &&
              (Flows(code, i, j) || Raises(code, i, j))
  {
    var g := GraphOf(code);
    if exists e :: e in g.regular + g.taken && e.fromNode == a && e.toNode == b {
      var e :| e in g.regular + g.taken && e.fromNode == a && e.toNode == b;
      assert e in FlowEdges(code);
      FlowEdgeSound(code, e);
    } else {
      var x :| x in g.exceptions && x.fromNode == a && x.toNode == b;
      ExceptionEdgeSound(code, x);
      var i :| 0 <= i < |code| && Block(code, i) == a && x.handlerPc in Handlers(code, i);
      assert Raises(code, i, IndexOf(code, |code|, x.handlerPc));
    }
  }

  /** The whole builder: all passes over the code of one method. */
  method DumpMethodCFG(code: seq<Insn>) returns (g: Graph)
    requires ValidCode(code)
    ensures g == GraphOf(code)
  {
    var targets := CollectTargets(code);
    var nodeId, inclId := CutBlocks(code, targets);
    var regular, taken, exceptions, detailed := FirstPass(code, nodeId, inclId);
    var more := SecondPass(code, nodeId, inclId, detailed);
    g := Graph(regular, taken, exceptions + more);
  }
}
