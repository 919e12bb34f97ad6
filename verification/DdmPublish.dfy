/**
 Threads that publish DDM chunks, interleaved with the poll thread before an agent is loaded.

 Each step makes at most one access to state that another thread may change: a sender reads the socket
 and the handshake flag one after the other, and the poll thread, which alone changes them, may step in
 between.  The eventfd that serves as a lock is a counter: reading it
 waits until it is not zero, takes its value and leaves zero; writing adds the value back.  Writes to
 a connection are complete.
 */
module DdmPublish {
  import opened Bytes
  import opened Jdwp
  import opened Wrappers

  /** Where a thread is in sending one packet. */
  datatype Sender =
    | NotSending
    | WantsLock(msg: Message)
    | Checking(msg: Message, taken: nat)
    | Connected(msg: Message, taken: nat)
    | Writing(msg: Message, taken: nat)
    | Releasing(taken: nat)

  /** Where the poll thread is. */
  datatype Poll =
    | Idle
    | CloseWantsLock
    | CloseResets(taken: nat)
    | CloseReleases(taken: nat)
    | CloseForgets
    | AcceptWantsLock
    | AcceptAdopts(taken: nat)
    | AcceptReleases(taken: nat)
    | ShakeReplied
    | Replying(sender: Sender)

  /**
   Thread 0 is the poll thread; the others publish.  `holder` records who read the counter last and
   has not written it back, `logs` which messages were sent on each connection, and `stray` whether
   anything was written without a connection.
   */
  datatype State = State(
    sock: Option<nat>, performed: bool, counter: nat, nextId: nat,
    poll: Poll, senders: map<nat, Sender>,
    nextConn: nat, wires: map<nat, seq<Byte>>, logs: map<nat, seq<Message>>,
    holder: Option<nat>, stray: bool)

  function Init(): State {
    State(None, false, 1, 1, Idle, map[], 0, map[], map[], None, false)
  }

  /** The id of a published chunk: a 32-bit counter with the sign bit set. */
  function DdmId(counter: nat): nat {
    counter % 0x8000_0000 + 0x8000_0000
  }

  /** What has been written to a connection. */
  function WireOf(s: State, c: nat): seq<Byte> {
    if c in s.wires then s.wires[c] else []
  }

  /** The messages that have been sent on a connection. */
  function LogOf(s: State, c: nat): seq<Message> {
    if c in s.logs then s.logs[c] else []
  }

  function Written(s: State, bytes: seq<Byte>): State {
    if s.sock.None? then s.(stray := true)
    else s.(wires := s.wires[s.sock.value := WireOf(s, s.sock.value) + bytes])
  }

  function Sent(s: State, m: Message): State {
    var t := Written(s, PacketOf(m));
    if s.sock.None? then t else t.(logs := s.logs[s.sock.value := LogOf(s, s.sock.value) + [m]])
  }

  datatype Step =
    | StartClose | TakeForClose | ResetSocket | ReleaseAfterClose | ForgetHandshake
    | StartAccept | TakeForAccept | Adopt | ReleaseAfterAccept
    | SendHandshakeReply | RememberHandshake
    | StartReply(reply: Message) | FinishReply
    | Publish(thread: nat, chunk: nat, data: seq<Byte>) | Finish(thread: nat)
    | Take(thread: nat) | CheckSocket(thread: nat) | CheckHandshake(thread: nat) | Write(thread: nat) | Release(thread: nat)

  function SenderOf(s: State, t: nat): Sender {
    if t == 0 then (if s.poll.Replying? then s.poll.sender else NotSending)
    else if t in s.senders then s.senders[t]
    else NotSending
  }

  function SetSender(s: State, t: nat, sender: Sender): State {
    if t == 0 then s.(poll := Replying(sender)) else s.(senders := s.senders[t := sender])
  }

  predicate Enabled(s: State, step: Step) {
    match step
    case StartClose => s.poll.Idle? && s.sock.Some?
    case TakeForClose => s.poll.CloseWantsLock? && s.counter > 0
    case ResetSocket => s.poll.CloseResets?
    case ReleaseAfterClose => s.poll.CloseReleases?
    case ForgetHandshake => s.poll.CloseForgets?
    case StartAccept => s.poll.Idle?
    case TakeForAccept => s.poll.AcceptWantsLock? && s.counter > 0
    case Adopt => s.poll.AcceptAdopts?
    case ReleaseAfterAccept => s.poll.AcceptReleases?
    case SendHandshakeReply => s.poll.Idle? && s.sock.Some? && !s.performed
    case RememberHandshake => s.poll.ShakeReplied?
    case StartReply(m) => s.poll.Idle? && s.sock.Some? && s.performed && m.kind.Reply?
    case FinishReply => s.poll.Replying? && s.poll.sender.NotSending?
    case Publish(t, chunk, data) => t > 0 && SenderOf(s, t).NotSending? && Fits(Ddm(DdmId(s.nextId), Command, chunk, data))
    case Finish(t) => t > 0 && t in s.senders && s.senders[t].NotSending?
    case Take(t) => SenderOf(s, t).WantsLock? && s.counter > 0
    case CheckSocket(t) => SenderOf(s, t).Checking?
    case CheckHandshake(t) => SenderOf(s, t).Connected?
    case Write(t) => SenderOf(s, t).Writing?
    case Release(t) => SenderOf(s, t).Releasing?
  }

  function Next(s: State, step: Step): State
    requires Enabled(s, step)
  {
    match step
    case StartClose => s.(poll := CloseWantsLock)
    case TakeForClose => s.(poll := CloseResets(s.counter), counter := 0, holder := Some(0))
    case ResetSocket => s.(sock := None, poll := CloseReleases(s.poll.taken))
    case ReleaseAfterClose => s.(counter := s.counter + s.poll.taken, poll := CloseForgets, holder := None)
    case ForgetHandshake => s.(performed := false, poll := Idle)
    case StartAccept => s.(poll := AcceptWantsLock)
    case TakeForAccept => s.(poll := AcceptAdopts(s.counter), counter := 0, holder := Some(0))
    case Adopt =>
      var t := s.(poll := AcceptReleases(s.poll.taken), nextConn := s.nextConn + 1);
      if s.sock.Some? then t else t.(sock := Some(s.nextConn), wires := s.wires[s.nextConn := []], logs := s.logs[s.nextConn := []])
    case ReleaseAfterAccept => s.(counter := s.counter + s.poll.taken, poll := Idle, holder := None)
    case SendHandshakeReply => Written(s, HANDSHAKE).(poll := ShakeReplied)
    case RememberHandshake => s.(performed := true, poll := Idle)
    case StartReply(m) => s.(poll := Replying(WantsLock(m)))
    case FinishReply => s.(poll := Idle)
    case Publish(t, chunk, data) =>
      SetSender(s, t, WantsLock(Ddm(DdmId(s.nextId), Command, chunk, data))).(nextId := (s.nextId + 1) % 0x1_0000_0000)
    case Finish(t) => s.(senders := s.senders - {t})
    case Take(t) => SetSender(s, t, Checking(SenderOf(s, t).msg, s.counter)).(counter := 0, holder := Some(t))
    case CheckSocket(t) =>
      var sender := SenderOf(s, t);
      SetSender(s, t, if s.sock.None? then Releasing(sender.taken) else Connected(sender.msg, sender.taken))
    case CheckHandshake(t) =>
      var sender := SenderOf(s, t);
      SetSender(s, t, if !s.performed then Releasing(sender.taken) else Writing(sender.msg, sender.taken))
    case Write(t) =>
      var sender := SenderOf(s, t);
      SetSender(Sent(s, sender.msg), t, Releasing(sender.taken))
    case Release(t) =>
      SetSender(s, t, NotSending).(counter := s.counter + SenderOf(s, t).taken, holder := None)
  }

  // --- What is promised ---------------------------------------------------------------------------------

  function PacketsOf(log: seq<Message>): (ps: seq<seq<Byte>>)
    ensures |ps| == |log| && forall i :: 0 <= i < |log| ==> ps[i] == PacketOf(log[i])
  {
    seq(|log|, i requires 0 <= i < |log| => PacketOf(log[i]))
  }

  /** Nothing yet, or the handshake reply and then the packets of the messages, in order. */
  predicate Carries(wire: seq<Byte>, log: seq<Message>) {
    if wire == [] then log == [] else wire == HANDSHAKE + Concat(PacketsOf(log))
  }

  /** Nothing is written without a connection, and every connection carries what was sent on it. */
  predicate Safe(s: State) {
    !s.stray && s.wires.Keys == s.logs.Keys && forall c :: c in s.wires ==> Carries(s.wires[c], LogOf(s, c))
  }

  // --- The invariant ------------------------------------------------------------------------------------

  function PollTaken(p: Poll): nat {
    match p
    case CloseResets(n) => n
    case CloseReleases(n) => n
    case AcceptAdopts(n) => n
    case AcceptReleases(n) => n
    case Replying(sender) => Taken(sender)
    case _ => 0
  }

  function Taken(sender: Sender): nat {
    match sender
    case Checking(_, n) => n
    case Connected(_, n) => n
    case Writing(_, n) => n
    case Releasing(n) => n
    case _ => 0
  }

  /** What thread `t` took from the counter and still holds. */
  function TakenBy(s: State, t: nat): nat {
    if t == 0 then PollTaken(s.poll) else Taken(SenderOf(s, t))
  }

  predicate Holding(sender: Sender) {
    sender.Checking? || sender.Connected? || sender.Writing? || sender.Releasing?
  }

  predicate PollHolding(p: Poll) {
    p.CloseResets? || p.CloseReleases? || p.AcceptAdopts? || p.AcceptReleases? || (p.Replying? && Holding(p.sender))
  }

  predicate Holds(s: State, t: nat) {
    if t == 0 then PollHolding(s.poll) else Holding(SenderOf(s, t))
  }

  /** The counter is one, or one thread holds the one. */
  ghost predicate Locked(s: State) {
    && (forall t: nat :: Holds(s, t) <==> s.holder == Some(t))
    && (if s.holder.None? then s.counter == 1 else s.counter == 0 && TakenBy(s, s.holder.value) == 1)
  }

  /** Who has seen a connection still has it, and who writes has one that has been shaken. */
  ghost predicate WritersConnected(s: State) {
    forall t: nat ::
      && (SenderOf(s, t).Connected? ==> s.sock.Some?)
      && (SenderOf(s, t).Writing? ==> s.sock.Some? && s.performed)
  }

  predicate Remembered(s: State) {
    && (s.sock.Some? && s.performed ==> WireOf(s, s.sock.value) != [])
    && (s.sock.Some? && !s.performed && !s.poll.ShakeReplied? ==> WireOf(s, s.sock.value) == [])
    && (s.poll.ShakeReplied? ==> s.sock.Some? && !s.performed && WireOf(s, s.sock.value) == HANDSHAKE)
    && (s.performed && s.sock.None? ==> s.poll.CloseReleases? || s.poll.CloseForgets?)
    && (s.poll.CloseReleases? || s.poll.CloseForgets? ==> s.sock.None?)
    && (s.sock.Some? ==> s.sock.value < s.nextConn && s.sock.value in s.wires)
    && (forall c :: c in s.wires ==> c < s.nextConn)
  }

  ghost predicate Inv(s: State) {
    Locked(s) && WritersConnected(s) && Remembered(s) && Safe(s)
  }

  lemma InvInit()
    ensures Inv(Init())
  {
  }

  lemma WritersHold(s: State)
    ensures forall t: nat :: SenderOf(s, t).Connected? || SenderOf(s, t).Writing? ==> Holds(s, t)
  {
  }

  /** A step that writes nothing keeps what the connections carry. */
  lemma SafeKept(s: State, t: State)
    requires Safe(s) && t.wires == s.wires && t.logs == s.logs && t.stray == s.stray
    ensures Safe(t) && forall c :: WireOf(t, c) == WireOf(s, c)
  {
    hide Carries;
    assert forall c :: LogOf(t, c) == LogOf(s, c);
  }

  /** Nor does a step that neither takes nor gives back the lock change who holds it. */
  lemma LockKept(s: State, t: State)
    requires Locked(s) && t.counter == s.counter && t.holder == s.holder
    requires forall u: nat :: Holds(t, u) == Holds(s, u) && TakenBy(t, u) == TakenBy(s, u)
    ensures Locked(t)
  {
    hide Holds, TakenBy;
  }

  lemma InvPoll(s: State, step: Step)
    requires Inv(s) && Enabled(s, step)
    requires step.StartClose? || step.TakeForClose? || step.ResetSocket? || step.ReleaseAfterClose? || step.ForgetHandshake?
    ensures Inv(Next(s, step))
  {
    hide Safe, WireOf, LogOf;
    WritersHold(s);
    OthersUnmoved(s, Next(s, step), 0);
    SafeKept(s, Next(s, step));
  }

  lemma InvAccept(s: State, step: Step)
    requires Inv(s) && Enabled(s, step)
    requires step.StartAccept? || step.TakeForAccept? || step.ReleaseAfterAccept?
    ensures Inv(Next(s, step))
  {
    hide Safe, WireOf, LogOf;
    OthersUnmoved(s, Next(s, step), 0);
    SafeKept(s, Next(s, step));
  }

  lemma InvAdopt(s: State)
    requires Inv(s) && Enabled(s, Adopt)
    ensures Inv(Next(s, Adopt))
  {
    hide Safe, LogOf;
    OthersUnmoved(s, Next(s, Adopt), 0);
    SafeAdopted(s, Next(s, Adopt));
  }

  lemma SafeAdopted(s: State, t: State)
    requires Safe(s) && s.nextConn !in s.wires && t.stray == s.stray
    requires (t.wires == s.wires && t.logs == s.logs) ||
             (t.wires == s.wires[s.nextConn := []] && t.logs == s.logs[s.nextConn := []])
    ensures Safe(t)
  {
    hide Carries;
    CarriesNothing();
    forall c | c in t.wires
      ensures Carries(t.wires[c], LogOf(t, c))
    {
      assert c in s.wires || c == s.nextConn;
    }
  }

  lemma CarriesNothing()
    ensures Carries([], [])
  {
  }

  lemma InvShake(s: State)
    requires Inv(s) && Enabled(s, RememberHandshake)
    ensures Inv(Next(s, RememberHandshake))
  {
    hide Safe, WireOf, LogOf, HANDSHAKE, Locked;
    HandshakeNotEmpty();
    var t := Next(s, RememberHandshake);
    OthersUnmoved(s, t, 0);
    LockKept(s, t);
    SafeKept(s, t);
  }

  lemma HandshakeNotEmpty()
    ensures HANDSHAKE != []
  {
  }

  lemma InvReply(s: State, step: Step)
    requires Inv(s) && Enabled(s, step)
    requires step.StartReply? || step.FinishReply?
    ensures Inv(Next(s, step))
  {
    hide Safe, WireOf, LogOf, Locked;
    OthersUnmoved(s, Next(s, step), 0);
    LockKept(s, Next(s, step));
    SafeKept(s, Next(s, step));
  }

  lemma InvHandshakeReply(s: State)
    requires Inv(s) && Enabled(s, SendHandshakeReply)
    ensures Inv(Next(s, SendHandshakeReply))
  {
    hide Carries, Locked;
    OthersUnmoved(s, Next(s, SendHandshakeReply), 0);
    LockKept(s, Next(s, SendHandshakeReply));
    CarriesHandshake(LogOf(s, s.sock.value));
    var t, c := Next(s, SendHandshakeReply), s.sock.value;
    ConnectionKnown(s);
    assert WireOf(s, c) + HANDSHAKE == HANDSHAKE;
    assert t.wires[c] == HANDSHAKE && LogOf(t, c) == LogOf(s, c);
  }

  lemma CarriesHandshake(log: seq<Message>)
    ensures Carries([], log) ==> Carries(HANDSHAKE, log)
  {
    hide PacketOf;
    assert PacketsOf([]) == [];
    assert HANDSHAKE + Concat([]) == HANDSHAKE;
  }

  lemma ConnectionKnown(s: State)
    requires Remembered(s) && s.sock.Some?
    ensures s.sock.value in s.wires
  {
  }

  lemma InvSender(s: State, step: Step)
    requires Inv(s) && Enabled(s, step)
    requires step.Publish? || step.Finish?
    ensures Inv(Next(s, step))
  {
    hide Safe, WireOf, LogOf, Fits, DdmId, Locked;
    OthersUnmoved(s, Next(s, step), step.thread);
    LockKept(s, Next(s, step));
    SafeKept(s, Next(s, step));
  }

  lemma InvTake(s: State, t: nat)
    requires Inv(s) && Enabled(s, Take(t))
    ensures Inv(Next(s, Take(t)))
  {
    hide Safe, WireOf, LogOf;
    OthersUnmoved(s, Next(s, Take(t)), t);
    SafeKept(s, Next(s, Take(t)));
  }

  lemma InvCheckSocket(s: State, t: nat)
    requires Inv(s) && Enabled(s, CheckSocket(t))
    ensures Inv(Next(s, CheckSocket(t)))
  {
    hide Safe, WireOf, LogOf, Locked;
    OthersUnmoved(s, Next(s, CheckSocket(t)), t);
    LockKept(s, Next(s, CheckSocket(t)));
    SafeKept(s, Next(s, CheckSocket(t)));
  }

  lemma InvCheckHandshake(s: State, t: nat)
    requires Inv(s) && Enabled(s, CheckHandshake(t))
    ensures Inv(Next(s, CheckHandshake(t)))
  {
    hide Safe, WireOf, LogOf, Locked;
    OthersUnmoved(s, Next(s, CheckHandshake(t)), t);
    LockKept(s, Next(s, CheckHandshake(t)));
    SafeKept(s, Next(s, CheckHandshake(t)));
  }

  lemma InvRelease(s: State, t: nat)
    requires Inv(s) && Enabled(s, Release(t))
    ensures Inv(Next(s, Release(t)))
  {
    hide Safe, WireOf, LogOf;
    OthersUnmoved(s, Next(s, Release(t)), t);
    SafeKept(s, Next(s, Release(t)));
  }

  lemma InvWrite(s: State, step: Step)
    requires Inv(s) && Enabled(s, step)
    requires step.Write?
    ensures Inv(Next(s, step))
  {
    hide Carries, PacketOf;
    OthersUnmoved(s, Next(s, step), step.thread);
    CarriesMore(WireOf(s, s.sock.value), LogOf(s, s.sock.value), SenderOf(s, step.thread).msg);
  }

  /** A step of thread `t` leaves every other thread where it was. */
  lemma OthersUnmoved(s: State, s': State, t: nat)
    requires forall u: nat :: u != t ==> SenderOf(s', u) == SenderOf(s, u)
    requires t != 0 ==> s'.poll == s.poll
    ensures forall u: nat :: u != t ==> Holds(s', u) == Holds(s, u) && TakenBy(s', u) == TakenBy(s, u)
    ensures Holds(s, t) == if t == 0 then PollHolding(s.poll) else Holding(SenderOf(s, t))
    ensures Holds(s', t) == if t == 0 then PollHolding(s'.poll) else Holding(SenderOf(s', t))
  {
  }

  lemma CarriesMore(wire: seq<Byte>, log: seq<Message>, m: Message)
    requires Carries(wire, log) && wire != []
    ensures Carries(wire + PacketOf(m), log + [m]) && wire + PacketOf(m) != []
  {
    hide PacketOf;
    assert PacketsOf(log + [m]) == PacketsOf(log) + [PacketOf(m)];
    ConcatAppend(PacketsOf(log), PacketOf(m));
    Regroup(HANDSHAKE, Concat(PacketsOf(log)), PacketOf(m));
  }

  lemma InvStep(s: State, step: Step)
    requires Inv(s) && Enabled(s, step)
    ensures Inv(Next(s, step))
  {
    match step {
      case StartAccept => InvAccept(s, step);
      case TakeForAccept => InvAccept(s, step);
      case Adopt => InvAdopt(s);
      case ReleaseAfterAccept => InvAccept(s, step);
      case SendHandshakeReply => InvHandshakeReply(s);
      case RememberHandshake => InvShake(s);
      case StartReply(_) => InvReply(s, step);
      case FinishReply => InvReply(s, step);
      case Publish(_, _, _) => InvSender(s, step);
      case Finish(_) => InvSender(s, step);
      case Take(t) => InvTake(s, t);
      case CheckSocket(t) => InvCheckSocket(s, t);
      case CheckHandshake(t) => InvCheckHandshake(s, t);
      case Release(t) => InvRelease(s, t);
      case Write(_) => InvWrite(s, step);
      case _ => InvPoll(s, step);
    }
  }

  // --- Every interleaving -------------------------------------------------------------------------------

  predicate Feasible(s: State, steps: seq<Step>)
    decreases |steps|
  {
    steps != [] ==> Enabled(s, steps[0]) && Feasible(Next(s, steps[0]), steps[1..])
  }

  function Run(s: State, steps: seq<Step>): State
    requires Feasible(s, steps)
    decreases |steps|
  {
    if steps == [] then s else Run(Next(s, steps[0]), steps[1..])
  }

  /** A message is written only to the open connection, after the handshake reply, and logged there. */
  predicate WritesInTurn(s: State, step: Step)
    requires Enabled(s, step)
  {
    step.Write? ==>
      var m := SenderOf(s, step.thread).msg;
      && s.sock.Some? && HANDSHAKE <= WireOf(s, s.sock.value)
      && WireOf(Next(s, step), s.sock.value) == WireOf(s, s.sock.value) + PacketOf(m)
      && LogOf(Next(s, step), s.sock.value) == LogOf(s, s.sock.value) + [m]
  }

  ghost predicate SafeThroughout(s: State, steps: seq<Step>)
    requires Feasible(s, steps)
    decreases |steps|
  {
    && Safe(s)
    && (steps != [] ==> WritesInTurn(s, steps[0]) && SafeThroughout(Next(s, steps[0]), steps[1..]))
  }

  lemma InvWritesInTurn(s: State, step: Step)
    requires Inv(s) && Enabled(s, step)
    ensures WritesInTurn(s, step)
  {
    hide PacketOf;
  }

  lemma {:induction false} RunFromInv(s: State, steps: seq<Step>)
    requires Inv(s) && Feasible(s, steps)
    ensures SafeThroughout(s, steps) && Inv(Run(s, steps))
    decreases |steps|
  {
    if steps != [] {
      InvWritesInTurn(s, steps[0]);
      InvStep(s, steps[0]);
      RunFromInv(Next(s, steps[0]), steps[1..]);
    }
  }

  /**
   In every interleaving of any number of publishers with the poll thread: at every state of the run,
   the bytes on each connection are the handshake reply followed by the packets of exactly the
   messages sent on it, in their order, and none goes astray.
   */
  lemma EveryInterleavingSafe(steps: seq<Step>)
    requires Feasible(Init(), steps)
    ensures SafeThroughout(Init(), steps) && Safe(Run(Init(), steps))
  {
    InvInit();
    RunFromInv(Init(), steps);
  }

  /** The messages that a debugger takes from a stream of packets; other packets are not for DDM. */
  function Messages(packets: seq<seq<Byte>>): seq<Ddm> {
    if packets == [] then []
    else
      var m := MessageOf(packets[0]);
      (if m.Some? then [m.value] else []) + Messages(packets[1..])
  }

  lemma {:induction false} MessagesOfPackets(log: seq<Message>)
    ensures forall i :: 0 <= i < |log| ==> IsPacket(PacketsOf(log)[i])
    ensures Messages(PacketsOf(log)) == log
    decreases |log|
  {
    if log != [] {
      MessageOfPacket(log[0]);
      MessagesOfPackets(log[1..]);
      hide PacketOf, MessageOf, IsPacket;
      assert PacketsOf(log) == [PacketOf(log[0])] + PacketsOf(log[1..]);
      assert PacketsOf(log)[1..] == PacketsOf(log[1..]);
    }
  }

  /**
   Whatever the interleaving, the debugger at the other end of any connection parses the bytes behind
   the handshake into exactly the packets sent, and these into exactly the messages.
   */
  lemma DebuggerReceives(steps: seq<Step>, c: nat)
    requires Feasible(Init(), steps)
    requires var s := Run(Init(), steps); c in s.wires && s.wires[c] != []
    ensures var s := Run(Init(), steps);
            && HANDSHAKE <= s.wires[c]
            && Packets(s.wires[c][|HANDSHAKE|..]) == PacketsOf(LogOf(s, c))
            && Messages(Packets(s.wires[c][|HANDSHAKE|..])) == LogOf(s, c)
  {
    EveryInterleavingSafe(steps);
    var s := Run(Init(), steps);
    CarriedParses(s.wires[c], LogOf(s, c));
  }

  lemma CarriedParses(wire: seq<Byte>, log: seq<Message>)
    requires Carries(wire, log) && wire != []
    ensures HANDSHAKE <= wire && Packets(wire[|HANDSHAKE|..]) == PacketsOf(log)
    ensures Messages(Packets(wire[|HANDSHAKE|..])) == log
  {
    hide Packets, IsPacket, PacketOf, Messages;
    var ps := PacketsOf(log);
    MessagesOfPackets(log);
    PacketsAtBoundary(ps, []);
    assert Concat(ps) + [] == Concat(ps) && wire[|HANDSHAKE|..] == Concat(ps);
    NoPackets();
    assert ps + [] == ps;
  }

  lemma NoPackets()
    ensures Packets([]) == []
  {
  }
}
