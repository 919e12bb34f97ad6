/**
 The debugger plugin's poll loop, composed with the JDWP agent's fd-forwarding transport.

 The plugin is a class whose methods are the branches of the poll loop; each is proved against a
 function on its state.  Those functions and the transport's own steps form a system joined by two
 FIFO channels, and the protocol's safety is an invariant of every run of it.
 */
module AdbProtocol {
  import opened Wrappers

  /** Messages from the transport. */
  datatype Msg = StartListen | EndListen | Accepted | HandshakeComplete | Closing

  /** A set of fds for one debugger connection, and whether the transport must shake hands on it. */
  datatype Fds = Fds(conn: nat, perform: bool)

  datatype Plugin = Plugin(
    sock: Option<nat>, loaded: bool, listening: bool, hasSocket: bool,
    sentFds: bool, performed: bool, ddmActive: bool)

  /** How handling data without an agent may end. */
  datatype DataOutcome = ShookHands | Broke | HandledDdm | IgnoredPacket | LoadedAgent | FailedToLoad

  // --- The branches of the poll loop, as functions ------------------------------------------------

  function InitPlugin(): Plugin {
    Plugin(None, false, false, false, false, false, false)
  }

  predicate ListensOnConnection(p: Plugin) {
    p.sock.Some? && !p.hasSocket && !p.sentFds
  }

  function AfterClose(p: Plugin): Plugin {
    p.(sock := None, performed := false, ddmActive := p.ddmActive && p.loaded)
  }

  function AfterSend(p: Plugin, delivered: bool): Plugin {
    if delivered then p.(sentFds := true) else p
  }

  /** The fds a branch sends, if it sends any. */
  function SentOnMessage(p: Plugin, msg: Msg): Option<Fds> {
    if msg.StartListen? && p.sock.Some? then Some(Fds(p.sock.value, !p.performed)) else None
  }

  function AfterMessage(p: Plugin, msg: Msg, delivered: bool): Plugin {
    match msg
    case StartListen =>
      var q := p.(listening := true);
      if p.sock.Some? then AfterSend(q, delivered) else q
    case EndListen => p.(listening := false)
    case HandshakeComplete => if p.hasSocket then p.(performed := true) else p
    case Closing => AfterClose(p).(hasSocket := false)
    case Accepted => p.(hasSocket := true, sentFds := false, performed := false)
  }

  function SentOnConnection(p: Plugin, conn: nat): Option<Fds> {
    if p.sock.None? && p.loaded && p.listening then Some(Fds(conn, true)) else None
  }

  function AfterConnection(p: Plugin, conn: nat, delivered: bool): Plugin {
    if p.sock.Some? then p
    else
      var q := p.(sock := Some(conn));
      if p.loaded && p.listening then AfterSend(q, delivered) else q
  }

  function SentOnData(p: Plugin): Option<Fds> {
    if p.sock.Some? && p.loaded && p.listening && !p.sentFds then Some(Fds(p.sock.value, true)) else None
  }

  /** Without an agent a connection first shakes hands; only then are packets looked at. */
  predicate OutcomeFits(p: Plugin, outcome: DataOutcome) {
    match outcome
    case ShookHands => !p.performed
    case Broke => true
    case _ => p.performed
  }

  function AfterData(p: Plugin, outcome: DataOutcome, delivered: bool): Plugin {
    if !p.loaded then
      match outcome
      case ShookHands => p.(performed := true)
      case Broke => AfterClose(p)
      case HandledDdm => p.(ddmActive := true)
      case LoadedAgent => p.(loaded := true)
      case _ => p
    else if p.listening && !p.sentFds then AfterSend(p, delivered)
    else p
  }

  // --- The plugin itself ----------------------------------------------------------------------------

  class AdbConnectionState {
    var sock: Option<nat>
    var loaded: bool
    var listening: bool
    var hasSocket: bool
    var sentFds: bool
    var performed: bool
    var ddmActive: bool
    /** Everything delivered to the agent's control socket. */
    var sent: seq<Fds>

    function Snapshot(): Plugin
      reads this
    {
      Plugin(sock, loaded, listening, hasSocket, sentFds, performed, ddmActive)
    }

    constructor ()
      ensures Snapshot() == InitPlugin() && sent == []
    {
      sock, loaded, listening, hasSocket := None, false, false, false;
      sentFds, performed, ddmActive, sent := false, false, false, [];
    }

    method NotifyDdms(active: bool)
      requires ddmActive != active
      modifies this`ddmActive
      ensures ddmActive == active
    {
      ddmActive := active;
    }

    method CloseFds()
      modifies this
      ensures Snapshot() == AfterClose(old(Snapshot())) && sent == old(sent)
    {
      sock := None;
      performed := false;
      if !loaded && ddmActive {
        NotifyDdms(false);
      }
    }

    /** A failed sendmsg leaves everything as it was; whether it fails is up to the surroundings. */
    method SendAgentFds(requireHandshake: bool, delivered: bool)
      requires sock.Some?
      modifies this
      ensures Snapshot() == AfterSend(old(Snapshot()), delivered)
      ensures sent == if delivered then old(sent) + [Fds(sock.value, requireHandshake)] else old(sent)
    {
      if delivered {
        sent := sent + [Fds(sock.value, requireHandshake)];
        sentFds := true;
      }
    }

    method OnAgentMessage(msg: Msg, delivered: bool)
      modifies this
      ensures Snapshot() == AfterMessage(old(Snapshot()), msg, delivered)
      ensures var fds := SentOnMessage(old(Snapshot()), msg);
              sent == if fds.Some? && delivered then old(sent) + [fds.value] else old(sent)
    {
      match msg
      case StartListen =>
        listening := true;
        if sock.Some? {
          SendAgentFds(!performed, delivered);
        }
      case EndListen =>
        listening := false;
      case HandshakeComplete =>
        if hasSocket {
          performed := true;
        }
      case Closing =>
        CloseFds();
        hasSocket := false;
      case Accepted =>
        hasSocket := true;
        sentFds := false;
        performed := false;
    }

    method OnNewConnection(conn: nat, delivered: bool)
      modifies this
      ensures Snapshot() == AfterConnection(old(Snapshot()), conn, delivered)
      ensures var fds := SentOnConnection(old(Snapshot()), conn);
              sent == if fds.Some? && delivered then old(sent) + [fds.value] else old(sent)
    {
      var maybeSendFds := false;
      if sock.None? {
        sock := Some(conn);
        maybeSendFds := true;
      }
      if maybeSendFds && loaded && listening {
        SendAgentFds(true, delivered);
      }
    }

    method OnAdbData(outcome: DataOutcome, delivered: bool)
      requires ListensOnConnection(Snapshot())
      requires !loaded ==> OutcomeFits(Snapshot(), outcome)
      modifies this
      ensures Snapshot() == AfterData(old(Snapshot()), outcome, delivered)
      ensures var fds := SentOnData(old(Snapshot()));
              sent == if fds.Some? && delivered then old(sent) + [fds.value] else old(sent)
    {
      if !loaded {
        HandleDataWithoutAgent(outcome);
      } else if listening && !sentFds {
        SendAgentFds(true, delivered);
      }
    }

    method HandleDataWithoutAgent(outcome: DataOutcome)
      requires !loaded && OutcomeFits(Snapshot(), outcome)
      modifies this
      ensures Snapshot() == AfterData(old(Snapshot()), outcome, false) && sent == old(sent)
    {
      match outcome
      case ShookHands =>
        performed := true;
      case Broke =>
        CloseFds();
      case HandledDdm =>
        if !ddmActive {
          NotifyDdms(true);
        }
      case IgnoredPacket =>
      case FailedToLoad =>
      case LoadedAgent =>
        loaded := true;
    }

    method OnAdbHangup()
      requires ListensOnConnection(Snapshot())
      modifies this
      ensures Snapshot() == AfterClose(old(Snapshot())) && sent == old(sent)
    {
      CloseFds();
    }
  }

  // --- The transport ----------------------------------------------------------------------------------

  /**
   The transport listens, receives one set of fds, shakes hands if told to, reports, stops listening
   and in the end closes.  A failed handshake closes the fds and waits for others.
   */
  datatype Agent =
    | Absent
    | Idle
    | Listening
    | Opening(fds: Fds)
    | Attached(conn: nat)
    | Open(conn: nat)

  // --- The composed system ----------------------------------------------------------------------------

  /** `pluginShook` and `agentShook` record on which connections either side completed a handshake. */
  datatype System = System(
    plugin: Plugin, agent: Agent, toPlugin: seq<Msg>, toAgent: seq<Fds>,
    nextConn: nat, pluginShook: set<nat>, agentShook: set<nat>)

  function InitSystem(): System {
    System(InitPlugin(), Absent, [], [], 0, {}, {})
  }

  datatype Step =
    | ReadMessage(delivered: bool)
    | Connect(delivered: bool)
    | Data(outcome: DataOutcome, delivered: bool)
    | Hangup
    | SetupListen
    | ReceiveFds
    | Handshake(ok: bool)
    | StopListening
    | CloseTransport

  predicate Enabled(s: System, step: Step) {
    match step
    case ReadMessage(_) => s.plugin.loaded && s.toPlugin != []
    case Connect(_) => true
    case Data(outcome, _) => ListensOnConnection(s.plugin) && (!s.plugin.loaded ==> OutcomeFits(s.plugin, outcome))
    case Hangup => ListensOnConnection(s.plugin)
    case SetupListen => s.agent.Idle?
    case ReceiveFds => s.agent.Listening? && s.toAgent != []
    case Handshake(ok) => s.agent.Opening? && (!s.agent.fds.perform ==> ok)
    case StopListening => s.agent.Attached?
    case CloseTransport => s.agent.Open?
  }

  /** The fds a step tries to send. */
  function Sends(s: System, step: Step): Option<Fds>
    requires Enabled(s, step)
  {
    match step
    case ReadMessage(_) => SentOnMessage(s.plugin, s.toPlugin[0])
    case Connect(_) => SentOnConnection(s.plugin, s.nextConn)
    case Data(_, _) => SentOnData(s.plugin)
    case _ => None
  }

  function Delivered(fds: Option<Fds>, delivered: bool): seq<Fds> {
    if fds.Some? && delivered then [fds.value] else []
  }

  function Next(s: System, step: Step): System
    requires Enabled(s, step)
  {
    match step
    case ReadMessage(delivered) =>
      s.(plugin := AfterMessage(s.plugin, s.toPlugin[0], delivered),
         toPlugin := s.toPlugin[1..],
         toAgent := s.toAgent + Delivered(Sends(s, step), delivered))
    case Connect(delivered) =>
      s.(plugin := AfterConnection(s.plugin, s.nextConn, delivered),
         nextConn := s.nextConn + 1,
         toAgent := s.toAgent + Delivered(Sends(s, step), delivered))
    case Data(outcome, delivered) =>
      s.(plugin := AfterData(s.plugin, outcome, delivered),
         agent := if !s.plugin.loaded && outcome.LoadedAgent? then Idle else s.agent,
         pluginShook := s.pluginShook + if !s.plugin.loaded && outcome.ShookHands? then {s.plugin.sock.value} else {},
         toAgent := s.toAgent + Delivered(Sends(s, step), delivered))
    case Hangup => s.(plugin := AfterClose(s.plugin))
    case SetupListen => s.(agent := Listening, toPlugin := s.toPlugin + [StartListen])
    case ReceiveFds =>
      s.(agent := Opening(s.toAgent[0]), toAgent := s.toAgent[1..], toPlugin := s.toPlugin + [Accepted])
    case Handshake(ok) =>
      var fds := s.agent.fds;
      if !ok then s.(agent := Listening, toPlugin := s.toPlugin + [Closing])
      else s.(agent := Attached(fds.conn),
              agentShook := s.agentShook + if fds.perform then {fds.conn} else {},
              toPlugin := s.toPlugin + [HandshakeComplete])
    case StopListening => s.(agent := Open(s.agent.conn), toPlugin := s.toPlugin + [EndListen])
    case CloseTransport => s.(agent := Idle, toPlugin := s.toPlugin + [Closing])
  }

  /** A step that tells the transport to skip the handshake, and whose message is lost. */
  predicate LosesSkip(s: System, step: Step)
    requires Enabled(s, step)
  {
    step.ReadMessage? && !step.delivered && Sends(s, step).Some? && !Sends(s, step).value.perform
  }

  // --- What is promised ---------------------------------------------------------------------------------

  /** The connection the transport holds, if any. */
  function Held(a: Agent): Option<nat> {
    match a
    case Opening(fds) => Some(fds.conn)
    case Attached(c) => Some(c)
    case Open(c) => Some(c)
    case _ => None
  }

  /** Each connection is handshaken by at most one side, and by exactly one once the agent uses it. */
  predicate ShakenOnce(s: System) {
    && s.pluginShook !! s.agentShook
    && (s.agent.Attached? || s.agent.Open? ==> s.agent.conn in s.pluginShook + s.agentShook)
    && (forall k :: 0 <= k < |s.toAgent| ==> FdsFit(s, s.toAgent[k]))
    && (s.agent.Opening? ==> FdsFit(s, s.agent.fds))
  }

  /** Fds say "skip" exactly when the plugin has shaken hands on that same connection. */
  predicate FdsFit(s: System, fds: Fds) {
    && (fds.perform <==> fds.conn !in s.pluginShook)
    && fds.conn !in s.agentShook
  }

  /** At most one set of fds is under way, and the plugin knows exactly when. */
  predicate OnePending(s: System) {
    && |s.toAgent| <= 1
    && (s.toAgent != [] ==> s.plugin.sentFds && Held(s.agent).None?)
  }

  predicate Safe(s: System) {
    ShakenOnce(s) && OnePending(s)
  }

  // --- Following the messages ---------------------------------------------------------------------------

  /** How far a session has come, as either side sees it. */
  datatype Phase = Quiet | Waiting | Shaking | Shaken | Detached

  function PluginPhase(p: Plugin): Phase {
    if p.hasSocket then (if !p.listening then Detached else if p.performed then Shaken else Shaking)
    else if p.listening then Waiting
    else Quiet
  }

  function AgentPhase(a: Agent): Phase {
    match a
    case Absent => Quiet
    case Idle => Quiet
    case Listening => Waiting
    case Opening(_) => Shaking
    case Attached(_) => Shaken
    case Open(_) => Detached
  }

  function Advance(phase: Phase, msg: Msg): Option<Phase> {
    match (phase, msg)
    case (Quiet, StartListen) => Some(Waiting)
    case (Waiting, Accepted) => Some(Shaking)
    case (Shaking, Closing) => Some(Waiting)
    case (Shaking, HandshakeComplete) => Some(Shaken)
    case (Shaken, EndListen) => Some(Detached)
    case (Detached, Closing) => Some(Quiet)
    case _ => None
  }

  /** The phase reached once all messages under way have been read. */
  function Follow(phase: Phase, msgs: seq<Msg>): Option<Phase>
    decreases |msgs|
  {
    if msgs == [] then Some(phase)
    else
      var next := Advance(phase, msgs[0]);
      if next.None? then None else Follow(next.value, msgs[1..])
  }

  lemma {:induction false} FollowAppend(phase: Phase, msgs: seq<Msg>, msg: Msg)
    requires Follow(phase, msgs).Some?
    ensures Follow(phase, msgs + [msg]) == Advance(Follow(phase, msgs).value, msg)
    decreases |msgs|
  {
    if msgs == [] {
      assert [msg][1..] == [];
      assert [] + [msg] == [msg];
    } else {
      assert (msgs + [msg])[1..] == msgs[1..] + [msg];
      FollowAppend(Advance(phase, msgs[0]).value, msgs[1..], msg);
    }
  }

  // --- The invariant ------------------------------------------------------------------------------------

  /** Reading the messages under way takes the plugin to where the agent is. */
  predicate InStep(s: System) {
    && Follow(PluginPhase(s.plugin), s.toPlugin) == Some(AgentPhase(s.agent))
    && (s.agent.Absent? <==> !s.plugin.loaded)
    && (!s.plugin.loaded ==> PluginPhase(s.plugin).Quiet? && s.toPlugin == [] && s.toAgent == [] && !s.plugin.sentFds)
    && (PluginPhase(s.plugin).Detached? ==> s.plugin.performed)
  }

  /** Fds under way are those of the current connection, and nothing overtakes them. */
  predicate InFlight(s: System) {
    if s.plugin.sentFds then
      && PluginPhase(s.plugin).Waiting? && s.plugin.sock.Some?
      && (if s.toAgent != []
          then |s.toAgent| == 1 && s.toAgent[0].conn == s.plugin.sock.value && s.toPlugin == []
          else s.toPlugin != [] && s.toPlugin[0].Accepted? && Accepted !in s.toPlugin[1..])
    else
      && s.toAgent == [] && Accepted !in s.toPlugin
      && (PluginPhase(s.plugin).Waiting? ==> s.toPlugin == [])
  }

  /** The connection the transport holds is the plugin's, until the close is under way. */
  predicate SameConnection(s: System) {
    && (Held(s.agent).Some? ==> s.plugin.sock == Held(s.agent) && Closing !in s.toPlugin)
    && (s.plugin.hasSocket ==> s.plugin.sock.Some?)
  }

  predicate Numbered(s: System) {
    && (s.plugin.sock.Some? ==> s.plugin.sock.value < s.nextConn)
    && (forall c :: c in s.pluginShook ==> c < s.nextConn)
    && (forall c :: c in s.agentShook ==> c < s.nextConn)
  }

  /** What the plugin knows about a connection that the transport has not been given. */
  predicate Remembered(s: System) {
    match PluginPhase(s.plugin)
    case Quiet =>
      && (s.plugin.sock.None? ==> !s.plugin.performed)
      && (s.plugin.sock.Some? ==> s.plugin.sock.value !in s.agentShook)
      && (s.plugin.sock.Some? ==> (s.plugin.performed <==> s.plugin.sock.value in s.pluginShook))
    case Waiting =>
      !s.plugin.sentFds && s.plugin.sock.Some? ==>
        s.plugin.sock.value !in s.pluginShook && s.plugin.sock.value !in s.agentShook
    case _ => true
  }

  predicate Inv(s: System) {
    InStep(s) && InFlight(s) && SameConnection(s) && Numbered(s) && Remembered(s) && ShakenOnce(s)
  }

  lemma InvInit()
    ensures Inv(InitSystem())
  {
  }

  lemma InvIsSafe(s: System)
    requires Inv(s)
    ensures Safe(s)
  {
  }

  lemma InvReadMessage(s: System, step: Step)
    requires Inv(s)
    requires step.ReadMessage? && Enabled(s, step) && !LosesSkip(s, step)
    ensures Inv(Next(s, step))
  {
    var msg := s.toPlugin[0];
    var t := Next(s, step);
    match msg {
      case StartListen =>
        assert PluginPhase(s.plugin).Quiet?;
        assert PluginPhase(t.plugin).Waiting?;
      case Accepted =>
        assert PluginPhase(s.plugin).Waiting? && PluginPhase(t.plugin).Shaking?;
      case Closing =>
        assert Held(s.agent).None?;
      case HandshakeComplete =>
        assert PluginPhase(s.plugin).Shaking?;
      case EndListen =>
        assert PluginPhase(s.plugin).Shaken?;
    }
  }

  lemma InvConnect(s: System, step: Step)
    requires Inv(s)
    requires step.Connect? && Enabled(s, step)
    ensures Inv(Next(s, step))
  {
  }

  lemma InvData(s: System, step: Step)
    requires Inv(s)
    requires step.Data? && Enabled(s, step)
    ensures Inv(Next(s, step))
  {
  }

  lemma InvHangup(s: System, step: Step)
    requires Inv(s)
    requires step.Hangup? && Enabled(s, step)
    ensures Inv(Next(s, step))
  {
    if PluginPhase(s.plugin).Quiet? {
      QuietFollow(s.toPlugin);
    }
    assert Held(s.agent).None?;
  }

  /** Without fds on their way a quiet plugin has at most to learn that the agent listens. */
  lemma QuietFollow(msgs: seq<Msg>)
    requires Follow(Quiet, msgs).Some? && Accepted !in msgs
    ensures msgs == [] || msgs == [StartListen]
    ensures Follow(Quiet, msgs).value.Quiet? || Follow(Quiet, msgs).value.Waiting?
  {
    if msgs != [] {
      assert Advance(Quiet, msgs[0]) == Some(Waiting);
      assert forall m :: m in msgs[1..] ==> m in msgs;
      WaitingFollow(msgs[1..]);
    }
  }

  lemma WaitingFollow(msgs: seq<Msg>)
    requires Follow(Waiting, msgs).Some? && Accepted !in msgs
    ensures msgs == []
  {
  }

  lemma InvAgent(s: System, step: Step)
    requires Inv(s)
    requires step.SetupListen? || step.ReceiveFds? || step.Handshake? || step.StopListening? || step.CloseTransport?
    requires Enabled(s, step)
    ensures Inv(Next(s, step))
  {
    match step {
      case SetupListen => InvSetupListen(s);
      case ReceiveFds => InvReceiveFds(s);
      case Handshake(ok) => InvHandshake(s, ok);
      case StopListening => InvStopListening(s);
      case CloseTransport => InvCloseTransport(s);
    }
  }

  lemma InvSetupListen(s: System)
    requires Inv(s) && Enabled(s, SetupListen)
    ensures Inv(Next(s, SetupListen))
  {
    FollowAppend(PluginPhase(s.plugin), s.toPlugin, StartListen);
  }

  lemma InvReceiveFds(s: System)
    requires Inv(s) && Enabled(s, ReceiveFds)
    ensures Inv(Next(s, ReceiveFds))
  {
    FollowAppend(PluginPhase(s.plugin), s.toPlugin, Accepted);
  }

  lemma InvHandshake(s: System, ok: bool)
    requires Inv(s) && Enabled(s, Handshake(ok))
    ensures Inv(Next(s, Handshake(ok)))
  {
    FollowAppend(PluginPhase(s.plugin), s.toPlugin, if ok then HandshakeComplete else Closing);
  }

  lemma InvStopListening(s: System)
    requires Inv(s) && Enabled(s, StopListening)
    ensures Inv(Next(s, StopListening))
  {
    FollowAppend(PluginPhase(s.plugin), s.toPlugin, EndListen);
  }

  lemma InvCloseTransport(s: System)
    requires Inv(s) && Enabled(s, CloseTransport)
    ensures Inv(Next(s, CloseTransport))
  {
    FollowAppend(PluginPhase(s.plugin), s.toPlugin, Closing);
  }

  lemma InvStep(s: System, step: Step)
    requires Inv(s)
    requires Enabled(s, step) && !LosesSkip(s, step)
    ensures Inv(Next(s, step))
  {
    match step {
      case ReadMessage(_) => InvReadMessage(s, step);
      case Connect(_) => InvConnect(s, step);
      case Data(_, _) => InvData(s, step);
      case Hangup => InvHangup(s, step);
      case _ => InvAgent(s, step);
    }
  }

  // --- Every run ----------------------------------------------------------------------------------------

  predicate Feasible(s: System, steps: seq<Step>)
    decreases |steps|
  {
    steps != [] ==> Enabled(s, steps[0]) && Feasible(Next(s, steps[0]), steps[1..])
  }

  function Run(s: System, steps: seq<Step>): System
    requires Feasible(s, steps)
    decreases |steps|
  {
    if steps == [] then s else Run(Next(s, steps[0]), steps[1..])
  }

  predicate KeepsSkips(s: System, steps: seq<Step>)
    requires Feasible(s, steps)
    decreases |steps|
  {
    steps != [] ==> !LosesSkip(s, steps[0]) && KeepsSkips(Next(s, steps[0]), steps[1..])
  }

  /** The plugin's own checks before it sends fds: none sent and none under way. */
  predicate SendsInTurn(s: System, step: Step)
    requires Enabled(s, step)
  {
    Sends(s, step).Some? ==> !s.plugin.sentFds && s.toAgent == [] && !s.plugin.hasSocket
  }

  /** Safe in every state of a run, and at every send. */
  predicate SafeThroughout(s: System, steps: seq<Step>)
    requires Feasible(s, steps)
    decreases |steps|
  {
    && Safe(s)
    && (steps != [] ==> SendsInTurn(s, steps[0]) && SafeThroughout(Next(s, steps[0]), steps[1..]))
  }

  lemma InvSendsInTurn(s: System, step: Step)
    requires Inv(s) && Enabled(s, step)
    ensures SendsInTurn(s, step)
  {
    if step.ReadMessage? && Sends(s, step).Some? {
      assert PluginPhase(s.plugin).Quiet?;
    }
  }

  lemma {:induction false} RunFromInv(s: System, steps: seq<Step>)
    requires Inv(s) && Feasible(s, steps) && KeepsSkips(s, steps)
    ensures SafeThroughout(s, steps)
    ensures Inv(Run(s, steps))
    decreases |steps|
  {
    InvIsSafe(s);
    if steps != [] {
      InvSendsInTurn(s, steps[0]);
      InvStep(s, steps[0]);
      RunFromInv(Next(s, steps[0]), steps[1..]);
    }
  }

  /**
   In every run in which no "skip" message is lost, fds are never sent while others are pending and
   each connection is handshaken by exactly one side.  Lost "perform" messages do no harm.
   */
  lemma EveryRunSafe(steps: seq<Step>)
    requires Feasible(InitSystem(), steps) && KeepsSkips(InitSystem(), steps)
    ensures SafeThroughout(InitSystem(), steps)
  {
    InvInit();
    RunFromInv(InitSystem(), steps);
  }

  /**
   The condition is exact: from any state a safe run reaches, losing a "skip" message can be followed
   by steps that lose nothing and end with both sides having shaken hands on one connection.
   */
  lemma LostSkipShakesTwice(s: System)
    requires Inv(s)
    requires Enabled(s, ReadMessage(false)) && LosesSkip(s, ReadMessage(false))
    ensures var rest := [Data(Broke, true), ReceiveFds, Handshake(true)];
            var t := Next(s, ReadMessage(false));
            && Feasible(t, rest) && KeepsSkips(t, rest)
            && s.plugin.sock.Some? && s.plugin.sock.value in Run(t, rest).pluginShook * Run(t, rest).agentShook
            && !Safe(Run(t, rest))
  {
    var c := s.plugin.sock.value;
    assert s.toPlugin[0].StartListen? && PluginPhase(s.plugin).Quiet?;
    assert c in s.pluginShook;
    assert Follow(Waiting, s.toPlugin[1..]) == Some(AgentPhase(s.agent));
    assert s.toPlugin[1..] == [];
    var t := Next(s, ReadMessage(false));
    assert t.agent.Listening? && t.toAgent == [] && ListensOnConnection(t.plugin);
    var rest := [Data(Broke, true), ReceiveFds, Handshake(true)];
    var t1 := Next(t, rest[0]);
    assert t1.toAgent == [Fds(c, true)];
    var t2 := Next(t1, rest[1]);
    var t3 := Next(t2, rest[2]);
    assert rest[1..] == [ReceiveFds, Handshake(true)];
    assert rest[1..][1..] == [Handshake(true)];
    assert rest[1..][1..][1..] == [];
    assert Run(t2, rest[1..][1..]) == t3;
    assert Run(t1, rest[1..]) == t3;
    assert c in t3.pluginShook && c in t3.agentShook;
  }

  /** A run that comes to the point of losing a "skip" message. */
  lemma SkipCanBeLost()
    ensures var steps := [Connect(false), Data(ShookHands, false), Data(LoadedAgent, false), SetupListen];
            && Feasible(InitSystem(), steps) && KeepsSkips(InitSystem(), steps)
            && Enabled(Run(InitSystem(), steps), ReadMessage(false))
            && LosesSkip(Run(InitSystem(), steps), ReadMessage(false))
  {
    var steps := [Connect(false), Data(ShookHands, false), Data(LoadedAgent, false), SetupListen];
    var s0 := InitSystem();
    var s1 := Next(s0, steps[0]);
    var s2 := Next(s1, steps[1]);
    var s3 := Next(s2, steps[2]);
    var s4 := Next(s3, steps[3]);
    assert steps[1..][1..][1..] == [SetupListen];
    assert steps[1..][1..] == [Data(LoadedAgent, false), SetupListen];
    assert steps[1..] == [Data(ShookHands, false), Data(LoadedAgent, false), SetupListen];
    assert [SetupListen][1..] == [];
    assert Run(s3, [SetupListen]) == s4;
    assert Run(s2, steps[1..][1..]) == s4;
    assert Run(s1, steps[1..]) == s4;
  }

  // --- The plugin in a run ----------------------------------------------------------------------------

  /** The fds that the steps of a run deliver, in order. */
  function DeliveredAlong(s: System, steps: seq<Step>): seq<Fds>
    requires Feasible(s, steps)
    decreases |steps|
  {
    if steps == [] then []
    else DeliveredBy(s, steps[0]) + DeliveredAlong(Next(s, steps[0]), steps[1..])
  }

  function DeliveredBy(s: System, step: Step): seq<Fds>
    requires Enabled(s, step)
  {
    match step
    case ReadMessage(delivered) => Delivered(Sends(s, step), delivered)
    case Connect(delivered) => Delivered(Sends(s, step), delivered)
    case Data(_, delivered) => Delivered(Sends(s, step), delivered)
    case _ => []
  }

  /** The branch of the poll loop that a step stands for, or none for a step of the transport. */
  method Execute(c: AdbConnectionState, s: System, step: Step)
    requires c.Snapshot() == s.plugin && Enabled(s, step)
    modifies c
    ensures c.Snapshot() == Next(s, step).plugin
    ensures c.sent == old(c.sent) + DeliveredBy(s, step)
  {
    match step {
      case ReadMessage(delivered) => c.OnAgentMessage(s.toPlugin[0], delivered);
      case Connect(delivered) => c.OnNewConnection(s.nextConn, delivered);
      case Data(outcome, delivered) => c.OnAdbData(outcome, delivered);
      case Hangup => c.OnAdbHangup();
      case _ =>
    }
  }

  /** The class, driven through any run, is the plugin of the composed system throughout. */
  lemma AlongStep(s: System, steps: seq<Step>)
    requires steps != [] && Feasible(s, steps)
    ensures Enabled(s, steps[0]) && Feasible(Next(s, steps[0]), steps[1..])
    ensures Run(s, steps) == Run(Next(s, steps[0]), steps[1..])
    ensures DeliveredAlong(s, steps) == DeliveredBy(s, steps[0]) + DeliveredAlong(Next(s, steps[0]), steps[1..])
  {
  }

  lemma AlongEnd(s: System)
    ensures Feasible(s, []) && Run(s, []) == s && DeliveredAlong(s, []) == []
  {
  }

  method RunPlugin(steps: seq<Step>) returns (c: AdbConnectionState)
    requires Feasible(InitSystem(), steps)
    ensures fresh(c) && c.Snapshot() == Run(InitSystem(), steps).plugin
    ensures c.sent == DeliveredAlong(InitSystem(), steps)
  {
    hide Enabled, Next, Feasible, Run, DeliveredAlong, DeliveredBy;
    c := new AdbConnectionState();
    ghost var all := DeliveredAlong(InitSystem(), steps);
    ghost var last := Run(InitSystem(), steps);
    var s := InitSystem();
    assert steps[0..] == steps;
    for i := 0 to |steps|
      invariant fresh(c) && c.Snapshot() == s.plugin && Feasible(s, steps[i..])
      invariant Run(s, steps[i..]) == last
      invariant c.sent + DeliveredAlong(s, steps[i..]) == all
    {
      assert steps[i..][1..] == steps[i + 1..];
      AlongStep(s, steps[i..]);
      Execute(c, s, steps[i]);
      s := Next(s, steps[i]);
    }
    AlongEnd(s);
  }
}
