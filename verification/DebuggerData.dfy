/**
 The two views of the debugger connection, brought together: what the bytes of a connection lead to
 (Jdwp) and what that does to the plugin and the transport (AdbProtocol). In a whole run the bytes
 decide the steps of the protocol, and every connection is handed over with its bytes.
 */
module DebuggerData {
  import opened Bytes
  import opened Wrappers
  import opened AdbProtocol
  import Jdwp

  /** What a wake-up of the plugin comes to, by the bytes that are there and the calls that succeed. */
  function OutcomeOf(performed: bool, unread: seq<Byte>, w: Jdwp.Wake): DataOutcome {
    if !performed then (if Jdwp.HandshakeSucceeds(unread, w) then ShookHands else Broke)
    else if !Jdwp.Survives(unread, w) then Broke
    else if Jdwp.OwnPacket(unread) != [] then
      (if Jdwp.IsChunk(Jdwp.OwnPacket(unread)[0]) then HandledDdm else IgnoredPacket)
    else if w.attachOk then LoadedAgent
    else FailedToLoad
  }

  /** Whatever the bytes, the outcome is one that the protocol admits for the state of the plugin. */
  lemma OutcomeOfFits(p: Plugin, unread: seq<Byte>, w: Jdwp.Wake)
    ensures OutcomeFits(p, OutcomeOf(p.performed, unread, w))
  {
  }

  // --- The bytes of a connection ------------------------------------------------------------------------

  /** What has arrived on a connection: what was consumed of it, as which packets, and what is unread. */
  datatype Wire = Wire(arrived: seq<Byte>, consumed: seq<Byte>, handled: seq<seq<Byte>>, unread: seq<Byte>)

  /** What a wake-up without an agent takes from the wire when the connection stays open. */
  function Taken(performed: bool, unread: seq<Byte>): (r: seq<Byte>)
    requires !performed ==> Jdwp.HANDSHAKE <= unread
    ensures r <= unread
  {
    if !performed then Jdwp.HANDSHAKE
    else if Jdwp.OwnPacket(unread) == [] then []
    else Jdwp.OwnPacket(unread)[0]
  }

  function Woken(performed: bool, wire: Wire, w: Jdwp.Wake): Wire {
    if OutcomeOf(performed, wire.unread, w).Broke? then wire
    else
      var taken := Taken(performed, wire.unread);
      wire.(consumed := wire.consumed + taken,
            handled := wire.handled + if performed then Jdwp.OwnPacket(wire.unread) else [],
            unread := wire.unread[|taken|..])
  }

  /** The handshake and whole packets are consumed once hands are shaken, and nothing before. */
  ghost predicate Framed(performed: bool, wire: Wire) {
    if performed then Jdwp.WellFramed(wire.consumed, wire.handled) else wire.consumed == [] && wire.handled == []
  }

  /** The wire after a wake-up, from what is known of it: nothing is lost and the consumed bytes are framed. */
  lemma WokenIs(performed: bool, wire: Wire, w: Jdwp.Wake, after: Wire)
    requires !OutcomeOf(performed, wire.unread, w).Broke? && after.arrived == wire.arrived
    requires Framed(performed, wire)
    requires Jdwp.WellFramed(after.consumed, after.handled)
    requires after.handled == wire.handled + if performed then Jdwp.OwnPacket(wire.unread) else []
    requires after.consumed + after.unread == wire.consumed + wire.unread
    ensures after == Woken(performed, wire, w)
  {
    var taken := Taken(performed, wire.unread);
    if performed && Jdwp.OwnPacket(wire.unread) != [] {
      ConcatAppend(wire.handled, taken);
      assert after.handled == wire.handled + [taken];
    } else {
      assert after.handled == wire.handled;
    }
    assert after.consumed == wire.consumed + taken;
    assert wire.unread == taken + wire.unread[|taken|..];
    assert after.consumed + after.unread == after.consumed + wire.unread[|taken|..];
    assert after.unread == (after.consumed + after.unread)[|after.consumed|..];
  }

  /** What a wake-up takes is the handshake, a packet or nothing. */
  lemma TakenIsFramed(performed: bool, wire: Wire)
    requires !performed ==> Jdwp.HANDSHAKE <= wire.unread
    requires Framed(performed, wire)
    ensures Jdwp.WellFramed(wire.consumed + Taken(performed, wire.unread),
                            wire.handled + if performed then Jdwp.OwnPacket(wire.unread) else [])
  {
    var taken := Taken(performed, wire.unread);
    if !performed {
      hide Jdwp.HANDSHAKE;
      assert [] + Jdwp.HANDSHAKE == Jdwp.HANDSHAKE + Concat([]);
    } else if Jdwp.OwnPacket(wire.unread) != [] {
      hide Jdwp.WellFramed, FromBe32;
      assert taken[..4] == wire.unread[..4];
      Jdwp.FullPacket(taken);
      Jdwp.WellFramedAppend(wire.consumed, wire.handled, taken);
    } else {
      hide Jdwp.WellFramed, FromBe32;
      assert wire.consumed + [] == wire.consumed && wire.handled + [] == wire.handled;
    }
  }

  lemma Moved(consumed: seq<Byte>, taken: seq<Byte>, unread: seq<Byte>)
    requires taken <= unread
    ensures consumed + unread == consumed + taken + unread[|taken|..]
  {
    assert unread == taken + unread[|taken|..];
  }

  /** A wake-up loses nothing and keeps the consumed bytes framed. */
  lemma WokenFramed(performed: bool, wire: Wire, w: Jdwp.Wake)
    requires wire.arrived == wire.consumed + wire.unread && !OutcomeOf(performed, wire.unread, w).Broke?
    requires Framed(performed, wire)
    ensures var after := Woken(performed, wire, w);
            after.arrived == after.consumed + after.unread && Jdwp.WellFramed(after.consumed, after.handled)
  {
    hide Jdwp.WellFramed, Taken, Jdwp.OwnPacket, Jdwp.HANDSHAKE, Jdwp.Survives;
    TakenIsFramed(performed, wire);
    Moved(wire.consumed, Taken(performed, wire.unread), wire.unread);
  }

  // --- One wake-up --------------------------------------------------------------------------------------

  /** The plugin and the connection it holds agree. */
  ghost predicate Agree(c: AdbConnectionState, j: Jdwp.Connection)
    reads c, j
  {
    && j.Valid() && c.sock.Some? == j.open
    && c.performed == j.performed && c.loaded == j.loaded
  }

  ghost function WireOf(j: Jdwp.Connection, arrived: seq<Byte>): Wire
    reads j
  {
    Wire(arrived, j.consumed, j.handled, j.unread)
  }

  /**
   Handling data without an agent, on the bytes and on the state: the plugin's state after it is what
   the bytes say, and only a packet with a whole chunk makes DDM active.
   */
  method HandleData(c: AdbConnectionState, j: Jdwp.Connection, w: Jdwp.Wake, ghost arrived: seq<Byte>)
    requires Agree(c, j) && ListensOnConnection(c.Snapshot()) && !c.loaded && Jdwp.Sendable(w.answer)
    modifies c, j
    ensures Agree(c, j)
    ensures c.Snapshot() == AfterData(old(c.Snapshot()), OutcomeOf(old(c.performed), old(j.unread), w), false)
    ensures c.sent == old(c.sent)
    ensures c.sock.Some? ==> WireOf(j, arrived) == Woken(old(c.performed), old(WireOf(j, arrived)), w)
    ensures c.ddmActive && !old(c.ddmActive) ==>
              && |j.handled| == |old(j.handled)| + 1
              && Jdwp.IsChunk(j.handled[|old(j.handled)|])
  {
    var outcome := OutcomeOf(c.performed, j.unread, w);
    assert |Jdwp.OwnPacket(j.unread)| <= 1;
    OutcomeOfFits(c.Snapshot(), j.unread, w);
    hide Jdwp.Survives, Jdwp.HandshakeSucceeds, Jdwp.IsChunk, Jdwp.WellFramed, Jdwp.Replies, Woken;
    j.HandleDataWithoutAgent(w);
    c.OnAdbData(outcome, false);
    if c.sock.Some? {
      WokenIs(old(c.performed), old(WireOf(j, arrived)), w, WireOf(j, arrived));
    }
  }

  // --- Whole runs ---------------------------------------------------------------------------------------

  /** What may happen to the plugin: bytes arrive, it wakes up on data, or any other step of the protocol. */
  datatype Event = Arrives(bytes: seq<Byte>) | Wakes(wake: Jdwp.Wake, delivered: bool) | Steps(step: Step)

  /** The protocol, and the bytes of the connection that the plugin holds. */
  datatype World = World(s: System, wire: Wire)

  predicate WakesWithoutAgent(v: World, e: Event) {
    e.Wakes? && ListensOnConnection(v.s.plugin) && !v.s.plugin.loaded
  }

  /** The step an event comes to; without an agent it is the bytes that decide what data comes to. */
  function StepOf(v: World, e: Event): (r: Option<Step>)
    ensures r.Some? ==> Enabled(v.s, r.value)
  {
    if e.Arrives? then None
    else if WakesWithoutAgent(v, e) then
      OutcomeOfFits(v.s.plugin, v.wire.unread, e.wake);
      Some(Data(OutcomeOf(v.s.plugin.performed, v.wire.unread, e.wake), e.delivered))
    else
      var step := if e.Wakes? then Data(Broke, e.delivered) else e.step;
      if Enabled(v.s, step) && (step.Data? ==> v.s.plugin.loaded) then Some(step) else None
  }

  function SystemAfter(v: World, e: Event): System {
    var step := StepOf(v, e);
    if step.Some? then Next(v.s, step.value) else v.s
  }

  function WireAfter(v: World, e: Event): Wire {
    if e.Arrives? then
      (if v.s.plugin.sock.None? then v.wire
       else v.wire.(arrived := v.wire.arrived + e.bytes, unread := v.wire.unread + e.bytes))
    else if WakesWithoutAgent(v, e) then Woken(v.s.plugin.performed, v.wire, e.wake)
    else if v.s.plugin.sock.None? && SystemAfter(v, e).plugin.sock.Some? then Wire([], [], [], [])
    else v.wire
  }

  function After(v: World, e: Event): World {
    World(SystemAfter(v, e), WireAfter(v, e))
  }

  function InitWorld(): World {
    World(InitSystem(), Wire([], [], [], []))
  }

  function WorldAfter(v: World, events: seq<Event>): World
    decreases |events|
  {
    if events == [] then v else WorldAfter(After(v, events[0]), events[1..])
  }

  function StepsAlong(v: World, events: seq<Event>): (steps: seq<Step>)
    ensures Feasible(v.s, steps) && Run(v.s, steps) == WorldAfter(v, events).s
    decreases |events|
  {
    if events == [] then []
    else
      var step, rest := StepOf(v, events[0]), StepsAlong(After(v, events[0]), events[1..]);
      if step.None? then rest
      else
        assert ([step.value] + rest)[1..] == rest;
        [step.value] + rest
  }

  // --- What the transport is handed ---------------------------------------------------------------------

  /** Fds that were handed to the transport, with the bytes of their connection at that moment. */
  datatype Handover = Handover(fds: Fds, wire: Wire)

  function HandedOver(v: World, e: Event): seq<Handover> {
    var step := StepOf(v, e);
    if step.None? then []
    else
      var sent := DeliveredBy(v.s, step.value);
      if sent == [] then [] else [Handover(sent[0], WireAfter(v, e))]
  }

  function Handovers(v: World, events: seq<Event>): seq<Handover>
    decreases |events|
  {
    if events == [] then [] else HandedOver(v, events[0]) + Handovers(After(v, events[0]), events[1..])
  }

  /**
   Nothing was lost, and the transport starts reading where it expects to: at the handshake when it is
   to shake hands, and otherwise behind the handshake and whole packets.
   */
  ghost predicate AtBoundary(h: Handover) {
    && h.wire.arrived == h.wire.consumed + h.wire.unread
    && (h.fds.perform ==> h.wire.consumed == [])
    && (!h.fds.perform ==> Jdwp.WellFramed(h.wire.consumed, h.wire.handled))
  }

  /** How the bytes of the current connection stand to what the protocol records about it. */
  ghost predicate Linked(v: World) {
    var p := v.s.plugin;
    && (forall x :: x in v.s.pluginShook ==> x < v.s.nextConn)
    && (p.sock.None? && !p.loaded ==> !p.performed)
    && (p.sock.Some? ==>
          && p.sock.value < v.s.nextConn && v.wire.arrived == v.wire.consumed + v.wire.unread
          && (!p.loaded ==> (p.performed <==> p.sock.value in v.s.pluginShook))
          && Framed(p.sock.value in v.s.pluginShook, v.wire))
  }

  lemma LinkedAfterWake(v: World, e: Event)
    requires Linked(v) && WakesWithoutAgent(v, e)
    ensures Linked(After(v, e))
  {
    hide Jdwp.WellFramed, Woken, OutcomeOf;
    if !OutcomeOf(v.s.plugin.performed, v.wire.unread, e.wake).Broke? {
      WokenFramed(v.s.plugin.performed, v.wire, e.wake);
    }
  }

  /** A step that moves no bytes leaves the connection as it was, closes it, or brings a new one. */
  lemma OtherStep(s: System, step: Step)
    requires Enabled(s, step) && (step.Data? ==> s.plugin.loaded)
    ensures var t := Next(s, step);
            && t.pluginShook == s.pluginShook && t.nextConn >= s.nextConn && t.plugin.loaded == s.plugin.loaded
            && (s.plugin.sock.Some? && t.plugin.sock.Some? ==> t.plugin.sock == s.plugin.sock)
            && (s.plugin.sock.None? && t.plugin.sock.Some? ==>
                  t.plugin.sock == Some(s.nextConn) && t.nextConn > s.nextConn)
            && (!s.plugin.loaded ==>
                  t.plugin.performed == (s.plugin.performed && (t.plugin.sock.Some? || s.plugin.sock.None?)))
  {
    hide Sends, Delivered;
  }

  lemma StaysLinked(v: World, e: Event)
    requires Linked(v)
    ensures Linked(After(v, e))
  {
    if WakesWithoutAgent(v, e) {
      LinkedAfterWake(v, e);
    } else if StepOf(v, e).Some? {
      OtherStep(v.s, StepOf(v, e).value);
      hide Jdwp.WellFramed, Next, Enabled, Woken, OutcomeOf, WakesWithoutAgent, StepOf;
      assert Linked(After(v, e));
    } else {
      hide Jdwp.WellFramed, Next, Enabled, Woken, OutcomeOf;
      assert Linked(After(v, e));
    }
  }

  /** What a step delivers is about the current connection. */
  lemma DeliversCurrent(s: System, step: Step)
    requires Enabled(s, step)
    ensures |DeliveredBy(s, step)| <= 1
    ensures DeliveredBy(s, step) != [] ==> Next(s, step).plugin.sock == Some(DeliveredBy(s, step)[0].conn)
    ensures DeliveredBy(s, step) != [] ==> Next(s, step).toAgent == s.toAgent + DeliveredBy(s, step)
  {
  }

  /** In any state, a handover is at a boundary exactly when it tells whether the plugin has shaken hands. */
  lemma BoundaryExactly(v: World, e: Event)
    requires Linked(v)
    ensures forall h :: h in HandedOver(v, e) ==>
              (AtBoundary(h) <==> (h.fds.perform <==> h.fds.conn !in After(v, e).s.pluginShook))
  {
    StaysLinked(v, e);
    if StepOf(v, e).Some? {
      DeliversCurrent(v.s, StepOf(v, e).value);
    }
    hide Next, Enabled, DeliveredBy, WireAfter, StepOf;
  }

  /** What is delivered without losing a skip is delivered at a boundary. */
  lemma HandedOverAtBoundary(v: World, e: Event)
    requires Linked(v) && Inv(v.s) && StepOf(v, e).Some? && !LosesSkip(v.s, StepOf(v, e).value)
    ensures forall h :: h in HandedOver(v, e) ==> AtBoundary(h)
  {
    var step := StepOf(v, e).value;
    var t := After(v, e);
    InvStep(v.s, step);
    DeliversCurrent(v.s, step);
    BoundaryExactly(v, e);
    hide Linked, Next, Enabled, DeliveredBy, Inv, LosesSkip, AtBoundary, WireAfter, StepOf;
    InvIsSafe(t.s);
    if DeliveredBy(v.s, step) != [] {
      assert t.s.toAgent[|t.s.toAgent| - 1] == DeliveredBy(v.s, step)[0];
      assert FdsFit(t.s, DeliveredBy(v.s, step)[0]);
    }
  }

  lemma StepsAlongStep(v: World, events: seq<Event>)
    requires events != []
    ensures var step, rest := StepOf(v, events[0]), StepsAlong(After(v, events[0]), events[1..]);
            && StepsAlong(v, events) == (if step.Some? then [step.value] else []) + rest
            && (if step.Some? then After(v, events[0]).s == Next(v.s, step.value) else After(v, events[0]).s == v.s)
            && (KeepsSkips(v.s, StepsAlong(v, events)) <==>
                  && (step.Some? ==> !LosesSkip(v.s, step.value))
                  && KeepsSkips(After(v, events[0]).s, rest))
  {
    var step, rest := StepOf(v, events[0]), StepsAlong(After(v, events[0]), events[1..]);
    hide Next, Enabled, LosesSkip, WireAfter, StepOf;
    if step.Some? {
      assert ([step.value] + rest)[1..] == rest;
    } else {
      assert [] + rest == rest;
    }
  }

  lemma {:induction false} RunHandsOver(v: World, events: seq<Event>)
    requires Linked(v) && Inv(v.s) && KeepsSkips(v.s, StepsAlong(v, events))
    ensures forall h :: h in Handovers(v, events) ==> AtBoundary(h)
    decreases |events|
  {
    if events != [] {
      StaysLinked(v, events[0]);
      StepsAlongStep(v, events);
      hide Linked, Inv, Next, Enabled, LosesSkip, After, StepOf, AtBoundary, KeepsSkips, StepsAlong;
      if StepOf(v, events[0]).Some? {
        InvStep(v.s, StepOf(v, events[0]).value);
        HandedOverAtBoundary(v, events[0]);
      }
      RunHandsOver(After(v, events[0]), events[1..]);
    }
  }

  /**
   Bytes may arrive at any time and in any pieces, calls fail as they like, connections and messages
   come as they please: as long as no skip is lost, every handover is at a boundary.
   */
  lemma EveryHandoverAtBoundary(events: seq<Event>)
    requires KeepsSkips(InitSystem(), StepsAlong(InitWorld(), events))
    ensures forall h :: h in Handovers(InitWorld(), events) ==> AtBoundary(h)
  {
    InvInit();
    RunHandsOver(InitWorld(), events);
  }

  /** A run is one event longer. */
  lemma {:induction false} LastEvent(v: World, events: seq<Event>, e: Event)
    ensures WorldAfter(v, events + [e]) == After(WorldAfter(v, events), e)
    ensures Handovers(v, events + [e]) == Handovers(v, events) + HandedOver(WorldAfter(v, events), e)
    decreases |events|
  {
    hide After, HandedOver;
    if events == [] {
      assert [] + [e] == [e] && [e][1..] == [];
    } else {
      assert (events + [e])[1..] == events[1..] + [e];
      LastEvent(After(v, events[0]), events[1..], e);
    }
  }

  /** Hands are shaken, an agent is loaded and listens, but the fds that it is sent get lost. */
  function LostSkip(w: Jdwp.Wake): seq<Event> {
    [Steps(Connect(false)), Arrives(Jdwp.HANDSHAKE), Wakes(w, false), Arrives([0]), Wakes(w, false)]
    + [Steps(SetupListen), Steps(ReadMessage(false))]
  }

  /** The world after so many of the events. */
  function Upto(events: seq<Event>, k: nat): World
    requires k <= |events|
  {
    WorldAfter(InitWorld(), events[..k])
  }

  lemma UptoNext(events: seq<Event>, k: nat)
    requires k < |events|
    ensures Upto(events, k + 1) == After(Upto(events, k), events[k]) && Upto(events, 0) == InitWorld()
  {
    LastEvent(InitWorld(), events[..k], events[k]);
    assert events[..k] + [events[k]] == events[..k + 1];
  }

  lemma ShakesHands(w: Jdwp.Wake)
    requires w.availKnown && w.received && w.sent
    ensures var v := Upto(LostSkip(w), 3);
            && v.s.plugin == InitPlugin().(sock := Some(0), performed := true)
            && v.s == InitSystem().(plugin := v.s.plugin, nextConn := 1, pluginShook := {0})
            && v.wire.consumed == Jdwp.HANDSHAKE && v.wire.unread == []
  {
    UptoNext(LostSkip(w), 0);
    UptoNext(LostSkip(w), 1);
    UptoNext(LostSkip(w), 2);
    assert Upto(LostSkip(w), 2).wire.unread == Jdwp.HANDSHAKE;
  }

  lemma LoadsAgent(w: Jdwp.Wake)
    requires w.peekOk && w.availKnown && w.received && w.sent && w.attachOk
    ensures var v := Upto(LostSkip(w), 5);
            && v.s.plugin == InitPlugin().(sock := Some(0), performed := true, loaded := true)
            && v.s.agent == Idle && v.s.toPlugin == [] && v.wire.consumed == Jdwp.HANDSHAKE
  {
    ShakesHands(w);
    UptoNext(LostSkip(w), 3);
    UptoNext(LostSkip(w), 4);
    hide Upto, WorldAfter;
    assert Upto(LostSkip(w), 4).wire.unread == [0];
  }

  lemma LosesFds(w: Jdwp.Wake)
    requires w.peekOk && w.availKnown && w.received && w.sent && w.attachOk
    ensures var v := WorldAfter(InitWorld(), LostSkip(w));
            && v.wire.consumed == Jdwp.HANDSHAKE && ListensOnConnection(v.s.plugin)
            && v.s.plugin.loaded && SentOnData(v.s.plugin) == Some(Fds(0, true))
  {
    LoadsAgent(w);
    UptoNext(LostSkip(w), 5);
    UptoNext(LostSkip(w), 6);
    assert LostSkip(w)[..7] == LostSkip(w);
    hide WorldAfter;
  }

  /** The handshake is already consumed when the transport is then told to shake hands. */
  lemma LostSkipMissesBoundary(w: Jdwp.Wake)
    requires w.peekOk && w.availKnown && w.received && w.sent && w.attachOk
    ensures exists h :: h in Handovers(InitWorld(), LostSkip(w) + [Wakes(w, true)]) && !AtBoundary(h)
  {
    LosesFds(w);
    LastEvent(InitWorld(), LostSkip(w), Wakes(w, true));
    var v := WorldAfter(InitWorld(), LostSkip(w));
    hide WorldAfter, Handovers, LostSkip;
    var h := Handover(Fds(0, true), v.wire);
    assert HandedOver(v, Wakes(w, true)) == [h];
    assert h in Handovers(InitWorld(), LostSkip(w) + [Wakes(w, true)]) && !AtBoundary(h);
  }

  // --- The plugin itself --------------------------------------------------------------------------------

  function FdsOf(handovers: seq<Handover>): seq<Fds> {
    seq(|handovers|, i requires 0 <= i < |handovers| => handovers[i].fds)
  }

  lemma FdsOfAppend(a: seq<Handover>, b: seq<Handover>)
    ensures FdsOf(a + b) == FdsOf(a) + FdsOf(b)
  {
  }

  /** The plugin and its connection are as the world says. */
  ghost predicate Matches(c: AdbConnectionState, j: Jdwp.Connection, v: World)
    reads c, j
  {
    && c.Snapshot() == v.s.plugin
    && (c.sock.Some? ==> WireOf(j, v.wire.arrived) == v.wire && j.Valid())
    && (c.sock.Some? && !c.loaded ==> Agree(c, j))
  }

  /** Any step but data without an agent: a connection that is adopted starts with no bytes. */
  method Perform(c: AdbConnectionState, j: Jdwp.Connection, s: System, step: Step) returns (k: Jdwp.Connection)
    requires c.Snapshot() == s.plugin && Enabled(s, step) && (step.Data? ==> c.loaded)
    modifies c
    ensures c.Snapshot() == Next(s, step).plugin && c.sent == old(c.sent) + DeliveredBy(s, step)
    ensures old(c.sock.None?) && c.sock.Some? ==>
              && fresh(k) && k.Valid() && k.open && !k.performed && !k.loaded
              && k.consumed == [] && k.handled == [] && k.unread == []
    ensures !(old(c.sock.None?) && c.sock.Some?) ==> k == j
  {
    hide Next, DeliveredBy, Enabled;
    k := j;
    var had := c.sock.Some?;
    Execute(c, s, step);
    if !had && c.sock.Some? {
      k := new Jdwp.Connection();
    }
  }

  /** One event, on the plugin and on the bytes of its connection. */
  method Handle(c: AdbConnectionState, j: Jdwp.Connection, v: World, e: Event)
    returns (k: Jdwp.Connection)
    requires Matches(c, j, v) && Linked(v) && (e.Wakes? ==> Jdwp.Sendable(e.wake.answer))
    modifies c, j
    ensures Matches(c, k, After(v, e)) && (k == j || fresh(k))
    ensures c.sent == old(c.sent) + FdsOf(HandedOver(v, e))
  {
    hide Jdwp.WellFramed, OutcomeOf, Woken, Jdwp.Sendable;
    k := j;
    if e.Arrives? {
      if c.sock.Some? {
        j.Arrive(e.bytes);
      }
    } else if e.Wakes? && ListensOnConnection(c.Snapshot()) && !c.loaded {
      HandleData(c, j, e.wake, v.wire.arrived);
    } else {
      var step := if e.Wakes? then Data(Broke, e.delivered) else e.step;
      if Enabled(v.s, step) && (step.Data? ==> c.loaded) {
        OtherStep(v.s, step);
        DeliversCurrent(v.s, step);
        k := Perform(c, j, v.s, step);
      }
    }
  }

  lemma MatchesAtStart(c: AdbConnectionState, j: Jdwp.Connection)
    requires c.Snapshot() == InitPlugin()
    ensures Matches(c, j, InitWorld()) && Linked(InitWorld())
  {
  }

  lemma AlongEvent(v: World, events: seq<Event>, i: nat)
    requires i < |events|
    ensures WorldAfter(v, events[i..]) == WorldAfter(After(v, events[i]), events[i + 1..])
    ensures FdsOf(Handovers(v, events[i..])) ==
            FdsOf(HandedOver(v, events[i])) + FdsOf(Handovers(After(v, events[i]), events[i + 1..]))
  {
    hide After, HandedOver, FdsOf;
    assert events[i..][1..] == events[i + 1..];
    FdsOfAppend(HandedOver(v, events[i]), Handovers(After(v, events[i]), events[i + 1..]));
  }

  lemma AlongNothing(v: World)
    ensures WorldAfter(v, []) == v && FdsOf(Handovers(v, [])) == []
  {
  }

  /**
   The plugin, driven through any events: what it has handed to the transport is what the world says,
   so EveryHandoverAtBoundary is about its own sends.
   */
  method RunDebugger(events: seq<Event>) returns (c: AdbConnectionState, j: Jdwp.Connection)
    requires forall i :: 0 <= i < |events| && events[i].Wakes? ==> Jdwp.Sendable(events[i].wake.answer)
    ensures fresh(c) && fresh(j) && Matches(c, j, WorldAfter(InitWorld(), events))
    ensures c.sent == FdsOf(Handovers(InitWorld(), events))
  {
    hide *;
    c := new AdbConnectionState();
    j := new Jdwp.Connection();
    var v := InitWorld();
    ghost var last, all := WorldAfter(v, events), FdsOf(Handovers(v, events));
    MatchesAtStart(c, j);
    assert events[0..] == events;
    for i := 0 to |events|
      invariant fresh(c) && fresh(j) && Matches(c, j, v) && Linked(v)
      invariant WorldAfter(v, events[i..]) == last
      invariant c.sent + FdsOf(Handovers(v, events[i..])) == all
    {
      AlongEvent(v, events, i);
      StaysLinked(v, events[i]);
      j := Handle(c, j, v, events[i]);
      v := After(v, events[i]);
    }
    assert events[|events|..] == [] && c.sent + [] == c.sent;
    AlongNothing(v);
  }
}
