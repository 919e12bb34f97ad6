/**
 Debugger traffic that the plugin handles before an agent is loaded: the handshake and packets whose
 header begins with their own length, as the JDWP Packets section of the Java Debug Wire Protocol
 specification lays them out.
 */
module Jdwp {
  import opened Bytes
  import opened Wrappers

  const HEADER_LENGTH := 11
  const COMMAND_SET_OFFSET := 9
  const COMMAND_OFFSET := 10
  const DDM_COMMAND_SET := 199
  const DDM_COMMAND := 1
  const DDM_HEADER_LENGTH := HEADER_LENGTH + 4 + 4

  /** "JDWP-Handshake" */
  const HANDSHAKE: seq<Byte> := [74, 68, 87, 80, 45, 72, 97, 110, 100, 115, 104, 97, 107, 101]

  // --- Packets ------------------------------------------------------------------------------------

  predicate IsPacket(p: seq<Byte>) {
    |p| >= HEADER_LENGTH && FromBe32(p[..4]) == |p|
  }

  /** The whole packets at the start of a stream, up to the first that is incomplete or malformed. */
  function Packets(s: seq<Byte>): seq<seq<Byte>>
    decreases |s|
  {
    if |s| < HEADER_LENGTH then []
    else
      var n := FromBe32(s[..4]);
      if n < HEADER_LENGTH || |s| < n then [] else [s[..n]] + Packets(s[n..])
  }

  lemma PacketsFirst(first: seq<Byte>, tail: seq<Byte>)
    requires IsPacket(first)
    ensures Packets(first + tail) == [first] + Packets(tail)
  {
    var s := first + tail;
    assert s[..4] == first[..4];
    assert s[..|first|] == first;
    assert s[|first|..] == tail;
  }

  /** Splitting a stream at a packet boundary splits its packets. */
  lemma {:induction false} PacketsAtBoundary(ps: seq<seq<Byte>>, rest: seq<Byte>)
    requires forall i :: 0 <= i < |ps| ==> IsPacket(ps[i])
    ensures Packets(Concat(ps) + rest) == ps + Packets(rest)
    decreases |ps|
  {
    if ps == [] {
      assert Concat(ps) + rest == rest;
    } else {
      var first, others := ps[0], ps[1..];
      var tail := Concat(others) + rest;
      assert Concat(ps) + rest == first + tail;
      calc {
        Packets(Concat(ps) + rest);
        Packets(first + tail);
        { PacketsFirst(first, tail); }
        [first] + Packets(tail);
        { PacketsAtBoundary(others, rest); }
        [first] + (others + Packets(rest));
        ([first] + others) + Packets(rest);
        { assert ps == [first] + others; }
        ps + Packets(rest);
      }
    }
  }

  /** The stream is made of whole packets and nothing else. */
  predicate WholePackets(s: seq<Byte>)
    decreases |s|
  {
    s == [] || (
      && |s| >= HEADER_LENGTH
      && HEADER_LENGTH <= FromBe32(s[..4]) <= |s|
      && WholePackets(s[FromBe32(s[..4])..]))
  }

  lemma {:induction false} WholePacketsAppend(s: seq<Byte>, p: seq<Byte>)
    requires WholePackets(s) && IsPacket(p)
    ensures WholePackets(s + p)
    decreases |s|
  {
    if s == [] {
      assert s + p == p;
      assert p[|p|..] == [];
    } else {
      var n := FromBe32(s[..4]);
      assert (s + p)[..4] == s[..4];
      assert (s + p)[n..] == s[n..] + p;
      WholePacketsAppend(s[n..], p);
    }
  }

  /** Such a stream is what its packets make up. */
  lemma {:induction false} WholePacketsParse(s: seq<Byte>)
    requires WholePackets(s)
    ensures Concat(Packets(s)) == s
    ensures forall i :: 0 <= i < |Packets(s)| ==> IsPacket(Packets(s)[i])
    decreases |s|
  {
    if s != [] {
      var n := FromBe32(s[..4]);
      WholePacketsParse(s[n..]);
      assert Packets(s) == [s[..n]] + Packets(s[n..]);
      assert Packets(s)[1..] == Packets(s[n..]);
      assert s[..n][..4] == s[..4];
      assert IsPacket(s[..n]);
    }
  }

  datatype DdmKind = Command | Reply

  /** A DDM chunk as the plugin puts it on the wire. */
  function DdmPacket(id: nat, kind: DdmKind, chunk: nat, data: seq<Byte>): seq<Byte>
    requires id < 0x1_0000_0000 && chunk < 0x1_0000_0000
    requires DDM_HEADER_LENGTH + |data| < 0x1_0000_0000
  {
    Be32(DDM_HEADER_LENGTH + |data|) + Be32(id)
    + (match kind case Command => [0, DDM_COMMAND_SET, DDM_COMMAND] case Reply => [128, 0, 0])
    + Be32(chunk) + Be32(|data|) + data
  }

  lemma DdmPacketIsPacket(id: nat, kind: DdmKind, chunk: nat, data: seq<Byte>)
    requires id < 0x1_0000_0000 && chunk < 0x1_0000_0000
    requires DDM_HEADER_LENGTH + |data| < 0x1_0000_0000
    ensures IsPacket(DdmPacket(id, kind, chunk, data))
  {
    var p := DdmPacket(id, kind, chunk, data);
    assert |p| == DDM_HEADER_LENGTH + |data|;
    assert p[..4] == Be32(DDM_HEADER_LENGTH + |data|);
    Be32RoundTrip(DDM_HEADER_LENGTH + |data|);
  }

  datatype Ddm = Ddm(id: nat, kind: DdmKind, chunk: nat, data: seq<Byte>)

  predicate Fits(m: Ddm) {
    m.id < 0x1_0000_0000 && m.chunk < 0x1_0000_0000 && DDM_HEADER_LENGTH + |m.data| < 0x1_0000_0000
  }

  /** A chunk with its packet id, of a size that its headers can express. */
  type Message = m: Ddm | Fits(m) witness Ddm(0, Command, 0, [])

  function PacketOf(m: Message): seq<Byte> {
    DdmPacket(m.id, m.kind, m.chunk, m.data)
  }

  /** What the debugger makes of a packet: a DDM command, a reply, or nothing that concerns DDM. */
  function MessageOf(p: seq<Byte>): Option<Ddm> {
    if |p| < DDM_HEADER_LENGTH || FromBe32(p[15..19]) != |p| - DDM_HEADER_LENGTH then None
    else if p[8..11] == [0, DDM_COMMAND_SET, DDM_COMMAND] then
      Some(Ddm(FromBe32(p[4..8]), Command, FromBe32(p[11..15]), p[19..]))
    else if p[8..11] == [128, 0, 0] then Some(Ddm(FromBe32(p[4..8]), Reply, FromBe32(p[11..15]), p[19..]))
    else None
  }

  /** The debugger gets back the message that was put in a packet. */
  lemma MessageOfPacket(m: Message)
    ensures IsPacket(PacketOf(m)) && MessageOf(PacketOf(m)) == Some(m)
  {
    DdmPacketIsPacket(m.id, m.kind, m.chunk, m.data);
    var p := PacketOf(m);
    Be32RoundTrip(m.id);
    Be32RoundTrip(m.chunk);
    Be32RoundTrip(|m.data|);
    hide IsPacket, Be32, FromBe32;
    assert p[4..8] == Be32(m.id) && p[11..15] == Be32(m.chunk) && p[15..19] == Be32(|m.data|) && p[19..] == m.data;
    assert p[8..11] == match m.kind case Command => [0, DDM_COMMAND_SET, DDM_COMMAND] case Reply => [128, 0, 0];
  }

  // --- A connection before the agent is loaded ------------------------------------------------------

  /** Bytes sent on a connection: nothing, or the handshake and then whole packets. */
  ghost predicate WellFramed(wire: seq<Byte>, packets: seq<seq<Byte>>) {
    && (forall i :: 0 <= i < |packets| ==> IsPacket(packets[i]))
    && wire == HANDSHAKE + Concat(packets)
  }

  lemma WellFramedAppend(wire: seq<Byte>, packets: seq<seq<Byte>>, p: seq<Byte>)
    requires WellFramed(wire, packets) && IsPacket(p)
    ensures WellFramed(wire + p, packets + [p])
  {
    ConcatAppend(packets, p);
  }

  /** What the runtime answers to a chunk; how it finds the answer is not modelled. */
  datatype ChunkReply = NoReply | ChunkReply(chunk: nat, data: seq<Byte>)

  predicate Sendable(answer: ChunkReply) {
    answer.ChunkReply? ==> answer.chunk < 0x1_0000_0000 && DDM_HEADER_LENGTH + |answer.data| < 0x1_0000_0000
  }

  /** A complete DDM command at the start of the unread bytes, which the plugin handles itself. */
  function OwnPacket(unread: seq<Byte>): seq<seq<Byte>> {
    if |unread| < HEADER_LENGTH || unread[COMMAND_SET_OFFSET] != DDM_COMMAND_SET || unread[COMMAND_OFFSET] != DDM_COMMAND then []
    else
      var n := FromBe32(unread[..4]);
      if HEADER_LENGTH <= n <= |unread| then [unread[..n]] else []
  }

  /** One wake-up of the plugin: which of its calls succeed, and what the runtime answers to a chunk. */
  datatype Wake = Wake(answer: ChunkReply, peekOk: bool, availKnown: bool, received: bool, sent: bool, attachOk: bool)

  predicate HandshakeSucceeds(unread: seq<Byte>, w: Wake) {
    w.availKnown && w.received && w.sent && HANDSHAKE <= unread
  }

  predicate IsDdmHeader(unread: seq<Byte>) {
    && |unread| >= HEADER_LENGTH && FromBe32(unread[..4]) >= HEADER_LENGTH
    && unread[COMMAND_SET_OFFSET] == DDM_COMMAND_SET && unread[COMMAND_OFFSET] == DDM_COMMAND
  }

  /** The connection survives a wake-up after the handshake. */
  predicate Survives(unread: seq<Byte>, w: Wake) {
    && w.peekOk && unread != []
    && (IsDdmHeader(unread) ==> w.availKnown && (OwnPacket(unread) != [] ==> w.received))
  }

  /** The replies to the packets that were handled: none to a malformed chunk. */
  function Replies(packets: seq<seq<Byte>>, answer: ChunkReply): seq<seq<Byte>>
    requires Sendable(answer)
  {
    if packets == [] || answer.NoReply? || !IsChunk(packets[0]) then []
    else [DdmPacket(FromBe32(packets[0][4..8]), Reply, answer.chunk, answer.data)]
  }

  lemma NoReplies(answer: ChunkReply)
    requires Sendable(answer)
    ensures Replies([], answer) == []
  {
  }

  lemma FullPacket(packet: seq<Byte>)
    requires |packet| >= HEADER_LENGTH && |packet| == FromBe32(packet[..4])
    ensures IsPacket(packet)
  {
  }

  /** The packet holds a whole chunk. */
  predicate IsChunk(packet: seq<Byte>) {
    && |packet| >= HEADER_LENGTH + 8
    && FromBe32(packet[HEADER_LENGTH + 4..HEADER_LENGTH + 8]) <= |packet| - HEADER_LENGTH - 8
  }

  class Connection {
    /** Bytes that have arrived and have not been read. */
    var unread: seq<Byte>
    /** Bytes written to the debugger. */
    var written: seq<Byte>
    var open: bool
    var performed: bool
    var loaded: bool
    ghost var consumed: seq<Byte>
    ghost var handled: seq<seq<Byte>>
    ghost var replies: seq<seq<Byte>>
    /** Whether hands were ever shaken; unlike `performed` this outlives the connection. */
    ghost var shaken: bool

    /** What was consumed and written stays framed, also once the connection is closed. */
    ghost predicate Valid()
      reads this
    {
      && (if shaken then WellFramed(consumed, handled) && WellFramed(written, replies)
          else written == [] && handled == [] && replies == [])
      && (open ==> performed == shaken && (!shaken ==> consumed == []))
      && (loaded ==> open && performed)
    }

    constructor ()
      ensures Valid() && open && !loaded && !shaken && consumed == [] && unread == []
    {
      unread, written, open, performed, loaded := [], [], true, false, false;
      consumed, handled, replies, shaken := [], [], [], false;
    }

    method Arrive(bytes: seq<Byte>)
      requires Valid()
      modifies this`unread
      ensures Valid() && unread == old(unread) + bytes
    {
      unread := unread + bytes;
    }

    method Close()
      modifies this`open, this`performed
      requires !loaded
      ensures !open && !performed
    {
      open, performed := false, false;
    }

    /** recv of `n` bytes that are known to be there. */
    method Receive(n: nat) returns (bytes: seq<Byte>)
      requires n <= |unread|
      modifies this`unread, this`consumed
      ensures bytes == old(unread)[..n] && unread == old(unread)[n..]
      ensures consumed == old(consumed) + bytes
    {
      bytes := unread[..n];
      unread := unread[n..];
      consumed := consumed + bytes;
    }

    method Attach(ok: bool)
      modifies this`loaded
      ensures loaded == (old(loaded) || ok)
    {
      if ok {
        loaded := true;
      }
    }

    method PerformHandshake(w: Wake)
      requires Valid() && open && !performed && !loaded
      modifies this
      ensures Valid()
      ensures !loaded
      ensures open <==> HandshakeSucceeds(old(unread), w)
      ensures open == performed == shaken
      ensures consumed + unread == old(consumed) + old(unread)
      ensures open ==> written == HANDSHAKE && handled == [] && replies == []
    {
      if !w.availKnown || |unread| < |HANDSHAKE| || !w.received {
        Close();
        return;
      }
      ghost var before := unread;
      assert before == before[..|HANDSHAKE|] + before[|HANDSHAKE|..];
      var message := Receive(|HANDSHAKE|);
      if message != HANDSHAKE {
        Close();
        return;
      }
      if !w.sent {
        Close();
        return;
      }
      written := written + HANDSHAKE;
      assert HANDSHAKE + Concat([]) == HANDSHAKE;
      performed, shaken := true, true;
    }

    method HandleDataWithoutAgent(w: Wake)
      requires Valid() && open && !loaded
      requires Sendable(w.answer)
      modifies this
      ensures Valid()
      ensures open <==> if old(performed) then Survives(old(unread), w) else HandshakeSucceeds(old(unread), w)
      ensures loaded <==> open && old(performed) && OwnPacket(old(unread)) == [] && w.attachOk
      ensures consumed + unread == old(consumed) + old(unread) && performed == open
      ensures old(performed) ==> shaken
      ensures old(performed) ==> handled == old(handled) + if open then OwnPacket(old(unread)) else []
      ensures old(performed) ==> replies == old(replies) + if open then Replies(OwnPacket(old(unread)), w.answer) else []
      ensures open && !old(performed) ==> handled == [] && !loaded
      ensures loaded ==> OwnPacket(old(unread)) == [] && consumed == old(consumed) && unread == old(unread)
    {
      hide WellFramed, Replies, Sendable, HandshakeSucceeds, FromBe32;
      NoReplies(w.answer);
      if !performed {
        PerformHandshake(w);
        return;
      }
      if !w.peekOk || |unread| == 0 {
        Close();
        return;
      }
      if |unread| < HEADER_LENGTH {
        Attach(w.attachOk);
        return;
      }
      var header := unread[..HEADER_LENGTH];
      assert header[..4] == unread[..4] && header[4..8] == unread[4..8];
      var fullLength, id := FromBe32(header[..4]), FromBe32(header[4..8]);
      if header[COMMAND_SET_OFFSET] != DDM_COMMAND_SET || header[COMMAND_OFFSET] != DDM_COMMAND || fullLength < HEADER_LENGTH {
        Attach(w.attachOk);
        return;
      }
      if !w.availKnown {
        Close();
        return;
      }
      if |unread| < fullLength {
        Attach(w.attachOk);
        return;
      }
      if !w.received {
        Close();
        return;
      }
      HandlePacket(fullLength, id, w.answer);
    }

    /** Reads a packet that is known to be complete and answers it. */
    method HandlePacket(fullLength: nat, id: nat, answer: ChunkReply)
      requires Valid() && open && performed && !loaded
      requires HEADER_LENGTH <= fullLength <= |unread| && fullLength == FromBe32(unread[..4])
      requires id == FromBe32(unread[4..8])
      requires Sendable(answer)
      modifies this
      ensures Valid() && open && performed && !loaded && shaken
      ensures consumed + unread == old(consumed) + old(unread)
      ensures handled == old(handled) + [old(unread)[..fullLength]]
      ensures replies == old(replies) + Replies([old(unread)[..fullLength]], answer)
    {
      hide WellFramed, Replies, Sendable, FromBe32, IsPacket;
      ghost var before := unread;
      assert before == before[..fullLength] + before[fullLength..];
      var packet := Receive(fullLength);
      assert packet[..4] == before[..4] && packet[4..8] == before[4..8];
      FullPacket(packet);
      WellFramedAppend(old(consumed), handled, packet);
      handled := handled + [packet];
      Answer(packet, id, answer);
    }

    /** Answers a whole chunk, if the runtime does. */
    method Answer(packet: seq<Byte>, id: nat, answer: ChunkReply)
      requires Valid() && shaken && |packet| >= HEADER_LENGTH && id == FromBe32(packet[4..8])
      requires Sendable(answer)
      modifies this`written, this`replies
      ensures Valid() && replies == old(replies) + Replies([packet], answer)
    {
      hide WellFramed, FromBe32, DdmPacket, IsPacket;
      var dataSize := |packet| - HEADER_LENGTH;
      if dataSize < 8 {
        return;
      }
      var chunkLength := FromBe32(packet[HEADER_LENGTH + 4..HEADER_LENGTH + 8]);
      if chunkLength > dataSize - 8 || answer.NoReply? {
        return;
      }
      var reply := DdmPacket(id, Reply, answer.chunk, answer.data);
      DdmPacketIsPacket(id, Reply, answer.chunk, answer.data);
      WellFramedAppend(written, replies, reply);
      written := written + reply;
      replies := replies + [reply];
    }
  }

  /**
   A loaded agent starts at a packet boundary: whatever arrives later, the packets handled here
   followed by those parsed from the rest are the packets of the whole stream after the handshake.
   */
  lemma AgentStartsAtBoundary(consumed: seq<Byte>, handled: seq<seq<Byte>>, rest: seq<Byte>)
    requires WellFramed(consumed, handled)
    ensures (consumed + rest)[..|HANDSHAKE|] == HANDSHAKE
    ensures Packets((consumed + rest)[|HANDSHAKE|..]) == handled + Packets(rest)
  {
    assert (consumed + rest)[|HANDSHAKE|..] == Concat(handled) + rest;
    PacketsAtBoundary(handled, rest);
  }

  datatype WireEvent = Arrives(bytes: seq<Byte>) | Wakes(wake: Wake) | HangsUp

  /**
   Any way the bytes arrive, the plugin is woken up and the debugger hangs up, until the plugin closes
   or loads the agent: nothing that arrived is lost or taken twice, and the bytes consumed and written
   are framed whether or not the connection has been closed.
   */
  method RunConnection(events: seq<WireEvent>) returns (c: Connection, ghost arrived: seq<Byte>)
    requires forall i :: 0 <= i < |events| && events[i].Wakes? ==> Sendable(events[i].wake.answer)
    ensures fresh(c) && c.Valid()
    ensures arrived == c.consumed + c.unread
    ensures if c.shaken then WellFramed(c.consumed, c.handled) && WellFramed(c.written, c.replies) else c.written == []
    ensures c.loaded ==> c.shaken && |arrived| >= |HANDSHAKE|
    ensures c.shaken ==>
              forall later :: Packets(arrived[|HANDSHAKE|..] + later) == c.handled + Packets(c.unread + later)
  {
    c := new Connection();
    arrived := [];
    for i := 0 to |events|
      invariant fresh(c) && c.Valid()
      invariant arrived == c.consumed + c.unread
    {
      match events[i]
      case Arrives(bytes) =>
        c.Arrive(bytes);
        arrived := arrived + bytes;
      case Wakes(wake) =>
        if c.open && !c.loaded {
          c.HandleDataWithoutAgent(wake);
        }
      case HangsUp =>
        if c.open && !c.loaded {
          c.Close();
        }
    }
    if c.shaken {
      forall later
        ensures Packets(arrived[|HANDSHAKE|..] + later) == c.handled + Packets(c.unread + later)
      {
        var rest := c.unread + later;
        assert arrived[|HANDSHAKE|..] + later == (c.consumed + rest)[|HANDSHAKE|..];
        AgentStartsAtBoundary(c.consumed, c.handled, rest);
      }
    }
  }
}
