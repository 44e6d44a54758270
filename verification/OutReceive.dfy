/**
 * Sending a SETUP or OUT data packet and receiving the device's handshake: the
 * two polling phases, and what they make of the bytes that the decoder pushes.
 */
module OutReceive {
  import opened UsbTypes
  import opened Packets
  import Crc

  // ----- what the processor observes ------------------------------------------------------

  /** Waiting for the handshake to start: whether a byte waits, and the flags. */
  datatype StartPoll = StartPoll(waiting: bool, end: bool, error: bool, started: bool)

  /** Receiving it: what each drain finds, the last one after the end of packet. */
  datatype PacketPoll = PacketPoll(fifo: seq<byte>, error: bool, end: bool, late: seq<byte>)

  /** All polls of one handshake; the deadlines strike at poll `startPatience` and `packetPatience`. */
  datatype Observed =
    Observed(starts: nat -> StartPoll, startPatience: nat, polls: nat -> PacketPoll, packetPatience: nat)

  datatype ReceiveResult = Handshake(pid: byte) | InvalidPacket | NoStart

  // ----- the two phases -------------------------------------------------------------------

  /** The result, if the handshake does not start. */
  function NotStarted(o: Observed, n: nat): Option<ReceiveResult>
    requires n <= o.startPatience
    decreases o.startPatience - n
  {
    var p := o.starts(n);
    if p.waiting || p.end then None
    else if p.error then Some(InvalidPacket)
    else if n == o.startPatience then Some(if p.started then InvalidPacket else NoStart)
    else NotStarted(o, n + 1)
  }

  /** Everything drained by the end of packet, if it comes before an error and the deadline. */
  function DrainedBytes(o: Observed, n: nat, drained: seq<byte>): Option<seq<byte>>
    requires n <= o.packetPatience
    decreases o.packetPatience - n
  {
    var p := o.polls(n);
    if p.error then None
    else if p.end then Some(drained + p.fifo + p.late)
    else if n == o.packetPatience then None
    else DrainedBytes(o, n + 1, drained + p.fifo)
  }

  function JudgeHandshake(bytes: seq<byte>): ReceiveResult {
    if |bytes| > 4 then InvalidPacket
    else
      match ParsePacket(bytes)
      case Ok(Handshake(pid)) => ReceiveResult.Handshake(pid)
      case _ => InvalidPacket
  }

  function Received(o: Observed): ReceiveResult {
    match NotStarted(o, 0)
    case Some(result) => result
    case None =>
      match DrainedBytes(o, 0, [])
      case Some(bytes) => JudgeHandshake(bytes)
      case None => InvalidPacket
  }

  /** A handshake is received exactly where its two bytes are everything that was drained. */
  lemma ReceivedIff(o: Observed, pid: byte)
    ensures Received(o) == ReceiveResult.Handshake(pid)
      <==> NotStarted(o, 0).None? && DrainedBytes(o, 0, []) == Some([SYNC, pid]) && IsHandshakePid(pid)
  {
    if DrainedBytes(o, 0, []).Some? {
      HandshakeIff(DrainedBytes(o, 0, []).value, pid);
    }
    OnlyStartsAreSilent(o, 0);
    hide DrainedBytes, NotStarted, JudgeHandshake;
  }

  lemma HandshakeIff(bytes: seq<byte>, pid: byte)
    ensures JudgeHandshake(bytes) == ReceiveResult.Handshake(pid) <==> bytes == [SYNC, pid] && IsHandshakePid(pid)
    ensures ParsePacket(bytes) == Ok(ParsedPacket.Handshake(pid)) <==> bytes == [SYNC, pid] && IsHandshakePid(pid)
  {
    hide Crc.Crc5, Crc.Crc16, Crc.Join, TokenValue;
    if bytes == [SYNC, pid] && IsHandshakePid(pid) {
      HandshakePidsAreValid(pid);
    }
    if |bytes| == 2 {
      assert bytes == [bytes[0], bytes[1]];
    }
    hide ValidPid;
  }

  lemma HandshakePidsAreValid(pid: byte)
    requires IsHandshakePid(pid)
    ensures ValidPid(pid)
  {}

  /** A handshake with a single damaged bit is never taken for a handshake. */
  lemma DamagedHandshakeIsRefused(pid: byte, flip: byte)
    requires IsHandshakePid(pid) && flip != 0 && flip & (flip - 1) == 0
    ensures ParsePacket([SYNC, pid ^ flip]) == Err(InvalidPid) && ParsePacket([SYNC ^ flip, pid]) == Err(InvalidSync)
  {
    OneBitShows(pid, flip);
    hide ValidPid;
  }

  lemma OneBitShows(pid: byte, flip: byte)
    requires IsHandshakePid(pid) && flip != 0 && flip & (flip - 1) == 0
    ensures !ValidPid(pid ^ flip) && SYNC ^ flip != SYNC
  {}

  // ----- the loops ------------------------------------------------------------------------

  /** How many of the drained bytes the four-byte buffer holds. */
  function Kept(drained: seq<byte>): nat { if |drained| <= 4 then |drained| else 4 }

  /** Pull what is in the FIFO; beyond four bytes only the count goes on. */
  method DrainFifo(bytes: array<byte>, length: nat, fifo: seq<byte>, ghost drained: seq<byte>) returns (length': nat)
    requires bytes.Length == 4 && length == |drained| && bytes[..Kept(drained)] == drained[..Kept(drained)]
    modifies bytes
    ensures length' == |drained + fifo|
    ensures bytes[..Kept(drained + fifo)] == (drained + fifo)[..Kept(drained + fifo)]
  {
    length' := length;
    assert drained + fifo[..0] == drained;
    for i := 0 to |fifo|
      invariant length' == |drained| + i
      invariant bytes[..Kept(drained + fifo[..i])] == (drained + fifo[..i])[..Kept(drained + fifo[..i])]
    {
      ghost var before := drained + fifo[..i];
      assert drained + fifo[..i + 1] == before + [fifo[i]];
      if length' < 4 {
        bytes[length'] := fifo[i];
        assert bytes[..length' + 1] == bytes[..length'] + [fifo[i]];
        assert before[..length'] == before;
        assert (before + [fifo[i]])[..length' + 1] == before + [fifo[i]];
      } else {
        assert (before + [fifo[i]])[..4] == before[..4];
      }
      length' := length' + 1;
    }
    assert fifo[..|fifo|] == fifo;
  }

  method ReceiveHandshake(o: Observed) returns (result: ReceiveResult)
    ensures result == Received(o)
  {
    hide ParsePacket;
    var n: nat := 0;
    while !o.starts(n).waiting && !o.starts(n).end
      invariant n <= o.startPatience && NotStarted(o, n) == NotStarted(o, 0)
      decreases o.startPatience - n
    {
      if o.starts(n).error {
        return InvalidPacket;
      }
      if n == o.startPatience {
        return if o.starts(n).started then InvalidPacket else NoStart;
      }
      n := n + 1;
    }
    var drained := ReceiveBytes(o);
    if drained.None? || drained.value.0 > 4 {
      return InvalidPacket;
    }
    WholeKept(DrainedBytes(o, 0, []).value);
    hide DrainedBytes;
    return JudgeHandshake(drained.value.1);
  }

  lemma WholeKept(bytes: seq<byte>)
    ensures |bytes| <= 4 ==> bytes[..Kept(bytes)] == bytes
    ensures |bytes| > 4 ==> JudgeHandshake(bytes) == InvalidPacket
  {}

  /** The second phase: how many bytes came, and those that were kept. */
  method ReceiveBytes(o: Observed) returns (drained: Option<(nat, seq<byte>)>)
    ensures drained.None? <==> DrainedBytes(o, 0, []).None?
    ensures drained.Some? ==>
      && drained.value.0 == |DrainedBytes(o, 0, []).value|
      && drained.value.1 == DrainedBytes(o, 0, []).value[..Kept(DrainedBytes(o, 0, []).value)]
  {
    var bytes := new byte[4](_ => 0);
    var length, n: nat := 0, 0;
    ghost var soFar: seq<byte> := [];
    while true
      invariant n <= o.packetPatience && length == |soFar|
      invariant bytes[..Kept(soFar)] == soFar[..Kept(soFar)]
      invariant DrainedBytes(o, n, soFar) == DrainedBytes(o, 0, [])
      decreases o.packetPatience - n
    {
      var p := o.polls(n);
      length := DrainFifo(bytes, length, p.fifo, soFar);
      ghost var before := soFar;
      soFar := soFar + p.fifo;
      if p.error {
        return None;
      }
      if p.end {
        length := DrainFifo(bytes, length, p.late, soFar);
        soFar := soFar + p.late;
        return Some((length, bytes[..if length <= 4 then length else 4]));
      }
      if n == o.packetPatience {
        return None;
      }
      n := n + 1;
    }
    assert false;
  }

  // ----- one OUT transaction --------------------------------------------------------------

  datatype OutResponse = Ack | Nak | NoResponse

  /** What a handshake means for the transaction. */
  function ResponseOf(result: ReceiveResult): Result<OutResponse, PipeError> {
    match result
    case Handshake(pid) =>
      if pid == PID_ACK then Ok(Ack)
      else if pid == PID_NAK then Ok(Nak)
      else if pid == PID_STALL then Err(PipeError.Stall)
      else Err(BadResponse)
    case InvalidPacket => Err(BadResponse)
    case NoStart => Ok(NoResponse)
  }

  /** Nothing was heard: no byte, end of packet or error by the deadline, and no start of a packet at it. */
  ghost predicate Quiet(o: Observed, from: nat) {
    && (forall n: nat | from <= n <= o.startPatience ::
          !o.starts(n).waiting && !o.starts(n).end && !o.starts(n).error)
    && !o.starts(o.startPatience).started
  }

  lemma {:induction false} QuietIff(o: Observed, n: nat)
    requires n <= o.startPatience
    ensures NotStarted(o, n) == Some(NoStart) <==> Quiet(o, n)
    decreases o.startPatience - n
  {
    var p := o.starts(n);
    if !p.waiting && !p.end && !p.error && n < o.startPatience {
      QuietIff(o, n + 1);
    }
  }

  /** The handshake, if it started and came to its end: these bytes are all that was drained. */
  ghost predicate Drained(o: Observed, bytes: seq<byte>) {
    NotStarted(o, 0).None? && DrainedBytes(o, 0, []) == Some(bytes)
  }

  /** What a transaction comes to, by the bytes of its handshake. */
  lemma HandshakeDecides(o: Observed)
    ensures var response := ResponseOf(Received(o));
      && (response == Ok(Ack) <==> Drained(o, [0x80, 0xd2]))
      && (response == Ok(Nak) <==> Drained(o, [0x80, 0x5a]))
      && (response == Err(PipeError.Stall) <==> Drained(o, [0x80, 0x1e]))
      && (response == Ok(NoResponse) <==> Quiet(o, 0))
      && (response.Err? ==> response.error in {PipeError.Stall, BadResponse})
  {
    ReceivedIff(o, PID_ACK);
    ReceivedIff(o, PID_NAK);
    ReceivedIff(o, PID_STALL);
    QuietIff(o, 0);
    OnlyStartsAreSilent(o, 0);
    hide NotStarted, DrainedBytes, Quiet, ParsePacket;
  }

  lemma {:induction false} OnlyStartsAreSilent(o: Observed, n: nat)
    requires n <= o.startPatience
    ensures NotStarted(o, n).Some? ==> NotStarted(o, n).value in {InvalidPacket, NoStart}
    decreases o.startPatience - n
  {
    var p := o.starts(n);
    if !p.waiting && !p.end && !p.error && n < o.startPatience {
      OnlyStartsAreSilent(o, n + 1);
    }
  }

  /**
   * One OUT or SETUP transaction: the wait for the frame, the token and data
   * packets, the receiver, the transmission of both packets, the handshake.
   * The packets that go out carry the token's and the data packet's
   * identifier, the device's address and endpoint, and the payload.
   */
  method OutOnce(tokenPid: byte, dataPid: byte, address: byte, endpoint: byte, payload: seq<byte>,
                 frame: Result<(), PipeError>, parked: Result<(), PipeError>, transmitted: bool, o: Observed)
    returns (result: Result<OutResponse, PipeError>, packets: seq<seq<byte>>)
    requires IsTokenPid(tokenPid) && IsDataPid(dataPid) && address < 128 && endpoint < 16
    ensures result ==
      if frame.Err? then Err(frame.error)
      else if |payload| > LARGEST_PAYLOAD then Err(BufferOverflow)
      else if parked.Err? then Err(parked.error)
      else if !transmitted then Err(Timeout)
      else ResponseOf(Received(o))
    ensures frame.Err? || |payload| > LARGEST_PAYLOAD || parked.Err? <==> packets == []
    ensures packets != [] ==> |packets| == 2 && ParsePacket(packets[1]) == Ok(Data(dataPid, payload))
    ensures packets != [] ==> IsToken(packets[0], tokenPid, address, endpoint)
  {
    hide Received, DataBytes, ParsePacket, TokenPacket, IsToken;
    if frame.Err? {
      return Err(frame.error), [];
    }
    var token := TokenPacket(tokenPid, address, endpoint);
    var packet := NewDataPacket(dataPid, payload);
    if packet.Err? {
      return Err(BufferOverflow), [];
    }
    if parked.Err? {
      return Err(parked.error), [];
    }
    DataPacketRoundTrip(dataPid, payload);
    TokenRoundTrip(tokenPid, address, endpoint);
    packets := [token, packet.value];
    if !transmitted {
      return Err(Timeout), packets;
    }
    var received := ReceiveHandshake(o);
    return ResponseOf(received), packets;
  }

  // ----- what was on the wire -------------------------------------------------------------

  /** What the first polls found in the FIFO. */
  function Found(polls: nat -> PacketPoll, n: nat): seq<byte> {
    if n == 0 then [] else Found(polls, n - 1) + polls(n - 1).fifo
  }

  /** By the last drain after the end of packet the decoder has pushed exactly these bytes. */
  ghost predicate Pushes(o: Observed, wire: seq<byte>) {
    forall n: nat | n <= o.packetPatience && o.polls(n).end
                    && (forall k | 0 <= k < n :: !o.polls(k).end && !o.polls(k).error) ::
      Found(o.polls, n) + o.polls(n).fifo + o.polls(n).late == wire
  }

  /** The last drain leaves nothing behind: a packet heard to its end is the packet on the wire. */
  lemma {:induction false} DrainedIsWire(o: Observed, n: nat, wire: seq<byte>)
    requires n <= o.packetPatience && Pushes(o, wire)
    requires forall k | 0 <= k < n :: !o.polls(k).end && !o.polls(k).error
    ensures DrainedBytes(o, n, Found(o.polls, n)).Some? ==> DrainedBytes(o, n, Found(o.polls, n)).value == wire
    decreases o.packetPatience - n
  {
    var p := o.polls(n);
    if !p.error && !p.end && n < o.packetPatience {
      assert Found(o.polls, n + 1) == Found(o.polls, n) + p.fifo;
      DrainedIsWire(o, n + 1, wire);
    }
  }

  /** A handshake that is heard was on the wire, byte for byte. */
  lemma HeardHandshakeWasSent(o: Observed, wire: seq<byte>, pid: byte)
    requires Pushes(o, wire) && Received(o) == ReceiveResult.Handshake(pid)
    ensures wire == [SYNC, pid] && IsHandshakePid(pid) && ParsePacket(wire) == Ok(ParsedPacket.Handshake(pid))
  {
    ReceivedIff(o, pid);
    assert Found(o.polls, 0) == [];
    DrainedIsWire(o, 0, wire);
    HandshakeIff(wire, pid);
    hide Received, ParsePacket, Pushes;
  }
}
