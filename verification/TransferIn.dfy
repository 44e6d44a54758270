/**
 * IN transfers over a lossy wire: the alternating DATA0/DATA1 protocol
 * (section 8.6 of USB 2.0) between the host's pipe and a conforming device.
 */
module TransferIn {
  import opened UsbTypes
  import opened Packets
  import opened InReceive
  import opened Packetise
  import opened Retry

  // ----- one attempt, seen from the host ------------------------------------------------

  /** What reaches the host's receiver; `Unsent` is a transmitter that failed on the token. */
  datatype Arrival = Unsent | Silence | Garbled | Complete(bytes: seq<byte>)

  /** How a conforming device answers an IN token; a new packet is used only when none is pending. */
  datatype Reply = Nak | Stall | Send(next: Payload)

  /**
   * Everything the environment decides about one IN attempt. `confirmed` is
   * false when the host's transmitter fails to report the end of its own ACK.
   */
  datatype InFate = InFate(tokenArrives: bool, reply: Reply, arrival: Arrival, ackArrives: bool, confirmed: bool)

  datatype InTry = InTry(room: nat, fate: InFate)

  function Expected(toggle: DataToggle, room: nat, maxPacketSize: nat): Expectation {
    Expectation(toggle.Pid(), Min(room, maxPacketSize), maxPacketSize)
  }

  function Verdict(x: Expectation, arrival: Arrival): InDataDisposition {
    if arrival.Complete? then Judgement(x, arrival.bytes) else Reject
  }

  /** What the receiver reports for an arrival. */
  function Heard(x: Expectation, arrival: Arrival): InReceiveResult {
    match arrival
    case Unsent => InvalidPacket
    case Silence => InReceiveResult.NoResponse
    case Garbled => InvalidPacket
    case Complete(bytes) =>
      match Judgement(x, bytes)
      case Accept => DataReceived(PayloadLength(bytes))
      case Duplicate => UnexpectedToggle(PayloadLength(bytes))
      case Reject =>
        if bytes == [SYNC, PID_NAK] then NakReceived
        else if bytes == [SYNC, PID_STALL] then StallReceived
        else InvalidPacket
  }

  /** The arrival that a reception amounts to. */
  function ArrivalOf(e: Ended): Arrival {
    match e.ending
    case DecoderError => Garbled
    case BudgetSpent => if e.started then Garbled else Silence
    case EndOfPacket => Arrival.Complete(e.drained)
  }

  /** The receiver modelled in detail, whatever its polls observed, reports what is heard here. */
  lemma ReceiverHears(x: Expectation, polls: nat -> Poll, fullSpeed: bool)
    ensures var e := InReceive.Heard(x, polls, fullSpeed, true);
      && Report(x, e) == Heard(x, ArrivalOf(e))
      && (Acceptable(x, e) <==> Verdict(x, ArrivalOf(e)) != Reject)
  {
    hide Judgement, Listen;
    AcceptedHasPayload(x, InReceive.Heard(x, polls, fullSpeed, true).drained);
  }

  lemma AcceptedHasPayload(x: Expectation, bytes: seq<byte>)
    ensures Judgement(x, bytes) != Reject ==> |bytes| >= 4
  {
    if |bytes| < 4 { OnlyDataIsJudged(x, bytes); }
  }

  /** One IN request to the engine: the outcome handed to the pipe's retry loop. */
  function InOutcome(toggle: DataToggle, maxPacketSize: nat, t: InTry): Result<Outcome<nat>, PipeError> {
    var x := Expected(toggle, t.room, maxPacketSize);
    if maxPacketSize > LARGEST_PAYLOAD then Err(BufferOverflow)
    else if t.fate.arrival.Unsent? then Err(Timeout)
    else if Verdict(x, t.fate.arrival) != Reject && !t.fate.confirmed then Err(Timeout)
    else OutcomeOf(Heard(x, t.fate.arrival))
  }

  /** How the engine's report reads to the retry loop; a duplicate counts as a NAK. */
  function OutcomeOf(report: InReceiveResult): Result<Outcome<nat>, PipeError> {
    match report
    case DataReceived(len) => Ok(Outcome.Complete(len))
    case UnexpectedToggle(_) => Ok(Outcome.Nak)
    case NakReceived => Ok(Outcome.Nak)
    case NoResponse => Ok(Outcome.NoResponse)
    case StallReceived => Err(PipeError.Stall)
    case InvalidPacket => Err(BadResponse)
  }

  // ----- what each arrival gives, byte for byte --------------------------------------------

  function OtherPid(pid: byte): byte { if pid == PID_DATA0 then PID_DATA1 else PID_DATA0 }

  /** The arrival is a data packet with this identifier and a payload that fits. */
  ghost predicate IsDataPacket(arrival: Arrival, pid: byte, fits: nat) {
    exists payload: Payload :: |payload| <= fits && arrival == Arrival.Complete(DataBytes(pid, payload))
  }

  /** A whole data packet is all that is not rejected. */
  lemma VerdictIff(x: Expectation, arrival: Arrival)
    requires x.Valid()
    ensures Verdict(x, arrival) == Accept <==> IsDataPacket(arrival, x.pid, x.maxLen)
    ensures Verdict(x, arrival) == Duplicate <==> IsDataPacket(arrival, OtherPid(x.pid), x.capacity)
    ensures arrival in {Arrival.Complete([SYNC, PID_NAK]), Arrival.Complete([SYNC, PID_STALL])} ==>
      Verdict(x, arrival) == Reject
    ensures Verdict(x, arrival) != Reject ==> PayloadLength(arrival.bytes) == |arrival.bytes| - 4
  {
    if arrival.Complete? {
      DataPacketIff(arrival.bytes, x.pid, x.maxLen);
      DataPacketIff(arrival.bytes, OtherPid(x.pid), x.capacity);
      JudgedByParse(x, arrival.bytes);
      AcceptedHasPayload(x, arrival.bytes);
      hide ParsePacket, IsDataPacket, Judgement;
    }
  }

  /** The batch judgement, by the packet that the parser finds. */
  lemma JudgedByParse(x: Expectation, bytes: seq<byte>)
    requires x.Valid()
    ensures Judgement(x, bytes) == Accept <==>
      |bytes| >= 4 && ParsePacket(bytes) == Ok(Data(x.pid, PayloadOf(bytes))) && |bytes| - 4 <= x.maxLen
    ensures Judgement(x, bytes) == Duplicate <==>
      |bytes| >= 4 && ParsePacket(bytes) == Ok(Data(OtherPid(x.pid), PayloadOf(bytes))) && |bytes| - 4 <= x.capacity
    ensures |bytes| == 2 ==> Judgement(x, bytes) == Reject
  {
    hide Crc.Crc5, Crc.Crc16, Crc.Join, TokenValue, ValidPid;
  }

  lemma DataPacketIff(bytes: seq<byte>, pid: byte, fits: nat)
    requires IsDataPid(pid)
    ensures IsDataPacket(Arrival.Complete(bytes), pid, fits) <==>
      |bytes| >= 4 && ParsePacket(bytes) == Ok(Data(pid, PayloadOf(bytes))) && |bytes| - 4 <= fits
  {
    ParseIffDataBytes(bytes, pid, PayloadOf(bytes));
    hide ParsePacket, Crc.WithCrc;
    if payload: Payload :| |payload| <= fits && bytes == DataBytes(pid, payload) {
      WithCrcLength(payload);
      PayloadInside(pid, payload);
    }
    if bytes == DataBytes(pid, PayloadOf(bytes)) {
      WithCrcLength(PayloadOf(bytes));
    }
  }

  /**
   * One attempt, by what arrives: silence, NAK and a confirmed duplicate ask
   * for another one, STALL ends the request, the expected packet is taken once
   * its ACK is confirmed, and everything else is a bad response.
   */
  lemma ArrivalDecides(toggle: DataToggle, maxPacketSize: nat, t: InTry)
    ensures maxPacketSize > 100 ==> InOutcome(toggle, maxPacketSize, t) == Err(BufferOverflow)
    ensures maxPacketSize <= 100 ==>
      var arrival, outcome := t.fate.arrival, InOutcome(toggle, maxPacketSize, t);
      var awaited := IsDataPacket(arrival, if toggle == Data0 then 0xc3 else 0x4b, Min(t.room, maxPacketSize));
      var repeated := IsDataPacket(arrival, if toggle == Data0 then 0x4b else 0xc3, maxPacketSize);
      var nak, stall := arrival == Arrival.Complete([0x80, 0x5a]), arrival == Arrival.Complete([0x80, 0x1e]);
      && (outcome == Ok(Outcome.NoResponse) <==> arrival == Silence)
      && (outcome == Ok(Outcome.Nak) <==> nak || (repeated && t.fate.confirmed))
      && (outcome == Err(PipeError.Stall) <==> stall)
      && (outcome.Ok? && outcome.value.Complete? <==> awaited && t.fate.confirmed)
      && (outcome.Ok? && outcome.value.Complete? ==> |arrival.bytes| == outcome.value.value + 4)
      && (outcome == Err(Timeout) <==> arrival == Unsent || ((awaited || repeated) && !t.fate.confirmed))
      && (outcome == Err(BadResponse) <==>
            arrival == Garbled || (arrival.Complete? && !nak && !stall && !awaited && !repeated))
  {
    hide Judgement, IsDataPacket, ParsePacket;
    if maxPacketSize <= LARGEST_PAYLOAD {
      VerdictIff(Expected(toggle, t.room, maxPacketSize), t.fate.arrival);
    }
  }

  /**
   * The transfer model and the detailed receiver are one: for every sequence
   * of polls and transmitter events, the outcome of the attempt is that of the
   * reception.
   */
  lemma AttemptIsReception(toggle: DataToggle, maxPacketSize: nat, t: InTry, polls: nat -> Poll, events: TxEvents,
                           fullSpeed: bool)
    requires maxPacketSize <= LARGEST_PAYLOAD
    requires var x := Expected(toggle, t.room, maxPacketSize);
      && t.fate.confirmed == (events.ackEnding && events.ackSent)
      && t.fate.arrival == if events.tokenEnding && events.tokenSent
                           then ArrivalOf(InReceive.Heard(x, polls, fullSpeed, true)) else Unsent
    ensures var x := Expected(toggle, t.room, maxPacketSize);
      var reception := Reception(x, polls, events, fullSpeed, true);
      InOutcome(toggle, maxPacketSize, t) == if reception.Err? then Err(Timeout) else OutcomeOf(reception.value)
  {
    var x := Expected(toggle, t.room, maxPacketSize);
    ReceiverHears(x, polls, fullSpeed);
    hide Judgement, InReceive.Heard, Heard, Report, OutcomeOf, ArrivalOf, Acceptable, Verdict;
    NeverUnsent(InReceive.Heard(x, polls, fullSpeed, true));
  }

  /** The ACK goes out exactly once for a whole data packet that fits, new or repeated, and never for anything else. */
  lemma AckedIff(toggle: DataToggle, room: nat, maxPacketSize: nat, polls: nat -> Poll, events: TxEvents,
                 fullSpeed: bool)
    requires maxPacketSize <= LARGEST_PAYLOAD
    ensures var x := Expected(toggle, room, maxPacketSize);
      var arrival := ArrivalOf(InReceive.Heard(x, polls, fullSpeed, true));
      Releases(x, polls, events, fullSpeed, true) ==
        if events.tokenEnding && events.tokenSent
           && (IsDataPacket(arrival, if toggle == Data0 then 0xc3 else 0x4b, Min(room, maxPacketSize))
               || IsDataPacket(arrival, if toggle == Data0 then 0x4b else 0xc3, maxPacketSize))
        then 1 else 0
  {
    var x := Expected(toggle, room, maxPacketSize);
    ReceiverHears(x, polls, fullSpeed);
    VerdictIff(x, ArrivalOf(InReceive.Heard(x, polls, fullSpeed, true)));
    hide Verdict, ArrivalOf, IsDataPacket, InReceive.Heard, Acceptable, Heard, Report;
  }

  /**
   * One IN request to the engine in full: the transaction with its receiver
   * and transmitter, the copy into the caller's buffer, the toggle. Its outcome
   * is that of the attempt in the transfer model, and on an accepted packet,
   * and only then, the toggle flips and the packet's bytes are handed over.
   */
  method RequestInOnce(tx: Transmitter, table: seq<bv16>, raw: array<byte>, packet: array<byte>,
                       buffer: array<byte>, from: nat, address: byte, endpoint: byte, toggle: DataToggle,
                       maxPacketSize: nat,
                       frame: Result<(), PipeError>, parked: Result<(), PipeError>,
                       polls: nat -> Poll, events: TxEvents, fullSpeed: bool)
    returns (outcome: Result<Outcome<nat>, PipeError>, toggle': DataToggle, token: seq<byte>)
    requires Crc.IsCrcTable(table) && raw.Length == MAX_DECODED_BYTES && packet.Length == LARGEST_PAYLOAD
    requires raw != packet && raw != buffer && packet != buffer && !tx.preloaded && from <= buffer.Length
    requires address < 128 && endpoint < 16
    modifies tx, raw, packet, buffer
    ensures !tx.preloaded && buffer[..from] == old(buffer[..from])
    ensures toggle' == if Completes(outcome) then toggle.AfterAck() else toggle
    ensures token == [] || IsToken(token, 0x69, address, endpoint)
    ensures token == [] <==> frame.Err? || maxPacketSize > LARGEST_PAYLOAD || parked.Err?
    ensures tx.releases == old(tx.releases) +
      if token == [] then 0
      else Releases(Expected(toggle, buffer.Length - from, maxPacketSize), polls, events, fullSpeed, true)
    ensures frame.Err? ==> outcome == Err(frame.error)
    ensures frame.Ok? && maxPacketSize <= LARGEST_PAYLOAD && parked.Err? ==> outcome == Err(parked.error)
    ensures frame.Ok? && parked.Ok? ==>
      forall fate | FateHeard(fate, Expected(toggle, buffer.Length - from, maxPacketSize), polls, events, fullSpeed) ::
        && outcome == InOutcome(toggle, maxPacketSize, InTry(buffer.Length - from, fate))
        && (Completes(outcome) ==>
              && fate.arrival.Complete? && from + outcome.value.value <= buffer.Length
              && buffer[from..from + outcome.value.value] == PayloadOf(fate.arrival.bytes))
  {
    hide InOutcome, Reception, Releases, Handed, InReceive.Heard, FateHeard, PayloadOf, OutcomeOf, Refusal,
      Crc.IsCrcTable, IsToken;
    var room := buffer.Length - from;
    toggle' := toggle;
    var response;
    response, token := Transact(tx, table, raw, packet, address, endpoint, toggle, room, maxPacketSize, frame, parked,
      polls, events, fullSpeed);
    if response.Err? {
      return Err(response.error), toggle, token;
    }
    OutcomeCases(response.value);
    outcome := OutcomeOf(response.value);
    if response.value.DataReceived? {
      toggle' := toggle.AfterAck();
      CopyInto(buffer, from, packet[..response.value.len]);
    }
  }

  /** The transaction of one request, with what it says of the attempt. */
  method Transact(tx: Transmitter, table: seq<bv16>, raw: array<byte>, packet: array<byte>,
                  address: byte, endpoint: byte, toggle: DataToggle, room: nat, maxPacketSize: nat,
                  frame: Result<(), PipeError>, parked: Result<(), PipeError>,
                  polls: nat -> Poll, events: TxEvents, fullSpeed: bool)
    returns (response: Result<InReceiveResult, PipeError>, token: seq<byte>)
    requires Crc.IsCrcTable(table) && raw.Length == MAX_DECODED_BYTES && packet.Length == LARGEST_PAYLOAD
    requires raw != packet && !tx.preloaded && address < 128 && endpoint < 16
    modifies tx, raw, packet
    ensures !tx.preloaded
    ensures token == [] || IsToken(token, 0x69, address, endpoint)
    ensures token == [] <==> frame.Err? || maxPacketSize > LARGEST_PAYLOAD || parked.Err?
    ensures tx.releases == old(tx.releases) +
      if token == [] then 0 else Releases(Expected(toggle, room, maxPacketSize), polls, events, fullSpeed, true)
    ensures frame.Err? ==> response == Err(frame.error)
    ensures frame.Ok? && maxPacketSize <= LARGEST_PAYLOAD && parked.Err? ==> response == Err(parked.error)
    ensures response.Ok? && response.value.DataReceived? ==> response.value.len <= Min(room, packet.Length)
    ensures frame.Ok? && parked.Ok? ==>
      Answered(toggle, room, maxPacketSize, polls, events, fullSpeed, response, packet[..])
  {
    hide InOutcome, Reception, Releases, Handed, InReceive.Heard, FateHeard, PayloadOf, OutcomeOf, Crc.IsCrcTable,
      Answered, IsToken;
    TokenHasBytes(address, endpoint);
    response, token := InOnce(tx, table, raw, packet, address, endpoint, toggle.Pid(), Min(room, maxPacketSize),
                              maxPacketSize, frame, parked, polls, events, fullSpeed, true);
    if frame.Ok? && parked.Ok? && maxPacketSize > LARGEST_PAYLOAD {
      TooLargeIsAnswered(toggle, room, maxPacketSize, polls, events, fullSpeed, packet[..]);
    } else if frame.Ok? && parked.Ok? {
      ReceptionIsAnswered(toggle, room, maxPacketSize, polls, events, fullSpeed, response, packet[..]);
    }
  }

  lemma TokenHasBytes(address: byte, endpoint: byte)
    ensures !IsToken([], 0x69, address, endpoint)
  {}

  /** What a response says of every attempt whose arrival is what the receiver heard. */
  ghost predicate Answered(toggle: DataToggle, room: nat, maxPacketSize: nat, polls: nat -> Poll, events: TxEvents,
                           fullSpeed: bool, response: Result<InReceiveResult, PipeError>, packet: seq<byte>)
  {
    forall fate | FateHeard(fate, Expected(toggle, room, maxPacketSize), polls, events, fullSpeed) ::
      && InOutcome(toggle, maxPacketSize, InTry(room, fate))
         == (if response.Err? then Err(response.error) else OutcomeOf(response.value))
      && (response.Ok? && response.value.DataReceived? ==>
            && fate.arrival.Complete? && response.value.len <= |packet|
            && packet[..response.value.len] == PayloadOf(fate.arrival.bytes))
  }

  lemma OutcomeCases(report: InReceiveResult)
    ensures Completes(OutcomeOf(report)) <==> report.DataReceived?
    ensures report.DataReceived? ==> OutcomeOf(report) == Ok(Outcome.Complete(report.len))
  {}

  lemma TooLargeIsAnswered(toggle: DataToggle, room: nat, maxPacketSize: nat, polls: nat -> Poll, events: TxEvents,
                           fullSpeed: bool, packet: seq<byte>)
    requires maxPacketSize > LARGEST_PAYLOAD
    ensures Answered(toggle, room, maxPacketSize, polls, events, fullSpeed, Err(BufferOverflow), packet)
  {}

  lemma ReceptionIsAnswered(toggle: DataToggle, room: nat, maxPacketSize: nat, polls: nat -> Poll, events: TxEvents,
                            fullSpeed: bool, response: Result<InReceiveResult, PipeError>, packet: seq<byte>)
    requires maxPacketSize <= LARGEST_PAYLOAD
    requires var x := Expected(toggle, room, maxPacketSize);
      var reception := Reception(x, polls, events, fullSpeed, true);
      && response == (if reception.Err? then Err(Timeout) else Ok(reception.value))
      && (response.Ok? ==> Handed(x, InReceive.Heard(x, polls, fullSpeed, true), packet))
    ensures Answered(toggle, room, maxPacketSize, polls, events, fullSpeed, response, packet)
    ensures response.Ok? && response.value.DataReceived? ==> response.value.len <= Min(room, |packet|)
  {
    var x := Expected(toggle, room, maxPacketSize);
    var e := InReceive.Heard(x, polls, fullSpeed, true);
    ReceivedIsHeard(x, polls, events, fullSpeed);
    if response.Ok? && response.value.DataReceived? {
      HandedOver(x, e, packet);
    }
    hide Judgement, InReceive.Heard, InOutcome, OutcomeOf, Reception, Handed;
    forall fate | FateHeard(fate, x, polls, events, fullSpeed)
      ensures InOutcome(toggle, maxPacketSize, InTry(room, fate))
           == (if response.Err? then Err(response.error) else OutcomeOf(response.value))
    {
      AttemptIsReception(toggle, maxPacketSize, InTry(room, fate), polls, events, fullSpeed);
    }
  }

  /** Data is reported only for an acceptable packet heard to its end. */
  lemma ReceivedIsHeard(x: Expectation, polls: nat -> Poll, events: TxEvents, fullSpeed: bool)
    ensures var e, reception := InReceive.Heard(x, polls, fullSpeed, true),
      Reception(x, polls, events, fullSpeed, true);
      reception.Ok? && reception.value.DataReceived? ==>
        && events.tokenEnding && events.tokenSent && ArrivalOf(e) == Arrival.Complete(e.drained)
        && e.ending == EndOfPacket && Judgement(x, e.drained) == Accept
        && |e.drained| >= 4 && reception.value.len == |e.drained| - 4
  {
    var e := InReceive.Heard(x, polls, fullSpeed, true);
    AcceptedHasPayload(x, e.drained);
    hide Judgement, InReceive.Heard;
  }

  /** The fate of an attempt whose arrival is what the receiver heard. */
  ghost predicate FateHeard(fate: InFate, x: Expectation, polls: nat -> Poll, events: TxEvents, fullSpeed: bool) {
    && fate.confirmed == (events.ackEnding && events.ackSent)
    && fate.arrival == if events.tokenEnding && events.tokenSent
                       then ArrivalOf(InReceive.Heard(x, polls, fullSpeed, true)) else Unsent
  }

  /** What the receiver hands over is the payload of the bytes heard. */
  lemma HandedOver(x: Expectation, e: Ended, payload: seq<byte>)
    requires Handed(x, e, payload)
    ensures e.ending == EndOfPacket && Judgement(x, e.drained) == Accept ==>
      && |e.drained| >= 4 && |e.drained| - 4 <= |payload| && |e.drained| - 4 <= x.maxLen
      && payload[..|e.drained| - 4] == PayloadOf(e.drained)
  {}

  lemma NeverUnsent(e: Ended)
    ensures ArrivalOf(e) != Unsent
  {}

  function PayloadOf(bytes: seq<byte>): Payload {
    if |bytes| >= 4 then bytes[2..|bytes| - 2] else []
  }

  // ----- the host and the device together -----------------------------------------------

  /**
   * `sent` are the packets the device has put on the wire so far (the one after
   * the first `acked` is pending), `accepted` those the host took.
   */
  datatype InWorld = InWorld(sent: seq<Payload>, acked: nat, device: DataToggle,
                             accepted: seq<Payload>, host: DataToggle)

  const FRESH: InWorld := InWorld([], 0, Data0, [], Data0)

  predicate Answers(fate: InFate) { fate.tokenArrives && fate.reply.Send? }

  function AfterToken(w: InWorld, fate: InFate): InWorld {
    if Answers(fate) && |w.sent| <= w.acked then w.(sent := w.sent + [fate.reply.next]) else w
  }

  predicate IsData(bytes: seq<byte>) { ParsePacket(bytes).Ok? && ParsePacket(bytes).value.Data? }

  /** Bytes that parse as a data packet are the packet that the device has put on the wire. */
  ghost predicate Genuine(w: InWorld, fate: InFate, bytes: seq<byte>) {
    var at := AfterToken(w, fate);
    IsData(bytes) ==>
      Answers(fate) && at.acked < |at.sent| && bytes == DataBytes(at.device.Pid(), at.sent[at.acked])
  }

  /** The wire may lose or damage anything, but damage is detected: heard data is sent data. */
  ghost predicate Honest(w: InWorld, fate: InFate) {
    fate.arrival.Complete? ==> Genuine(w, fate, fate.arrival.bytes)
  }

  function InStep(w: InWorld, maxPacketSize: nat, t: InTry): InWorld {
    if maxPacketSize > LARGEST_PAYLOAD then w else
    var at := AfterToken(w, t.fate);
    var verdict := Verdict(Expected(w.host, t.room, maxPacketSize), t.fate.arrival);
    var taken :=
      if verdict == Accept && t.fate.confirmed
      then at.(accepted := at.accepted + [PayloadOf(t.fate.arrival.bytes)], host := at.host.AfterAck())
      else at;
    if verdict != Reject && t.fate.ackArrives && at.acked < |at.sent|
    then taken.(acked := at.acked + 1, device := at.device.AfterAck())
    else taken
  }

  function RunIn(start: InWorld, maxPacketSize: nat, tries: seq<InTry>): InWorld {
    if tries == [] then start
    else InStep(RunIn(start, maxPacketSize, tries[..|tries| - 1]), maxPacketSize, tries[|tries| - 1])
  }

  lemma {:induction false} RunInConcat(start: InWorld, maxPacketSize: nat, a: seq<InTry>, b: seq<InTry>)
    ensures RunIn(start, maxPacketSize, a + b) == RunIn(RunIn(start, maxPacketSize, a), maxPacketSize, b)
    decreases |b|
  {
    hide InStep;
    if b == [] {
      assert a + b == a;
    } else {
      assert (a + b)[..|a + b| - 1] == a + b[..|b| - 1];
      RunInConcat(start, maxPacketSize, a, b[..|b| - 1]);
    }
  }

  lemma RunInAppend(start: InWorld, maxPacketSize: nat, tries: seq<InTry>, t: InTry)
    ensures RunIn(start, maxPacketSize, tries + [t]) == InStep(RunIn(start, maxPacketSize, tries), maxPacketSize, t)
  {
    hide InStep;
    assert (tries + [t])[..|tries|] == tries;
  }

  ghost predicate HonestRun(start: InWorld, maxPacketSize: nat, tries: seq<InTry>) {
    forall i | 0 <= i < |tries| :: Honest(RunIn(start, maxPacketSize, tries[..i]), tries[i].fate)
  }

  // ----- exactly once, in order ---------------------------------------------------------

  /** The accepted packets are the first ones sent, and at most one of them is not known to be acknowledged. */
  ghost predicate InOrder(w: InWorld) {
    && w.accepted <= w.sent
    && w.acked <= |w.accepted| <= w.acked + 1
  }

  /** The host drops a new packet whose ACK has reached the device. */
  predicate Loses(w: InWorld, maxPacketSize: nat, t: InTry) {
    && maxPacketSize <= LARGEST_PAYLOAD
    && Verdict(Expected(w.host, t.room, maxPacketSize), t.fate.arrival) == Accept
    && !t.fate.confirmed && t.fate.ackArrives
  }

  ghost predicate TogglesCount(w: InWorld) {
    && w.acked <= |w.sent| <= w.acked + 1
    && w.device == ToggleAfter(w.acked)
    && w.host == ToggleAfter(|w.accepted|)
  }

  /** After a loss the host stays behind for ever. */
  ghost predicate Behind(w: InWorld) { w.acked > |w.accepted| }

  lemma HeardDataIsSent(w: InWorld, maxPacketSize: nat, t: InTry)
    requires Honest(w, t.fate)
    ensures var at := AfterToken(w, t.fate);
      var verdict := Verdict(Expected(w.host, t.room, maxPacketSize), t.fate.arrival);
      verdict != Reject ==>
        && at.acked < |at.sent|
        && PayloadOf(t.fate.arrival.bytes) == at.sent[at.acked]
        && (verdict == Accept <==> w.host == w.device)
  {
    hide ParsePacket, Crc.WithCrc;
    var at := AfterToken(w, t.fate);
    var x := Expected(w.host, t.room, maxPacketSize);
    if Verdict(x, t.fate.arrival) != Reject {
      var payload := at.sent[at.acked];
      ParseIffDataBytes(t.fate.arrival.bytes, at.device.Pid(), payload);
      WithCrcLength(payload);
      PayloadInside(at.device.Pid(), payload);
    }
  }

  lemma PayloadInside(pid: byte, payload: Payload)
    ensures PayloadOf(DataBytes(pid, payload)) == payload
  {}

  lemma InStepKeeps(w: InWorld, maxPacketSize: nat, t: InTry)
    requires TogglesCount(w) && Honest(w, t.fate)
    ensures var next := InStep(w, maxPacketSize, t);
      && TogglesCount(next)
      && (Behind(w) ==> Behind(next))
      && (InOrder(w) && !Loses(w, maxPacketSize, t) ==> InOrder(next))
      && (InOrder(w) && Loses(w, maxPacketSize, t) ==> Behind(next))
  {
    HeardDataIsSent(w, maxPacketSize, t);
    hide Verdict, Honest, Expected, PayloadOf;
    ToggleFlips(w.acked);
    ToggleFlips(|w.accepted|);
  }

  ghost predicate NothingLost(start: InWorld, maxPacketSize: nat, tries: seq<InTry>) {
    forall i | 0 <= i < |tries| :: !Loses(RunIn(start, maxPacketSize, tries[..i]), maxPacketSize, tries[i])
  }

  /**
   * Exactly-once, in-order delivery: over every run on a wire that loses or
   * damages any token, packet or handshake, the accepted packets are a prefix
   * of what the device sent, at most one ahead of what it saw acknowledged -
   * if and only if the host never drops a new packet whose ACK went through.
   */
  lemma {:induction false} ExactlyOnceIn(start: InWorld, maxPacketSize: nat, tries: seq<InTry>)
    requires TogglesCount(start) && InOrder(start)
    requires HonestRun(start, maxPacketSize, tries)
    ensures TogglesCount(RunIn(start, maxPacketSize, tries))
    ensures InOrder(RunIn(start, maxPacketSize, tries)) || Behind(RunIn(start, maxPacketSize, tries))
    ensures InOrder(RunIn(start, maxPacketSize, tries)) <==> NothingLost(start, maxPacketSize, tries)
  {
    hide InStep, Honest, Loses;
    if tries != [] {
      var n := |tries| - 1;
      var before := tries[..n];
      forall i | 0 <= i < n ensures before[..i] == tries[..i] && before[i] == tries[i] {}
      ExactlyOnceIn(start, maxPacketSize, before);
      InStepKeeps(RunIn(start, maxPacketSize, before), maxPacketSize, tries[n]);
    }
  }

  // ----- what the host can see ------------------------------------------------------------

  /** Runs that are the same to the host: what it heard, and whether its transmitter confirmed the ACK. */
  ghost predicate LooksAlike(a: seq<InTry>, b: seq<InTry>) {
    |a| == |b|
    && forall i | 0 <= i < |a| ::
         a[i].room == b[i].room && a[i].fate.arrival == b[i].fate.arrival && a[i].fate.confirmed == b[i].fate.confirmed
  }

  predicate HeardData(t: InTry) { t.fate.arrival.Complete? && IsData(t.fate.arrival.bytes) }

  /** The host takes a packet for new and drops it, because its transmitter did not confirm the ACK. */
  predicate Unconfirmed(host: DataToggle, maxPacketSize: nat, t: InTry) {
    Verdict(Expected(host, t.room, maxPacketSize), t.fate.arrival) == Accept && !t.fate.confirmed
  }

  /** The host's toggle after what it has seen. */
  function HostAfter(host: DataToggle, maxPacketSize: nat, seen: seq<InTry>): DataToggle {
    if seen == [] then host
    else
      var before, t := HostAfter(host, maxPacketSize, seen[..|seen| - 1]), seen[|seen| - 1];
      if maxPacketSize <= LARGEST_PAYLOAD && t.fate.confirmed
         && Verdict(Expected(before, t.room, maxPacketSize), t.fate.arrival) == Accept
      then before.AfterAck() else before
  }

  /** What the host can tell: all is well, the last packet heard may be lost, or one is lost for certain. */
  datatype Knowledge = Sure | Doubtful | KnownLost

  /**
   * A packet dropped unconfirmed leaves a doubt. The next data packet heard
   * settles it: with the same identifier the device has not seen the ACK and
   * sends the packet again, with the other one it has gone on.
   */
  function Knows(host: DataToggle, maxPacketSize: nat, seen: seq<InTry>): Knowledge {
    if seen == [] then Sure
    else
      var before, t := seen[..|seen| - 1], seen[|seen| - 1];
      Learns(Knows(host, maxPacketSize, before), HostAfter(host, maxPacketSize, before), maxPacketSize, t)
  }

  function Learns(before: Knowledge, host: DataToggle, maxPacketSize: nat, t: InTry): Knowledge {
    if before.KnownLost? || maxPacketSize > LARGEST_PAYLOAD || !HeardData(t) then before
    else if before.Doubtful? && ParsePacket(t.fate.arrival.bytes).value.pid != host.Pid() then KnownLost
    else if Unconfirmed(host, maxPacketSize, t) then Doubtful
    else Sure
  }

  lemma {:induction false} AlikeKnows(host: DataToggle, maxPacketSize: nat, a: seq<InTry>, b: seq<InTry>)
    requires LooksAlike(a, b)
    ensures HostAfter(host, maxPacketSize, a) == HostAfter(host, maxPacketSize, b)
    ensures Knows(host, maxPacketSize, a) == Knows(host, maxPacketSize, b)
  {
    hide ParsePacket, Verdict, Expected;
    if a != [] {
      AlikeKnows(host, maxPacketSize, a[..|a| - 1], b[..|b| - 1]);
    }
  }

  /** What the host knows is so: no doubt, no loss; in doubt a packet is lost exactly when the toggles differ. */
  ghost predicate Fits(k: Knowledge, host: DataToggle, w: InWorld) {
    && TogglesCount(w) && w.host == host
    && match k
       case Sure => InOrder(w)
       case Doubtful => if w.host == w.device then InOrder(w) else Behind(w)
       case KnownLost => Behind(w)
  }

  /** Heard data carries the device's toggle; what is not data is not taken for any. */
  lemma HeardTells(w: InWorld, maxPacketSize: nat, t: InTry)
    requires Honest(w, t.fate)
    ensures HeardData(t) ==> ParsePacket(t.fate.arrival.bytes).value.pid == w.device.Pid()
    ensures !HeardData(t) ==> Verdict(Expected(w.host, t.room, maxPacketSize), t.fate.arrival) == Reject
  {
    if HeardData(t) {
      var at := AfterToken(w, t.fate);
      ParseIffDataBytes(t.fate.arrival.bytes, at.device.Pid(), at.sent[at.acked]);
    }
    hide ParsePacket, DataBytes;
  }

  lemma PidsTell(a: DataToggle, b: DataToggle)
    ensures a.Pid() == b.Pid() <==> a == b
  {}

  lemma KnowledgeStep(k: Knowledge, host: DataToggle, w: InWorld, maxPacketSize: nat, t: InTry)
    requires Fits(k, host, w) && Honest(w, t.fate)
    ensures Fits(Learns(k, host, maxPacketSize, t), HostAfter(host, maxPacketSize, [t]), InStep(w, maxPacketSize, t))
  {
    HeardTells(w, maxPacketSize, t);
    HeardDataIsSent(w, maxPacketSize, t);
    InStepKeeps(w, maxPacketSize, t);
    PidsTell(w.host, w.device);
    ToggleFlips(w.acked);
    OneStepAfter(host, maxPacketSize, t);
    hide ParsePacket, Verdict, Expected, Honest, HeardData, PayloadOf, DataToggle.Pid, ToggleAfter, HostAfter;
  }

  lemma OneStepAfter(host: DataToggle, maxPacketSize: nat, t: InTry)
    ensures HostAfter(host, maxPacketSize, [t]) ==
      if maxPacketSize <= LARGEST_PAYLOAD && t.fate.confirmed
         && Verdict(Expected(host, t.room, maxPacketSize), t.fate.arrival) == Accept
      then host.AfterAck() else host
  {
    assert [t][..0] == [];
    hide Verdict, Expected;
  }

  lemma HonestAppend(start: InWorld, maxPacketSize: nat, tries: seq<InTry>, t: InTry)
    ensures HonestRun(start, maxPacketSize, tries + [t]) <==>
      HonestRun(start, maxPacketSize, tries) && Honest(RunIn(start, maxPacketSize, tries), t.fate)
  {
    hide Honest, RunIn;
    var more := tries + [t];
    forall i | 0 <= i <= |tries| ensures more[..i] == tries[..i] && (i < |tries| ==> more[i] == tries[i]) {}
    assert tries[..|tries|] == tries && more[|tries|] == t;
  }

  lemma {:induction false} KnowledgeFits(start: InWorld, maxPacketSize: nat, tries: seq<InTry>)
    requires TogglesCount(start) && InOrder(start) && HonestRun(start, maxPacketSize, tries)
    ensures Fits(Knows(start.host, maxPacketSize, tries), HostAfter(start.host, maxPacketSize, tries),
                 RunIn(start, maxPacketSize, tries))
  {
    if tries != [] {
      var before, t := tries[..|tries| - 1], tries[|tries| - 1];
      assert before + [t] == tries;
      HonestAppend(start, maxPacketSize, before, t);
      KnowledgeFits(start, maxPacketSize, before);
      KnowledgeStep(Knows(start.host, maxPacketSize, before), HostAfter(start.host, maxPacketSize, before),
                    RunIn(start, maxPacketSize, before), maxPacketSize, t);
      OneStepAfter(HostAfter(start.host, maxPacketSize, before), maxPacketSize, t);
      hide Fits, Learns, InStep, Honest, HonestRun, Verdict, Expected;
    }
  }

  /** A doubt may be a loss: some run that looks the same to the host has lost the packet. */
  lemma {:induction false} DoubtMayBeLoss(start: InWorld, maxPacketSize: nat, tries: seq<InTry>)
    returns (other: seq<InTry>)
    requires TogglesCount(start) && InOrder(start) && HonestRun(start, maxPacketSize, tries)
    requires Knows(start.host, maxPacketSize, tries) == Doubtful
    ensures LooksAlike(other, tries) && HonestRun(start, maxPacketSize, other)
    ensures TogglesCount(RunIn(start, maxPacketSize, other)) && Behind(RunIn(start, maxPacketSize, other))
  {
    var before, t := tries[..|tries| - 1], tries[|tries| - 1];
    assert before + [t] == tries;
    HonestAppend(start, maxPacketSize, before, t);
    OversizedNeverDoubts(start.host, maxPacketSize, tries);
    if HeardData(t) {
      var lost := t.(fate := t.fate.(ackArrives := true));
      var w := RunIn(start, maxPacketSize, before);
      KnowledgeFits(start, maxPacketSize, before);
      DoubtBegins(Knows(start.host, maxPacketSize, before), HostAfter(start.host, maxPacketSize, before), w,
                  maxPacketSize, t);
      other := before + [lost];
      HonestAppend(start, maxPacketSize, before, lost);
      RunInAppend(start, maxPacketSize, before, lost);
    } else {
      var earlier := DoubtMayBeLoss(start, maxPacketSize, before);
      other := earlier + [t];
      SilenceIsHonest(RunIn(start, maxPacketSize, earlier), t);
      InStepKeeps(RunIn(start, maxPacketSize, earlier), maxPacketSize, t);
      HonestAppend(start, maxPacketSize, earlier, t);
      RunInAppend(start, maxPacketSize, earlier, t);
    }
    hide RunIn, Knows, HonestRun, Honest, InStep, Fits, TogglesCount, HeardData;
    AlikeAppend(other, tries);
  }

  /** Packets that do not fit are never asked for. */
  lemma {:induction false} OversizedNeverDoubts(host: DataToggle, maxPacketSize: nat, seen: seq<InTry>)
    ensures maxPacketSize > LARGEST_PAYLOAD ==> Knows(host, maxPacketSize, seen) == Sure
  {
    hide ParsePacket, Verdict, HostAfter;
    if seen != [] {
      OversizedNeverDoubts(host, maxPacketSize, seen[..|seen| - 1]);
    }
  }

  lemma AlikeAppend(a: seq<InTry>, b: seq<InTry>)
    requires a != [] && b != [] && LooksAlike(a[..|a| - 1], b[..|b| - 1])
    requires LooksAlike([a[|a| - 1]], [b[|b| - 1]])
    ensures LooksAlike(a, b)
  {
    assert [a[|a| - 1]][0] == a[|a| - 1] && [b[|b| - 1]][0] == b[|b| - 1];
  }

  lemma SilenceIsHonest(w: InWorld, t: InTry)
    requires !HeardData(t)
    ensures Honest(w, t.fate)
  {
    hide ParsePacket;
  }

  /** The attempt that raises the doubt, with an ACK that arrives. */
  lemma DoubtBegins(k: Knowledge, host: DataToggle, w: InWorld, maxPacketSize: nat, t: InTry)
    requires Fits(k, host, w) && Honest(w, t.fate) && HeardData(t) && maxPacketSize <= LARGEST_PAYLOAD
    requires Learns(k, host, maxPacketSize, t) == Doubtful
    ensures var lost := t.(fate := t.fate.(ackArrives := true));
      && Honest(w, lost.fate) && LooksAlike([lost], [t])
      && TogglesCount(InStep(w, maxPacketSize, lost)) && Behind(InStep(w, maxPacketSize, lost))
  {
    var lost := t.(fate := t.fate.(ackArrives := true));
    HeardTells(w, maxPacketSize, t);
    PidsTell(w.host, w.device);
    hide ParsePacket;
    assert Honest(w, lost.fate) by { assert AfterToken(w, lost.fate) == AfterToken(w, t.fate); }
    InStepKeeps(w, maxPacketSize, lost);
    hide Verdict, Expected, Honest, DataToggle.Pid;
  }

  /**
   * When the host may trust what it has accepted: every run that looks like
   * this one to the host, whatever tokens and ACKs arrived, delivered in order
   * if and only if each packet that was dropped unconfirmed was heard again -
   * the next data packet heard after it has the same identifier.
   */
  lemma KeepsPrefixIff(start: InWorld, maxPacketSize: nat, tries: seq<InTry>)
    requires TogglesCount(start) && InOrder(start) && HonestRun(start, maxPacketSize, tries)
    ensures (forall other | LooksAlike(other, tries) && HonestRun(start, maxPacketSize, other) ::
               InOrder(RunIn(start, maxPacketSize, other)))
      <==> Knows(start.host, maxPacketSize, tries) == Sure
    ensures Knows(start.host, maxPacketSize, tries) == KnownLost ==>
      forall other | LooksAlike(other, tries) && HonestRun(start, maxPacketSize, other) ::
        Behind(RunIn(start, maxPacketSize, other))
  {
    hide RunIn, Knows, HonestRun, TogglesCount, HostAfter;
    forall other | LooksAlike(other, tries) && HonestRun(start, maxPacketSize, other)
      ensures Fits(Knows(start.host, maxPacketSize, tries), HostAfter(start.host, maxPacketSize, tries),
                   RunIn(start, maxPacketSize, other))
    {
      AlikeKnows(start.host, maxPacketSize, other, tries);
      KnowledgeFits(start, maxPacketSize, other);
    }
    assert LooksAlike(tries, tries);
    if Knows(start.host, maxPacketSize, tries) == Doubtful {
      var other := DoubtMayBeLoss(start, maxPacketSize, tries);
      assert !InOrder(RunIn(start, maxPacketSize, other));
    }
  }

  // ----- from the wire to the receiver ----------------------------------------------------

  /** What reached the receiver's pins in one attempt, and how its polls saw it. */
  datatype OnTheWire = OnTheWire(bytes: seq<byte>, polls: nat -> Poll, fullSpeed: bool)

  /** The arrival is what the detailed receiver makes of the bytes that the decoder pushed. */
  ghost predicate HeardFrom(w: InWorld, maxPacketSize: nat, t: InTry, wire: OnTheWire) {
    && (forall k :: FlagsStay(wire.polls(k))) && Carries(wire.polls, wire.bytes)
    && t.fate.arrival
       == ArrivalOf(InReceive.Heard(Expected(w.host, t.room, maxPacketSize), wire.polls, wire.fullSpeed, true))
  }

  /** What the decoder pushed and the receiver left in the FIFO as the packet ended. */
  function LeftBehind(w: InWorld, maxPacketSize: nat, t: InTry, wire: OnTheWire): seq<byte> {
    Undrained(Expected(w.host, t.room, maxPacketSize), wire.polls, 0, [], wire.fullSpeed)
  }

  /**
   * Where honesty comes from: if the wire carries genuine bytes, heard data is
   * sent data as soon as the FIFO is empty at the end of packet; and for a
   * data packet of which a prefix was taken for data, only then.
   */
  lemma HonestIff(w: InWorld, maxPacketSize: nat, t: InTry, wire: OnTheWire)
    requires HeardFrom(w, maxPacketSize, t, wire) && Genuine(w, t.fate, wire.bytes)
    ensures LeftBehind(w, maxPacketSize, t, wire) == [] ==> Honest(w, t.fate)
    ensures t.fate.arrival.Complete? && IsData(t.fate.arrival.bytes) && IsData(wire.bytes) ==>
      (Honest(w, t.fate) <==> LeftBehind(w, maxPacketSize, t, wire) == [])
  {
    var x := Expected(w.host, t.room, maxPacketSize);
    WholePacketIff(x, wire.polls, wire.fullSpeed, true, wire.bytes);
    hide ParsePacket, InReceive.Heard, Undrained, Carries, FlagsStay, AfterToken, DataBytes;
  }

  /** Every attempt either never got its token out, or heard genuine bytes and drained them all. */
  ghost predicate WellHeard(start: InWorld, maxPacketSize: nat, tries: seq<InTry>, wires: seq<OnTheWire>) {
    && |wires| == |tries|
    && forall i | 0 <= i < |tries| ::
         var w := RunIn(start, maxPacketSize, tries[..i]);
         tries[i].fate.arrival.Unsent?
         || (HeardFrom(w, maxPacketSize, tries[i], wires[i]) && Genuine(w, tries[i].fate, wires[i].bytes)
             && LeftBehind(w, maxPacketSize, tries[i], wires[i]) == [])
  }

  /**
   * Exactly-once delivery from the receiver's pins up: over every run in which
   * the wire's bytes are genuine and the FIFO is empty at each end of packet,
   * delivery is in order exactly when no acknowledged new packet was dropped.
   */
  lemma ExactlyOnceFromTheWire(start: InWorld, maxPacketSize: nat, tries: seq<InTry>, wires: seq<OnTheWire>)
    requires TogglesCount(start) && InOrder(start)
    requires WellHeard(start, maxPacketSize, tries, wires)
    ensures HonestRun(start, maxPacketSize, tries)
    ensures InOrder(RunIn(start, maxPacketSize, tries)) <==> NothingLost(start, maxPacketSize, tries)
  {
    forall i | 0 <= i < |tries| ensures Honest(RunIn(start, maxPacketSize, tries[..i]), tries[i].fate) {
      var w := RunIn(start, maxPacketSize, tries[..i]);
      if !tries[i].fate.arrival.Unsent? {
        HonestIff(w, maxPacketSize, tries[i], wires[i]);
      }
    }
    ExactlyOnceIn(start, maxPacketSize, tries);
  }

  // ----- the pipe -----------------------------------------------------------------------

  /**
   * A request that did not succeed accepted nothing, except that a future
   * dropped, or a pipe invalidated, right after the exchange may take one
   * accepted packet with it.
   */
  ghost predicate Abandoned(result: Option<Result<nat, PipeError>>, before: seq<Payload>, after: seq<Payload>)
    requires !Succeeds(result)
  {
    || after == before
    || ((result.None? || result.value.error == Disconnected)
        && |after| == |before| + 1 && before <= after)
  }

  /** What the attempts came to. */
  function Outcomes(toggle: DataToggle, maxPacketSize: nat, tries: seq<InTry>): seq<Result<Outcome<nat>, PipeError>> {
    if tries == [] then []
    else Outcomes(toggle, maxPacketSize, tries[..|tries| - 1]) + [InOutcome(toggle, maxPacketSize, tries[|tries| - 1])]
  }

  /** How many attempts at the end of the list went unanswered in a row. */
  function SilentTries(toggle: DataToggle, maxPacketSize: nat, tries: seq<InTry>): nat {
    SilentTail(Outcomes(toggle, maxPacketSize, tries))
  }

  lemma SilentTriesAppend(toggle: DataToggle, maxPacketSize: nat, tries: seq<InTry>, t: InTry)
    ensures SilentTries(toggle, maxPacketSize, tries + [t])
         == SilentNow(SilentTries(toggle, maxPacketSize, tries), InOutcome(toggle, maxPacketSize, t))
  {
    hide InOutcome, SilentTail;
    assert (tries + [t])[..|tries|] == tries;
    SilentTailAppend(Outcomes(toggle, maxPacketSize, tries), InOutcome(toggle, maxPacketSize, t));
  }

  /** What a call of the retry loop gave its caller: one accepted packet in the buffer, or nothing to keep. */
  ghost predicate Gave(result: Option<Result<nat, PipeError>>, start: InWorld, w: InWorld, from: nat, size: nat,
                       bytes: seq<byte>)
  {
    if Succeeds(result) then
      && from + result.value.value <= |bytes| && result.value.value <= size
      && w.accepted == start.accepted + [bytes[from..from + result.value.value]]
      && w.host == start.host.AfterAck()
    else Abandoned(result, start.accepted, w.accepted)
  }

  lemma GaveFrom(result: Option<Result<nat, PipeError>>, start: InWorld, before: InWorld, w: InWorld, from: nat,
                 size: nat, bytes: seq<byte>)
    requires Gave(result, before, w, from, size, bytes)
    requires before.accepted == start.accepted && before.host == start.host
    ensures Gave(result, start, w, from, size, bytes)
  {}

  lemma NothingGiven(result: Option<Result<nat, PipeError>>, start: InWorld, w: InWorld, from: nat, size: nat,
                     bytes: seq<byte>)
    requires !Succeeds(result) && Abandoned(result, start.accepted, w.accepted)
    ensures Gave(result, start, w, from, size, bytes)
  {}

  lemma OutcomeOfStep(w: InWorld, maxPacketSize: nat, t: InTry)
    ensures var outcome := InOutcome(w.host, maxPacketSize, t);
      var next := InStep(w, maxPacketSize, t);
      if outcome.Ok? && outcome.value.Complete? then
        && t.fate.arrival.Complete?
        && next.accepted == w.accepted + [PayloadOf(t.fate.arrival.bytes)]
        && next.host == w.host.AfterAck()
        && |PayloadOf(t.fate.arrival.bytes)| == outcome.value.value <= Min(t.room, maxPacketSize)
      else next.accepted == w.accepted && next.host == w.host
  {
    hide ParsePacket;
    var x := Expected(w.host, t.room, maxPacketSize);
    if Verdict(x, t.fate.arrival) == Accept {
      AcceptedFits(x, t.fate.arrival.bytes);
    }
    hide Judgement;
  }

  lemma AcceptedFits(x: Expectation, bytes: seq<byte>)
    requires Judgement(x, bytes) == Accept
    ensures |bytes| >= 4 && |bytes| - 4 <= x.maxLen
  {}

  /** The first attempts of the script were made, each asked for a retry, and never 128 in a row were silent. */
  ghost predicate Trying(script: seq<Attempt<InFate>>, room: nat, toggle: DataToggle, maxPacketSize: nat,
                         used: seq<InTry>)
  {
    && |used| <= |script|
    && (forall i | 0 <= i < |used| ::
          Passed(script[i]) && used[i] == InTry(room, script[i].fate)
          && Retryable(InOutcome(toggle, maxPacketSize, used[i])))
    && (forall n | 0 <= n <= |used| :: SilentTries(toggle, maxPacketSize, used[..n]) < NON_RESPONSE_RETRY_LIMIT)
  }

  /** The retry loop on a script: the attempts it makes, and how it ends. */
  ghost predicate Tried(script: seq<Attempt<InFate>>, room: nat, toggle: DataToggle, maxPacketSize: nat,
                        used: seq<InTry>, result: Option<Result<nat, PipeError>>)
  {
    || (Trying(script, room, toggle, maxPacketSize, used) && StopsBefore(script, |used|, result))
    || (0 < |used| <= |script|
        && var n := |used| - 1;
           Trying(script, room, toggle, maxPacketSize, used[..n])
           && script[n].validBefore && script[n].validLocked && used[n] == InTry(room, script[n].fate)
           && LastSays(script[n], InOutcome(toggle, maxPacketSize, used[n]),
                       SilentTries(toggle, maxPacketSize, used), result))
  }

  /** What is heard asks for another attempt: nothing at all, a NAK, or the packet before once more. */
  ghost predicate AsksAgain(toggle: DataToggle, maxPacketSize: nat, fate: InFate) {
    || fate.arrival == Silence
    || fate.arrival == Arrival.Complete([0x80, 0x5a])
    || (fate.confirmed && IsDataPacket(fate.arrival, if toggle == Data0 then 0x4b else 0xc3, maxPacketSize))
  }

  /** The last so many attempts heard nothing at all. */
  ghost predicate SilentRun(used: seq<InTry>, n: nat) {
    n <= |used| && forall i | |used| - n <= i < |used| :: used[i].fate.arrival == Silence
  }

  lemma {:induction false} SilentTriesIff(toggle: DataToggle, maxPacketSize: nat, used: seq<InTry>, n: nat)
    requires maxPacketSize <= LARGEST_PAYLOAD
    ensures SilentTries(toggle, maxPacketSize, used) >= n <==> SilentRun(used, n)
  {
    if used != [] {
      var before, t := used[..|used| - 1], used[|used| - 1];
      assert before + [t] == used;
      SilentTriesAppend(toggle, maxPacketSize, before, t);
      ArrivalDecides(toggle, maxPacketSize, t);
      hide InOutcome, SilentTries;
      if n > 0 {
        SilentTriesIff(toggle, maxPacketSize, before, n - 1);
      }
    }
  }

  /** The transmitter failed: on the token, or on the ACK that a heard packet was owed. */
  ghost predicate NotConfirmed(toggle: DataToggle, room: nat, maxPacketSize: nat, fate: InFate) {
    || fate.arrival == Unsent
    || (!fate.confirmed
        && (IsDataPacket(fate.arrival, if toggle == Data0 then 0xc3 else 0x4b, Min(room, maxPacketSize))
            || IsDataPacket(fate.arrival, if toggle == Data0 then 0x4b else 0xc3, maxPacketSize)))
  }

  /** One attempt of a request, as far as the retry loop tells attempts apart. */
  ghost predicate ArrivalSays(toggle: DataToggle, maxPacketSize: nat, t: InTry) {
    var outcome := InOutcome(toggle, maxPacketSize, t);
    && (Retryable(outcome) <==> AsksAgain(toggle, maxPacketSize, t.fate))
    && (outcome == Err(PipeError.Stall) <==> t.fate.arrival == Arrival.Complete([0x80, 0x1e]))
    && (outcome == Err(Timeout) <==> NotConfirmed(toggle, t.room, maxPacketSize, t.fate))
    && (Unanswered(outcome) <==> t.fate.arrival == Silence)
    && outcome != Err(Disconnected)
  }

  lemma ArrivalTells(toggle: DataToggle, maxPacketSize: nat, t: InTry)
    requires maxPacketSize <= LARGEST_PAYLOAD
    ensures ArrivalSays(toggle, maxPacketSize, t)
  {
    ArrivalDecides(toggle, maxPacketSize, t);
    hide InOutcome, IsDataPacket;
  }

  /** The attempts that asked for another one. */
  ghost predicate AllAskAgain(toggle: DataToggle, maxPacketSize: nat, used: seq<InTry>) {
    && (forall i | 0 <= i < |used| :: AsksAgain(toggle, maxPacketSize, used[i].fate))
    && (forall n | 0 <= n <= |used| :: !SilentRun(used[..n], 128))
  }

  lemma TryingByArrivals(script: seq<Attempt<InFate>>, room: nat, toggle: DataToggle, maxPacketSize: nat,
                         used: seq<InTry>)
    requires Trying(script, room, toggle, maxPacketSize, used) && maxPacketSize <= LARGEST_PAYLOAD
    ensures AllAskAgain(toggle, maxPacketSize, used)
    ensures used != [] ==> ArrivalSays(toggle, maxPacketSize, used[|used| - 1])
  {
    hide InOutcome, SilentTries, SilentRun, AsksAgain, NotConfirmed;
    forall i | 0 <= i < |used|
      ensures ArrivalSays(toggle, maxPacketSize, used[i]) && AsksAgain(toggle, maxPacketSize, used[i].fate)
    {
      ArrivalTells(toggle, maxPacketSize, used[i]);
    }
    forall n | 0 <= n <= |used| ensures !SilentRun(used[..n], 128) {
      SilentTriesIff(toggle, maxPacketSize, used[..n], 128);
    }
  }

  /** What the last attempt of a request says of its result. */
  ghost predicate LastHeard(script: seq<Attempt<InFate>>, room: nat, toggle: DataToggle, maxPacketSize: nat,
                            used: seq<InTry>, result: Option<Result<nat, PipeError>>)
  {
    var n := |used| - 1;
    var heard := 0 <= n < |script| && !script[n].dropped && script[n].validAfter;
    && (result == Some(Err(PipeError.Stall)) <==> heard && used[n].fate.arrival == Arrival.Complete([0x80, 0x1e]))
    && (result == Some(Err(Timeout)) <==>
          heard && (SilentRun(used, 128) || NotConfirmed(toggle, room, maxPacketSize, used[n].fate)))
  }

  lemma StoppedBetween(script: seq<Attempt<InFate>>, room: nat, toggle: DataToggle, maxPacketSize: nat,
                       used: seq<InTry>, result: Option<Result<nat, PipeError>>)
    requires Trying(script, room, toggle, maxPacketSize, used) && StopsBefore(script, |used|, result)
    requires maxPacketSize <= LARGEST_PAYLOAD && AllAskAgain(toggle, maxPacketSize, used)
    ensures LastHeard(script, room, toggle, maxPacketSize, used, result)
  {
    assert used[..|used|] == used;
    if used != [] {
      ArrivalTells(toggle, maxPacketSize, used[|used| - 1]);
    }
    hide InOutcome, SilentTries, SilentRun, AsksAgain, NotConfirmed;
  }

  lemma StoppedAfter(script: seq<Attempt<InFate>>, room: nat, toggle: DataToggle, maxPacketSize: nat,
                     used: seq<InTry>, result: Option<Result<nat, PipeError>>)
    requires 0 < |used| <= |script| && maxPacketSize <= LARGEST_PAYLOAD
    requires var n := |used| - 1;
      && used[n] == InTry(room, script[n].fate)
      && LastSays(script[n], InOutcome(toggle, maxPacketSize, used[n]), SilentTries(toggle, maxPacketSize, used),
                  result)
      && SilentTries(toggle, maxPacketSize, used[..n]) < NON_RESPONSE_RETRY_LIMIT
    ensures LastHeard(script, room, toggle, maxPacketSize, used, result)
  {
    var n := |used| - 1;
    assert used[..n] + [used[n]] == used;
    SilentTriesAppend(toggle, maxPacketSize, used[..n], used[n]);
    SilentTriesIff(toggle, maxPacketSize, used, 128);
    ArrivalTells(toggle, maxPacketSize, used[n]);
    hide InOutcome, SilentTries, SilentRun, AsksAgain, NotConfirmed;
  }

  lemma AskedBefore(toggle: DataToggle, maxPacketSize: nat, used: seq<InTry>)
    requires used != [] && AllAskAgain(toggle, maxPacketSize, used[..|used| - 1])
    ensures forall i | 0 <= i < |used| - 1 :: AsksAgain(toggle, maxPacketSize, used[i].fate)
    ensures forall n | 0 <= n < |used| :: !SilentRun(used[..n], 128)
  {
    hide AsksAgain, SilentRun;
    var before := used[..|used| - 1];
    forall i | 0 <= i < |used| - 1 ensures AsksAgain(toggle, maxPacketSize, used[i].fate) {
      assert before[i] == used[i];
    }
    forall n | 0 <= n < |used| ensures !SilentRun(used[..n], 128) { assert before[..n] == used[..n]; }
  }

  lemma AllAsked(toggle: DataToggle, maxPacketSize: nat, used: seq<InTry>)
    requires AllAskAgain(toggle, maxPacketSize, used)
    ensures forall i | 0 <= i < |used| :: AsksAgain(toggle, maxPacketSize, used[i].fate)
    ensures forall n | 0 <= n <= |used| :: !SilentRun(used[..n], 128)
  {}

  lemma NotYetSilent(script: seq<Attempt<InFate>>, room: nat, toggle: DataToggle, maxPacketSize: nat,
                     used: seq<InTry>)
    requires Trying(script, room, toggle, maxPacketSize, used)
    ensures SilentTries(toggle, maxPacketSize, used) < NON_RESPONSE_RETRY_LIMIT
  {
    hide SilentTries, InOutcome;
    assert used[..|used|] == used;
  }

  /**
   * A whole request, by what arrived: every attempt but the last was answered
   * by nothing, a NAK or a duplicate, and no 128 of them in a row by nothing;
   * a STALL ends it and is its result, and it times out on 128 silent attempts
   * in a row, or when its transmitter fails.
   */
  lemma RequestByArrivals(script: seq<Attempt<InFate>>, room: nat, toggle: DataToggle, maxPacketSize: nat,
                          used: seq<InTry>, result: Option<Result<nat, PipeError>>)
    requires Tried(script, room, toggle, maxPacketSize, used, result) && maxPacketSize <= 100
    ensures forall i | 0 <= i < |used| - 1 :: AsksAgain(toggle, maxPacketSize, used[i].fate)
    ensures forall n | 0 <= n < |used| :: !SilentRun(used[..n], 128)
    ensures var n := |used| - 1;
      var heard := n >= 0 && !script[n].dropped && script[n].validAfter;
      && (result == Some(Err(PipeError.Stall)) <==> heard && used[n].fate.arrival == Arrival.Complete([0x80, 0x1e]))
      && (result == Some(Err(Timeout)) <==>
            heard && (SilentRun(used, 128) || NotConfirmed(toggle, room, maxPacketSize, used[n].fate)))
  {
    hide StopsBefore, AsksAgain, NotConfirmed, SilentRun, InOutcome, SilentTries, LastSays, AllAskAgain;
    if Trying(script, room, toggle, maxPacketSize, used) && StopsBefore(script, |used|, result) {
      TryingByArrivals(script, room, toggle, maxPacketSize, used);
      StoppedBetween(script, room, toggle, maxPacketSize, used, result);
      AllAsked(toggle, maxPacketSize, used);
    } else {
      var before := used[..|used| - 1];
      TryingByArrivals(script, room, toggle, maxPacketSize, before);
      NotYetSilent(script, room, toggle, maxPacketSize, before);
      StoppedAfter(script, room, toggle, maxPacketSize, used, result);
      AskedBefore(toggle, maxPacketSize, used);
    }
    hide Trying;
  }

  /** A heard STALL is the last attempt, and the result unless the call is dropped or the pipe no longer valid. */
  ghost predicate StallEnds(script: seq<Attempt<InFate>>, used: seq<InTry>, result: Option<Result<nat, PipeError>>) {
    && |used| <= |script|
    && forall i | 0 <= i < |used| && used[i].fate.arrival == Arrival.Complete([0x80, 0x1e]) ::
         && i == |used| - 1
         && result == if script[i].dropped then None
                      else Some(Err(if script[i].validAfter then PipeError.Stall else Disconnected))
  }

  lemma StallIsLast(script: seq<Attempt<InFate>>, room: nat, toggle: DataToggle, maxPacketSize: nat,
                    used: seq<InTry>, result: Option<Result<nat, PipeError>>)
    requires Tried(script, room, toggle, maxPacketSize, used, result)
    ensures maxPacketSize <= 100 ==> StallEnds(script, used, result)
  {
    if maxPacketSize <= 100 {
      hide InOutcome, SilentTries, IsDataPacket;
      forall i | 0 <= i < |used| && used[i].fate.arrival == Arrival.Complete([0x80, 0x1e])
        ensures InOutcome(toggle, maxPacketSize, used[i]) == Err(PipeError.Stall)
      {
        ArrivalTells(toggle, maxPacketSize, used[i]);
      }
      assert used != [] ==> forall i | 0 <= i < |used| - 1 :: used[..|used| - 1][i] == used[i];
    }
  }

  /** The retry loop between two attempts: nothing accepted yet, and the silent ones at the end counted. */
  ghost predicate Waiting(script: seq<Attempt<InFate>>, room: nat, start: InWorld, w: InWorld, maxPacketSize: nat,
                          used: seq<InTry>, silent: nat)
  {
    && Trying(script, room, start.host, maxPacketSize, used)
    && w == RunIn(start, maxPacketSize, used) && w.accepted == start.accepted && w.host == start.host
    && silent == SilentTries(start.host, maxPacketSize, used) < NON_RESPONSE_RETRY_LIMIT
  }

  lemma WaitingBegins(script: seq<Attempt<InFate>>, room: nat, start: InWorld, maxPacketSize: nat)
    ensures Waiting(script, room, start, start, maxPacketSize, [], 0)
  {}

  lemma WaitingGoesOn(script: seq<Attempt<InFate>>, room: nat, start: InWorld, w: InWorld, maxPacketSize: nat,
                      used: seq<InTry>, silent: nat, t: InTry)
    requires Waiting(script, room, start, w, maxPacketSize, used, silent)
    requires |used| < |script| && Passed(script[|used|]) && t == InTry(room, script[|used|].fate)
    requires var outcome := InOutcome(start.host, maxPacketSize, t);
      Retryable(outcome) && SilentNow(silent, outcome) < NON_RESPONSE_RETRY_LIMIT
    ensures Waiting(script, room, start, InStep(w, maxPacketSize, t), maxPacketSize, used + [t],
                    SilentNow(silent, InOutcome(start.host, maxPacketSize, t)))
  {
    RunInAppend(start, maxPacketSize, used, t);
    SilentTriesAppend(start.host, maxPacketSize, used, t);
    OutcomeOfStep(w, maxPacketSize, t);
    hide InOutcome, SilentTries, RunIn, InStep, Trying;
    TryingMore(script, room, start.host, maxPacketSize, used);
  }

  lemma WaitingIsOver(script: seq<Attempt<InFate>>, room: nat, start: InWorld, w: InWorld, maxPacketSize: nat,
                      used: seq<InTry>, silent: nat, t: InTry, result: Option<Result<nat, PipeError>>)
    requires Waiting(script, room, start, w, maxPacketSize, used, silent)
    requires |used| < |script| && script[|used|].validBefore && script[|used|].validLocked
    requires t == InTry(room, script[|used|].fate)
    requires var outcome := InOutcome(start.host, maxPacketSize, t);
      LastSays(script[|used|], outcome, SilentNow(silent, outcome), result)
    ensures InStep(w, maxPacketSize, t) == RunIn(start, maxPacketSize, used + [t])
    ensures Tried(script, room, start.host, maxPacketSize, used + [t], result)
  {
    RunInAppend(start, maxPacketSize, used, t);
    SilentTriesAppend(start.host, maxPacketSize, used, t);
    hide InOutcome, SilentTries, RunIn, InStep, Trying, LastSays;
    assert (used + [t])[..|used|] == used;
  }

  lemma WaitingEnds(script: seq<Attempt<InFate>>, room: nat, start: InWorld, w: InWorld, maxPacketSize: nat,
                    used: seq<InTry>, silent: nat, result: Option<Result<nat, PipeError>>)
    requires Waiting(script, room, start, w, maxPacketSize, used, silent) && StopsBefore(script, |used|, result)
    ensures Tried(script, room, start.host, maxPacketSize, used, result)
    ensures w == RunIn(start, maxPacketSize, used) && !Succeeds(result) && Abandoned(result, start.accepted, w.accepted)
  {
    hide Trying;
  }

  lemma NothingAccepted(script: seq<Attempt<InFate>>, room: nat, start: InWorld, w: InWorld, maxPacketSize: nat,
                        used: seq<InTry>, silent: nat)
    requires Waiting(script, room, start, w, maxPacketSize, used, silent)
    ensures w.accepted == start.accepted && w.host == start.host
  {}

  lemma TryingMore(script: seq<Attempt<InFate>>, room: nat, toggle: DataToggle, maxPacketSize: nat, used: seq<InTry>)
    requires Trying(script, room, toggle, maxPacketSize, used) && |used| < |script| && Passed(script[|used|])
    requires var t := InTry(room, script[|used|].fate);
      Retryable(InOutcome(toggle, maxPacketSize, t))
      && SilentTries(toggle, maxPacketSize, used + [t]) < NON_RESPONSE_RETRY_LIMIT
    ensures Trying(script, room, toggle, maxPacketSize, used + [InTry(room, script[|used|].fate)])
  {
    hide InOutcome, SilentTries;
    var more := used + [InTry(room, script[|used|].fate)];
    forall n | 0 <= n <= |more| ensures SilentTries(toggle, maxPacketSize, more[..n]) < NON_RESPONSE_RETRY_LIMIT {
      assert n <= |used| ==> more[..n] == used[..n];
      assert more[..|more|] == more;
    }
  }

  // ----- several packets ------------------------------------------------------------------

  /** A toggle after so many packets. */
  function Flipped(toggle: DataToggle, n: nat): DataToggle { if n % 2 == 0 then toggle else toggle.AfterAck() }

  lemma FlippedOnce(toggle: DataToggle, n: nat)
    ensures Flipped(toggle, n).AfterAck() == Flipped(toggle, n + 1)
    ensures Flipped(toggle, 0) == toggle
  {}

  /** The i-th packet of a transfer: retried on its own script, for the room that the packets before it left. */
  ghost predicate PacketTried(scripts: nat -> seq<Attempt<InFate>>, toggle: DataToggle, maxPacketSize: nat,
                              capacity: nat,
                              parts: seq<seq<InTry>>, taken: seq<Payload>, i: nat,
                              result: Option<Result<nat, PipeError>>)
    requires i <= |taken| && i < |parts|
  {
    && |Concat(taken[..i])| <= capacity
    && Tried(scripts(i), capacity - |Concat(taken[..i])|, Flipped(toggle, i), maxPacketSize, parts[i], result)
  }

  /** All attempts of a transfer: one part for every packet taken, and one that ended it without a packet. */
  ghost predicate TransferTried(scripts: nat -> seq<Attempt<InFate>>, toggle: DataToggle, maxPacketSize: nat,
                                capacity: nat,
                                parts: seq<seq<InTry>>, taken: seq<Payload>, result: Option<Result<nat, PipeError>>)
  {
    && |parts| == |taken| + (if Succeeds(result) then 0 else 1)
    && (forall i | 0 <= i < |taken| ::
          PacketTried(scripts, toggle, maxPacketSize, capacity, parts, taken, i, Some(Ok(|taken[i]|))))
    && (!Succeeds(result) ==> PacketTried(scripts, toggle, maxPacketSize, capacity, parts, taken, |taken|, result))
  }

  /** Packets tried so far. */
  ghost predicate TransferTrying(scripts: nat -> seq<Attempt<InFate>>, toggle: DataToggle, maxPacketSize: nat,
                                 capacity: nat, parts: seq<seq<InTry>>, taken: seq<Payload>)
  {
    && |parts| == |taken|
    && (forall i | 0 <= i < |taken| ::
          PacketTried(scripts, toggle, maxPacketSize, capacity, parts, taken, i, Some(Ok(|taken[i]|))))
  }

  lemma OnePartMore(scripts: nat -> seq<Attempt<InFate>>, toggle: DataToggle, maxPacketSize: nat, capacity: nat,
                    parts: seq<seq<InTry>>, taken: seq<Payload>, part: seq<InTry>, p: Payload)
    requires TransferTrying(scripts, toggle, maxPacketSize, capacity, parts, taken)
    requires |Concat(taken)| <= capacity
    requires Tried(scripts(|taken|), capacity - |Concat(taken)|, Flipped(toggle, |taken|), maxPacketSize, part,
      Some(Ok(|p|)))
    ensures TransferTrying(scripts, toggle, maxPacketSize, capacity, parts + [part], taken + [p])
  {
    hide Tried, Concat, Flipped;
    var more := taken + [p];
    assert taken[..|taken|] == taken && more[..|taken|] == taken;
    forall i | 0 <= i < |more|
      ensures PacketTried(scripts, toggle, maxPacketSize, capacity, parts + [part], more, i, Some(Ok(|more[i]|)))
    {
      assert i < |taken| ==> more[..i] == taken[..i] && (parts + [part])[i] == parts[i] && more[i] == taken[i];
      assert i < |taken| ==>
        PacketTried(scripts, toggle, maxPacketSize, capacity, parts, taken, i, Some(Ok(|taken[i]|)));
    }
  }

  lemma TransferEnds(scripts: nat -> seq<Attempt<InFate>>, toggle: DataToggle, maxPacketSize: nat, capacity: nat,
                     parts: seq<seq<InTry>>, taken: seq<Payload>, part: seq<InTry>,
                     result: Option<Result<nat, PipeError>>)
    requires TransferTrying(scripts, toggle, maxPacketSize, capacity, parts, taken)
    requires |Concat(taken)| <= capacity && !Succeeds(result)
    requires Tried(scripts(|taken|), capacity - |Concat(taken)|, Flipped(toggle, |taken|), maxPacketSize, part, result)
    ensures TransferTried(scripts, toggle, maxPacketSize, capacity, parts + [part], taken, result)
  {
    hide Tried, Concat, Flipped;
    assert taken[..|taken|] == taken;
    forall i | 0 <= i < |taken|
      ensures PacketTried(scripts, toggle, maxPacketSize, capacity, parts + [part], taken, i, Some(Ok(|taken[i]|)))
    {
      assert (parts + [part])[i] == parts[i];
      assert PacketTried(scripts, toggle, maxPacketSize, capacity, parts, taken, i, Some(Ok(|taken[i]|)));
    }
  }

  /** A transfer between two packets. */
  ghost predicate Transferring(scripts: nat -> seq<Attempt<InFate>>, start: InWorld, w: InWorld, maxPacketSize: nat,
                               capacity: nat, bulk: bool, parts: seq<seq<InTry>>, taken: seq<Payload>)
  {
    && TransferTrying(scripts, start.host, maxPacketSize, capacity, parts, taken)
    && w == RunIn(start, maxPacketSize, Joined(parts))
    && w.host == Flipped(start.host, |taken|) && w.accepted == start.accepted + taken
    && (!bulk ==> taken == [])
    && (forall i | 0 <= i < |taken| :: |taken[i]| == maxPacketSize)
    && (forall i | 0 <= i <= |taken| :: |Concat(taken[..i])| < capacity)
  }

  /** A transfer that succeeded: every attempt on the scripts, and one transfer's worth of packets accepted. */
  ghost predicate Transferred(scripts: nat -> seq<Attempt<InFate>>, start: InWorld, w: InWorld, maxPacketSize: nat,
                              capacity: nat, bulk: bool, parts: seq<seq<InTry>>, taken: seq<Payload>)
  {
    && TransferTried(scripts, start.host, maxPacketSize, capacity, parts, taken, Some(Ok(|Concat(taken)|)))
    && w == RunIn(start, maxPacketSize, Joined(parts)) && w.accepted == start.accepted + taken
    && (if bulk then OneTransfer(taken, maxPacketSize, capacity) else |taken| == 1)
  }

  /** A transfer that did not: full packets so far, and an attempt that ended it. */
  ghost predicate Broken(scripts: nat -> seq<Attempt<InFate>>, start: InWorld, w: InWorld, maxPacketSize: nat,
                         capacity: nat,
                         bulk: bool, parts: seq<seq<InTry>>, taken: seq<Payload>,
                         result: Option<Result<nat, PipeError>>)
    requires !Succeeds(result)
  {
    && TransferTried(scripts, start.host, maxPacketSize, capacity, parts, taken, result)
    && w == RunIn(start, maxPacketSize, Joined(parts))
    && (forall i | 0 <= i < |taken| :: bulk && |taken[i]| == maxPacketSize)
    && |Concat(taken)| < capacity
    && Abandoned(result, start.accepted + taken, w.accepted)
  }

  lemma TransferBegins(scripts: nat -> seq<Attempt<InFate>>, start: InWorld, maxPacketSize: nat, capacity: nat,
                       bulk: bool)
    requires capacity > 0
    ensures Transferring(scripts, start, start, maxPacketSize, capacity, bulk, [], [])
    ensures RunIn(start, maxPacketSize, Joined([])) == start
  {
    assert start.accepted + [] == start.accepted;
  }

  /** One more packet: the transfer goes on after a full one with room left, and is complete otherwise. */
  lemma TransferGoesOn(scripts: nat -> seq<Attempt<InFate>>, start: InWorld, w: InWorld, next: InWorld,
                       maxPacketSize: nat, capacity: nat,
                       bulk: bool, parts: seq<seq<InTry>>, taken: seq<Payload>, part: seq<InTry>, p: Payload)
    requires Transferring(scripts, start, w, maxPacketSize, capacity, bulk, parts, taken)
    requires |Concat(taken)| + |p| <= capacity && |p| <= maxPacketSize
    requires Tried(scripts(|taken|), capacity - |Concat(taken)|, w.host, maxPacketSize, part, Some(Ok(|p|)))
    requires next == RunIn(w, maxPacketSize, part)
    requires next.accepted == w.accepted + [p] && next.host == w.host.AfterAck()
    ensures |Concat(taken + [p])| == |Concat(taken)| + |p|
    ensures if bulk && |Concat(taken)| + |p| < capacity && |p| == maxPacketSize
            then Transferring(scripts, start, next, maxPacketSize, capacity, bulk, parts + [part], taken + [p])
            else Transferred(scripts, start, next, maxPacketSize, capacity, bulk, parts + [part], taken + [p])
  {
    hide Tried, RunIn, Concat, Joined, Flipped, TransferTrying, TransferTried;
    RunInConcat(start, maxPacketSize, Joined(parts), part);
    JoinedAppend(parts, part);
    FlippedOnce(start.host, |taken|);
    OnePacketMore(taken, p);
    OnePartMore(scripts, start.host, maxPacketSize, capacity, parts, taken, part, p);
    assert start.accepted + taken + [p] == start.accepted + (taken + [p]);
    if bulk && |Concat(taken)| + |p| < capacity && |p| == maxPacketSize {
      FullPacket(taken, p, capacity);
    } else {
      if bulk { LastPacket(taken, p, maxPacketSize, capacity); }
      TransferDone(scripts, start.host, maxPacketSize, capacity, parts + [part], taken + [p], |Concat(taken + [p])|);
    }
  }

  lemma TransferBreaks(scripts: nat -> seq<Attempt<InFate>>, start: InWorld, w: InWorld, next: InWorld,
                       maxPacketSize: nat, capacity: nat,
                       bulk: bool, parts: seq<seq<InTry>>, taken: seq<Payload>, part: seq<InTry>,
                       result: Option<Result<nat, PipeError>>)
    requires Transferring(scripts, start, w, maxPacketSize, capacity, bulk, parts, taken)
    requires |Concat(taken)| < capacity && !Succeeds(result)
    requires Tried(scripts(|taken|), capacity - |Concat(taken)|, w.host, maxPacketSize, part, result)
    requires next == RunIn(w, maxPacketSize, part) && Abandoned(result, w.accepted, next.accepted)
    ensures Broken(scripts, start, next, maxPacketSize, capacity, bulk, parts + [part], taken, result)
  {
    hide Tried, RunIn, Concat, Joined, Flipped, TransferTrying, TransferTried;
    RunInConcat(start, maxPacketSize, Joined(parts), part);
    JoinedAppend(parts, part);
    TransferEnds(scripts, start.host, maxPacketSize, capacity, parts, taken, part, result);
  }

  /** A bulk or interrupt IN pipe; `world` is what host and device have come to. */
  class InPipe {
    const maxPacketSize: nat
    const bulk: bool
    var dataToggle: DataToggle
    ghost var world: InWorld

    ghost predicate Valid()
      reads this
    {
      maxPacketSize > 0 && dataToggle == world.host
    }

    constructor (maxPacketSize: nat, bulk: bool)
      requires maxPacketSize > 0
      ensures Valid() && world == FRESH && this.maxPacketSize == maxPacketSize && this.bulk == bulk
    {
      this.maxPacketSize, this.bulk := maxPacketSize, bulk;
      dataToggle, world := Data0, FRESH;
    }

    /** One transaction: accept the packet into `buffer[from..]` and flip the toggle, or leave both alone. */
    method RequestInOnce(buffer: array<byte>, from: nat, fate: InFate)
      returns (outcome: Result<Outcome<nat>, PipeError>)
      requires Valid() && from <= buffer.Length
      modifies this, buffer
      ensures Valid() && world == InStep(old(world), maxPacketSize, InTry(buffer.Length - from, fate))
      ensures outcome == InOutcome(old(dataToggle), maxPacketSize, InTry(buffer.Length - from, fate))
      ensures buffer[..from] == old(buffer[..from])
      ensures Completes(outcome) ==>
        && from + outcome.value.value <= buffer.Length && outcome.value.value <= maxPacketSize
        && world.accepted == old(world).accepted + [buffer[from..from + outcome.value.value]]
        && dataToggle == old(dataToggle).AfterAck()
      ensures !Completes(outcome) ==> world.accepted == old(world).accepted && dataToggle == old(dataToggle)
    {
      hide InOutcome, InStep, PayloadOf;
      var t := InTry(buffer.Length - from, fate);
      OutcomeOfStep(world, maxPacketSize, t);
      outcome := InOutcome(dataToggle, maxPacketSize, t);
      world := InStep(world, maxPacketSize, t);
      if Completes(outcome) {
        dataToggle := dataToggle.AfterAck();
        CopyInto(buffer, from, PayloadOf(fate.arrival.bytes));
      }
    }

    /** One turn of the retry loop: the exchange, and whether to go on. */
    method Exchange(buffer: array<byte>, from: nat, attempt: Attempt<InFate>, silent: nat)
      returns (retry: bool, silent': nat, result: Option<Result<nat, PipeError>>)
      requires Valid() && from <= buffer.Length && silent < NON_RESPONSE_RETRY_LIMIT
      requires attempt.validBefore && attempt.validLocked
      modifies this, buffer
      ensures Valid() && world == InStep(old(world), maxPacketSize, InTry(buffer.Length - from, attempt.fate))
      ensures buffer[..from] == old(buffer[..from])
      ensures var outcome := InOutcome(old(dataToggle), maxPacketSize, InTry(buffer.Length - from, attempt.fate));
        if retry then Passed(attempt) && Retryable(outcome)
          && silent' == SilentNow(silent, outcome) < NON_RESPONSE_RETRY_LIMIT
        else LastSays(attempt, outcome, SilentNow(silent, outcome), result)
      ensures retry ==> dataToggle == old(dataToggle)
      ensures !retry ==> Gave(result, old(world), world, from, maxPacketSize, buffer[..])
    {
      hide InOutcome, InStep;
      var outcome := RequestInOnce(buffer, from, attempt.fate);
      retry, silent', result := AfterExchange(attempt, outcome, silent);
    }

    /**
     * Retry until a packet is accepted: NAKs without limit, 128 unanswered
     * attempts in a row at most. `None` is a dropped future.
     */
    method RequestInPacket(buffer: array<byte>, from: nat, script: seq<Attempt<InFate>>)
      returns (result: Option<Result<nat, PipeError>>, ghost used: seq<InTry>)
      requires Valid() && from <= buffer.Length
      modifies this, buffer
      ensures Valid() && world == RunIn(old(world), maxPacketSize, used)
      ensures Tried(script, buffer.Length - from, old(dataToggle), maxPacketSize, used, result)
      ensures maxPacketSize <= 100 ==> StallEnds(script, used, result)
      ensures buffer[..from] == old(buffer[..from])
      ensures Gave(result, old(world), world, from, maxPacketSize, buffer[..])
    {
      used := [];
      ghost var room, start, kept := buffer.Length - from, world, buffer[..from];
      WaitingBegins(script, room, start, maxPacketSize);
      hide InOutcome, RunIn, SilentTries, Succeeds, Trying, Tried, Waiting, InStep, Abandoned, LastSays, Passed,
        Retryable, Gave, StallEnds;
      var silent: nat, turn: nat := 0, 0;
      while turn < |script|
        invariant 0 <= turn <= |script| && turn == |used| && Valid() && dataToggle == start.host
        invariant silent < NON_RESPONSE_RETRY_LIMIT && buffer[..from] == kept
        invariant Waiting(script, room, start, world, maxPacketSize, used, silent)
      {
        var retry;
        retry, silent, result, used := Turn(buffer, from, script, turn, silent, start, used);
        if !retry {
          StallIsLast(script, room, start.host, maxPacketSize, used, result);
          return;
        }
        turn := turn + 1;
      }
      WaitingEnds(script, room, start, world, maxPacketSize, used, silent, None);
      StallIsLast(script, room, start.host, maxPacketSize, used, None);
      NothingGiven(None, start, world, from, maxPacketSize, buffer[..]);
      return None, used;
    }

    /** One turn, with what it makes of the turns before. */
    method Turn(buffer: array<byte>, from: nat, script: seq<Attempt<InFate>>, turn: nat, silent: nat,
                ghost start: InWorld, ghost used: seq<InTry>)
      returns (retry: bool, silent': nat, result: Option<Result<nat, PipeError>>, ghost used': seq<InTry>)
      requires Valid() && from <= buffer.Length && silent < NON_RESPONSE_RETRY_LIMIT
      requires turn == |used| < |script|
      requires Waiting(script, buffer.Length - from, start, world, maxPacketSize, used, silent)
      modifies this, buffer
      ensures Valid() && buffer[..from] == old(buffer[..from])
      ensures retry ==>
        && Waiting(script, buffer.Length - from, start, world, maxPacketSize, used', silent')
        && silent' < NON_RESPONSE_RETRY_LIMIT && dataToggle == start.host && |used'| == turn + 1
      ensures !retry ==>
        && world == RunIn(start, maxPacketSize, used')
        && Tried(script, buffer.Length - from, start.host, maxPacketSize, used', result)
      ensures !retry ==> Gave(result, start, world, from, maxPacketSize, buffer[..])
    {
      NothingAccepted(script, buffer.Length - from, start, world, maxPacketSize, used, silent);
      hide *;
      if !script[turn].validBefore || !script[turn].validLocked {
        WaitingEnds(script, buffer.Length - from, start, world, maxPacketSize, used, silent, Some(Err(Disconnected)));
        NothingGiven(Some(Err(Disconnected)), start, world, from, maxPacketSize, buffer[..]);
        return false, silent, Some(Err(Disconnected)), used;
      }
      retry, silent', result := Perform(buffer, from, script, turn, silent, start, used);
      used' := used + [InTry(buffer.Length - from, script[turn].fate)];
    }

    /** The exchange of one turn, with what it makes of the turns before. */
    method Perform(buffer: array<byte>, from: nat, script: seq<Attempt<InFate>>, turn: nat, silent: nat,
                   ghost start: InWorld, ghost used: seq<InTry>)
      returns (retry: bool, silent': nat, result: Option<Result<nat, PipeError>>)
      requires Valid() && from <= buffer.Length && silent < NON_RESPONSE_RETRY_LIMIT
      requires turn == |used| < |script| && script[turn].validBefore && script[turn].validLocked
      requires Waiting(script, buffer.Length - from, start, world, maxPacketSize, used, silent)
      requires world.accepted == start.accepted && world.host == start.host
      modifies this, buffer
      ensures Valid() && buffer[..from] == old(buffer[..from])
      ensures var more := used + [InTry(buffer.Length - from, script[turn].fate)];
        if retry then
          && Waiting(script, buffer.Length - from, start, world, maxPacketSize, more, silent')
          && silent' < NON_RESPONSE_RETRY_LIMIT && dataToggle == start.host
        else
          && world == RunIn(start, maxPacketSize, more)
          && Tried(script, buffer.Length - from, start.host, maxPacketSize, more, result)
          && Gave(result, start, world, from, maxPacketSize, buffer[..])
    {
      ghost var t, before := InTry(buffer.Length - from, script[turn].fate), world;
      hide InOutcome, RunIn, SilentTries, Trying, Tried, Waiting, InStep, Abandoned, LastSays, Passed, Retryable,
        SilentNow, Expected, Gave;
      retry, silent', result := Exchange(buffer, from, script[turn], silent);
      if retry {
        WaitingGoesOn(script, t.room, start, before, maxPacketSize, used, silent, t);
      } else {
        WaitingIsOver(script, t.room, start, before, maxPacketSize, used, silent, t, result);
        GaveFrom(result, start, before, world, from, maxPacketSize, buffer[..]);
      }
    }

    /**
     * A transfer: one packet, or for bulk endpoints packets up to a short one
     * or a full buffer. Success means that the caller's bytes are exactly the
     * packets accepted meanwhile, one transfer's worth of them.
     */
    method RequestIn(buffer: array<byte>, scripts: nat -> seq<Attempt<InFate>>)
      returns (result: Option<Result<nat, PipeError>>, ghost parts: seq<seq<InTry>>, ghost taken: seq<Payload>)
      requires Valid()
      modifies this, buffer
      ensures Valid()
      ensures buffer.Length == 0 ==> result == Some(Ok(0)) && world == old(world)
      ensures buffer.Length > 0 && Succeeds(result) ==>
        && Transferred(scripts, old(world), world, maxPacketSize, buffer.Length, bulk, parts, taken)
        && result.value.value == |Concat(taken)| <= buffer.Length
        && buffer[..result.value.value] == Concat(taken)
      ensures !Succeeds(result) ==>
        Broken(scripts, old(world), world, maxPacketSize, buffer.Length, bulk, parts, taken, result)
      ensures Succeeds(result) && bulk ==>
        result.value.value <= buffer.Length
        && forall data | |data| <= buffer.Length && Served(old(world), world, maxPacketSize, parts, data) ::
             buffer[..result.value.value] == data
    {
      parts, taken := [], [];
      if buffer.Length == 0 {
        return Some(Ok(0)), parts, taken;
      }
      TransferBegins(scripts, world, maxPacketSize, buffer.Length, bulk);
      NoPackets();
      hide RunIn, Concat, Joined, Flipped, Tried, Transferring, Transferred, Broken, Abandoned, Served;
      var received: nat, index: nat, more := 0, 0, true;
      while more
        invariant Valid() && index == |taken|
        invariant more ==> received < buffer.Length
        invariant more ==> Transferring(scripts, old(world), world, maxPacketSize, buffer.Length, bulk, parts, taken)
        invariant !more ==> Transferred(scripts, old(world), world, maxPacketSize, buffer.Length, bulk, parts, taken)
        invariant received <= buffer.Length && buffer[..received] == Concat(taken)
        decreases more, buffer.Length - received
      {
        var packet;
        packet, parts, taken := RequestNext(buffer, received, scripts(index), old(world), scripts, parts, taken);
        index := index + 1;
        if packet.None? || packet.value.Err? {
          return packet, parts, taken;
        }
        received := received + packet.value.value;
        more := bulk && received != buffer.Length && packet.value.value >= maxPacketSize;
      }
      TransferIsExact(scripts, old(world), world, maxPacketSize, buffer.Length, bulk, parts, taken);
      return Some(Ok(received)), parts, taken;
    }

    /** The next packet of a transfer, into the rest of the buffer. */
    method RequestNext(buffer: array<byte>, received: nat, script: seq<Attempt<InFate>>,
                       ghost start: InWorld, ghost scripts: nat -> seq<Attempt<InFate>>, ghost parts: seq<seq<InTry>>,
                       ghost taken: seq<Payload>)
      returns (result: Option<Result<nat, PipeError>>, ghost parts': seq<seq<InTry>>, ghost taken': seq<Payload>)
      requires Valid() && received < buffer.Length && buffer[..received] == Concat(taken)
      requires Transferring(scripts, start, world, maxPacketSize, buffer.Length, bulk, parts, taken)
      requires script == scripts(|taken|)
      modifies this, buffer
      ensures Valid()
      ensures Succeeds(result) ==>
        && received + result.value.value <= buffer.Length && result.value.value <= maxPacketSize
        && |taken'| == |taken| + 1 && buffer[..received + result.value.value] == Concat(taken')
        && (if bulk && received + result.value.value < buffer.Length && result.value.value == maxPacketSize
            then Transferring(scripts, start, world, maxPacketSize, buffer.Length, bulk, parts', taken')
            else Transferred(scripts, start, world, maxPacketSize, buffer.Length, bulk, parts', taken'))
      ensures !Succeeds(result) ==>
        Broken(scripts, start, world, maxPacketSize, buffer.Length, bulk, parts', taken', result)
    {
      hide RunIn, Concat, Joined, Flipped, Tried, Transferring, Transferred, Broken, Abandoned;
      ghost var before, part := world, [];
      result, part := RequestInPacket(buffer, received, script);
      parts' := parts + [part];
      if !Succeeds(result) {
        taken' := taken;
        TransferBreaks(scripts, start, before, world, maxPacketSize, buffer.Length, bulk, parts, taken, part, result);
        return;
      }
      ghost var p := buffer[received..received + result.value.value];
      taken' := taken + [p];
      assert buffer[..received + result.value.value] == buffer[..received] + p;
      OnePacketMore(taken, p);
      TransferGoesOn(scripts, start, before, world, maxPacketSize, buffer.Length, bulk, parts, taken, part, p);
    }
  }

  lemma TransferDone(scripts: nat -> seq<Attempt<InFate>>, toggle: DataToggle, maxPacketSize: nat, capacity: nat,
                     parts: seq<seq<InTry>>, taken: seq<Payload>, received: nat)
    requires TransferTrying(scripts, toggle, maxPacketSize, capacity, parts, taken)
    ensures TransferTried(scripts, toggle, maxPacketSize, capacity, parts, taken, Some(Ok(received)))
  {
    hide PacketTried;
  }

  method CopyInto(buffer: array<byte>, from: nat, bytes: seq<byte>)
    requires from + |bytes| <= buffer.Length
    modifies buffer
    ensures buffer[..from] == old(buffer[..from])
    ensures buffer[from..from + |bytes|] == bytes
  {
    var i := 0;
    while i < |bytes|
      invariant i <= |bytes|
      invariant buffer[..from] == old(buffer[..from])
      invariant buffer[from..from + i] == bytes[..i]
    {
      buffer[from + i] := bytes[i];
      i := i + 1;
    }
  }

  lemma NoPackets()
    ensures Concat([]) == []
  {}

  lemma OnePacketMore(taken: seq<Payload>, p: Payload)
    ensures Concat(taken + [p]) == Concat(taken) + p
  {
    ConcatAppend(taken, [p]);
    ConcatOne(p);
  }

  lemma FullPacket(taken: seq<Payload>, p: Payload, capacity: nat)
    requires forall i | 0 <= i <= |taken| :: |Concat(taken[..i])| < capacity
    requires |Concat(taken + [p])| < capacity
    ensures forall i | 0 <= i <= |taken| + 1 :: |Concat((taken + [p])[..i])| < capacity
  {
    hide Concat;
    forall i | 0 <= i <= |taken| + 1 ensures |Concat((taken + [p])[..i])| < capacity {
      assert i <= |taken| ==> (taken + [p])[..i] == taken[..i];
      assert i == |taken| + 1 ==> (taken + [p])[..i] == taken + [p];
    }
  }

  lemma LastPacket(taken: seq<Payload>, p: Payload, size: nat, capacity: nat)
    requires forall i | 0 <= i < |taken| :: |taken[i]| == size
    requires forall i | 0 <= i <= |taken| :: |Concat(taken[..i])| < capacity
    requires |p| <= size && |Concat(taken + [p])| <= capacity
    requires |p| < size || |Concat(taken + [p])| == capacity
    ensures OneTransfer(taken + [p], size, capacity)
  {
    hide Concat;
    var all := taken + [p];
    forall i | 0 <= i < |all| ensures |Concat(all[..i])| < capacity {
      assert all[..i] == taken[..i];
    }
  }

  /**
   * What a successful bulk request returns: if the device's packets from the
   * host's position on are those of a properly terminated transfer of `data`,
   * the caller gets exactly `data`.
   */
  lemma BulkInIsExact(before: InWorld, after: InWorld, taken: seq<Payload>, size: nat, capacity: nat,
                      data: Payload, rest: seq<Payload>)
    requires size > 0 && |data| <= capacity
    requires InOrder(after) && after.accepted == before.accepted + taken
    requires after.sent[|before.accepted|..] <= Split(data, size, true) + rest
    requires OneTransfer(taken, size, capacity)
    ensures Concat(taken) == data
  {
    hide Concat, Split, OneTransfer;
    var queue := Split(data, size, true) + rest;
    var n := |before.accepted|;
    assert taken == after.accepted[n..];
    assert taken <= after.sent[n..];
    assert taken <= queue;
    ReassemblyInvertsPackets(data, size, capacity, rest, taken);
  }

  /**
   * The run was honest, lost nothing, and started in order; and what the
   * device had for the host since then are the packets of one properly
   * terminated transfer of the data, and whatever it sends next.
   */
  ghost predicate Served(start: InWorld, after: InWorld, size: nat, parts: seq<seq<InTry>>, data: Payload)
    requires size > 0
  {
    && TogglesCount(start) && InOrder(start)
    && HonestRun(start, size, Joined(parts)) && NothingLost(start, size, Joined(parts))
    && exists rest :: Sends(after, |start.accepted|, Split(data, size, true), rest)
  }

  /** From the n-th on, the device's packets are these, and then the others, as far as it has come. */
  ghost predicate Sends(w: InWorld, n: nat, packets: seq<Payload>, rest: seq<Payload>) {
    n <= |w.sent| && w.sent[n..] <= packets + rest
  }

  /** A successful bulk transfer against such a device returns exactly the data. */
  lemma TransferIsExact(scripts: nat -> seq<Attempt<InFate>>, start: InWorld, after: InWorld, size: nat, capacity: nat,
                        bulk: bool, parts: seq<seq<InTry>>, taken: seq<Payload>)
    requires size > 0 && Transferred(scripts, start, after, size, capacity, bulk, parts, taken)
    ensures bulk ==> forall data | |data| <= capacity && Served(start, after, size, parts, data) ::
      Concat(taken) == data
  {
    hide Concat, Split, OneTransfer, RunIn, HonestRun, NothingLost, TransferTried, TogglesCount;
    if bulk {
      forall data | |data| <= capacity && Served(start, after, size, parts, data) ensures Concat(taken) == data {
        var rest :| Sends(after, |start.accepted|, Split(data, size, true), rest);
        ExactlyOnceIn(start, size, Joined(parts));
        BulkInIsExact(start, after, taken, size, capacity, data, rest);
      }
    }
  }

  /**
   * The excluded failure is real: when the transmitter fails to confirm an ACK
   * that did reach the device, the packet is lost and the next one is taken
   * for a duplicate.
   */
  lemma UnconfirmedAckLosesData(maxPacketSize: nat, payload: Payload)
    requires |payload| <= maxPacketSize <= LARGEST_PAYLOAD
    ensures var bytes := DataBytes(PID_DATA0, payload);
      var t := InTry(maxPacketSize, InFate(true, Send(payload), Arrival.Complete(bytes), true, false));
      && HonestRun(FRESH, maxPacketSize, [t])
      && RunIn(FRESH, maxPacketSize, [t]) == InWorld([payload], 1, Data1, [], Data0)
  {
    hide ParsePacket, DataBytes;
    ParseIffDataBytes(DataBytes(PID_DATA0, payload), PID_DATA0, payload);
    var bytes := DataBytes(PID_DATA0, payload);
    var t := InTry(maxPacketSize, InFate(true, Send(payload), Arrival.Complete(bytes), true, false));
    assert [t][..0] == [];
    assert RunIn(FRESH, maxPacketSize, []) == FRESH;
    assert Honest(FRESH, t.fate);
  }
}
