/**
 * Receiving one IN data packet: validation byte by byte while the packet is on
 * the wire, and the acknowledgement that is loaded into the transmitter before
 * the packet has ended.
 */
module InReceive {
  import opened UsbTypes
  import opened Crc
  import opened Packets

  /** What the caller accepts: the expected identifier, its length bound, and the buffer's capacity. */
  datatype Expectation = Expectation(pid: byte, maxLen: nat, capacity: nat) {
    ghost predicate Valid() {
      IsDataPid(pid) && maxLen <= capacity <= MAX_DECODED_BYTES - 4
    }
  }

  /** The running state of the validator; the four flags are the bits of its header byte. */
  datatype Stream = Stream(
    len: nat, crc: bv16, sync: bool, complement: bool, dataPid: bool, expected: bool,
    pid: byte, limit: nat, ackable: bool)

  const EMPTY: Stream := Stream(0, 0xffff, false, false, false, false, 0, 0, false)

  /** Take one byte off the receive FIFO. */
  function StreamStep(x: Expectation, s: Stream, b: byte): Stream {
    if s.len == 0 then
      s.(len := 1, sync := b == SYNC, complement := false, dataPid := false, expected := false)
    else if s.len == 1 then
      var t := s.(len := 2, pid := b,
                  complement := s.complement || ValidPid(b),
                  dataPid := s.dataPid || IsDataPid(b),
                  expected := s.expected || b == x.pid);
      if t.sync && t.complement && t.dataPid then
        t.(limit := (if b == x.pid then x.maxLen else x.capacity) + 4)
      else t
    else
      var crc := ByteStep(s.crc, b);
      s.(len := s.len + 1, crc := crc, ackable := s.len + 1 >= 4 && s.len + 1 <= s.limit && crc == RESIDUE)
  }

  function StreamOf(x: Expectation, bytes: seq<byte>): Stream {
    if bytes == [] then EMPTY else StreamStep(x, StreamOf(x, bytes[..|bytes| - 1]), bytes[|bytes| - 1])
  }

  lemma StreamAppend(x: Expectation, bytes: seq<byte>, b: byte)
    ensures StreamOf(x, bytes + [b]) == StreamStep(x, StreamOf(x, bytes), b)
  {
    hide StreamStep;
    assert (bytes + [b])[..|bytes|] == bytes;
  }

  function HeaderComplete(s: Stream): bool {
    s.sync && s.complement && s.dataPid
  }

  /** What the running state says about the bytes drained so far. */
  ghost predicate Describes(x: Expectation, s: Stream, bytes: seq<byte>) {
    && s.len == |bytes|
    && s.sync == (|bytes| >= 1 && bytes[0] == SYNC)
    && s.complement == (|bytes| >= 2 && ValidPid(bytes[1]))
    && s.dataPid == (|bytes| >= 2 && IsDataPid(bytes[1]))
    && s.expected == (|bytes| >= 2 && bytes[1] == x.pid)
    && (|bytes| >= 2 ==> s.pid == bytes[1])
    && s.crc == Register(if |bytes| >= 2 then bytes[2..] else [])
    && s.limit == (if !HeaderComplete(s) then 0 else (if bytes[1] == x.pid then x.maxLen else x.capacity) + 4)
    && s.ackable == (|bytes| >= 4 && |bytes| <= s.limit && s.crc == RESIDUE)
  }

  lemma StepDescribes(x: Expectation, s: Stream, bytes: seq<byte>, b: byte)
    requires Describes(x, s, bytes)
    ensures Describes(x, StreamStep(x, s, b), bytes + [b])
  {
    hide ValidPid, IsDataPid, ByteStep, Register;
    var next := bytes + [b];
    if |bytes| == 0 {
      assert next == [b];
    } else if |bytes| == 1 {
      assert next[2..] == [] && next[0] == bytes[0] && next[1] == b;
    } else {
      assert next[2..] == bytes[2..] + [b] && next[0] == bytes[0] && next[1] == bytes[1];
      RegisterAppend(bytes[2..], b);
    }
  }

  lemma {:induction false} StreamShape(x: Expectation, bytes: seq<byte>)
    ensures Describes(x, StreamOf(x, bytes), bytes)
  {
    EmptyDescribed(x);
    hide Describes, StreamStep;
    if bytes != [] {
      var n := |bytes| - 1;
      StreamShape(x, bytes[..n]);
      StepDescribes(x, StreamOf(x, bytes[..n]), bytes[..n], bytes[n]);
      assert bytes[..n] + [bytes[n]] == bytes;
    }
  }

  lemma EmptyDescribed(x: Expectation)
    ensures Describes(x, EMPTY, [])
  {}

  /** How the batch parser and classifier judge a complete packet. */
  function Judgement(x: Expectation, bytes: seq<byte>): InDataDisposition {
    match ParsePacket(bytes)
    case Ok(Data(pid, payload)) => ClassifyInData(true, x.pid, x.maxLen, x.capacity, pid, |payload|)
    case _ => Reject
  }

  /**
   * Streaming refines batch: after any bytes, the incremental decision is to
   * acknowledge exactly when the batch parser yields data that is not
   * rejected, and the toggle flag tells an accepted packet from a duplicate.
   */
  lemma StreamMeaning(x: Expectation, bytes: seq<byte>)
    requires x.Valid()
    ensures var s := StreamOf(x, bytes);
      && (s.ackable <==> Judgement(x, bytes) != Reject)
      && (s.ackable && s.expected <==> Judgement(x, bytes) == Accept)
      && (s.ackable && !s.expected <==> Judgement(x, bytes) == Duplicate)
      && (s.ackable ==> ParsePacket(bytes) == Ok(Data(s.pid, bytes[2..|bytes| - 2])))
  {
    StreamShape(x, bytes);
    hide StreamOf, Register, IsDataPid, ValidPid;
    if |bytes| >= 4 && bytes[0] == SYNC && IsDataPid(bytes[1]) {
      DataIffResidue(bytes);
      KnownPidsAreValid(bytes[1]);
      hide ParsePacket;
    } else {
      OnlyDataIsJudged(x, bytes);
    }
  }

  lemma OnlyDataIsJudged(x: Expectation, bytes: seq<byte>)
    requires !(|bytes| >= 4 && bytes[0] == SYNC && IsDataPid(bytes[1]))
    ensures Judgement(x, bytes) == Reject
  {
    hide Crc5, Crc16, Join, ValidPid, TokenValue;
  }

  /** The receive buffer and validator state of one transaction. */
  class Receiver {
    const x: Expectation
    const table: seq<bv16>
    const raw: array<byte>
    var s: Stream
    ghost var drained: seq<byte>

    ghost predicate Valid()
      reads this, raw
    {
      && x.Valid() && IsCrcTable(table) && raw.Length == MAX_DECODED_BYTES
      && s == StreamOf(x, drained) && s.len == |drained|
      && raw[..Stored(drained)] == drained[..Stored(drained)]
    }

    constructor (x: Expectation, table: seq<bv16>, raw: array<byte>)
      requires x.Valid() && IsCrcTable(table) && raw.Length == MAX_DECODED_BYTES
      ensures Valid() && drained == [] && this.x == x && this.raw == raw
    {
      this.x, this.table, this.raw := x, table, raw;
      s, drained := EMPTY, [];
    }

    /** Keep a byte that still fits the buffer. */
    method Store(b: byte)
      requires raw.Length == MAX_DECODED_BYTES && s.len == |drained|
      requires raw[..Stored(drained)] == drained[..Stored(drained)]
      modifies raw
      ensures raw[..Stored(drained + [b])] == (drained + [b])[..Stored(drained + [b])]
    {
      ghost var k := Stored(drained);
      if s.len < raw.Length {
        raw[s.len] := b;
        assert raw[..k + 1] == raw[..k] + [b];
      } else {
        assert (drained + [b])[..k] == drained[..k];
      }
    }

    /** Drain what is in the FIFO, validating byte by byte. */
    method Drain(fifo: seq<byte>)
      requires Valid()
      modifies this, raw
      ensures Valid() && drained == old(drained) + fifo
    {
      hide StreamOf, Shift8, IsDataPid, ValidPid, IsCrcTable;
      for i := 0 to |fifo|
        invariant Valid() && drained == old(drained) + fifo[..i]
      {
        var b := fifo[i];
        Store(b);
        StreamAppend(x, drained, b);
        assert fifo[..i + 1] == fifo[..i] + [b];
        if s.len < 2 {
          s := StreamStep(x, s, b);
        } else {
          TableStepIsByteStep(table, s.crc, b);
          TableIsComplete(table);
          var crc := TableStep(table, s.crc, b);
          var wireLen := s.len + 1;
          s := s.(len := wireLen, crc := crc, ackable := wireLen >= 4 && wireLen <= s.limit && crc == RESIDUE);
        }
        drained := drained + [b];
      }
    }

    /** After the end of packet: the header is already judged, only the CRC runs on. */
    method DrainTerminal(fifo: seq<byte>)
      requires Valid() && s.len >= 2
      modifies this, raw
      ensures Valid() && drained == old(drained) + fifo
    {
      hide StreamOf, Shift8, IsDataPid, ValidPid, IsCrcTable;
      for i := 0 to |fifo|
        invariant raw.Length == MAX_DECODED_BYTES && s.len == |drained| >= 2
          && s == StreamOf(x, drained).(ackable := s.ackable)
        invariant raw[..Stored(drained)] == drained[..Stored(drained)]
        invariant drained == old(drained) + fifo[..i]
      {
        var b := fifo[i];
        Store(b);
        StreamAppend(x, drained, b);
        assert fifo[..i + 1] == fifo[..i] + [b];
        TableStepIsByteStep(table, s.crc, b);
        TableIsComplete(table);
        s := s.(len := s.len + 1, crc := TableStep(table, s.crc, b));
        drained := drained + [b];
      }
      StreamShape(x, drained);
      s := s.(ackable := s.len >= 4 && s.len <= s.limit && s.crc == RESIDUE);
    }
  }

  lemma TableIsComplete(table: seq<bv16>)
    requires IsCrcTable(table)
    ensures |table| == 256
  {}

  /** How many bytes the buffer holds of those drained. */
  function Stored(drained: seq<byte>): nat {
    if |drained| <= MAX_DECODED_BYTES then |drained| else MAX_DECODED_BYTES
  }

  // ----- the acknowledgement ---------------------------------------------------------

  /** The transmitter parked after a token: an ACK may be loaded behind its gate. */
  class Transmitter {
    var preloaded: bool
    var releases: nat
    var recoveries: nat

    method Preload()
      modifies `preloaded
      ensures preloaded && releases == old(releases)
    {
      preloaded := true;
    }

    /** Open the gate: the loaded ACK goes out. */
    method Release()
      requires preloaded
      modifies `preloaded, `releases
      ensures !preloaded && releases == old(releases) + 1
    {
      preloaded, releases := false, releases + 1;
    }

    /** Flush the loaded ACK without sending it. */
    method Discard()
      modifies `preloaded
      ensures !preloaded && releases == old(releases)
    {
      preloaded := false;
    }

    /** Restore the idle state after a transaction that did not end by itself. */
    method Recover()
      modifies this
      ensures !preloaded && releases == old(releases) && recoveries == old(recoveries) + 1
    {
      preloaded, recoveries := false, recoveries + 1;
    }
  }

  /** What the processor observes during one pass of the polling loop. */
  datatype Poll = Poll(
    fastError: bool, fastEnd: bool,
    fifo: seq<byte>, start: bool, error: bool, end: bool, late: seq<byte>)

  /** Whether each wait for a transmitter event succeeds. */
  datatype TxEvents = TxEvents(tokenEnding: bool, tokenSent: bool, ackEnding: bool, ackSent: bool)

  datatype InReceiveResult =
    | DataReceived(len: nat) | UnexpectedToggle(len: nat)
    | NakReceived | StallReceived | NoResponse | InvalidPacket

  datatype TxError = EopMissing

  datatype Ending = DecoderError | EndOfPacket | BudgetSpent

  const POLL_BUDGET: nat := 20000

  function ClassifyUnacknowledged(s: Stream): InReceiveResult {
    if s.len == 2 && s.sync && s.complement then
      if s.pid == PID_NAK then NakReceived else if s.pid == PID_STALL then StallReceived else InvalidPacket
    else InvalidPacket
  }

  /** The loop state: which bytes count, and that an ACK is loaded exactly when the header allows one. */
  ghost predicate Polling(rx: Receiver, tx: Transmitter, acknowledge: bool, preloaded: bool)
    reads rx, rx.raw, tx
  {
    && rx.Valid()
    && tx.preloaded == preloaded
    && (preloaded ==> acknowledge && rx.s.len >= 2)
    && (acknowledge ==> (preloaded <==> HeaderComplete(rx.s)))
  }

  lemma AckableHasHeader(x: Expectation, bytes: seq<byte>)
    ensures var s := StreamOf(x, bytes);
      && (s.ackable ==> HeaderComplete(s) && 4 <= s.len <= s.limit)
      && (HeaderComplete(s) ==> s.len >= 2 && s.limit == (if s.pid == x.pid then x.maxLen else x.capacity) + 4)
      && (s.expected == (s.len >= 2 && s.pid == x.pid))
  {
    StreamShape(x, bytes);
  }

  /** More bytes never undo a complete header. */
  lemma HeaderStays(x: Expectation, bytes: seq<byte>, more: seq<byte>)
    requires HeaderComplete(StreamOf(x, bytes))
    ensures HeaderComplete(StreamOf(x, bytes + more))
  {
    StreamShape(x, bytes);
    StreamShape(x, bytes + more);
  }

  /** Drain the FIFO and load an ACK as soon as the header of a data packet is complete. */
  method DrainAndPreload(rx: Receiver, tx: Transmitter, fifo: seq<byte>, acknowledge: bool, preloaded: bool)
    returns (preloaded': bool)
    requires Polling(rx, tx, acknowledge, preloaded)
    modifies rx, rx.raw, tx`preloaded, tx`releases
    ensures Polling(rx, tx, acknowledge, preloaded')
    ensures rx.drained == old(rx.drained) + fifo && tx.releases == old(tx.releases)
  {
    hide StreamOf, IsCrcTable;
    if preloaded {
      HeaderStays(rx.x, rx.drained, fifo);
    }
    rx.Drain(fifo);
    AckableHasHeader(rx.x, rx.drained);
    preloaded' := preloaded;
    if acknowledge && !preloaded && HeaderComplete(rx.s) {
      tx.Preload();
      preloaded' := true;
    }
  }

  /** At the end of packet: the last bytes, and the ACK they may still require. */
  method FinishDrain(rx: Receiver, tx: Transmitter, late: seq<byte>, acknowledge: bool, preloaded: bool)
    returns (preloaded': bool)
    requires Polling(rx, tx, acknowledge, preloaded)
    modifies rx, rx.raw, tx`preloaded, tx`releases
    ensures Polling(rx, tx, acknowledge, preloaded')
    ensures rx.drained == old(rx.drained) + (if old(rx.s.ackable) then [] else late)
    ensures tx.releases == old(tx.releases)
  {
    hide StreamOf, IsCrcTable;
    preloaded' := preloaded;
    if !rx.s.ackable {
      if preloaded {
        HeaderStays(rx.x, rx.drained, late);
        rx.DrainTerminal(late);
      } else {
        preloaded' := DrainAndPreload(rx, tx, late, acknowledge, preloaded);
      }
    }
  }

  /** How a reception ended, the bytes drained by then, and whether anything had started. */
  datatype Ended = Ended(ending: Ending, drained: seq<byte>, started: bool)

  /** The reception of packets as the polls present it, judging the bytes so far with the batch parser. */
  function Listen(x: Expectation, polls: nat -> Poll, n: nat, drained: seq<byte>, started: bool,
                  fullSpeed: bool, acknowledge: bool): Ended
    requires n <= POLL_BUDGET
    decreases POLL_BUDGET - n
  {
    var p := polls(n);
    var fast := acknowledge && fullSpeed && Judgement(x, drained) != Reject;
    var more := drained + p.fifo;
    var start := started || more != [] || p.start;
    if fast && p.fastError then Ended(DecoderError, drained, started)
    else if fast && p.fastEnd then Ended(EndOfPacket, drained, started)
    else if p.error then Ended(DecoderError, more, start)
    else if p.end then Ended(EndOfPacket, if Judgement(x, more) != Reject then more else more + p.late, start)
    else if n == POLL_BUDGET then Ended(BudgetSpent, more, start)
    else Listen(x, polls, n + 1, more, start, fullSpeed, acknowledge)
  }

  lemma ListenStep(x: Expectation, polls: nat -> Poll, n: nat, drained: seq<byte>, started: bool,
                   fullSpeed: bool, acknowledge: bool)
    requires n <= POLL_BUDGET
    ensures var p := polls(n);
      var fast := acknowledge && fullSpeed && Judgement(x, drained) != Reject;
      var more := drained + p.fifo;
      var start := started || more != [] || p.start;
      Listen(x, polls, n, drained, started, fullSpeed, acknowledge) ==
        if fast && p.fastError then Ended(DecoderError, drained, started)
        else if fast && p.fastEnd then Ended(EndOfPacket, drained, started)
        else if p.error then Ended(DecoderError, more, start)
        else if p.end then Ended(EndOfPacket, if Judgement(x, more) != Reject then more else more + p.late, start)
        else if n == POLL_BUDGET then Ended(BudgetSpent, more, start)
        else Listen(x, polls, n + 1, more, start, fullSpeed, acknowledge)
  {}

  /** A packet that reached its end and is not rejected. */
  predicate Acceptable(x: Expectation, e: Ended) {
    e.ending == EndOfPacket && Judgement(x, e.drained) != Reject
  }

  /** One pass of the polling loop, unless the reception ends in it. */
  method PollOnce(rx: Receiver, tx: Transmitter, poll: Poll, fullSpeed: bool, acknowledge: bool, preloaded: bool)
    returns (ending: Option<Ending>, released: bool, preloaded': bool, heard: bool)
    requires Polling(rx, tx, acknowledge, preloaded)
    modifies rx, rx.raw, tx`preloaded, tx`releases
    ensures rx.Valid() && tx.releases == old(tx.releases) + (if released then 1 else 0)
    ensures var drained := old(rx.drained);
      var fast := acknowledge && fullSpeed && Judgement(rx.x, drained) != Reject;
      var more := drained + poll.fifo;
      if fast && poll.fastError then ending == Some(DecoderError) && rx.drained == drained && !heard
      else if fast && poll.fastEnd then ending == Some(EndOfPacket) && rx.drained == drained && !heard
      else if poll.error then ending == Some(DecoderError) && rx.drained == more
      else if poll.end then ending == Some(EndOfPacket)
        && rx.drained == if Judgement(rx.x, more) != Reject then more else more + poll.late
      else ending == None && rx.drained == more && Polling(rx, tx, acknowledge, preloaded')
    ensures var fast := acknowledge && fullSpeed && Judgement(rx.x, old(rx.drained)) != Reject;
      !(fast && (poll.fastError || poll.fastEnd)) ==> heard == (old(rx.drained) + poll.fifo != [] || poll.start)
    ensures released ==> ending == Some(EndOfPacket) && acknowledge && rx.s.ackable
    ensures ending == Some(DecoderError) || released ==> !tx.preloaded
    ensures ending == Some(EndOfPacket) && acknowledge && !released ==> (tx.preloaded <==> HeaderComplete(rx.s))
    ensures !acknowledge ==> !tx.preloaded
  {
    hide StreamOf, IsCrcTable, Judgement;
    preloaded' := preloaded;
    AckableHasHeader(rx.x, rx.drained);
    StreamMeaning(rx.x, rx.drained);
    if acknowledge && fullSpeed && rx.s.ackable {
      if poll.fastError {
        tx.Discard();
        return Some(DecoderError), false, false, false;
      }
      if poll.fastEnd {
        tx.Release();
        return Some(EndOfPacket), true, false, false;
      }
    }
    preloaded' := DrainAndPreload(rx, tx, poll.fifo, acknowledge, preloaded);
    heard := rx.s.len != 0 || poll.start;
    StreamMeaning(rx.x, rx.drained);
    if poll.error {
      if preloaded' {
        tx.Discard();
      }
      return Some(DecoderError), false, false, heard;
    }
    if poll.end {
      preloaded' := FinishDrain(rx, tx, poll.late, acknowledge, preloaded');
      AckableHasHeader(rx.x, rx.drained);
      assert rx.drained + [] == rx.drained;
      if acknowledge && fullSpeed && rx.s.ackable {
        tx.Release();
        return Some(EndOfPacket), true, false, heard;
      }
      return Some(EndOfPacket), false, preloaded', heard;
    }
    return None, false, preloaded', heard;
  }

  /**
   * The polling loop: it ends as the polls say, at the end of packet, at a
   * decoder error, or when its budget is spent; an ACK leaves at most once,
   * and only for an acceptable packet.
   */
  method PollPacket(rx: Receiver, tx: Transmitter, polls: nat -> Poll, fullSpeed: bool, acknowledge: bool)
    returns (ending: Ending, released: bool, sawStart: bool)
    requires Polling(rx, tx, acknowledge, false) && rx.drained == []
    modifies rx, rx.raw, tx`preloaded, tx`releases
    ensures rx.Valid()
    ensures Ended(ending, rx.drained, sawStart) == Listen(rx.x, polls, 0, [], false, fullSpeed, acknowledge)
    ensures ending in {DecoderError, EndOfPacket, BudgetSpent}
    ensures tx.releases == old(tx.releases) + (if released then 1 else 0)
    ensures released ==> acknowledge && rx.s.ackable && ending == EndOfPacket && !tx.preloaded
    ensures ending != EndOfPacket ==> !tx.preloaded
    ensures ending == EndOfPacket && acknowledge && !released ==> (tx.preloaded <==> HeaderComplete(rx.s))
    ensures !acknowledge ==> !tx.preloaded
  {
    hide StreamOf, IsCrcTable, Judgement, Listen;
    var budget, n := POLL_BUDGET, 0;
    var preloaded := false;
    sawStart := false;
    while true
      invariant n + budget == POLL_BUDGET && budget >= 0
      invariant Polling(rx, tx, acknowledge, preloaded) && tx.releases == old(tx.releases)
      invariant Listen(rx.x, polls, n, rx.drained, sawStart, fullSpeed, acknowledge)
             == Listen(rx.x, polls, 0, [], false, fullSpeed, acknowledge)
      decreases budget
    {
      ListenStep(rx.x, polls, n, rx.drained, sawStart, fullSpeed, acknowledge);
      var over, sent, loaded, heard := PollOnce(rx, tx, polls(n), fullSpeed, acknowledge, preloaded);
      sawStart := sawStart || heard;
      if over.Some? {
        return over.value, sent, sawStart;
      }
      preloaded := loaded;
      if budget == 0 {
        if preloaded {
          tx.Discard();
        }
        return BudgetSpent, false, sawStart;
      }
      n, budget := n + 1, budget - 1;
    }
  }

  // ----- when the fast path hears the whole packet ----------------------------------------

  /** Flags are raised for good: what the fast path sees is still there for the general checks. */
  predicate FlagsStay(p: Poll) { (p.fastError ==> p.error) && (p.fastEnd ==> p.end) }

  /** The poll in which the fast path ends the reception with the end of packet, if it does. */
  function FastEndAt(x: Expectation, polls: nat -> Poll, n: nat, drained: seq<byte>): Option<nat>
    requires n <= POLL_BUDGET
    decreases POLL_BUDGET - n
  {
    var p, fast := polls(n), Judgement(x, drained) != Reject;
    if fast && p.fastError then None
    else if fast && p.fastEnd then Some(n)
    else if p.error || p.end || n == POLL_BUDGET then None
    else FastEndAt(x, polls, n + 1, drained + p.fifo)
  }

  /** At its end the fast path passes nothing over: no byte waits, and no error was raised since it looked for one. */
  predicate NothingPassedOver(x: Expectation, polls: nat -> Poll, n: nat, drained: seq<byte>)
    requires n <= POLL_BUDGET
  {
    match FastEndAt(x, polls, n, drained)
    case None => true
    case Some(k) => polls(k).fifo == [] && !polls(k).error
  }

  /** Two receptions that ended alike, as far as anything depends on it. */
  predicate SameEnd(a: Ended, b: Ended) {
    && a.ending == b.ending
    && (a.ending == EndOfPacket ==> a.drained == b.drained)
    && (a.ending == BudgetSpent ==> a.started == b.started)
  }

  lemma {:induction false} FastEndsAlikeIff(x: Expectation, polls: nat -> Poll, n: nat, drained: seq<byte>,
                                            started: bool)
    requires n <= POLL_BUDGET && forall k :: FlagsStay(polls(k))
    ensures SameEnd(Listen(x, polls, n, drained, started, true, true),
                    Listen(x, polls, n, drained, started, false, true))
      <==> NothingPassedOver(x, polls, n, drained)
    decreases POLL_BUDGET - n
  {
    ListenStep(x, polls, n, drained, started, true, true);
    ListenStep(x, polls, n, drained, started, false, true);
    var p := polls(n);
    assert FlagsStay(p);
    var more := drained + p.fifo;
    assert p.fifo == [] ==> more == drained;
    hide Judgement, Listen;
    if !p.error && !p.end && n < POLL_BUDGET {
      FastEndsAlikeIff(x, polls, n + 1, more, started || more != [] || p.start);
    }
  }

  /**
   * The fast path is the guarded path exactly when, as it ends, no byte waits
   * in the FIFO and no decoder error was raised between its test and the
   * general one: then report, ACK and hand-over are the same for all polls and
   * all transmitter events; otherwise they are about different bytes, or about
   * a packet that the guarded path refuses.
   */
  lemma FastPathIsGuardedIff(x: Expectation, polls: nat -> Poll, events: TxEvents)
    requires forall k :: FlagsStay(polls(k))
    ensures SameEnd(Heard(x, polls, true, true), Heard(x, polls, false, true)) <==> NothingPassedOver(x, polls, 0, [])
    ensures NothingPassedOver(x, polls, 0, []) ==>
      && Reception(x, polls, events, true, true) == Reception(x, polls, events, false, true)
      && Releases(x, polls, events, true, true) == Releases(x, polls, events, false, true)
  {
    FastEndsAlikeIff(x, polls, 0, [], false);
    hide Judgement, Listen, NothingPassedOver, FlagsStay;
  }

  /** What the first polls found in the FIFO. */
  function Received(polls: nat -> Poll, n: nat): seq<byte> {
    if n == 0 then [] else Received(polls, n - 1) + polls(n - 1).fifo
  }

  predicate Undecided(p: Poll) { !p.end && !p.error }

  /** By the end of the packet the decoder has pushed exactly these bytes. */
  ghost predicate Carries(polls: nat -> Poll, wire: seq<byte>) {
    forall n | 0 <= n <= POLL_BUDGET && polls(n).end && (forall k | 0 <= k < n :: Undecided(polls(k))) ::
      Received(polls, n) + polls(n).fifo + polls(n).late == wire
  }

  /** What the decoder has pushed and nobody drains when the reception ends. */
  function Undrained(x: Expectation, polls: nat -> Poll, n: nat, drained: seq<byte>, fast: bool): seq<byte>
    requires n <= POLL_BUDGET
    decreases POLL_BUDGET - n
  {
    var p, acceptable, more := polls(n), Judgement(x, drained) != Reject, drained + polls(n).fifo;
    if fast && acceptable && p.fastError then []
    else if fast && acceptable && p.fastEnd then p.fifo + p.late
    else if p.error then []
    else if p.end then if Judgement(x, more) != Reject then p.late else []
    else if n == POLL_BUDGET then []
    else Undrained(x, polls, n + 1, more, fast)
  }

  lemma {:induction false} HeardAndUndrained(x: Expectation, polls: nat -> Poll, n: nat, started: bool,
                                             fullSpeed: bool, acknowledge: bool, wire: seq<byte>)
    requires n <= POLL_BUDGET && (forall k :: FlagsStay(polls(k))) && Carries(polls, wire)
    requires forall k | 0 <= k < n :: Undecided(polls(k))
    ensures var e := Listen(x, polls, n, Received(polls, n), started, fullSpeed, acknowledge);
      e.ending == EndOfPacket ==>
        e.drained + Undrained(x, polls, n, Received(polls, n), acknowledge && fullSpeed) == wire
    decreases POLL_BUDGET - n
  {
    var p, drained := polls(n), Received(polls, n);
    var more := drained + p.fifo;
    ListenStep(x, polls, n, drained, started, fullSpeed, acknowledge);
    assert FlagsStay(p);
    assert p.end ==> drained + p.fifo + p.late == wire;
    assert drained + (p.fifo + p.late) == more + p.late && more + p.late + [] == more + p.late;
    assert Received(polls, n + 1) == more;
    hide Judgement, Listen, Received, Carries;
    if Undecided(p) && n < POLL_BUDGET {
      HeardAndUndrained(x, polls, n + 1, started || more != [] || p.start, fullSpeed, acknowledge, wire);
    }
  }

  /** A reception that reached the end of packet has heard the whole packet exactly when nothing was left undrained. */
  lemma WholePacketIff(x: Expectation, polls: nat -> Poll, fullSpeed: bool, acknowledge: bool, wire: seq<byte>)
    requires (forall k :: FlagsStay(polls(k))) && Carries(polls, wire)
    ensures var e := Heard(x, polls, fullSpeed, acknowledge);
      e.ending == EndOfPacket ==>
        && e.drained <= wire
        && (e.drained == wire <==> Undrained(x, polls, 0, [], acknowledge && fullSpeed) == [])
  {
    assert Received(polls, 0) == [];
    HeardAndUndrained(x, polls, 0, false, fullSpeed, acknowledge, wire);
    hide Judgement, Listen, Carries, Undrained, FlagsStay;
  }

  /** Four bytes of an empty packet are drained, then the end is seen while a fifth byte waits in the FIFO. */
  function LateByte(n: nat): Poll {
    if n == 0 then Poll(false, false, [SYNC, PID_DATA0, 0, 0], true, false, false, [])
    else Poll(false, true, [0], true, false, true, [])
  }

  /**
   * Why the fast path needs an empty FIFO at the end of packet: it releases
   * the ACK on the drained bytes, although the whole packet is not acceptable.
   */
  lemma FastPathIgnoresLateByte(x: Expectation)
    requires x.pid == PID_DATA0 && x.Valid()
    ensures var e := Listen(x, LateByte, 0, [], false, true, true);
      && Acceptable(x, e)
      && Judgement(x, e.drained + LateByte(1).fifo) == Reject
      && Acceptable(x, Listen(x, LateByte, 0, [], false, false, true)) == false
  {
    var packet: seq<byte> := [SYNC, PID_DATA0, 0, 0];
    var longer: seq<byte> := [SYNC, PID_DATA0, 0, 0, 0];
    assert Judgement(x, packet) == Accept && Judgement(x, longer) == Reject && Judgement(x, []) == Reject by {
      EmptyCrc();
      ParseIffDataBytes(packet, PID_DATA0, []);
      DataIffResidue(longer);
      assert longer[2..] == [0, 0, 0];
      LongerResidue();
      hide Register, DataBytes;
    }
    hide Judgement, Listen;
    assert [] + packet == packet && packet + [0] == longer && longer + [] == longer;
    ListenStep(x, LateByte, 0, [], false, true, true);
    ListenStep(x, LateByte, 1, packet, true, true, true);
    ListenStep(x, LateByte, 0, [], false, false, true);
    ListenStep(x, LateByte, 1, packet, true, false, true);
  }

  lemma EmptyCrc()
    ensures DataBytes(PID_DATA0, []) == [SYNC, PID_DATA0, 0, 0]
  {
    assert Register([]) == 0xffff;
  }

  lemma LongerResidue()
    ensures Register([0, 0, 0]) != RESIDUE
  {
    var zeros: seq<byte> := [0, 0, 0];
    RegisterAppend([], 0);
    RegisterAppend([0], 0);
    RegisterAppend([0, 0], 0);
    assert [] + zeros[..1] == [0] && [0] + [0] == zeros[..2] && [0, 0] + [0] == zeros;
  }

  /** Nothing is seen by the end of the poll budget: no byte, no start of a packet, no end and no error. */
  ghost predicate NothingSeen(polls: nat -> Poll, from: nat) {
    forall n: nat | from <= n <= 20_000 ::
      polls(n).fifo == [] && !polls(n).start && !polls(n).error && !polls(n).end
  }

  lemma {:induction false} StartedStays(x: Expectation, polls: nat -> Poll, n: nat, drained: seq<byte>,
                                        fullSpeed: bool, acknowledge: bool)
    requires n <= POLL_BUDGET
    ensures Listen(x, polls, n, drained, true, fullSpeed, acknowledge).started
    decreases POLL_BUDGET - n
  {
    hide Judgement;
    if n < POLL_BUDGET {
      StartedStays(x, polls, n + 1, drained + polls(n).fifo, fullSpeed, acknowledge);
    }
  }

  lemma {:induction false} SilentFrom(x: Expectation, polls: nat -> Poll, n: nat, fullSpeed: bool, acknowledge: bool)
    requires n <= POLL_BUDGET
    ensures var e := Listen(x, polls, n, [], false, fullSpeed, acknowledge);
      e.ending == BudgetSpent && !e.started <==> NothingSeen(polls, n)
    decreases POLL_BUDGET - n
  {
    var p := polls(n);
    OnlyDataIsJudged(x, []);
    hide Judgement;
    if n < POLL_BUDGET && !p.error && !p.end {
      assert [] + p.fifo == p.fifo;
      if p.fifo == [] && !p.start {
        SilentFrom(x, polls, n + 1, fullSpeed, acknowledge);
      } else {
        StartedStays(x, polls, n + 1, p.fifo, fullSpeed, acknowledge);
      }
    }
  }

  /** No response is reported exactly where nothing was seen at all. */
  lemma SilentIff(x: Expectation, polls: nat -> Poll, fullSpeed: bool, acknowledge: bool)
    ensures Report(x, Heard(x, polls, fullSpeed, acknowledge)) == NoResponse <==> NothingSeen(polls, 0)
  {
    hide Listen, Judgement, NothingSeen;
    SilentFrom(x, polls, 0, fullSpeed, acknowledge);
  }

  /** The length of the payload in a data packet's bytes. */
  function PayloadLength(bytes: seq<byte>): nat { if |bytes| >= 4 then |bytes| - 4 else 0 }

  /** What is reported for a reception that ended: the batch judgement of the drained bytes. */
  function Report(x: Expectation, e: Ended): InReceiveResult {
    match e.ending
    case DecoderError => InvalidPacket
    case BudgetSpent => if e.started then InvalidPacket else NoResponse
    case EndOfPacket =>
      match Judgement(x, e.drained)
      case Accept => DataReceived(PayloadLength(e.drained))
      case Duplicate => UnexpectedToggle(PayloadLength(e.drained))
      case Reject =>
        if e.drained == [SYNC, PID_NAK] then NakReceived
        else if e.drained == [SYNC, PID_STALL] then StallReceived
        else InvalidPacket
  }

  /** The payload handed over is the one the batch parser finds. */
  ghost predicate Handed(x: Expectation, e: Ended, payload: seq<byte>) {
    e.ending == EndOfPacket && Judgement(x, e.drained) == Accept ==>
      && 4 <= |e.drained| && |e.drained| - 4 <= x.maxLen && |e.drained| - 4 <= |payload|
      && ParsePacket(e.drained) == Ok(Data(x.pid, payload[..|e.drained| - 4]))
  }

  /** After the polling loop: flush or release the ACK, classify, copy the payload. */
  method Conclude(rx: Receiver, tx: Transmitter, payload: array<byte>, events: TxEvents,
                  ending: Ending, sent: bool, sawStart: bool, acknowledge: bool)
    returns (result: Result<InReceiveResult, TxError>)
    requires rx.Valid() && rx.x.capacity <= payload.Length && rx.raw != payload
    requires ending in {DecoderError, EndOfPacket, BudgetSpent}
    requires sawStart || rx.drained == [] || ending == EndOfPacket || ending == DecoderError
    requires sent ==> acknowledge && rx.s.ackable && ending == EndOfPacket
    requires ending != EndOfPacket ==> !tx.preloaded
    requires ending == EndOfPacket && acknowledge && !sent ==> (tx.preloaded <==> HeaderComplete(rx.s))
    requires sent || !acknowledge ==> !tx.preloaded
    modifies tx`preloaded, tx`releases, payload
    ensures var e := Ended(ending, rx.drained, sawStart);
      var acks := acknowledge && Acceptable(rx.x, e);
      && tx.releases == old(tx.releases) + (if acks && !sent then 1 else 0)
      && !tx.preloaded
      && (result == if acks && !(events.ackEnding && events.ackSent) then Err(EopMissing) else Ok(Report(rx.x, e)))
      && (result.Ok? ==> Handed(rx.x, e, payload[..]))
  {
    hide StreamOf, IsCrcTable, ParsePacket, IsDataPid, ValidPid, Judgement, Register, ClassifyUnacknowledged;
    StreamMeaning(rx.x, rx.drained);
    AckableHasHeader(rx.x, rx.drained);
    if ending == DecoderError {
      return Ok(InvalidPacket);
    }
    if ending == BudgetSpent {
      return Ok(if !sawStart && rx.s.len == 0 then NoResponse else InvalidPacket);
    }
    if !rx.s.ackable {
      if tx.preloaded {
        tx.Discard();
      }
      RefusedIsHandshake(rx.x, rx.drained);
      return Ok(ClassifyUnacknowledged(rx.s));
    }
    if acknowledge {
      if !sent {
        tx.Release();
      }
      if !events.ackEnding || !events.ackSent {
        return Err(EopMissing);
      }
    }
    var outcome := Deliver(rx, payload);
    return Ok(outcome);
  }

  /** An acceptable packet: a duplicate is only reported, new data is copied out. */
  method Deliver(rx: Receiver, payload: array<byte>) returns (outcome: InReceiveResult)
    requires rx.Valid() && rx.x.capacity <= payload.Length && rx.raw != payload && rx.s.ackable
    modifies payload
    ensures Judgement(rx.x, rx.drained) != Reject && |rx.drained| >= 4
    ensures outcome == if Judgement(rx.x, rx.drained) == Accept then DataReceived(|rx.drained| - 4)
                       else UnexpectedToggle(|rx.drained| - 4)
    ensures Judgement(rx.x, rx.drained) == Accept ==>
      && |rx.drained| - 4 <= rx.x.maxLen
      && ParsePacket(rx.drained) == Ok(Data(rx.x.pid, payload[..|rx.drained| - 4]))
  {
    StreamMeaning(rx.x, rx.drained);
    StreamShape(rx.x, rx.drained);
    AckableHasHeader(rx.x, rx.drained);
    hide StreamOf, IsCrcTable, ParsePacket, IsDataPid, ValidPid, Judgement, Register;
    var len := rx.s.len - 4;
    if !rx.s.expected {
      return UnexpectedToggle(len);
    }
    StoredPayload(rx, len);
    CopyPayload(rx.raw, payload, len);
    return DataReceived(len);
  }

  lemma StoredPayload(rx: Receiver, len: nat)
    requires rx.Valid() && |rx.drained| == len + 4 <= MAX_DECODED_BYTES
    ensures rx.raw[2..2 + len] == rx.drained[2..|rx.drained| - 2]
  {
    hide StreamOf, IsCrcTable;
    SliceOfPrefix(rx.raw[..], rx.drained, 2, 2 + len);
  }

  lemma SliceOfPrefix<T>(all: seq<T>, prefix: seq<T>, from: nat, to: nat)
    requires from <= to <= |prefix| <= |all| && all[..|prefix|] == prefix
    ensures all[from..to] == prefix[from..to]
  {
    forall i | from <= i < to ensures all[i] == prefix[i] {
      assert all[..|prefix|][i] == all[i];
    }
    assert |all[from..to]| == |prefix[from..to]|;
  }

  lemma RefusedIsHandshake(x: Expectation, bytes: seq<byte>)
    requires x.Valid()
    ensures ClassifyUnacknowledged(StreamOf(x, bytes)) ==
      if bytes == [SYNC, PID_NAK] then NakReceived else if bytes == [SYNC, PID_STALL] then StallReceived
        else InvalidPacket
  {
    hide StreamOf;
    StreamShape(x, bytes);
    ShortHandshake(x, StreamOf(x, bytes), bytes);
  }

  lemma ShortHandshake(x: Expectation, s: Stream, bytes: seq<byte>)
    requires Describes(x, s, bytes)
    ensures ClassifyUnacknowledged(s) ==
      if bytes == [SYNC, PID_NAK] then NakReceived else if bytes == [SYNC, PID_STALL] then StallReceived
        else InvalidPacket
  {
    hide Register, IsDataPid;
    KnownPidsAreValid(PID_NAK);
    KnownPidsAreValid(PID_STALL);
    hide ValidPid;
    if |bytes| == 2 {
      assert bytes == [bytes[0], bytes[1]];
    }
  }

  /** What one call of the reception hears, once its token is out. */
  function Heard(x: Expectation, polls: nat -> Poll, fullSpeed: bool, acknowledge: bool): Ended {
    Listen(x, polls, 0, [], false, fullSpeed, acknowledge)
  }

  /** How often a reception releases the ACK: once for an acceptable packet, else not at all. */
  function Releases(x: Expectation, polls: nat -> Poll, events: TxEvents, fullSpeed: bool, acknowledge: bool): nat {
    if events.tokenEnding && events.tokenSent && acknowledge && Acceptable(x, Heard(x, polls, fullSpeed, acknowledge))
    then 1 else 0
  }

  /** The outcome of a reception: a transmitter that fails on the token or the ACK, or the report. */
  function Reception(x: Expectation, polls: nat -> Poll, events: TxEvents, fullSpeed: bool, acknowledge: bool)
    : Result<InReceiveResult, TxError>
  {
    var e := Heard(x, polls, fullSpeed, acknowledge);
    if !events.tokenEnding || !events.tokenSent then Err(EopMissing)
    else if acknowledge && Acceptable(x, e) && !(events.ackEnding && events.ackSent) then Err(EopMissing)
    else Ok(Report(x, e))
  }

  /**
   * Send an IN token, receive one device response and acknowledge valid data.
   *
   * For every sequence of polls and transmitter events the result is the batch
   * parser's judgement of the bytes drained by the end; the ACK goes out
   * exactly once for a packet that reached its end and is not rejected, and
   * never otherwise; and no ACK is left loaded.
   */
  method ReceiveDataPacket(tx: Transmitter, table: seq<bv16>, raw: array<byte>, payload: array<byte>,
                           x: Expectation, polls: nat -> Poll, events: TxEvents,
                           fullSpeed: bool, acknowledge: bool)
    returns (result: Result<InReceiveResult, TxError>)
    requires x.Valid() && x.capacity <= payload.Length
    requires IsCrcTable(table) && raw.Length == MAX_DECODED_BYTES && raw != payload
    requires !tx.preloaded
    modifies tx`preloaded, tx`releases, raw, payload
    ensures result == Reception(x, polls, events, fullSpeed, acknowledge)
    ensures tx.releases == old(tx.releases) + Releases(x, polls, events, fullSpeed, acknowledge)
    ensures !tx.preloaded
    ensures result.Ok? ==> Handed(x, Heard(x, polls, fullSpeed, acknowledge), payload[..])
  {
    hide Judgement, StreamOf, IsCrcTable, ParsePacket, IsDataPid, Listen, Handed, Report;
    if !events.tokenEnding || !events.tokenSent {
      return Err(EopMissing);
    }
    var rx := new Receiver(x, table, raw);
    NothingDrained(x);
    var how, sent, sawStart := PollPacket(rx, tx, polls, fullSpeed, acknowledge);
    SilenceIsEmpty(x, polls, 0, [], false, fullSpeed, acknowledge);
    StreamMeaning(x, rx.drained);
    result := Conclude(rx, tx, payload, events, how, sent, sawStart, acknowledge);
  }

  /** Where nothing has started, nothing has been drained. */
  lemma {:induction false} SilenceIsEmpty(x: Expectation, polls: nat -> Poll, n: nat, drained: seq<byte>, started: bool,
                                          fullSpeed: bool, acknowledge: bool)
    requires n <= POLL_BUDGET && (started || drained == [])
    ensures var e := Listen(x, polls, n, drained, started, fullSpeed, acknowledge);
      e.ending == BudgetSpent ==> e.started || e.drained == []
    decreases POLL_BUDGET - n
  {
    hide Judgement, Listen;
    ListenStep(x, polls, n, drained, started, fullSpeed, acknowledge);
    if n < POLL_BUDGET {
      var more := drained + polls(n).fifo;
      SilenceIsEmpty(x, polls, n + 1, more, started || more != [] || polls(n).start, fullSpeed, acknowledge);
    }
  }

  lemma NothingDrained(x: Expectation)
    ensures StreamOf(x, []) == EMPTY
  {}

  /** Copy the payload out of the receive buffer byte by byte. */
  method CopyPayload(raw: array<byte>, payload: array<byte>, len: nat)
    requires raw != payload && len + 2 <= raw.Length && len <= payload.Length
    modifies payload
    ensures payload[..len] == raw[2..2 + len]
  {
    var index := 0;
    while index < len
      invariant index <= len && payload[..index] == raw[2..2 + index]
    {
      payload[index] := raw[index + 2];
      index := index + 1;
    }
  }

  /** Why no token is sent, if so: the wait for the frame, the buffer, the request, or a receiver that does not park. */
  function Refusal(frame: Result<(), PipeError>, expectedPid: byte, maxLen: nat, maxPacketSize: nat, size: nat,
                   parked: Result<(), PipeError>): Option<PipeError>
  {
    if frame.Err? then Some(frame.error)
    else if maxPacketSize > size then Some(BufferOverflow)
    else if !IsDataPid(expectedPid) || maxLen > maxPacketSize then Some(BadResponse)
    else if parked.Err? then Some(parked.error)
    else None
  }

  /**
   * One IN transaction: the checks before the token, the reception, and the
   * recovery of the transmitter. No exit leaves an ACK loaded for a later
   * transaction, a transmitter that failed is restored, as is one that had no
   * acknowledgement to send; the token, if one is sent, asks this device's endpoint.
   */
  method InOnce(tx: Transmitter, table: seq<bv16>, raw: array<byte>, buffer: array<byte>,
                address: byte, endpoint: byte, expectedPid: byte, maxLen: nat, maxPacketSize: nat,
                frame: Result<(), PipeError>, parked: Result<(), PipeError>, polls: nat -> Poll, events: TxEvents,
                fullSpeed: bool, acknowledge: bool)
    returns (result: Result<InReceiveResult, PipeError>, token: seq<byte>)
    requires IsCrcTable(table) && raw.Length == MAX_DECODED_BYTES && buffer.Length == MAX_DECODED_BYTES - 4
    requires raw != buffer && !tx.preloaded && address < 128 && endpoint < 16
    modifies tx, raw, buffer
    ensures !tx.preloaded
    ensures var error := Refusal(frame, expectedPid, maxLen, maxPacketSize, buffer.Length, parked);
      if error.Some? then
        result == Err(error.value) && tx.releases == old(tx.releases) && tx.recoveries == old(tx.recoveries)
        && token == []
      else
        var x := Expectation(expectedPid, maxLen, maxPacketSize);
        var reception := Reception(x, polls, events, fullSpeed, acknowledge);
        && x.Valid() && IsToken(token, 0x69, address, endpoint)
        && tx.releases == old(tx.releases) + Releases(x, polls, events, fullSpeed, acknowledge)
        && tx.recoveries == old(tx.recoveries) + (if reception.Err? || !acknowledge then 1 else 0)
        && (result == if reception.Err? then Err(Timeout) else Ok(reception.value))
        && (result.Ok? ==> Handed(x, Heard(x, polls, fullSpeed, acknowledge), buffer[..]))
  {
    if frame.Err? {
      return Err(frame.error), [];
    }
    if maxPacketSize > buffer.Length {
      return Err(BufferOverflow), [];
    }
    if !IsDataPid(expectedPid) || maxLen > maxPacketSize {
      return Err(BadResponse), [];
    }
    if parked.Err? {
      return Err(parked.error), [];
    }
    hide Reception, Releases, Handed, Heard, IsCrcTable, IsToken, TokenPacket;
    token := TokenPacket(PID_IN, address, endpoint);
    TokenRoundTrip(PID_IN, address, endpoint);
    var x := Expectation(expectedPid, maxLen, maxPacketSize);
    var received := ReceiveDataPacket(tx, table, raw, buffer, x, polls, events, fullSpeed, acknowledge);
    if received.Err? {
      tx.Recover();
      return Err(Timeout), token;
    }
    if !acknowledge {
      tx.Recover();
    }
    return Ok(received.value), token;
  }
}
