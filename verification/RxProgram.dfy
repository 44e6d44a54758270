/** The receive program, stepped once per bit time, recovers the bytes of the line. */
module RxProgram {
  import opened UsbTypes
  import opened Nrzi
  import opened Pio
  import TxProgram


  const WAIT: nat := 1
  const FLIP: nat := 14

  const RX: Program := Program([
    /*  0             */ Plain(SetY(6)),
    /*  1 irq_wait:   */ Plain(WaitTrigger),
    /*  2             */ Plain(Jmp(Pin, 9)),
    /*  3 pin_low:    */ Plain(Jmp(YZero, FLIP)),
    /*  4             */ Plain(Jmp(NotX, 7)),
    /*  5             */ Plain(InNull),
    /*  6             */ Plain(Jmp(Always, FLIP)),
    /*  7 k1:         */ Plain(InOsr),
    /*  8             */ Plain(Jmp(YDecrement, WAIT)),
    /*  9 pin_high:   */ Plain(Jmp(YZero, FLIP)),
    /* 10             */ Plain(Jmp(NotX, 13)),
    /* 11             */ Plain(InX),
    /* 12             */ Plain(Jmp(YDecrement, WAIT)),
    /* 13 j1:         */ Plain(InNull),
    /* 14 flip:       */ Plain(InvertX)
  ], 0, 14)

  const ALL_ONES: nat := 0xffff_ffff

  /** The register that remembers the previous level: clear for J, all ones for K. */
  function LevelWord(level: WireState): nat { if level.J? then 0 else ALL_ONES }

  /** The input shift register after some bits of a byte. */
  function IsrOf(bits: seq<bool>): bv32 {
    if bits == [] then 0 else ShiftIn(IsrOf(bits[..|bits| - 1]), bits[|bits| - 1])
  }

  /** The byte of a received word: its most significant eight bits. */
  function TopByte(w: bv32): byte { (w >> 24) as byte }

  /** The bytes the processor reads from the receive FIFO. */
  function ReceivedBytes(words: seq<bv32>): (bytes: seq<byte>)
    ensures |bytes| == |words|
  {
    if words == [] then [] else ReceivedBytes(words[..|words| - 1]) + [TopByte(words[|words| - 1])]
  }

  lemma ReceivedAppend(words: seq<bv32>, w: bv32)
    ensures ReceivedBytes(words + [w]) == ReceivedBytes(words) + [TopByte(w)]
  {
    assert (words + [w])[..|words|] == words;
  }

  lemma ShiftInFacts(isr: bv32, bit: bool)
    ensures ByteBits(TopByte(ShiftIn(isr, bit)))[7] == bit
    ensures ByteBits(TopByte(ShiftIn(isr, bit)))[..7] == ByteBits(TopByte(isr))[1..]
  {
    ShiftInBits(isr, bit);
    var x, y := TopByte(ShiftIn(isr, bit)), TopByte(isr);
    hide ShiftIn, TopByte;
    TxProgram.ShiftedBits(y, x);
  }

  lemma ShiftInBits(isr: bv32, bit: bool)
    ensures var x, y := TopByte(ShiftIn(isr, bit)), TopByte(isr);
      && (x & 128 != 0) == bit
      && (x & 1 != 0) == (y & 2 != 0) && (x & 2 != 0) == (y & 4 != 0) && (x & 4 != 0) == (y & 8 != 0)
      && (x & 8 != 0) == (y & 16 != 0) && (x & 16 != 0) == (y & 32 != 0)
      && (x & 32 != 0) == (y & 64 != 0) && (x & 64 != 0) == (y & 128 != 0)
  {
    ShiftInTop(isr, bit);
    hide ShiftIn, TopByte;
    HalvedByteBits(TopByte(isr), bit);
  }

  lemma ShiftInTop(isr: bv32, bit: bool)
    ensures TopByte(ShiftIn(isr, bit)) == (TopByte(isr) >> 1) | (if bit then 128 else 0)
  {
    if bit {} else {}
  }

  lemma HalvedByteBits(y: byte, bit: bool)
    ensures var x := (y >> 1) | (if bit then 128 else 0);
      && (x & 128 != 0) == bit
      && (x & 1 != 0) == (y & 2 != 0) && (x & 2 != 0) == (y & 4 != 0) && (x & 4 != 0) == (y & 8 != 0)
      && (x & 8 != 0) == (y & 16 != 0) && (x & 16 != 0) == (y & 32 != 0)
      && (x & 32 != 0) == (y & 64 != 0) && (x & 64 != 0) == (y & 128 != 0)
  {
    if bit {} else {}
  }

  /** The bits shifted in so far stand at the top of the register, oldest lowest. */
  lemma {:induction false} IsrHoldsBits(bits: seq<bool>)
    requires |bits| <= 8
    ensures ByteBits(TopByte(IsrOf(bits)))[8 - |bits|..] == bits
  {
    if bits != [] {
      hide ShiftIn, TopByte, ByteBits;
      var n := |bits| - 1;
      IsrHoldsBits(bits[..n]);
      ShiftInFacts(IsrOf(bits[..n]), bits[n]);
      assert IsrOf(bits) == ShiftIn(IsrOf(bits[..n]), bits[n]);
      hide IsrOf;
      ShiftedTop(ByteBits(TopByte(ShiftIn(IsrOf(bits[..n]), bits[n]))), ByteBits(TopByte(IsrOf(bits[..n]))), bits);
    }
  }

  lemma ShiftedTop(x: seq<bool>, y: seq<bool>, bits: seq<bool>)
    requires |x| == |y| == 8 && 1 <= |bits| <= 8
    requires x[..7] == y[1..] && x[7] == bits[|bits| - 1] && y[9 - |bits|..] == bits[..|bits| - 1]
    ensures x[8 - |bits|..] == bits
  {
    forall i | 0 <= i < |bits| - 1 ensures x[8 - |bits| + i] == bits[i] {
      assert x[..7][8 - |bits| + i] == y[1..][8 - |bits| + i];
      assert y[9 - |bits|..][i] == bits[..|bits| - 1][i];
    }
  }

  // ----- one trigger at a time ------------------------------------------------------------

  /** Waiting for the next bit trigger with the state of the decoder in its registers. */
  ghost predicate AtWait(m: Machine, d: Decoder, wire: seq<WireState>) {
    && d.Running? && d.ones <= 6
    && m.pc == WAIT && !m.parked && m.wire == wire
    && m.x == LevelWord(d.previous) && m.y == 6 - d.ones
    && LowBit(m.osr)
    && Received(m, d.bits)
  }

  /** The words pushed and the shift register together hold exactly these bits. */
  ghost predicate Received(m: Machine, bits: seq<bool>) {
    var k := 8 * |m.rxFifo|;
    && k <= |bits| < k + 8
    && BytesToBits(ReceivedBytes(m.rxFifo)) == bits[..k]
    && m.isrCount == |bits| - k
    && m.isr == IsrOf(bits[k..])
  }

  lemma ReceiveFrame(m: Machine, bit: bool)
    ensures var n := Receive(m, bit); n == m.(isr := n.isr, isrCount := n.isrCount, rxFifo := n.rxFifo)
  {
    hide ShiftIn;
  }

  lemma IsrAppend(bits: seq<bool>, bit: bool)
    ensures IsrOf(bits + [bit]) == ShiftIn(IsrOf(bits), bit)
  {
    hide ShiftIn;
    assert (bits + [bit])[..|bits|] == bits;
  }

  lemma ReceiveKeeps(m: Machine, bits: seq<bool>, bit: bool)
    requires Received(m, bits)
    ensures Received(Receive(m, bit), bits + [bit])
  {
    hide ShiftIn, IsrOf, BytesToBits, ReceivedBytes, ByteBits;
    var k := 8 * |m.rxFifo|;
    IsrAppend(bits[k..], bit);
    if m.isrCount == 7 {
      CompleteByte(m, bits, bit);
    } else {
      assert (bits + [bit])[k..] == bits[k..] + [bit];
      assert (bits + [bit])[..k] == bits[..k];
    }
  }

  lemma CompleteByte(m: Machine, bits: seq<bool>, bit: bool)
    requires Received(m, bits) && m.isrCount == 7
    ensures Received(Receive(m, bit), bits + [bit])
  {
    hide ShiftIn, IsrOf, BytesToBits, ReceivedBytes, TopByte, ByteBits;
    var k := 8 * |m.rxFifo|;
    var w := ShiftIn(m.isr, bit);
    var n := Receive(m, bit);
    assert n.rxFifo == m.rxFifo + [w] && n.isr == 0 && n.isrCount == 0;
    hide Receive;
    EighthBit(bits[k..], m.isr, bit);
    ReceivedAppend(m.rxFifo, w);
    OneMoreByte(ReceivedBytes(m.rxFifo), TopByte(w));
    assert bits[..k] + (bits[k..] + [bit]) == bits + [bit];
    assert (bits + [bit])[..k + 8] == bits + [bit];
    assert (bits + [bit])[k + 8..] == [];
    NoBits();
  }

  lemma NoBits()
    ensures IsrOf([]) == 0
  {}

  lemma EighthBit(part: seq<bool>, isr: bv32, bit: bool)
    requires |part| == 7 && isr == IsrOf(part)
    ensures ByteBits(TopByte(ShiftIn(isr, bit))) == part + [bit]
  {
    hide ShiftIn, IsrOf, TopByte, ByteBits;
    IsrAppend(part, bit);
    IsrHoldsBits(part + [bit]);
    var b := ByteBits(TopByte(ShiftIn(isr, bit)));
    assert b[0..] == b;
  }

  lemma InvertLevel(level: WireState)
    ensures Inverted(LevelWord(level)) == LevelWord(level.Flip())
    ensures LevelWord(level) == 0 <==> level.J?
    ensures level.K? ==> LevelWord(level) % 2 == 1
  {}

  /** Wait for the trigger and branch on the level: two instructions. */
  lemma Sample(m: Machine)
    requires m.pc == WAIT && !m.parked && m.wire != []
    ensures var n := Step(RX, Step(RX, m));
      n == m.(pc := if m.wire[0].K? then 9 else 3, pin := m.wire[0].K?, wire := m.wire[1..], trace := n.trace)
  {
    var n := Step(RX, m);
    assert n == m.(pc := 2, pin := m.wire[0].K?, wire := m.wire[1..], trace := n.trace);
  }

  /** The remaining instructions after a stuffed bit: flip the level and restart the count. */
  lemma AfterStuffed(m: Machine)
    requires (m.pc == 3 || m.pc == 9) && !m.parked && m.y == 0
    ensures var n := Step(RX, Step(RX, Step(RX, m)));
      n == m.(pc := WAIT, x := Inverted(m.x), y := 6, trace := n.trace)
  {
    hide Inverted;
    JumpToFlip(m);
    var n1 := Step(RX, m);
    FlipAndRestart(n1);
    hide Step;
  }

  lemma FlipAndRestart(m: Machine)
    requires m.pc == FLIP && !m.parked
    ensures var n := Step(RX, Step(RX, m)); n == m.(pc := WAIT, x := Inverted(m.x), y := 6, trace := n.trace)
  {
    hide Inverted;
    var n1 := Step(RX, m);
    assert n1 == m.(pc := 0, x := Inverted(m.x), trace := n1.trace);
  }

  /** The two tests that lead to the shift of one data bit. */
  lemma Dispatch(m: Machine)
    requires (m.pc == 3 || m.pc == 9) && !m.parked && m.y > 0
    ensures var n := Step(RX, Step(RX, m));
      n == m.(pc := if m.pc == 3 then (if m.x == 0 then 7 else 5) else (if m.x == 0 then 13 else 11), trace := n.trace)
  {
    CountNotSpent(m);
    LevelTest(Step(RX, m));
  }

  lemma CountNotSpent(m: Machine)
    requires (m.pc == 3 || m.pc == 9) && !m.parked && m.y > 0
    ensures var n := Step(RX, m); n == m.(pc := m.pc + 1, trace := n.trace)
  {}

  lemma LevelTest(m: Machine)
    requires (m.pc == 4 || m.pc == 10) && !m.parked
    ensures var n := Step(RX, m);
      n == m.(pc := if m.pc == 4 then (if m.x == 0 then 7 else 5) else (if m.x == 0 then 13 else 11), trace := n.trace)
  {}

  lemma ReceiveStep(m: Machine, bit: bool)
    requires !m.parked
    requires bit ==> (m.pc == 7 && LowBit(m.osr)) || (m.pc == 11 && m.x % 2 == 1)
    requires !bit ==> m.pc == 5 || m.pc == 13
    ensures var n, r := Step(RX, m), Receive(m, bit);
      n == m.(pc := m.pc + 1, isr := r.isr, isrCount := r.isrCount, rxFifo := r.rxFifo, trace := n.trace)
  {
    hide LowBit, Receive;
    ReceiveFrame(m, bit);
  }

  lemma CountOne(m: Machine)
    requires (m.pc == 8 || m.pc == 12) && !m.parked && m.y > 0
    ensures var n := Step(RX, m); n == m.(pc := WAIT, y := m.y - 1, trace := n.trace)
  {}

  lemma JumpToFlip(m: Machine)
    requires !m.parked && (m.pc == 6 || ((m.pc == 3 || m.pc == 9) && m.y == 0))
    ensures var n := Step(RX, m); n == m.(pc := FLIP, trace := n.trace)
  {}

  lemma SameReceived(m: Machine, n: Machine, bits: seq<bool>)
    requires Received(m, bits)
    requires m.isr == n.isr && m.isrCount == n.isrCount && m.rxFifo == n.rxFifo
    ensures Received(n, bits)
  {}

  /** One bit trigger: the machine follows the decoder, unless the decoder stops. */
  lemma OneTrigger(m: Machine, d: Decoder, wire: seq<WireState>) returns (steps: nat)
    requires AtWait(m, d, wire) && wire != [] && DecodeStep(d, wire[0]).Running?
    ensures AtWait(Run(RX, m, steps), DecodeStep(d, wire[0]), wire[1..])
  {
    hide Step, Run, Received, LowBit, LevelWord, Receive, Inverted;
    Sample(m);
    var m2 := Step(RX, Step(RX, m));
    RunTwo(RX, m);
    InvertLevel(d.previous);
    InvertLevel(d.previous.Flip());
    if d.ones == 6 {
      AfterStuffed(m2);
      var n := Step(RX, Step(RX, Step(RX, m2)));
      RunTwo(RX, m2);
      RunOne(RX, Step(RX, Step(RX, m2)));
      RunAdd(RX, m2, 2, 1);
      RunAdd(RX, m, 2, 3);
      steps := 5;
      SameReceived(m, n, d.bits);
    } else {
      Dispatch(m2);
      var m4 := Step(RX, Step(RX, m2));
      RunTwo(RX, m2);
      RunAdd(RX, m, 2, 2);
      SameReceived(m, m4, d.bits);
      var more := ShiftBit(m4, d, wire[0]);
      RunAdd(RX, m, 4, more);
      steps := 4 + more;
    }
  }

  /** Shift the data bit in and count it, or flip the level. */
  lemma ShiftBit(m: Machine, d: Decoder, state: WireState) returns (steps: nat)
    requires d.Running? && d.ones < 6 && !m.parked && DecodeStep(d, state).Running?
    requires m.pc == (if state.J? then (if m.x == 0 then 7 else 5) else (if m.x == 0 then 13 else 11))
    requires m.x == LevelWord(d.previous) && m.y == 6 - d.ones && LowBit(m.osr) && Received(m, d.bits)
    ensures AtWait(Run(RX, m, steps), DecodeStep(d, state), m.wire)
  {
    hide Step, Run, Received, LowBit, LevelWord, Receive, Inverted;
    var bit := state == d.previous;
    InvertLevel(d.previous);
    ReceiveStep(m, bit);
    ReceiveKeeps(m, d.bits, bit);
    ReceiveFrame(m, bit);
    var m1 := Step(RX, m);
    SameReceived(Receive(m, bit), m1, d.bits + [bit]);
    if bit {
      CountOne(m1);
      SameReceived(m1, Step(RX, m1), d.bits + [bit]);
      RunTwo(RX, m);
      steps := 2;
    } else if state.J? {
      JumpToFlip(m1);
      var m2 := Step(RX, m1);
      FlipAndRestart(m2);
      SameReceived(m1, Step(RX, Step(RX, m2)), d.bits + [bit]);
      RunFour(RX, m);
      steps := 4;
    } else {
      FlipAndRestart(m1);
      SameReceived(m1, Step(RX, Step(RX, m1)), d.bits + [bit]);
      RunOne(RX, m);
      RunTwo(RX, m1);
      RunAdd(RX, m, 1, 2);
      steps := 3;
    }
  }

  // ----- the whole packet --------------------------------------------------------------------

  /** The machine as it is reset before every transaction: program counter and level register cleared. */
  function Start(wire: seq<WireState>, y: nat): Machine {
    Machine(0, 0, y, 0xffff_ffff, 0, [], 0, 0, [], 0, false, {}, false, wire, false, [])
  }

  lemma StartWaits(wire: seq<WireState>, y: nat)
    ensures AtWait(Run(RX, Start(wire, y), 1), Decode([]), wire)
  {
    var m := Start(wire, y);
    var n := Step(RX, m);
    assert n == m.(pc := WAIT, y := 6, trace := n.trace);
    RunOne(RX, m);
    hide Run, Step;
    assert Received(n, []);
  }

  lemma {:induction false} RunningPrefix(wire: seq<WireState>, i: nat)
    requires i <= |wire| && Decode(wire).Running?
    ensures Decode(wire[..i]).Running?
  {
    if Decode(wire[..i]).Stopped? {
      StoppedStays(wire, i);
    }
  }

  /** After the triggers of the first `i` states the registers hold the decoder's state. */
  lemma {:induction false} FollowsDecoder(m: Machine, wire: seq<WireState>, i: nat) returns (steps: nat)
    requires i <= |wire| && Decode(wire).Running?
    requires AtWait(m, Decode([]), wire)
    ensures AtWait(Run(RX, m, steps), Decode(wire[..i]), wire[i..])
    decreases i
  {
    hide AtWait, Step, DecodeStep, Decode;
    if i == 0 {
      steps := 0;
      assert wire[0..] == wire && wire[..0] == [];
    } else {
      var before := FollowsDecoder(m, wire, i - 1);
      RunningPrefix(wire, i);
      assert wire[..i] == wire[..i - 1] + [wire[i - 1]];
      DecodeAppend(wire[..i - 1], wire[i - 1]);
      assert wire[i - 1..][0] == wire[i - 1] && wire[i - 1..][1..] == wire[i..];
      var more := OneTrigger(Run(RX, m, before), Decode(wire[..i - 1]), wire[i - 1..]);
      steps := before + more;
      RunAdd(RX, m, before, more);
    }
  }

  /**
   * For every line sequence the batch decoder accepts, the receive program
   * consumes one state per trigger and pushes exactly the decoded bytes.
   */
  lemma ReceivesPacket(wire: seq<WireState>, bytes: seq<byte>, y: nat) returns (steps: nat)
    requires DecodedBits(wire) == Ok(BytesToBits(bytes))
    ensures var n := Run(RX, Start(wire, y), steps);
      && n.pc == WAIT && n.wire == [] && n.isrCount == 0
      && ReceivedBytes(n.rxFifo) == bytes
  {
    hide Run, Received, LevelWord, LowBit, BytesToBits;
    StartWaits(wire, y);
    var more := FollowsDecoder(Run(RX, Start(wire, y), 1), wire, |wire|);
    assert wire[..|wire|] == wire && wire[|wire|..] == [];
    RunAdd(RX, Start(wire, y), 1, more);
    steps := 1 + more;
    AllBytesPushed(Run(RX, Start(wire, y), steps), bytes);
  }

  lemma AllBytesPushed(m: Machine, bytes: seq<byte>)
    requires Received(m, BytesToBits(bytes))
    ensures m.isrCount == 0 && ReceivedBytes(m.rxFifo) == bytes
  {
    hide BytesToBits, IsrOf, ReceivedBytes;
    var bits := BytesToBits(bytes);
    assert bits[..8 * |m.rxFifo|] == bits;
    BytesToBitsInjective(ReceivedBytes(m.rxFifo), bytes);
  }

  /** The levels on the bus at one sample every four cycles, until the line is no longer J or K. */
  function SampledLine(trace: seq<Drive>): seq<WireState>
    decreases |trace|
  {
    if |trace| < 4 then []
    else if trace[0] == Driven(TxProgram.DATA_J) then [J] + SampledLine(trace[4..])
    else if trace[0] == Driven(TxProgram.DATA_K) then [K] + SampledLine(trace[4..])
    else []
  }

  lemma {:induction false} SamplingRecoversLine(line: seq<WireState>, rest: seq<Drive>)
    requires rest != [] && |rest| >= 4 && rest[0] == Driven(TxProgram.SINGLE_ENDED_ZERO)
    ensures SampledLine(TxProgram.BitTimes(line) + rest) == line
    decreases |line|
  {
    if line == [] {
      assert TxProgram.BitTimes(line) + rest == rest;
    } else {
      var first, tail := line[0], line[1..];
      hide TxProgram.BitTimes;
      BitTimesFront(first, tail);
      assert line == [first] + tail;
      var trace := TxProgram.BitTimes(line) + rest;
      assert trace[4..] == TxProgram.BitTimes(tail) + rest;
      assert trace[0] == Driven(TxProgram.PinsOf(first));
      SamplingRecoversLine(tail, rest);
    }
  }

  lemma {:induction false} BitTimesFront(first: WireState, rest: seq<WireState>)
    ensures TxProgram.BitTimes([first] + rest) == Cycles(Driven(TxProgram.PinsOf(first)), 4) + TxProgram.BitTimes(rest)
    decreases |rest|
  {
    hide Cycles, TxProgram.BitTimes;
    if rest == [] {
      NoBitTimes();
      TxProgram.BitTimesAppend([], first);
      assert [first] + rest == [] + [first];
    } else {
      var n := |rest| - 1;
      BitTimesFront(first, rest[..n]);
      assert [first] + rest == ([first] + rest[..n]) + [rest[n]] && rest == rest[..n] + [rest[n]];
      TxProgram.BitTimesAppend([first] + rest[..n], rest[n]);
      TxProgram.BitTimesAppend(rest[..n], rest[n]);
    }
  }

  lemma NoBitTimes()
    ensures TxProgram.BitTimes([]) == []
  {}

  /** The cycles before the first bit: the lead-in and the idle J. */
  const LEAD_CYCLES: nat := 6

  /**
   * The transmit program followed by the receive program is the identity on
   * every byte string that fits the packet buffer.
   */
  lemma TransmitThenReceive(bytes: seq<byte>, yTx: nat, osr: bv32, yRx: nat) returns (txSteps: nat, rxSteps: nat)
    requires |bytes| <= MAX_DECODED_BYTES
    ensures var sent := Run(TxProgram.TX, TxProgram.Start(bytes, yTx, osr), txSteps);
      && sent.parked && |sent.trace| >= LEAD_CYCLES
      && var got := Run(RX, Start(SampledLine(sent.trace[LEAD_CYCLES..]), yRx), rxSteps);
        got.pc == WAIT && got.wire == [] && got.isrCount == 0 && ReceivedBytes(got.rxFifo) == bytes
  {
    hide Run, TxProgram.BitTimes, Line, Cycles;
    txSteps := TxProgram.TransmitsPacket(bytes, yTx, osr);
    var line := Line(bytes);
    var trace := TxProgram.PacketOnBus(bytes);
    assert trace[LEAD_CYCLES..] == TxProgram.BitTimes(line) + TxProgram.END_OF_PACKET;
    SamplingRecoversLine(line, TxProgram.END_OF_PACKET);
    RoundTrip(bytes);
    rxSteps := ReceivesPacket(line, bytes, yRx);
  }
}
