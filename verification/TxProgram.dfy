/** The transmit program drives exactly the encoded packet, four cycles a bit. */
module TxProgram {
  import opened UsbTypes
  import opened Nrzi
  import opened Pio

  const DATA_J: bv2 := 1
  const DATA_K: bv2 := 2
  const SINGLE_ENDED_ZERO: bv2 := 0

  function Delayed(op: Operation, delay: nat): Instruction { Instruction(op, None, delay) }
  function Side(op: Operation, pins: bv2, delay: nat): Instruction { Instruction(op, Some(pins), delay) }

  const CHECK_J: nat := 2
  const SEND_EOP: nat := 4
  const PARK: nat := 8
  const RELEASED: nat := 9
  const CHECK_K: nat := 15

  const TX: Program := Program([
    /*  0 start:      */ Side(SetY(5), DATA_J, 0),
    /*  1             */ Plain(SetDirections(true)),
    /*  2 check_eop1: */ Plain(Jmp(NotOutputEmpty, 10)),
    /*  3             */ Delayed(Nop, 1),
    /*  4 send_eop:   */ Side(Irq(1), SINGLE_ENDED_ZERO, 3),
    /*  5             */ Delayed(Nop, 3),
    /*  6             */ Side(Nop, DATA_J, 3),
    /*  7             */ Plain(SetDirections(false)),
    /*  8             */ Plain(IrqWait(0)),
    /*  9             */ Plain(Jmp(Always, 0)),
    /* 10 load_bit1:  */ Plain(OutX),
    /* 11             */ Plain(Jmp(NotX, 14)),
    /* 12 high1:      */ Side(Jmp(YDecrement, CHECK_J), DATA_J, 0),
    /* 13             */ Delayed(Nop, 2),
    /* 14 low1:       */ Side(SetY(5), DATA_K, 0),
    /* 15 check_eop2: */ Plain(Jmp(NotOutputEmpty, 17)),
    /* 16             */ Delayed(Jmp(Always, SEND_EOP), 1),
    /* 17 load_bit2:  */ Plain(OutX),
    /* 18             */ Plain(Jmp(NotX, 21)),
    /* 19 high2:      */ Side(Jmp(YDecrement, CHECK_K), DATA_K, 0),
    /* 20             */ Delayed(Nop, 2),
    /* 21 low2:       */ Side(SetY(5), DATA_J, 0)
  ], 2, 21)

  /** The FIFO word of a byte: the byte replicated four times. */
  function Word(b: byte): bv32 { (b as bv32) * 0x0101_0101 }

  function Words(bytes: seq<byte>): (words: seq<bv32>)
    ensures |words| == |bytes|
  {
    if bytes == [] then [] else [Word(bytes[0])] + Words(bytes[1..])
  }

  /** The bits left in the output shift register, in the order they come out. */
  function OsrBits(osr: bv32, left: nat): seq<bool> {
    ByteBits(LowByte(osr))[..if left <= 8 then left else 8]
  }

  function LowByte(w: bv32): byte { (w & 0xff) as byte }

  function FifoBits(words: seq<bv32>): seq<bool> {
    if words == [] then [] else OsrBits(words[0], 8) + FifoBits(words[1..])
  }

  /** Every data bit still to be sent. */
  function RestBits(m: Machine): seq<bool> {
    OsrBits(m.osr, m.osrLeft) + FifoBits(m.txFifo)
  }

  /** The two data pins: D+ alone is high for J at full speed, D- alone for K. */
  function PinsOf(level: WireState): bv2 { if level.J? then 1 else 2 }

  function BitTimes(line: seq<WireState>): (r: seq<Drive>)
    ensures |r| == 4 * |line|
  {
    if line == [] then [] else BitTimes(line[..|line| - 1]) + Cycles(Driven(PinsOf(line[|line| - 1])), 4)
  }

  lemma BitTimesAppend(line: seq<WireState>, level: WireState)
    ensures BitTimes(line + [level]) == BitTimes(line) + Cycles(Driven(PinsOf(level)), 4)
  {
    assert (line + [level])[..|line|] == line;
  }

  lemma WordBits(b: byte)
    ensures OsrBits(Word(b), 8) == ByteBits(b)
  {
    assert LowByte(Word(b)) == b;
  }

  /** Shifting a word right moves every bit of its low byte one place down. */
  lemma HalvedByte(w: bv32)
    ensures ByteBits(LowByte(w))[0] == LowBit(w)
    ensures ByteBits(LowByte(HalfWord(w)))[..7] == ByteBits(LowByte(w))[1..]
  {
    HalvedBits(w, LowByte(w), LowByte(HalfWord(w)));
    hide LowByte, HalfWord, LowBit;
    ShiftedBits(LowByte(w), LowByte(HalfWord(w)));
  }

  lemma ShiftedBits(l: byte, h: byte)
    requires (h & 1 != 0) == (l & 2 != 0) && (h & 2 != 0) == (l & 4 != 0)
    requires (h & 4 != 0) == (l & 8 != 0) && (h & 8 != 0) == (l & 16 != 0)
    requires (h & 16 != 0) == (l & 32 != 0) && (h & 32 != 0) == (l & 64 != 0)
    requires (h & 64 != 0) == (l & 128 != 0)
    ensures ByteBits(h)[..7] == ByteBits(l)[1..]
  {}

  lemma HalvedBits(w: bv32, l: byte, h: byte)
    requires l == (w & 0xff) as byte && h == ((w >> 1) & 0xff) as byte
    ensures (l & 1 != 0) == (w & 1 != 0)
    ensures (h & 1 != 0) == (l & 2 != 0) && (h & 2 != 0) == (l & 4 != 0)
    ensures (h & 4 != 0) == (l & 8 != 0) && (h & 8 != 0) == (l & 16 != 0)
    ensures (h & 16 != 0) == (l & 32 != 0) && (h & 32 != 0) == (l & 64 != 0)
    ensures (h & 64 != 0) == (l & 128 != 0)
  {}

  lemma {:induction false} WordsBits(bytes: seq<byte>)
    ensures FifoBits(Words(bytes)) == BytesToBits(bytes)
  {
    hide OsrBits, Word, ByteBits;
    if bytes != [] {
      WordsBits(bytes[1..]);
      WordBits(bytes[0]);
      assert Words(bytes)[1..] == Words(bytes[1..]);
      BytesToBitsConcat([bytes[0]], bytes[1..]);
      assert [bytes[0]] + bytes[1..] == bytes;
      assert [bytes[0]][..0] == [];
    }
  }

  // ----- one bit at a time ------------------------------------------------------------

  /** The two cycles before the transmitter drives the bus. */
  const LEAD_IN: seq<Drive> := [Released, Released]

  /**
   * The machine is about to test for more data while driving the last bit of
   * `e`: all earlier bits have had their four cycles and the last one its first.
   */
  ghost predicate AtCheck(m: Machine, e: Encoder, rest: seq<bool>) {
    && e.ones <= 5
    && m.pc == (if e.level.J? then CHECK_J else CHECK_K)
    && m.pins == PinsOf(e.level) && m.driving && !m.parked
    && m.y == 5 - e.ones
    && m.osrLeft <= 8 && RestBits(m) == rest && (m.osrLeft > 0 <==> rest != [])
    && FromIdle(e.line)[|e.line|] == e.level
    && m.trace == LEAD_IN + BitTimes(FromIdle(e.line)[..|e.line|]) + [Driven(PinsOf(e.level))]
  }

  lemma BitWordIsBit(bit: bool)
    ensures BitWord(bit) != 0 <==> bit
  {}

  lemma FifoBitsFront(words: seq<bv32>)
    ensures FifoBits(words) == if words == [] then [] else OsrBits(words[0], 8) + FifoBits(words[1..])
  {
    hide OsrBits;
  }

  /** Shifting a bit out takes it from the front of the remaining bits. */
  lemma OutTakesFront(m: Machine)
    requires 0 < m.osrLeft <= 8
    ensures var r := RestBits(m);
      var n := Refill(m.(x := BitWord(LowBit(m.osr)), osr := HalfWord(m.osr), osrLeft := m.osrLeft - 1));
      && r != [] && (n.x != 0 <==> r[0]) && RestBits(n) == r[1..] && n.osrLeft <= 8 && (n.osrLeft > 0 <==> r[1..] != [])
  {
    hide LowBit, HalfWord, BitWord, ByteBits, LowByte, FifoBits;
    BitWordIsBit(LowBit(m.osr));
    HalvedByte(m.osr);
    FifoBitsFront(m.txFifo);
    var l, h := ByteBits(LowByte(m.osr)), ByteBits(LowByte(HalfWord(m.osr)));
    var tail := OsrBits(HalfWord(m.osr), m.osrLeft - 1);
    assert tail == h[..7][..m.osrLeft - 1];
    assert OsrBits(m.osr, m.osrLeft) == [l[0]] + tail;
    assert RestBits(m) == [l[0]] + (tail + FifoBits(m.txFifo));
    if m.osrLeft == 1 && m.txFifo != [] {
      assert tail + FifoBits(m.txFifo) == FifoBits(m.txFifo);
    }
  }

  function AfterOut(m: Machine): Machine {
    Refill(m.(x := BitWord(LowBit(m.osr)), osr := HalfWord(m.osr), osrLeft := if m.osrLeft == 0 then 0
      else m.osrLeft - 1))
  }

  lemma CheckStep(m: Machine, level: WireState)
    requires m.pc == (if level.J? then CHECK_J else CHECK_K) && m.driving && !m.parked && m.osrLeft > 0
    ensures Step(TX, m) == m.(pc := if level.J? then 10 else 17, trace := m.trace + [DriveOf(m)])
  {
    assert Cycles(DriveOf(m), 1) == [DriveOf(m)];
  }

  lemma OutStep(m: Machine, level: WireState)
    requires m.pc == (if level.J? then 10 else 17) && m.driving && !m.parked
    ensures Step(TX, m) == AfterOut(m).(pc := m.pc + 1, trace := m.trace + [DriveOf(m)])
  {
    hide Refill, LowBit, HalfWord, BitWord;
    var n := m.(x := BitWord(LowBit(m.osr)), osr := HalfWord(m.osr), osrLeft := if m.osrLeft == 0 then 0
      else m.osrLeft - 1);
    RefillKeeps(n);
    assert Cycles(DriveOf(m), 1) == [DriveOf(m)];
  }

  lemma TestStep(m: Machine, level: WireState)
    requires m.pc == (if level.J? then 11 else 18) && m.driving && !m.parked
    ensures Step(TX, m) == m.(pc := m.pc + (if m.x == 0 then 3 else 1), trace := m.trace + [DriveOf(m)])
  {
    assert Cycles(DriveOf(m), 1) == [DriveOf(m)];
  }

  lemma AfterOutKeeps(m: Machine, pc: nat, trace: seq<Drive>)
    ensures var n := AfterOut(m);
      n == m.(x := n.x, osr := n.osr, osrLeft := n.osrLeft, txFifo := n.txFifo)
    ensures AfterOut(m.(pc := pc, trace := trace)) == AfterOut(m).(pc := pc, trace := trace)
  {
    hide LowBit, HalfWord, BitWord, Refill;
    var n := m.(x := BitWord(LowBit(m.osr)), osr := HalfWord(m.osr), osrLeft := if m.osrLeft == 0 then 0
      else m.osrLeft - 1);
    RefillKeeps(n);
    assert AfterOut(m.(pc := pc, trace := trace)) == Refill(n.(pc := pc, trace := trace));
  }

  /** The test for data, the shift and the test of the bit: three cycles of the current level. */
  lemma LoadBit(m: Machine, level: WireState)
    requires m.pc == (if level.J? then CHECK_J else CHECK_K) && m.driving && !m.parked && m.osrLeft > 0
    ensures var n := Step(TX, Step(TX, Step(TX, m)));
      var d := DriveOf(m);
      n == AfterOut(m).(trace := m.trace + [d, d, d],
        pc := (if level.J? then 11 else 18) + (if AfterOut(m).x == 0 then 3 else 1))
  {
    hide Step, AfterOut;
    var d := DriveOf(m);
    CheckStep(m, level);
    var m1 := Step(TX, m);
    OutStep(m1, level);
    AfterOutKeeps(m, m1.pc, m1.trace);
    AfterOutKeeps(m, m.pc, m.trace);
    var m2 := Step(TX, m1);
    TestStep(m2, level);
    assert m.trace + [d] + [d] + [d] == m.trace + [d, d, d];
  }

  /** Refilling changes the output shift register and its FIFO only. */
  lemma RefillKeeps(m: Machine)
    ensures var n := Refill(m); n == m.(osr := n.osr, osrLeft := n.osrLeft, txFifo := n.txFifo)
    ensures forall pc, trace :: Refill(m.(pc := pc, trace := trace)) == Refill(m).(pc := pc, trace := trace)
  {}

  /** The machine has shifted out the next bit and still drives the last level. */
  ghost predicate Loaded(n: Machine, m: Machine, e: Encoder, rest: seq<bool>) {
    && n.driving && !n.parked && n.y == 5 - e.ones && n.osrLeft <= 8
    && rest != [] && RestBits(n) == rest[1..] && (n.osrLeft > 0 <==> rest[1..] != [])
    && n.pc == (if e.level.J? then 11 else 18) + (if rest[0] then 1 else 3)
    && var d := Driven(PinsOf(e.level)); n.trace == m.trace + [d, d, d]
  }

  lemma LoadNext(m: Machine, e: Encoder, rest: seq<bool>)
    requires AtCheck(m, e, rest) && rest != []
    ensures Loaded(Step(TX, Step(TX, Step(TX, m))), m, e, rest)
  {
    hide OsrBits, FifoBits, BitTimes, Step;
    OutTakesFront(m);
    LoadBit(m, e.level);
    AfterOutKeeps(m, m.pc, m.trace);
    hide LowBit, HalfWord, BitWord, Refill;
  }

  /** Move to the next test through the four or six instructions of one bit. */
  lemma OneBit(m: Machine, e: Encoder, rest: seq<bool>) returns (steps: nat)
    requires AtCheck(m, e, rest) && rest != []
    ensures AtCheck(Run(TX, m, steps), EncodeStep(e, rest[0]), rest[1..])
  {
    hide RestBits, BitTimes, Step, Run;
    LoadNext(m, e, rest);
    var m3 := Step(TX, Step(TX, Step(TX, m)));
    RunFour(TX, m);
    if !rest[0] {
      steps := 4;
      ZeroBit(m3, e.level);
      SameRest(Step(TX, m3), m3);
      TraceOneBit(m, e, e.level.Flip(), Step(TX, m3));
    } else if e.ones < 5 {
      steps := 4;
      OneMore(m3, e.level);
      SameRest(Step(TX, m3), m3);
      TraceOneBit(m, e, e.level, Step(TX, m3));
    } else {
      steps := 6;
      RunTwo(TX, Step(TX, m3));
      RunAdd(TX, m, 4, 2);
      StuffedBit(m, m3, e, rest);
    }
  }

  lemma StuffedBit(m: Machine, m3: Machine, e: Encoder, rest: seq<bool>)
    requires AtCheck(m, e, rest) && Loaded(m3, m, e, rest) && rest[0] && e.ones == 5
    ensures AtCheck(Step(TX, Step(TX, Step(TX, m3))), EncodeStep(e, true), rest[1..])
  {
    hide RestBits, BitTimes, Step;
    SixthOne(m3, e.level);
    var m4 := Step(TX, m3);
    var m6 := Step(TX, Step(TX, m4));
    SameRest(m6, m3);
    TraceOneBit(m, e, e.level, m4);
    var f := Encoder(e.line + [e.level], e.level, 0);
    TraceOneBit(m4, f, e.level.Flip(), m6);
    assert f.line + [e.level.Flip()] == e.line + [e.level, e.level.Flip()];
  }

  lemma SameRest(m: Machine, n: Machine)
    requires m.osr == n.osr && m.osrLeft == n.osrLeft && m.txFifo == n.txFifo
    ensures RestBits(m) == RestBits(n)
  {}

  lemma ZeroBit(m: Machine, level: WireState)
    requires m.pc == (if level.J? then 14 else 21) && m.driving && !m.parked
    ensures Step(TX, m) == m.(pc := if level.J? then CHECK_K else CHECK_J, y := 5, pins := PinsOf(level.Flip()),
      trace := m.trace + [Driven(PinsOf(level.Flip()))])
  {
    assert Cycles(Driven(PinsOf(level.Flip())), 1) == [Driven(PinsOf(level.Flip()))];
  }

  lemma OneMore(m: Machine, level: WireState)
    requires m.pc == (if level.J? then 12 else 19) && m.driving && !m.parked && m.y > 0
    ensures Step(TX, m) == m.(pc := if level.J? then CHECK_J else CHECK_K, y := m.y - 1, pins := PinsOf(level),
      trace := m.trace + [Driven(PinsOf(level))])
  {
    assert Cycles(Driven(PinsOf(level)), 1) == [Driven(PinsOf(level))];
  }

  lemma SixthOne(m: Machine, level: WireState)
    requires m.pc == (if level.J? then 12 else 19) && m.driving && !m.parked && m.y == 0
    ensures var d, f := Driven(PinsOf(level)), Driven(PinsOf(level.Flip()));
      var m1 := Step(TX, m);
      && m1.trace == m.trace + [d]
      && Step(TX, Step(TX, m1)) == m.(pc := if level.J? then CHECK_K else CHECK_J, y := 5, pins := PinsOf(level.Flip()),
        trace := m1.trace + [d, d, d] + [f])
  {
    var d, f := Driven(PinsOf(level)), Driven(PinsOf(level.Flip()));
    assert Cycles(d, 1) == [d] && Cycles(d, 3) == [d, d, d] && Cycles(f, 1) == [f];
    var m1 := Step(TX, m);
    assert m1 == m.(pc := m.pc + 1, y := 0xffff_ffff, pins := PinsOf(level), trace := m.trace + [d]);
    var m2 := Step(TX, m1);
    assert m2 == m1.(pc := m.pc + 2, trace := m1.trace + [d, d, d]);
  }

  /** Three more cycles of the current bit and the first cycle of the next one. */
  lemma TraceOneBit(m: Machine, e: Encoder, level: WireState, n: Machine)
    requires FromIdle(e.line)[|e.line|] == e.level
    requires m.trace == LEAD_IN + BitTimes(FromIdle(e.line)[..|e.line|]) + [Driven(PinsOf(e.level))]
    requires var d := Driven(PinsOf(e.level)); n.trace == m.trace + [d, d, d] + [Driven(PinsOf(level))]
    ensures n.trace == LEAD_IN + BitTimes(FromIdle(e.line + [level])[..|e.line| + 1]) + [Driven(PinsOf(level))]
  {
    var line := FromIdle(e.line);
    assert FromIdle(e.line + [level])[..|e.line| + 1] == line;
    assert line == line[..|e.line|] + [e.level];
    BitTimesAppend(line[..|e.line|], e.level);
    var d := Driven(PinsOf(e.level));
    var done := BitTimes(line[..|e.line|]);
    assert [d] + [d, d, d] == Cycles(d, 4);
    hide BitTimes, Cycles, FromIdle, PinsOf;
    Regroup(LEAD_IN, done, d, Driven(PinsOf(level)));
  }

  lemma Regroup<T>(lead: seq<T>, done: seq<T>, d: T, next: T)
    ensures (lead + done + [d]) + [d, d, d] + [next] == lead + (done + ([d] + [d, d, d])) + [next]
  {}

  // ----- the whole packet ---------------------------------------------------------------

  /** The machine released from its park point with the packet's words available. */
  function Start(bytes: seq<byte>, y: nat, osr: bv32): Machine {
    Refill(Machine(RELEASED, 0, y, osr, 0, Words(bytes), 0, 0, [], DATA_J, false, {}, false, [], false, []))
  }

  lemma StartSteps(m: Machine)
    requires m.pc == RELEASED && !m.driving && !m.parked && m.trace == [] && m.pins == DATA_J
    ensures Step(TX, Step(TX, Step(TX, m))) ==
      m.(pc := CHECK_J, y := 5, driving := true, trace := [Released, Released, Driven(DATA_J)])
  {
    assert Cycles(Released, 1) == [Released] && Cycles(Driven(DATA_J), 1) == [Driven(DATA_J)];
    var m1 := Step(TX, m);
    assert m1 == m.(pc := 0, trace := [Released]);
    var m2 := Step(TX, m1);
    assert m2 == m.(pc := 1, y := 5, trace := [Released, Released]);
  }

  lemma StartReachesCheck(bytes: seq<byte>, y: nat, osr: bv32)
    ensures AtCheck(Run(TX, Start(bytes, y, osr), 3), Encode([]), BytesToBits(bytes))
  {
    StartBits(bytes, y, osr);
    hide RestBits, Words, Start, Step, Run;
    var m := Start(bytes, y, osr);
    StartSteps(m);
    var m3 := Step(TX, Step(TX, Step(TX, m)));
    SameRest(m3, m);
    RunTwo(TX, m);
    RunOne(TX, Step(TX, Step(TX, m)));
    RunAdd(TX, m, 2, 1);
    assert BitTimes([]) == [];
  }

  lemma StartBits(bytes: seq<byte>, y: nat, osr: bv32)
    ensures var m := Start(bytes, y, osr);
      && RestBits(m) == BytesToBits(bytes) && m.osrLeft <= 8 && (m.osrLeft > 0 <==> BytesToBits(bytes) != [])
      && m == Machine(RELEASED, 0, y, m.osr, m.osrLeft, m.txFifo, 0, 0, [], DATA_J, false, {}, false, [], false, [])
  {
    hide Word, ByteBits, LowByte;
    WordsBits(bytes);
    if bytes != [] {
      assert Start(bytes, y, osr).txFifo == Words(bytes)[1..];
    }
  }

  /** After the steps of the first `i` bits the machine is about to test for the next one. */
  lemma {:induction false} ReachesCheck(m: Machine, bits: seq<bool>, i: nat) returns (steps: nat)
    requires i <= |bits|
    requires AtCheck(m, Encode([]), bits)
    ensures AtCheck(Run(TX, m, steps), Encode(bits[..i]), bits[i..])
    decreases i
  {
    hide AtCheck, Step, EncodeStep;
    if i == 0 {
      steps := 0;
      assert bits[0..] == bits && bits[..0] == [];
    } else {
      var before := ReachesCheck(m, bits, i - 1);
      var more := OneBit(Run(TX, m, before), Encode(bits[..i - 1]), bits[i - 1..]);
      steps := before + more;
      RunAdd(TX, m, before, more);
      assert bits[..i][..i - 1] == bits[..i - 1];
      assert bits[i - 1..][1..] == bits[i..];
    }
  }

  /** Two bit times of single-ended zero, one of J, and the release of the bus. */
  const END_OF_PACKET: seq<Drive> :=
    Cycles(Driven(0), 8) + Cycles(Driven(1), 4) + [Released, Released]

  /** What the bus sees of a packet: the lead-in with its idle J, the encoded bits, the end of packet. */
  function PacketOnBus(bytes: seq<byte>): seq<Drive> {
    LEAD_IN + Cycles(Driven(1), 4) + BitTimes(Line(bytes)) + END_OF_PACKET
  }

  /** With no bit left, the last bit gets its remaining cycles and the end of packet follows. */
  lemma FinishPacket(m: Machine, e: Encoder) returns (steps: nat)
    requires AtCheck(m, e, [])
    ensures var n := Run(TX, m, steps);
      && n.parked && n.pc == PARK
      && n.trace == LEAD_IN + BitTimes(FromIdle(e.line)) + END_OF_PACKET
  {
    hide RestBits, BitTimes, Step, Run;
    steps := 7;
    var d := Driven(PinsOf(e.level));
    LeaveLoop(m, e.level);
    var m2 := Step(TX, Step(TX, m));
    EndOfPacket(m2);
    var line := FromIdle(e.line);
    assert line == line[..|e.line|] + [e.level];
    BitTimesAppend(line[..|e.line|], e.level);
    assert [d] + [d, d, d] == Cycles(d, 4);
    assert m2.trace == LEAD_IN + BitTimes(line);
    RunTwo(TX, m);
    RunAdd(TX, m, 2, 5);
  }

  lemma LeaveLoop(m: Machine, level: WireState)
    requires m.pc == (if level.J? then CHECK_J else CHECK_K) && m.pins == PinsOf(level)
    requires m.driving && !m.parked && m.osrLeft == 0
    ensures var d := Driven(PinsOf(level));
      Step(TX, Step(TX, m)) == m.(pc := SEND_EOP, trace := m.trace + [d, d, d])
  {
    var d := Driven(PinsOf(level));
    NoMoreBits(m, level);
    var m1 := Step(TX, m);
    TurnToEnd(m1, level);
    hide Step;
    assert m.trace + [d] + [d, d] == m.trace + [d, d, d];
  }

  lemma NoMoreBits(m: Machine, level: WireState)
    requires m.pc == (if level.J? then CHECK_J else CHECK_K) && m.driving && !m.parked && m.osrLeft == 0
    ensures Step(TX, m) == m.(pc := m.pc + 1, trace := m.trace + [DriveOf(m)])
  {
    assert Cycles(DriveOf(m), 1) == [DriveOf(m)];
  }

  lemma TurnToEnd(m: Machine, level: WireState)
    requires m.pc == (if level.J? then CHECK_J else CHECK_K) + 1 && m.driving && !m.parked
    ensures Step(TX, m) == m.(pc := SEND_EOP, trace := m.trace + [DriveOf(m), DriveOf(m)])
  {
    assert Cycles(DriveOf(m), 2) == [DriveOf(m), DriveOf(m)];
  }

  lemma SendZero(m: Machine)
    requires m.pc == SEND_EOP && m.driving && !m.parked
    ensures var z := Cycles(Driven(SINGLE_ENDED_ZERO), 4);
      Step(TX, Step(TX, m)) == m.(pc := 6, pins := 0, irqs := m.irqs + {1}, trace := m.trace + z + z)
  {
    var z := Cycles(Driven(SINGLE_ENDED_ZERO), 4);
    var m1 := Step(TX, m);
    assert m1 == m.(pc := 5, pins := 0, irqs := m.irqs + {1}, trace := m.trace + z);
  }

  lemma SendJ(m: Machine)
    requires m.pc == 6 && m.driving && !m.parked
    ensures var j := Cycles(Driven(DATA_J), 4);
      Step(TX, Step(TX, m)) == m.(pc := PARK, pins := DATA_J, driving := false, trace := m.trace + j + [Released])
  {
    var j := Cycles(Driven(DATA_J), 4);
    assert Cycles(Released, 1) == [Released];
    var m1 := Step(TX, m);
    assert m1 == m.(pc := 7, pins := DATA_J, trace := m.trace + j);
  }

  lemma Parks(m: Machine)
    requires m.pc == PARK && !m.driving && !m.parked
    ensures Step(TX, m) == m.(irqs := m.irqs + {0}, parked := true, trace := m.trace + [Released])
  {
    assert Cycles(Released, 1) == [Released];
  }

  lemma EndOfPacket(m: Machine)
    requires m.pc == SEND_EOP && m.driving && !m.parked
    ensures var n := Run(TX, m, 5);
      n.parked && n.pc == PARK && n.trace == m.trace + END_OF_PACKET
  {
    hide Step, Run;
    var z, j := Driven(SINGLE_ENDED_ZERO), Driven(DATA_J);
    SendZero(m);
    var m2 := Step(TX, Step(TX, m));
    SendJ(m2);
    var m4 := Step(TX, Step(TX, m2));
    Parks(m4);
    RunFour(TX, m);
    RunOne(TX, m4);
    RunAdd(TX, m, 4, 1);
    assert Cycles(z, 4) + Cycles(z, 4) == Cycles(z, 8);
    var n := Run(TX, m, 5);
    assert n.trace == m.trace + Cycles(z, 4) + Cycles(z, 4) + Cycles(j, 4) + [Released] + [Released];
    assert n.trace == m.trace + END_OF_PACKET;
  }

  /**
   * The transmit program, released with the words of any byte string, drives
   * the NRZI encoding of those bytes with stuffed bits - also one at the very
   * end -, four cycles for every bit, then two bit times of single-ended zero
   * and one of J, and parks.
   */
  lemma TransmitsPacket(bytes: seq<byte>, y: nat, osr: bv32) returns (steps: nat)
    ensures var n := Run(TX, Start(bytes, y, osr), steps);
      n.parked && n.pc == PARK && n.trace == PacketOnBus(bytes)
  {
    hide AtCheck, Step, Run, Start, BytesToBits, Encode, BitTimes, PacketOnBus;
    var bits := BytesToBits(bytes);
    var m := Start(bytes, y, osr);
    StartReachesCheck(bytes, y, osr);
    var middle := ReachesCheck(Run(TX, m, 3), bits, |bits|);
    assert bits[..|bits|] == bits && bits[|bits|..] == [];
    var last := FinishPacket(Run(TX, Run(TX, m, 3), middle), Encode(bits));
    RunAdd(TX, m, 3, middle);
    RunAdd(TX, m, 3 + middle, last);
    steps := 3 + middle + last;
    BusForm(bytes);
  }

  lemma BusForm(bytes: seq<byte>)
    ensures PacketOnBus(bytes) == LEAD_IN + BitTimes(FromIdle(Line(bytes))) + END_OF_PACKET
  {
    hide BitTimes, Line;
    IdleFirst(Line(bytes));
    assert LEAD_IN + BitTimes(FromIdle(Line(bytes))) == LEAD_IN + Cycles(Driven(DATA_J), 4) + BitTimes(Line(bytes));
  }

  lemma {:induction false} IdleFirst(line: seq<WireState>)
    ensures BitTimes(FromIdle(line)) == Cycles(Driven(DATA_J), 4) + BitTimes(line)
  {
    if line == [] {
      BitTimesAppend([], J);
      assert [J] == [] + [J];
    } else {
      var n := |line| - 1;
      IdleFirst(line[..n]);
      BitTimesAppend(FromIdle(line[..n]), line[n]);
      assert FromIdle(line) == FromIdle(line[..n]) + [line[n]];
    }
  }
}
