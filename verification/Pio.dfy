/**
 * An interpreter for the subset of PIO instructions used by the transmit and
 * receive programs. One step executes one instruction and lasts one cycle plus
 * the instruction's delay; the pins it drives are recorded cycle by cycle.
 *
 * Bits leave the output shift register, and enter the input shift register, at
 * the least significant end first, and both shift registers hold eight bits.
 */
module Pio {
  import opened UsbTypes
  import opened Nrzi

  datatype Condition = Always | NotX | YZero | YDecrement | NotOutputEmpty | Pin

  datatype Operation =
    | Jmp(condition: Condition, target: nat)
    | SetY(value: nat)
    | SetDirections(drive: bool)
    | Nop
    | Irq(flag: nat)
    | IrqWait(flag: nat)
    | WaitTrigger
    | OutX
    | InNull
    | InOsr
    | InX
    | InvertX

  datatype Instruction = Instruction(op: Operation, side: Option<bv2>, delay: nat)

  /** An instruction without side-set or delay. */
  function Plain(op: Operation): Instruction { Instruction(op, None, 0) }

  datatype Program = Program(code: seq<Instruction>, wrapTarget: nat, wrapTop: nat)

  /** What the transmitter does to the bus during one cycle. */
  datatype Drive = Released | Driven(pins: bv2)

  datatype Machine = Machine(
    pc: nat, x: nat, y: nat,
    osr: bv32, osrLeft: nat, txFifo: seq<bv32>,
    isr: bv32, isrCount: nat, rxFifo: seq<bv32>,
    pins: bv2, driving: bool, irqs: set<nat>, parked: bool,
    wire: seq<WireState>, pin: bool,
    trace: seq<Drive>)

  function LowBit(w: bv32): bool { w & 1 != 0 }
  function HalfWord(w: bv32): bv32 { w >> 1 }
  function Inverted(x: nat): nat { if x <= 0xffff_ffff then 0xffff_ffff - x else 0 }
  function BitWord(bit: bool): nat { if bit then 1 else 0 }

  function Cycles(drive: Drive, n: nat): (r: seq<Drive>)
    ensures |r| == n && forall i | 0 <= i < n :: r[i] == drive
  {
    if n == 0 then [] else Cycles(drive, n - 1) + [drive]
  }

  /** Automatic pull: an empty output shift register takes the next word. */
  function Refill(m: Machine): Machine {
    if m.osrLeft == 0 && m.txFifo != [] then
      m.(osr := m.txFifo[0], osrLeft := 8, txFifo := m.txFifo[1..])
    else m
  }

  function ShiftIn(isr: bv32, bit: bool): bv32 {
    HalfWord(isr) | (if bit then 0x8000_0000 else 0)
  }

  /** The registers by their bits: shifting right brings the new bit in at the top; a pin reads as one or zero. */
  lemma RegisterBits(isr: bv32, bit: bool, x: nat)
    ensures var shifted := ShiftIn(isr, bit);
      shifted & 0x7fff_ffff == isr >> 1 && (shifted & 0x8000_0000 != 0 <==> bit)
    ensures BitWord(true) == 1 && BitWord(false) == 0
    ensures x < 0x1_0000_0000 ==> Inverted(x) + x == 0xffff_ffff
  {}

  /** Shift one bit in; the eighth pushes the word (automatic push). */
  function Receive(m: Machine, bit: bool): Machine {
    var isr := ShiftIn(m.isr, bit);
    if m.isrCount == 7 then m.(isr := 0, isrCount := 0, rxFifo := m.rxFifo + [isr])
    else m.(isr := isr, isrCount := m.isrCount + 1)
  }

  function Advance(p: Program, m: Machine): Machine {
    m.(pc := if m.pc == p.wrapTop then p.wrapTarget else m.pc + 1)
  }

  function Holds(m: Machine, condition: Condition): bool {
    match condition
    case Always => true
    case NotX => m.x == 0
    case YZero => m.y == 0
    case YDecrement => m.y != 0
    case NotOutputEmpty => m.osrLeft > 0
    case Pin => m.pin
  }

  function Execute(p: Program, m: Machine, op: Operation): Machine {
    match op
    case Jmp(condition, target) =>
      var n := if condition.YDecrement? then m.(y := if m.y == 0 then 0xffff_ffff else m.y - 1) else m;
      if Holds(m, condition) then n.(pc := target) else Advance(p, n)
    case SetY(value) => Advance(p, m.(y := value))
    case SetDirections(drive) => Advance(p, m.(driving := drive))
    case Nop => Advance(p, m)
    case Irq(flag) => Advance(p, m.(irqs := m.irqs + {flag}))
    case IrqWait(flag) => m.(irqs := m.irqs + {flag}, parked := true)
    case WaitTrigger =>
      if m.wire == [] then m else Advance(p, m.(pin := m.wire[0].K?, wire := m.wire[1..]))
    case OutX =>
      Advance(p, Refill(m.(x := BitWord(LowBit(m.osr)), osr := HalfWord(m.osr), osrLeft := if m.osrLeft == 0 then 0
        else m.osrLeft - 1)))
    case InNull => Advance(p, Receive(m, false))
    case InOsr => Advance(p, Receive(m, LowBit(m.osr)))
    case InX => Advance(p, Receive(m, m.x % 2 == 1))
    case InvertX => Advance(p, m.(x := Inverted(m.x)))
  }

  function DriveOf(m: Machine): Drive {
    if m.driving then Driven(m.pins) else Released
  }

  /** Execute the instruction at the program counter and record its cycles. */
  function Step(p: Program, m: Machine): Machine {
    if m.parked || m.pc >= |p.code| then m
    else
      var i := p.code[m.pc];
      var sided := if i.side.Some? then m.(pins := i.side.value) else m;
      var next := Execute(p, sided, i.op);
      next.(trace := next.trace + Cycles(DriveOf(next), 1 + i.delay))
  }

  function Run(p: Program, m: Machine, steps: nat): Machine
    decreases steps
  {
    if steps == 0 then m else Run(p, Step(p, m), steps - 1)
  }

  lemma {:induction false} RunAdd(p: Program, m: Machine, a: nat, b: nat)
    ensures Run(p, m, a + b) == Run(p, Run(p, m, a), b)
    decreases a
  {
    hide Step;
    if a > 0 {
      RunAdd(p, Step(p, m), a - 1, b);
    }
  }

  lemma RunFour(p: Program, m: Machine)
    ensures Run(p, m, 4) == Step(p, Step(p, Step(p, Step(p, m))))
  {
    hide Step;
    RunTwo(p, m);
    RunTwo(p, Step(p, Step(p, m)));
    RunAdd(p, m, 2, 2);
  }

  lemma RunTwo(p: Program, m: Machine)
    ensures Run(p, m, 2) == Step(p, Step(p, m))
  {
    hide Step;
    var n := Step(p, m);
    assert Run(p, m, 2) == Run(p, n, 1);
    assert Run(p, n, 1) == Run(p, Step(p, n), 0);
  }

  lemma RunOne(p: Program, m: Machine)
    ensures Run(p, m, 1) == Step(p, m)
  {
    hide Step;
    assert Run(p, m, 1) == Run(p, Step(p, m), 0);
  }
}
