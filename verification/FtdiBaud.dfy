/** FTDI baud-rate divisors: which rates are accepted, and what is sent to the chip. */
module FtdiBaud {
  import opened UsbTypes
  import Packetise

  datatype Chip = Ft232Am | Ft232Bm | Ft2232C | Ft232R | Ft2232H | Ft4232H | Ft232H | Ft230X {
    predicate IsMultiChannel() { this in {Ft2232C, Ft2232H, Ft4232H} }
    predicate IsHType() { this in {Ft2232H, Ft4232H, Ft232H} }
  }

  const U32_LIMIT: nat := 0x1_0000_0000
  const MAX_DIVISOR: nat := 0x1ffff
  const FRACTION_CODE: seq<nat> := [0, 3, 2, 4, 1, 5, 6, 7]

  // ----- the divisor ------------------------------------------------------------------------

  /** Half of a number, rounded up. */
  function HalfUp(n: nat): nat { n / 2 + n % 2 }

  /** The divisor in eighths that is nearest to the wanted rate. */
  function Best(top: nat, baud: nat): nat
    requires baud > 0
  {
    var b := HalfUp(top / baud);
    if b <= MAX_DIVISOR then b else MAX_DIVISOR
  }

  /** The rate that a divisor gives. */
  function Rate(top: nat, best: nat): nat
    requires best > 0
  {
    HalfUp(top / best)
  }

  /** The integer part in the low fourteen bits, the code of the eighths above. */
  function Encode(best: nat): nat {
    best / 8 + 0x4000 * FRACTION_CODE[best % 8]
  }

  datatype Clock = Clock(frequency: nat, predivider: nat) {
    ghost predicate Valid() { this == CLOCK_48 || this == CLOCK_120 }

    /** Sixteen times the undivided rate: the unit of the divisor arithmetic. */
    function Top(): nat
      requires predivider > 0
    {
      frequency * 16 / predivider
    }
  }

  const CLOCK_48: Clock := Clock(48_000_000, 16)
  const CLOCK_120: Clock := Clock(120_000_000, 10)

  /** The actual rate and its encoding; the three fastest rates have codes of their own. */
  function ClockBits(baud: nat, c: Clock): (nat, nat)
    requires baud > 0 && c.Valid()
  {
    if baud >= c.frequency / c.predivider then (c.frequency / c.predivider, 0)
    else if baud >= c.frequency / (c.predivider + c.predivider / 2)
    then (c.frequency / (c.predivider + c.predivider / 2), 1)
    else if baud >= c.frequency / (2 * c.predivider) then (c.frequency / (2 * c.predivider), 2)
    else
      BestIsPositive(c, baud);
      var best := Best(c.Top(), baud);
      (Rate(c.Top(), best), Encode(best))
  }

  lemma DivMonotone(n: nat, a: nat, b: nat)
    requires 0 < a <= b
    ensures n / b <= n / a
  {
    var q := n / b;
    MulMonotone(q, a, b);
    QuotientAtLeast(n, a, q);
  }

  lemma MulMonotone(q: nat, a: nat, b: nat)
    requires a <= b
    ensures q * a <= q * b
  {}

  lemma QuotientAtLeast(n: nat, d: nat, q: nat)
    requires d > 0 && q * d <= n
    ensures n / d >= q
  {
    Packetise.QuotientAtMost(q, n - q * d, n / d, n % d, d);
  }

  /** Below the special rates the divisor is at least two. */
  lemma BestIsPositive(c: Clock, baud: nat)
    requires c.Valid() && 0 < baud < c.frequency / (2 * c.predivider)
    ensures c.Top() / baud >= 32 && Best(c.Top(), baud) >= 16
  {
    DivMonotone(c.Top(), baud, c.frequency / (2 * c.predivider));
  }

  // ----- how close the actual rate is -----------------------------------------------------------

  /** Dividing by at least 32 and back overshoots by less than a sixteenth. */
  lemma NotMuchAbove(top: nat, baud: nat, d: nat, m: nat, t: nat)
    requires 32 <= d <= 2 * m && top < (d + 1) * baud && t * m <= top
    ensures 16 * t < 33 * baud
  {
    if t >= 2 * baud {
      var over := t - 2 * baud;
      MulMonotone(t, d, 2 * m);
      assert t * (2 * m) == 2 * (t * m);
      assert t * d < 2 * ((d + 1) * baud);
      assert t * d == over * d + 2 * (d * baud);
      assert (d + 1) * baud == d * baud + baud;
      MulMonotone(over, 32, d);
    }
  }

  /** ... and stays less than two thirty-thirds and one below. */
  lemma NotMuchBelow(top: nat, baud: nat, d: nat, m: nat, t: nat)
    requires 32 <= d && 2 * m <= d + 1 && d * baud <= top < (t + 1) * m
    ensures 33 * (t + 1) > 64 * baud
  {
    if t + 1 < 2 * baud {
      var under := 2 * baud - (t + 1);
      MulMonotone(t + 1, 2 * m, d + 1);
      assert (t + 1) * (2 * m) == 2 * ((t + 1) * m);
      assert (t + 1) * (d + 1) > 2 * (d * baud);
      assert under * (d + 1) == 2 * (d * baud) + 2 * baud - (t + 1) * (d + 1);
      MulMonotone(under, 33, d + 1);
    }
  }

  /** Whenever the divisor is not capped, the rate is within five percent. */
  lemma UncappedIsClose(top: nat, baud: nat)
    requires baud >= 27 && top / baud >= 32 && HalfUp(top / baud) <= MAX_DIVISOR
    ensures var actual := Rate(top, Best(top, baud));
      20 * actual <= 21 * baud && 19 * baud <= 20 * actual
  {
    var d, m := top / baud, HalfUp(top / baud);
    var t := top / m;
    Division(top, baud);
    Division(top, m);
    NotMuchAbove(top, baud, d, m, t);
    NotMuchBelow(top, baud, d, m, t);
  }

  lemma Division(n: nat, d: nat)
    requires d > 0
    ensures n / d * d <= n < (n / d + 1) * d
  {}

  // ----- what is sent to the chip -----------------------------------------------------------------

  datatype BaudDivisor = BaudDivisor(actual: nat, value: nat, index: nat)

  /** Channels of multi-channel chips are numbered from one. */
  function UsbIndex(chip: Chip, interface: byte): nat {
    if chip.IsMultiChannel() then interface as nat + 1 else 0
  }

  /** Bits 8 and 9 from the divisor, combined bitwise with the channel number, which may be 256. */
  function JoinIndex(high: nat, usbIndex: nat): nat
    requires high < 4 && usbIndex <= 256
  {
    if usbIndex < 256 || high % 2 == 0 then high * 256 + usbIndex else high * 256
  }

  predicate SharesIndex(chip: Chip) { chip.IsHType() || chip == Ft2232C || chip == Ft230X }

  /** The clock that a chip uses for a rate, and the bit that says so. */
  function ClockFor(chip: Chip, baud: nat): (Clock, nat) {
    if chip.IsHType() && baud * 10 > 120_000_000 / 0x3fff then (CLOCK_120, 0x20000) else (CLOCK_48, 0)
  }

  lemma EncodedIsSmall(best: nat)
    requires best <= MAX_DIVISOR
    ensures Encode(best) < 0x20000
  {}

  lemma ClockBitsSmall(baud: nat, c: Clock)
    requires baud > 0 && c.Valid()
    ensures ClockBits(baud, c).1 < 0x20000
  {
    if 0 < baud < c.frequency / (2 * c.predivider) {
      BestIsPositive(c, baud);
      EncodedIsSmall(Best(c.Top(), baud));
    }
  }

  /** The value and the index of the request that carries an encoded divisor. */
  function Request(chip: Chip, encoded: nat, usbIndex: nat): (nat, nat)
    requires encoded < 0x40000 && usbIndex <= 256
  {
    (encoded % 0x1_0000,
     if SharesIndex(chip) then JoinIndex(encoded / 0x1_0000, usbIndex) else encoded / 0x1_0000)
  }

  function ConvertBaudRate(baud: nat, chip: Chip, usbIndex: nat): Option<BaudDivisor>
    requires chip != Ft232Am && usbIndex <= 256
  {
    if baud == 0 then None
    else
      var (clock, flag) := ClockFor(chip, baud);
      ClockBitsSmall(baud, clock);
      var (actual, bits) := ClockBits(baud, clock);
      if actual == 0 then None
      else
        var (value, index) := Request(chip, bits + flag, usbIndex);
        Some(BaudDivisor(actual, value, index))
  }

  datatype FtdiError = InvalidBaudRate | UnsupportedBaudRate(requested: nat, actual: nat) | Control(error: PipeError)

  function Distance(a: nat, b: nat): nat { if a >= b then a - b else b - a }

  class FtdiSettings {
    const chip: Chip
    const interface: byte
    var baudRate: nat
    /** The divisor requests sent to the chip, value and index. */
    var requests: seq<(nat, nat)>

    constructor (chip: Chip, interface: byte)
      ensures this.chip == chip && this.interface == interface && requests == []
    {
      this.chip, this.interface := chip, interface;
      baudRate, requests := 0, [];
    }

    /**
     * Program the nearest rate, unless it is more than five percent off;
     * `control` is what the control request comes to. The rate is remembered
     * only when the chip took it.
     */
    method SetBaudRate(requested: nat, control: Result<(), PipeError>) returns (result: Result<nat, FtdiError>)
      requires chip != Ft232Am && requested < U32_LIMIT
      modifies this
      ensures result.Ok? <==> Accepted(chip, requested) && control.Ok?
      ensures result == Err(InvalidBaudRate) <==> requested == 0
      ensures result.Err? && result.error.Control? <==> Accepted(chip, requested) && control.Err?
      ensures result.Err? && result.error.Control? ==> result.error.error == control.error
      ensures Accepted(chip, requested) ==>
        && ConvertBaudRate(requested, chip, UsbIndex(chip, interface)).Some?
        && var divisor := ConvertBaudRate(requested, chip, UsbIndex(chip, interface)).value;
           && 20 * Distance(divisor.actual, requested) <= requested
           && requests == old(requests) + [(divisor.value, divisor.index)]
           && (result.Ok? ==> result.value == divisor.actual)
      ensures !Accepted(chip, requested) ==> requests == old(requests)
      ensures baudRate == if result.Ok? then result.value else old(baudRate)
    {
      hide ConvertBaudRate, Accepted;
      AcceptedIff(chip, requested, UsbIndex(chip, interface));
      var divisor := ConvertBaudRate(requested, chip, UsbIndex(chip, interface));
      if divisor.None? {
        return Err(InvalidBaudRate);
      }
      var difference := Distance(divisor.value.actual, requested);
      if difference * 20 > requested {
        return Err(UnsupportedBaudRate(requested, divisor.value.actual));
      }
      requests := requests + [(divisor.value.value, divisor.value.index)];
      if control.Err? {
        return Err(Control(control.error));
      }
      baudRate := divisor.value.actual;
      return Ok(divisor.value.actual);
    }
  }

  // ----- exactly the accepted rates -----------------------------------------------------------------

  /** One stretch down to the slowest divisor, and five percent above each of the three special rates. */
  predicate Accepted(chip: Chip, baud: nat) {
    if chip.IsHType() then
      175 <= baud <= 6_315_789 || 8_000_000 <= baud <= 8_421_052 || 12_000_000 <= baud <= 12_631_578
    else
      175 <= baud <= 1_578_947 || 2_000_000 <= baud <= 2_105_263 || 3_000_000 <= baud <= 3_157_894
  }

  predicate Near(actual: nat, baud: nat) { 20 * Distance(actual, baud) <= baud }

  /** Above the divisors: only near a special rate. */
  lemma SlowSpecialRates(baud: nat)
    requires baud >= 1_500_000
    ensures ClockBits(baud, CLOCK_48).0 == if baud >= 3_000_000 then 3_000_000 else if baud >= 2_000_000 then 2_000_000
      else 1_500_000
    ensures Near(ClockBits(baud, CLOCK_48).0, baud) <==>
      baud <= 1_578_947 || 2_000_000 <= baud <= 2_105_263 || 3_000_000 <= baud <= 3_157_894
  {
    hide Best, Rate, Encode;
    assert 48_000_000 / 16 == 3_000_000 && 48_000_000 / 24 == 2_000_000 && 48_000_000 / 32 == 1_500_000;
  }

  lemma FastSpecialRates(baud: nat)
    requires baud >= 6_000_000
    ensures ClockBits(baud, CLOCK_120).0 == if baud >= 12_000_000 then 12_000_000
      else if baud >= 8_000_000 then 8_000_000 else 6_000_000
    ensures Near(ClockBits(baud, CLOCK_120).0, baud) <==>
      baud <= 6_315_789 || 8_000_000 <= baud <= 8_421_052 || 12_000_000 <= baud <= 12_631_578
  {
    hide Best, Rate, Encode;
    assert 120_000_000 / 10 == 12_000_000 && 120_000_000 / 15 == 8_000_000 && 120_000_000 / 20 == 6_000_000;
  }

  /** The 120 MHz clock is used only for rates whose divisor is not capped. */
  lemma FastClockUncapped(baud: nat)
    requires 733 <= baud < 6_000_000
    ensures HalfUp(CLOCK_120.Top() / baud) < MAX_DIVISOR
  {
    DivMonotone(192_000_000, 733, baud);
  }

  lemma FastDivisors(baud: nat)
    requires 733 <= baud < 6_000_000
    ensures ClockBits(baud, CLOCK_120).0 > 0 && Near(ClockBits(baud, CLOCK_120).0, baud)
  {
    BestIsPositive(CLOCK_120, baud);
    FastClockUncapped(baud);
    UncappedIsClose(CLOCK_120.Top(), baud);
  }

  lemma SlowDivisors(baud: nat)
    requires 0 < baud < 1_500_000
    ensures ClockBits(baud, CLOCK_48).0 > 0
    ensures Near(ClockBits(baud, CLOCK_48).0, baud) <==> baud >= 175
  {
    BestIsPositive(CLOCK_48, baud);
    if baud >= 184 {
      DivMonotone(48_000_000, 184, baud);
      UncappedIsClose(CLOCK_48.Top(), baud);
    } else {
      DivMonotone(48_000_000, baud, 183);
      assert Best(CLOCK_48.Top(), baud) == MAX_DIVISOR;
    }
  }

  /** A rate is accepted, within five percent, exactly when it is in the stated ranges. */
  lemma AcceptedIff(chip: Chip, baud: nat, usbIndex: nat)
    requires chip != Ft232Am && usbIndex <= 256
    ensures ConvertBaudRate(baud, chip, usbIndex).None? <==> baud == 0
    ensures Accepted(chip, baud) ==> baud > 0
    ensures baud > 0 ==>
      (Accepted(chip, baud) <==> Near(ConvertBaudRate(baud, chip, usbIndex).value.actual, baud))
  {
    if baud > 0 {
      var (clock, _) := ClockFor(chip, baud);
      assert clock == if chip.IsHType() && baud >= 733 then CLOCK_120 else CLOCK_48;
      ClockBitsSmall(baud, clock);
      if clock == CLOCK_120 {
        if baud >= 6_000_000 { FastSpecialRates(baud); } else { FastDivisors(baud); }
      } else {
        if baud >= 1_500_000 { SlowSpecialRates(baud); } else { SlowDivisors(baud); }
      }
      hide ClockBits;
    }
  }

  /** No product or sum of the arithmetic leaves 32 bits. */
  lemma FitsIn32Bits(baud: nat, chip: Chip)
    requires 0 < baud < U32_LIMIT && chip != Ft232Am
    ensures var (clock, flag) := ClockFor(chip, baud);
      clock.frequency * 16 < U32_LIMIT && ClockBits(baud, clock).0 < U32_LIMIT
      && ClockBits(baud, clock).1 + flag < 0x40000
  {
    var (clock, _) := ClockFor(chip, baud);
    ClockBitsSmall(baud, clock);
    if baud < clock.frequency / (2 * clock.predivider) {
      BestIsPositive(clock, baud);
      DivMonotone(clock.Top(), 16, Best(clock.Top(), baud));
    }
  }

  // ----- the divisor can be read back --------------------------------------------------------------

  /** The eighths that a code stands for. */
  function Eighths(code: nat): nat
    requires code < 8
  {
    [0, 4, 2, 1, 3, 5, 6, 7][code]
  }

  lemma CodeRoundTrip(eighths: nat)
    requires eighths < 8
    ensures FRACTION_CODE[eighths] < 8 && Eighths(FRACTION_CODE[eighths]) == eighths
  {}

  /** The divisor in eighths that an encoding stands for. */
  function Decode(bits: nat): nat { 8 * (bits % 0x4000) + Eighths(bits / 0x4000 % 8) }

  /** Read a divisor in eighths out of what was sent. */
  function ReadBack(chip: Chip, sent: (nat, nat)): nat {
    var high := if SharesIndex(chip) then sent.1 / 256 else sent.1;
    Decode(sent.0 + 0x1_0000 * (high % 2))
  }

  lemma DecodeEncode(best: nat)
    requires best <= MAX_DIVISOR
    ensures Decode(Encode(best)) == best
  {
    CodeRoundTrip(best % 8);
    assert Encode(best) == best / 8 + 0x4000 * FRACTION_CODE[best % 8];
    assert Encode(best) % 0x4000 == best / 8;
    assert Encode(best) / 0x4000 == FRACTION_CODE[best % 8];
  }

  /** What a request carries back: all bits, or all but bit 16 where the channel number 256 overwrites it. */
  function Carried(chip: Chip, bits: nat, usbIndex: nat): nat {
    if usbIndex == 256 && SharesIndex(chip) then bits % 0x1_0000 + 0x1_0000 else bits
  }

  lemma ReadBackSent(chip: Chip, bits: nat, flag: nat, usbIndex: nat)
    requires bits < 0x20000 && (flag == 0 || flag == 0x20000) && usbIndex <= 256
    ensures ReadBack(chip, Request(chip, bits + flag, usbIndex)) == Decode(Carried(chip, bits, usbIndex))
  {
    hide Decode, Eighths;
    var high := (bits + flag) / 0x1_0000;
    assert high % 2 == bits / 0x1_0000 && (bits + flag) % 0x1_0000 == bits % 0x1_0000;
    if SharesIndex(chip) {
      ChannelBit(high, usbIndex);
    }
  }

  /** Bit 8 of the index is a bit of the divisor, and channel number 256 sets it. */
  lemma ChannelBit(high: nat, usbIndex: nat)
    requires high < 4 && usbIndex <= 256
    ensures JoinIndex(high, usbIndex) / 256 % 2 == if usbIndex == 256 then 1 else high % 2
  {}

  /** The rates that a divisor gives. */
  predicate Divided(chip: Chip, baud: nat) {
    0 < baud < if chip.IsHType() && baud >= 733 then 6_000_000 else 1_500_000
  }

  lemma SlowBits(baud: nat)
    requires 0 < baud < 1_500_000
    ensures ClockBits(baud, CLOCK_48).1 == Encode(Best(CLOCK_48.Top(), baud))
  {
    hide Encode, Rate, Best;
    assert 48_000_000 / 16 == 3_000_000 && 48_000_000 / 24 == 2_000_000 && 48_000_000 / 32 == 1_500_000;
  }

  lemma FastBits(baud: nat)
    requires 0 < baud < 6_000_000
    ensures ClockBits(baud, CLOCK_120).1 == Encode(Best(CLOCK_120.Top(), baud))
  {
    hide Encode, Rate, Best;
    assert 120_000_000 / 10 == 12_000_000 && 120_000_000 / 15 == 8_000_000 && 120_000_000 / 20 == 6_000_000;
  }

  lemma ChosenClock(chip: Chip, baud: nat)
    ensures ClockFor(chip, baud) == if chip.IsHType() && baud >= 733 then (CLOCK_120, 0x20000) else (CLOCK_48, 0)
  {}

  lemma DividedBits(chip: Chip, baud: nat)
    requires Divided(chip, baud)
    ensures var (clock, _) := ClockFor(chip, baud);
      ClockBits(baud, clock).1 == Encode(Best(clock.Top(), baud)) && Best(clock.Top(), baud) <= MAX_DIVISOR
  {
    ChosenClock(chip, baud);
    hide ClockFor, ClockBits, Encode;
    if chip.IsHType() && baud >= 733 { FastBits(baud); } else { SlowBits(baud); }
  }

  /** The codes with the top bit are those of three, five, six and seven eighths. */
  lemma TopBitIff(best: nat)
    requires best <= MAX_DIVISOR
    ensures Encode(best) >= 0x1_0000 <==> best % 8 in {3, 5, 6, 7}
    ensures Decode(Encode(best) % 0x1_0000 + 0x1_0000) == best <==> Encode(best) >= 0x1_0000
  {
    EncodedIsSmall(best);
    DecodeEncode(best);
    var low, code := best / 8, FRACTION_CODE[best % 8];
    var merged := Encode(best) % 0x1_0000 + 0x1_0000;
    assert low < 0x4000 && Encode(best) == low + 0x4000 * code;
    assert merged == low + 0x4000 * (if code < 4 then code + 4 else code);
    assert merged % 0x4000 == low && merged / 0x4000 == if code < 4 then code + 4 else code;
  }

  /**
   * Below the special rates the divisor is recoverable from the value and the
   * index that are sent, except where a chip shares the index with the channel
   * and the channel number is 256: then exactly when the divisor has three,
   * five, six or seven eighths.
   */
  lemma DivisorIsRecoverableIff(baud: nat, chip: Chip, usbIndex: nat)
    requires chip != Ft232Am && usbIndex <= 256 && Divided(chip, baud)
    ensures ConvertBaudRate(baud, chip, usbIndex).Some?
    ensures var (clock, _) := ClockFor(chip, baud);
      var sent, best := ConvertBaudRate(baud, chip, usbIndex).value, Best(clock.Top(), baud);
      ReadBack(chip, (sent.value, sent.index)) == best
      <==> usbIndex < 256 || !SharesIndex(chip) || best % 8 in {3, 5, 6, 7}
  {
    var (clock, flag) := ClockFor(chip, baud);
    var best := Best(clock.Top(), baud);
    SentIsEncoded(baud, chip, usbIndex);
    ReadBackIff(chip, best, flag, usbIndex);
    hide Best, ClockFor, Clock.Top, ConvertBaudRate, Encode, ReadBack, Request;
  }

  lemma SentIsEncoded(baud: nat, chip: Chip, usbIndex: nat)
    requires chip != Ft232Am && usbIndex <= 256 && Divided(chip, baud)
    ensures ConvertBaudRate(baud, chip, usbIndex).Some?
    ensures var (clock, flag) := ClockFor(chip, baud);
      var sent, best := ConvertBaudRate(baud, chip, usbIndex).value, Best(clock.Top(), baud);
      && best <= MAX_DIVISOR && Encode(best) < 0x20000 && (flag == 0 || flag == 0x20000)
      && (sent.value, sent.index) == Request(chip, Encode(best) + flag, usbIndex)
  {
    AcceptedIff(chip, baud, usbIndex);
    ChosenClock(chip, baud);
    DividedBits(chip, baud);
    var (clock, _) := ClockFor(chip, baud);
    EncodedIsSmall(Best(clock.Top(), baud));
    hide ClockFor, ClockBits, Best, Clock.Top, Encode, Request;
  }

  lemma ReadBackIff(chip: Chip, best: nat, flag: nat, usbIndex: nat)
    requires best <= MAX_DIVISOR && Encode(best) < 0x20000
    requires (flag == 0 || flag == 0x20000) && usbIndex <= 256
    ensures ReadBack(chip, Request(chip, Encode(best) + flag, usbIndex)) == best
      <==> usbIndex < 256 || !SharesIndex(chip) || best % 8 in {3, 5, 6, 7}
  {
    DecodeEncode(best);
    TopBitIff(best);
    hide Encode, Decode, ReadBack, Request;
    ReadBackSent(chip, Encode(best), flag, usbIndex);
  }

  /**
   * Whatever reads it: on channel 256 two divisors are sent as one request exactly when only the
   * top code bit tells them apart.
   */
  lemma SameRequestIff(chip: Chip, a: nat, b: nat, flag: nat)
    requires SharesIndex(chip)
    requires a <= MAX_DIVISOR && b <= MAX_DIVISOR && (flag == 0 || flag == 0x20000)
    ensures Encode(a) < 0x20000 && Encode(b) < 0x20000
    ensures Request(chip, Encode(a) + flag, 256) == Request(chip, Encode(b) + flag, 256)
      <==> a == b || Distance(Encode(a), Encode(b)) == 0x1_0000
  {
    hide Encode, Decode, Request, Distance, SharesIndex;
    EncodedIsSmall(a);
    EncodedIsSmall(b);
    DecodeEncode(a);
    DecodeEncode(b);
    RequestIff(chip, Encode(a), Encode(b), flag);
  }

  lemma RequestIff(chip: Chip, x: nat, y: nat, flag: nat)
    requires SharesIndex(chip) && x < 0x20000 && y < 0x20000 && (flag == 0 || flag == 0x20000)
    ensures Request(chip, x + flag, 256) == Request(chip, y + flag, 256) <==> x == y || Distance(x, y) == 0x1_0000
  {
    SameIndex(x, flag);
    SameIndex(y, flag);
    SameLowBits(x, y, flag);
    hide JoinIndex, SharesIndex, Distance;
  }

  lemma SameIndex(bits: nat, flag: nat)
    requires bits < 0x20000 && (flag == 0 || flag == 0x20000)
    ensures JoinIndex((bits + flag) / 0x1_0000, 256) == if flag == 0 then 256 else 768
  {}

  lemma SameLowBits(x: nat, y: nat, flag: nat)
    requires x < 0x20000 && y < 0x20000 && (flag == 0 || flag == 0x20000)
    ensures (x + flag) % 0x1_0000 == (y + flag) % 0x1_0000 <==> x == y || Distance(x, y) == 0x1_0000
  {}

  // ----- what the chip makes of it ----------------------------------------------------------------

  /** Which chips have several channels, the 120 MHz clock, and an index that the channel shares. */
  lemma ChipKinds(chip: Chip, interface: byte)
    ensures UsbIndex(chip, interface) == if chip in {Ft2232C, Ft2232H, Ft4232H} then interface as nat + 1 else 0
    ensures chip.IsHType() <==> chip in {Ft2232H, Ft4232H, Ft232H}
    ensures SharesIndex(chip) <==> chip in {Ft2232C, Ft2232H, Ft4232H, Ft232H, Ft230X}
  {}

  /** The rate at which a chip runs: two codes stand for the fastest rates, others for a divisor in eighths. */
  function ChipRate(fast: bool, bits: nat): nat {
    if bits == 0 then if fast then 12_000_000 else 3_000_000
    else if bits == 1 then if fast then 8_000_000 else 2_000_000
    else if Decode(bits) == 0 then 0 else HalfUp((if fast then 192_000_000 else 48_000_000) / Decode(bits))
  }

  lemma RunsAt(baud: nat, c: Clock)
    requires baud > 0 && c.Valid()
    ensures ClockBits(baud, c).0 == ChipRate(c == CLOCK_120, ClockBits(baud, c).1)
  {
    assert 48_000_000 / 16 == 3_000_000 && 48_000_000 / 24 == 2_000_000 && 48_000_000 / 32 == 1_500_000;
    assert 120_000_000 / 10 == 12_000_000 && 120_000_000 / 15 == 8_000_000 && 120_000_000 / 20 == 6_000_000;
    SpecialCodes();
    if baud < c.frequency / (2 * c.predivider) {
      BestIsPositive(c, baud);
      CodeRunsAt(c, Best(c.Top(), baud));
    }
    hide Best, Rate, Encode, ChipRate;
  }

  lemma SpecialCodes()
    ensures ChipRate(true, 0) == 12_000_000 && ChipRate(true, 1) == 8_000_000 && ChipRate(true, 2) == 6_000_000
    ensures ChipRate(false, 0) == 3_000_000 && ChipRate(false, 1) == 2_000_000 && ChipRate(false, 2) == 1_500_000
  {
    assert Decode(2) == 16;
  }

  lemma CodeRunsAt(c: Clock, best: nat)
    requires c.Valid() && 16 <= best <= MAX_DIVISOR
    ensures ChipRate(c == CLOCK_120, Encode(best)) == Rate(c.Top(), best)
  {
    DecodeEncode(best);
    assert Encode(best) >= 2;
    hide Encode, Decode, HalfUp;
    assert c.Top() == if c == CLOCK_120 then 192_000_000 else 48_000_000;
  }

  /**
   * What is sent is what is reported: read by the chip, the value and the index
   * select the fast clock exactly for the rates it serves, give the rate that
   * is returned, and name the channel.
   */
  lemma SentRunsAt(baud: nat, chip: Chip, usbIndex: nat)
    requires chip != Ft232Am && usbIndex < 256 && baud > 0
    ensures ConvertBaudRate(baud, chip, usbIndex).Some?
    ensures var sent := ConvertBaudRate(baud, chip, usbIndex).value;
      var high := if SharesIndex(chip) then sent.index / 256 else sent.index;
      && sent.value < 0x1_0000 && high < 4
      && (high >= 2 <==> chip in {Ft2232H, Ft4232H, Ft232H} && baud >= 733)
      && sent.actual == ChipRate(high >= 2, sent.value + 0x1_0000 * (high % 2))
      && (SharesIndex(chip) ==> sent.index % 256 == usbIndex)
  {
    AcceptedIff(chip, baud, usbIndex);
    ChosenClock(chip, baud);
    var (clock, flag) := ClockFor(chip, baud);
    ClockBitsSmall(baud, clock);
    RunsAt(baud, clock);
    var bits := ClockBits(baud, clock).1;
    hide ClockFor, ClockBits, ChipRate, Accepted;
    SplitBits(bits, flag);
    if SharesIndex(chip) {
      ChannelKept((bits + flag) / 0x1_0000, usbIndex);
    }
    hide JoinIndex;
  }

  lemma SplitBits(bits: nat, flag: nat)
    requires bits < 0x20000 && (flag == 0 || flag == 0x20000)
    ensures var high := (bits + flag) / 0x1_0000;
      high < 4 && (high >= 2 <==> flag == 0x20000) && bits == (bits + flag) % 0x1_0000 + 0x1_0000 * (high % 2)
  {}

  lemma ChannelKept(high: nat, usbIndex: nat)
    requires high < 4 && usbIndex < 256
    ensures JoinIndex(high, usbIndex) / 256 == high && JoinIndex(high, usbIndex) % 256 == usbIndex
  {}

  /** The slowest divisor is all ones, and is used for every rate below 183. */
  lemma SlowestDivisor(baud: nat)
    requires 0 < baud < 183
    ensures Best(48_000_000, baud) == 0x1ffff
  {
    DivMonotone(48_000_000, baud, 182);
  }

  lemma Divisor24()
    ensures ClockBits(1_000_000, CLOCK_48) == (1_000_000, 3)
  {
    assert 48_000_000 / 1_000_000 == 48 && 48_000_000 / 24 == 2_000_000;
  }

  lemma Divisor27()
    ensures ClockBits(888_889, CLOCK_48) == (888_889, 0x10003)
  {
    assert 48_000_000 / 888_889 == 53 && 48_000_000 / 27 == 1_777_777;
  }

  /**
   * With channel number 256 it is not: bit 8 of the index is then always set,
   * and two rates a tenth apart are sent as the same request.
   */
  lemma Channel256LosesABit()
    ensures UsbIndex(Ft2232C, 255) == 256
    ensures var a, b := ConvertBaudRate(1_000_000, Ft2232C, 256), ConvertBaudRate(888_889, Ft2232C, 256);
      a.Some? && b.Some? && a.value.actual == 1_000_000 && b.value.actual == 888_889
      && a.value.value == b.value.value && a.value.index == b.value.index
  {
    Divisor24();
    Divisor27();
    hide ClockBits;
  }
}
