/** Numbers as text: what the device line parsers read is what was written, in decimal or hexadecimal digits. */
module NumberText {
  import opened UsbTypes
  import opened DeviceLine

  // ----- decimal --------------------------------------------------------------------------

  function DigitByte(d: nat): byte
    requires d < 10
  {
    ('0' as int + d) as byte
  }

  /** A number in decimal digits. */
  function Written(n: nat): (s: seq<byte>)
    ensures s != []
  {
    if n < 10 then [DigitByte(n)] else Written(n / 10) + [DigitByte(n % 10)]
  }

  /** A byte is a digit exactly when it is one of these characters. */
  lemma DigitsAre(b: byte)
    ensures IsDigit(b) <==> '0' as int <= b as int <= '9' as int
    ensures IsDigit(b) ==> b == DigitByte(DigitOf(b))
    ensures forall d: nat | d < 10 :: IsDigit(DigitByte(d)) && DigitOf(DigitByte(d)) == d
  {}

  lemma {:induction false} WrittenReads(n: nat)
    ensures AllDigits(Written(n)) && Decimal(Written(n)) == n
  {
    DigitsAre(0);
    hide IsDigit, DigitOf, DigitByte;
    var d := n % 10;
    if n < 10 {
      assert Written(n) == [DigitByte(n)] && Written(n)[..0] == [];
      EmptyDecimal();
    } else {
      WrittenReads(n / 10);
      assert Written(n)[..|Written(n)| - 1] == Written(n / 10);
    }
  }

  /** An eight-bit number is read as it is written, and a larger one is refused. */
  lemma DecimalRoundTrip(n: nat)
    ensures DecimalU8(Written(n)) == if n <= 255 then Some(n) else None
  {
    WrittenReads(n);
    hide IsDigit, Decimal;
  }

  /** The characters that a sign is written with. */
  function SignText(negative: bool, plus: bool): seq<byte> {
    if negative then ['-' as int as byte] else if plus then ['+' as int as byte] else []
  }

  /**
   * A signed number, with a minus, a plus or nothing before its digits and no
   * digit after them, is read as it is written, if it fits eight bits.
   */
  lemma SignedRoundTrip(n: nat, negative: bool, plus: bool, rest: seq<byte>)
    requires rest != [] ==> !('0' as int <= rest[0] as int <= '9' as int)
    ensures var value: int, text := if negative then 0 - n else n, SignText(negative, plus) + Written(n);
      LeadingI8(text + rest) == if -128 <= value <= 127 then Some((value, |text|)) else None
  {
    hide IsDigit, Decimal, Written, DigitRun, SignOf, SignText, DigitOf;
    var sign, digits := SignText(negative, plus), Written(n);
    WrittenReads(n);
    NoSign(digits[0]);
    assert sign + digits + rest == sign + (digits + rest);
    SignIs(negative, plus, digits + rest);
    DigitsThen(digits, rest);
    AfterSign(sign, digits + rest);
    AfterSign(digits, rest);
  }

  lemma AfterSign(sign: seq<byte>, rest: seq<byte>)
    ensures (sign + rest)[|sign|..] == rest && (sign + rest)[..|sign|] == sign
  {}

  lemma DigitsThen(digits: seq<byte>, rest: seq<byte>)
    requires digits != [] && AllDigits(digits) && (rest != [] ==> !('0' as int <= rest[0] as int <= '9' as int))
    ensures DigitRun(digits + rest) == |digits| && (digits + rest)[0] == digits[0]
  {
    if rest != [] { DigitsAre(rest[0]); }
    AfterSign(digits, rest);
    hide IsDigit, DigitRun;
    RunIs(digits + rest, |digits|);
  }

  lemma NoSign(b: byte)
    ensures IsDigit(b) ==> b != '-' as int as byte && b != '+' as int as byte
  {}

  lemma SignIs(negative: bool, plus: bool, digits: seq<byte>)
    requires digits != [] && digits[0] != '-' as int as byte && digits[0] != '+' as int as byte
    ensures var sign := SignOf(SignText(negative, plus) + digits);
      sign.negative == negative && sign.length == |SignText(negative, plus)|
  {
    assert [] + digits == digits;
  }

  // ----- hexadecimal ----------------------------------------------------------------------

  /** The byte is a character for this hexadecimal digit, in either case. */
  predicate IsHexDigit(b: byte, n: byte) {
    if n < 10 then b == ('0' as int as byte) + n
    else n < 16 && (b == ('a' as int as byte) + n - 10 || b == ('A' as int as byte) + n - 10)
  }

  lemma NibbleIff(b: byte, n: byte)
    ensures HexNibble(b) == Some(n) <==> IsHexDigit(b, n)
    ensures HexNibble(b).Some? ==> HexNibble(b).value < 16
  {
    assert '0' as int as byte == 0x30 && 'a' as int as byte == 0x61 && 'A' as int as byte == 0x41;
  }

  /** An octet is read exactly from its two digits, the high one first. */
  lemma OctetIff(s: seq<byte>, at: nat, octet: byte)
    ensures OctetAt(s, at) == Some(octet) <==>
      at + 1 < |s| && IsHexDigit(s[at], octet >> 4) && IsHexDigit(s[at + 1], octet & 15)
  {
    hide HexNibble, IsHexDigit;
    if at + 1 < |s| {
      NibbleIff(s[at], octet >> 4);
      NibbleIff(s[at + 1], octet & 15);
      if HexNibble(s[at]).Some? && HexNibble(s[at + 1]).Some? {
        Composed(HexNibble(s[at]).value, HexNibble(s[at + 1]).value, octet);
      }
    }
  }

  lemma Composed(high: byte, low: byte, octet: byte)
    requires high < 16 && low < 16
    ensures (high << 4) | low == octet <==> high == octet >> 4 && low == octet & 15
  {}
}
