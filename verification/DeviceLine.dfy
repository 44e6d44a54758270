/**
 * One line of a scan transcript: what a device line says, and how it is read.
 * Text is bytes; the number parsers are loops with checked arithmetic.
 */
module DeviceLine {
  import opened UsbTypes
  import opened ScanResponse

  const SPACE: byte := 0x20
  const PLUS: byte := 0x2b
  const MINUS: byte := 0x2d
  const COLON: byte := 0x3a
  const PAREN: byte := 0x28
  const OPEN: byte := 0x5b
  const CLOSE: byte := 0x5d

  /** The words SCANNING..., SCAN COMPLETE, ERROR, Device: and RSSI: as the firmware prints them. */
  const SCANNING: seq<byte> := [0x53, 0x43, 0x41, 0x4e, 0x4e, 0x49, 0x4e, 0x47, 0x2e, 0x2e, 0x2e]
  const COMPLETE: seq<byte> := [0x53, 0x43, 0x41, 0x4e, 0x20, 0x43, 0x4f, 0x4d, 0x50, 0x4c, 0x45, 0x54, 0x45]
  const ERROR: seq<byte> := [0x45, 0x52, 0x52, 0x4f, 0x52]
  const DEVICE: seq<byte> := [0x20, 0x44, 0x65, 0x76, 0x69, 0x63, 0x65, 0x3a, 0x20]
  const RSSI: seq<byte> := [0x52, 0x53, 0x53, 0x49, 0x3a]

  datatype ScanResult = ScanResult(index: nat, addressType: nat, address: seq<byte>, rssi: int)

  // ----- decimal numbers ------------------------------------------------------------------

  predicate IsDigit(b: byte) { 0x30 <= b <= 0x39 }

  function DigitOf(b: byte): (d: nat)
    requires IsDigit(b)
    ensures d < 10
  {
    (b - 0x30) as nat
  }

  predicate AllDigits(s: seq<byte>) { forall i | 0 <= i < |s| :: IsDigit(s[i]) }

  function Decimal(s: seq<byte>): nat
    requires AllDigits(s)
  {
    if s == [] then 0 else 10 * Decimal(s[..|s| - 1]) + DigitOf(s[|s| - 1])
  }

  /** A number never gets smaller by more digits. */
  lemma {:induction false} DecimalGrows(s: seq<byte>, n: nat)
    requires AllDigits(s) && n <= |s|
    ensures Decimal(s) >= Decimal(s[..n])
    decreases |s|
  {
    hide IsDigit, DigitOf;
    if n < |s| {
      DecimalGrows(s[..|s| - 1], n);
      assert s[..|s| - 1][..n] == s[..n];
    } else {
      assert s[..n] == s;
    }
  }

  lemma DecimalNext(s: seq<byte>, n: nat)
    requires n < |s| && AllDigits(s[..n]) && IsDigit(s[n])
    ensures AllDigits(s[..n + 1]) && Decimal(s[..n + 1]) == 10 * Decimal(s[..n]) + DigitOf(s[n])
  {
    hide IsDigit, DigitOf;
    assert s[..n + 1][..n] == s[..n];
  }

  /** A nonempty digit string that fits eight bits. */
  function DecimalU8(bytes: seq<byte>): Option<nat> {
    if bytes != [] && AllDigits(bytes) && Decimal(bytes) <= 255 then Some(Decimal(bytes)) else None
  }

  method ParseDecimalU8(bytes: seq<byte>) returns (result: Option<nat>)
    ensures result == DecimalU8(bytes)
  {
    hide IsDigit, DigitOf, Decimal;
    if bytes == [] {
      return None;
    }
    assert Decimal([]) == 0 by { EmptyDecimal(); }
    var value: nat := 0;
    for index := 0 to |bytes|
      invariant AllDigits(bytes[..index]) && value == Decimal(bytes[..index]) <= 255
    {
      var b := bytes[index];
      if !IsDigit(b) {
        return None;
      }
      DecimalNext(bytes, index);
      if AllDigits(bytes) {
        DecimalGrows(bytes, index + 1);
      }
      if value * 10 > 255 || value * 10 + DigitOf(b) > 255 {
        return None;
      }
      value := value * 10 + DigitOf(b);
    }
    assert bytes[..|bytes|] == bytes;
    return Some(value);
  }

  lemma EmptyDecimal()
    ensures Decimal([]) == 0
  {}

  /** How many digits a text starts with. */
  function DigitRun(s: seq<byte>): (n: nat)
    ensures n <= |s| && AllDigits(s[..n]) && (n < |s| ==> !IsDigit(s[n]))
  {
    if s == [] || !IsDigit(s[0]) then 0 else DigitRun(s[1..]) + 1
  }

  lemma {:induction false} RunIs(s: seq<byte>, n: nat)
    requires n <= |s| && AllDigits(s[..n]) && (n < |s| ==> !IsDigit(s[n]))
    ensures DigitRun(s) == n
  {
    hide IsDigit;
    assert forall i | 0 <= i < n :: s[i] == s[..n][i];
    var m := DigitRun(s);
    assert forall i | 0 <= i < m :: s[i] == s[..m][i];
  }

  datatype Sign = Sign(negative: bool, length: nat)

  function SignOf(s: seq<byte>): (sign: Sign)
    ensures sign.length <= 1 && sign.length <= |s|
  {
    if s != [] && s[0] == MINUS then Sign(true, 1)
    else if s != [] && s[0] == PLUS then Sign(false, 1)
    else Sign(false, 0)
  }

  function Signed(negative: bool, magnitude: nat): int { if negative then 0 - magnitude as int else magnitude as int }

  /** The signed number that a text starts with, if it fits eight bits, and how many bytes it takes. */
  function LeadingI8(s: seq<byte>): Option<(int, nat)> {
    var sign := SignOf(s);
    var digits := s[sign.length..];
    var n := DigitRun(digits);
    if n == 0 then None
    else
      var value := Signed(sign.negative, Decimal(digits[..n]));
      if -128 <= value <= 127 then Some((value, sign.length + n)) else None
  }

  /** The digits are added up in sixteen bits; what overflows them does not fit eight either. */
  method ParseLeadingI8(bytes: seq<byte>) returns (result: Option<(int, nat)>)
    ensures result == LeadingI8(bytes)
  {
    hide IsDigit, DigitOf, Decimal;
    if bytes == [] {
      return None;
    }
    var sign := SignOf(bytes);
    var digits := bytes[sign.length..];
    ghost var run := DigitRun(digits);
    assert Decimal([]) == 0 by { EmptyDecimal(); }
    var value: nat, count: nat := 0, 0;
    while count < |digits| && IsDigit(digits[count])
      invariant count <= run && AllDigits(digits[..count]) && value == Decimal(digits[..count]) <= 0x7fff
    {
      RunGoesOn(digits, count);
      DecimalNext(digits, count);
      DecimalGrows(digits[..run], count + 1);
      assert digits[..run][..count + 1] == digits[..count + 1];
      if value * 10 > 0x7fff || value * 10 + DigitOf(digits[count]) > 0x7fff {
        return None;
      }
      value := value * 10 + DigitOf(digits[count]);
      count := count + 1;
    }
    RunIs(digits, count);
    if count == 0 {
      return None;
    }
    var signed := Signed(sign.negative, value);
    return if -128 <= signed <= 127 then Some((signed, sign.length + count)) else None;
  }

  lemma RunGoesOn(s: seq<byte>, n: nat)
    requires n < |s| && n <= DigitRun(s) && IsDigit(s[n])
    ensures n < DigitRun(s)
  {}

  // ----- spaces, positions, addresses -----------------------------------------------------

  function Trim(s: seq<byte>): (rest: seq<byte>)
    ensures |rest| <= |s|
  {
    if s != [] && s[0] == SPACE then Trim(s[1..]) else s
  }

  method TrimSpaces(bytes: seq<byte>) returns (rest: seq<byte>)
    ensures rest == Trim(bytes)
  {
    rest := bytes;
    while rest != [] && rest[0] == SPACE
      invariant Trim(rest) == Trim(bytes)
      decreases |rest|
    {
      rest := rest[1..];
    }
  }

  predicate Spaces(s: seq<byte>) { s != [] && forall i | 0 <= i < |s| :: s[i] == SPACE }

  lemma {:induction false} TrimGap(gap: seq<byte>, rest: seq<byte>)
    requires (forall i | 0 <= i < |gap| :: gap[i] == SPACE) && rest != [] && rest[0] != SPACE
    ensures Trim(gap + rest) == rest
  {
    if gap == [] {
      assert gap + rest == rest;
    } else {
      assert (gap + rest)[1..] == gap[1..] + rest;
      TrimGap(gap[1..], rest);
    }
  }

  lemma {:induction false} TrimSplits(s: seq<byte>)
    ensures var gap := s[..|s| - |Trim(s)|];
      s == gap + Trim(s) && forall i | 0 <= i < |gap| :: gap[i] == SPACE
    ensures s != [] && s[0] == SPACE ==> |Trim(s)| < |s|
    ensures Trim(s) != [] ==> Trim(s)[0] != SPACE
  {
    if s != [] && s[0] == SPACE {
      TrimSplits(s[1..]);
      assert s == [SPACE] + s[1..];
    }
  }

  /** Where a byte occurs first. */
  function Position(s: seq<byte>, b: byte): (at: Option<nat>)
    ensures at.Some? ==> at.value < |s| && s[at.value] == b && b !in s[..at.value]
    ensures at.None? ==> b !in s
  {
    if s == [] then None
    else if s[0] == b then Some(0)
    else
      var at := Position(s[1..], b);
      if at.Some? then Some(at.value + 1) else None
  }

  lemma NotBefore(s: seq<byte>, b: byte, n: nat)
    requires n <= |s| && b !in s[..n]
    ensures forall i | 0 <= i < n :: s[i] != b
  {
    forall i | 0 <= i < n ensures s[i] != b {
      assert s[..n][i] == s[i];
    }
  }

  lemma PositionIs(s: seq<byte>, b: byte, n: nat)
    requires n < |s| && s[n] == b && b !in s[..n]
    ensures Position(s, b) == Some(n)
  {
    NotBefore(s, b, n);
    if Position(s, b).Some? {
      NotBefore(s, b, Position(s, b).value);
    }
  }

  function HexNibble(b: byte): Option<byte> {
    if 0x30 <= b <= 0x39 then Some(b - 0x30)
    else if 0x61 <= b <= 0x66 then Some(b - 0x61 + 10)
    else if 0x41 <= b <= 0x46 then Some(b - 0x41 + 10)
    else None
  }

  /** The octet that two hexadecimal digits say. */
  function OctetAt(s: seq<byte>, at: nat): Option<byte> {
    if at + 1 >= |s| || HexNibble(s[at]).None? || HexNibble(s[at + 1]).None? then None
    else Some((HexNibble(s[at]).value << 4) | HexNibble(s[at + 1]).value)
  }

  /** The first octets of an address, with the colon that follows each but the last. */
  function Octets(s: seq<byte>, count: nat): Option<seq<byte>>
    requires count <= 6
  {
    if count == 0 then Some([])
    else
      var before, octet := Octets(s, count - 1), OctetAt(s, 3 * count - 3);
      if before.None? || octet.None? then None
      else if count < 6 && (3 * count - 1 >= |s| || s[3 * count - 1] != COLON) then None
      else Some(before.value + [octet.value])
  }

  lemma {:induction false} NoOctetsStay(s: seq<byte>, count: nat, more: nat)
    requires count <= more <= 6 && Octets(s, count).None?
    ensures Octets(s, more).None?
  {
    hide OctetAt;
    if count < more {
      NoOctetsStay(s, count, more - 1);
    }
  }

  /** One octet more: two digits, and the colon after each octet but the last. */
  lemma OctetsNext(s: seq<byte>, count: nat, before: seq<byte>)
    requires count < 6 && Octets(s, count) == Some(before)
    ensures Octets(s, count + 1) ==
      if OctetAt(s, 3 * count).None? || (count < 5 && (3 * count + 2 >= |s| || s[3 * count + 2] != COLON)) then None
      else Some(before + [OctetAt(s, 3 * count).value])
    ensures Octets(s, count + 1).None? ==> Octets(s, 6).None?
  {
    hide OctetAt;
    if Octets(s, count + 1).None? {
      NoOctetsStay(s, count + 1, 6);
    }
  }

  /** The octet at a position, one digit after the other. */
  method ParseOctet(line: seq<byte>, at: nat) returns (octet: Option<byte>)
    ensures octet == OctetAt(line, at)
  {
    hide HexNibble;
    if at >= |line| || HexNibble(line[at]).None? {
      return None;
    }
    if at + 1 >= |line| || HexNibble(line[at + 1]).None? {
      return None;
    }
    return Some((HexNibble(line[at]).value << 4) | HexNibble(line[at + 1]).value);
  }

  method ParseAddress(line: seq<byte>) returns (address: Option<seq<byte>>)
    ensures address == Octets(line, 6)
  {
    var octets: seq<byte> := [];
    var cursor, count := 0, 0;
    assert Octets(line, 0) == Some(octets);
    hide Octets, OctetAt;
    while count < 6
      invariant 0 <= count <= 6 && cursor == (if count < 6 then 3 * count else 17)
      invariant Octets(line, count) == Some(octets)
    {
      OctetsNext(line, count, octets);
      var octet := ParseOctet(line, cursor);
      if octet.None? {
        return None;
      }
      octets := octets + [octet.value];
      cursor := cursor + 2;
      if count + 1 != 6 {
        if cursor >= |line| || line[cursor] != COLON {
          return None;
        }
        cursor := cursor + 1;
      }
      count := count + 1;
    }
    return Some(octets);
  }

  /** Six octets of two hexadecimal digits each, with colons between them. */
  ghost predicate AddressText(text: seq<byte>, address: seq<byte>) {
    && |text| == 17 && |address| == 6
    && (forall i | 0 <= i < 6 :: OctetAt(text, 3 * i) == Some(address[i]))
    && (forall i | 0 <= i < 5 :: text[3 * i + 2] == COLON)
  }

  ghost predicate OctetsText(s: seq<byte>, count: nat, address: seq<byte>) {
    && |address| == count <= 6
    && (forall i | 0 <= i < count :: OctetAt(s, 3 * i) == Some(address[i]))
    && (forall i | 0 <= i < count && i < 5 :: 3 * i + 2 < |s| && s[3 * i + 2] == COLON)
  }

  lemma {:induction false} OctetsIff(s: seq<byte>, count: nat, address: seq<byte>)
    requires count <= 6
    ensures Octets(s, count) == Some(address) <==> OctetsText(s, count, address)
  {
    OctetsLength(s, count);
    if |address| == count {
      hide OctetAt;
      if count == 0 {
        assert address == [];
      } else {
        var before := address[..count - 1];
        OctetsIff(s, count - 1, before);
        OctetsMore(s, count, address);
        hide OctetsText;
        assert address == before + [address[count - 1]];
        if Octets(s, count).Some? {
          LastApart(Octets(s, count - 1).value, OctetAt(s, 3 * count - 3).value, address);
        }
      }
    }
  }

  lemma LastApart<T>(s: seq<T>, x: T, t: seq<T>)
    ensures s + [x] == t <==> t != [] && s == t[..|t| - 1] && x == t[|t| - 1]
  {
    if t != [] {
      assert t == t[..|t| - 1] + [t[|t| - 1]];
    }
    assert (s + [x])[..|s|] == s;
  }

  lemma {:induction false} OctetsLength(s: seq<byte>, count: nat)
    requires count <= 6
    ensures Octets(s, count).Some? ==> |Octets(s, count).value| == count
  {
    hide OctetAt;
    if count > 0 {
      OctetsLength(s, count - 1);
    }
  }

  lemma OctetsMore(s: seq<byte>, count: nat, address: seq<byte>)
    requires 0 < count <= 6
    ensures OctetsText(s, count, address) <==>
      && |address| == count && OctetsText(s, count - 1, address[..count - 1])
      && OctetAt(s, 3 * count - 3) == Some(address[count - 1])
      && (count < 6 ==> 3 * count - 1 < |s| && s[3 * count - 1] == COLON)
  {
    hide OctetAt;
    if |address| == count {
      var before := address[..count - 1];
      assert forall i | 0 <= i < count - 1 :: before[i] == address[i];
      assert 3 * (count - 1) == 3 * count - 3 && 3 * (count - 1) + 2 == 3 * count - 1;
      if OctetsText(s, count, address) {
        assert OctetAt(s, 3 * (count - 1)) == Some(address[count - 1]);
        assert count < 6 ==> s[3 * (count - 1) + 2] == COLON;
      }
    }
  }

  /** An address is read exactly where one is written. */
  lemma AddressIff(s: seq<byte>, address: seq<byte>)
    ensures Octets(s, 6) == Some(address) <==> |s| >= 17 && AddressText(s[..17], address)
  {
    OctetsIff(s, 6, address);
    hide Octets, HexNibble;
    if OctetsText(s, 6, address) {
      assert OctetAt(s, 3 * 5).Some?;
    }
    if |s| >= 17 {
      var text := s[..17];
      forall i | 0 <= i < 6 ensures OctetAt(text, 3 * i) == OctetAt(s, 3 * i) {
        assert text[3 * i] == s[3 * i] && text[3 * i + 1] == s[3 * i + 1];
      }
      hide OctetAt;
      forall i | 0 <= i < 5 ensures text[3 * i + 2] == s[3 * i + 2] {}
    }
  }

  // ----- the signal strength --------------------------------------------------------------

  /** A signed decimal number. */
  ghost predicate SignedText(text: seq<byte>, value: int) {
    var sign := SignOf(text);
    var digits := text[sign.length..];
    digits != [] && AllDigits(digits) && value == Signed(sign.negative, Decimal(digits))
  }

  /** What may follow the signal strength. */
  predicate Ends(suffix: seq<byte>) { suffix == [] || suffix[0] == SPACE || suffix[0] == PAREN || suffix[0] == OPEN }

  function RssiOf(s: seq<byte>): Option<int> {
    if s == [] || s[0] != SPACE then None
    else
      var named := Trim(s);
      if !(RSSI <= named) then None
      else
        var rest := named[|RSSI|..];
        if rest == [] || rest[0] != SPACE then None
        else
          var number := Trim(rest);
          match LeadingI8(number)
          case None => None
          case Some((value, length)) =>
            if length <= |number| && Ends(number[length..]) then Some(value) else None
  }

  method ParseRssi(bytes: seq<byte>) returns (rssi: Option<int>)
    ensures rssi == RssiOf(bytes)
  {
    hide LeadingI8, Trim;
    if bytes == [] || bytes[0] != SPACE {
      return None;
    }
    var named := TrimSpaces(bytes);
    if !(RSSI <= named) {
      return None;
    }
    var rest := named[|RSSI|..];
    if rest == [] || rest[0] != SPACE {
      return None;
    }
    var number := TrimSpaces(rest);
    var parsed := ParseLeadingI8(number);
    if parsed.None? {
      return None;
    }
    LeadingFits(number);
    var suffix := number[parsed.value.1..];
    if suffix != [] && suffix[0] != SPACE && suffix[0] != PAREN && suffix[0] != OPEN {
      return None;
    }
    return Some(parsed.value.0);
  }

  lemma LeadingFits(s: seq<byte>)
    ensures LeadingI8(s).Some? ==> LeadingI8(s).value.1 <= |s|
  {
    hide Decimal;
  }

  /** Spaces, the name, spaces, and a number of eight bits that nothing but a space or a bracket follows. */
  ghost predicate RssiText(s: seq<byte>, rssi: int) {
    -128 <= rssi <= 127
    && exists gap, gap', number, suffix ::
         && s == gap + RSSI + gap' + number + suffix
         && Spaces(gap) && Spaces(gap') && SignedText(number, rssi) && Ends(suffix)
  }

  /** The number that a text starts with is read exactly where one is written before an end. */
  lemma LeadingIff(s: seq<byte>, value: int, length: nat)
    requires length <= |s| && Ends(s[length..])
    ensures LeadingI8(s) == Some((value, length)) <==> -128 <= value <= 127 && SignedText(s[..length], value)
  {
    hide Decimal;
    var sign := SignOf(s);
    var digits := s[sign.length..];
    var n := DigitRun(digits);
    var text := s[..length];
    if length > 0 {
      assert text[0] == s[0] && SignOf(text) == sign;
      if sign.length <= length {
        assert text[sign.length..] == digits[..length - sign.length];
        if SignedText(text, value) {
          assert length < |s| ==> s[length..][0] == s[length] && digits[length - sign.length] == s[length];
          RunIs(digits, length - sign.length);
        }
      }
    } else {
      assert text == [];
    }
  }

  lemma NumberStarts(number: seq<byte>, value: int)
    requires SignedText(number, value)
    ensures number != [] && number[0] != SPACE
  {
    hide Decimal;
  }

  lemma Pieces<T>(a: seq<T>, b: seq<T>, c: seq<T>, d: seq<T>, e: seq<T>)
    ensures a + b + c + d + e == a + (b + (c + (d + e)))
  {}

  lemma Tail<T>(a: seq<T>, b: seq<T>)
    ensures (a + b)[|a|..] == b && (a + b)[..|a|] == a
  {}

  lemma RssiIsRead(s: seq<byte>, gap: seq<byte>, gap': seq<byte>, number: seq<byte>, suffix: seq<byte>, rssi: int)
    requires -128 <= rssi <= 127 && s == gap + RSSI + gap' + number + suffix
    requires Spaces(gap) && Spaces(gap') && SignedText(number, rssi) && Ends(suffix)
    ensures RssiOf(s) == Some(rssi)
  {
    hide LeadingI8;
    var text := number + suffix;
    var rest := gap' + text;
    var named := RSSI + rest;
    Pieces(gap, RSSI, gap', number, suffix);
    assert s == gap + named;
    NumberStarts(number, rssi);
    hide SignedText, Trim;
    assert s[0] == gap[0] && rest[0] == gap'[0] && named[0] == RSSI[0] && text[0] == number[0];
    TrimGap(gap, named);
    Tail(RSSI, rest);
    TrimGap(gap', text);
    Tail(number, suffix);
    LeadingIff(text, rssi, |number|);
  }

  lemma NumberIsWritten(rest: seq<byte>, rssi: int) returns (gap: seq<byte>, number: seq<byte>, suffix: seq<byte>)
    requires rest != [] && rest[0] == SPACE
    requires LeadingI8(Trim(rest)).Some? && LeadingI8(Trim(rest)).value.0 == rssi
    requires Ends(Trim(rest)[LeadingLength(Trim(rest))..])
    ensures rest == gap + (number + suffix) && Spaces(gap) && Ends(suffix)
    ensures SignedText(number, rssi) && -128 <= rssi <= 127
  {
    hide LeadingI8, Trim, Ends;
    GapIsSpaces(rest);
    var text, length := Trim(rest), LeadingLength(Trim(rest));
    gap, number, suffix := rest[..|rest| - |text|], text[..length], text[length..];
    LeadingIff(text, rssi, length);
    hide SignedText, Spaces;
    assert text == number + suffix;
  }

  /** How much of a text the number at its start takes. */
  function LeadingLength(s: seq<byte>): (n: nat)
    requires LeadingI8(s).Some?
    ensures n <= |s|
  {
    LeadingFits(s);
    LeadingI8(s).value.1
  }

  lemma RssiIsWritten(s: seq<byte>, rssi: int)
    requires RssiOf(s) == Some(rssi)
    ensures RssiText(s, rssi)
  {
    hide LeadingI8, Trim, Ends;
    var named := Trim(s);
    var gap, rest := s[..|s| - |named|], named[|RSSI|..];
    GapIsSpaces(s);
    var gap', number, suffix := NumberIsWritten(rest, rssi);
    hide RssiOf, SignedText, Spaces;
    assert named == RSSI + rest;
    Pieces(gap, RSSI, gap', number, suffix);
    assert s == gap + RSSI + gap' + number + suffix;
  }

  lemma GapIsSpaces(s: seq<byte>)
    requires s != [] && s[0] == SPACE
    ensures Spaces(s[..|s| - |Trim(s)|]) && s == s[..|s| - |Trim(s)|] + Trim(s)
  {
    TrimSplits(s);
    hide Trim;
  }

  lemma RssiIff(s: seq<byte>, rssi: int)
    ensures RssiOf(s) == Some(rssi) <==> RssiText(s, rssi)
  {
    hide RssiOf, SignedText, Ends;
    if RssiOf(s) == Some(rssi) {
      RssiIsWritten(s, rssi);
    }
    if RssiText(s, rssi) {
      var gap, gap', number, suffix :|
        && s == gap + RSSI + gap' + number + suffix
        && Spaces(gap) && Spaces(gap') && SignedText(number, rssi) && Ends(suffix);
      RssiIsRead(s, gap, gap', number, suffix, rssi);
    }
  }

  // ----- a device line --------------------------------------------------------------------

  function DeviceOf(index: seq<byte>, line: seq<byte>): Option<ScanResult> {
    if !(1 <= |index| <= 3) || DecimalU8(index).None? then None
    else if line == [] || line[0] != OPEN || Position(line, CLOSE) != Some(2) then None
    else
      var addressType, address := DecimalU8(line[1..2]), Octets(line[3..], 6);
      if addressType.None? || addressType.value > 1 || address.None? || |line| < 20 then None
      else
        var rssi := RssiOf(line[20..]);
        if rssi.None? then None
        else Some(ScanResult(DecimalU8(index).value, addressType.value, address.value, rssi.value))
  }

  method ParseDeviceLine(index: seq<byte>, line: seq<byte>) returns (device: Option<ScanResult>)
    ensures device == DeviceOf(index, line)
  {
    hide DecimalU8, Octets, RssiOf;
    if !(1 <= |index| <= 3) {
      return None;
    }
    var number := ParseDecimalU8(index);
    if number.None? || line == [] || line[0] != OPEN {
      return None;
    }
    var addressTypeEnd := Position(line, CLOSE);
    if addressTypeEnd.None? || addressTypeEnd.value != 2 {
      return None;
    }
    var addressType := ParseDecimalU8(line[1..2]);
    if addressType.None? || addressType.value > 1 {
      return None;
    }
    var address := ParseAddress(line[3..]);
    if address.None? {
      return None;
    }
    if address.Some? {
      AddressIff(line[3..], address.value);
    }
    var rssi := ParseRssi(line[20..]);
    if rssi.None? {
      return None;
    }
    return Some(ScanResult(number.value, addressType.value, address.value, rssi.value));
  }

  /** An address type in brackets, an address, and the signal strength. */
  ghost predicate DeviceText(index: seq<byte>, line: seq<byte>, r: ScanResult) {
    && 1 <= |index| <= 3 && DecimalU8(index) == Some(r.index) && r.addressType <= 1
    && exists digit, address, tail ::
         && line == [OPEN, digit, CLOSE] + address + tail
         && DecimalU8([digit]) == Some(r.addressType) && AddressText(address, r.address) && RssiText(tail, r.rssi)
  }

  /** What follows the index is read as a device exactly where one is written. */
  lemma DeviceIff(index: seq<byte>, line: seq<byte>, r: ScanResult)
    ensures DeviceOf(index, line) == Some(r) <==> DeviceText(index, line, r)
  {
    hide DecimalU8, Octets, RssiOf, RssiText, AddressText;
    if DeviceOf(index, line) == Some(r) {
      assert |line| >= 20;
      var digit, address, tail := line[1], line[3..20], line[20..];
      AddressIff(line[3..], r.address);
      RssiIff(tail, r.rssi);
      assert line[3..][..17] == address && line[1..2] == [digit];
      assert line == [OPEN, digit, CLOSE] + address + tail;
    }
    if DeviceText(index, line, r) {
      var digit, address, tail :|
        && line == [OPEN, digit, CLOSE] + address + tail
        && DecimalU8([digit]) == Some(r.addressType) && AddressText(address, r.address) && RssiText(tail, r.rssi);
      AddressLength(address, r.address);
      DeviceIsRead(index, line, digit, address, tail, r);
    }
  }

  lemma AddressLength(text: seq<byte>, address: seq<byte>)
    requires AddressText(text, address)
    ensures |text| == 17
  {}

  lemma OneDigit(digit: byte)
    requires DecimalU8([digit]).Some?
    ensures digit != CLOSE
  {
    assert IsDigit([digit][0]);
  }

  lemma DeviceIsRead(index: seq<byte>, line: seq<byte>, digit: byte, address: seq<byte>, tail: seq<byte>, r: ScanResult)
    requires 1 <= |index| <= 3 && DecimalU8(index) == Some(r.index) && r.addressType <= 1
    requires line == [OPEN, digit, CLOSE] + address + tail && |address| == 17
    requires DecimalU8([digit]) == Some(r.addressType) && AddressText(address, r.address) && RssiText(tail, r.rssi)
    ensures DeviceOf(index, line) == Some(r)
  {
    hide DecimalU8, Octets, RssiOf, RssiText, AddressText;
    OneDigit(digit);
    assert line[..2] == [OPEN, digit];
    PositionIs(line, CLOSE, 2);
    assert line[1..2] == [digit] && line[3..] == address + tail && line[20..] == tail;
    Tail(address, tail);
    AddressIff(line[3..], r.address);
    RssiIff(tail, r.rssi);
  }

  /** The index in brackets, the word, and what follows it. */
  ghost predicate Shaped(line: seq<byte>, index: seq<byte>, rest: seq<byte>) {
    CLOSE !in index && line == [OPEN] + index + [CLOSE] + DEVICE + rest
  }

  function Classify(line: seq<byte>): Result<ScanLine<ScanResult>, ScanError> {
    if line == SCANNING then Ok(Scanning)
    else if line == COMPLETE then Ok(EndOfScan)
    else if line == ERROR then Ok(DeviceFailed)
    else if line == [] || line[0] != OPEN || Position(line, CLOSE).None? then Ok(Ignore)
    else
      var end := Position(line, CLOSE).value;
      var after := line[end + 1..];
      if !(DEVICE <= after) || end == 0 then Ok(Ignore)
      else
        var device := DeviceOf(line[1..end], after[|DEVICE|..]);
        if device.Some? then Ok(Found(device.value)) else Err(MalformedDeviceLine)
  }

  /** The words and marks of a transcript, in characters. */
  lemma Words()
    ensures Spells(SCANNING, "SCANNING...") && Spells(COMPLETE, "SCAN COMPLETE") && Spells(ERROR, "ERROR")
    ensures Spells(DEVICE, " Device: ") && Spells(RSSI, "RSSI:")
    ensures Spells([OPEN, CLOSE, COLON, PAREN, SPACE, PLUS, MINUS], "[]:( +-")
  {}

  /** The lines that are no device, in characters. */
  lemma FixedLines(line: seq<byte>)
    ensures Classify(line) == Ok(Scanning) <==> Spells(line, "SCANNING...")
    ensures Classify(line) == Ok(EndOfScan) <==> Spells(line, "SCAN COMPLETE")
    ensures Classify(line) == Ok(DeviceFailed) <==> Spells(line, "ERROR")
  {
    hide DeviceOf, Position, Spells;
    Words();
    SpelledAlike(line, SCANNING, "SCANNING...");
    SpelledAlike(line, COMPLETE, "SCAN COMPLETE");
    SpelledAlike(line, ERROR, "ERROR");
    assert SCANNING[4] != COMPLETE[4];
  }

  lemma SpelledAlike(line: seq<byte>, word: seq<byte>, text: string)
    requires Spells(word, text)
    ensures Spells(line, text) <==> line == word
  {}

  method ClassifyScanLine(line: seq<byte>) returns (result: Result<ScanLine<ScanResult>, ScanError>)
    ensures result == Classify(line)
  {
    hide DeviceOf;
    if line == SCANNING {
      return Ok(Scanning);
    }
    if line == COMPLETE {
      return Ok(EndOfScan);
    }
    if line == ERROR {
      return Ok(DeviceFailed);
    }
    if line == [] || line[0] != OPEN {
      return Ok(Ignore);
    }
    var indexEnd := Position(line, CLOSE);
    if indexEnd.None? {
      return Ok(Ignore);
    }
    assert line[0] != CLOSE && indexEnd.value > 0;
    var afterIndex := line[indexEnd.value + 1..];
    if !(DEVICE <= afterIndex) {
      return Ok(Ignore);
    }
    var device := ParseDeviceLine(line[1..indexEnd.value], afterIndex[|DEVICE|..]);
    return if device.Some? then Ok(Found(device.value)) else Err(MalformedDeviceLine);
  }

  /** A line of the shape of a device line is judged by its fields. */
  lemma ClassifyShaped(line: seq<byte>, index: seq<byte>, rest: seq<byte>)
    requires Shaped(line, index, rest)
    ensures Classify(line) == if DeviceOf(index, rest).Some? then Ok(Found(DeviceOf(index, rest).value))
      else Err(MalformedDeviceLine)
  {
    ShapeIsRead(line, index, rest);
    hide DeviceOf, Position, Shaped;
  }

  /** No other line is a device or malformed. */
  lemma JudgedIsShaped(line: seq<byte>) returns (index: seq<byte>, rest: seq<byte>)
    requires Classify(line).Err? || Classify(line).value.Found?
    ensures Shaped(line, index, rest)
  {
    hide DeviceOf;
    var end := Position(line, CLOSE).value;
    index, rest := line[1..end], line[end + 1..][|DEVICE|..];
    hide Classify, Position;
    NotInside(line, CLOSE, end);
    ShapePieces(line, end, rest);
  }

  lemma NotInside(s: seq<byte>, b: byte, end: nat)
    requires 0 < end <= |s| && b !in s[..end]
    ensures b !in s[1..end]
  {
    assert forall i | 0 <= i < end - 1 :: s[1..end][i] == s[..end][i + 1];
  }

  lemma ShapePieces(line: seq<byte>, end: nat, rest: seq<byte>)
    requires 0 < end < |line| && line[0] == OPEN && line[end] == CLOSE && line[end + 1..] == DEVICE + rest
    ensures line == [OPEN] + line[1..end] + [CLOSE] + DEVICE + rest
  {
    assert line == [line[0]] + line[1..end] + [line[end]] + line[end + 1..];
  }

  lemma ShapeIsRead(line: seq<byte>, index: seq<byte>, rest: seq<byte>)
    requires Shaped(line, index, rest)
    ensures line != [] && line[0] == OPEN && Position(line, CLOSE) == Some(|index| + 1)
    ensures line[1..|index| + 1] == index && DEVICE <= line[|index| + 2..] && line[|index| + 2..][|DEVICE|..] == rest
    ensures line != SCANNING && line != COMPLETE && line != ERROR
  {
    assert line[0] == OPEN;
    var end := |index| + 1;
    assert line[..end] == [OPEN] + index && line[end] == CLOSE;
    PositionIs(line, CLOSE, end);
    assert line[end + 1..] == DEVICE + rest;
    Tail(DEVICE, rest);
  }

  /**
   * Sound and complete: a line is read as a device exactly where one is
   * written, with that index, address type, address and signal strength; it is
   * malformed exactly when it has the shape of a device line but none is
   * written in it.
   */
  lemma DeviceLineIff(line: seq<byte>, r: ScanResult)
    ensures Classify(line) == Ok(Found(r))
      <==> exists index, rest :: Shaped(line, index, rest) && DeviceText(index, rest, r)
    ensures Classify(line).Err? <==>
      (exists index, rest :: Shaped(line, index, rest))
      && forall index, rest, device :: Shaped(line, index, rest) ==> !DeviceText(index, rest, device)
  {
    hide Classify, DeviceOf, DeviceText, Shaped;
    forall index, rest, device
      ensures DeviceOf(index, rest) == Some(device) <==> DeviceText(index, rest, device)
    {
      DeviceIff(index, rest, device);
    }
    forall index, rest | Shaped(line, index, rest)
      ensures Classify(line) == if DeviceOf(index, rest).Some? then Ok(Found(DeviceOf(index, rest).value))
        else Err(MalformedDeviceLine)
    {
      ClassifyShaped(line, index, rest);
    }
    if Classify(line).Err? || Classify(line).value.Found? {
      var index, rest := JudgedIsShaped(line);
      assert Shaped(line, index, rest);
      if DeviceOf(index, rest).Some? {
        assert DeviceText(index, rest, DeviceOf(index, rest).value);
      }
    }
  }
}
