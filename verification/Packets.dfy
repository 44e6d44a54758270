/**
 * Building and parsing the raw bytes of USB packets (section 8.3 and 8.4 of
 * USB 2.0), and how a received IN data packet is classified.
 */
module Packets {
  import opened UsbTypes
  import opened Crc

  datatype PacketError =
    | TooShort | InvalidSync | InvalidPid | InvalidLength
    | InvalidCrc5 | InvalidCrc16 | UnsupportedPid

  datatype ParsedPacket =
    | Handshake(pid: byte)
    | Token(pid: byte, value: bv16)
    | Data(pid: byte, payload: seq<byte>)

  datatype DataPacketError = NotADataPid | PayloadTooLong

  predicate IsHandshakePid(pid: byte) { pid == PID_ACK || pid == PID_NAK || pid == PID_STALL }
  predicate IsTokenPid(pid: byte) { pid == PID_OUT || pid == PID_IN || pid == PID_SETUP || pid == PID_SOF }
  predicate IsDataPid(pid: byte) { pid == PID_DATA0 || pid == PID_DATA1 }

  /** The upper nibble of a packet identifier is the complement of the lower one. */
  predicate ValidPid(pid: byte) {
    pid >> 4 == !pid & 0x0f
  }

  function TokenLow(value: bv16): byte { (value & 0xff) as byte }

  function TokenHigh(value: bv16): byte { (((value >> 8) & 0x07) as byte) | (Crc5(value) << 3) }

  function TokenValue(low: byte, high: byte): bv16 { (low as bv16) | (((high & 0x07) as bv16) << 8) }

  function TokenBytes(pid: byte, value: bv16): seq<byte> {
    [SYNC, pid, TokenLow(value), TokenHigh(value)]
  }

  /** The token packet for a device address and endpoint. */
  function TokenPacket(pid: byte, address: byte, endpoint: byte): seq<byte> {
    TokenBytes(pid, TokenField(address, endpoint))
  }

  function TokenField(address: byte, endpoint: byte): bv16 {
    (((endpoint & 0x0f) as bv16) << 7) | ((address & 0x7f) as bv16)
  }

  function DataBytes(pid: byte, payload: seq<byte>): seq<byte> {
    [SYNC, pid] + WithCrc(payload)
  }

  /** Build a data packet that fits the bounded packet buffer. */
  function NewDataPacket(pid: byte, payload: seq<byte>): Result<seq<byte>, DataPacketError> {
    if !IsDataPid(pid) then Err(NotADataPid)
    else if |payload| > MAX_DECODED_BYTES - 4 then Err(PayloadTooLong)
    else Ok(DataBytes(pid, payload))
  }

  /** Validate and classify decoded packet bytes. */
  function ParsePacket(bytes: seq<byte>): Result<ParsedPacket, PacketError> {
    if |bytes| < 2 then Err(TooShort)
    else if bytes[0] != SYNC then Err(InvalidSync)
    else
      var pid := bytes[1];
      if !ValidPid(pid) then Err(InvalidPid)
      else if IsHandshakePid(pid) then
        if |bytes| != 2 then Err(InvalidLength) else Ok(Handshake(pid))
      else if IsTokenPid(pid) then
        if |bytes| != 4 then Err(InvalidLength)
        else
          var value := TokenValue(bytes[2], bytes[3]);
          if Crc5(value) != bytes[3] >> 3 then Err(InvalidCrc5) else Ok(Token(pid, value))
      else if IsDataPid(pid) then
        if |bytes| < 4 then Err(InvalidLength)
        else
          var payload := bytes[2..|bytes| - 2];
          var received := Join(bytes[|bytes| - 2], bytes[|bytes| - 1]);
          if Crc16(payload) != received then Err(InvalidCrc16) else Ok(Data(pid, payload))
      else Err(UnsupportedPid)
  }

  /**
   * The identifiers by their codes in section 8.3.1, four bits and their
   * complement; what these three kinds leave is not supported.
   */
  lemma IdentifierCodes(pid: byte)
    ensures IsTokenPid(pid) <==> pid in {0xe1, 0x69, 0xa5, 0x2d}
    ensures IsDataPid(pid) <==> pid in {0xc3, 0x4b}
    ensures IsHandshakePid(pid) <==> pid in {0xd2, 0x5a, 0x1e}
    ensures ValidPid(pid) <==> (pid & 0x0f) ^ (pid >> 4) == 0x0f
    ensures PID_OUT == 0xe1 && PID_IN == 0x69 && PID_SOF == 0xa5 && PID_SETUP == 0x2d
    ensures PID_DATA0 == 0xc3 && PID_DATA1 == 0x4b && PID_ACK == 0xd2 && PID_NAK == 0x5a && PID_STALL == 0x1e
    ensures SYNC == 0x80 && LARGEST_PAYLOAD == 100
  {}

  /**
   * Why bytes are no packet: too few of them, no SYNC, no identifier, one
   * that is not supported, or the wrong number of bytes for it; all else is a
   * matter of the CRC.
   */
  lemma ParseErrors(bytes: seq<byte>)
    ensures var p := ParsePacket(bytes);
      && (p == Err(TooShort) <==> |bytes| < 2)
      && (p == Err(InvalidSync) <==> |bytes| >= 2 && bytes[0] != 0x80)
      && (p == Err(InvalidPid) <==>
            |bytes| >= 2 && bytes[0] == 0x80 && (bytes[1] & 0x0f) ^ (bytes[1] >> 4) != 0x0f)
      && (p == Err(UnsupportedPid) <==>
            |bytes| >= 2 && bytes[0] == 0x80 && (bytes[1] & 0x0f) ^ (bytes[1] >> 4) == 0x0f
            && bytes[1] !in {0xd2, 0x5a, 0x1e, 0xe1, 0x69, 0xa5, 0x2d, 0xc3, 0x4b})
      && (p == Err(InvalidLength) <==>
            |bytes| >= 2 && bytes[0] == 0x80
            && ((bytes[1] in {0xd2, 0x5a, 0x1e} && |bytes| != 2)
                || (bytes[1] in {0xe1, 0x69, 0xa5, 0x2d} && |bytes| != 4)
                || (bytes[1] in {0xc3, 0x4b} && |bytes| < 4)))
  {
    hide Crc5, Crc16, Join, TokenValue;
    if |bytes| >= 2 {
      IdentifierCodes(bytes[1]);
      KnownComplements(bytes[1]);
    }
    hide ValidPid, IsTokenPid, IsDataPid, IsHandshakePid;
  }

  lemma KnownComplements(pid: byte)
    ensures pid in {0xd2, 0x5a, 0x1e, 0xe1, 0x69, 0xa5, 0x2d, 0xc3, 0x4b} ==> (pid & 0x0f) ^ (pid >> 4) == 0x0f
  {}

  // ----- parsing is the exact inverse of building --------------------------------

  lemma KnownPidsAreValid(pid: byte)
    requires IsHandshakePid(pid) || IsTokenPid(pid) || IsDataPid(pid)
    ensures ValidPid(pid)
  {}

  /**
   * A data packet is accepted, with this identifier and payload, exactly when
   * its bytes are the ones the builder emits for them.
   */
  lemma ParseIffDataBytes(bytes: seq<byte>, pid: byte, payload: seq<byte>)
    requires IsDataPid(pid)
    ensures ParsePacket(bytes) == Ok(Data(pid, payload)) <==> bytes == DataBytes(pid, payload)
  {
    hide Crc16, Join, Low, High, ValidPid;
    KnownPidsAreValid(pid);
    JoinSplit(Crc16(payload));
    if ParsePacket(bytes) == Ok(Data(pid, payload)) {
      var n := |bytes|;
      SplitJoin(bytes[n - 2], bytes[n - 1]);
      assert bytes == [bytes[0], bytes[1]] + bytes[2..n - 2] + [bytes[n - 2], bytes[n - 1]];
    }
    if bytes == DataBytes(pid, payload) {
      assert bytes[2..|bytes| - 2] == payload;
      assert !IsHandshakePid(pid) && !IsTokenPid(pid);
    }
  }

  lemma TokenByteFacts(value: bv16)
    requires value & 0xf800 == 0
    ensures TokenValue(TokenLow(value), TokenHigh(value)) == value
    ensures Crc5(value) & 0xe0 == 0 ==> TokenHigh(value) >> 3 == Crc5(value)
  {
    hide Crc5;
    TokenBits(value, Crc5(value));
  }

  lemma TokenBits(value: bv16, crc: byte)
    requires value & 0xf800 == 0
    ensures var high := (((value >> 8) & 0x07) as byte) | (crc << 3);
      && ((value & 0xff) as byte as bv16) | (((high & 0x07) as bv16) << 8) == value
      && (crc & 0xe0 == 0 ==> high >> 3 == crc)
  {
    var top := ((value >> 8) & 0x07) as byte;
    assert (top | (crc << 3)) & 0x07 == top by { assert top & 0xf8 == 0; }
  }

  lemma TokenFieldFacts(low: byte, high: byte, crc: byte)
    requires crc == high >> 3
    ensures var value := TokenValue(low, high);
      && value & 0xf800 == 0 && (value & 0xff) as byte == low
      && (((value >> 8) & 0x07) as byte) | (crc << 3) == high
  {}

  lemma {:induction false} Crc5RunIsFiveBits(crc: bv8, token: bv16, bits: nat)
    requires crc & 0xe0 == 0
    ensures Crc5Run(crc, token, bits) & 0xe0 == 0
    decreases bits
  {
    if bits > 0 {
      assert Crc5Step(crc, token) & 0xe0 == 0;
      Crc5RunIsFiveBits(Crc5Step(crc, token), token >> 1, bits - 1);
    }
  }

  lemma Crc5IsFiveBits(token: bv16)
    ensures Crc5(token) & 0xe0 == 0
  {
    Crc5RunIsFiveBits(0x1f, token & 0x7ff, 11);
  }

  /**
   * A data packet is built exactly for a DATA identifier and a payload that
   * fits, within the bounded packet buffer, and parses to what it was built
   * from; and every packet that parses as data within the bound is a built one.
   */
  lemma DataPacketRoundTrip(pid: byte, payload: seq<byte>)
    ensures NewDataPacket(pid, payload).Ok? <==> IsDataPid(pid) && |payload| <= LARGEST_PAYLOAD
    ensures NewDataPacket(pid, payload).Err? ==>
      NewDataPacket(pid, payload).error == if IsDataPid(pid) then PayloadTooLong else NotADataPid
    ensures NewDataPacket(pid, payload).Ok? ==>
      var bytes := NewDataPacket(pid, payload).value;
      |bytes| == |payload| + 4 <= MAX_DECODED_BYTES && ParsePacket(bytes) == Ok(Data(pid, payload))
    ensures forall bytes | |bytes| <= MAX_DECODED_BYTES && ParsePacket(bytes) == Ok(Data(pid, payload)) ::
      NewDataPacket(pid, payload) == Ok(bytes)
  {
    hide ParsePacket;
    assert |DataBytes(pid, payload)| == |payload| + 4 by { WithCrcLength(payload); }
    forall bytes
      ensures ParsePacket(bytes) == Ok(Data(pid, payload)) <==> IsDataPid(pid) && bytes == DataBytes(pid, payload)
    {
      if IsDataPid(pid) {
        ParseIffDataBytes(bytes, pid, payload);
      } else if ParsePacket(bytes) == Ok(Data(pid, payload)) {
        OnlyDataPids(bytes, pid, payload);
      }
    }
    hide DataBytes, IsDataPid;
  }

  lemma OnlyDataPids(bytes: seq<byte>, pid: byte, payload: seq<byte>)
    requires ParsePacket(bytes) == Ok(Data(pid, payload))
    ensures IsDataPid(pid)
  {
    hide Crc5, Crc16, Join, ValidPid, TokenValue;
  }

  /** A token is accepted, with this value, exactly when its bytes are the built ones. */
  lemma ParseIffTokenBytes(bytes: seq<byte>, pid: byte, value: bv16)
    requires IsTokenPid(pid)
    requires value & 0xf800 == 0
    ensures ParsePacket(bytes) == Ok(Token(pid, value)) <==> bytes == TokenBytes(pid, value)
  {
    hide ParsePacket, TokenBytes;
    if ParsePacket(bytes) == Ok(Token(pid, value)) {
      AcceptedTokenIsBuilt(bytes, pid, value);
    }
    if bytes == TokenBytes(pid, value) {
      BuiltTokenIsAccepted(bytes, pid, value);
    }
  }

  lemma AcceptedTokenIsBuilt(bytes: seq<byte>, pid: byte, value: bv16)
    requires IsTokenPid(pid) && ParsePacket(bytes) == Ok(Token(pid, value))
    ensures bytes == TokenBytes(pid, value)
  {
    hide Crc5, ParsePacket, TokenLow, TokenHigh, TokenValue;
    TokenShape(bytes, pid, value);
    ParseFourBytes(bytes, pid);
    TokenParts(bytes[2], bytes[3], value);
    assert bytes == [bytes[0], bytes[1], bytes[2], bytes[3]];
  }

  lemma BuiltTokenIsAccepted(bytes: seq<byte>, pid: byte, value: bv16)
    requires IsTokenPid(pid) && value & 0xf800 == 0 && bytes == TokenBytes(pid, value)
    ensures ParsePacket(bytes) == Ok(Token(pid, value))
  {
    hide Crc5, ParsePacket, TokenLow, TokenHigh, TokenValue;
    ParseFourBytes(bytes, pid);
    Crc5IsFiveBits(value);
    TokenByteFacts(value);
  }

  lemma TokenShape(bytes: seq<byte>, pid: byte, value: bv16)
    requires ParsePacket(bytes) == Ok(Token(pid, value))
    ensures |bytes| == 4 && bytes[0] == SYNC && bytes[1] == pid
  {
    hide Crc5, ValidPid, Crc16, Join, TokenValue;
  }

  lemma ParseFourBytes(bytes: seq<byte>, pid: byte)
    requires IsTokenPid(pid) && |bytes| == 4 && bytes[0] == SYNC && bytes[1] == pid
    ensures var value := TokenValue(bytes[2], bytes[3]);
      ParsePacket(bytes) == if Crc5(value) != bytes[3] >> 3 then Err(InvalidCrc5) else Ok(Token(pid, value))
  {
    hide Crc5, ValidPid, TokenValue;
    KnownPidsAreValid(pid);
    assert !IsHandshakePid(pid);
  }

  lemma TokenParts(low: byte, high: byte, value: bv16)
    requires value == TokenValue(low, high) && Crc5(value) == high >> 3
    ensures TokenLow(value) == low && TokenHigh(value) == high
  {
    var crc := Crc5(value);
    hide Crc5;
    TokenFieldFacts(low, high, crc);
  }

  /** The four bytes of a token, as a device reads them. */
  predicate IsToken(bytes: seq<byte>, pid: byte, address: byte, endpoint: byte) {
    && |bytes| == 4 && bytes[..2] == [0x80, pid]
    && var value := TokenValue(bytes[2], bytes[3]);
    && ParsePacket(bytes) == Ok(Token(pid, value)) && value & 0xf800 == 0
    && (value & 0x7f) as byte == address && (value >> 7) as int == endpoint as int
  }

  /** A token carries its address and endpoint back to the device unchanged. */
  lemma TokenRoundTrip(pid: byte, address: byte, endpoint: byte)
    requires IsTokenPid(pid) && address < 128 && endpoint < 16
    ensures IsToken(TokenPacket(pid, address, endpoint), pid, address, endpoint)
  {
    var value := TokenField(address, endpoint);
    AddressFields(address, endpoint);
    hide TokenField, ParsePacket;
    ParseIffTokenBytes(TokenPacket(pid, address, endpoint), pid, value);
    ReadsBack(value);
    hide TokenLow, TokenHigh, TokenValue;
  }

  lemma ReadsBack(value: bv16)
    requires value & 0xf800 == 0
    ensures TokenValue(TokenLow(value), TokenHigh(value)) == value
  {
    hide Crc5;
    TokenBits(value, Crc5(value));
  }

  lemma AddressFields(address: byte, endpoint: byte)
    requires address < 128 && endpoint < 16
    ensures var value := TokenField(address, endpoint);
      && value & 0xf800 == 0 && (value & 0x7f) as byte == address && (value >> 7) as byte == endpoint
      && value >> 7 < 256
  {}

  // ----- damage on the wire ---------------------------------------------------------

  /** A data packet is valid exactly when its payload and CRC leave the residue. */
  lemma DataIffResidue(bytes: seq<byte>)
    requires |bytes| >= 4 && bytes[0] == SYNC && IsDataPid(bytes[1])
    ensures ParsePacket(bytes).Ok? <==> Register(bytes[2..]) == RESIDUE
    ensures !ParsePacket(bytes).Ok? ==> ParsePacket(bytes) == Err(InvalidCrc16)
    ensures ParsePacket(bytes).Ok? ==> ParsePacket(bytes) == Ok(Data(bytes[1], bytes[2..|bytes| - 2]))
  {
    hide Crc16, Join, Register, ValidPid;
    KnownPidsAreValid(bytes[1]);
    var n := |bytes|;
    var payload := bytes[2..n - 2];
    assert bytes[2..] == payload + [bytes[n - 2], bytes[n - 1]];
    ResidueIffCrc(payload, bytes[n - 2], bytes[n - 1]);
    assert !IsHandshakePid(bytes[1]) && !IsTokenPid(bytes[1]);
  }

  /**
   * A token with one or two damaged bits anywhere after its identifier, or
   * damaged within five consecutive bits, is rejected with the CRC error.
   */
  lemma DamagedTokenIsRejected(bad: seq<byte>, pid: byte, value: bv16)
    requires IsTokenPid(pid) && value & 0xf800 == 0
    requires |bad| == 4 && bad[..2] == TokenBytes(pid, value)[..2]
    requires SmallDamage(Xor(Join(bad[2], bad[3]), Join(TokenLow(value), TokenHigh(value))))
    ensures ParsePacket(bad) == Err(InvalidCrc5)
  {
    var good := TokenBytes(pid, value);
    assert bad[0] == bad[..2][0] == good[..2][0] && bad[1] == bad[..2][1] == good[..2][1];
    assert good[0] == SYNC && good[1] == pid;
    var low, high := TokenLow(value), TokenHigh(value);
    Crc5IsFiveBits(value);
    TokenByteFacts(value);
    TokenCodesDiffer(bad[2], bad[3], low, high, value);
    hide ParsePacket;
    ParseFourBytes(bad, pid);
  }

  /** Small damage never turns the bytes of a token into those of another. */
  lemma TokenCodesDiffer(a: byte, b: byte, low: byte, high: byte, value: bv16)
    requires TokenValue(low, high) == value && CodeBits(high) == Crc5(value)
    requires SmallDamage(Xor(Join(a, b), Join(low, high)))
    ensures Crc5(TokenValue(a, b)) != CodeBits(b)
  {
    hide Crc5, Remainder5, SmallDamage, TokenValue, Join, Xor, Xor8, Field, Code, CodeBits;
    SmallDamageShows(Xor(Join(a, b), Join(low, high)));
    Crc5Difference(TokenValue(a, b), value);
    TokenDifference(a, b, low, high);
  }

  /** The difference of two tokens, field by field. */
  lemma TokenDifference(a: byte, b: byte, c: byte, d: byte)
    ensures Field(Xor(TokenValue(a, b), TokenValue(c, d))) == Field(Xor(Join(a, b), Join(c, d)))
    ensures Xor8(CodeBits(b), CodeBits(d)) == Code(Xor(Join(a, b), Join(c, d)))
  {}

  /**
   * A data packet whose payload and CRC were damaged within sixteen
   * consecutive bits is rejected, whatever the damage and wherever it starts.
   */
  lemma DamagedDataIsRejected(good: seq<byte>, bad: seq<byte>, pid: byte, payload: seq<byte>, from: nat)
    requires IsDataPid(pid)
    requires good == DataBytes(pid, payload)
    requires |bad| == |good| && bad != good && bad[..2] == good[..2]
    requires DifferOnlyWithin(BytesToBits(good[2..]), BytesToBits(bad[2..]), from, 16)
    ensures ParsePacket(bad) == Err(InvalidCrc16)
  {
    hide Register, RegisterBits, WithCrc, ParsePacket;
    ParseIffDataBytes(good, pid, payload);
    assert good[0] == SYNC && good[1] == pid && |good| >= 4 by { WithCrcLength(payload); }
    assert bad[0] == bad[..2][0] && bad[1] == bad[..2][1] && good[0] == good[..2][0] && good[1] == good[..2][1];
    DataIffResidue(good);
    DataIffResidue(bad);
    assert good == good[..2] + good[2..] && bad == bad[..2] + bad[2..];
    if BytesToBits(good[2..]) == BytesToBits(bad[2..]) {
      BytesToBitsInjective(good[2..], bad[2..]);
    }
    BurstIsDetected(BytesToBits(good[2..]), BytesToBits(bad[2..]), from);
    RegisterIsBitwise(good[2..]);
    RegisterIsBitwise(bad[2..]);
  }

  lemma WithCrcLength(payload: seq<byte>)
    ensures |WithCrc(payload)| == |payload| + 2
  {}

  /** The damage of two adjacent bytes lies within sixteen consecutive bits. */
  lemma AdjacentBytesAreOneBurst(a: seq<byte>, b: seq<byte>, k: nat)
    requires |a| == |b| && k + 2 <= |a|
    requires a[..k] == b[..k] && a[k + 2..] == b[k + 2..]
    ensures DifferOnlyWithin(BytesToBits(a), BytesToBits(b), 8 * k, 16)
  {
    assert a == a[..k] + a[k..k + 2] + a[k + 2..] && b == b[..k] + b[k..k + 2] + b[k + 2..];
    BytesToBitsConcat(a[..k] + a[k..k + 2], a[k + 2..]);
    BytesToBitsConcat(b[..k] + b[k..k + 2], b[k + 2..]);
    BytesToBitsConcat(a[..k], a[k..k + 2]);
    BytesToBitsConcat(b[..k], b[k..k + 2]);
    hide BytesToBits;
    Sandwich(BytesToBits(a[..k]), BytesToBits(a[k..k + 2]), BytesToBits(b[k..k + 2]), BytesToBits(a[k + 2..]));
  }

  lemma Sandwich(p: seq<bool>, x: seq<bool>, y: seq<bool>, s: seq<bool>)
    requires |x| == |y|
    ensures DifferOnlyWithin(p + x + s, p + y + s, |p|, |x|)
  {}

  /** Damage confined to two adjacent payload or CRC bytes is always rejected. */
  lemma TwoDamagedBytesAreRejected(pid: byte, payload: seq<byte>, bad: seq<byte>, k: nat)
    requires IsDataPid(pid)
    requires |bad| == |payload| + 4 && bad != DataBytes(pid, payload)
    requires 2 <= k && k + 2 <= |bad|
    requires bad[..k] == DataBytes(pid, payload)[..k] && bad[k + 2..] == DataBytes(pid, payload)[k + 2..]
    ensures ParsePacket(bad) == Err(InvalidCrc16)
  {
    hide WithCrc, ParsePacket;
    var good := DataBytes(pid, payload);
    WithCrcLength(payload);
    assert bad[..2] == bad[..k][..2] && good[..2] == good[..k][..2];
    assert bad[2..][..k - 2] == bad[..k][2..] && good[2..][..k - 2] == good[..k][2..];
    assert bad[2..][k..] == bad[k + 2..] && good[2..][k..] == good[k + 2..];
    AdjacentBytesAreOneBurst(good[2..], bad[2..], k - 2);
    DamagedDataIsRejected(good, bad, pid, payload, 8 * (k - 2));
  }

  // ----- classification of IN data ----------------------------------------------------

  datatype InDataDisposition = Accept | Duplicate | Reject

  /** How a received IN data packet affects the receive state. */
  function ClassifyInData(wireValid: bool, expectedPid: byte, maxExpectedLen: nat, capacity: nat,
                          receivedPid: byte, receivedLen: nat): InDataDisposition {
    if !wireValid || !IsDataPid(expectedPid) || !IsDataPid(receivedPid)
       || maxExpectedLen > capacity || receivedLen > capacity then Reject
    else if receivedPid != expectedPid then Duplicate
    else if receivedLen <= maxExpectedLen then Accept
    else Reject
  }
}
