/** USBTMC bulk messages (section 3 of USBTMC 1.0): commands out, responses in over several packets. */
module Usbtmc {
  import opened UsbTypes
  import opened Packetise

  const HEADER_LEN: nat := 12
  const DEV_DEP_MSG_OUT: byte := 1
  const DEV_DEP_MSG_IN: byte := 2
  const ATTRIBUTE_EOM: byte := 1
  const U32_MAX: nat := 0xffff_ffff

  datatype UsbtmcError = CommandTooLong | InvalidMessage | TagMismatch | ResponseBufferTooSmall | Pipe(error: PipeError)

  // ----- little-endian sizes --------------------------------------------------------------

  function Digit(bit: bool): (d: nat)
    ensures d < 2
  {
    if bit then 1 else 0
  }

  function OneBit(bit: bool, mask: byte): byte { if bit then mask else 0 }

  /** The number with these binary digits, least significant first. */
  function Number(b0: bool, b1: bool, b2: bool, b3: bool, b4: bool, b5: bool, b6: bool, b7: bool): (n: nat)
    ensures n < 256
  {
    Digit(b0) + 2 * (Digit(b1) + 2 * (Digit(b2) + 2 * (Digit(b3)
    + 2 * (Digit(b4) + 2 * (Digit(b5) + 2 * (Digit(b6) + 2 * Digit(b7)))))))
  }

  /** The number that the bits of a byte stand for. */
  function Value(b: byte): (v: nat)
    ensures v < 256
  {
    Number(b & 1 != 0, b & 2 != 0, b & 4 != 0, b & 8 != 0, b & 16 != 0, b & 32 != 0, b & 64 != 0, b & 128 != 0)
  }

  function FromBits(b0: bool, b1: bool, b2: bool, b3: bool, b4: bool, b5: bool, b6: bool, b7: bool): byte {
    OneBit(b0, 1) | OneBit(b1, 2) | OneBit(b2, 4) | OneBit(b3, 8)
    | OneBit(b4, 16) | OneBit(b5, 32) | OneBit(b6, 64) | OneBit(b7, 128)
  }

  predicate IsOdd(n: nat) { n % 2 == 1 }

  /** The byte with the binary digits of a number. */
  function AsByte(v: nat): byte
    requires v < 256
  {
    var a := v / 2; var b := a / 2; var c := b / 2; var d := c / 2; var e := d / 2; var f := e / 2; var g := f / 2;
    FromBits(IsOdd(v), IsOdd(a), IsOdd(b), IsOdd(c), IsOdd(d), IsOdd(e), IsOdd(f), IsOdd(g))
  }

  lemma BitsBack(b0: bool, b1: bool, b2: bool, b3: bool, b4: bool, b5: bool, b6: bool, b7: bool)
    ensures var b := FromBits(b0, b1, b2, b3, b4, b5, b6, b7);
      && (b & 1 != 0 <==> b0) && (b & 2 != 0 <==> b1) && (b & 4 != 0 <==> b2) && (b & 8 != 0 <==> b3)
      && (b & 16 != 0 <==> b4) && (b & 32 != 0 <==> b5) && (b & 64 != 0 <==> b6) && (b & 128 != 0 <==> b7)
  {}

  lemma ValueOfBits(b0: bool, b1: bool, b2: bool, b3: bool, b4: bool, b5: bool, b6: bool, b7: bool)
    ensures Value(FromBits(b0, b1, b2, b3, b4, b5, b6, b7)) == Number(b0, b1, b2, b3, b4, b5, b6, b7)
  {
    hide FromBits, Number;
    BitsBack(b0, b1, b2, b3, b4, b5, b6, b7);
  }

  lemma LowDigit(n: nat)
    ensures n == Digit(IsOdd(n)) + 2 * (n / 2)
  {}

  lemma NumberOfDigits(v: nat, a: nat, b: nat, c: nat, d: nat, e: nat, f: nat, g: nat)
    requires v < 256 && a == v / 2 && b == a / 2 && c == b / 2 && d == c / 2 && e == d / 2 && f == e / 2 && g == f / 2
    ensures Number(IsOdd(v), IsOdd(a), IsOdd(b), IsOdd(c), IsOdd(d), IsOdd(e), IsOdd(f), IsOdd(g)) == v
  {
    hide Digit, IsOdd;
    LowDigit(v); LowDigit(a); LowDigit(b); LowDigit(c); LowDigit(d); LowDigit(e); LowDigit(f); LowDigit(g);
    assert g / 2 == 0;
  }

  lemma ByteValue(v: nat)
    requires v < 256
    ensures Value(AsByte(v)) == v
  {
    hide Value, FromBits, Number, IsOdd;
    var a := v / 2; var b := a / 2; var c := b / 2; var d := c / 2; var e := d / 2; var f := e / 2; var g := f / 2;
    NumberOfDigits(v, a, b, c, d, e, f, g);
    ValueOfBits(IsOdd(v), IsOdd(a), IsOdd(b), IsOdd(c), IsOdd(d), IsOdd(e), IsOdd(f), IsOdd(g));
  }

  function Le32(n: nat): (bytes: seq<byte>)
    ensures |bytes| == 4
  {
    [AsByte(n % 256), AsByte(n / 256 % 256), AsByte(n / 256 / 256 % 256), AsByte(n / 256 / 256 / 256 % 256)]
  }

  function FromLe32(b: seq<byte>): nat
    requires |b| == 4
  {
    Value(b[0]) + 256 * (Value(b[1]) + 256 * (Value(b[2]) + 256 * Value(b[3])))
  }

  lemma LowByte(n: nat)
    ensures n == n % 256 + 256 * (n / 256)
  {}

  lemma TopDigit(n: nat)
    requires n <= U32_MAX
    ensures n / 256 / 256 / 256 < 256
  {}

  lemma Le32RoundTrip(n: nat)
    requires n <= U32_MAX
    ensures FromLe32(Le32(n)) == n
  {
    hide AsByte, Value;
    var a := n / 256;
    var b := a / 256;
    var c := b / 256;
    TopDigit(n);
    LowByte(n);
    LowByte(a);
    LowByte(b);
    ByteValue(n % 256);
    ByteValue(a % 256);
    ByteValue(b % 256);
    ByteValue(c % 256);
    assert c % 256 == c;
    assert Le32(n) == [AsByte(n % 256), AsByte(a % 256), AsByte(b % 256), AsByte(c % 256)];
    FourBytes(AsByte(n % 256), AsByte(a % 256), AsByte(b % 256), AsByte(c % 256));
  }

  lemma FourBytes(p: byte, q: byte, r: byte, s: byte)
    ensures FromLe32([p, q, r, s]) == Value(p) + 256 * (Value(q) + 256 * (Value(r) + 256 * Value(s)))
  {
    hide Value;
  }

  function NextMultipleOf4(n: nat): (m: nat)
    ensures m % 4 == 0 && n <= m < n + 4
  {
    (n + 3) / 4 * 4
  }

  // ----- messages on the wire -------------------------------------------------------------

  function Header(id: byte, tag: byte, reserved: byte, size: nat, attributes: seq<byte>): (h: seq<byte>)
    requires |attributes| == 4
    ensures |h| == HEADER_LEN
  {
    [id, tag, !tag, reserved] + Le32(size) + attributes
  }

  /** A command with the end-of-message bit and zero padding to a multiple of four. */
  function CommandMessage(tag: byte, command: Payload): Payload {
    Header(DEV_DEP_MSG_OUT, tag, 0, |command|, [ATTRIBUTE_EOM, 0, 0, 0])
    + command + Zeros(NextMultipleOf4(|command|) - |command|)
  }

  function Zeros(n: nat): (zeros: seq<byte>)
    ensures |zeros| == n
  {
    seq(n, _ => 0)
  }

  function RequestMessage(tag: byte, capacity: nat): Payload {
    Header(DEV_DEP_MSG_IN, tag, 0, Min(capacity, U32_MAX), [0, 0, 0, 0])
  }

  datatype Parsed = Parsed(id: byte, tag: byte, body: Payload)

  /** How the other side reads a message: identifier, tag with its complement, announced size, body. */
  function ParseMessage(message: Payload): Option<Parsed> {
    if |message| < HEADER_LEN || message[2] != !message[1] then None
    else
      var size := FromLe32(message[4..8]);
      if HEADER_LEN + size > |message| then None
      else Some(Parsed(message[0], message[1], message[HEADER_LEN..HEADER_LEN + size]))
  }

  lemma HeaderFields(id: byte, tag: byte, reserved: byte, size: nat, attributes: seq<byte>, rest: Payload)
    requires |attributes| == 4 && size <= U32_MAX
    ensures var m := Header(id, tag, reserved, size, attributes) + rest;
      && m[0] == id && m[1] == tag && m[2] == !tag && FromLe32(m[4..8]) == size && m[HEADER_LEN..] == rest
  {
    Le32RoundTrip(size);
    var m := Header(id, tag, reserved, size, attributes) + rest;
    assert m[4..8] == Le32(size);
    hide AsByte, Value;
  }

  /** Sizes are little-endian: the first byte counts ones, the last 256 cubed. */
  lemma LittleEndian()
    ensures FromLe32([1, 0, 0, 0]) == 1 && FromLe32([0, 1, 0, 0]) == 0x100
    ensures FromLe32([0, 0, 1, 0]) == 0x1_0000 && FromLe32([0, 0, 0, 1]) == 0x100_0000
  {
    SmallBytes();
    hide FromLe32, Value;
    FourBytes(1, 0, 0, 0);
    FourBytes(0, 1, 0, 0);
    FourBytes(0, 0, 1, 0);
    FourBytes(0, 0, 0, 1);
  }

  lemma SmallBytes()
    ensures Value(0) == 0 && Value(1) == 1
  {}

  /** A request, byte by byte: message 2, the tag and its complement, the size asked for, and no attributes. */
  ghost predicate IsRequest(m: Payload, tag: byte, size: nat) {
    && |m| == 12 && m[0] == 2 && m[1] == tag && m[2] == !tag && m[3] == 0
    && FromLe32(m[4..8]) == size && m[8] == 0 && m[9] == 0 && m[10] == 0 && m[11] == 0
  }

  lemma RequestIsRequest(tag: byte, capacity: nat)
    ensures IsRequest(RequestMessage(tag, capacity), tag, if capacity <= 0xffff_ffff then capacity else 0xffff_ffff)
  {
    var size := Min(capacity, U32_MAX);
    HeaderFields(DEV_DEP_MSG_IN, tag, 0, size, [0, 0, 0, 0], []);
    HeaderRest(DEV_DEP_MSG_IN, tag, 0, size, [0, 0, 0, 0]);
    hide Header, FromLe32;
    assert RequestMessage(tag, capacity) + [] == RequestMessage(tag, capacity);
  }

  lemma HeaderRest(id: byte, tag: byte, reserved: byte, size: nat, attributes: seq<byte>)
    requires |attributes| == 4
    ensures var m := Header(id, tag, reserved, size, attributes);
      && m[3] == reserved && m[8] == attributes[0] && m[9] == attributes[1]
      && m[10] == attributes[2] && m[11] == attributes[3]
  {
    hide Le32;
  }

  /**
   * A command, byte by byte: message 1, the tag and its complement, its size,
   * the end-of-message bit, zeros to a word.
   */
  ghost predicate IsCommand(m: Payload, tag: byte, command: Payload) {
    && |command| + 12 <= |m| < |command| + 16 && |m| % 4 == 0
    && m[0] == 1 && m[1] == tag && m[2] == !tag && m[3] == 0 && FromLe32(m[4..8]) == |command|
    && m[8] == 1 && m[9] == 0 && m[10] == 0 && m[11] == 0
    && m[12..12 + |command|] == command && forall i | 12 + |command| <= i < |m| :: m[i] == 0
  }

  lemma CommandIsCommand(tag: byte, command: Payload)
    requires |command| <= U32_MAX
    ensures IsCommand(CommandMessage(tag, command), tag, command)
  {
    hide Header, FromLe32, Zeros, NextMultipleOf4, ParseMessage, IsCommand;
    CommandRoundTrip(tag, command);
    var header := Header(DEV_DEP_MSG_OUT, tag, 0, |command|, [ATTRIBUTE_EOM, 0, 0, 0]);
    var zeros := Zeros(NextMultipleOf4(|command|) - |command|);
    HeaderFields(DEV_DEP_MSG_OUT, tag, 0, |command|, [ATTRIBUTE_EOM, 0, 0, 0], []);
    HeaderRest(DEV_DEP_MSG_OUT, tag, 0, |command|, [ATTRIBUTE_EOM, 0, 0, 0]);
    ZerosAreZero(NextMultipleOf4(|command|) - |command|);
    assert header + [] == header;
    PartsAreCommand(header, command, zeros, tag);
  }

  lemma PartsAreCommand(header: Payload, command: Payload, zeros: Payload, tag: byte)
    requires |header| == 12 && header[0] == 1 && header[1] == tag && header[2] == !tag && header[3] == 0
    requires FromLe32(header[4..8]) == |command|
    requires header[8] == 1 && header[9] == 0 && header[10] == 0 && header[11] == 0
    requires |zeros| < 4 && (|command| + |zeros|) % 4 == 0 && forall i | 0 <= i < |zeros| :: zeros[i] == 0
    ensures IsCommand(header + command + zeros, tag, command)
  {
    hide FromLe32;
    InThreeParts(header, command, zeros);
    var m := header + command + zeros;
    assert m[4..8] == header[4..8];
    forall i | 12 + |command| <= i < |m| ensures m[i] == 0 {
      assert m[i] == zeros[i - 12 - |command|];
    }
  }

  lemma ZerosAreZero(n: nat)
    ensures forall i | 0 <= i < n :: Zeros(n)[i] == 0
  {}

  lemma InThreeParts(a: Payload, b: Payload, c: Payload)
    ensures var m := a + b + c;
      && (forall i | 0 <= i < |a| :: m[i] == a[i])
      && m[|a|..|a| + |b|] == b
      && forall i | |a| + |b| <= i < |m| :: m[i] == c[i - |a| - |b|]
  {}

  /** An instrument's reply to a tag: any payload, framed with up to three alignment bytes and split into packets. */
  ghost predicate Replies(incoming: seq<Payload>, tag: byte, size: nat, payload: Payload, rest: seq<Payload>)
    requires size > 0
  {
    exists reserved: byte, attributes: seq<byte>, padding: Payload ::
      && |attributes| == 4 && Aligned(payload, padding)
      && incoming
         == Split(Header(DEV_DEP_MSG_IN, tag, reserved, |payload|, attributes) + (payload + padding), size, true) + rest
  }

  /** Such a reply is read exactly. */
  lemma ReplyIsRead(incoming: seq<Payload>, tag: byte, size: nat, payload: Payload, rest: seq<Payload>, capacity: nat,
                    dry: PipeError)
    requires size >= HEADER_LEN && size % 4 == 0 && |payload| <= Min(capacity, U32_MAX)
    requires Replies(incoming, tag, size, payload, rest)
    ensures ReadMessage(incoming, tag, size, capacity, dry) == Reading(Ok(payload), rest)
  {
    hide Header, Split, Aligned, ReadMessage;
    var reserved: byte, attributes: seq<byte>, padding: Payload :|
      && |attributes| == 4 && Aligned(payload, padding)
      && incoming
         == Split(Header(DEV_DEP_MSG_IN, tag, reserved, |payload|, attributes) + (payload + padding), size, true)
            + rest;
    ResponseRoundTrip(tag, reserved, attributes, payload, padding, size, capacity, rest, dry);
  }

  lemma AnyReplyIsRead(incoming: seq<Payload>, tag: byte, size: nat, capacity: nat, dry: PipeError)
    requires size >= HEADER_LEN && size % 4 == 0
    ensures forall payload, rest | Replies(incoming, tag, size, payload, rest) && |payload| <= Min(capacity, U32_MAX) ::
      ReadMessage(incoming, tag, size, capacity, dry) == Reading(Ok(payload), rest)
  {
    hide ReadMessage, Replies;
    forall payload, rest | Replies(incoming, tag, size, payload, rest) && |payload| <= Min(capacity, U32_MAX)
      ensures ReadMessage(incoming, tag, size, capacity, dry) == Reading(Ok(payload), rest)
    {
      ReplyIsRead(incoming, tag, size, payload, rest, capacity, dry);
    }
  }

  lemma RequestTag(m: Payload, tag: byte, capacity: nat)
    requires IsRequest(m, tag, if capacity <= 0xffff_ffff then capacity else 0xffff_ffff)
    ensures |m| == 12 && m[1] == tag
  {}

  /** A command that is written is the command that is read on the other side. */
  lemma CommandRoundTrip(tag: byte, command: Payload)
    requires |command| <= U32_MAX
    ensures ParseMessage(CommandMessage(tag, command)) == Some(Parsed(DEV_DEP_MSG_OUT, tag, command))
    ensures |CommandMessage(tag, command)| % 4 == 0
  {
    hide Header, FromLe32, Zeros, NextMultipleOf4, ParseMessage;
    var header := Header(DEV_DEP_MSG_OUT, tag, 0, |command|, [ATTRIBUTE_EOM, 0, 0, 0]);
    var zeros := Zeros(NextMultipleOf4(|command|) - |command|);
    HeaderFields(DEV_DEP_MSG_OUT, tag, 0, |command|, [ATTRIBUTE_EOM, 0, 0, 0], command + zeros);
    ThreeParts(header, command, zeros);
    PaddedLength(|command|);
    ParseFields(header + (command + zeros), DEV_DEP_MSG_OUT, tag, command);
  }

  lemma ParseFields(m: Payload, id: byte, tag: byte, body: Payload)
    requires |m| >= HEADER_LEN + |body| && m[0] == id && m[1] == tag && m[2] == !tag
    requires FromLe32(m[4..8]) == |body| && m[HEADER_LEN..HEADER_LEN + |body|] == body
    ensures ParseMessage(m) == Some(Parsed(id, tag, body))
  {
    hide FromLe32;
  }

  lemma ThreeParts<T>(a: seq<T>, b: seq<T>, c: seq<T>)
    ensures (a + b) + c == a + (b + c)
    ensures (a + (b + c))[|a|..|a| + |b|] == b
    ensures |(a + b) + c| == |a| + |b| + |c|
  {}

  lemma PaddedLength(n: nat)
    ensures (HEADER_LEN + n + (NextMultipleOf4(n) - n)) % 4 == 0
  {}

  // ----- reading a response ---------------------------------------------------------------

  /** The result of a read and the packets that it left on the pipe. */
  datatype Reading = Reading(result: Result<Payload, UsbtmcError>, left: seq<Payload>)

  /** The rest of a message after its first packet; a pipe that runs dry fails with `dry`. */
  function Remainder(incoming: seq<Payload>, size: nat, announced: nat, got: Payload, wire: nat, last: nat,
                     dry: PipeError): Reading
    requires |got| <= announced
    decreases |incoming|
  {
    if |got| < announced then
      if incoming == [] then Reading(Err(Pipe(dry)), [])
      else if incoming[0] == [] || wire + |incoming[0]| > HEADER_LEN + NextMultipleOf4(announced)
      then Reading(Err(InvalidMessage), incoming[1..])
      else Remainder(incoming[1..], size, announced, got + incoming[0][..Min(|incoming[0]|, announced - |got|)],
                     wire + |incoming[0]|, |incoming[0]|, dry)
    else if last == size then
      if incoming == [] then Reading(Err(Pipe(dry)), [])
      else Reading(if incoming[0] != [] then Err(InvalidMessage) else Ok(got), incoming[1..])
    else Reading(Ok(got), incoming)
  }

  lemma RemainderStep(incoming: seq<Payload>, size: nat, announced: nat, got: Payload, wire: nat, last: nat,
                      dry: PipeError)
    requires |got| < announced && incoming != []
    requires incoming[0] != [] && wire + |incoming[0]| <= HEADER_LEN + NextMultipleOf4(announced)
    ensures Remainder(incoming, size, announced, got, wire, last, dry)
      == Remainder(incoming[1..], size, announced, got + incoming[0][..Min(|incoming[0]|, announced - |got|)],
                   wire + |incoming[0]|, |incoming[0]|, dry)
  {}

  lemma RemainderEnds(incoming: seq<Payload>, size: nat, announced: nat, got: Payload, wire: nat, last: nat,
                      dry: PipeError)
    requires |got| <= announced
    requires |got| < announced && incoming != [] ==>
      incoming[0] == [] || wire + |incoming[0]| > HEADER_LEN + NextMultipleOf4(announced)
    ensures Remainder(incoming, size, announced, got, wire, last, dry) ==
      if |got| == announced && last != size then Reading(Ok(got), incoming)
      else if incoming == [] then Reading(Err(Pipe(dry)), [])
      else Reading(if |got| == announced && incoming[0] == [] then Ok(got) else Err(InvalidMessage), incoming[1..])
  {}

  function ReadMessage(incoming: seq<Payload>, tag: byte, size: nat, capacity: nat, dry: PipeError): Reading {
    if incoming == [] then Reading(Err(Pipe(dry)), [])
    else
      var first, rest := incoming[0], incoming[1..];
      if |first| < HEADER_LEN || first[0] != DEV_DEP_MSG_IN || first[2] != !first[1]
      then Reading(Err(InvalidMessage), rest)
      else if first[1] != tag then Reading(Err(TagMismatch), rest)
      else
        var announced := FromLe32(first[4..8]);
        if announced > capacity then Reading(Err(ResponseBufferTooSmall), rest)
        else if |first| > HEADER_LEN + NextMultipleOf4(announced) then Reading(Err(InvalidMessage), rest)
        else
          var count := Min(|first| - HEADER_LEN, announced);
          Remainder(rest, size, announced, first[HEADER_LEN..HEADER_LEN + count], |first|, |first|, dry)
  }

  /**
   * Where no round trip exists: packets that cannot hold the header are never
   * read as a response, whatever they carry.
   */
  lemma SmallPacketsAreRefused(incoming: seq<Payload>, tag: byte, size: nat, capacity: nat, dry: PipeError)
    requires size < HEADER_LEN && forall i | 0 <= i < |incoming| :: |incoming[i]| <= size
    ensures ReadMessage(incoming, tag, size, capacity, dry).result
         == Err(if incoming == [] then Pipe(dry) else InvalidMessage)
  {}

  lemma {:induction false} RemainderErrors(incoming: seq<Payload>, size: nat, announced: nat, got: Payload, wire: nat,
                                           last: nat, dry: PipeError)
    requires |got| <= announced
    ensures var r := Remainder(incoming, size, announced, got, wire, last, dry).result;
      r.Err? ==> r.error in {InvalidMessage, Pipe(dry)}
    decreases |incoming|
  {
    if |got| < announced && incoming != [] && incoming[0] != []
       && wire + |incoming[0]| <= HEADER_LEN + NextMultipleOf4(announced) {
      RemainderErrors(incoming[1..], size, announced, got + incoming[0][..Min(|incoming[0]|, announced - |got|)],
                      wire + |incoming[0]|, |incoming[0]|, dry);
    }
  }

  /**
   * Why a response is refused, by the bytes of its first packet: another tag
   * in a well-formed header is a mismatch, an announced size beyond the buffer
   * is too large for it, and a pipe that fails is reported as it failed.
   */
  lemma FirstErrors(incoming: seq<Payload>, tag: byte, size: nat, capacity: nat, dry: PipeError)
    ensures var r := ReadMessage(incoming, tag, size, capacity, dry).result;
      var framed := incoming != [] && |incoming[0]| >= 12 && incoming[0][0] == 2 && incoming[0][2] == !incoming[0][1];
      && (incoming == [] ==> r == Err(Pipe(dry)))
      && (incoming != [] && !framed ==> r == Err(InvalidMessage))
      && (r == Err(TagMismatch) <==> framed && incoming[0][1] != tag)
      && (r == Err(ResponseBufferTooSmall) <==>
            framed && incoming[0][1] == tag && FromLe32(incoming[0][4..8]) > capacity)
      && (r.Err? ==> r.error in {InvalidMessage, TagMismatch, ResponseBufferTooSmall, Pipe(dry)})
  {
    if incoming != [] && |incoming[0]| >= HEADER_LEN && FromLe32(incoming[0][4..8]) <= capacity {
      var first, announced := incoming[0], FromLe32(incoming[0][4..8]);
      var count := Min(|first| - HEADER_LEN, announced);
      RemainderErrors(incoming[1..], size, announced, first[HEADER_LEN..HEADER_LEN + count], |first|, |first|, dry);
    }
    hide FromLe32, Remainder;
  }

  function TagAfter(tag: byte): byte { if tag == 255 then 1 else tag + 1 }

  /** Padding that ends no later than the next multiple of four. */
  ghost predicate Aligned(payload: Payload, padding: Payload) {
    |payload| + |padding| <= NextMultipleOf4(|payload|)
  }

  /**
   * Alignment bytes never get a packet of their own: packet boundaries are
   * multiples of four, so the packet with the last payload byte has them all.
   */
  lemma NoPacketOfPadding(payload: Payload, padding: Payload, boundary: nat)
    requires Aligned(payload, padding) && boundary % 4 == 0
    requires HEADER_LEN + |payload| + |padding| > boundary
    ensures HEADER_LEN + |payload| > boundary
  {}

  lemma MultipleOf4Sum(a: nat, b: nat)
    requires a % 4 == 0 && b % 4 == 0
    ensures (a + b) % 4 == 0
  {}

  lemma {:induction false} RemainderRoundTrip(message: Payload, payload: Payload, padding: Payload, size: nat,
                                              wire: nat, rest: seq<Payload>, dry: PipeError)
    requires size > 0 && size % 4 == 0 && wire % 4 == 0 && HEADER_LEN <= wire < |message|
    requires |message| == HEADER_LEN + |payload| + |padding| && message[HEADER_LEN..] == payload + padding
    requires Aligned(payload, padding)
    ensures wire - HEADER_LEN < |payload|
    ensures Remainder(Split(message[wire..], size, true) + rest, size, |payload|, payload[..wire - HEADER_LEN], wire,
      size, dry)
      == Reading(Ok(payload), rest)
    decreases |message| - wire
  {
    NoPacketOfPadding(payload, padding, wire);
    hide NextMultipleOf4, Aligned, Remainder, Split;
    var left, got := message[wire..], payload[..wire - HEADER_LEN];
    var incoming := Split(left, size, true) + rest;
    FirstPacket(left, size, rest);
    var n := Min(size, |left|);
    MessagePiece(message, payload, padding, wire, n);
    FitsAligned(payload, padding, wire + n);
    RemainderStep(incoming, size, |payload|, got, wire, size, dry);
    if |left| > size {
      MultipleOf4Sum(wire, size);
      SliceFromSlice(message, wire, size);
      NoPacketOfPadding(payload, padding, wire + size);
      RemainderRoundTrip(message, payload, padding, size, wire + size, rest, dry);
    } else {
      LastPiece(message, payload, padding, wire);
      LastRead(left, size, |payload|, payload, wire + |left|, rest, dry);
    }
  }

  lemma SliceFromSlice<T>(s: seq<T>, a: nat, b: nat)
    requires a + b <= |s|
    ensures s[a..][b..] == s[a + b..]
  {}

  /** After the last packet of a message: the marker, if it was full, and the end. */
  lemma LastRead(left: Payload, size: nat, announced: nat, payload: Payload, wire: nat, rest: seq<Payload>,
                 dry: PipeError)
    requires 0 < |left| <= size && |payload| == announced
    ensures Remainder((Split(left, size, true) + rest)[1..], size, announced, payload, wire, |left|, dry)
      == Reading(Ok(payload), rest)
  {
    hide Remainder, Split;
    FirstPacket(left, size, rest);
    assert ([[]] + rest)[1..] == rest;
    RemainderEnds((Split(left, size, true) + rest)[1..], size, announced, payload, wire, |left|, dry);
  }

  lemma FitsAligned(payload: Payload, padding: Payload, wire: nat)
    requires Aligned(payload, padding) && wire <= HEADER_LEN + |payload| + |padding|
    ensures wire <= HEADER_LEN + NextMultipleOf4(|payload|)
  {}

  lemma SliceOfSlice<T>(s: seq<T>, a: nat, n: nat, count: nat)
    requires a + n <= |s| && count <= n
    ensures s[a..][..n][..count] == s[a..a + count]
  {}

  lemma SliceFrom<T>(s: seq<T>, h: nat, a: nat, b: nat)
    requires h + a <= h + b <= |s|
    ensures s[h..][a..b] == s[h + a..h + b]
  {}

  lemma GrowingPrefix<T>(s: seq<T>, more: seq<T>, a: nat, b: nat)
    requires a <= b <= |s|
    ensures s[..a] + (s + more)[a..b] == s[..b]
  {}

  /** A piece of the message adds the payload bytes in it. */
  lemma MessagePiece(message: Payload, payload: Payload, padding: Payload, wire: nat, n: nat)
    requires |message| == HEADER_LEN + |payload| + |padding| && message[HEADER_LEN..] == payload + padding
    requires HEADER_LEN <= wire && wire - HEADER_LEN <= |payload| && wire + n <= |message|
    ensures var count := Min(n, |payload| - (wire - HEADER_LEN));
      payload[..wire - HEADER_LEN] + message[wire..][..n][..count] == payload[..wire - HEADER_LEN + count]
  {
    var at, count := wire - HEADER_LEN, Min(n, |payload| - (wire - HEADER_LEN));
    SliceOfSlice(message, wire, n, count);
    SliceFrom(message, HEADER_LEN, at, at + count);
    GrowingPrefix(payload, padding, at, at + count);
  }

  lemma LastPiece(message: Payload, payload: Payload, padding: Payload, wire: nat)
    requires |message| == HEADER_LEN + |payload| + |padding| && HEADER_LEN <= wire <= |message|
    requires wire - HEADER_LEN < |payload|
    ensures Min(|message| - wire, |payload| - (wire - HEADER_LEN)) == |payload| - (wire - HEADER_LEN)
    ensures message[wire..][..|message| - wire] == message[wire..]
    ensures payload[..|payload|] == payload
  {}

  /**
   * Response round trip: any payload that fits the caller's buffer, framed
   * with the request's tag and up to three alignment bytes, sent in packets
   * with a terminating empty one after a full last packet, is read exactly,
   * and the transfer is consumed to its end.
   */
  lemma ResponseRoundTrip(tag: byte, reserved: byte, attributes: seq<byte>, payload: Payload, padding: Payload,
                          size: nat, capacity: nat, rest: seq<Payload>, dry: PipeError)
    requires |attributes| == 4 && |payload| <= capacity && |payload| <= U32_MAX
    requires Aligned(payload, padding)
    requires size >= HEADER_LEN && size % 4 == 0
    ensures var message := Header(DEV_DEP_MSG_IN, tag, reserved, |payload|, attributes) + (payload + padding);
      ReadMessage(Split(message, size, true) + rest, tag, size, capacity, dry) == Reading(Ok(payload), rest)
  {
    var header := Header(DEV_DEP_MSG_IN, tag, reserved, |payload|, attributes);
    var message := header + (payload + padding);
    HeaderFields(DEV_DEP_MSG_IN, tag, reserved, |payload|, attributes, payload + padding);
    hide Header, Le32, FromLe32, Split, Remainder, Aligned, NextMultipleOf4, ReadMessage;
    MessageRead(message, tag, payload, padding, size, capacity, rest, dry);
  }

  lemma MessageRead(message: Payload, tag: byte, payload: Payload, padding: Payload, size: nat, capacity: nat,
                    rest: seq<Payload>, dry: PipeError)
    requires |message| == HEADER_LEN + |payload| + |padding| && message[HEADER_LEN..] == payload + padding
    requires message[0] == DEV_DEP_MSG_IN && message[1] == tag && message[2] == !tag
    requires FromLe32(message[4..8]) == |payload| <= capacity && Aligned(payload, padding)
    requires size >= HEADER_LEN && size % 4 == 0
    ensures ReadMessage(Split(message, size, true) + rest, tag, size, capacity, dry) == Reading(Ok(payload), rest)
  {
    hide FromLe32, Split, Remainder, Aligned, NextMultipleOf4, ReadMessage;
    var incoming := Split(message, size, true) + rest;
    FirstPacket(message, size, rest);
    FirstRead(message, tag, payload, padding, incoming, size, capacity, dry);
    if |message| > size {
      NoPacketOfPadding(payload, padding, size);
      RemainderRoundTrip(message, payload, padding, size, size, rest, dry);
    } else {
      assert payload[..|payload|] == payload;
      AfterLast(message, size, rest, payload, dry);
    }
  }

  /** The first packet is accepted, and its part of the payload is taken. */
  lemma FirstRead(message: Payload, tag: byte, payload: Payload, padding: Payload, incoming: seq<Payload>,
                  size: nat, capacity: nat, dry: PipeError)
    requires |message| == HEADER_LEN + |payload| + |padding| && message[HEADER_LEN..] == payload + padding
    requires message[0] == DEV_DEP_MSG_IN && message[1] == tag && message[2] == !tag
    requires FromLe32(message[4..8]) == |payload| <= capacity && Aligned(payload, padding)
    requires size >= HEADER_LEN && incoming != [] && incoming[0] == message[..Min(size, |message|)]
    ensures var n := Min(size, |message|);
      ReadMessage(incoming, tag, size, capacity, dry)
      == Remainder(incoming[1..], size, |payload|, payload[..Min(n - HEADER_LEN, |payload|)], n, n, dry)
  {
    hide FromLe32, Remainder, Aligned, NextMultipleOf4;
    var n := Min(size, |message|);
    FirstFields(message, n);
    FitsAligned(payload, padding, n);
    MessagePiece(message, payload, padding, HEADER_LEN, n - HEADER_LEN);
    FirstPiece(message, payload, n, Min(n - HEADER_LEN, |payload|));
  }

  lemma FirstPacket(message: Payload, size: nat, rest: seq<Payload>)
    requires size > 0
    ensures var packets := Split(message, size, true);
      && packets + rest != [] && (packets + rest)[0] == message[..Min(size, |message|)]
      && (|message| > size ==> (packets + rest)[1..] == Split(message[size..], size, true) + rest)
      && (|message| == size ==> (packets + rest)[1..] == [[]] + rest)
      && (|message| < size ==> (packets + rest)[1..] == rest)
  {
    var packets := Split(message, size, true);
    assert (packets + rest)[1..] == packets[1..] + rest;
    if |message| <= size { assert message[..|message|] == message; }
  }

  lemma FirstFields(message: Payload, n: nat)
    requires HEADER_LEN <= n <= |message|
    ensures message[..n][4..8] == message[4..8] && forall i | 0 <= i < 4 :: message[..n][i] == message[i]
  {}

  lemma FirstPiece(message: Payload, payload: Payload, n: nat, count: nat)
    requires HEADER_LEN + count <= n <= |message| && count <= |payload|
    requires payload[..0] + message[HEADER_LEN..][..n - HEADER_LEN][..count] == payload[..count]
    ensures message[..n][HEADER_LEN..HEADER_LEN + count] == payload[..count]
  {
    SliceOfSlice(message, HEADER_LEN, n - HEADER_LEN, count);
    InnerSlice(message, n, HEADER_LEN, HEADER_LEN + count);
  }

  lemma InnerSlice<T>(s: seq<T>, n: nat, a: nat, b: nat)
    requires a <= b <= n <= |s|
    ensures s[..n][a..b] == s[a..b]
  {}

  /** The end of a message that fits one packet. */
  lemma AfterLast(message: Payload, size: nat, rest: seq<Payload>, payload: Payload, dry: PipeError)
    requires size > 0 && |message| <= size
    ensures Remainder((Split(message, size, true) + rest)[1..], size, |payload|, payload, |message|, |message|, dry)
      == Reading(Ok(payload), rest)
  {
    FirstPacket(message, size, rest);
    assert ([[]] + rest)[1..] == rest;
  }

  // ----- what an accepted response means -----------------------------------------------------

  /** The packets of one accepted message: its payload, and a short packet at the end. */
  ghost predicate Complete(taken: seq<Payload>, size: nat, payload: Payload) {
    && taken != [] && |taken[|taken| - 1]| != size
    && HEADER_LEN + |payload| <= |Concat(taken)| <= HEADER_LEN + NextMultipleOf4(|payload|)
    && Concat(taken)[HEADER_LEN..HEADER_LEN + |payload|] == payload
  }

  /** The message's own account of itself. */
  ghost predicate Announced(wire: Payload, tag: byte, payload: Payload) {
    && |wire| >= HEADER_LEN && wire[0] == DEV_DEP_MSG_IN && wire[1] == tag && wire[2] == !tag
    && FromLe32(wire[4..8]) == |payload|
  }

  /** How far a message has been read: all taken packets, and the payload bytes among them. */
  ghost predicate SoFar(taken: seq<Payload>, announced: nat, got: Payload, wire: nat, last: nat) {
    && taken != [] && last == |taken[|taken| - 1]| && wire == |Concat(taken)|
    && HEADER_LEN <= wire <= HEADER_LEN + NextMultipleOf4(announced)
    && |got| == Min(wire - HEADER_LEN, announced)
    && Concat(taken)[HEADER_LEN..HEADER_LEN + |got|] == got
  }

  lemma OneMorePacket(taken: seq<Payload>, announced: nat, got: Payload, wire: nat, last: nat, p: Payload)
    requires SoFar(taken, announced, got, wire, last) && |got| < announced
    requires wire + |p| <= HEADER_LEN + NextMultipleOf4(announced)
    ensures SoFar(taken + [p], announced, got + p[..Min(|p|, announced - |got|)], wire + |p|, |p|)
    ensures Concat(taken) <= Concat(taken + [p])
  {
    ConcatAppend(taken, [p]);
    ConcatOne(p);
    hide Concat, NextMultipleOf4;
  }

  lemma ReadIsComplete(taken: seq<Payload>, announced: nat, got: Payload, wire: nat, last: nat, size: nat)
    requires SoFar(taken, announced, got, wire, last) && |got| == announced && size > 0
    ensures last != size ==> Complete(taken, size, got)
    ensures Complete(taken + [[]], size, got) && Concat(taken + [[]]) == Concat(taken)
  {
    ConcatAppend(taken, [[]]);
    ConcatOne([]);
    hide Concat, NextMultipleOf4;
  }

  lemma {:induction false} RemainderSound(taken: seq<Payload>, incoming: seq<Payload>, size: nat, announced: nat,
                                          got: Payload, wire: nat, last: nat, dry: PipeError)
    returns (more: seq<Payload>)
    requires SoFar(taken, announced, got, wire, last) && |got| <= announced && size > 0
    ensures var r := Remainder(incoming, size, announced, got, wire, last, dry);
      && incoming == more + r.left
      && (r.result.Ok? ==>
            && Complete(taken + more, size, r.result.value) && |r.result.value| == announced
            && Concat(taken) <= Concat(taken + more))
    decreases |incoming|
  {
    hide Concat, NextMultipleOf4, SoFar, Complete, Remainder;
    if |got| < announced && incoming != [] && incoming[0] != []
       && wire + |incoming[0]| <= HEADER_LEN + NextMultipleOf4(announced) {
      var p, rest := incoming[0], incoming[1..];
      OneMorePacket(taken, announced, got, wire, last, p);
      RemainderStep(incoming, size, announced, got, wire, last, dry);
      var tail := RemainderSound(taken + [p], rest, size, announced,
                                 got + p[..Min(|p|, announced - |got|)], wire + |p|, |p|, dry);
      more := [p] + tail;
      assert taken + more == (taken + [p]) + tail;
      assert incoming == [p] + rest;
    } else {
      RemainderEnds(incoming, size, announced, got, wire, last, dry);
      if |got| == announced { ReadIsComplete(taken, announced, got, wire, last, size); }
      more := if incoming == [] || (|got| == announced && last != size) then [] else [incoming[0]];
      assert taken + [] == taken;
      assert incoming == more + Remainder(incoming, size, announced, got, wire, last, dry).left;
    }
  }

  /**
   * Soundness: a successful read took packets off the pipe whose bytes are a
   * response message for the request's tag, announcing exactly the returned
   * payload, with at most three more bytes, and ending in a short packet.
   */
  lemma ReadSound(incoming: seq<Payload>, tag: byte, size: nat, capacity: nat, dry: PipeError)
    returns (taken: seq<Payload>)
    requires size > 0
    ensures var r := ReadMessage(incoming, tag, size, capacity, dry);
      && incoming == taken + r.left
      && (r.result.Ok? ==>
            && Complete(taken, size, r.result.value) && Announced(Concat(taken), tag, r.result.value)
            && |r.result.value| <= capacity)
  {
    hide Concat, FromLe32, Remainder, ReadMessage, Complete, SoFar;
    if incoming == [] {
      taken := [];
      FirstRefused(incoming, tag, size, capacity, dry);
      return;
    }
    var first, rest := incoming[0], incoming[1..];
    assert incoming == [first] + rest;
    if !Opens(first, tag, capacity) {
      taken := [first];
      FirstRefused(incoming, tag, size, capacity, dry);
      return;
    }
    var announced := FromLe32(first[4..8]);
    var got := first[HEADER_LEN..HEADER_LEN + Min(|first| - HEADER_LEN, announced)];
    FirstTaken(first, announced, got);
    FirstAccepted(incoming, tag, size, capacity, dry);
    var more := RemainderSound([first], rest, size, announced, got, |first|, |first|, dry);
    taken := [first] + more;
    ConcatOne(first);
    assert incoming == taken + ReadMessage(incoming, tag, size, capacity, dry).left;
    if ReadMessage(incoming, tag, size, capacity, dry).result.Ok? {
      SamePrefix(first, Concat(taken));
    }
  }

  /** The first packet of an acceptable response. */
  predicate Opens(first: Payload, tag: byte, capacity: nat) {
    && |first| >= HEADER_LEN && first[0] == DEV_DEP_MSG_IN && first[2] == !first[1] && first[1] == tag
    && FromLe32(first[4..8]) <= capacity
    && |first| <= HEADER_LEN + NextMultipleOf4(FromLe32(first[4..8]))
  }

  lemma FirstRefused(incoming: seq<Payload>, tag: byte, size: nat, capacity: nat, dry: PipeError)
    requires incoming == [] || !Opens(incoming[0], tag, capacity)
    ensures var r := ReadMessage(incoming, tag, size, capacity, dry);
      r.result.Err? && r.left == if incoming == [] then [] else incoming[1..]
  {
    hide FromLe32, NextMultipleOf4, Remainder;
  }

  lemma FirstAccepted(incoming: seq<Payload>, tag: byte, size: nat, capacity: nat, dry: PipeError)
    requires incoming != [] && Opens(incoming[0], tag, capacity)
    ensures var first := incoming[0];
      var announced := FromLe32(first[4..8]);
      ReadMessage(incoming, tag, size, capacity, dry)
      == Remainder(incoming[1..], size, announced, first[HEADER_LEN..HEADER_LEN + Min(|first| - HEADER_LEN, announced)],
                   |first|, |first|, dry)
  {
    hide FromLe32, NextMultipleOf4, Remainder;
  }

  lemma FirstTaken(first: Payload, announced: nat, got: Payload)
    requires HEADER_LEN <= |first| <= HEADER_LEN + NextMultipleOf4(announced)
    requires got == first[HEADER_LEN..HEADER_LEN + Min(|first| - HEADER_LEN, announced)]
    ensures SoFar([first], announced, got, |first|, |first|)
  {
    ConcatOne(first);
  }

  lemma SamePrefix(first: Payload, wire: Payload)
    requires first <= wire && |first| >= HEADER_LEN
    ensures wire[0] == first[0] && wire[1] == first[1] && wire[2] == first[2] && wire[4..8] == first[4..8]
  {}

  // ----- the host -------------------------------------------------------------------------

  /**
   * The host's side of one instrument. The bulk IN pipe holds `incoming` and
   * fails with `dry` when it runs out; the bulk OUT pipe has carried `sent`.
   */
  class UsbtmcHost {
    const packetSize: nat
    const outMessageCapacity: nat
    const packet: array<byte>
    const outgoing: array<byte>
    var nextTag: byte
    var incoming: seq<Payload>
    var dry: PipeError
    var sent: seq<Payload>

    ghost predicate Valid()
      reads this
    {
      && 0 < packetSize <= packet.Length && outgoing.Length == outMessageCapacity
      && packet != outgoing && nextTag != 0
      && forall i | 0 <= i < |incoming| :: |incoming[i]| <= packetSize
    }

    constructor (packetSize: nat, packetCapacity: nat, outMessageCapacity: nat, incoming: seq<Payload>, dry: PipeError)
      requires 0 < packetSize <= packetCapacity
      requires forall i | 0 <= i < |incoming| :: |incoming[i]| <= packetSize
      ensures Valid() && nextTag == 1 && this.incoming == incoming && sent == []
      ensures this.packetSize == packetSize && this.dry == dry && fresh(packet) && fresh(outgoing)
    {
      this.packetSize, this.outMessageCapacity := packetSize, outMessageCapacity;
      packet := new byte[packetCapacity](_ => 0);
      outgoing := new byte[outMessageCapacity](_ => 0);
      nextTag := 1;
      this.incoming, this.dry, sent := incoming, dry, [];
    }

    /** Tags run from 1 to 255 and never repeat at once. */
    method TakeTag() returns (tag: byte)
      requires Valid()
      modifies this`nextTag
      ensures Valid() && tag == old(nextTag) != 0 && nextTag != tag
      ensures nextTag == TagAfter(tag)
    {
      tag := nextTag;
      nextTag := if tag == 255 then 1 else tag + 1;
    }

    /** One packet off the bulk IN pipe into the packet buffer. */
    method RequestIn() returns (result: Result<nat, PipeError>)
      requires Valid()
      modifies this`incoming, packet
      ensures Valid()
      ensures old(incoming) == [] ==> result == Err(dry) && incoming == []
      ensures old(incoming) != [] ==>
        && result == Ok(|old(incoming)[0]|) && incoming == old(incoming)[1..]
        && packet[..|old(incoming)[0]|] == old(incoming)[0]
    {
      if incoming == [] {
        return Err(dry);
      }
      var p := incoming[0];
      forall i | 0 <= i < |p| {
        packet[i] := p[i];
      }
      incoming := incoming[1..];
      return Ok(|p|);
    }

    /** Read one response; the result and what is left on the pipe are those of the specification. */
    method ReadResponse(tag: byte, response: array<byte>) returns (result: Result<nat, UsbtmcError>)
      requires Valid() && response != packet && response != outgoing
      modifies this`incoming, packet, response
      ensures Valid()
      ensures var r := ReadMessage(old(incoming), tag, packetSize, response.Length, dry);
        && incoming == r.left
        && (r.result.Ok? ==>
              result.Ok? && result.value <= response.Length && response[..result.value] == r.result.value)
        && (r.result.Err? ==> result == Err(r.result.error))
    {
      hide NextMultipleOf4, FromLe32, Remainder;
      var first := RequestIn();
      if first.Err? {
        return Err(Pipe(first.error));
      }
      var firstLen := first.value;
      assert firstLen > 0 ==> packet[0] == packet[..firstLen][0];
      if firstLen < HEADER_LEN || packet[0] != DEV_DEP_MSG_IN || packet[2] != !packet[1] {
        return Err(InvalidMessage);
      }
      if packet[1] != tag {
        return Err(TagMismatch);
      }
      var announced := FromLe32(packet[4..8]);
      assert packet[4..8] == packet[..firstLen][4..8];
      if announced > response.Length {
        return Err(ResponseBufferTooSmall);
      }
      var maximum := HEADER_LEN + NextMultipleOf4(announced);
      if firstLen > maximum {
        return Err(InvalidMessage);
      }
      InnerSlice(packet[..], firstLen, HEADER_LEN, HEADER_LEN + Min(firstLen - HEADER_LEN, announced));
      result := ReadOn(response, announced, firstLen);
    }

    /** The rest of the message after its first packet, which is in the packet buffer. */
    method ReadOn(response: array<byte>, announced: nat, firstLen: nat) returns (result: Result<nat, UsbtmcError>)
      requires Valid() && response != packet && response != outgoing
      requires announced <= response.Length && HEADER_LEN <= firstLen <= packetSize
      modifies this`incoming, packet, response
      ensures Valid()
      ensures var count := Min(firstLen - HEADER_LEN, announced);
        var r := Remainder(old(incoming), packetSize, announced, old(packet[HEADER_LEN..HEADER_LEN + count]),
                           firstLen, firstLen, dry);
        && incoming == r.left
        && (r.result.Ok? ==>
              result.Ok? && result.value <= response.Length && response[..result.value] == r.result.value)
        && (r.result.Err? ==> result == Err(r.result.error))
    {
      hide NextMultipleOf4, Remainder;
      var copied: nat := Min(firstLen - HEADER_LEN, announced);
      ghost var got := packet[HEADER_LEN..HEADER_LEN + copied];
      ghost var whole := Remainder(incoming, packetSize, announced, got, firstLen, firstLen, dry);
      var wireReceived: nat, lastLen: nat := firstLen, firstLen;
      CopyPart(packet, HEADER_LEN, response, 0, copied);
      assert response[..copied] == got;
      while copied < announced
        invariant Valid() && copied == |got| <= announced && response[..copied] == got
        invariant Remainder(incoming, packetSize, announced, got, wireReceived, lastLen, dry) == whole
        decreases |incoming|
      {
        ghost var before := incoming;
        if before == [] || before[0] == [] || wireReceived + |before[0]| > HEADER_LEN + NextMultipleOf4(announced) {
          RemainderEnds(before, packetSize, announced, got, wireReceived, lastLen, dry);
        } else {
          RemainderStep(before, packetSize, announced, got, wireReceived, lastLen, dry);
        }
        var next := RequestIn();
        if next.Err? {
          return Err(Pipe(next.error));
        }
        var received := next.value;
        if received == 0 || wireReceived + received > HEADER_LEN + NextMultipleOf4(announced) {
          return Err(InvalidMessage);
        }
        var count := Min(received, announced - copied);
        InnerSlice(packet[..], received, 0, count);
        CopyPart(packet, 0, response, copied, count);
        got := got + before[0][..count];
        copied := copied + count;
        wireReceived := wireReceived + received;
        lastLen := received;
      }
      RemainderEnds(incoming, packetSize, announced, got, wireReceived, lastLen, dry);
      if lastLen == packetSize {
        var marker := RequestIn();
        if marker.Err? {
          return Err(Pipe(marker.error));
        }
        if marker.value != 0 {
          return Err(InvalidMessage);
        }
      }
      return Ok(copied);
    }

    /** Frame one command in place and send it. */
    method Write(command: seq<byte>, failure: Option<PipeError>) returns (result: Result<(), UsbtmcError>)
      requires Valid() && |command| <= U32_MAX
      modifies this`nextTag, this`sent, outgoing
      ensures Valid()
      ensures var fits := |command| + HEADER_LEN + 3 <= outMessageCapacity;
        && (result.Ok? <==> fits && failure.None?)
        && (result.Err? ==> result.error == if fits then Pipe(failure.value) else CommandTooLong)
        && nextTag == (if fits then TagAfter(old(nextTag)) else old(nextTag))
      ensures result.Err? ==> sent == old(sent)
      ensures result.Ok? ==>
        && |sent| == |old(sent)| + 1 && sent[..|old(sent)|] == old(sent)
        && sent == old(sent) + [CommandMessage(old(nextTag), command)]
        && IsCommand(sent[|old(sent)|], old(nextTag), command)
      ensures result.Ok? ==> ParseMessage(sent[|sent| - 1]) == Some(Parsed(DEV_DEP_MSG_OUT, old(nextTag), command))
    {
      if |command| + HEADER_LEN + 3 > outMessageCapacity {
        return Err(CommandTooLong);
      }
      var tag := TakeTag();
      var length := HEADER_LEN + NextMultipleOf4(|command|);
      FillMessage(outgoing, tag, command);
      if failure.Some? {
        return Err(Pipe(failure.value));
      }
      CommandRoundTrip(tag, command);
      CommandIsCommand(tag, command);
      hide IsCommand, CommandMessage, ParseMessage;
      sent := sent + [outgoing[..length]];
      return Ok(());
    }

    /** Ask for a response and read it, with one and the same new tag. */
    method Read(response: array<byte>, failure: Option<PipeError>) returns (result: Result<nat, UsbtmcError>)
      requires Valid() && response != packet && response != outgoing
      modifies this`nextTag, this`sent, this`incoming, packet, response
      ensures Valid() && nextTag == TagAfter(old(nextTag))
      ensures failure.Some? ==> result == Err(Pipe(failure.value)) && sent == old(sent) && incoming == old(incoming)
      ensures failure.None? ==> sent == old(sent) + [RequestMessage(old(nextTag), response.Length)]
      ensures failure.None? ==>
        && |sent| == |old(sent)| + 1
        && IsRequest(sent[|old(sent)|], old(nextTag),
                     if response.Length <= 0xffff_ffff then response.Length else 0xffff_ffff)
      ensures failure.None? && packetSize >= HEADER_LEN && packetSize % 4 == 0 ==>
        forall payload, rest | Replies(old(incoming), sent[|old(sent)|][1], packetSize, payload, rest)
                               && |payload| <= Min(response.Length, U32_MAX) ::
          result == Ok(|payload|) && response[..|payload|] == payload && incoming == rest
      ensures failure.None? ==>
        var r := ReadMessage(old(incoming), old(nextTag), packetSize, response.Length, dry);
        && incoming == r.left
        && (r.result.Ok? ==>
              result.Ok? && result.value <= response.Length && response[..result.value] == r.result.value)
        && (r.result.Err? ==> result == Err(r.result.error))
    {
      hide ReadMessage, RequestMessage, Replies, IsRequest, Header;
      var tag := TakeTag();
      if failure.Some? {
        return Err(Pipe(failure.value));
      }
      RequestIsRequest(tag, response.Length);
      RequestTag(RequestMessage(tag, response.Length), tag, response.Length);
      sent := sent + [RequestMessage(tag, response.Length)];
      ghost var arriving := incoming;
      result := ReadResponse(tag, response);
      if packetSize >= HEADER_LEN && packetSize % 4 == 0 {
        AnyReplyIsRead(arriving, tag, packetSize, response.Length, dry);
      }
    }
  }

  method CopyPart(source: array<byte>, from: nat, target: array<byte>, to: nat, count: nat)
    requires source != target && from + count <= source.Length && to + count <= target.Length
    modifies target
    ensures target[..to] == old(target[..to])
    ensures target[..to + count] == old(target[..to]) + source[from..from + count]
  {
    forall i | 0 <= i < count {
      target[to + i] := source[from + i];
    }
  }

  method FillZeros(outgoing: array<byte>, length: nat)
    requires length <= outgoing.Length
    modifies outgoing
    ensures outgoing[..length] == Zeros(length)
  {
    forall i | 0 <= i < length {
      outgoing[i] := 0;
    }
  }

  /** The header fields, over zeros; the reserved bytes stay zero. */
  method PutHeader(outgoing: array<byte>, tag: byte, size: nat)
    requires HEADER_LEN <= outgoing.Length && outgoing[..HEADER_LEN] == Zeros(HEADER_LEN)
    modifies outgoing
    ensures outgoing[..HEADER_LEN] == Header(DEV_DEP_MSG_OUT, tag, 0, size, [ATTRIBUTE_EOM, 0, 0, 0])
    ensures outgoing[HEADER_LEN..] == old(outgoing[HEADER_LEN..])
  {
    hide Header, Le32;
    ghost var zeroed := outgoing[..HEADER_LEN];
    outgoing[0], outgoing[1], outgoing[2] := DEV_DEP_MSG_OUT, tag, !tag;
    var bytes := Le32(size);
    outgoing[4], outgoing[5], outgoing[6], outgoing[7] := bytes[0], bytes[1], bytes[2], bytes[3];
    outgoing[8] := ATTRIBUTE_EOM;
    HeaderBytes(zeroed, outgoing[..HEADER_LEN], tag, size);
  }

  lemma HeaderBytes(zeroed: seq<byte>, h: seq<byte>, tag: byte, size: nat)
    requires zeroed == Zeros(HEADER_LEN) && |h| == HEADER_LEN
    requires h[0] == DEV_DEP_MSG_OUT && h[1] == tag && h[2] == !tag && h[8] == ATTRIBUTE_EOM
    requires forall i | 4 <= i < 8 :: h[i] == Le32(size)[i - 4]
    requires h[3] == zeroed[3] && h[9] == zeroed[9] && h[10] == zeroed[10] && h[11] == zeroed[11]
    ensures h == Header(DEV_DEP_MSG_OUT, tag, 0, size, [ATTRIBUTE_EOM, 0, 0, 0])
  {
    hide Le32;
  }

  method PutBody(outgoing: array<byte>, at: nat, body: seq<byte>)
    requires at + |body| <= outgoing.Length
    modifies outgoing
    ensures outgoing[..at] == old(outgoing[..at])
    ensures outgoing[at..at + |body|] == body
    ensures outgoing[at + |body|..] == old(outgoing[at + |body|..])
  {
    forall i | 0 <= i < |body| {
      outgoing[at + i] := body[i];
    }
  }

  lemma ThreeSlices<T>(s: seq<T>, a: nat, b: nat, c: nat)
    requires a <= b <= c <= |s|
    ensures s[..c] == s[..a] + s[a..b] + s[b..c]
  {}

  lemma ZerosInside(s: seq<byte>, length: nat, a: nat, b: nat)
    requires a <= b <= length <= |s| && s[..length] == Zeros(length)
    ensures s[a..b] == Zeros(b - a)
  {
    InnerSlice(s, length, a, b);
  }

  lemma SliceOfRest<T>(s: seq<T>, t: seq<T>, a: nat, b: nat, c: nat)
    requires a <= b <= c <= |s| && |t| == |s| && s[a..] == t[a..]
    ensures s[b..c] == t[b..c]
  {
    SliceFrom(s, a, b - a, c - a);
    SliceFrom(t, a, b - a, c - a);
  }

  /** Zero the message, then write its header and the command in place. */
  method FillMessage(outgoing: array<byte>, tag: byte, command: seq<byte>)
    requires |command| + HEADER_LEN + 3 <= outgoing.Length
    modifies outgoing
    ensures outgoing[..HEADER_LEN + NextMultipleOf4(|command|)] == CommandMessage(tag, command)
  {
    var end, length := HEADER_LEN + |command|, HEADER_LEN + NextMultipleOf4(|command|);
    hide Header, Zeros, NextMultipleOf4;
    FillZeros(outgoing, length);
    ghost var zeroed := outgoing[..];
    ZerosInside(zeroed, length, 0, HEADER_LEN);
    ZerosInside(zeroed, length, end, length);
    PutHeader(outgoing, tag, |command|);
    ghost var headed := outgoing[..];
    PutBody(outgoing, HEADER_LEN, command);
    SliceOfRest(headed, zeroed, HEADER_LEN, end, length);
    SliceOfRest(outgoing[..], headed, end, end, length);
    ThreeSlices(outgoing[..], HEADER_LEN, end, length);
  }
}
