/**
 * NRZI coding with bit stuffing (sections 7.1.8 and 7.1.9 of USB 2.0): the
 * line states of a bit string, their decoding, and the packed command buffer
 * fed to the transmitter.
 */
module Nrzi {
  import opened UsbTypes

  datatype WireState = J | K {
    function Flip(): WireState {
      if J? then K else J
    }
  }

  // ----- encoding -------------------------------------------------------------

  /** The line driven so far, its last level, and the ones since the last zero. */
  datatype Encoder = Encoder(line: seq<WireState>, level: WireState, ones: nat)

  /** A one holds the level, a zero flips it, and six ones are followed by a stuffed zero. */
  function EncodeStep(e: Encoder, bit: bool): Encoder {
    var level := if bit then e.level else e.level.Flip();
    var ones := if bit then e.ones + 1 else 0;
    if ones == 6 then Encoder(e.line + [level, level.Flip()], level.Flip(), 0)
    else Encoder(e.line + [level], level, ones)
  }

  /** Encode from the idle J state. */
  function Encode(bits: seq<bool>): Encoder {
    if bits == [] then Encoder([], J, 0)
    else EncodeStep(Encode(bits[..|bits| - 1]), bits[|bits| - 1])
  }

  /** The line states of a byte string, least significant bits first. */
  function Line(bytes: seq<byte>): seq<WireState> {
    Encode(BytesToBits(bytes)).line
  }

  lemma EncodeAppend(bits: seq<bool>, bit: bool)
    ensures Encode(bits + [bit]) == EncodeStep(Encode(bits), bit)
  {
    assert (bits + [bit])[..|bits|] == bits;
  }

  /** The line always ends at the tracked level, and at most five ones are pending. */
  lemma {:induction false} EncoderShape(bits: seq<bool>)
    ensures var e := Encode(bits);
      && e.ones <= 5 && e.ones <= |e.line| && |bits| <= |e.line|
      && e.level == (if e.line == [] then J else e.line[|e.line| - 1])
      && 6 * (|e.line| - |bits|) + e.ones <= |bits|
  {
    if bits != [] {
      EncoderShape(bits[..|bits| - 1]);
    }
  }

  /** Levels of a line preceded by the idle state. */
  function FromIdle(line: seq<WireState>): seq<WireState> {
    [J] + line
  }

  /** Some two neighbouring states among `x[from..from + 8]` differ. */
  ghost predicate HasTransition(x: seq<WireState>, from: nat)
    requires from + 8 <= |x|
  {
    exists j | from <= j < from + 7 :: x[j] != x[j + 1]
  }

  ghost predicate NoLongRun(line: seq<WireState>) {
    forall from: nat | from + 8 <= |FromIdle(line)| :: HasTransition(FromIdle(line), from)
  }

  /** Every run since the last transition is at most the pending ones. */
  ghost predicate RunsBounded(line: seq<WireState>, ones: nat) {
    && NoLongRun(line)
    && (|line| > ones ==> FromIdle(line)[|line| - ones - 1] != FromIdle(line)[|line| - ones])
  }

  lemma ExtendRuns(line: seq<WireState>, ones: nat, level: WireState, ones': nat)
    requires ones <= 5 && ones <= |line| && RunsBounded(line, ones)
    requires if level == FromIdle(line)[|line|] then ones' == ones + 1 else ones' == 0
    ensures RunsBounded(line + [level], ones')
  {
    var x, y := FromIdle(line), FromIdle(line + [level]);
    assert y == x + [level];
    forall from: nat | from + 8 <= |y| ensures HasTransition(y, from) {
      if from + 8 <= |x| {
        assert HasTransition(x, from);
        var j :| from <= j < from + 7 && x[j] != x[j + 1];
        assert y[j] != y[j + 1];
      } else if ones' == 0 {
        assert y[|x| - 1] != y[|x|];
      } else {
        var j := |line| - ones - 1;
        assert y[j] != y[j + 1];
      }
    }
  }

  lemma {:induction false} EncoderRuns(bits: seq<bool>)
    ensures RunsBounded(Encode(bits).line, Encode(bits).ones)
  {
    if bits != [] {
      var n := |bits| - 1;
      var e := Encode(bits[..n]);
      EncoderRuns(bits[..n]);
      EncoderShape(bits[..n]);
      var level := if bits[n] then e.level else e.level.Flip();
      var ones := if bits[n] then e.ones + 1 else 0;
      ExtendRuns(e.line, e.ones, level, ones);
      if ones == 6 {
        var y := e.line + [level];
        assert FromIdle(y)[|y|] == level;
        StuffRun(y, level);
        assert y + [level.Flip()] == Encode(bits).line;
      }
    }
  }

  /** After six ones the stuffed zero ends the run. */
  lemma StuffRun(line: seq<WireState>, level: WireState)
    requires |line| >= 1 && FromIdle(line)[|line|] == level && NoLongRun(line)
    ensures RunsBounded(line + [level.Flip()], 0)
  {
    var x, y := FromIdle(line), FromIdle(line + [level.Flip()]);
    assert y == x + [level.Flip()];
    forall from: nat | from + 8 <= |y| ensures HasTransition(y, from) {
      if from + 8 <= |x| {
        assert HasTransition(x, from);
        var j :| from <= j < from + 7 && x[j] != x[j + 1];
        assert y[j] != y[j + 1];
      } else {
        assert y[|x| - 1] != y[|x|];
      }
    }
  }

  /** No encoded line keeps one level for eight states: a transition comes within seven bit times. */
  lemma EncodedLineHasTransitions(bytes: seq<byte>)
    ensures NoLongRun(Line(bytes))
  {
    EncoderRuns(BytesToBits(bytes));
  }

  // ----- decoding ---------------------------------------------------------------

  datatype NrziError = BitStuff | TruncatedByte | PacketTooLong

  /** The state of the decoder: the recovered bits, or the error that stopped it. */
  datatype Decoder =
    | Running(previous: WireState, ones: nat, bits: seq<bool>)
    | Stopped(error: NrziError)

  function DecodeStep(d: Decoder, state: WireState): Decoder {
    match d
    case Stopped(_) => d
    case Running(previous, ones, bits) =>
      var one := state == previous;
      if ones == 6 then
        if one then Stopped(BitStuff) else Running(state, 0, bits)
      else if |bits| >= 8 * MAX_DECODED_BYTES then Stopped(PacketTooLong)
      else Running(state, if one then ones + 1 else 0, bits + [one])
  }

  function Decode(line: seq<WireState>): Decoder {
    if line == [] then Running(J, 0, [])
    else DecodeStep(Decode(line[..|line| - 1]), line[|line| - 1])
  }

  function DecodedBits(line: seq<WireState>): Result<seq<bool>, NrziError> {
    match Decode(line)
    case Stopped(error) => Err(error)
    case Running(_, _, bits) => if |bits| % 8 != 0 then Err(TruncatedByte) else Ok(bits)
  }

  lemma DecodeAppend(line: seq<WireState>, state: WireState)
    ensures Decode(line + [state]) == DecodeStep(Decode(line), state)
  {
    assert (line + [state])[..|line|] == line;
  }

  lemma {:induction false} DecoderShape(line: seq<WireState>)
    ensures var d := Decode(line); d.Running? ==>
      && d.ones <= 6 && |d.bits| <= 8 * MAX_DECODED_BYTES
      && d.previous == (if line == [] then J else line[|line| - 1])
  {
    if line != [] {
      DecoderShape(line[..|line| - 1]);
    }
  }

  /** The decoder undoes the encoder bit by bit. */
  lemma {:induction false} DecodeEncode(bits: seq<bool>)
    requires |bits| <= 8 * MAX_DECODED_BYTES
    ensures var e := Encode(bits); Decode(e.line) == Running(e.level, e.ones, bits)
  {
    NothingCoded();
    hide Decode, DecodeStep, Encode, EncodeStep;
    if bits != [] {
      var n := |bits| - 1;
      DecodeEncode(bits[..n]);
      EncoderShape(bits[..n]);
      assert bits[..n] + [bits[n]] == bits;
      EncodeAppend(bits[..n], bits[n]);
      DecodeStepUndoesEncodeStep(Encode(bits[..n]), bits[..n], bits[n]);
    }
  }

  lemma NothingCoded()
    ensures Decode([]) == Running(J, 0, [])
    ensures Encode([]) == Encoder([], J, 0)
  {}

  lemma DecodeStepUndoesEncodeStep(e: Encoder, bits: seq<bool>, bit: bool)
    requires Decode(e.line) == Running(e.level, e.ones, bits) && e.ones <= 5
    requires |bits| < 8 * MAX_DECODED_BYTES
    ensures var f := EncodeStep(e, bit); Decode(f.line) == Running(f.level, f.ones, bits + [bit])
  {
    hide Decode;
    var level := if bit then e.level else e.level.Flip();
    DecodeAppend(e.line, level);
    if bit && e.ones == 5 {
      DecodeAppend(e.line + [level], level.Flip());
      assert e.line + [level] + [level.Flip()] == e.line + [level, level.Flip()];
    }
  }

  /** The line is the encoding of the bits recovered from it, but for a stuffed zero still to come after six ones. */
  ghost predicate Recovers(line: seq<WireState>, d: Decoder)
    requires d.Running?
  {
    Encode(d.bits) == if d.ones == 6 then Encoder(line + [d.previous.Flip()], d.previous.Flip(), 0)
                      else Encoder(line, d.previous, d.ones)
  }

  lemma EncodeStepUndoesDecodeStep(line: seq<WireState>, d: Decoder, state: WireState)
    requires d.Running? && d.ones <= 6 && Recovers(line, d) && DecodeStep(d, state).Running?
    ensures Recovers(line + [state], DecodeStep(d, state))
  {
    hide Encode;
    if d.ones != 6 {
      EncodeAppend(d.bits, state == d.previous);
      assert line + [state, state.Flip()] == line + [state] + [state.Flip()];
    }
  }

  /**
   * Every accepted line is the encoding of the recovered bits, except that the
   * stuffed zero after six final ones may be missing.
   */
  lemma {:induction false} EncodeDecode(line: seq<WireState>)
    requires Decode(line).Running?
    ensures Recovers(line, Decode(line))
  {
    if line == [] {
      NothingCoded();
    } else {
      hide Recovers, Encode;
      var n := |line| - 1;
      DecodeAppend(line[..n], line[n]);
      assert line[..n] + [line[n]] == line;
      hide Decode;
      assert Decode(line[..n]).Running?;
      EncodeDecode(line[..n]);
      DecoderShape(line[..n]);
      EncodeStepUndoesDecodeStep(line[..n], Decode(line[..n]), line[n]);
    }
  }

  /** The encoding of the bytes ends in a stuffed zero: their last six bits complete a run of ones. */
  predicate EndsWithStuffedBit(bytes: seq<byte>) {
    var bits := BytesToBits(bytes);
    bits != [] && bits[|bits| - 1] && Encode(bits[..|bits| - 1]).ones == 5
  }

  /** The encoding of the bytes, or that encoding without a final stuffed zero. */
  predicate IsLineOf(line: seq<WireState>, bytes: seq<byte>) {
    line == Line(bytes)
    || (EndsWithStuffedBit(bytes) && |Line(bytes)| == |line| + 1 && line == Line(bytes)[..|line|])
  }

  lemma SixOnesEndInStuffedBit(line: seq<WireState>)
    requires Decode(line).Running? && Decode(line).ones == 6
    ensures var bits := Decode(line).bits;
      bits != [] && bits[|bits| - 1] && Encode(bits[..|bits| - 1]).ones == 5
  {
    var n := |line| - 1;
    var d := Decode(line[..n]);
    EncodeDecode(line[..n]);
    DecoderShape(line[..n]);
    assert d.Running? && d.ones == 5;
    var bits := Decode(line).bits;
    assert bits == d.bits + [true];
    assert bits[..|bits| - 1] == d.bits;
  }

  lemma AcceptedIsEncoding(line: seq<WireState>, bytes: seq<byte>)
    requires DecodedBits(line) == Ok(BytesToBits(bytes))
    ensures |bytes| <= MAX_DECODED_BYTES && IsLineOf(line, bytes)
  {
    DecoderShape(line);
    EncodeDecode(line);
    var d := Decode(line);
    if d.ones == 6 {
      SixOnesEndInStuffedBit(line);
      assert Line(bytes) == line + [d.previous.Flip()];
    }
  }

  lemma EncodingIsAccepted(line: seq<WireState>, bytes: seq<byte>)
    requires |bytes| <= MAX_DECODED_BYTES && IsLineOf(line, bytes)
    ensures DecodedBits(line) == Ok(BytesToBits(bytes))
  {
    hide Decode, Encode, BytesToBits;
    var bits := BytesToBits(bytes);
    assert |bits| % 8 == 0 && |bits| <= 8 * MAX_DECODED_BYTES;
    DecodeEncode(bits);
    if line != Line(bytes) {
      var n := |bits| - 1;
      DecodeEncode(bits[..n]);
      assert bits[..n] + [bits[n]] == bits;
      MissingStuffedBit(line, bits, Encode(bits[..n]));
    }
  }

  lemma MissingStuffedBit(line: seq<WireState>, bits: seq<bool>, e: Encoder)
    requires bits != [] && bits[|bits| - 1] && e == Encode(bits[..|bits| - 1]) && e.ones == 5
    requires |bits| <= 8 * MAX_DECODED_BYTES
    requires Decode(e.line) == Running(e.level, 5, bits[..|bits| - 1])
    requires |Encode(bits).line| == |line| + 1 && line == Encode(bits).line[..|line|]
    ensures Decode(line) == Running(e.level, 6, bits)
  {
    hide Decode;
    var n := |bits| - 1;
    assert Encode(bits).line == e.line + [e.level, e.level.Flip()];
    assert line == e.line + [e.level];
    DecodeAppend(e.line, e.level);
    assert bits[..n] + [true] == bits;
  }

  /**
   * The exact set of accepted line sequences: the decoder returns these bytes
   * if and only if they fit the packet buffer and the line is their encoding,
   * or that encoding without a final stuffed zero.
   */
  lemma DecodeIff(line: seq<WireState>, bytes: seq<byte>)
    ensures DecodedBits(line) == Ok(BytesToBits(bytes)) <==> |bytes| <= MAX_DECODED_BYTES && IsLineOf(line, bytes)
  {
    hide Decode, Encode, DecodedBits, IsLineOf;
    if DecodedBits(line) == Ok(BytesToBits(bytes)) {
      AcceptedIsEncoding(line, bytes);
    }
    if |bytes| <= MAX_DECODED_BYTES && IsLineOf(line, bytes) {
      EncodingIsAccepted(line, bytes);
    }
  }

  /** Decoding the encoded line of any packet that fits the buffer gives back its bytes. */
  lemma RoundTrip(bytes: seq<byte>)
    requires |bytes| <= MAX_DECODED_BYTES
    ensures DecodedBits(Line(bytes)) == Ok(BytesToBits(bytes))
  {
    DecodeIff(Line(bytes), bytes);
  }

  function Place(index: nat): byte
    requires index < 8
  {
    if index == 0 then 1 else if index == 1 then 2 else if index == 2 then 4 else if index == 3 then 8
    else if index == 4 then 16 else if index == 5 then 32 else if index == 6 then 64 else 128
  }

  /** Set the bit that was received in position `index` of the byte under construction. */
  function SetBit(b: byte, index: nat): byte
    requires index < 8
  {
    b | Place(index)
  }

  /** The byte under construction holds `bits` and zeros above them. */
  ghost predicate PartialByte(b: byte, bits: seq<bool>) {
    && |bits| <= 8
    && ByteBits(b)[..|bits|] == bits
    && forall i | |bits| <= i < 8 :: !ByteBits(b)[i]
  }

  lemma SetBitExtends(b: byte, bits: seq<bool>, one: bool)
    requires |bits| < 8 && PartialByte(b, bits)
    ensures PartialByte(if one then SetBit(b, |bits|) else b, bits + [one])
  {
    var c := if one then SetBit(b, |bits|) else b;
    var k := |bits|;
    var x, y := ByteBits(b), ByteBits(c);
    assert forall i | 0 <= i < 8 && i != k :: y[i] == x[i] by { SetBitBits(b, k); }
    assert y[k] == one by { SetBitBits(b, k); }
    assert y[..k] == x[..k];
    assert y[..k + 1] == y[..k] + [y[k]];
  }

  lemma BitOfByte(b: byte, i: nat)
    requires i < 8
    ensures ByteBits(b)[i] == (b & Place(i) != 0)
  {}

  lemma OrBit(b: byte, m: byte, n: byte)
    ensures m & n == 0 ==> (b | m) & n == b & n
    ensures (b | m) & m == m
  {}

  lemma PlacesDisjoint(i: nat, k: nat)
    requires i < 8 && k < 8
    ensures Place(i) != 0 && (i != k ==> Place(i) & Place(k) == 0)
  {}

  lemma SetBitBits(b: byte, k: nat)
    requires k < 8
    ensures ByteBits(SetBit(b, k))[k]
    ensures forall i | 0 <= i < 8 && i != k :: ByteBits(SetBit(b, k))[i] == ByteBits(b)[i]
  {
    hide ByteBits, Place;
    forall i | 0 <= i < 8
      ensures if i == k then ByteBits(SetBit(b, k))[i] else ByteBits(SetBit(b, k))[i] == ByteBits(b)[i]
    {
      BitOfByte(b, i);
      BitOfByte(SetBit(b, k), i);
      PlacesDisjoint(k, i);
      OrBit(b, Place(k), Place(i));
    }
  }

  lemma EmptyByte()
    ensures PartialByte(0, [])
  {}

  /** The local state of the decoding loop after `i` states. */
  ghost predicate DecodingBytes(states: seq<WireState>, i: nat, previous: WireState, ones: nat,
                                bytes: seq<byte>, current: byte, partial: seq<bool>)
    requires i <= |states|
  {
    && ones <= 6 && |partial| < 8 && |bytes| <= MAX_DECODED_BYTES
    && (|bytes| == MAX_DECODED_BYTES ==> partial == [])
    && PartialByte(current, partial)
    && Decode(states[..i]) == Running(previous, ones, BytesToBits(bytes) + partial)
  }

  lemma NextState(states: seq<WireState>, i: nat, previous: WireState, ones: nat,
                  bytes: seq<byte>, current: byte, partial: seq<bool>)
    requires i < |states| && DecodingBytes(states, i, previous, ones, bytes, current, partial)
    ensures Decode(states[..i + 1]) == DecodeStep(Decode(states[..i]), states[i])
    ensures (ones == 6 && states[i] == previous) ==> Decode(states) == Stopped(BitStuff)
    ensures (ones == 6 && states[i] != previous) ==> DecodingBytes(states, i + 1, states[i], 0, bytes, current, partial)
    ensures (ones != 6 && |bytes| == MAX_DECODED_BYTES) ==> Decode(states) == Stopped(PacketTooLong)
    ensures (ones != 6 && |bytes| < MAX_DECODED_BYTES) ==>
      Decode(states[..i + 1]) == Running(states[i], if states[i] == previous then ones + 1 else 0,
                                         BytesToBits(bytes) + (partial + [states[i] == previous]))
  {
    hide Decode, BytesToBits, PartialByte;
    assert states[..i + 1] == states[..i] + [states[i]];
    DecodeAppend(states[..i], states[i]);
    assert BytesToBits(bytes) + partial + [states[i] == previous]
      == BytesToBits(bytes) + (partial + [states[i] == previous]);
    if Decode(states[..i + 1]).Stopped? {
      StoppedStays(states, i + 1);
    }
  }

  lemma CompleteByte(states: seq<WireState>, i: nat, previous: WireState, ones: nat,
                     bytes: seq<byte>, current: byte, partial: seq<bool>)
    requires i <= |states| && ones <= 6 && |partial| == 8 && |bytes| < MAX_DECODED_BYTES
    requires PartialByte(current, partial)
    requires Decode(states[..i]) == Running(previous, ones, BytesToBits(bytes) + partial)
    ensures DecodingBytes(states, i, previous, ones, bytes + [current], 0, [])
  {
    hide Decode, ByteBits;
    EmptyByte();
    assert ByteBits(current)[..8] == ByteBits(current);
    assert (bytes + [current])[..|bytes|] == bytes;
    assert BytesToBits(bytes + [current]) + [] == BytesToBits(bytes) + partial;
  }

  /** Decode NRZI states and drop stuffed zeros, assembling bytes as the bits arrive. */
  method DecodeNrzi(states: seq<WireState>) returns (result: Result<seq<byte>, NrziError>)
    ensures result.Ok? ==> DecodedBits(states) == Ok(BytesToBits(result.value))
    ensures result.Err? ==> DecodedBits(states) == Err(result.error)
  {
    var bytes: seq<byte>, current: byte := [], 0;
    var previous, ones, bitIndex := J, 0, 0;
    ghost var partial: seq<bool> := [];
    EmptyByte();
    assert DecodingBytes(states, 0, previous, ones, bytes, current, partial);
    hide Decode, DecodeStep, BytesToBits, PartialByte, SetBit;
    for i := 0 to |states|
      invariant bitIndex == |partial|
      invariant DecodingBytes(states, i, previous, ones, bytes, current, partial)
    {
      NextState(states, i, previous, ones, bytes, current, partial);
      var one := states[i] == previous;
      previous := states[i];
      if ones == 6 {
        if one {
          return Err(BitStuff);
        }
        ones := 0;
        continue;
      }
      if |bytes| >= MAX_DECODED_BYTES {
        return Err(PacketTooLong);
      }
      SetBitExtends(current, partial, one);
      partial := partial + [one];
      if one {
        current := SetBit(current, bitIndex);
        ones := ones + 1;
      } else {
        ones := 0;
      }
      bitIndex := bitIndex + 1;
      if bitIndex == 8 {
        CompleteByte(states, i + 1, previous, ones, bytes, current, partial);
        bytes, current, bitIndex, partial := bytes + [current], 0, 0, [];
      }
    }
    assert states[..|states|] == states;
    assert |BytesToBits(bytes) + partial| % 8 == bitIndex;
    if bitIndex != 0 {
      return Err(TruncatedByte);
    }
    assert BytesToBits(bytes) + partial == BytesToBits(bytes);
    return Ok(bytes);
  }

  lemma {:induction false} StoppedStays(states: seq<WireState>, i: nat)
    requires i <= |states| && Decode(states[..i]).Stopped?
    ensures Decode(states) == Decode(states[..i])
    decreases |states| - i
  {
    if i == |states| {
      assert states[..i] == states;
    } else {
      assert states[..i + 1] == states[..i] + [states[i]];
      DecodeAppend(states[..i], states[i]);
      StoppedStays(states, i + 1);
    }
  }
}
