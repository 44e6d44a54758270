/** The packed command buffer fed to the transmitter: four two-bit commands per byte. */
module TxBuffer {
  import opened UsbTypes
  import opened Nrzi

  /**
   * A two-bit transmitter command; its code is an instruction address. The
   * command emitted while the line is at J is named K and the other way round.
   */
  datatype TxSymbol = Se0 | CommandK | Release | CommandJ {
    function Code(): byte {
      match this
      case Se0 => 0
      case CommandK => 1
      case Release => 2
      case CommandJ => 3
    }
  }

  function SymbolOf(level: WireState): TxSymbol {
    if level.J? then CommandK else CommandJ
  }

  function Symbols(line: seq<WireState>): (symbols: seq<TxSymbol>)
    ensures |symbols| == |line|
  {
    if line == [] then [] else Symbols(line[..|line| - 1]) + [SymbolOf(line[|line| - 1])]
  }

  lemma SymbolsAppend(line: seq<WireState>, level: WireState)
    ensures Symbols(line + [level]) == Symbols(line) + [SymbolOf(level)]
  {
    assert (line + [level])[..|line|] == line;
  }

  /** The commands of a packet: its line, the two end-of-packet commands, and padding to a full byte. */
  function Commands(raw: seq<byte>): seq<TxSymbol> {
    Padded(Symbols(Line(raw)) + [Se0, Release])
  }

  function Padded(symbols: seq<TxSymbol>): (r: seq<TxSymbol>)
    ensures |r| % 4 == 0 && symbols <= r && |r| < |symbols| + 4
    decreases (4 - |symbols| % 4) % 4
  {
    if |symbols| % 4 == 0 then symbols else Padded(symbols + [CommandK])
  }

  /** Shift a command into the low bits of a byte. */
  function Append(b: byte, symbol: TxSymbol): byte { (b << 2) | symbol.Code() }

  function Pack(symbols: seq<TxSymbol>): byte {
    if symbols == [] then 0 else Append(Pack(symbols[..|symbols| - 1]), symbols[|symbols| - 1])
  }

  /** The command at `index`, as the transmitter shifts it out. */
  function SymbolCode(b: byte, position: nat): byte
    requires position < 4
  {
    if position == 0 then b >> 6 else if position == 1 then (b >> 4) & 3
    else if position == 2 then (b >> 2) & 3 else b & 3
  }

  lemma PackFour(a: TxSymbol, b: TxSymbol, c: TxSymbol, d: TxSymbol)
    ensures var p := Pack([a, b, c, d]);
      && SymbolCode(p, 0) == a.Code() && SymbolCode(p, 1) == b.Code()
      && SymbolCode(p, 2) == c.Code() && SymbolCode(p, 3) == d.Code()
  {
    assert Append(0, a) == a.Code();
    hide Pack, SymbolCode;
    assert [] + [a] == [a] && [a] + [b] == [a, b] && [a, b] + [c] == [a, b, c] && [a, b, c] + [d] == [a, b, c, d];
    PackAppend([], a);
    PackAppend([a], b);
    PackAppend([a, b], c);
    PackAppend([a, b, c], d);
    PackCodes(a.Code(), b.Code(), c.Code(), d.Code());
  }

  lemma PackCodes(a: byte, b: byte, c: byte, d: byte)
    requires a < 4 && b < 4 && c < 4 && d < 4
    ensures var p := (((((a << 2) | b) << 2) | c) << 2) | d;
      SymbolCode(p, 0) == a && SymbolCode(p, 1) == b && SymbolCode(p, 2) == c && SymbolCode(p, 3) == d
  {}

  /** Byte `k` of the buffer while `symbols` have been pushed. */
  function BufferByte(symbols: seq<TxSymbol>, k: nat): byte {
    if 4 * k >= |symbols| then 0
    else if 4 * k + 4 <= |symbols| then Pack(symbols[4 * k..4 * k + 4])
    else Pack(symbols[4 * k..])
  }

  class EncodedPacket {
    var bytes: array<byte>
    var len: nat
    var symbols: nat
    ghost var pushed: seq<TxSymbol>

    ghost predicate Valid()
      reads this, bytes
    {
      && bytes.Length == MAX_ENCODED_BYTES
      && symbols == |pushed| <= 4 * MAX_ENCODED_BYTES
      && forall k | 0 <= k < MAX_ENCODED_BYTES :: bytes[k] == BufferByte(pushed, k)
    }

    constructor ()
      ensures Valid() && fresh(bytes) && pushed == []
    {
      bytes := new byte[MAX_ENCODED_BYTES](_ => 0);
      len, symbols, pushed := 0, 0, [];
    }

    /** Shift one command into the byte under construction, unless the buffer is full. */
    method Push(symbol: TxSymbol) returns (ok: bool)
      requires Valid()
      modifies this`symbols, this`pushed, bytes
      ensures Valid()
      ensures ok == (|old(pushed)| < 4 * MAX_ENCODED_BYTES)
      ensures pushed == if ok then old(pushed) + [symbol] else old(pushed)
    {
      var index := symbols / 4;
      if index >= bytes.Length {
        return false;
      }
      ghost var next := pushed + [symbol];
      PushByte(pushed, symbol);
      bytes[index] := Append(bytes[index], symbol);
      symbols := symbols + 1;
      pushed := next;
      return true;
    }
  }

  lemma PackAppend(symbols: seq<TxSymbol>, symbol: TxSymbol)
    ensures Pack(symbols + [symbol]) == Append(Pack(symbols), symbol)
    ensures symbols == [] ==> Pack(symbols) == 0
  {
    hide Append;
    assert (symbols + [symbol])[..|symbols|] == symbols;
  }

  lemma PushByte(symbols: seq<TxSymbol>, symbol: TxSymbol)
    ensures var k := |symbols| / 4;
      && BufferByte(symbols + [symbol], k) == Append(BufferByte(symbols, k), symbol)
      && forall j: nat | j != k :: BufferByte(symbols + [symbol], j) == BufferByte(symbols, j)
  {
    hide Append, Pack;
    var k, next := |symbols| / 4, symbols + [symbol];
    var tail := symbols[4 * k..];
    assert next[4 * k..] == tail + [symbol];
    PackAppend(tail, symbol);
    if |symbols| % 4 == 3 {
      assert next[4 * k..4 * k + 4] == tail + [symbol];
    }
    forall j: nat | j != k ensures BufferByte(next, j) == BufferByte(symbols, j) {
      if 4 * j + 4 <= |symbols| {
        assert next[4 * j..4 * j + 4] == symbols[4 * j..4 * j + 4];
      }
    }
  }

  lemma {:induction false} LineGrows(bits: seq<bool>, n: nat)
    requires n <= |bits|
    ensures Encode(bits[..n]).line <= Encode(bits).line
    decreases |bits| - n
  {
    if n == |bits| {
      assert bits[..n] == bits;
    } else {
      LineGrows(bits, n + 1);
      assert bits[..n + 1][..n] == bits[..n];
    }
  }

  /** The commands pushed and the local state of the encoder after `bits`. */
  ghost predicate Encoding(pushed: seq<TxSymbol>, atJ: bool, ones: nat, bits: seq<bool>) {
    var e := Encode(bits);
    pushed == Symbols(e.line) && atJ == e.level.J? && ones == e.ones
  }

  /** Push the commands of one data bit, and of the stuffed bit after the sixth one. */
  method PushBit(packet: EncodedPacket, one: bool, atJ: bool, ones: nat, ghost bits: seq<bool>)
    returns (ok: bool, atJ': bool, ones': nat)
    requires packet.Valid() && Encoding(packet.pushed, atJ, ones, bits)
    modifies packet`symbols, packet`pushed, packet.bytes
    ensures packet.Valid()
    ensures if ok then Encoding(packet.pushed, atJ', ones', bits + [one])
            else |Encode(bits + [one]).line| > 4 * MAX_ENCODED_BYTES
  {
    hide Encode, BufferByte, Symbols;
    EncodeAppend(bits, one);
    EncoderShape(bits);
    ghost var e := Encode(bits);
    atJ', ones' := if one then atJ else !atJ, if one then ones + 1 else 0;
    ghost var level := if atJ' then J else K;
    SymbolsAppend(e.line, level);
    SymbolsAppend(e.line + [level], level.Flip());
    assert e.line + [level] + [level.Flip()] == e.line + [level, level.Flip()];
    ok := packet.Push(if atJ' then CommandK else CommandJ);
    if ok && ones' == 6 {
      atJ', ones' := !atJ', 0;
      ok := packet.Push(if atJ' then CommandK else CommandJ);
    }
  }

  /** Push the commands of the eight bits of byte `i`, least significant first. */
  method PushByteBits(packet: EncodedPacket, raw: seq<byte>, i: nat, atJ: bool, ones: nat)
    returns (ok: bool, atJ': bool, ones': nat)
    requires i < |raw| && packet.Valid()
    requires Encoding(packet.pushed, atJ, ones, BytesToBits(raw)[..8 * i])
    modifies packet`symbols, packet`pushed, packet.bytes
    ensures packet.Valid()
    ensures if ok then Encoding(packet.pushed, atJ', ones', BytesToBits(raw)[..8 * i + 8])
            else |Line(raw)| > 4 * MAX_ENCODED_BYTES
  {
    hide ByteBits, Place, Encode, Encoding, BufferByte, BytesToBits;
    ghost var all := BytesToBits(raw);
    ok, atJ', ones' := true, atJ, ones;
    for bit := 0 to 8
      invariant packet.Valid()
      invariant ok && Encoding(packet.pushed, atJ', ones', all[..8 * i + bit])
    {
      PrefixOfBits(raw, i, bit);
      LineGrows(all, 8 * i + bit + 1);
      ok, atJ', ones' := PushBit(packet, raw[i] & Place(bit) != 0, atJ', ones', all[..8 * i + bit]);
      if !ok {
        return;
      }
    }
  }

  /** Push the two end-of-packet commands and pad the last byte. */
  method PushEnd(packet: EncodedPacket) returns (ok: bool)
    requires packet.Valid()
    modifies packet`symbols, packet`pushed, packet`len, packet.bytes
    ensures packet.Valid()
    ensures ok <==> |old(packet.pushed)| + 2 <= 192
    ensures ok ==> packet.pushed == Padded(old(packet.pushed) + [Se0, Release]) && 4 * packet.len == |packet.pushed|
  {
    hide BufferByte;
    ghost var before := packet.pushed;
    ok := packet.Push(Se0);
    if ok {
      ok := packet.Push(Release);
    }
    if !ok {
      return;
    }
    assert packet.pushed == before + [Se0, Release];
    PadToByte(packet);
    packet.len := packet.symbols / 4;
  }

  /** How many commands the last buffer byte lacks. */
  function Missing(symbols: nat): nat { (4 - symbols % 4) % 4 }

  lemma MissingStep(symbols: nat)
    requires symbols % 4 != 0
    ensures Missing(symbols + 1) < Missing(symbols)
  {}

  method PadToByte(packet: EncodedPacket)
    requires packet.Valid()
    modifies packet`symbols, packet`pushed, packet.bytes
    ensures packet.Valid() && packet.pushed == Padded(old(packet.pushed))
  {
    hide BufferByte, Padded, Missing;
    while packet.symbols % 4 != 0
      invariant packet.Valid()
      invariant Padded(packet.pushed) == Padded(old(packet.pushed))
      decreases Missing(packet.symbols)
    {
      PaddedStep(packet.pushed);
      MissingStep(packet.symbols);
      var padded := packet.Push(CommandK);
      assert padded;
    }
    PaddedStep(packet.pushed);
  }

  lemma PaddedStep(symbols: seq<TxSymbol>)
    ensures Padded(symbols) == if |symbols| % 4 == 0 then symbols else Padded(symbols + [CommandK])
  {}

  /**
   * Encode a packet: it succeeds exactly when the line and the two
   * end-of-packet commands fit the buffer, and then holds exactly its commands.
   */
  method EncodePacket(raw: seq<byte>) returns (ok: bool, packet: EncodedPacket)
    ensures ok <==> |Line(raw)| + 2 <= 192
    ensures fresh(packet) && packet.Valid()
    ensures ok ==> packet.pushed == Commands(raw) && 4 * packet.len == |Commands(raw)|
  {
    packet := new EncodedPacket();
    var atJ, ones := true, 0;
    NothingEncoded();
    ghost var all := BytesToBits(raw);
    assert all[..8 * |raw|] == all;
    hide Encode, BufferByte, BytesToBits;
    for i := 0 to |raw|
      invariant fresh(packet) && fresh(packet.bytes) && packet.Valid()
      invariant Encoding(packet.pushed, atJ, ones, all[..8 * i])
    {
      ok, atJ, ones := PushByteBits(packet, raw, i, atJ, ones);
      if !ok {
        return;
      }
    }
    assert packet.pushed == Symbols(Line(raw));
    ok := PushEnd(packet);
  }

  lemma NothingEncoded()
    ensures Encoding([], true, 0, [])
  {}

  lemma PrefixOfBits(raw: seq<byte>, i: nat, bit: nat)
    requires i < |raw| && bit < 8
    ensures 8 * i + bit < |BytesToBits(raw)|
    ensures BytesToBits(raw)[..8 * i + bit] + [raw[i] & Place(bit) != 0] == BytesToBits(raw)[..8 * i + bit + 1]
  {
    hide ByteBits, Place, BytesToBits;
    BitsAround(raw, i);
    BitOfByte(raw[i], bit);
  }

  lemma BitsAround(raw: seq<byte>, i: nat)
    requires i < |raw|
    ensures BytesToBits(raw) == BytesToBits(raw[..i]) + ByteBits(raw[i]) + BytesToBits(raw[i + 1..])
  {
    hide BytesToBits, ByteBits;
    Around(raw, i);
    BitsOfThree(raw[..i], raw[i], raw[i + 1..]);
  }

  lemma BitsOfThree(before: seq<byte>, b: byte, after: seq<byte>)
    ensures BytesToBits(before + [b] + after) == BytesToBits(before) + ByteBits(b) + BytesToBits(after)
  {
    hide BytesToBits, ByteBits;
    BytesToBitsConcat(before + [b], after);
    OneMoreByte(before, b);
  }

  /** Every packet of at most twenty raw bytes fits the buffer. */
  lemma TwentyBytesFit(raw: seq<byte>)
    requires |raw| <= 20
    ensures |Line(raw)| + 2 <= 192
  {
    EncoderShape(BytesToBits(raw));
  }

  /** The commands shifted out of the packed bytes are the packet's commands, in order. */
  lemma PackedCommands(symbols: seq<TxSymbol>, index: nat)
    requires |symbols| % 4 == 0 && index < |symbols|
    ensures SymbolCode(BufferByte(symbols, index / 4), index % 4) ==
      match symbols[index]
      case Se0 => 0
      case CommandK => 1
      case Release => 2
      case CommandJ => 3
  {
    var k := index / 4;
    var four := symbols[4 * k..4 * k + 4];
    assert four == [four[0], four[1], four[2], four[3]];
    PackFour(four[0], four[1], four[2], four[3]);
  }
}
