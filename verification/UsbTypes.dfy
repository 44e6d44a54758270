/** Constants and value types shared by every layer of the host stack. */
module UsbTypes {

  type byte = bv8

  datatype Option<+T> = None | Some(value: T)

  datatype Result<+T, +E> = Ok(value: T) | Err(error: E)

  /** The errors a pipe operation reports. */
  datatype PipeError = Timeout | BadResponse | BufferOverflow | Stall | Disconnected

  const SYNC: byte := 0x80
  const PID_SOF: byte := 0xa5
  const PID_OUT: byte := 0xe1
  const PID_IN: byte := 0x69
  const PID_SETUP: byte := 0x2d
  const PID_DATA0: byte := 0xc3
  const PID_DATA1: byte := 0x4b
  const PID_ACK: byte := 0xd2
  const PID_NAK: byte := 0x5a
  const PID_STALL: byte := 0x1e

  const MAX_DECODED_BYTES: nat := 104
  const MAX_ENCODED_BYTES: nat := 48

  /** What fits a decoded packet besides SYNC, the identifier and the CRC. */
  const LARGEST_PAYLOAD: nat := MAX_DECODED_BYTES - 4

  /** A 16-bit field, low byte first. */
  function Word(low: byte, high: byte): nat { low as nat + 256 * high as nat }

  /** The bytes are the codes of these ASCII characters. */
  predicate Spells(bytes: seq<byte>, text: string) {
    |bytes| == |text| && forall i | 0 <= i < |text| :: bytes[i] as int == text[i] as int
  }

  /** The DATA0/DATA1 sequence state of one endpoint direction. */
  datatype DataToggle = Data0 | Data1 {
    function Pid(): byte {
      if Data0? then PID_DATA0 else PID_DATA1
    }

    function AfterAck(): DataToggle {
      if Data0? then Data1 else Data0
    }
  }

  /** The toggle an endpoint that started at DATA0 has after `count` packets. */
  function ToggleAfter(count: nat): DataToggle {
    if count % 2 == 0 then Data0 else Data1
  }

  lemma ToggleFlips(count: nat)
    ensures ToggleAfter(count).AfterAck() == ToggleAfter(count + 1)
    ensures ToggleAfter(count) != ToggleAfter(count + 1)
  {}

  /** The eight bits of a byte in transmission order, least significant first. */
  function ByteBits(b: byte): (bits: seq<bool>)
    ensures |bits| == 8
  {
    [b & 1 != 0, b & 2 != 0, b & 4 != 0, b & 8 != 0,
     b & 16 != 0, b & 32 != 0, b & 64 != 0, b & 128 != 0]
  }

  /** The bits of a byte string in transmission order. */
  function BytesToBits(bytes: seq<byte>): (bits: seq<bool>)
    ensures |bits| == 8 * |bytes|
  {
    if bytes == [] then [] else BytesToBits(bytes[..|bytes| - 1]) + ByteBits(bytes[|bytes| - 1])
  }

  lemma {:induction false} BytesToBitsConcat(a: seq<byte>, b: seq<byte>)
    ensures BytesToBits(a + b) == BytesToBits(a) + BytesToBits(b)
    decreases |b|
  {
    if b == [] {
      assert a + b == a;
    } else {
      var last := |b| - 1;
      assert (a + b)[..|a + b| - 1] == a + b[..last];
      BytesToBitsConcat(a, b[..last]);
    }
  }

  lemma Around<T>(s: seq<T>, i: nat)
    requires i < |s|
    ensures s == s[..i] + [s[i]] + s[i + 1..]
  {}

  lemma OneMoreByte(bytes: seq<byte>, b: byte)
    ensures BytesToBits(bytes + [b]) == BytesToBits(bytes) + ByteBits(b)
  {
    hide ByteBits;
    assert (bytes + [b])[..|bytes|] == bytes;
  }

  lemma ByteBitsInjective(a: byte, b: byte)
    requires ByteBits(a) == ByteBits(b)
    ensures a == b
  {
    assert ByteBits(a)[0] == ByteBits(b)[0] && ByteBits(a)[1] == ByteBits(b)[1];
    assert ByteBits(a)[2] == ByteBits(b)[2] && ByteBits(a)[3] == ByteBits(b)[3];
    assert ByteBits(a)[4] == ByteBits(b)[4] && ByteBits(a)[5] == ByteBits(b)[5];
    assert ByteBits(a)[6] == ByteBits(b)[6] && ByteBits(a)[7] == ByteBits(b)[7];
  }

  /** The bit string determines the byte string. */
  lemma {:induction false} BytesToBitsInjective(a: seq<byte>, b: seq<byte>)
    requires BytesToBits(a) == BytesToBits(b)
    ensures a == b
    decreases |a|
  {
    if a != [] {
      var n := |a| - 1;
      assert |b| == |a|;
      var x, y := BytesToBits(a), BytesToBits(b);
      assert x[..8 * n] == BytesToBits(a[..n]) && x[8 * n..] == ByteBits(a[n]);
      assert y[..8 * n] == BytesToBits(b[..n]) && y[8 * n..] == ByteBits(b[n]);
      BytesToBitsInjective(a[..n], b[..n]);
      ByteBitsInjective(a[n], b[n]);
      assert a == a[..n] + [a[n]] && b == b[..n] + [b[n]];
    }
  }
}
