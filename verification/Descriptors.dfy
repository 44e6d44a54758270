/**
 * The descriptors of a configuration (section 9.6 of USB 2.0): the iterator
 * that cuts them out of the received bytes, and the interface and endpoint
 * descriptors.
 */
module Descriptors {
  import opened UsbTypes
  import opened Packetise

  const TYPE_CONFIGURATION: byte := 0x02
  const TYPE_INTERFACE: byte := 0x04
  const TYPE_ENDPOINT: byte := 0x05
  const TYPE_CLASS_INTERFACE: byte := 0x24

  datatype ConfigurationError =
    | TooShort | InvalidLength | InvalidType | InvalidTotalLength | InvalidConfigurationValue | InvalidAttributes
    | InvalidDescriptorLength | DescriptorOverrun | InvalidInterfaceDescriptor | InvalidFunctionalDescriptor
    | InvalidEndpointDescriptor | MissingControlInterface | MissingCdcHeader | MissingAcmDescriptor
    | MissingUnionDescriptor | InvalidUnionDescriptor | MissingDataInterface | AmbiguousDataInterface
    | MissingBulkInEndpoint | MissingBulkOutEndpoint

  datatype Header = Header(totalLength: nat, interfaces: byte, value: byte, stringIndex: byte,
                           attributes: byte, maxPowerMa: nat)

  function ParseHeader(bytes: seq<byte>): Result<Header, ConfigurationError> {
    if |bytes| < 9 then Err(TooShort)
    else if bytes[0] != 9 then Err(InvalidLength)
    else if bytes[1] != TYPE_CONFIGURATION then Err(InvalidType)
    else if Word(bytes[2], bytes[3]) < 9 then Err(InvalidTotalLength)
    else if bytes[5] == 0 then Err(InvalidConfigurationValue)
    else if bytes[7] & 0x80 == 0 || bytes[7] & 0x1f != 0 then Err(InvalidAttributes)
    else Ok(Header(Word(bytes[2], bytes[3]), bytes[4], bytes[5], bytes[6], bytes[7], bytes[8] as nat * 2))
  }

  // ----- framing ------------------------------------------------------------------------

  type Descriptor = d: seq<byte> | |d| >= 2 witness [2, 0]

  /** The size that a descriptor's first byte states. */
  function SizeOf(first: byte): nat { first as nat }

  /** The descriptors in order, and the error that ends them early, if any. */
  datatype Framing = Framing(descriptors: seq<Descriptor>, error: Option<ConfigurationError>)

  function Frames(rest: seq<byte>): Framing {
    if rest == [] then Framing([], None)
    else if |rest| < 2 then Framing([], Some(DescriptorOverrun))
    else if SizeOf(rest[0]) < 2 then Framing([], Some(InvalidDescriptorLength))
    else if SizeOf(rest[0]) > |rest| then Framing([], Some(DescriptorOverrun))
    else
      var n := SizeOf(rest[0]);
      var more := Frames(rest[n..]);
      Framing([rest[..n]] + more.descriptors, more.error)
  }

  /** Framing of a whole configuration, once its header is accepted. */
  function Open(bytes: seq<byte>): Result<Framing, ConfigurationError> {
    match ParseHeader(bytes)
    case Err(error) => Err(error)
    case Ok(header) =>
      if |bytes| < header.totalLength then Err(DescriptorOverrun) else Ok(Frames(bytes[..header.totalLength]))
  }

  ghost predicate SelfSized(ds: seq<Descriptor>) {
    forall i | 0 <= i < |ds| :: SizeOf(ds[i][0]) == |ds[i]|
  }

  /** Why no descriptor starts at `left`: it is empty, too short, or its length field is wrong. */
  ghost predicate Stops(left: seq<byte>, error: Option<ConfigurationError>) {
    if |left| < 2 then error == if left == [] then None else Some(DescriptorOverrun)
    else if SizeOf(left[0]) < 2 then error == Some(InvalidDescriptorLength)
    else SizeOf(left[0]) > |left| && error == Some(DescriptorOverrun)
  }

  /** The descriptors tile a prefix of the bytes; what stops them is the length field that follows. */
  lemma {:induction false} FramesTile(rest: seq<byte>)
    ensures SelfSized(Frames(rest).descriptors)
    ensures Concat(Frames(rest).descriptors) <= rest
    ensures Stops(rest[|Concat(Frames(rest).descriptors)|..], Frames(rest).error)
    decreases |rest|
  {
    hide Concat, Stops, SizeOf;
    if |rest| >= 2 && 2 <= SizeOf(rest[0]) <= |rest| {
      var n := SizeOf(rest[0]);
      var more := Frames(rest[n..]);
      FramesTile(rest[n..]);
      FirstTile(rest, n, more.descriptors);
    } else {
      NoTiles(rest);
    }
  }

  lemma NoTiles(rest: seq<byte>)
    requires |rest| < 2 || !(2 <= SizeOf(rest[0]) <= |rest|)
    ensures Concat([]) == [] && rest[|Concat([])|..] == rest && Stops(rest, Frames(rest).error)
  {}

  lemma FirstTile(rest: seq<byte>, n: nat, more: seq<Payload>)
    requires n <= |rest| && Concat(more) <= rest[n..]
    ensures Concat([rest[..n]] + more) == rest[..n] + Concat(more)
    ensures Concat([rest[..n]] + more) <= rest
    ensures rest[|Concat([rest[..n]] + more)|..] == rest[n..][|Concat(more)|..]
  {
    assert ([rest[..n]] + more)[1..] == more;
  }

  /** There is only one way to cut bytes into descriptors that carry their own lengths. */
  lemma {:induction false} FramesUnique(ds: seq<Descriptor>)
    requires SelfSized(ds)
    ensures Frames(Concat(ds)) == Framing(ds, None)
  {
    if ds != [] {
      var bytes, first, rest := Concat(ds), ds[0], ds[1..];
      FramesUnique(rest);
      assert bytes == first + Concat(rest);
      assert bytes[0] == first[0] && bytes[..|first|] == first && bytes[|first|..] == Concat(rest);
    }
  }

  function Cut(bytes: seq<byte>, start: nat, length: nat): Descriptor
    requires 2 <= length && start + length <= |bytes|
  {
    bytes[start..start + length]
  }

  lemma CutInTwo<T>(s: seq<T>, start: nat, middle: nat, end: nat)
    requires start <= middle <= end <= |s|
    ensures s[start..end][..middle - start] == s[start..middle]
    ensures s[start..end][middle - start..] == s[middle..end]
  {}

  /** One call yields the next descriptor, or the one error, or nothing. */
  ghost predicate Yields(before: Framing, item: Option<Result<Descriptor, ConfigurationError>>, after: Framing) {
    var ds := before.descriptors;
    if ds != [] then item == Some(Ok(ds[0])) && after == Framing(ds[1..], before.error)
    else if before.error.Some? then item == Some(Err(before.error.value)) && after == Framing([], None)
    else item == None && after == before
  }

  /** What the framing of the bytes between two offsets yields, by the length field at its start. */
  lemma FirstYield(bytes: seq<byte>, start: nat, end: nat)
    requires start < end <= |bytes|
    ensures var before, left := Frames(bytes[start..end]), end - start;
      if left < 2 then Yields(before, Some(Err(DescriptorOverrun)), Framing([], None))
      else
        var length := SizeOf(bytes[start]);
        if length < 2 then Yields(before, Some(Err(InvalidDescriptorLength)), Framing([], None))
        else if length > left then Yields(before, Some(Err(DescriptorOverrun)), Framing([], None))
        else Yields(before, Some(Ok(Cut(bytes, start, length))), Frames(bytes[start + length..end]))
  {
    var rest, length := bytes[start..end], SizeOf(bytes[start]);
    assert rest[0] == bytes[start];
    hide SizeOf;
    if 2 <= length <= end - start {
      CutInTwo(bytes, start, start + length, end);
      assert Frames(rest).descriptors[1..] == Frames(bytes[start + length..end]).descriptors;
    }
  }

  lemma NoYield()
    ensures Frames([]) == Framing([], None) && Yields(Framing([], None), None, Framing([], None))
  {}

  /** Walks the descriptors of one configuration, and stops for good at the first framing error. */
  class DescriptorIter {
    const bytes: seq<byte>
    const totalLength: nat
    var offset: nat
    var failed: bool

    ghost predicate Valid()
      reads this
    {
      offset <= totalLength <= |bytes|
    }

    /** Everything that will still be yielded. */
    ghost function Rest(): Framing
      reads this
      requires Valid()
    {
      if failed then Framing([], None) else Frames(bytes[offset..totalLength])
    }

    constructor (bytes: seq<byte>, header: Header)
      requires header.totalLength <= |bytes|
      ensures Valid() && Rest() == Frames(bytes[..header.totalLength])
    {
      this.bytes, totalLength := bytes, header.totalLength;
      offset, failed := 0, false;
    }

    method Next() returns (item: Option<Result<Descriptor, ConfigurationError>>)
      requires Valid()
      modifies this
      ensures Valid()
      ensures Yields(old(Rest()), item, Rest())
    {
      NoYield();
      if failed || offset == totalLength {
        return None;
      }
      FirstYield(bytes, offset, totalLength);
      hide Frames, Yields, SizeOf, Cut;
      if totalLength - offset < 2 {
        failed := true;
        return Some(Err(DescriptorOverrun));
      }
      var length := SizeOf(bytes[offset]);
      if length < 2 {
        failed := true;
        return Some(Err(InvalidDescriptorLength));
      }
      if length > totalLength - offset {
        failed := true;
        return Some(Err(DescriptorOverrun));
      }
      var start := offset;
      offset := offset + length;
      return Some(Ok(Cut(bytes, start, length)));
    }
  }

  // ----- interfaces and endpoints ---------------------------------------------------------

  const CLASS_COMMUNICATIONS: byte := 0x02
  const SUBCLASS_ACM: byte := 0x02
  const CLASS_CDC_DATA: byte := 0x0a

  datatype Interface = Interface(number: byte, alternate: byte, endpointCount: byte,
                                 class_: byte, subclass: byte, protocol: byte) {
    predicate IsAcmControl() {
      alternate == 0 && class_ == CLASS_COMMUNICATIONS && subclass == SUBCLASS_ACM
    }
  }

  function ParseInterface(d: Descriptor): Option<Interface> {
    if |d| != 9 || d[1] != TYPE_INTERFACE then None
    else Some(Interface(d[2], d[3], d[4], d[5], d[6], d[7]))
  }

  datatype Endpoint = Endpoint(address: byte, attributes: byte, maxPacketSize: nat, interval: byte) {
    predicate IsIn() { address & 0x80 != 0 }

    predicate IsSupportedBulk() {
      attributes & 0x03 == 0x02 && attributes & 0xfc == 0 && maxPacketSize in {8, 16, 32, 64, 512}
    }

    predicate IsSupportedInterruptIn() {
      IsIn() && attributes & 0x03 == 0x03 && attributes & 0xfc == 0 && maxPacketSize <= 64 && interval != 0
    }
  }

  function ParseEndpoint(d: Descriptor): Option<Endpoint> {
    if |d| != 7 || d[1] != TYPE_ENDPOINT then None
    else
      var raw := Word(d[4], d[5]);
      if d[2] & 0x70 != 0 || d[2] & 0x0f == 0 || raw == 0 || raw > 0x7ff then None
      else Some(Endpoint(d[2], d[3], raw, d[6]))
  }

  // ----- the same by bytes ----------------------------------------------------------------

  /** A configuration header is read exactly from nine bytes of this layout (table 9-10). */
  lemma HeaderLayout(bytes: seq<byte>, h: Header)
    ensures ParseHeader(bytes) == Ok(h) <==>
      && |bytes| >= 9 && bytes[0] == 9 && bytes[1] == 2
      && h.totalLength == bytes[2] as nat + 256 * bytes[3] as nat >= 9
      && h.interfaces == bytes[4] && h.value == bytes[5] != 0 && h.stringIndex == bytes[6]
      && h.attributes == bytes[7] && h.attributes in {0x80, 0xa0, 0xc0, 0xe0}
      && h.maxPowerMa == 2 * bytes[8] as nat
  {
    if |bytes| >= 9 {
      Attributes(bytes[7]);
    }
  }

  /** Why a configuration header is refused: the first thing wrong with it. */
  lemma HeaderErrors(bytes: seq<byte>, error: ConfigurationError)
    ensures ParseHeader(bytes) == Err(error) <==>
      if |bytes| < 9 then error == TooShort
      else if bytes[0] != 9 then error == InvalidLength
      else if bytes[1] != 2 then error == InvalidType
      else if bytes[3] == 0 && bytes[2] < 9 then error == InvalidTotalLength
      else if bytes[5] == 0 then error == InvalidConfigurationValue
      else bytes[7] !in {0x80, 0xa0, 0xc0, 0xe0} && error == InvalidAttributes
  {
    if |bytes| >= 9 {
      Attributes(bytes[7]);
    }
  }

  lemma Attributes(a: byte)
    ensures a & 0x80 != 0 && a & 0x1f == 0 <==> a in {0x80, 0xa0, 0xc0, 0xe0}
  {}

  /** An interface descriptor is read exactly from nine bytes of this layout (table 9-12). */
  lemma InterfaceLayout(d: Descriptor, i: Interface)
    ensures ParseInterface(d) == Some(i) <==>
      && |d| == 9 && d[1] == 4 && i.number == d[2] && i.alternate == d[3] && i.endpointCount == d[4]
      && i.class_ == d[5] && i.subclass == d[6] && i.protocol == d[7]
    ensures i.IsAcmControl() <==> i.alternate == 0 && i.class_ == 2 && i.subclass == 2
  {}

  /** An endpoint descriptor is read exactly from seven bytes of this layout (table 9-13), numbered 1 to 15. */
  lemma EndpointLayout(d: Descriptor, e: Endpoint)
    ensures ParseEndpoint(d) == Some(e) <==>
      && |d| == 7 && d[1] == 5 && e.address == d[2] && e.attributes == d[3] && e.interval == d[6]
      && e.maxPacketSize == d[4] as nat + 256 * d[5] as nat && 1 <= e.maxPacketSize <= 2047
      && (0x01 <= e.address <= 0x0f || 0x81 <= e.address <= 0x8f)
  {
    AddressRanges(e.address);
    if |d| == 7 {
      AddressRanges(d[2]);
    }
  }

  lemma AddressRanges(a: byte)
    ensures a & 0x70 == 0 && a & 0x0f != 0 <==> 0x01 <= a <= 0x0f || 0x81 <= a <= 0x8f
    ensures a & 0x80 != 0 <==> 0x80 <= a
  {}

  /** Which endpoints serve a serial function: bulk ones of a bulk packet size, and a polled interrupt IN one. */
  lemma EndpointKinds(e: Endpoint)
    ensures e.IsIn() <==> 0x80 <= e.address
    ensures e.IsSupportedBulk() <==> e.attributes == 2 && e.maxPacketSize in {8, 16, 32, 64, 512}
    ensures e.IsSupportedInterruptIn() <==>
      0x80 <= e.address && e.attributes == 3 && e.maxPacketSize <= 64 && e.interval != 0
  {
    AddressRanges(e.address);
    TransferType(e.attributes);
  }

  lemma TransferType(a: byte)
    ensures a & 0x03 == 0x02 && a & 0xfc == 0 <==> a == 2
    ensures a & 0x03 == 0x03 && a & 0xfc == 0 <==> a == 3
  {}
}
