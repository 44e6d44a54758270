/**
 * Byte streams over bulk packets: CDC-ACM data, and FTDI data with two status
 * bytes in front of every packet.
 */
module SerialStreams {
  import opened UsbTypes
  import opened Packetise

  /** The part of a packet that belongs to the stream: everything after `skip` status bytes. */
  function StreamPart(p: Payload, skip: nat): Payload {
    if |p| > skip then p[skip..] else []
  }

  /** The stream that a list of packets carries. */
  function StreamOf(packets: seq<Payload>, skip: nat): Payload {
    if packets == [] then []
    else StreamOf(packets[..|packets| - 1], skip) + StreamPart(packets[|packets| - 1], skip)
  }

  lemma StreamAppend(packets: seq<Payload>, p: Payload, skip: nat)
    ensures StreamOf(packets + [p], skip) == StreamOf(packets, skip) + StreamPart(p, skip)
  {
    assert (packets + [p])[..|packets|] == packets;
  }

  lemma {:induction false} StreamConcat(a: seq<Payload>, b: seq<Payload>, skip: nat)
    ensures StreamOf(a + b, skip) == StreamOf(a, skip) + StreamOf(b, skip)
    decreases |b|
  {
    if b == [] {
      assert a + b == a;
    } else {
      assert (a + b)[..|a + b| - 1] == a + b[..|b| - 1];
      StreamConcat(a, b[..|b| - 1], skip);
    }
  }

  /** Without status bytes the stream is the packets one after the other; empty ones leave no trace. */
  lemma {:induction false} PlainStream(packets: seq<Payload>)
    ensures StreamOf(packets, 0) == Concat(packets)
  {
    if packets != [] {
      var n := |packets| - 1;
      PlainStream(packets[..n]);
      assert packets == packets[..n] + [packets[n]];
      ConcatAppend(packets[..n], [packets[n]]);
      ConcatOne(packets[n]);
    }
  }

  /** One received packet, of which `start..end` has not been read yet. */
  class ReceiveBuffer {
    const rxPacket: array<byte>
    var rxStart: nat
    var rxEnd: nat

    ghost predicate Valid()
      reads this
    {
      rxStart <= rxEnd <= rxPacket.Length && (rxStart == rxEnd ==> rxStart == 0)
    }

    ghost function Buffered(): Payload
      reads this, rxPacket
      requires Valid()
    {
      rxPacket[rxStart..rxEnd]
    }

    constructor (capacity: nat)
      ensures Valid() && Buffered() == [] && rxPacket.Length == capacity && fresh(rxPacket)
    {
      rxPacket := new byte[capacity](_ => 0);
      rxStart, rxEnd := 0, 0;
    }

    /** The pipe puts a packet into the buffer. */
    method Receive(p: Payload)
      requires Valid() && rxStart == rxEnd && |p| <= rxPacket.Length
      modifies rxPacket
      ensures rxPacket[..|p|] == p
    {
      forall i | 0 <= i < |p| {
        rxPacket[i] := p[i];
      }
    }

    method CopyBuffered(buffer: array<byte>) returns (count: nat)
      requires Valid() && buffer != rxPacket
      modifies this, buffer
      ensures Valid() && count == Min(buffer.Length, |old(Buffered())|)
      ensures old(Buffered()) == buffer[..count] + Buffered()
    {
      ghost var before := Buffered();
      count := Min(buffer.Length, rxEnd - rxStart);
      forall i | 0 <= i < count {
        buffer[i] := rxPacket[rxStart + i];
      }
      rxStart := rxStart + count;
      assert buffer[..count] == before[..count];
      assert rxPacket[rxStart..rxEnd] == before[count..];
      if rxStart == rxEnd {
        rxStart, rxEnd := 0, 0;
      }
    }
  }

  /** The bulk IN pipe of a serial device: packets still to come, and how it fails after them. */
  datatype Pipe = Pipe(incoming: seq<Payload>, dry: PipeError)

  class CdcAcmHost {
    const rx: ReceiveBuffer
    const packetSize: nat
    var pipe: Pipe
    /** Packets taken off the pipe, and bytes handed to callers. */
    ghost var arrived: seq<Payload>
    ghost var delivered: Payload

    ghost predicate Valid()
      reads this, rx, rx.rxPacket
    {
      && rx.Valid()
      && (forall i | 0 <= i < |pipe.incoming| :: |pipe.incoming[i]| <= packetSize)
      && Concat(arrived) == delivered + rx.Buffered()
    }

    constructor (capacity: nat, packetSize: nat, pipe: Pipe)
      requires forall i | 0 <= i < |pipe.incoming| :: |pipe.incoming[i]| <= packetSize
      ensures Valid() && arrived == [] && delivered == [] && this.pipe == pipe && this.packetSize == packetSize
      ensures fresh(rx) && fresh(rx.rxPacket) && rx.rxPacket.Length == capacity
    {
      rx := new ReceiveBuffer(capacity);
      this.packetSize, this.pipe := packetSize, pipe;
      arrived, delivered := [], [];
    }

    /**
     * Read some bytes of the stream. Reads of any sizes together deliver the
     * packets' bytes in order: what was delivered and what is buffered is
     * always the concatenation of the packets that arrived.
     */
    method Read(buffer: array<byte>) returns (result: Result<nat, PipeError>)
      requires Valid() && buffer != rx.rxPacket
      modifies this, rx, rx.rxPacket, buffer
      ensures Valid()
      ensures buffer.Length == 0 ==> result == Ok(0)
      ensures arrived + pipe.incoming == old(arrived) + old(pipe).incoming && pipe.dry == old(pipe).dry
      ensures result.Ok? ==> result.value <= buffer.Length && delivered == old(delivered) + buffer[..result.value]
      ensures result.Ok? && buffer.Length > 0 ==> result.value > 0
      ensures result.Err? ==> delivered == old(delivered)
      ensures result.Err? ==>
        && old(rx.rxStart == rx.rxEnd)
        && if packetSize > rx.rxPacket.Length then result.error == BufferOverflow && arrived == old(arrived)
           else pipe.incoming == [] && result.error == pipe.dry
    {
      if buffer.Length == 0 {
        assert delivered + buffer[..0] == delivered;
        return Ok(0);
      }
      if rx.rxStart == rx.rxEnd {
        if packetSize > rx.rxPacket.Length {
          return Err(BufferOverflow);
        }
        var failure := AwaitData();
        if failure.Some? {
          return Err(failure.value);
        }
      }
      ghost var buffered := rx.Buffered();
      var count := rx.CopyBuffered(buffer);
      assert delivered + buffered == (delivered + buffer[..count]) + rx.Buffered();
      delivered := delivered + buffer[..count];
      return Ok(count);
    }

    /** Take packets until one has data; empty ones only delimit transfers. */
    method AwaitData() returns (failure: Option<PipeError>)
      requires Valid() && rx.rxStart == rx.rxEnd && packetSize <= rx.rxPacket.Length
      modifies this`pipe, this`arrived, rx, rx.rxPacket
      ensures Valid() && arrived + pipe.incoming == old(arrived) + old(pipe).incoming && pipe.dry == old(pipe).dry
      ensures failure.None? ==> rx.Buffered() != []
      ensures failure.Some? ==> failure.value == pipe.dry && pipe.incoming == [] && rx.Buffered() == []
    {
      hide Concat;
      while true
        invariant Valid() && rx.rxStart == rx.rxEnd
        invariant arrived + pipe.incoming == old(arrived) + old(pipe).incoming && pipe.dry == old(pipe).dry
        decreases |pipe.incoming|
      {
        if pipe.incoming == [] {
          return Some(pipe.dry);
        }
        var p := pipe.incoming[0];
        assert pipe.incoming == [p] + pipe.incoming[1..];
        assert arrived + ([p] + pipe.incoming[1..]) == (arrived + [p]) + pipe.incoming[1..];
        ConcatAppend(arrived, [p]);
        ConcatOne(p);
        rx.Receive(p);
        arrived := arrived + [p];
        pipe := pipe.(incoming := pipe.incoming[1..]);
        if |p| != 0 {
          rx.rxStart, rx.rxEnd := 0, |p|;
          assert rx.Buffered() == p;
          return None;
        }
      }
      assert false;
    }
  }

  datatype FtdiStatus = FtdiStatus(modem: byte, line: byte)

  /** The status after some packets: that of the last one with at least two bytes. */
  function StatusAfter(initial: FtdiStatus, packets: seq<Payload>): FtdiStatus {
    if packets == [] then initial
    else
      var last := packets[|packets| - 1];
      if |last| >= 2 then FtdiStatus(last[0], last[1]) else StatusAfter(initial, packets[..|packets| - 1])
  }

  lemma StatusAppend(initial: FtdiStatus, packets: seq<Payload>, p: Payload)
    ensures StatusAfter(initial, packets + [p]) ==
      if |p| >= 2 then FtdiStatus(p[0], p[1]) else StatusAfter(initial, packets)
  {
    assert (packets + [p])[..|packets|] == packets;
  }

  const STATUS_BYTES: nat := 2

  class FtdiHost {
    const rx: ReceiveBuffer
    const packetSize: nat
    const initial: FtdiStatus
    var pipe: Pipe
    var status: FtdiStatus
    ghost var arrived: seq<Payload>
    ghost var delivered: Payload

    ghost predicate Valid()
      reads this, rx, rx.rxPacket
    {
      && rx.Valid() && packetSize <= rx.rxPacket.Length
      && (forall i | 0 <= i < |pipe.incoming| :: |pipe.incoming[i]| <= packetSize)
      && StreamOf(arrived, STATUS_BYTES) == delivered + rx.Buffered()
      && status == StatusAfter(initial, arrived)
    }

    constructor (capacity: nat, packetSize: nat, initial: FtdiStatus, pipe: Pipe)
      requires packetSize <= capacity && forall i | 0 <= i < |pipe.incoming| :: |pipe.incoming[i]| <= packetSize
      ensures Valid() && arrived == [] && delivered == [] && this.pipe == pipe
      ensures fresh(rx) && fresh(rx.rxPacket)
    {
      rx := new ReceiveBuffer(capacity);
      this.packetSize, this.pipe, this.initial := packetSize, pipe, initial;
      status, arrived, delivered := initial, [], [];
    }

    /**
     * Read some serial bytes. Reads of any sizes together deliver every
     * packet's bytes after its two status bytes, in order; the status is that
     * of the last packet that carried one.
     */
    method Read(buffer: array<byte>) returns (result: Result<nat, PipeError>)
      requires Valid() && buffer != rx.rxPacket
      modifies this, rx, rx.rxPacket, buffer
      ensures Valid()
      ensures buffer.Length == 0 ==> result == Ok(0)
      ensures arrived + pipe.incoming == old(arrived) + old(pipe).incoming && pipe.dry == old(pipe).dry
      ensures result.Ok? ==> result.value <= buffer.Length && delivered == old(delivered) + buffer[..result.value]
      ensures result.Ok? && buffer.Length > 0 ==> result.value > 0
      ensures result.Err? ==>
        old(rx.rxStart == rx.rxEnd) && delivered == old(delivered) && pipe.incoming == [] && result.error == pipe.dry
    {
      if buffer.Length == 0 {
        assert delivered + buffer[..0] == delivered;
        return Ok(0);
      }
      if rx.rxStart == rx.rxEnd {
        var failure := AwaitData();
        if failure.Some? {
          return Err(failure.value);
        }
      }
      ghost var buffered := rx.Buffered();
      var count := rx.CopyBuffered(buffer);
      assert delivered + buffered == (delivered + buffer[..count]) + rx.Buffered();
      delivered := delivered + buffer[..count];
      return Ok(count);
    }

    /** Take packets until one has more than its status bytes. */
    method AwaitData() returns (failure: Option<PipeError>)
      requires Valid() && rx.rxStart == rx.rxEnd
      modifies this`pipe, this`arrived, this`status, rx, rx.rxPacket
      ensures Valid() && arrived + pipe.incoming == old(arrived) + old(pipe).incoming && pipe.dry == old(pipe).dry
      ensures failure.None? ==> rx.Buffered() != []
      ensures failure.Some? ==> failure.value == pipe.dry && pipe.incoming == [] && rx.Buffered() == []
    {
      hide StreamOf, StatusAfter;
      while true
        invariant Valid() && rx.rxStart == rx.rxEnd
        invariant arrived + pipe.incoming == old(arrived) + old(pipe).incoming && pipe.dry == old(pipe).dry
        decreases |pipe.incoming|
      {
        if pipe.incoming == [] {
          return Some(pipe.dry);
        }
        var p := pipe.incoming[0];
        assert pipe.incoming == [p] + pipe.incoming[1..];
        assert arrived + ([p] + pipe.incoming[1..]) == (arrived + [p]) + pipe.incoming[1..];
        StreamAppend(arrived, p, STATUS_BYTES);
        StatusAppend(initial, arrived, p);
        rx.Receive(p);
        arrived := arrived + [p];
        pipe := pipe.(incoming := pipe.incoming[1..]);
        if |p| >= 2 {
          assert rx.rxPacket[0] == p[0] && rx.rxPacket[1] == p[1];
          status := FtdiStatus(rx.rxPacket[0], rx.rxPacket[1]);
        }
        if |p| > 2 {
          rx.rxStart, rx.rxEnd := 2, |p|;
          assert rx.Buffered() == p[2..];
          return None;
        }
      }
      assert false;
    }
  }
}
