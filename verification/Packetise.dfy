/** Splitting a transfer into packets and putting the packets back together. */
module Packetise {
  import opened UsbTypes

  type Payload = seq<byte>

  function Concat(packets: seq<Payload>): Payload {
    if packets == [] then [] else packets[0] + Concat(packets[1..])
  }

  lemma {:induction false} ConcatAppend(a: seq<Payload>, b: seq<Payload>)
    ensures Concat(a + b) == Concat(a) + Concat(b)
  {
    if a == [] {
      assert a + b == b;
    } else {
      assert (a + b)[1..] == a[1..] + b;
      ConcatAppend(a[1..], b);
    }
  }

  lemma ConcatOne(p: Payload)
    ensures Concat([p]) == p
  {
    assert Concat([p]) == p + Concat([]);
  }

  /**
   * The packets of one transfer: full ones, then the rest; a zero-length packet
   * for empty data, and after an exact multiple when the end must be marked.
   */
  function Split(data: Payload, size: nat, markEnd: bool): seq<Payload>
    requires size > 0
  {
    if |data| > size then [data[..size]] + Split(data[size..], size, markEnd)
    else if |data| == size && markEnd then [data, []]
    else [data]
  }

  /** Packets of a transfer, told by their sizes alone: all full but the last. */
  ghost predicate FullButLast(packets: seq<Payload>, size: nat) {
    && packets != []
    && (forall i | 0 <= i < |packets| - 1 :: |packets[i]| == size)
    && |packets[|packets| - 1]| <= size
  }

  lemma MulAtLeast(a: nat, b: nat, size: nat)
    requires a >= b
    ensures a * size >= b * size
  {}

  lemma QuotientAtMost(a: nat, r: nat, b: nat, s: nat, size: nat)
    requires a * size + r == b * size + s && s < size
    ensures a <= b
  {
    if a > b {
      MulAtLeast(a, b + 1, size);
    }
  }

  lemma QuotientUnique(n: nat, size: nat, q: nat, r: nat)
    requires size > 0 && n == q * size + r && r < size
    ensures n / size == q && n % size == r
  {
    assert n == (n / size) * size + n % size;
    QuotientAtMost(n / size, n % size, q, r, size);
    QuotientAtMost(q, r, n / size, n % size, size);
  }

  lemma ModBySubtraction(n: nat, size: nat)
    requires 0 < size <= n
    ensures n % size == (n - size) % size && n / size == (n - size) / size + 1
  {
    var q, r := (n - size) / size, (n - size) % size;
    assert n - size == q * size + r;
    assert (q + 1) * size == q * size + size;
    QuotientUnique(n, size, q + 1, r);
  }

  lemma SmallQuotient(n: nat, size: nat)
    requires 0 < n <= size
    ensures n < size ==> n % size == n && n / size == 0
    ensures n == size ==> n % size == 0 && n / size == 1
    ensures (n + size - 1) / size == 1
  {
    if n < size { QuotientUnique(n, size, 0, n); } else { QuotientUnique(n, size, 1, 0); }
    QuotientUnique(n + size - 1, size, 1, n - 1);
  }

  lemma FullFirst(first: Payload, rest: seq<Payload>, size: nat)
    requires |first| == size && FullButLast(rest, size)
    ensures FullButLast([first] + rest, size)
    ensures Concat([first] + rest) == first + Concat(rest)
  {
    assert ([first] + rest)[1..] == rest;
  }

  lemma OneAtMost(data: Payload, size: nat)
    requires |data| <= size
    ensures FullButLast([data], size) && Concat([data]) == data
  {
    ConcatOne(data);
  }

  lemma FullThenEmpty(data: Payload, size: nat)
    requires |data| == size > 0
    ensures FullButLast([data, []], size) && Concat([data, []]) == data
  {
    ConcatOne([]);
    FullFirst(data, [[]], size);
    assert [data] + [[]] == [data, []];
  }

  /** Splitting loses and adds nothing, fills every packet but the last, and ends as requested. */
  lemma {:induction false} PacketsAreExact(data: Payload, size: nat, markEnd: bool)
    requires size > 0
    ensures var packets := Split(data, size, markEnd);
      && Concat(packets) == data
      && FullButLast(packets, size)
      && (packets[|packets| - 1] == [] <==> data == [] || (markEnd && |data| % size == 0))
    decreases |data|
  {
    hide Concat, FullButLast;
    if |data| > size {
      PacketsAreExact(data[size..], size, markEnd);
      ModBySubtraction(|data|, size);
      var rest := Split(data[size..], size, markEnd);
      FullFirst(data[..size], rest, size);
      LastOfRest(data[..size], rest);
      assert data == data[..size] + data[size..];
    } else if |data| == size && markEnd {
      SmallQuotient(|data|, size);
      FullThenEmpty(data, size);
    } else {
      OneAtMost(data, size);
      if data != [] {
        SmallQuotient(|data|, size);
      }
    }
  }

  lemma LastOfRest<T>(first: T, rest: seq<T>)
    requires rest != []
    ensures ([first] + rest)[|rest|] == rest[|rest| - 1]
  {}

  /** How many packets the sender counts before it starts. */
  function PacketCount(length: nat, size: nat, markEnd: bool): nat
    requires size > 0
  {
    var full := (length + size - 1) / size;
    if length == 0 then 1 else if markEnd && length % size == 0 then full + 1 else full
  }

  function Min(a: nat, b: nat): nat { if a <= b then a else b }

  lemma CountBySubtraction(length: nat, size: nat, markEnd: bool)
    requires length > size > 0
    ensures PacketCount(length, size, markEnd) == PacketCount(length - size, size, markEnd) + 1
  {
    ModBySubtraction(length, size);
    ModBySubtraction(length + size - 1, size);
  }

  lemma {:induction false} CountIsExact(data: Payload, size: nat, markEnd: bool)
    requires size > 0
    ensures |Split(data, size, markEnd)| == PacketCount(|data|, size, markEnd)
    decreases |data|
  {
    if |data| > size {
      CountIsExact(data[size..], size, markEnd);
      CountBySubtraction(|data|, size, markEnd);
    } else if data != [] {
      SmallQuotient(|data|, size);
    }
  }

  /** The part of the data that the sender's index arithmetic selects. */
  function PacketAt(data: Payload, start: nat, size: nat): Payload {
    data[Min(start, |data|)..Min(Min(start, |data|) + size, |data|)]
  }

  /** The sender's index arithmetic selects exactly these packets. */
  lemma {:induction false} PacketByIndex(data: Payload, size: nat, markEnd: bool, i: nat)
    requires size > 0 && i < |Split(data, size, markEnd)|
    ensures Split(data, size, markEnd)[i] == PacketAt(data, i * size, size)
    decreases |data|
  {
    if i == 0 {
      assert 0 * size == 0;
    } else if |data| > size {
      PacketByIndex(data[size..], size, markEnd, i - 1);
      assert i * size == (i - 1) * size + size;
      ShiftedPacket(data, (i - 1) * size, size);
    } else {
      assert i == 1 && 1 * size == size;
    }
  }

  lemma ShiftedPacket(data: Payload, start: nat, size: nat)
    requires size <= |data|
    ensures PacketAt(data[size..], start, size) == PacketAt(data, start + size, size)
  {}

  // ----- reassembly ---------------------------------------------------------------------

  /**
   * The packets a receiver takes off a stream for one transfer into `capacity`
   * bytes: it stops after a short packet and when the buffer is full.
   */
  ghost predicate OneTransfer(packets: seq<Payload>, size: nat, capacity: nat) {
    && FullButLast(packets, size)
    && |Concat(packets)| <= capacity
    && (|packets[|packets| - 1]| < size || |Concat(packets)| == capacity)
    && forall i | 0 <= i < |packets| :: |Concat(packets[..i])| < capacity
  }

  /** Taking the first, full packet off leaves one transfer into the remaining buffer. */
  lemma DropFirst(packets: seq<Payload>, size: nat, capacity: nat)
    requires OneTransfer(packets, size, capacity) && |packets| > 1
    ensures |packets[0]| == size && size < capacity
    ensures OneTransfer(packets[1..], size, capacity - size)
    ensures Concat(packets) == packets[0] + Concat(packets[1..])
  {
    var tail := packets[1..];
    assert packets[..1] == [packets[0]];
    ConcatOne(packets[0]);
    assert |Concat(packets[..1])| < capacity;
    forall i | 0 <= i < |tail| ensures |Concat(tail[..i])| < capacity - size {
      assert packets[..i + 1] == [packets[0]] + tail[..i];
      ConcatAppend([packets[0]], tail[..i]);
      assert |Concat(packets[..i + 1])| < capacity;
    }
    forall i | 0 <= i < |tail| - 1 ensures |tail[i]| == size {
      assert tail[i] == packets[i + 1];
    }
  }

  lemma OnlyPacket(packets: seq<Payload>, size: nat, capacity: nat)
    requires OneTransfer(packets, size, capacity) && |packets| == 1
    ensures packets == [packets[0]] && Concat(packets) == packets[0]
    ensures |packets[0]| < size || |packets[0]| == capacity
  {
    assert packets == [packets[0]];
    ConcatOne(packets[0]);
  }

  /** Reassembly of at most one packet of data. */
  lemma ReassembleSmall(data: Payload, size: nat, capacity: nat, rest: seq<Payload>, taken: seq<Payload>)
    requires 0 < size && |data| <= size && |data| <= capacity
    requires taken <= Split(data, size, true) + rest && OneTransfer(taken, size, capacity)
    ensures taken == if |data| == size && capacity > size then [data, []] else [data]
    ensures Concat(taken) == data
  {
    var all := Split(data, size, true);
    assert taken[0] == (all + rest)[0] == data;
    if |taken| == 1 {
      OnlyPacket(taken, size, capacity);
    } else {
      DropFirst(taken, size, capacity);
      assert taken[1] == (all + rest)[1] == [];
      assert |taken| == 2;
      OnlyPacket(taken[1..], size, capacity - size);
      assert taken == [data, []];
    }
  }

  /**
   * Reassembly inverts packetisation: whoever takes one transfer off a stream
   * that starts with the packets of `data` gets exactly `data`, and stops at
   * the end of the transfer - except that with a buffer of exactly the size of
   * the data a marking zero-length packet is left on the stream.
   */
  lemma {:induction false} ReassemblyInvertsPackets(data: Payload, size: nat, capacity: nat, rest: seq<Payload>,
                                                    taken: seq<Payload>)
    requires size > 0 && |data| <= capacity
    requires taken <= Split(data, size, true) + rest
    requires OneTransfer(taken, size, capacity)
    ensures Concat(taken) == data
    ensures taken == if data != [] && |data| == capacity && |data| % size == 0 then Split(data, size, false)
                     else Split(data, size, true)
    decreases |data|
  {
    if |data| > size {
      var all := Split(data, size, true);
      assert taken[0] == (all + rest)[0] == all[0];
      if |taken| == 1 {
        OnlyPacket(taken, size, capacity);
      } else {
        DropFirst(taken, size, capacity);
        assert (all + rest)[1..] == Split(data[size..], size, true) + rest;
        ReassemblyInvertsPackets(data[size..], size, capacity - size, rest, taken[1..]);
        assert taken == [taken[0]] + taken[1..];
        ModBySubtraction(|data|, size);
      }
    } else {
      ReassembleSmall(data, size, capacity, rest, taken);
      if data != [] { SmallQuotient(|data|, size); }
    }
  }
}
