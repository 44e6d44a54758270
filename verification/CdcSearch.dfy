/**
 * The discovery algorithms as they run: repeated walks over the descriptors,
 * the set of control interfaces already tried, and the first valid function.
 */
module CdcSearch {
  import opened UsbTypes
  import opened Descriptors
  import opened CdcAcm
  import opened CdcDiscovery

  /** The framing and header of a configuration that can be walked. */
  predicate Walkable(bytes: seq<byte>, header: Header) {
    ParseHeader(bytes) == Ok(header) && header.totalLength <= |bytes|
  }

  function FramingOf(bytes: seq<byte>, header: Header): Framing
    requires Walkable(bytes, header)
  {
    Frames(bytes[..header.totalLength])
  }

  method InterfaceExists(bytes: seq<byte>, header: Header, number: byte)
    returns (result: Result<bool, ConfigurationError>)
    requires Walkable(bytes, header)
    ensures result == Exists(FramingOf(bytes, header), number)
  {
    var iter := new DescriptorIter(bytes, header);
    hide Frames, ZeroInterface, MalformedInterface, ParseHeader;
    while true
      invariant iter.Valid() && fresh(iter)
      invariant Exists(iter.Rest(), number) == Exists(FramingOf(bytes, header), number)
      decreases |iter.Rest().descriptors|
    {
      var item := iter.Next();
      if item.None? {
        return Ok(false);
      }
      if item.value.Err? {
        return Err(item.value.error);
      }
      if ZeroInterface(item.value.value, number) {
        return Ok(true);
      }
      if MalformedInterface(item.value.value, number) {
        return Err(InvalidInterfaceDescriptor);
      }
    }
    assert false;
  }

  method DiscoverDataInterface(bytes: seq<byte>, header: Header, number: byte)
    returns (result: Result<Option<DataInterface>, ConfigurationError>)
    requires Walkable(bytes, header)
    ensures result == DataAt(FramingOf(bytes, header), number)
  {
    var iter := new DescriptorIter(bytes, header);
    var walked := WalkDescriptors(iter, DataSearch(number));
    hide PassResult;
    if walked.Err? {
      return Err(walked.error);
    }
    var selected, parts := walked.value.selected, walked.value.parts;
    if selected.None? || selected.value.class_ != CLASS_CDC_DATA {
      return Ok(None);
    }
    if selected.value.subclass != 0 {
      return Err(InvalidInterfaceDescriptor);
    }
    if selected.value.endpointCount as nat != parts.count {
      return Err(InvalidEndpointDescriptor);
    }
    if parts.out.None? {
      return Err(MissingBulkOutEndpoint);
    }
    if parts.in_.None? {
      return Err(MissingBulkInEndpoint);
    }
    if selected.value.endpointCount != 2 {
      return Err(InvalidEndpointDescriptor);
    }
    return Ok(Some(DataInterface(number, parts.out.value, parts.in_.value)));
  }

  /** Every subordinate must be another, existing interface, listed once. */
  method CheckSubordinates(bytes: seq<byte>, header: Header, subordinates: seq<byte>, number: byte)
    returns (error: Option<ConfigurationError>)
    requires Walkable(bytes, header)
    ensures error == SubordinateError(FramingOf(bytes, header), subordinates, number, 0)
  {
    hide ParseHeader, Frames, Exists;
    var index := 0;
    while index < |subordinates|
      invariant index <= |subordinates|
      invariant SubordinateError(FramingOf(bytes, header), subordinates, number, 0)
             == SubordinateError(FramingOf(bytes, header), subordinates, number, index)
    {
      var subordinate := subordinates[index];
      if subordinate == number || subordinate in subordinates[..index] {
        return Some(InvalidUnionDescriptor);
      }
      var exists_ := InterfaceExists(bytes, header, subordinate);
      if exists_.Err? {
        return Some(exists_.error);
      }
      if !exists_.value {
        return Some(InvalidUnionDescriptor);
      }
      index := index + 1;
    }
    return None;
  }

  lemma {:induction false} SelectStays(f: Framing, subordinates: seq<byte>, n: nat)
    requires n <= |subordinates| && Select(f, subordinates[..n]).Err?
    ensures Select(f, subordinates) == Select(f, subordinates[..n])
    decreases |subordinates|
  {
    hide DataAt;
    if n == |subordinates| {
      assert subordinates[..n] == subordinates;
    } else {
      var before := subordinates[..|subordinates| - 1];
      assert before[..n] == subordinates[..n];
      SelectStays(f, before, n);
    }
  }

  /** The only data interface among the subordinates. */
  method SelectDataInterface(bytes: seq<byte>, header: Header, subordinates: seq<byte>)
    returns (result: Result<Option<DataInterface>, ConfigurationError>)
    requires Walkable(bytes, header)
    ensures result == Select(FramingOf(bytes, header), subordinates)
  {
    hide ParseHeader, Frames, DataAt;
    ghost var f := FramingOf(bytes, header);
    var selected, index := None, 0;
    while index < |subordinates|
      invariant index <= |subordinates| && Select(f, subordinates[..index]) == Ok(selected)
    {
      var candidate := DiscoverDataInterface(bytes, header, subordinates[index]);
      index := index + 1;
      assert subordinates[..index][..index - 1] == subordinates[..index - 1];
      if candidate.Err? {
        SelectStays(f, subordinates, index);
        return Err(candidate.error);
      }
      if candidate.value.Some? {
        if selected.Some? {
          SelectStays(f, subordinates, index);
          return Err(AmbiguousDataInterface);
        }
        selected := candidate.value;
      }
    }
    assert subordinates[..index] == subordinates;
    return Ok(selected);
  }

  /** The result of validating one control interface, for the whole configuration. */
  function CandidateOf(bytes: seq<byte>, number: byte): Result<CdcAcmFunction, ConfigurationError> {
    match Open(bytes)
    case Err(error) => Err(error)
    case Ok(f) => Candidate(f, ParseHeader(bytes).value, number)
  }

  method DiscoverCandidate(bytes: seq<byte>, header: Header, number: byte)
    returns (result: Result<CdcAcmFunction, ConfigurationError>)
    requires Walkable(bytes, header)
    ensures result == Candidate(FramingOf(bytes, header), header, number)
  {
    var iter := new DescriptorIter(bytes, header);
    var walked := WalkDescriptors(iter, ControlSearch(number));
    hide ParseHeader, Frames, PassResult, DataAt, Select, SubordinateError;
    if walked.Err? {
      return Err(walked.error);
    }
    var control, p := walked.value.selected, walked.value.parts;
    if control.None? || !control.value.IsAcmControl() {
      return Err(MissingControlInterface);
    }
    if control.value.endpointCount > 1 || control.value.endpointCount as nat != p.endpoints {
      return Err(InvalidEndpointDescriptor);
    }
    if p.version.None? {
      return Err(MissingCdcHeader);
    }
    if p.capabilities.None? {
      return Err(MissingAcmDescriptor);
    }
    if p.union_.None? {
      return Err(MissingUnionDescriptor);
    }
    if p.union_.value[3] != number {
      return Err(InvalidUnionDescriptor);
    }
    var subordinates := p.union_.value[4..];
    var wrong := CheckSubordinates(bytes, header, subordinates, number);
    if wrong.Some? {
      return Err(wrong.value);
    }
    var managed, found := Managed(p.call), Ok(None);
    if managed.Some? {
      if managed.value !in subordinates {
        return Err(InvalidUnionDescriptor);
      }
      found := DiscoverDataInterface(bytes, header, managed.value);
    } else {
      found := SelectDataInterface(bytes, header, subordinates);
    }
    if found.Err? {
      return Err(found.error);
    }
    if found.value.None? {
      return Err(MissingDataInterface);
    }
    var data := found.value.value;
    if p.notification.Some? && p.notification.value.address == data.in_.address {
      return Err(InvalidEndpointDescriptor);
    }
    return Ok(CdcAcmFunction(header, number, data.number, p.version.value, p.capabilities.value,
                             p.notification, data.out, data.in_));
  }

  /** Explicit selection of a control interface. */
  method DiscoverControlInterface(bytes: seq<byte>, number: byte)
    returns (result: Result<CdcAcmFunction, ConfigurationError>)
    ensures result == CandidateOf(bytes, number)
  {
    hide Candidate, Frames;
    var header := ParseHeader(bytes);
    if header.Err? {
      return Err(header.error);
    }
    if |bytes| < header.value.totalLength {
      return Err(DescriptorOverrun);
    }
    result := DiscoverCandidate(bytes, header.value, number);
  }

  // ----- the set of control interfaces already tried ----------------------------------------

  function And(x: bv32, y: bv32): bv32 { x & y }
  function Or(x: bv32, y: bv32): bv32 { x | y }

  function Mask(k: bv32): bv32
    requires k < 32
  {
    1 << k
  }

  function WithBit(word: bv32, k: bv32): bv32
    requires k < 32
  {
    Or(word, Mask(k))
  }

  predicate HasBit(word: bv32, k: bv32)
    requires k < 32
  {
    And(word, Mask(k)) != 0
  }

  lemma OrThenAnd(word: bv32, p: bv32, q: bv32)
    ensures And(p, q) == 0 ==> And(Or(word, p), q) == And(word, q)
  {}

  lemma OrWithItself(word: bv32, p: bv32)
    ensures p != 0 ==> And(Or(word, p), p) != 0
  {}

  lemma MaskIsOneBit(a: bv32)
    requires a < 32
    ensures Mask(a) != 0
  {}

  lemma MasksDiffer(a: bv32, b: bv32)
    requires a < 32 && b < 32 && a != b
    ensures And(Mask(a), Mask(b)) == 0
  {}

  lemma SetOneBit(word: bv32, a: bv32, b: bv32)
    requires a < 32 && b < 32
    ensures HasBit(WithBit(word, a), b) <==> HasBit(word, b) || a == b
  {
    hide Mask, And, Or;
    MaskIsOneBit(a);
    OrWithItself(word, Mask(a));
    if a != b {
      MasksDiffer(a, b);
      OrThenAnd(word, Mask(a), Mask(b));
    }
  }

  function BitOf(n: byte): (k: bv32)
    ensures k < 32
  {
    (n % 32) as bv32
  }

  function Slot(n: byte): (k: nat)
    ensures k < 8
  {
    SlotInRange(n);
    (n / 32) as nat
  }

  lemma SlotInRange(n: byte)
    ensures (n / 32) as nat < 8
  {
    assert n / 32 < 8;
  }

  /** Word and bit together identify the interface. */
  lemma ByteParts(a: byte, b: byte)
    requires Slot(a) == Slot(b) && BitOf(a) == BitOf(b)
    ensures a == b
  {
    assert a / 32 == b / 32;
    assert a % 32 == b % 32;
  }

  ghost predicate Marked(words: seq<bv32>, n: byte)
    requires |words| == 8
  {
    HasBit(words[Slot(n)], BitOf(n))
  }

  // ----- all functions of a configuration -----------------------------------------------------

  predicate LooksLikeAcm(d: Descriptor) {
    |d| >= 7 && d[3] == 0 && d[5] == CLASS_COMMUNICATIONS && d[6] == SUBCLASS_ACM
  }

  type Item = Result<CdcAcmFunction, ConfigurationError>

  /** The control interface that a descriptor announces, well formed or not. */
  function Announces(d: Descriptor): Option<byte> {
    if d[1] != TYPE_INTERFACE then None
    else
      match ParseInterface(d)
      case None => if LooksLikeAcm(d) then Some(d[2]) else None
      case Some(i) => if i.IsAcmControl() then Some(i.number) else None
  }

  /** What the iterator yields: each announced control interface once, and a framing error at the end. */
  function Items(rest: Framing, all: Framing, header: Header, seen: set<byte>): seq<Item>
    decreases |rest.descriptors|
  {
    if rest.descriptors == [] then (if rest.error.Some? then [Err(rest.error.value)] else [])
    else
      var d, more := rest.descriptors[0], rest.(descriptors := rest.descriptors[1..]);
      if Announces(d).None? || Announces(d).value in seen then Items(more, all, header, seen)
      else
        var n := Announces(d).value;
        [if ParseInterface(d).None? then Err(InvalidInterfaceDescriptor) else Candidate(all, header, n)]
        + Items(more, all, header, seen + {n})
  }

  class CdcAcmFunctions {
    const bytes: seq<byte>
    const header: Header
    const descriptors: DescriptorIter
    const seenControlInterfaces: array<bv32>
    ghost var seen: set<byte>

    ghost predicate Valid()
      reads this, descriptors, seenControlInterfaces
    {
      && Walkable(bytes, header) && descriptors.Valid()
      && seenControlInterfaces.Length == 8
      && forall n: byte :: n in seen <==> Marked(seenControlInterfaces[..], n)
    }

    /** Everything that will still be yielded. */
    ghost function Rest(): seq<Item>
      reads this, descriptors, seenControlInterfaces
      requires Valid()
    {
      Items(descriptors.Rest(), FramingOf(bytes, header), header, seen)
    }

    constructor (bytes: seq<byte>, header: Header)
      requires Walkable(bytes, header)
      ensures Valid() && fresh(descriptors) && fresh(seenControlInterfaces)
      ensures this.bytes == bytes && this.header == header
      ensures Rest() == Items(FramingOf(bytes, header), FramingOf(bytes, header), header, {})
    {
      this.bytes, this.header := bytes, header;
      descriptors := new DescriptorIter(bytes, header);
      seenControlInterfaces := new bv32[8](_ => 0);
      seen := {};
      new;
      NothingMarked(seenControlInterfaces[..]);
    }

    /** Add an interface to the set, and tell whether it was there. */
    method MarkSeen(n: byte) returns (wasSeen: bool)
      requires Valid()
      modifies this, seenControlInterfaces
      ensures Valid() && descriptors.Rest() == old(descriptors.Rest())
      ensures wasSeen == (n in old(seen)) && seen == old(seen) + {n}
    {
      hide Frames, ParseHeader, Slot, Mask, BitOf, Marked, Marking;
      ghost var before := seenControlInterfaces[..];
      MarkOne(before, n);
      wasSeen := SetBit(seenControlInterfaces, n);
      seen := seen + {n};
    }

    method Next() returns (item: Option<Item>)
      requires Valid()
      modifies this, descriptors, seenControlInterfaces
      ensures Valid()
      ensures if old(Rest()) == [] then item == None && Rest() == []
              else item == Some(old(Rest())[0]) && Rest() == old(Rest())[1..]
    {
      hide Frames, ParseHeader, Candidate, Marked, Announces;
      while true
        invariant Valid() && Rest() == old(Rest())
        decreases |descriptors.Rest().descriptors|
      {
        ghost var rest, seenBefore := descriptors.Rest(), seen;
        var next := descriptors.Next();
        if next.None? {
          return None;
        }
        if next.value.Err? {
          return Some(Err(next.value.error));
        }
        var d := next.value.value;
        assert d == rest.descriptors[0];
        var announced := Announces(d);
        if announced.Some? {
          var wasSeen := MarkSeen(announced.value);
          if !wasSeen {
            if ParseInterface(d).None? {
              return Some(Err(InvalidInterfaceDescriptor));
            }
            var candidate := DiscoverCandidate(bytes, header, announced.value);
            return Some(candidate);
          }
          assert seen == seenBefore;
        }
      }
      assert false;
    }
  }

  function Marking(words: seq<bv32>, n: byte): (marked: seq<bv32>)
    requires |words| == 8
    ensures |marked| == 8
  {
    words[Slot(n) := WithBit(words[Slot(n)], BitOf(n))]
  }

  /** The word and bit arithmetic of the set. */
  method SetBit(words: array<bv32>, n: byte) returns (was: bool)
    requires words.Length == 8
    modifies words
    ensures was == Marked(old(words[..]), n)
    ensures words[..] == Marking(old(words[..]), n)
  {
    var slot, bit := Slot(n), BitOf(n);
    hide Slot, BitOf, HasBit, WithBit;
    was := HasBit(words[slot], bit);
    words[slot] := WithBit(words[slot], bit);
  }

  lemma NothingMarked(words: seq<bv32>)
    requires |words| == 8 && forall i | 0 <= i < 8 :: words[i] == 0
    ensures forall n: byte :: !Marked(words, n)
  {}

  lemma MarkOne(words: seq<bv32>, n: byte)
    requires |words| == 8
    ensures forall m: byte :: Marked(Marking(words, n), m) <==> Marked(words, m) || m == n
  {
    forall m: byte ensures Marked(Marking(words, n), m) <==> Marked(words, m) || m == n {
      MarkOther(words, n, m);
    }
  }

  lemma MarkOther(words: seq<bv32>, n: byte, m: byte)
    requires |words| == 8
    ensures Marked(Marking(words, n), m) <==> Marked(words, m) || m == n
  {
    SetOneBit(words[Slot(n)], BitOf(n), BitOf(m));
    if Slot(m) == Slot(n) && BitOf(m) == BitOf(n) { ByteParts(m, n); }
    hide WithBit, HasBit, BitOf, Slot;
  }

  // ----- the first valid function -----------------------------------------------------------

  /** The first good item; otherwise the first error, or that there was nothing. */
  function FirstGood(items: seq<Item>, firstError: Option<ConfigurationError>): Item {
    if items == [] then Err(if firstError.Some? then firstError.value else MissingControlInterface)
    else if items[0].Ok? then items[0]
    else FirstGood(items[1..], if firstError.Some? then firstError else Some(items[0].error))
  }

  function DiscoverOf(bytes: seq<byte>): Item {
    match Open(bytes)
    case Err(error) => Err(error)
    case Ok(f) => FirstGood(Items(f, f, ParseHeader(bytes).value, {}), None)
  }

  method Discover(bytes: seq<byte>) returns (result: Item)
    ensures result == DiscoverOf(bytes)
  {
    hide Candidate, Frames, Items;
    var header := ParseHeader(bytes);
    if header.Err? {
      return Err(header.error);
    }
    if |bytes| < header.value.totalLength {
      return Err(DescriptorOverrun);
    }
    var functions := new CdcAcmFunctions(bytes, header.value);
    var firstError := None;
    while true
      invariant functions.Valid() && fresh(functions) && fresh(functions.descriptors)
        && fresh(functions.seenControlInterfaces)
      invariant FirstGood(functions.Rest(), firstError) == DiscoverOf(bytes)
      decreases |functions.Rest()|
    {
      var item := functions.Next();
      if item.None? {
        break;
      }
      if item.value.Ok? {
        return item.value;
      }
      if firstError.None? {
        firstError := Some(item.value.error);
      }
    }
    return Err(if firstError.Some? then firstError.value else MissingControlInterface);
  }

  /** A well-formed ACM control interface descriptor, and its number. */
  function AcmControlAt(d: Descriptor): Option<byte> {
    if d[1] == TYPE_INTERFACE && ParseInterface(d).Some? && ParseInterface(d).value.IsAcmControl()
    then Some(ParseInterface(d).value.number) else None
  }

  /** From index k on, the first ACM control interface that passes is at index i. */
  ghost predicate FirstValidAt(f: Framing, header: Header, fn: CdcAcmFunction, k: nat, i: nat) {
    && k <= i < |f.descriptors| && AcmControlAt(f.descriptors[i]) == Some(fn.control)
    && Candidate(f, header, fn.control) == Ok(fn)
    && forall j | k <= j < i && AcmControlAt(f.descriptors[j]).Some? ::
         Candidate(f, header, AcmControlAt(f.descriptors[j]).value).Err?
  }

  /** A malformed descriptor that announces an interface spoils that interface for good. */
  lemma MalformedSpoils(f: Framing, header: Header, i: nat)
    requires i < |f.descriptors| && Announces(f.descriptors[i]).Some? && ParseInterface(f.descriptors[i]).None?
    ensures Candidate(f, header, Announces(f.descriptors[i]).value).Err?
  {
    var number := Announces(f.descriptors[i]).value;
    assert MalformedInterface(f.descriptors[i], number);
    PassIff(f.descriptors, ControlSearch(number));
    hide PassOver;
  }

  lemma AnnouncedWellFormed(d: Descriptor)
    ensures Announces(d).Some? && ParseInterface(d).Some? ==> AcmControlAt(d) == Announces(d)
    ensures AcmControlAt(d).Some? ==> Announces(d) == AcmControlAt(d) && ParseInterface(d).Some?
  {}

  /** The set of interfaces already tried only ever hides invalid ones. */
  lemma {:induction false} FirstGoodIff(f: Framing, header: Header, seen: set<byte>, k: nat,
                                        firstError: Option<ConfigurationError>, fn: CdcAcmFunction)
    requires k <= |f.descriptors|
    requires forall n | n in seen :: Candidate(f, header, n).Err?
    ensures FirstGood(Items(f.(descriptors := f.descriptors[k..]), f, header, seen), firstError) == Ok(fn)
      <==> exists i :: FirstValidAt(f, header, fn, k, i)
    decreases |f.descriptors| - k
  {
    hide Candidate;
    var rest := f.(descriptors := f.descriptors[k..]);
    if k < |f.descriptors| {
      var d := f.descriptors[k];
      assert rest.descriptors[1..] == f.descriptors[k + 1..];
      var announced := Announces(d);
      AnnouncedWellFormed(d);
      if announced.Some? && ParseInterface(d).None? { MalformedSpoils(f, header, k); }
      hide Announces, AcmControlAt;
      if announced.None? || announced.value in seen {
        FirstGoodIff(f, header, seen, k + 1, firstError, fn);
        NotHere(f, header, fn, k, k + 1);
      } else if Candidate(f, header, announced.value).Err? {
        var items := Items(rest, f, header, seen);
        assert items[1..] == Items(rest.(descriptors := f.descriptors[k + 1..]), f, header, seen + {announced.value});
        FirstGoodIff(f, header, seen + {announced.value}, k + 1,
                     if firstError.Some? then firstError else Some(items[0].error), fn);
        NotHere(f, header, fn, k, k + 1);
      } else {
        if Candidate(f, header, announced.value) == Ok(fn) {
          CandidateIff(f, header, announced.value, fn);
          assert FirstValidAt(f, header, fn, k, k);
        }
        if i: nat :| FirstValidAt(f, header, fn, k, i) {
          assert i == k;
        }
      }
    }
  }

  /** Where the descriptor at k is not a valid function, the first one is further on. */
  lemma NotHere(f: Framing, header: Header, fn: CdcAcmFunction, k: nat, next: nat)
    requires k < |f.descriptors| && next == k + 1
    requires AcmControlAt(f.descriptors[k]).Some? ==>
      Candidate(f, header, AcmControlAt(f.descriptors[k]).value).Err?
    ensures (exists i :: FirstValidAt(f, header, fn, k, i)) <==> (exists i :: FirstValidAt(f, header, fn, next, i))
  {
    hide Candidate, AcmControlAt;
    if i: nat :| FirstValidAt(f, header, fn, k, i) {
      assert FirstValidAt(f, header, fn, next, i);
    }
    if i: nat :| FirstValidAt(f, header, fn, next, i) {
      assert FirstValidAt(f, header, fn, k, i);
    }
  }

  /**
   * Discovery is sound and complete: it returns a function exactly when that
   * is the result of validating the first ACM control interface, in descriptor
   * order, that is valid at all.
   */
  lemma DiscoverIff(bytes: seq<byte>, fn: CdcAcmFunction)
    ensures DiscoverOf(bytes) == Ok(fn) <==>
      Open(bytes).Ok? && exists i :: FirstValidAt(Open(bytes).value, ParseHeader(bytes).value, fn, 0, i)
  {
    hide Candidate, Items, FirstGood, Frames;
    if Open(bytes).Ok? {
      var f := Open(bytes).value;
      assert f.descriptors[0..] == f.descriptors;
      FirstGoodIff(f, ParseHeader(bytes).value, {}, 0, None, fn);
    }
  }

  lemma ValidHasDescriptor(f: Framing, header: Header, number: byte)
    requires Candidate(f, header, number).Ok?
    ensures exists i :: 0 <= i < |f.descriptors| && AcmControlAt(f.descriptors[i]) == Some(number)
  {
    var fn := Candidate(f, header, number).value;
    CandidateIff(f, header, number, fn);
    hide Candidate;
    ZeroInterfaceIsThere(f.descriptors, number);
  }

  lemma {:induction false} ZeroInterfaceIsThere(ds: seq<Descriptor>, number: byte)
    requires ZeroInterfaces(ds, number) != [] && ZeroInterfaces(ds, number)[0].IsAcmControl()
    ensures exists i :: 0 <= i < |ds| && AcmControlAt(ds[i]) == Some(number)
  {
    var n := |ds| - 1;
    if ZeroInterfaces(ds[..n], number) != [] {
      ZeroInterfaceIsThere(ds[..n], number);
      var i :| 0 <= i < n && AcmControlAt(ds[..n][i]) == Some(number);
      assert AcmControlAt(ds[i]) == Some(number);
    } else {
      assert AcmControlAt(ds[n]) == Some(number);
    }
  }

  lemma {:induction false} SomeValidIsFirst(f: Framing, header: Header, k: nat, i: nat)
    requires k <= i < |f.descriptors| && AcmControlAt(f.descriptors[i]).Some?
    requires Candidate(f, header, AcmControlAt(f.descriptors[i]).value).Ok?
    ensures exists fn, j :: FirstValidAt(f, header, fn, k, j)
    decreases i - k
  {
    hide Candidate, AcmControlAt;
    var at := AcmControlAt(f.descriptors[k]);
    if at.Some? && Candidate(f, header, at.value).Ok? {
      var fn := Candidate(f, header, at.value).value;
      CandidateIff(f, header, at.value, fn);
      assert FirstValidAt(f, header, fn, k, k);
    } else {
      SomeValidIsFirst(f, header, k + 1, i);
      var fn, j :| FirstValidAt(f, header, fn, k + 1, j);
      NotHere(f, header, fn, k, k + 1);
    }
  }

  predicate Passes(bytes: seq<byte>, number: byte) { CandidateOf(bytes, number).Ok? }

  /** Discovery succeeds exactly when some control interface passes explicit selection. */
  lemma DiscoverSucceedsIff(bytes: seq<byte>)
    ensures DiscoverOf(bytes).Ok? <==> exists number: byte :: Passes(bytes, number)
  {
    hide Candidate, Items, FirstGood, Frames;
    if DiscoverOf(bytes).Ok? {
      var fn := DiscoverOf(bytes).value;
      DiscoverIff(bytes, fn);
      assert Passes(bytes, fn.control);
    }
    if number: byte :| Passes(bytes, number) {
      var f, header := Open(bytes).value, ParseHeader(bytes).value;
      ValidHasDescriptor(f, header, number);
      var i :| 0 <= i < |f.descriptors| && AcmControlAt(f.descriptors[i]) == Some(number);
      SomeValidIsFirst(f, header, 0, i);
      var fn, j :| FirstValidAt(f, header, fn, 0, j);
      DiscoverIff(bytes, fn);
    }
  }

  /** Which control interface a descriptor announces, by bytes: one whose fields say so, well formed or not. */
  lemma AnnouncesIff(d: Descriptor, number: byte)
    ensures Announces(d) == Some(number) <==>
      |d| >= 7 && d[1] == 4 && d[2] == number && d[3] == 0 && d[5] == 2 && d[6] == 2
  {}
}
