/** Strict discovery of CDC-ACM functions in a configuration's descriptors. */
module CdcAcm {
  import opened UsbTypes
  import opened Descriptors

  // ----- filters --------------------------------------------------------------------------

  function Where(ds: seq<Descriptor>, keep: Descriptor -> bool): seq<Descriptor> {
    if ds == [] then []
    else
      var d := ds[|ds| - 1];
      Where(ds[..|ds| - 1], keep) + (if keep(d) then [d] else [])
  }

  lemma WhereAppend(ds: seq<Descriptor>, d: Descriptor, keep: Descriptor -> bool)
    ensures Where(ds + [d], keep) == Where(ds, keep) + (if keep(d) then [d] else [])
  {
    assert (ds + [d])[..|ds|] == ds;
  }

  /** The interface that a descriptor after these belongs to; none after a malformed interface descriptor. */
  function Current(ds: seq<Descriptor>): Option<Interface> {
    if ds == [] then None
    else
      var d := ds[|ds| - 1];
      if d[1] == TYPE_INTERFACE then ParseInterface(d) else Current(ds[..|ds| - 1])
  }

  /** Descriptors of interest that belong to an interface of interest. */
  function Owned(ds: seq<Descriptor>, interest: byte -> bool, owner: Interface -> bool): seq<Descriptor> {
    if ds == [] then []
    else
      var n := |ds| - 1;
      var kept := Owned(ds[..n], interest, owner);
      if ds[n][1] != TYPE_INTERFACE && interest(ds[n][1]) && Current(ds[..n]).Some? && owner(Current(ds[..n]).value)
      then kept + [ds[n]] else kept
  }

  /** The well-formed alternate-zero interface descriptors with this number. */
  function ZeroInterfaces(ds: seq<Descriptor>, number: byte): seq<Interface> {
    if ds == [] then []
    else
      var n := |ds| - 1;
      var found := ZeroInterfaces(ds[..n], number);
      var i := if ds[n][1] == TYPE_INTERFACE then ParseInterface(ds[n]) else None;
      if i.Some? && i.value.number == number && i.value.alternate == 0 then found + [i.value] else found
  }

  predicate MalformedInterface(d: Descriptor, number: byte) {
    d[1] == TYPE_INTERFACE && ParseInterface(d).None? && |d| >= 4 && d[2] == number && d[3] == 0
  }

  ghost predicate NoneMalformed(ds: seq<Descriptor>, number: byte) {
    forall i | 0 <= i < |ds| :: !MalformedInterface(ds[i], number)
  }

  // ----- one pass over the descriptors ------------------------------------------------------

  /** The running state of a pass: the current interface, the selected one, and what was collected from it. */
  datatype Pass<P> = Pass(current: Option<Interface>, selected: Option<Interface>, parts: P)

  /** What a pass looks for. */
  datatype Search<!P> = Search(number: byte, interest: byte -> bool, owner: Interface -> bool,
                              collect: (P, Descriptor) -> Result<P, ConfigurationError>, initial: P)

  function PassStep<P>(s: Pass<P>, d: Descriptor, q: Search<P>): Result<Pass<P>, ConfigurationError> {
    if d[1] == TYPE_INTERFACE then
      match ParseInterface(d)
      case None =>
        if |d| >= 4 && d[2] == q.number && d[3] == 0 then Err(InvalidInterfaceDescriptor)
        else Ok(s.(current := None))
      case Some(i) =>
        if i.number != q.number || i.alternate != 0 then Ok(s.(current := Some(i)))
        else if s.selected.Some? then Err(InvalidInterfaceDescriptor)
        else Ok(s.(current := Some(i), selected := Some(i)))
    else if q.interest(d[1]) && s.current.Some? && q.owner(s.current.value) then
      match q.collect(s.parts, d)
      case Err(error) => Err(error)
      case Ok(parts) => Ok(s.(parts := parts))
    else Ok(s)
  }

  function PassOver<P>(ds: seq<Descriptor>, q: Search<P>): Result<Pass<P>, ConfigurationError> {
    if ds == [] then Ok(Pass(None, None, q.initial))
    else
      match PassOver(ds[..|ds| - 1], q)
      case Err(error) => Err(error)
      case Ok(s) => PassStep(s, ds[|ds| - 1], q)
  }

  function Collect<P>(ds: seq<Descriptor>, q: Search<P>): Result<P, ConfigurationError> {
    if ds == [] then Ok(q.initial)
    else
      match Collect(ds[..|ds| - 1], q)
      case Err(error) => Err(error)
      case Ok(parts) => q.collect(parts, ds[|ds| - 1])
  }

  /** The result of a pass over everything the iterator yields. */
  function PassResult<P>(f: Framing, q: Search<P>): Result<Pass<P>, ConfigurationError> {
    match PassOver(f.descriptors, q)
    case Err(error) => Err(error)
    case Ok(s) => if f.error.Some? then Err(f.error.value) else Ok(s)
  }

  lemma PassAppend<P>(ds: seq<Descriptor>, d: Descriptor, q: Search<P>)
    ensures PassOver(ds + [d], q) ==
      if PassOver(ds, q).Err? then PassOver(ds, q) else PassStep(PassOver(ds, q).value, d, q)
  {
    assert (ds + [d])[..|ds|] == ds;
  }

  /** A failed pass stays failed. */
  lemma {:induction false} FailedStays<P>(ds: seq<Descriptor>, more: seq<Descriptor>, q: Search<P>)
    requires PassOver(ds, q).Err?
    ensures PassOver(ds + more, q) == PassOver(ds, q)
    decreases |more|
  {
    hide PassStep;
    if more == [] {
      assert ds + more == ds;
    } else {
      assert (ds + more)[..|ds + more| - 1] == ds + more[..|more| - 1];
      FailedStays(ds, more[..|more| - 1], q);
    }
  }

  /**
   * A pass succeeds exactly when no alternate-zero interface descriptor with
   * the number is malformed or repeated, and everything that belongs to the
   * interfaces of interest collects.
   */
  lemma {:induction false} PassIff<P>(ds: seq<Descriptor>, q: Search<P>)
    ensures PassOver(ds, q).Ok? <==>
      NoneMalformed(ds, q.number) && |ZeroInterfaces(ds, q.number)| <= 1
      && Collect(Owned(ds, q.interest, q.owner), q).Ok?
    ensures PassOver(ds, q).Ok? ==>
      var s := PassOver(ds, q).value;
      && s.current == Current(ds)
      && Ok(s.parts) == Collect(Owned(ds, q.interest, q.owner), q)
      && (s.selected.None? <==> ZeroInterfaces(ds, q.number) == [])
      && (s.selected.Some? ==> ZeroInterfaces(ds, q.number) == [s.selected.value])
  {
    if ds != [] {
      var n := |ds| - 1;
      PassIff(ds[..n], q);
      OwnedAppend(ds, q.interest, q.owner, q);
      MalformedAppend(ds, q.number);
      hide Collect, Owned, ParseInterface;
    }
  }

  /** Where a pass fails: at the first descriptor that its state refuses, with the error for that one. */
  lemma {:induction false} FirstError<P>(ds: seq<Descriptor>, q: Search<P>) returns (n: nat)
    requires PassOver(ds, q).Err?
    ensures n < |ds| && PassOver(ds[..n], q).Ok? && PassStep(PassOver(ds[..n], q).value, ds[n], q) == PassOver(ds, q)
  {
    var last := |ds| - 1;
    if PassOver(ds[..last], q).Err? {
      n := FirstError(ds[..last], q);
      assert ds[..last][..n] == ds[..n];
    } else {
      n := last;
    }
  }

  lemma OwnedAppend<P>(ds: seq<Descriptor>, interest: byte -> bool, owner: Interface -> bool, q: Search<P>)
    requires ds != []
    ensures var n := |ds| - 1;
      var before := Owned(ds[..n], interest, owner);
      if ds[n][1] != TYPE_INTERFACE && interest(ds[n][1]) && Current(ds[..n]).Some? && owner(Current(ds[..n]).value)
      then
        && Owned(ds, interest, owner) == before + [ds[n]]
        && Collect(Owned(ds, interest, owner), q) ==
          (if Collect(before, q).Err? then Collect(before, q) else q.collect(Collect(before, q).value, ds[n]))
      else Owned(ds, interest, owner) == before
  {
    var n := |ds| - 1;
    var before := Owned(ds[..n], interest, owner);
    assert (before + [ds[n]])[..|before|] == before;
  }

  lemma MalformedAppend(ds: seq<Descriptor>, number: byte)
    requires ds != []
    ensures var n := |ds| - 1;
      NoneMalformed(ds, number) <==> NoneMalformed(ds[..n], number) && !MalformedInterface(ds[n], number)
  {
    var n := |ds| - 1;
    forall i | 0 <= i < n ensures ds[..n][i] == ds[i] {}
  }

  /** Walk the iterator to its end or to the first error. */
  method WalkDescriptors<P>(iter: DescriptorIter, q: Search<P>) returns (result: Result<Pass<P>, ConfigurationError>)
    requires iter.Valid()
    modifies iter
    ensures result == PassResult(old(iter.Rest()), q)
  {
    ghost var all := iter.Rest();
    ghost var done: seq<Descriptor> := [];
    var s := Pass(None, None, q.initial);
    assert PassOver(done, q) == Ok(s);
    hide PassStep, PassOver, Frames;
    while true
      invariant iter.Valid() && done + iter.Rest().descriptors == all.descriptors && iter.Rest().error == all.error
      invariant PassOver(done, q) == Ok(s)
      decreases |iter.Rest().descriptors|
    {
      ghost var rest := iter.Rest();
      var item := iter.Next();
      if item.None? {
        assert done == all.descriptors;
        return Ok(s);
      }
      if item.value.Err? {
        assert done == all.descriptors;
        return Err(item.value.error);
      }
      var d := item.value.value;
      assert rest.descriptors == [d] + rest.descriptors[1..];
      PassAppend(done, d, q);
      done := done + [d];
      assert done + rest.descriptors[1..] == all.descriptors;
      var next := PassStep(s, d, q);
      if next.Err? {
        FailedStays(done, rest.descriptors[1..], q);
        return Err(next.error);
      }
      s := next.value;
    }
    assert false;
  }

  // ----- data interfaces ------------------------------------------------------------------

  datatype BulkPair = BulkPair(count: nat, out: Option<Endpoint>, in_: Option<Endpoint>)

  function CollectBulk(p: BulkPair, d: Descriptor): Result<BulkPair, ConfigurationError> {
    match ParseEndpoint(d)
    case None => Err(InvalidEndpointDescriptor)
    case Some(e) =>
      if p.count == 255 || !e.IsSupportedBulk() then Err(InvalidEndpointDescriptor)
      else if e.IsIn() then
        if p.in_.Some? then Err(InvalidEndpointDescriptor) else Ok(p.(count := p.count + 1, in_ := Some(e)))
      else
        if p.out.Some? then Err(InvalidEndpointDescriptor) else Ok(p.(count := p.count + 1, out := Some(e)))
  }

  predicate IsEndpointType(t: byte) { t == TYPE_ENDPOINT }

  function DataSearch(number: byte): Search<BulkPair> {
    Search(number, IsEndpointType, (i: Interface) => i.number == number && i.alternate == 0,
           CollectBulk, BulkPair(0, None, None))
  }

  datatype DataInterface = DataInterface(number: byte, out: Endpoint, in_: Endpoint)

  /** The data interface with this number: none if there is no CDC data interface there. */
  function DataAt(f: Framing, number: byte): Result<Option<DataInterface>, ConfigurationError> {
    match PassResult(f, DataSearch(number))
    case Err(error) => Err(error)
    case Ok(Pass(_, selected, parts)) =>
      if selected.None? || selected.value.class_ != CLASS_CDC_DATA then Ok(None)
      else if selected.value.subclass != 0 then Err(InvalidInterfaceDescriptor)
      else if selected.value.endpointCount as nat != parts.count then Err(InvalidEndpointDescriptor)
      else if parts.out.None? then Err(MissingBulkOutEndpoint)
      else if parts.in_.None? then Err(MissingBulkInEndpoint)
      else if selected.value.endpointCount != 2 then Err(InvalidEndpointDescriptor)
      else Ok(Some(DataInterface(number, parts.out.value, parts.in_.value)))
  }

  /** The endpoint descriptors that belong to alternate setting zero of an interface. */
  function EndpointsOf(ds: seq<Descriptor>, number: byte): seq<Descriptor> {
    Owned(ds, DataSearch(number).interest, DataSearch(number).owner)
  }

  ghost predicate Parses(d: Descriptor, e: Endpoint) { ParseEndpoint(d) == Some(e) && e.IsSupportedBulk() }

  /** What a list of bulk endpoint descriptors collects to, without the fold. */
  ghost predicate BulkList(es: seq<Descriptor>, p: BulkPair) {
    && p.count == |es|
    && match p
       case BulkPair(_, None, None) => es == []
       case BulkPair(_, Some(o), None) => |es| == 1 && Parses(es[0], o) && !o.IsIn()
       case BulkPair(_, None, Some(i)) => |es| == 1 && Parses(es[0], i) && i.IsIn()
       case BulkPair(_, Some(o), Some(i)) =>
         |es| == 2 && !o.IsIn() && i.IsIn()
         && ((Parses(es[0], o) && Parses(es[1], i)) || (Parses(es[0], i) && Parses(es[1], o)))
  }

  lemma {:induction false} BulkCollects(es: seq<Descriptor>, number: byte)
    ensures var r := Collect(es, DataSearch(number));
      (r.Ok? ==> BulkList(es, r.value)) && (forall p | BulkList(es, p) :: r == Ok(p))
  {
    hide ParseEndpoint, Endpoint.IsIn, Endpoint.IsSupportedBulk;
    if es != [] {
      var n := |es| - 1;
      BulkCollects(es[..n], number);
      if |es| == 2 {
        BulkCollectsOne(es[0], number);
        assert es[..n] == [es[0]];
      }
      if |es| == 1 {
        assert es[..n] == [];
      }
    }
  }

  lemma BulkCollectsOne(d: Descriptor, number: byte)
    ensures Collect([d], DataSearch(number)) == CollectBulk(BulkPair(0, None, None), d)
  {
    assert [d][..0] == [];
  }

  /**
   * A data interface is found exactly when the configuration is framed without
   * error, its one alternate-zero descriptor is well formed and a CDC data
   * interface declaring two endpoints, and these are one supported bulk IN and
   * one supported bulk OUT endpoint, which are returned.
   */
  lemma DataAtIff(f: Framing, data: DataInterface)
    ensures var number := data.number;
      var zero, es := ZeroInterfaces(f.descriptors, number), EndpointsOf(f.descriptors, number);
      DataAt(f, number) == Ok(Some(data)) <==>
        && f.error.None? && NoneMalformed(f.descriptors, number)
        && |zero| == 1 && zero[0].class_ == 0x0a && zero[0].subclass == 0 && zero[0].endpointCount == 2
        && BulkList(es, BulkPair(2, Some(data.out), Some(data.in_)))
  {
    var number := data.number;
    var q, ds := DataSearch(number), f.descriptors;
    PassIff(ds, q);
    BulkCollects(EndpointsOf(ds, number), number);
    hide PassOver, Collect, ZeroInterfaces, Owned, NoneMalformed, Endpoint.IsIn, Parses;
  }

  /** What an interface with well-formed bulk endpoints is, if not a data interface: none, or the first thing wrong. */
  lemma DataErrors(f: Framing, number: byte, p: BulkPair)
    requires f.error.None? && NoneMalformed(f.descriptors, number) && |ZeroInterfaces(f.descriptors, number)| <= 1
    requires BulkList(EndpointsOf(f.descriptors, number), p)
    ensures var zero, es := ZeroInterfaces(f.descriptors, number), EndpointsOf(f.descriptors, number);
      var r := DataAt(f, number);
      if zero == [] || zero[0].class_ != 0x0a then r == Ok(None)
      else if zero[0].subclass != 0 then r == Err(InvalidInterfaceDescriptor)
      else if zero[0].endpointCount as nat != |es| then r == Err(InvalidEndpointDescriptor)
      else if p.out.None? then r == Err(MissingBulkOutEndpoint)
      else if p.in_.None? then r == Err(MissingBulkInEndpoint)
      else r == Ok(Some(DataInterface(number, p.out.value, p.in_.value)))
  {
    var q, ds := DataSearch(number), f.descriptors;
    PassIff(ds, q);
    BulkCollects(EndpointsOf(ds, number), number);
    hide PassOver, Collect, ZeroInterfaces, Owned, NoneMalformed, Endpoint.IsIn, Parses;
  }

  /** Why the pass for a data interface fails: its first bad descriptor is an interface, or one of its endpoints. */
  lemma DataPassErrors(ds: seq<Descriptor>, number: byte) returns (n: nat)
    requires PassOver(ds, DataSearch(number)).Err?
    ensures n < |ds| && PassOver(ds[..n], DataSearch(number)).Ok?
    ensures PassOver(ds, DataSearch(number)).error ==
      if ds[n][1] == 4 then InvalidInterfaceDescriptor else InvalidEndpointDescriptor
    ensures ds[n][1] == 4 || ds[n][1] == 5
  {
    n := FirstError(ds, DataSearch(number));
    hide PassOver, ParseInterface, ParseEndpoint;
  }

  /** A data search takes the endpoint descriptors of alternate setting zero of the interface with this number. */
  lemma DataFilters(number: byte, t: byte, i: Interface)
    ensures DataSearch(number).number == number
    ensures DataSearch(number).interest(t) <==> t == 0x05
    ensures DataSearch(number).owner(i) <==> i.number == number && i.alternate == 0
  {}

  /**
   * What a data interface offers, by bytes: an OUT endpoint with a number from
   * 1 to 15 and an IN endpoint, both bulk and of a bulk packet size, from
   * endpoint descriptors among those of the interface.
   */
  lemma DataByBytes(f: Framing, data: DataInterface)
    requires DataAt(f, data.number) == Ok(Some(data))
    ensures 0x01 <= data.out.address <= 0x0f && 0x81 <= data.in_.address <= 0x8f
    ensures data.out.attributes == data.in_.attributes == 2
    ensures data.out.maxPacketSize in {8, 16, 32, 64, 512} && data.in_.maxPacketSize in {8, 16, 32, 64, 512}
    ensures |EndpointsOf(f.descriptors, data.number)| == 2
    ensures exists d: Descriptor :: d in EndpointsOf(f.descriptors, data.number)
                                    && |d| == 7 && d[1] == 5 && d[2] == data.out.address
    ensures exists d: Descriptor :: d in EndpointsOf(f.descriptors, data.number)
                                    && |d| == 7 && d[1] == 5 && d[2] == data.in_.address
  {
    DataAtIff(f, data);
    var es := EndpointsOf(f.descriptors, data.number);
    hide DataAt, EndpointsOf, ZeroInterfaces, NoneMalformed;
    var o, i := if Parses(es[0], data.out) && Parses(es[1], data.in_) then 0 else 1,
      if Parses(es[0], data.out) && Parses(es[1], data.in_) then 1 else 0;
    EndpointLayout(es[o], data.out);
    EndpointLayout(es[i], data.in_);
    EndpointKinds(data.out);
    EndpointKinds(data.in_);
    hide ParseEndpoint, Endpoint.IsIn, Endpoint.IsSupportedBulk;
    assert es[o] in es && es[i] in es;
  }
}
