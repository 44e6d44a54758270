/**
 * A CDC-ACM function: its control interface with functional descriptors and
 * notification endpoint, the data interface its Union descriptor leads to, and
 * the search for the first valid function of a configuration.
 */
module CdcDiscovery {
  import opened UsbTypes
  import opened Descriptors
  import opened CdcAcm

  const SUBTYPE_HEADER: byte := 0x00
  const SUBTYPE_CALL_MANAGEMENT: byte := 0x01
  const SUBTYPE_ACM: byte := 0x02
  const SUBTYPE_UNION: byte := 0x06

  // ----- what the control interface contains ------------------------------------------------

  type UnionDescriptor = d: seq<byte> | |d| >= 5 witness [5, 0, 0, 0, 0]

  /** Collected so far from the control interface. */
  datatype Parts = Parts(functionalSeen: bool, version: Option<nat>, capabilities: Option<byte>,
                         union_: Option<UnionDescriptor>, call: Option<(byte, byte)>,
                         endpoints: nat, notification: Option<Endpoint>)

  const NO_PARTS: Parts := Parts(false, None, None, None, None, 0, None)

  predicate IsFunctional(d: Descriptor) { d[1] == TYPE_CLASS_INTERFACE }
  predicate HasSubtype(d: Descriptor, subtype: byte) { IsFunctional(d) && |d| >= 3 && d[2] == subtype }
  predicate IsHeader(d: Descriptor) { HasSubtype(d, SUBTYPE_HEADER) }
  predicate IsCallManagement(d: Descriptor) { HasSubtype(d, SUBTYPE_CALL_MANAGEMENT) }
  predicate IsAcm(d: Descriptor) { HasSubtype(d, SUBTYPE_ACM) }
  predicate IsUnion(d: Descriptor) { HasSubtype(d, SUBTYPE_UNION) }
  predicate IsOther(d: Descriptor) { !IsFunctional(d) }

  /** Capability bits of a call management descriptor: reserved ones are clear, and not bit 1 alone. */
  predicate CallCapabilitiesFine(capabilities: byte) {
    capabilities & 0xfc == 0 && capabilities & 0x03 != 0x02
  }

  function CollectFunctional(p: Parts, d: Descriptor): Result<Parts, ConfigurationError> {
    if |d| < 3 then Err(InvalidFunctionalDescriptor)
    else if !p.functionalSeen && d[2] != SUBTYPE_HEADER then Err(InvalidFunctionalDescriptor)
    else
      var q := p.(functionalSeen := true);
      if d[2] == SUBTYPE_HEADER then
        if |d| != 5 || p.version.Some? then Err(InvalidFunctionalDescriptor)
        else Ok(q.(version := Some(Word(d[3], d[4]))))
      else if d[2] == SUBTYPE_CALL_MANAGEMENT then
        if |d| != 5 || p.call.Some? || !CallCapabilitiesFine(d[3]) then Err(InvalidFunctionalDescriptor)
        else Ok(q.(call := Some((d[3], d[4]))))
      else if d[2] == SUBTYPE_ACM then
        if |d| != 4 || p.capabilities.Some? || d[3] & 0xf0 != 0 then Err(InvalidFunctionalDescriptor)
        else Ok(q.(capabilities := Some(d[3])))
      else if d[2] == SUBTYPE_UNION then
        if |d| < 5 || p.union_.Some? then Err(InvalidFunctionalDescriptor)
        else Ok(q.(union_ := Some(d)))
      else Ok(q)
  }

  function CollectNotification(p: Parts, d: Descriptor): Result<Parts, ConfigurationError> {
    match ParseEndpoint(d)
    case None => Err(InvalidEndpointDescriptor)
    case Some(e) =>
      if p.endpoints == 255 || !e.IsSupportedInterruptIn() || p.notification.Some? then Err(InvalidEndpointDescriptor)
      else Ok(p.(endpoints := p.endpoints + 1, notification := Some(e)))
  }

  function CollectPart(p: Parts, d: Descriptor): Result<Parts, ConfigurationError> {
    if IsFunctional(d) then CollectFunctional(p, d) else CollectNotification(p, d)
  }

  predicate IsControlPart(t: byte) { t == TYPE_CLASS_INTERFACE || t == TYPE_ENDPOINT }

  function ControlSearch(number: byte): Search<Parts> {
    Search(number, IsControlPart, (i: Interface) => i.number == number && i.IsAcmControl(), CollectPart, NO_PARTS)
  }

  /** What belongs to the control interface, in descriptor order. */
  function ControlParts(ds: seq<Descriptor>, number: byte): seq<Descriptor> {
    Owned(ds, ControlSearch(number).interest, ControlSearch(number).owner)
  }

  // ----- the same without the fold ------------------------------------------------------------

  ghost predicate AtMostOne(list: seq<Descriptor>, length: nat) {
    |list| <= 1 && (list != [] ==> |list[0]| == length)
  }

  ghost predicate FunctionalFine(rs: seq<Descriptor>) {
    var fs := Where(rs, IsFunctional);
    && (forall i | 0 <= i < |fs| :: |fs[i]| >= 3)
    && (fs != [] ==> IsHeader(fs[0]))
  }

  ghost predicate SubtypesFine(rs: seq<Descriptor>) {
    var headers, calls := Where(rs, IsHeader), Where(rs, IsCallManagement);
    var acms, unions := Where(rs, IsAcm), Where(rs, IsUnion);
    && AtMostOne(headers, 5)
    && AtMostOne(calls, 5) && (calls != [] ==> CallCapabilitiesFine(calls[0][3]))
    && AtMostOne(acms, 4) && (acms != [] ==> acms[0][3] & 0xf0 == 0)
    && |unions| <= 1 && (unions != [] ==> |unions[0]| >= 5)
  }

  ghost predicate NotificationFine(rs: seq<Descriptor>) {
    var es := Where(rs, IsOther);
    && |es| <= 1
    && (es != [] ==> ParseEndpoint(es[0]).Some? && ParseEndpoint(es[0]).value.IsSupportedInterruptIn())
  }

  ghost predicate AllFine(rs: seq<Descriptor>) {
    FunctionalFine(rs) && SubtypesFine(rs) && NotificationFine(rs)
  }

  /** What the fold has collected, told from the descriptors alone. */
  ghost predicate Collected(rs: seq<Descriptor>, p: Parts) {
    var headers, calls := Where(rs, IsHeader), Where(rs, IsCallManagement);
    var acms, unions, es := Where(rs, IsAcm), Where(rs, IsUnion), Where(rs, IsOther);
    && AllFine(rs)
    && (p.functionalSeen <==> Where(rs, IsFunctional) != [])
    && p.version == (if headers == [] then None else Some(Word(headers[0][3], headers[0][4])))
    && p.call == (if calls == [] then None else Some((calls[0][3], calls[0][4])))
    && p.capabilities == (if acms == [] then None else Some(acms[0][3]))
    && p.union_ == (if unions == [] then None else Some(unions[0]))
    && p.endpoints == |es|
    && p.notification == (if es == [] then None else ParseEndpoint(es[0]))
  }

  lemma NothingCollected()
    ensures Collected([], NO_PARTS)
  {}

  lemma AppendAll(rs: seq<Descriptor>, d: Descriptor)
    ensures Where(rs + [d], IsFunctional) == Where(rs, IsFunctional) + (if IsFunctional(d) then [d] else [])
    ensures Where(rs + [d], IsHeader) == Where(rs, IsHeader) + (if IsHeader(d) then [d] else [])
    ensures Where(rs + [d], IsCallManagement) == Where(rs, IsCallManagement) + (if IsCallManagement(d) then [d] else [])
    ensures Where(rs + [d], IsAcm) == Where(rs, IsAcm) + (if IsAcm(d) then [d] else [])
    ensures Where(rs + [d], IsUnion) == Where(rs, IsUnion) + (if IsUnion(d) then [d] else [])
    ensures Where(rs + [d], IsOther) == Where(rs, IsOther) + (if IsFunctional(d) then [] else [d])
  {
    WhereAppend(rs, d, IsFunctional);
    WhereAppend(rs, d, IsHeader);
    WhereAppend(rs, d, IsCallManagement);
    WhereAppend(rs, d, IsAcm);
    WhereAppend(rs, d, IsUnion);
    WhereAppend(rs, d, IsOther);
  }

  lemma FunctionalFineAppend(rs: seq<Descriptor>, d: Descriptor)
    ensures FunctionalFine(rs + [d]) ==
      (FunctionalFine(rs) && (IsFunctional(d) ==> |d| >= 3 && (Where(rs, IsFunctional) == [] ==> IsHeader(d))))
  {
    AppendAll(rs, d);
    var fs, more := Where(rs, IsFunctional), Where(rs + [d], IsFunctional);
    hide Where, HasSubtype;
    forall i | 0 <= i < |fs| ensures more[i] == fs[i] {}
    assert IsFunctional(d) ==> more[|fs|] == d;
  }

  lemma FunctionalStep(rs: seq<Descriptor>, p: Parts, d: Descriptor)
    requires Collected(rs, p) && IsFunctional(d)
    ensures CollectPart(p, d).Ok? <==> AllFine(rs + [d])
    ensures CollectPart(p, d).Ok? ==> Collected(rs + [d], CollectPart(p, d).value)
  {
    AppendAll(rs, d);
    FunctionalFineAppend(rs, d);
    hide Where, CallCapabilitiesFine, ParseEndpoint, FunctionalFine;
  }

  lemma NotificationStep(rs: seq<Descriptor>, p: Parts, d: Descriptor)
    requires Collected(rs, p) && !IsFunctional(d)
    ensures CollectPart(p, d).Ok? <==> AllFine(rs + [d])
    ensures CollectPart(p, d).Ok? ==> Collected(rs + [d], CollectPart(p, d).value)
  {
    AppendAll(rs, d);
    FunctionalFineAppend(rs, d);
    hide Where, CallCapabilitiesFine, ParseEndpoint, Endpoint.IsSupportedInterruptIn, FunctionalFine;
  }

  /** Once something is wrong it stays wrong. */
  lemma StaysWrong(rs: seq<Descriptor>, d: Descriptor)
    requires !AllFine(rs)
    ensures !AllFine(rs + [d])
  {
    AppendAll(rs, d);
    FunctionalFineAppend(rs, d);
    hide Where, CallCapabilitiesFine, ParseEndpoint, FunctionalFine;
  }

  /** The parts of a control interface collect exactly when they are well made, and to what they say. */
  lemma {:induction false} PartsCollect(rs: seq<Descriptor>, number: byte)
    ensures Collect(rs, ControlSearch(number)).Ok? <==> AllFine(rs)
    ensures Collect(rs, ControlSearch(number)).Ok? ==> Collected(rs, Collect(rs, ControlSearch(number)).value)
  {
    NothingCollected();
    hide AllFine, Collected, IsFunctional, CollectFunctional, CollectNotification;
    if rs != [] {
      var n := |rs| - 1;
      var before, d := rs[..n], rs[n];
      PartsCollect(before, number);
      assert rs == before + [d];
      if Collect(before, ControlSearch(number)).Ok? {
        var p := Collect(before, ControlSearch(number)).value;
        if IsFunctional(d) { FunctionalStep(before, p, d); } else { NotificationStep(before, p, d); }
      } else {
        StaysWrong(before, d);
      }
    }
  }

  // ----- subordinate interfaces -----------------------------------------------------------

  predicate ZeroInterface(d: Descriptor, number: byte) {
    d[1] == TYPE_INTERFACE && ParseInterface(d).Some?
    && ParseInterface(d).value.number == number && ParseInterface(d).value.alternate == 0
  }

  /** Look for an alternate-zero interface descriptor; a malformed one with this number first is an error. */
  function Exists(f: Framing, number: byte): Result<bool, ConfigurationError>
    decreases |f.descriptors|
  {
    if f.descriptors == [] then if f.error.Some? then Err(f.error.value) else Ok(false)
    else if ZeroInterface(f.descriptors[0], number) then Ok(true)
    else if MalformedInterface(f.descriptors[0], number) then Err(InvalidInterfaceDescriptor)
    else Exists(f.(descriptors := f.descriptors[1..]), number)
  }

  ghost predicate ExistsAt(ds: seq<Descriptor>, number: byte, i: nat) {
    && i < |ds| && ZeroInterface(ds[i], number)
    && forall j | 0 <= j < i :: !MalformedInterface(ds[j], number)
  }

  lemma {:induction false} ExistsIff(f: Framing, number: byte)
    ensures Exists(f, number) == Ok(true) <==> exists i :: ExistsAt(f.descriptors, number, i)
    decreases |f.descriptors|
  {
    var ds := f.descriptors;
    hide ZeroInterface, MalformedInterface;
    if ds != [] {
      if ZeroInterface(ds[0], number) {
        assert ExistsAt(ds, number, 0);
      } else {
        ExistsIff(f.(descriptors := ds[1..]), number);
        if Exists(f, number) == Ok(true) {
          var i: nat :| ExistsAt(ds[1..], number, i);
          assert ExistsAt(ds, number, i + 1);
        }
        if i: nat :| ExistsAt(ds, number, i) {
          assert !MalformedInterface(ds[0], number);
          assert forall j | 0 <= j < i - 1 :: ds[1..][j] == ds[j + 1];
          assert ExistsAt(ds[1..], number, i - 1);
        }
      }
    }
  }

  /** The first thing wrong with the subordinate interfaces from index i on. */
  function SubordinateError(f: Framing, subordinates: seq<byte>, number: byte, i: nat): Option<ConfigurationError>
    requires i <= |subordinates|
    decreases |subordinates| - i
  {
    if i == |subordinates| then None
    else if subordinates[i] == number || subordinates[i] in subordinates[..i] then Some(InvalidUnionDescriptor)
    else
      match Exists(f, subordinates[i])
      case Err(error) => Some(error)
      case Ok(found) => if found then SubordinateError(f, subordinates, number, i + 1) else Some(InvalidUnionDescriptor)
  }

  /** Subordinates are distinct existing interfaces other than the control interface. */
  ghost predicate Subordinate(f: Framing, subordinates: seq<byte>, number: byte, i: nat)
    requires i < |subordinates|
  {
    subordinates[i] != number && subordinates[i] !in subordinates[..i] && Exists(f, subordinates[i]) == Ok(true)
  }

  lemma {:induction false} SubordinatesIff(f: Framing, subordinates: seq<byte>, number: byte, i: nat)
    requires i <= |subordinates|
    ensures SubordinateError(f, subordinates, number, i).None? <==>
      forall j | i <= j < |subordinates| :: Subordinate(f, subordinates, number, j)
    decreases |subordinates| - i
  {
    hide Exists;
    if i < |subordinates| {
      SubordinatesIff(f, subordinates, number, i + 1);
      assert Subordinate(f, subordinates, number, i) || SubordinateError(f, subordinates, number, i).Some?;
    }
  }

  // ----- the choice of the data interface ---------------------------------------------------

  /** The only data interface among the subordinates. */
  function Select(f: Framing, subordinates: seq<byte>): Result<Option<DataInterface>, ConfigurationError> {
    if subordinates == [] then Ok(None)
    else
      var before, last := Select(f, subordinates[..|subordinates| - 1]), DataAt(f, subordinates[|subordinates| - 1]);
      if before.Err? then before
      else if last.Err? || last.value.None? then (if last.Err? then last else before)
      else if before.value.Some? then Err(AmbiguousDataInterface)
      else last
  }

  ghost predicate OnlyData(f: Framing, subordinates: seq<byte>, data: DataInterface, i: nat) {
    && i < |subordinates| && DataAt(f, subordinates[i]) == Ok(Some(data))
    && forall j | 0 <= j < |subordinates| && j != i :: DataAt(f, subordinates[j]) == Ok(None)
  }

  lemma {:induction false} SelectIff(f: Framing, subordinates: seq<byte>)
    ensures Select(f, subordinates) == Ok(None) <==>
      forall j | 0 <= j < |subordinates| :: DataAt(f, subordinates[j]) == Ok(None)
    ensures forall data :: Select(f, subordinates) == Ok(Some(data)) <==> exists i :: OnlyData(f, subordinates, data, i)
  {
    hide DataAt;
    if subordinates != [] {
      var n := |subordinates| - 1;
      SelectIff(f, subordinates[..n]);
      forall data
        ensures Select(f, subordinates) == Ok(Some(data)) <==> exists i :: OnlyData(f, subordinates, data, i)
      {
        SelectOne(f, subordinates, data);
      }
    }
  }

  lemma SelectOne(f: Framing, subordinates: seq<byte>, data: DataInterface)
    requires subordinates != []
    requires var before := subordinates[..|subordinates| - 1];
      && (Select(f, before) == Ok(None) <==> forall j | 0 <= j < |before| :: DataAt(f, before[j]) == Ok(None))
      && (Select(f, before) == Ok(Some(data)) <==> exists i :: OnlyData(f, before, data, i))
    ensures Select(f, subordinates) == Ok(Some(data)) <==> exists i :: OnlyData(f, subordinates, data, i)
  {
    hide DataAt;
    var n := |subordinates| - 1;
    var before := subordinates[..n];
    assert forall j | 0 <= j < n :: before[j] == subordinates[j];
    if Select(f, subordinates) == Ok(Some(data)) {
      if Select(f, before) == Ok(None) {
        assert OnlyData(f, subordinates, data, n);
      } else {
        var i: nat :| OnlyData(f, before, data, i);
        assert OnlyData(f, subordinates, data, i);
      }
    }
    if i: nat :| OnlyData(f, subordinates, data, i) {
      if i < n {
        assert OnlyData(f, before, data, i);
      }
    }
  }

  /** The data interface that call management names, when it says so; otherwise the only one there is. */
  function Managed(call: Option<(byte, byte)>): Option<byte> {
    if call.Some? && call.value.0 & 0x03 == 0x03 then Some(call.value.1) else None
  }

  function ChooseData(f: Framing, subordinates: seq<byte>, managed: Option<byte>)
    : Result<DataInterface, ConfigurationError>
  {
    if managed.Some? && managed.value !in subordinates then Err(InvalidUnionDescriptor)
    else
      match (if managed.Some? then DataAt(f, managed.value) else Select(f, subordinates))
      case Err(error) => Err(error)
      case Ok(None) => Err(MissingDataInterface)
      case Ok(Some(data)) => Ok(data)
  }

  // ----- one candidate --------------------------------------------------------------------

  datatype CdcAcmFunction = CdcAcmFunction(
    configuration: Header, control: byte, data: byte, version: nat, capabilities: byte,
    notification: Option<Endpoint>, bulkOut: Endpoint, bulkIn: Endpoint)

  /** The last stage: the parts are there; check the union and choose the data interface. */
  function Resolve(f: Framing, header: Header, number: byte, p: Parts, union_: UnionDescriptor)
    : Result<CdcAcmFunction, ConfigurationError>
    requires p.version.Some? && p.capabilities.Some?
  {
    if union_[3] != number then Err(InvalidUnionDescriptor)
    else if SubordinateError(f, union_[4..], number, 0).Some?
    then Err(SubordinateError(f, union_[4..], number, 0).value)
    else
      match ChooseData(f, union_[4..], Managed(p.call))
      case Err(error) => Err(error)
      case Ok(data) =>
        if p.notification.Some? && p.notification.value.address == data.in_.address then Err(InvalidEndpointDescriptor)
        else Ok(CdcAcmFunction(header, number, data.number, p.version.value, p.capabilities.value,
                               p.notification, data.out, data.in_))
  }

  function Judge(f: Framing, header: Header, number: byte, s: Pass<Parts>): Result<CdcAcmFunction, ConfigurationError> {
    if s.selected.None? || !s.selected.value.IsAcmControl() then Err(MissingControlInterface)
    else if s.selected.value.endpointCount > 1 || s.selected.value.endpointCount as nat != s.parts.endpoints
    then Err(InvalidEndpointDescriptor)
    else if s.parts.version.None? then Err(MissingCdcHeader)
    else if s.parts.capabilities.None? then Err(MissingAcmDescriptor)
    else if s.parts.union_.None? then Err(MissingUnionDescriptor)
    else Resolve(f, header, number, s.parts, s.parts.union_.value)
  }

  function Candidate(f: Framing, header: Header, number: byte): Result<CdcAcmFunction, ConfigurationError> {
    match PassResult(f, ControlSearch(number))
    case Err(error) => Err(error)
    case Ok(s) => Judge(f, header, number, s)
  }

  /**
   * A valid function, said without the search: framing is clean; exactly one
   * well-formed alternate-zero descriptor of the control interface, with the
   * ACM class and declaring the endpoints it has; well-made functional
   * descriptors; a Union descriptor that names the control interface and
   * distinct existing others; and the data interface among them.
   */
  ghost predicate IsFunction(f: Framing, header: Header, fn: CdcAcmFunction) {
    var ds, rs := f.descriptors, ControlParts(f.descriptors, fn.control);
    var zero, es := ZeroInterfaces(ds, fn.control), Where(rs, IsOther);
    var headers, acms, unions, calls := Where(rs, IsHeader), Where(rs, IsAcm), Where(rs, IsUnion),
      Where(rs, IsCallManagement);
    && f.error.None? && NoneMalformed(ds, fn.control)
    && |zero| == 1 && zero[0].IsAcmControl() && zero[0].endpointCount as nat == |es| <= 1
    && AllFine(rs) && headers != [] && acms != [] && unions != []
    && fn.configuration == header
    && fn.version == Word(headers[0][3], headers[0][4]) && fn.capabilities == acms[0][3]
    && fn.notification == (if es == [] then None else ParseEndpoint(es[0]))
    && (fn.notification.Some? ==> fn.notification.value.address != fn.bulkIn.address)
    && unions[0][3] == fn.control
    && LeadsTo(f, unions[0][4..], fn, Managed(if calls == [] then None else Some((calls[0][3], calls[0][4]))))
  }

  /** The union's interfaces are in order, and the function's data interface is the one to take among them. */
  ghost predicate LeadsTo(f: Framing, subordinates: seq<byte>, fn: CdcAcmFunction, managed: Option<byte>) {
    var data := DataInterface(fn.data, fn.bulkOut, fn.bulkIn);
    && (forall j | 0 <= j < |subordinates| :: Subordinate(f, subordinates, fn.control, j))
    && fn.data in subordinates
    && DataAt(f, fn.data) == Ok(Some(data))
    && if managed.Some? then fn.data == managed.value
       else forall other | other in subordinates && other != fn.data :: DataAt(f, other) == Ok(None)
  }

  lemma DataNumber(f: Framing, number: byte)
    ensures DataAt(f, number).Ok? && DataAt(f, number).value.Some? ==> DataAt(f, number).value.value.number == number
  {
    hide PassOver;
  }

  lemma ChooseDataIff(f: Framing, subordinates: seq<byte>, fn: CdcAcmFunction, managed: Option<byte>)
    requires forall j | 0 <= j < |subordinates| :: Subordinate(f, subordinates, fn.control, j)
    ensures ChooseData(f, subordinates, managed) == Ok(DataInterface(fn.data, fn.bulkOut, fn.bulkIn))
      <==> LeadsTo(f, subordinates, fn, managed)
  {
    var data := DataInterface(fn.data, fn.bulkOut, fn.bulkIn);
    if managed.Some? {
      DataNumber(f, managed.value);
    } else {
      SelectIff(f, subordinates);
      hide Select, DataAt, Exists;
      if i: nat :| OnlyData(f, subordinates, data, i) {
        DataNumber(f, subordinates[i]);
      }
      if LeadsTo(f, subordinates, fn, managed) {
        var i: nat :| i < |subordinates| && subordinates[i] == fn.data;
        forall j | 0 <= j < |subordinates| && j != i ensures subordinates[j] != fn.data {
          assert Subordinate(f, subordinates, fn.control, j) && Subordinate(f, subordinates, fn.control, i);
          if i < j { assert subordinates[..j][i] == fn.data; } else { assert subordinates[..i][j] == subordinates[j]; }
        }
        assert OnlyData(f, subordinates, data, i);
      }
    }
  }

  lemma ResolveIff(f: Framing, header: Header, p: Parts, union_: UnionDescriptor, fn: CdcAcmFunction)
    requires p.version.Some? && p.capabilities.Some?
    ensures Resolve(f, header, fn.control, p, union_) == Ok(fn) <==>
      && union_[3] == fn.control && LeadsTo(f, union_[4..], fn, Managed(p.call))
      && (p.notification.Some? ==> p.notification.value.address != fn.bulkIn.address)
      && fn.configuration == header && fn.version == p.version.value && fn.capabilities == p.capabilities.value
      && fn.notification == p.notification
  {
    SubordinatesIff(f, union_[4..], fn.control, 0);
    if SubordinateError(f, union_[4..], fn.control, 0).None? {
      ChooseDataIff(f, union_[4..], fn, Managed(p.call));
    }
    hide SubordinateError, ChooseData, Subordinate, DataAt, Managed;
  }

  /** Strict discovery accepts exactly the valid functions. */
  lemma CandidateIff(f: Framing, header: Header, number: byte, fn: CdcAcmFunction)
    ensures Candidate(f, header, number) == Ok(fn) <==> fn.control == number && IsFunction(f, header, fn)
  {
    var q, ds := ControlSearch(number), f.descriptors;
    var rs := ControlParts(ds, number);
    PassIff(ds, q);
    PartsCollect(rs, number);
    hide PassOver, Collect, ZeroInterfaces, Owned, NoneMalformed, Where, AllFine, Resolve, LeadsTo, Managed,
      Interface.IsAcmControl;
    if PassResult(f, q).Ok? {
      var s := PassResult(f, q).value;
      assert Collected(rs, s.parts);
      JudgeIff(f, header, number, s, fn);
    }
  }

  lemma JudgeIff(f: Framing, header: Header, number: byte, s: Pass<Parts>, fn: CdcAcmFunction)
    requires f.error.None? && NoneMalformed(f.descriptors, number) && |ZeroInterfaces(f.descriptors, number)| <= 1
    requires s.selected.None? <==> ZeroInterfaces(f.descriptors, number) == []
    requires s.selected.Some? ==> ZeroInterfaces(f.descriptors, number) == [s.selected.value]
    requires Collected(ControlParts(f.descriptors, number), s.parts)
    ensures Judge(f, header, number, s) == Ok(fn) <==> fn.control == number && IsFunction(f, header, fn)
  {
    hide ZeroInterfaces, ControlParts, NoneMalformed, Where, Interface.IsAcmControl, FunctionalFine, NotificationFine;
    var p := s.parts;
    if fn.control == number && p.version.Some? && p.capabilities.Some? && p.union_.Some? {
      ResolveIff(f, header, p, p.union_.value, fn);
    }
    hide Resolve, LeadsTo, Managed;
  }

  /** Which part of a well-formed candidate is reported missing: the first one in this order. */
  lemma CandidateErrors(f: Framing, header: Header, number: byte)
    requires f.error.None? && NoneMalformed(f.descriptors, number) && |ZeroInterfaces(f.descriptors, number)| <= 1
    requires AllFine(ControlParts(f.descriptors, number))
    ensures var zero, rs := ZeroInterfaces(f.descriptors, number), ControlParts(f.descriptors, number);
      var r, unions := Candidate(f, header, number), Where(rs, IsUnion);
      if zero == [] || zero[0].class_ != 2 || zero[0].subclass != 2 then r == Err(MissingControlInterface)
      else if zero[0].endpointCount as nat != |Where(rs, IsOther)| then r == Err(InvalidEndpointDescriptor)
      else if Where(rs, IsHeader) == [] then r == Err(MissingCdcHeader)
      else if Where(rs, IsAcm) == [] then r == Err(MissingAcmDescriptor)
      else if unions == [] then r == Err(MissingUnionDescriptor)
      else unions[0][3] != number ==> r == Err(InvalidUnionDescriptor)
  {
    var q, ds := ControlSearch(number), f.descriptors;
    var rs := ControlParts(ds, number);
    PassIff(ds, q);
    PartsCollect(rs, number);
    ZeroIsZero(ds, number);
    hide PassOver, Collect, ZeroInterfaces, Owned, NoneMalformed, Where, FunctionalFine, SubtypesFine, SubordinateError,
      ChooseData, Managed;
    assert Collected(rs, PassOver(ds, q).value.parts);
  }

  /** Why the pass for a control interface fails, by the type of its first bad descriptor. */
  lemma ControlPassErrors(ds: seq<Descriptor>, number: byte) returns (n: nat)
    requires PassOver(ds, ControlSearch(number)).Err?
    ensures n < |ds| && PassOver(ds[..n], ControlSearch(number)).Ok?
    ensures PassOver(ds, ControlSearch(number)).error ==
      if ds[n][1] == 4 then InvalidInterfaceDescriptor
      else if ds[n][1] == 0x24 then InvalidFunctionalDescriptor else InvalidEndpointDescriptor
    ensures ds[n][1] in {4, 0x24, 5}
  {
    n := FirstError(ds, ControlSearch(number));
    hide PassOver, ParseInterface, ParseEndpoint, CallCapabilitiesFine;
  }

  lemma {:induction false} ZeroIsZero(ds: seq<Descriptor>, number: byte)
    ensures forall i | i in ZeroInterfaces(ds, number) :: i.alternate == 0 && i.number == number
  {
    hide ParseInterface;
    if ds != [] {
      ZeroIsZero(ds[..|ds| - 1], number);
    }
  }

  /**
   * Where the bulk endpoints come from: they are the two endpoint descriptors
   * of the one alternate-zero CDC data interface whose number the function's
   * Union descriptor lists.
   */
  lemma BulkEndpointsBelong(f: Framing, header: Header, number: byte, fn: CdcAcmFunction)
    requires Candidate(f, header, number) == Ok(fn)
    ensures var unions := Where(ControlParts(f.descriptors, number), IsUnion);
      |unions| == 1 && |unions[0]| >= 5 && unions[0][3] == number && fn.data in unions[0][4..] && fn.data != number
    ensures var zero := ZeroInterfaces(f.descriptors, fn.data);
      |zero| == 1 && zero[0].class_ == 0x0a && zero[0].endpointCount == 2
    ensures BulkList(EndpointsOf(f.descriptors, fn.data), BulkPair(2, Some(fn.bulkOut), Some(fn.bulkIn)))
  {
    CandidateIff(f, header, number, fn);
    var unions := Where(ControlParts(f.descriptors, number), IsUnion);
    var subordinates := unions[0][4..];
    hide Candidate, Where, ControlParts, ZeroInterfaces, FunctionalFine, NotificationFine, DataAt, Exists;
    var i: nat :| i < |subordinates| && subordinates[i] == fn.data;
    assert Subordinate(f, subordinates, number, i);
    DataAtIff(f, DataInterface(fn.data, fn.bulkOut, fn.bulkIn));
  }

  // ----- the filters by bytes -------------------------------------------------------------

  /** The functional descriptors and their kinds by type and subtype (table 25 of the CDC definitions). */
  lemma FunctionalKinds(d: Descriptor)
    ensures IsFunctional(d) <==> d[1] == 0x24
    ensures IsOther(d) <==> d[1] != 0x24
    ensures IsHeader(d) <==> d[1] == 0x24 && |d| >= 3 && d[2] == 0
    ensures IsCallManagement(d) <==> d[1] == 0x24 && |d| >= 3 && d[2] == 1
    ensures IsAcm(d) <==> d[1] == 0x24 && |d| >= 3 && d[2] == 2
    ensures IsUnion(d) <==> d[1] == 0x24 && |d| >= 3 && d[2] == 6
  {}

  /** A control search takes functional and endpoint descriptors of an ACM control interface with this number. */
  lemma ControlFilters(number: byte, t: byte, i: Interface)
    ensures ControlSearch(number).number == number
    ensures ControlSearch(number).interest(t) <==> t == 0x24 || t == 0x05
    ensures ControlSearch(number).owner(i) <==>
      i.number == number && i.alternate == 0 && i.class_ == 2 && i.subclass == 2
  {}

  /** Which descriptors open alternate setting zero of an interface, and which spoil the search for it. */
  lemma InterfaceKinds(d: Descriptor, number: byte)
    ensures ZeroInterface(d, number) <==> |d| == 9 && d[1] == 4 && d[2] == number && d[3] == 0
    ensures MalformedInterface(d, number) <==> |d| != 9 && |d| >= 4 && d[1] == 4 && d[2] == number && d[3] == 0
  {}

  /** Call management capabilities are 0, 1 or 3, and with 3 the data interface that it names is the one to take. */
  lemma CallManagement(capabilities: byte, named: byte)
    ensures CallCapabilitiesFine(capabilities) <==> capabilities in {0, 1, 3}
    ensures CallCapabilitiesFine(capabilities) ==>
      Managed(Some((capabilities, named))) == if capabilities == 3 then Some(named) else None
    ensures Managed(None) == None
  {}
}
