/**
 * OUT transfers over a lossy wire: the mirror image of IN transfers, with the
 * host sending data packets and the device acknowledging them.
 */
module TransferOut {
  import opened UsbTypes
  import opened Packetise
  import opened Retry
  import OutReceive
  import Packets

  /** What the host's receiver hears after its data packet; `Unsent` is a transmitter failure. */
  datatype Handshake = Unsent | HeardAck | HeardNak | HeardStall | HeardOther | Silence

  /**
   * A conforming device that gets a new packet takes it or answers NAK; a
   * halted one answers STALL to any packet (section 8.4.6.3 of USB 2.0).
   */
  datatype Readiness = Ready | Busy | Halted

  datatype OutFate = OutFate(arrives: bool, device: Readiness, handshake: Handshake)

  datatype OutTry = OutTry(packet: Payload, fate: OutFate)

  /** `received` are the packets the device took, `acked` those the host saw acknowledged. */
  datatype OutWorld = OutWorld(received: seq<Payload>, device: DataToggle, acked: seq<Payload>, host: DataToggle)

  const FRESH: OutWorld := OutWorld([], Data0, [], Data0)

  predicate Transmits(t: OutTry) { |t.packet| <= LARGEST_PAYLOAD }

  /** The device acknowledges a packet that it takes, and one that it has already. */
  predicate DeviceAcks(w: OutWorld, t: OutTry) {
    Transmits(t) && t.fate.arrives && !t.fate.device.Halted? && (w.host != w.device || t.fate.device.Ready?)
  }

  /** An acknowledgement that is heard was sent. */
  predicate Honest(w: OutWorld, t: OutTry) {
    t.fate.handshake.HeardAck? ==> DeviceAcks(w, t) || !Transmits(t)
  }

  /** One OUT request to the engine: what the retry loop sees. */
  function OutOutcome(t: OutTry): Result<Outcome<()>, PipeError> {
    if !Transmits(t) then Err(BufferOverflow)
    else match t.fate.handshake
      case Unsent => Err(Timeout)
      case HeardAck => Ok(Complete(()))
      case HeardNak => Ok(Nak)
      case HeardStall => Err(Stall)
      case HeardOther => Err(BadResponse)
      case Silence => Ok(NoResponse)
  }

  predicate Acknowledged(t: OutTry) { Completes(OutOutcome(t)) }

  function OutStep(w: OutWorld, t: OutTry): OutWorld {
    var taken :=
      if DeviceAcks(w, t) && w.host == w.device
      then w.(received := w.received + [t.packet], device := w.device.AfterAck())
      else w;
    if Acknowledged(t) then taken.(acked := w.acked + [t.packet], host := w.host.AfterAck()) else taken
  }

  function RunOut(start: OutWorld, tries: seq<OutTry>): OutWorld {
    if tries == [] then start else OutStep(RunOut(start, tries[..|tries| - 1]), tries[|tries| - 1])
  }

  lemma {:induction false} RunOutConcat(start: OutWorld, a: seq<OutTry>, b: seq<OutTry>)
    ensures RunOut(start, a + b) == RunOut(RunOut(start, a), b)
    decreases |b|
  {
    hide OutStep;
    if b == [] {
      assert a + b == a;
    } else {
      assert (a + b)[..|a + b| - 1] == a + b[..|b| - 1];
      RunOutConcat(start, a, b[..|b| - 1]);
    }
  }

  lemma RunOutAppend(start: OutWorld, tries: seq<OutTry>, t: OutTry)
    ensures RunOut(start, tries + [t]) == OutStep(RunOut(start, tries), t)
  {
    hide OutStep;
    assert (tries + [t])[..|tries|] == tries;
  }

  ghost predicate HonestRun(start: OutWorld, tries: seq<OutTry>) {
    forall i | 0 <= i < |tries| :: Honest(RunOut(start, tries[..i]), tries[i])
  }

  // ----- exactly once, in order ---------------------------------------------------------

  /** What the host saw acknowledged is what the device took, except for at most one packet. */
  ghost predicate InOrder(w: OutWorld) {
    w.acked <= w.received && |w.received| <= |w.acked| + 1
  }

  ghost predicate TogglesCount(w: OutWorld) {
    && |w.acked| <= |w.received| <= |w.acked| + 1
    && w.device == ToggleAfter(|w.received|)
    && w.host == ToggleAfter(|w.acked|)
  }

  /** The device has a packet whose acknowledgement the host has not seen. */
  predicate Ahead(w: OutWorld) { |w.received| == |w.acked| + 1 }

  /** Host and device agree, with nothing outstanding. */
  ghost predicate InStep(w: OutWorld) { TogglesCount(w) && InOrder(w) && !Ahead(w) }

  /** An acknowledged packet that is not the one the acknowledgement stands for. */
  predicate Swallowed(w: OutWorld, t: OutTry) {
    Ahead(w) && Acknowledged(t) && t.packet != w.received[|w.received| - 1]
  }

  lemma OutStepKeeps(w: OutWorld, t: OutTry)
    requires TogglesCount(w) && Honest(w, t)
    ensures var next := OutStep(w, t);
      && TogglesCount(next)
      && w.acked <= next.acked && w.received <= next.received
      && (InOrder(w) ==> (InOrder(next) <==> !Swallowed(w, t)))
      && (!InOrder(w) ==> !InOrder(next))
  {
    ToggleFlips(|w.acked|);
    ToggleFlips(|w.received|);
    var next := OutStep(w, t);
    hide ToggleAfter;
    assert w.acked == next.acked[..|w.acked|] && w.received == next.received[..|w.received|];
    if InOrder(w) && Swallowed(w, t) {
      assert next.acked[|w.acked|] != next.received[|w.acked|];
    }
  }

  /**
   * The mirror statement for OUT, with the exact condition: the packets the
   * host saw acknowledged are what the device took, in order and once each, if
   * and only if no acknowledged packet differs from the one the device was
   * already holding unacknowledged.
   */
  lemma {:induction false} ExactlyOnceOut(start: OutWorld, tries: seq<OutTry>)
    requires TogglesCount(start) && InOrder(start)
    requires HonestRun(start, tries)
    ensures TogglesCount(RunOut(start, tries))
    ensures InOrder(RunOut(start, tries)) <==>
      forall i | 0 <= i < |tries| :: !Swallowed(RunOut(start, tries[..i]), tries[i])
  {
    hide OutStep, Honest, Swallowed;
    if tries != [] {
      var n := |tries| - 1;
      var before := tries[..n];
      forall i | 0 <= i < n ensures before[..i] == tries[..i] && before[i] == tries[i] {}
      ExactlyOnceOut(start, before);
      OutStepKeeps(RunOut(start, before), tries[n]);
    }
  }

  // ----- what the host can see ------------------------------------------------------------

  /** One attempt as the host sees it. */
  datatype Seen = Seen(packet: Payload, handshake: Handshake)

  predicate SeenSent(s: Seen) { |s.packet| <= LARGEST_PAYLOAD }
  predicate SeenAck(s: Seen) { SeenSent(s) && s.handshake.HeardAck? }

  /** Runs that look like this to the host. */
  ghost predicate LooksLike(tries: seq<OutTry>, seen: seq<Seen>) {
    |tries| == |seen|
    && forall i | 0 <= i < |tries| :: tries[i].packet == seen[i].packet && tries[i].fate.handshake == seen[i].handshake
  }

  /** A NAK and a STALL that are heard were sent as well: only what is lost or damaged goes unheard. */
  predicate Truthful(w: OutWorld, t: OutTry) {
    Transmits(t) ==>
      && (t.fate.handshake.HeardNak? ==> t.fate.arrives && w.host == w.device && t.fate.device.Busy?)
      && (t.fate.handshake.HeardStall? ==> t.fate.arrives && t.fate.device.Halted?)
  }

  /** An honest run; on a strict wire no handshake is ever mistaken for another one. */
  ghost predicate Plausible(start: OutWorld, tries: seq<OutTry>, strict: bool) {
    HonestRun(start, tries)
    && (strict ==> forall i | 0 <= i < |tries| :: Truthful(RunOut(start, tries[..i]), tries[i]))
  }

  /**
   * The packets that the device may hold unacknowledged: those sent since the
   * last ACK that no handshake denies. A truthful NAK says that the device
   * holds none, a truthful STALL that it did not take this one.
   */
  function Suspects(seen: seq<Seen>, strict: bool): seq<Payload> {
    if seen == [] then []
    else
      var last, before := seen[|seen| - 1], Suspects(seen[..|seen| - 1], strict);
      if !SeenSent(last) then before
      else if last.handshake.HeardAck? || (strict && last.handshake.HeardNak?) then []
      else if strict && last.handshake.HeardStall? then before
      else before + [last.packet]
  }

  /** Each acknowledged packet equals every packet that the device may hold by then. */
  ghost predicate Unambiguous(seen: seq<Seen>, strict: bool) {
    if seen == [] then true
    else
      var last, before := seen[|seen| - 1], seen[..|seen| - 1];
      && Unambiguous(before, strict)
      && (SeenAck(last) ==> forall p | p in Suspects(before, strict) :: p == last.packet)
  }

  /** The last of a list of attempts, and those before it. */
  lemma PlausibleMore(start: OutWorld, tries: seq<OutTry>, t: OutTry, strict: bool)
    ensures Plausible(start, tries + [t], strict) <==>
      Plausible(start, tries, strict) && Honest(RunOut(start, tries), t)
        && (strict ==> Truthful(RunOut(start, tries), t))
  {
    var more := tries + [t];
    forall i | 0 <= i <= |tries| ensures more[..i] == tries[..i] && (i < |tries| ==> more[i] == tries[i]) {}
    assert tries[..|tries|] == tries && more[|tries|] == t;
    hide Honest, Truthful, RunOut;
  }

  /** What a device that is ahead holds is one of the suspects. */
  ghost predicate HoldsSuspect(w: OutWorld, seen: seq<Seen>, strict: bool) {
    TogglesCount(w) && InOrder(w) && (Ahead(w) ==> w.received[|w.received| - 1] in Suspects(seen, strict))
  }

  lemma SuspectStep(w: OutWorld, t: OutTry, seen: seq<Seen>, strict: bool)
    requires HoldsSuspect(w, seen, strict) && Honest(w, t) && (strict ==> Truthful(w, t))
    requires var last := Seen(t.packet, t.fate.handshake);
      SeenAck(last) ==> forall p | p in Suspects(seen, strict) :: p == last.packet
    ensures HoldsSuspect(OutStep(w, t), seen + [Seen(t.packet, t.fate.handshake)], strict)
  {
    OutStepKeeps(w, t);
    assert (seen + [Seen(t.packet, t.fate.handshake)])[..|seen|] == seen;
    ToggleFlips(|w.acked|);
    hide ToggleAfter;
  }

  lemma {:induction false} UnambiguousKeepsOrder(start: OutWorld, tries: seq<OutTry>, seen: seq<Seen>, strict: bool)
    requires InStep(start) && LooksLike(tries, seen) && Plausible(start, tries, strict) && Unambiguous(seen, strict)
    ensures HoldsSuspect(RunOut(start, tries), seen, strict)
  {
    if tries != [] {
      var n := |tries| - 1;
      var before, t := tries[..n], tries[n];
      assert before + [t] == tries && seen[..n] + [seen[n]] == seen;
      PlausibleMore(start, before, t, strict);
      UnambiguousKeepsOrder(start, before, seen[..n], strict);
      hide HoldsSuspect, Honest, Truthful, OutStep, Suspects;
      SuspectStep(RunOut(start, before), t, seen[..n], strict);
    }
  }

  /** The answer under which nothing is ever outstanding: what is acknowledged arrives, the rest does not. */
  function Quietly(s: Seen, strict: bool): OutTry {
    OutTry(s.packet,
           match s.handshake
           case HeardAck => OutFate(true, Ready, HeardAck)
           case HeardNak => OutFate(strict, Busy, HeardNak)
           case HeardStall => OutFate(true, Halted, HeardStall)
           case other => OutFate(false, Busy, other))
  }

  /** Host and device agree on the next toggle. */
  ghost predicate Level(w: OutWorld) { TogglesCount(w) && !Ahead(w) }

  lemma QuietStep(w: OutWorld, s: Seen, strict: bool)
    requires TogglesCount(w) && (Level(w) || !(SeenAck(s) || (SeenSent(s) && strict && s.handshake.HeardNak?)))
    ensures var t := Quietly(s, strict);
      && Honest(w, t) && (strict ==> Truthful(w, t))
      && (Level(w) ==> Level(OutStep(w, t)) && (!InOrder(w) ==> !InOrder(OutStep(w, t))))
      && (!Level(w) ==> OutStep(w, t) == w)
  {
    var t := Quietly(s, strict);
    ToggleFlips(|w.acked|);
    ToggleFlips(|w.received|);
    hide ToggleAfter;
    assert Honest(w, t);
    OutStepKeeps(w, t);
  }

  lemma OneMoreLooks(tries: seq<OutTry>, t: OutTry, seen: seq<Seen>)
    requires seen != [] && LooksLike(tries, seen[..|seen| - 1])
    requires t.packet == seen[|seen| - 1].packet && t.fate.handshake == seen[|seen| - 1].handshake
    ensures LooksLike(tries + [t], seen)
  {}

  lemma QuietlyLooks(s: Seen, strict: bool)
    ensures Quietly(s, strict).packet == s.packet && Quietly(s, strict).fate.handshake == s.handshake
  {}

  /** Whatever the host sees, a run in which nothing stays outstanding looks like it. */
  lemma {:induction false} QuietRun(start: OutWorld, seen: seq<Seen>, strict: bool) returns (tries: seq<OutTry>)
    requires InStep(start)
    ensures LooksLike(tries, seen) && Plausible(start, tries, strict) && Level(RunOut(start, tries))
  {
    tries := [];
    if seen != [] {
      var n := |seen| - 1;
      var before := QuietRun(start, seen[..n], strict);
      tries := Appended(start, before, Quietly(seen[n], strict), seen, strict);
    }
  }

  /** A run goes on with one more attempt that is possible there. */
  lemma Appended(start: OutWorld, before: seq<OutTry>, t: OutTry, seen: seq<Seen>, strict: bool)
    returns (tries: seq<OutTry>)
    requires seen != [] && LooksLike(before, seen[..|seen| - 1]) && Plausible(start, before, strict)
    requires t.packet == seen[|seen| - 1].packet && t.fate.handshake == seen[|seen| - 1].handshake
    requires var w := RunOut(start, before);
      TogglesCount(w)
      && ((t == Quietly(seen[|seen| - 1], strict) && Level(w)) || (Honest(w, t) && (strict ==> Truthful(w, t))))
    ensures LooksLike(tries, seen) && Plausible(start, tries, strict)
    ensures RunOut(start, tries) == OutStep(RunOut(start, before), t)
    ensures t == Quietly(seen[|seen| - 1], strict) && Level(RunOut(start, before)) ==>
      Level(RunOut(start, tries)) && (!InOrder(RunOut(start, before)) ==> !InOrder(RunOut(start, tries)))
  {
    tries := before + [t];
    OneMoreLooks(before, t, seen);
    PlausibleMore(start, before, t, strict);
    RunOutAppend(start, before, t);
    hide RunOut, LooksLike, Plausible, Honest, Truthful, TogglesCount, OutStep, Quietly, InOrder;
    if t == Quietly(seen[|seen| - 1], strict) && Level(RunOut(start, before)) {
      QuietStep(RunOut(start, before), seen[|seen| - 1], strict);
    }
  }

  /** Each suspect may be what the device holds. */
  lemma {:induction false} SuspectRun(start: OutWorld, seen: seq<Seen>, strict: bool, p: Payload)
    returns (tries: seq<OutTry>)
    requires InStep(start) && p in Suspects(seen, strict)
    ensures LooksLike(tries, seen) && Plausible(start, tries, strict)
    ensures var w := RunOut(start, tries); TogglesCount(w) && Ahead(w) && w.received[|w.received| - 1] == p
  {
    var n := |seen| - 1;
    var last := seen[n];
    if p in Suspects(seen[..n], strict) {
      var before := SuspectRun(start, seen[..n], strict, p);
      var w := RunOut(start, before);
      QuietStep(w, last, strict);
      QuietlyLooks(last, strict);
      hide RunOut, LooksLike, Plausible, Honest, Truthful, OutStep, Quietly, TogglesCount;
      tries := Appended(start, before, Quietly(last, strict), seen, strict);
    } else {
      var before := QuietRun(start, seen[..n], strict);
      var t := OutTry(last.packet, OutFate(true, Ready, last.handshake));
      TakenUnheard(RunOut(start, before), t, strict);
      hide RunOut, LooksLike, Plausible, Honest, Truthful, OutStep, TogglesCount;
      tries := Appended(start, before, t, seen, strict);
    }
  }

  /** A device that agrees with the host takes a packet whose acknowledgement is not heard. */
  lemma TakenUnheard(w: OutWorld, t: OutTry, strict: bool)
    requires Level(w) && Transmits(t) && t.fate.arrives && t.fate.device.Ready? && !t.fate.handshake.HeardAck?
    requires strict ==> !t.fate.handshake.HeardNak? && !t.fate.handshake.HeardStall?
    ensures Honest(w, t) && (strict ==> Truthful(w, t))
    ensures var next := OutStep(w, t);
      TogglesCount(next) && Ahead(next) && next.received[|next.received| - 1] == t.packet
  {
    OutStepKeeps(w, t);
  }

  /** The acknowledgement of another packet than the held one breaks the order for good. */
  lemma SwallowedStep(w: OutWorld, s: Seen, strict: bool)
    requires TogglesCount(w) && Ahead(w) && SeenAck(s) && w.received[|w.received| - 1] != s.packet
    ensures var t := OutTry(s.packet, OutFate(true, Ready, HeardAck));
      && Honest(w, t) && Truthful(w, t)
      && Level(OutStep(w, t)) && !InOrder(OutStep(w, t))
  {
    var t := OutTry(s.packet, OutFate(true, Ready, HeardAck));
    ToggleFlips(|w.acked|);
    ToggleFlips(|w.received|);
    OutStepKeeps(w, t);
    hide ToggleAfter;
    assert Swallowed(w, t);
    assert OutStep(w, t).acked[|w.acked|] == s.packet;
  }

  lemma {:induction false} BreakingRun(start: OutWorld, seen: seq<Seen>, strict: bool) returns (tries: seq<OutTry>)
    requires InStep(start) && !Unambiguous(seen, strict)
    ensures LooksLike(tries, seen) && Plausible(start, tries, strict)
    ensures Level(RunOut(start, tries)) && !InOrder(RunOut(start, tries))
  {
    var n := |seen| - 1;
    var last := seen[n];
    if !Unambiguous(seen[..n], strict) {
      var before := BreakingRun(start, seen[..n], strict);
      QuietlyLooks(last, strict);
      hide RunOut, LooksLike, Plausible, Honest, Truthful, OutStep, Quietly, TogglesCount, InOrder;
      tries := Appended(start, before, Quietly(last, strict), seen, strict);
    } else {
      var p :| p in Suspects(seen[..n], strict) && p != last.packet;
      var before := SuspectRun(start, seen[..n], strict, p);
      SwallowedStep(RunOut(start, before), last, strict);
      hide RunOut, LooksLike, Plausible, Honest, Truthful, OutStep, Quietly, TogglesCount, InOrder, Suspects;
      tries := Appended(start, before, OutTry(last.packet, OutFate(true, Ready, HeardAck)), seen, strict);
    }
  }

  /**
   * When the host may trust its acknowledgements: every run that looks like
   * this to the host, whatever arrived and whatever the device answered, keeps
   * the order - if and only if each acknowledged packet equals all packets that
   * were sent since the acknowledgement before and that no handshake denies.
   */
  lemma KeepsOrderIff(start: OutWorld, seen: seq<Seen>, strict: bool)
    requires InStep(start)
    ensures (forall tries | LooksLike(tries, seen) && Plausible(start, tries, strict) :: InOrder(RunOut(start, tries)))
      <==> Unambiguous(seen, strict)
  {
    hide LooksLike, Plausible, RunOut, InOrder, InStep, TogglesCount;
    if Unambiguous(seen, strict) {
      forall tries | LooksLike(tries, seen) && Plausible(start, tries, strict) ensures InOrder(RunOut(start, tries)) {
        UnambiguousKeepsOrder(start, tries, seen, strict);
      }
    } else {
      var tries := BreakingRun(start, seen, strict);
      assert !InOrder(RunOut(start, tries));
    }
  }

  // ----- from the wire to the host --------------------------------------------------------

  /** What the transfer model hears of a transaction whose packets went out. */
  function HandshakeHeard(o: OutReceive.Observed): Handshake {
    match OutReceive.Received(o)
    case Handshake(pid) =>
      if pid == PID_ACK then HeardAck
      else if pid == PID_NAK then HeardNak
      else if pid == PID_STALL then HeardStall
      else HeardOther
    case InvalidPacket => HeardOther
    case NoStart => Silence
  }

  /** The attempt has the outcome of the detailed transaction, for every sequence of polls. */
  lemma AttemptIsTransaction(t: OutTry, transmitted: bool, o: OutReceive.Observed)
    requires t.fate.handshake == if transmitted then HandshakeHeard(o) else Unsent
    ensures OutOutcome(t) ==
      if !Transmits(t) then Err(BufferOverflow)
      else if !transmitted then Err(Timeout)
      else
        match OutReceive.ResponseOf(OutReceive.Received(o))
        case Ok(Ack) => Ok(Complete(()))
        case Ok(Nak) => Ok(Outcome.Nak)
        case Ok(NoResponse) => Ok(Outcome.NoResponse)
        case Err(error) => Err(error)
  {
    hide OutReceive.Received;
  }

  /**
   * One attempt whose packets went out, by the bytes of the handshake: ACK
   * completes it, NAK and silence ask for another one, STALL ends the request,
   * and anything else is a bad response.
   */
  lemma BytesDecide(t: OutTry, o: OutReceive.Observed)
    requires t.fate.handshake == HandshakeHeard(o) && |t.packet| <= 100
    ensures OutOutcome(t) == Ok(Complete(())) <==> OutReceive.Drained(o, [0x80, 0xd2])
    ensures OutOutcome(t) == Ok(Outcome.Nak) <==> OutReceive.Drained(o, [0x80, 0x5a])
    ensures OutOutcome(t) == Err(PipeError.Stall) <==> OutReceive.Drained(o, [0x80, 0x1e])
    ensures OutOutcome(t) == Ok(Outcome.NoResponse) <==> OutReceive.Quiet(o, 0)
    ensures OutOutcome(t).Err? ==> OutOutcome(t).error in {PipeError.Stall, BadResponse}
    ensures OutOutcome(t) == Ok(Complete(())) <==> t.fate.handshake == HeardAck
    ensures OutOutcome(t) == Ok(Outcome.Nak) <==> t.fate.handshake == HeardNak
    ensures OutOutcome(t) == Err(PipeError.Stall) <==> t.fate.handshake == HeardStall
    ensures OutOutcome(t) == Ok(Outcome.NoResponse) <==> t.fate.handshake == Silence
  {
    AttemptIsTransaction(t, true, o);
    OutReceive.HandshakeDecides(o);
    hide OutReceive.Received, OutReceive.Drained, OutReceive.Quiet, OutReceive.ResponseOf;
    assert t.fate.handshake != Unsent;
    if OutOutcome(t).Ok? && OutOutcome(t).value.Complete? {
      assert OutOutcome(t).value.value == ();
    }
  }

  /** The handshake that a conforming device answers with, if it answers. */
  function DeviceAnswer(w: OutWorld, t: OutTry): Option<byte> {
    if !Transmits(t) || !t.fate.arrives then None
    else if t.fate.device.Halted? then Some(PID_STALL)
    else if w.host != w.device || t.fate.device.Ready? then Some(PID_ACK)
    else Some(PID_NAK)
  }

  /** Bytes that parse as a handshake are the device's handshake; everything else may be noise. */
  ghost predicate GenuineAnswer(w: OutWorld, t: OutTry, wire: seq<byte>) {
    forall pid | Packets.ParsePacket(wire) == Ok(Packets.ParsedPacket.Handshake(pid)) :: DeviceAnswer(w, t) == Some(pid)
  }

  /** Where honesty comes from: a genuine wire is all it takes, because the last drain leaves nothing behind. */
  lemma HonestFromTheWire(w: OutWorld, t: OutTry, o: OutReceive.Observed, wire: seq<byte>)
    requires t.fate.handshake == HandshakeHeard(o)
    requires OutReceive.Pushes(o, wire) && GenuineAnswer(w, t, wire)
    ensures Honest(w, t) && Truthful(w, t)
  {
    hide Packets.ParsePacket, OutReceive.Pushes;
    var result := OutReceive.Received(o);
    if result.Handshake? {
      OutReceive.HeardHandshakeWasSent(o, wire, result.pid);
    }
    hide OutReceive.Received, GenuineAnswer;
    assert result.Handshake? ==> DeviceAnswer(w, t) == Some(result.pid);
  }

  datatype OnTheWire = OnTheWire(bytes: seq<byte>, observed: OutReceive.Observed)

  /** Every attempt either never got its packets out, or heard a genuine wire. */
  ghost predicate WellHeard(start: OutWorld, tries: seq<OutTry>, wires: seq<OnTheWire>) {
    && |wires| == |tries|
    && forall i | 0 <= i < |tries| ::
         tries[i].fate.handshake.Unsent?
         || (tries[i].fate.handshake == HandshakeHeard(wires[i].observed)
             && OutReceive.Pushes(wires[i].observed, wires[i].bytes)
             && GenuineAnswer(RunOut(start, tries[..i]), tries[i], wires[i].bytes))
  }

  /** A run over a genuine wire is plausible, and no handshake is mistaken for another. */
  lemma PlausibleFromTheWire(start: OutWorld, tries: seq<OutTry>, wires: seq<OnTheWire>)
    requires WellHeard(start, tries, wires)
    ensures Plausible(start, tries, true)
  {
    hide RunOut, HandshakeHeard, GenuineAnswer, OutReceive.Pushes;
    forall i | 0 <= i < |tries|
      ensures Honest(RunOut(start, tries[..i]), tries[i]) && Truthful(RunOut(start, tries[..i]), tries[i])
    {
      if !tries[i].fate.handshake.Unsent? {
        HonestFromTheWire(RunOut(start, tries[..i]), tries[i], wires[i].observed, wires[i].bytes);
      }
    }
  }

  // ----- who abandons nothing -------------------------------------------------------------

  /** No OUT request is abandoned: another packet is sent only after an acknowledgement. */
  ghost predicate NothingAbandoned(tries: seq<OutTry>) {
    forall i | 0 < i < |tries| :: Acknowledged(tries[i - 1]) || tries[i].packet == tries[i - 1].packet
  }

  /** Whoever abandons nothing may trust every acknowledgement. */
  lemma {:induction false} RetriesAreUnambiguous(tries: seq<OutTry>, seen: seq<Seen>, strict: bool)
    requires LooksLike(tries, seen) && NothingAbandoned(tries)
    ensures Unambiguous(seen, strict)
    ensures forall p | p in Suspects(seen, strict) ::
      tries != [] && !Acknowledged(tries[|tries| - 1]) && p == tries[|tries| - 1].packet
  {
    if tries != [] {
      var n := |tries| - 1;
      var before := tries[..n];
      forall i | 0 <= i < n ensures before[i] == tries[i] {}
      RetriesAreUnambiguous(before, seen[..n], strict);
      assert n > 0 ==> before[n - 1] == tries[n - 1];
    }
  }

  /** A device that is ahead holds the packet that was sent last, unacknowledged. */
  ghost predicate Outstanding(w: OutWorld, t: OutTry) {
    InOrder(w) && (Ahead(w) ==> !Acknowledged(t) && w.received[|w.received| - 1] == t.packet)
  }

  /** In a run that abandons nothing, a device that is ahead holds the packet being sent. */
  lemma {:induction false} RetriesResend(start: OutWorld, tries: seq<OutTry>)
    requires InStep(start)
    requires HonestRun(start, tries) && NothingAbandoned(tries)
    ensures InOrder(RunOut(start, tries))
    ensures tries == [] ==> !Ahead(RunOut(start, tries))
    ensures tries != [] ==> Outstanding(RunOut(start, tries), tries[|tries| - 1])
  {
    if tries != [] {
      var n := |tries| - 1;
      var before := tries[..n];
      forall i | 0 <= i < n ensures before[..i] == tries[..i] && before[i] == tries[i] {}
      hide Acknowledged, Honest, OutStep, TogglesCount, Ahead;
      RetriesResend(start, before);
      ExactlyOnceOut(start, before);
      assert Honest(RunOut(start, tries[..n]), tries[n]);
      assert n > 0 ==> Acknowledged(tries[n - 1]) || tries[n].packet == tries[n - 1].packet;
      hide InOrder, RunOut, HonestRun, NothingAbandoned;
      assert n > 0 ==> before[n - 1] == tries[n - 1];
      RetriedStep(RunOut(start, before), tries[n]);
      NextRun(start, tries);
    }
  }

  lemma NextRun(start: OutWorld, tries: seq<OutTry>)
    requires tries != []
    ensures RunOut(start, tries) == OutStep(RunOut(start, tries[..|tries| - 1]), tries[|tries| - 1])
  {}

  lemma RetriedStep(w: OutWorld, t: OutTry)
    requires TogglesCount(w) && InOrder(w) && Honest(w, t)
    requires Ahead(w) ==> w.received[|w.received| - 1] == t.packet
    ensures Outstanding(OutStep(w, t), t) && TogglesCount(OutStep(w, t))
  {
    OutStepKeeps(w, t);
  }

  /** An abandoned packet breaks it: its successor is acknowledged and thrown away. */
  lemma AbandonedPacketSwallowsTheNext(first: Payload, second: Payload)
    requires first != second && |first| <= LARGEST_PAYLOAD && |second| <= LARGEST_PAYLOAD
    ensures var lostAck := OutTry(first, OutFate(true, Ready, Silence));
      var next := OutTry(second, OutFate(true, Ready, HeardAck));
      && HonestRun(FRESH, [lostAck, next])
      && !InOrder(RunOut(FRESH, [lostAck, next]))
      && RunOut(FRESH, [lostAck, next]) == OutWorld([first], Data1, [second], Data1)
  {
    var lostAck := OutTry(first, OutFate(true, Ready, Silence));
    var next := OutTry(second, OutFate(true, Ready, HeardAck));
    assert [lostAck, next][..1] == [lostAck] && [lostAck, next][..0] == [];
    RunOutAppend(FRESH, [], lostAck);
    RunOutAppend(FRESH, [lostAck], next);
    assert [] + [lostAck] == [lostAck] && [lostAck] + [next] == [lostAck, next];
    assert RunOut(FRESH, [lostAck]) == OutWorld([first], Data1, [], Data0);
    var w := RunOut(FRESH, [lostAck, next]);
    assert w.received[0] == first && w.acked[0] == second;
  }

  /**
   * What a successful request does on the device: started in step, the device
   * takes exactly the packets of the data, and is in step again.
   */
  lemma OutIsExact(start: OutWorld, used: seq<OutTry>, packets: seq<Payload>)
    requires InStep(start)
    requires HonestRun(start, used) && NothingAbandoned(used)
    requires used != [] && Acknowledged(used[|used| - 1])
    requires RunOut(start, used).acked == start.acked + packets
    ensures RunOut(start, used).received == start.received + packets
    ensures InOrder(RunOut(start, used)) && !Ahead(RunOut(start, used))
  {
    hide OutStep, Acknowledged, RunOut, HonestRun, NothingAbandoned, TogglesCount;
    RetriesResend(start, used);
    NothingOutstanding(start);
    NothingOutstanding(RunOut(start, used));
  }

  lemma NothingOutstanding(w: OutWorld)
    requires InOrder(w) && !Ahead(w)
    ensures w.received == w.acked
  {}

  // ----- the pipe -----------------------------------------------------------------------

  /** What the attempts came to. */
  function Outcomes(used: seq<OutTry>): seq<Result<Outcome<()>, PipeError>> {
    if used == [] then [] else Outcomes(used[..|used| - 1]) + [OutOutcome(used[|used| - 1])]
  }

  /** How many attempts at the end of the list went unanswered in a row. */
  function SilentTries(used: seq<OutTry>): nat { SilentTail(Outcomes(used)) }

  lemma SilentTriesAppend(used: seq<OutTry>, t: OutTry)
    ensures SilentTries(used + [t]) == SilentNow(SilentTries(used), OutOutcome(t))
  {
    hide OutOutcome, SilentTail;
    assert (used + [t])[..|used|] == used;
    SilentTailAppend(Outcomes(used), OutOutcome(t));
  }

  /** The first attempts of the script were made, each asked for a retry, and never 128 in a row were silent. */
  ghost predicate Trying(script: seq<Attempt<OutFate>>, packet: Payload, used: seq<OutTry>) {
    && |used| <= |script|
    && (forall i | 0 <= i < |used| ::
          Passed(script[i]) && used[i] == OutTry(packet, script[i].fate) && Retryable(OutOutcome(used[i])))
    && (forall n | 0 <= n <= |used| :: SilentTries(used[..n]) < NON_RESPONSE_RETRY_LIMIT)
  }

  /** The retry loop on a script: the attempts it makes, and how it ends. */
  ghost predicate Tried(script: seq<Attempt<OutFate>>, packet: Payload, used: seq<OutTry>,
                        result: Option<Result<(), PipeError>>)
  {
    || (Trying(script, packet, used) && StopsBefore(script, |used|, result))
    || (0 < |used| <= |script|
        && var n := |used| - 1;
           Trying(script, packet, used[..n])
           && script[n].validBefore && script[n].validLocked && used[n] == OutTry(packet, script[n].fate)
           && LastSays(script[n], OutOutcome(used[n]), SilentTries(used), result))
  }

  /** The last so many attempts heard nothing at all. */
  ghost predicate SilentRun(used: seq<OutTry>, n: nat) {
    n <= |used| && forall i | |used| - n <= i < |used| :: used[i].fate.handshake == Silence
  }

  lemma {:induction false} SilentTriesIff(used: seq<OutTry>, n: nat)
    requires forall i | 0 <= i < |used| :: |used[i].packet| <= LARGEST_PAYLOAD
    ensures SilentTries(used) >= n <==> SilentRun(used, n)
  {
    if used != [] {
      var before, t := used[..|used| - 1], used[|used| - 1];
      assert before + [t] == used;
      SilentTriesAppend(before, t);
      hide SilentTries;
      if n > 0 {
        SilentTriesIff(before, n - 1);
      }
    }
  }

  /** The attempts before the last were answered by NAK or by nothing, and no 128 of them in a row by nothing. */
  ghost predicate AllAskAgain(used: seq<OutTry>) {
    && (forall i | 0 <= i < |used| :: used[i].fate.handshake in {HeardNak, Silence})
    && (forall n | 0 <= n <= |used| :: !SilentRun(used[..n], 128))
  }

  lemma TryingByHandshakes(script: seq<Attempt<OutFate>>, packet: Payload, used: seq<OutTry>)
    requires Trying(script, packet, used) && |packet| <= LARGEST_PAYLOAD
    ensures AllAskAgain(used)
  {
    hide SilentTries, SilentRun;
    forall n | 0 <= n <= |used| ensures !SilentRun(used[..n], 128) {
      SilentTriesIff(used[..n], 128);
    }
  }

  /** What the last attempt of a request says of its result. */
  ghost predicate LastHeard(script: seq<Attempt<OutFate>>, used: seq<OutTry>, result: Option<Result<(), PipeError>>) {
    var n := |used| - 1;
    var heard := 0 <= n < |script| && !script[n].dropped && script[n].validAfter;
    && (Succeeds(result) <==> heard && used[n].fate.handshake == HeardAck)
    && (result == Some(Err(PipeError.Stall)) <==> heard && used[n].fate.handshake == HeardStall)
    && (result == Some(Err(BadResponse)) <==> heard && used[n].fate.handshake == HeardOther)
    && (result == Some(Err(Timeout)) <==> heard && (SilentRun(used, 128) || used[n].fate.handshake == Unsent))
  }

  lemma StoppedBetween(script: seq<Attempt<OutFate>>, packet: Payload, used: seq<OutTry>,
                       result: Option<Result<(), PipeError>>)
    requires Trying(script, packet, used) && StopsBefore(script, |used|, result) && |packet| <= LARGEST_PAYLOAD
    ensures LastHeard(script, used, result)
  {
    TryingByHandshakes(script, packet, used);
    assert used[..|used|] == used;
    hide SilentTries, SilentRun, Trying;
  }

  lemma StoppedAfter(script: seq<Attempt<OutFate>>, packet: Payload, used: seq<OutTry>,
                     result: Option<Result<(), PipeError>>)
    requires 0 < |used| <= |script| && |packet| <= LARGEST_PAYLOAD
    requires forall i | 0 <= i < |used| :: used[i] == OutTry(packet, script[i].fate)
    requires var n := |used| - 1;
      && LastSays(script[n], OutOutcome(used[n]), SilentTries(used), result)
      && SilentTries(used[..n]) < NON_RESPONSE_RETRY_LIMIT
    ensures LastHeard(script, used, result)
  {
    var n := |used| - 1;
    SilentTriesIff(used, 128);
    assert used[..n] + [used[n]] == used;
    SilentTriesAppend(used[..n], used[n]);
    hide SilentTries, SilentRun;
  }

  lemma LastByHandshake(script: seq<Attempt<OutFate>>, packet: Payload, used: seq<OutTry>,
                        result: Option<Result<(), PipeError>>)
    requires Tried(script, packet, used, result) && |packet| <= LARGEST_PAYLOAD
    ensures LastHeard(script, used, result)
  {
    hide SilentTries, LastHeard, OutOutcome, LastSays, StopsBefore;
    if Trying(script, packet, used) && StopsBefore(script, |used|, result) {
      StoppedBetween(script, packet, used, result);
    } else {
      var before := used[..|used| - 1];
      forall i | 0 <= i < |used| ensures used[i] == OutTry(packet, script[i].fate) {
        assert i < |before| ==> before[i] == used[i];
      }
      assert before[..|before|] == before;
      StoppedAfter(script, packet, used, result);
    }
  }

  /**
   * A whole request, by the handshakes: every attempt but the last was answered
   * by NAK or by nothing, and no 128 in a row by nothing; it succeeds on ACK,
   * stalls on STALL, and times out on 128 silent attempts in a row or when its
   * transmitter fails.
   */
  lemma RequestByHandshakes(script: seq<Attempt<OutFate>>, packet: Payload, used: seq<OutTry>,
                            result: Option<Result<(), PipeError>>)
    requires Tried(script, packet, used, result) && |packet| <= 100
    ensures forall i | 0 <= i < |used| - 1 :: used[i].fate.handshake in {HeardNak, Silence}
    ensures forall n | 0 <= n < |used| :: !SilentRun(used[..n], 128)
    ensures var n := |used| - 1;
      var heard := 0 <= n < |script| && !script[n].dropped && script[n].validAfter;
      && (Succeeds(result) <==> heard && used[n].fate.handshake == HeardAck)
      && (result == Some(Err(PipeError.Stall)) <==> heard && used[n].fate.handshake == HeardStall)
      && (result == Some(Err(BadResponse)) <==> heard && used[n].fate.handshake == HeardOther)
      && (result == Some(Err(Timeout)) <==> heard && (SilentRun(used, 128) || used[n].fate.handshake == Unsent))
  {
    LastByHandshake(script, packet, used, result);
    hide SilentTries, SilentRun, OutOutcome, LastSays;
    if Trying(script, packet, used) && StopsBefore(script, |used|, result) {
      TryingByHandshakes(script, packet, used);
    } else {
      var before := used[..|used| - 1];
      TryingByHandshakes(script, packet, before);
      forall i | 0 <= i < |used| - 1 ensures used[i].fate.handshake in {HeardNak, Silence} {
        assert before[i] == used[i];
      }
      forall n | 0 <= n < |used| ensures !SilentRun(used[..n], 128) { assert before[..n] == used[..n]; }
    }
  }

  /** A heard STALL is the last attempt, and the result unless the call is dropped or the pipe no longer valid. */
  ghost predicate StallEnds(script: seq<Attempt<OutFate>>, used: seq<OutTry>, result: Option<Result<(), PipeError>>) {
    && |used| <= |script|
    && forall i | 0 <= i < |used| && used[i].fate.handshake == HeardStall ::
         && i == |used| - 1
         && result == if script[i].dropped then None
                      else Some(Err(if script[i].validAfter then PipeError.Stall else Disconnected))
  }

  lemma StallIsLast(script: seq<Attempt<OutFate>>, packet: Payload, used: seq<OutTry>,
                    result: Option<Result<(), PipeError>>)
    requires Tried(script, packet, used, result)
    ensures |packet| <= 100 ==> StallEnds(script, used, result)
  {
    if |packet| <= 100 {
      RequestByHandshakes(script, packet, used, result);
    }
    hide SilentTries, SilentRun;
  }

  /** The retry loop between two attempts: nothing acknowledged yet, and the silent ones at the end counted. */
  ghost predicate Waiting(script: seq<Attempt<OutFate>>, packet: Payload, start: OutWorld, w: OutWorld,
                          used: seq<OutTry>, silent: nat)
  {
    && Trying(script, packet, used) && w == RunOut(start, used) && w.acked == start.acked
    && silent == SilentTries(used) < NON_RESPONSE_RETRY_LIMIT
  }

  lemma WaitingBegins(script: seq<Attempt<OutFate>>, packet: Payload, start: OutWorld)
    ensures Waiting(script, packet, start, start, [], 0)
  {}

  lemma WaitingGoesOn(script: seq<Attempt<OutFate>>, packet: Payload, start: OutWorld, w: OutWorld, used: seq<OutTry>,
                      silent: nat, t: OutTry)
    requires Waiting(script, packet, start, w, used, silent)
    requires |used| < |script| && Passed(script[|used|]) && t == OutTry(packet, script[|used|].fate)
    requires Retryable(OutOutcome(t)) && SilentNow(silent, OutOutcome(t)) < NON_RESPONSE_RETRY_LIMIT
    ensures Waiting(script, packet, start, OutStep(w, t), used + [t], SilentNow(silent, OutOutcome(t)))
  {
    RunOutAppend(start, used, t);
    SilentTriesAppend(used, t);
    StepAcks(w, t);
    hide OutOutcome, SilentTries, RunOut, OutStep;
    var more := used + [t];
    forall n | 0 <= n <= |more| ensures SilentTries(more[..n]) < NON_RESPONSE_RETRY_LIMIT {
      assert n <= |used| ==> more[..n] == used[..n];
      assert more[..|more|] == more;
    }
  }

  lemma WaitingIsOver(script: seq<Attempt<OutFate>>, packet: Payload, start: OutWorld, w: OutWorld, used: seq<OutTry>,
                      silent: nat, t: OutTry, result: Option<Result<(), PipeError>>)
    requires Waiting(script, packet, start, w, used, silent)
    requires |used| < |script| && script[|used|].validBefore && script[|used|].validLocked
    requires t == OutTry(packet, script[|used|].fate)
    requires LastSays(script[|used|], OutOutcome(t), SilentNow(silent, OutOutcome(t)), result)
    ensures OutStep(w, t) == RunOut(start, used + [t])
    ensures Tried(script, packet, used + [t], result)
  {
    RunOutAppend(start, used, t);
    SilentTriesAppend(used, t);
    hide OutOutcome, SilentTries, RunOut, OutStep, Trying, LastSays;
    assert (used + [t])[..|used|] == used;
  }

  /**
   * The packets acknowledged by a request that ended like this: one on success, else none - or one
   * lost with the call.
   */
  ghost predicate Settled(result: Option<Result<(), PipeError>>, packet: Payload, before: OutWorld, after: OutWorld) {
    if Succeeds(result) then after.acked == before.acked + [packet]
    else after.acked == before.acked
         || ((result.None? || result.value.error == Disconnected) && after.acked == before.acked + [packet])
  }

  lemma WaitingEnds(script: seq<Attempt<OutFate>>, packet: Payload, start: OutWorld, w: OutWorld, used: seq<OutTry>,
                    silent: nat, result: Option<Result<(), PipeError>>)
    requires Waiting(script, packet, start, w, used, silent) && StopsBefore(script, |used|, result)
    ensures Tried(script, packet, used, result) && w == RunOut(start, used) && Settled(result, packet, start, w)
  {
    hide Trying;
  }

  lemma NothingAcked(script: seq<Attempt<OutFate>>, packet: Payload, start: OutWorld, w: OutWorld, used: seq<OutTry>,
                     silent: nat)
    requires Waiting(script, packet, start, w, used, silent)
    ensures w.acked == start.acked
  {}

  /** Tries of one packet of which only the last may have been acknowledged. */
  ghost predicate SendingOnly(packet: Payload, used: seq<OutTry>) {
    && (forall i | 0 <= i < |used| :: used[i].packet == packet)
    && (forall i | 0 <= i < |used| - 1 :: !Acknowledged(used[i]))
  }

  /** The retry loop sends one packet only, until it is acknowledged. */
  lemma TriedSendsOnly(script: seq<Attempt<OutFate>>, packet: Payload, used: seq<OutTry>,
                       result: Option<Result<(), PipeError>>)
    requires Tried(script, packet, used, result)
    ensures SendingOnly(packet, used)
    ensures Succeeds(result) ==> used != [] && Acknowledged(used[|used| - 1])
  {
    hide OutOutcome, SilentTries;
    var n := |used| - 1;
    assert n >= 0 ==> forall i | 0 <= i < n :: used[..n][i] == used[i];
  }

  // ----- several packets ------------------------------------------------------------------

  const DONE: Option<Result<(), PipeError>> := Some(Ok(()))

  /** The packets sent so far, each retried on its own script until acknowledged. */
  ghost predicate PacketsSent(scripts: nat -> seq<Attempt<OutFate>>, packets: seq<Payload>, parts: seq<seq<OutTry>>) {
    |parts| <= |packets| && forall i | 0 <= i < |parts| :: Tried(scripts(i), packets[i], parts[i], DONE)
  }

  /** All attempts of a request: every packet sent, or the first ones and one that ended it. */
  ghost predicate RequestTried(scripts: nat -> seq<Attempt<OutFate>>, packets: seq<Payload>, parts: seq<seq<OutTry>>,
                               result: Option<Result<(), PipeError>>)
  {
    if Succeeds(result) then |parts| == |packets| && PacketsSent(scripts, packets, parts)
    else 0 < |parts| <= |packets| && PacketsSent(scripts, packets, parts[..|parts| - 1])
         && Tried(scripts(|parts| - 1), packets[|parts| - 1], parts[|parts| - 1], result)
  }

  /** A request between two packets. */
  ghost predicate Requesting(scripts: nat -> seq<Attempt<OutFate>>, packets: seq<Payload>, start: OutWorld, w: OutWorld,
                             parts: seq<seq<OutTry>>)
  {
    && PacketsSent(scripts, packets, parts)
    && w == RunOut(start, Joined(parts)) && w.acked == start.acked + packets[..|parts|]
    && NothingAbandoned(Joined(parts))
    && (parts != [] ==> Joined(parts) != [])
    && (Joined(parts) != [] ==> Acknowledged(Joined(parts)[|Joined(parts)| - 1]))
  }

  /** How a request leaves host and device. */
  ghost predicate Requested(scripts: nat -> seq<Attempt<OutFate>>, packets: seq<Payload>, start: OutWorld, w: OutWorld,
                            parts: seq<seq<OutTry>>, result: Option<Result<(), PipeError>>)
  {
    && RequestTried(scripts, packets, parts, result)
    && w == RunOut(start, Joined(parts)) && NothingAbandoned(Joined(parts))
    && start.acked <= w.acked <= start.acked + packets
    && (Succeeds(result) ==> w.acked == start.acked + packets)
  }

  lemma RequestBegins(scripts: nat -> seq<Attempt<OutFate>>, packets: seq<Payload>, start: OutWorld)
    ensures Requesting(scripts, packets, start, start, [])
  {
    assert start.acked + packets[..0] == start.acked;
  }

  lemma RequestGoesOn(scripts: nat -> seq<Attempt<OutFate>>, packets: seq<Payload>, start: OutWorld, w: OutWorld,
                      next: OutWorld, parts: seq<seq<OutTry>>, part: seq<OutTry>, result: Option<Result<(), PipeError>>)
    requires Requesting(scripts, packets, start, w, parts) && |parts| < |packets|
    requires Tried(scripts(|parts|), packets[|parts|], part, result)
    requires next == RunOut(w, part) && Settled(result, packets[|parts|], w, next)
    ensures Succeeds(result) ==> Requesting(scripts, packets, start, next, parts + [part])
    ensures !Succeeds(result) ==> Requested(scripts, packets, start, next, parts + [part], result)
  {
    var n := |parts|;
    TriedSendsOnly(scripts(n), packets[n], part, result);
    hide Tried, RunOut, Joined, NothingAbandoned, Acknowledged, SendingOnly, PacketsSent;
    RunOutConcat(start, Joined(parts), part);
    JoinedAppend(parts, part);
    Chained(Joined(parts), packets[n], part);
    OneMorePacket(start.acked, w.acked, next.acked, packets, n);
    if Succeeds(result) {
      assert result.value.value == ();
      PacketSent(scripts, packets, parts, part);
    } else {
      assert (parts + [part])[..n] == parts;
    }
  }

  lemma PacketSent(scripts: nat -> seq<Attempt<OutFate>>, packets: seq<Payload>, parts: seq<seq<OutTry>>,
                   part: seq<OutTry>)
    requires PacketsSent(scripts, packets, parts) && |parts| < |packets|
    requires Tried(scripts(|parts|), packets[|parts|], part, DONE)
    ensures PacketsSent(scripts, packets, parts + [part])
  {
    hide Tried;
  }

  lemma RequestDone(scripts: nat -> seq<Attempt<OutFate>>, packets: seq<Payload>, start: OutWorld, w: OutWorld,
                    parts: seq<seq<OutTry>>)
    requires Requesting(scripts, packets, start, w, parts) && |parts| == |packets| > 0
    ensures Requested(scripts, packets, start, w, parts, DONE)
    ensures InStep(start) && HonestRun(start, Joined(parts)) ==>
      InStep(w) && w.received == start.received + packets
  {
    hide Tried, RunOut, Joined, NothingAbandoned, Acknowledged, HonestRun, TogglesCount, InOrder;
    assert packets[..|parts|] == packets;
    if InStep(start) && HonestRun(start, Joined(parts)) {
      OutIsExact(start, Joined(parts), packets);
      ExactlyOnceOut(start, Joined(parts));
    }
  }

  /** A bulk or interrupt OUT pipe; `world` is what host and device have come to. */
  class OutPipe {
    const maxPacketSize: nat
    var dataToggle: DataToggle
    ghost var world: OutWorld

    ghost predicate Valid()
      reads this
    {
      maxPacketSize > 0 && dataToggle == world.host
    }

    constructor (maxPacketSize: nat)
      requires maxPacketSize > 0
      ensures Valid() && world == FRESH && this.maxPacketSize == maxPacketSize
    {
      this.maxPacketSize := maxPacketSize;
      dataToggle, world := Data0, FRESH;
    }

    /** One transaction; the toggle flips exactly when the packet is acknowledged. */
    method RequestOutOnce(packet: Payload, fate: OutFate) returns (outcome: Result<Outcome<()>, PipeError>)
      requires Valid()
      modifies this
      ensures Valid() && world == OutStep(old(world), OutTry(packet, fate))
      ensures outcome == OutOutcome(OutTry(packet, fate))
      ensures world.acked == old(world).acked + (if Completes(outcome) then [packet] else [])
      ensures dataToggle == if Completes(outcome) then old(dataToggle).AfterAck() else old(dataToggle)
    {
      outcome := OutOutcome(OutTry(packet, fate));
      if Completes(outcome) {
        dataToggle := dataToggle.AfterAck();
      }
      world := OutStep(world, OutTry(packet, fate));
    }

    /** One turn of the retry loop: the exchange, and whether to go on. */
    method Exchange(packet: Payload, attempt: Attempt<OutFate>, silent: nat)
      returns (retry: bool, silent': nat, result: Option<Result<(), PipeError>>)
      requires Valid() && silent < NON_RESPONSE_RETRY_LIMIT && attempt.validBefore && attempt.validLocked
      modifies this
      ensures Valid() && world == OutStep(old(world), OutTry(packet, attempt.fate))
      ensures var outcome := OutOutcome(OutTry(packet, attempt.fate));
        if retry then Passed(attempt) && Retryable(outcome)
          && silent' == SilentNow(silent, outcome) < NON_RESPONSE_RETRY_LIMIT
        else LastSays(attempt, outcome, SilentNow(silent, outcome), result)
      ensures !retry ==> Settled(result, packet, old(world), world)
    {
      hide OutOutcome, OutStep;
      var outcome := RequestOutOnce(packet, attempt.fate);
      retry, silent', result := AfterExchange(attempt, outcome, silent);
    }

    /** Retry one packet until it is acknowledged. `None` is a dropped future. */
    method SendPacket(packet: Payload, script: seq<Attempt<OutFate>>)
      returns (result: Option<Result<(), PipeError>>, ghost used: seq<OutTry>)
      requires Valid()
      modifies this
      ensures Valid() && world == RunOut(old(world), used)
      ensures Tried(script, packet, used, result)
      ensures |packet| <= 100 ==> StallEnds(script, used, result)
      ensures Settled(result, packet, old(world), world)
    {
      used := [];
      WaitingBegins(script, packet, world);
      hide OutOutcome, RunOut, SilentTries, Tried, Waiting, OutStep, Settled, LastSays, Passed, Retryable, SilentNow,
        StallEnds;
      var silent: nat, turn: nat := 0, 0;
      while turn < |script|
        invariant 0 <= turn == |used| <= |script| && Valid() && silent < NON_RESPONSE_RETRY_LIMIT
        invariant Waiting(script, packet, old(world), world, used, silent)
      {
        var attempt := script[turn];
        if !attempt.validBefore || !attempt.validLocked {
          result := Some(Err(Disconnected));
          WaitingEnds(script, packet, old(world), world, used, silent, result);
          StallIsLast(script, packet, used, result);
          return;
        }
        ghost var t := OutTry(packet, attempt.fate);
        ghost var before, silentBefore := world, silent;
        var retry;
        retry, silent, result := Exchange(packet, attempt, silent);
        if !retry {
          NothingAcked(script, packet, old(world), before, used, silentBefore);
          SettledFrom(result, packet, old(world), before, world);
          WaitingIsOver(script, packet, old(world), before, used, silentBefore, t, result);
          StallIsLast(script, packet, used + [t], result);
          return result, used + [t];
        }
        WaitingGoesOn(script, packet, old(world), before, used, silentBefore, t);
        used := used + [t];
        turn := turn + 1;
      }
      WaitingEnds(script, packet, old(world), world, used, silent, None);
      StallIsLast(script, packet, used, None);
      return None, used;
    }

    /**
     * Split the data into packets and send each until it is acknowledged. On
     * success exactly these packets were acknowledged; and on an honest wire,
     * started in step, the device has taken exactly these packets.
     */
    method RequestOut(data: Payload, ensureTransactionEnd: bool, scripts: nat -> seq<Attempt<OutFate>>)
      returns (result: Option<Result<(), PipeError>>, ghost parts: seq<seq<OutTry>>)
      requires Valid()
      modifies this
      ensures Valid()
      ensures Requested(scripts, Split(data, maxPacketSize, ensureTransactionEnd), old(world), world, parts, result)
      ensures Succeeds(result) && InStep(old(world)) && HonestRun(old(world), Joined(parts)) ==>
        && InStep(world)
        && world.received == old(world).received + Split(data, maxPacketSize, ensureTransactionEnd)
    {
      ghost var packets := Split(data, maxPacketSize, ensureTransactionEnd);
      CountIsExact(data, maxPacketSize, ensureTransactionEnd);
      RequestBegins(scripts, packets, world);
      hide Split, PacketAt, Requesting, Requested, InStep, HonestRun, Tried, Settled, RunOut, Joined;
      var count := PacketCount(|data|, maxPacketSize, ensureTransactionEnd);
      parts := [];
      var index: nat := 0;
      while index < count
        invariant 0 <= index == |parts| <= count == |packets| && Valid()
        invariant Requesting(scripts, packets, old(world), world, parts)
      {
        PacketByIndex(data, maxPacketSize, ensureTransactionEnd, index);
        var packet := PacketAt(data, index * maxPacketSize, maxPacketSize);
        ghost var before, part := world, [];
        result, part := SendPacket(packet, scripts(index));
        RequestGoesOn(scripts, packets, old(world), before, world, parts, part, result);
        parts := parts + [part];
        index := index + 1;
        if result.None? || result.value.Err? {
          return result, parts;
        }
      }
      AtLeastOnePacket(|data|, maxPacketSize, ensureTransactionEnd);
      RequestDone(scripts, packets, old(world), world, parts);
      return DONE, parts;
    }
  }

  lemma AtLeastOnePacket(length: nat, size: nat, markEnd: bool)
    requires size > 0
    ensures PacketCount(length, size, markEnd) > 0
  {
    if 0 < length <= size {
      SmallQuotient(length, size);
    } else if length > size {
      CountBySubtraction(length, size, markEnd);
    }
  }

  lemma SettledFrom(result: Option<Result<(), PipeError>>, packet: Payload, start: OutWorld, before: OutWorld,
                    after: OutWorld)
    requires before.acked == start.acked && Settled(result, packet, before, after)
    ensures Settled(result, packet, start, after)
  {}

  lemma StepAcks(w: OutWorld, t: OutTry)
    ensures OutStep(w, t).acked == if Acknowledged(t) then w.acked + [t.packet] else w.acked
    ensures OutStep(w, t).host == if Acknowledged(t) then w.host.AfterAck() else w.host
    ensures Acknowledged(t) <==> Completes(OutOutcome(t))
  {}

  lemma OneMorePacket(base: seq<Payload>, start: seq<Payload>, now: seq<Payload>, packets: seq<Payload>, index: nat)
    requires index < |packets| && start == base + packets[..index]
    requires now == start || now == start + [packets[index]]
    ensures base <= now <= base + packets
    ensures now == start + [packets[index]] ==> now == base + packets[..index + 1]
  {
    assert packets[..index + 1] == packets[..index] + [packets[index]];
  }

  lemma Chained(used: seq<OutTry>, packet: Payload, more: seq<OutTry>)
    requires NothingAbandoned(used) && SendingOnly(packet, more)
    requires used != [] ==> Acknowledged(used[|used| - 1])
    ensures NothingAbandoned(used + more)
    ensures more != [] && Acknowledged(more[|more| - 1]) ==> Acknowledged((used + more)[|used + more| - 1])
  {
    hide Acknowledged;
  }
}
