/**
 * Control transfers (section 8.5.3 of USB 2.0): SETUP, data and status stages
 * against a conforming device over a lossy wire.
 *
 * The device's data stage continues the alternating sequence that the SETUP
 * packet's DATA0 started, so a stage starts with one packet already exchanged.
 */
module ControlTransfer {
  import opened UsbTypes
  import opened Packetise
  import In = TransferIn
  import Out = TransferOut
  import Retry
  import InReceive
  import Packets

  const CONTROL_SETUP_BAD_RESPONSE_RETRY_LIMIT: nat := 3
  const CONTROL_SETUP_NO_RESPONSE_RETRY_LIMIT: nat := 16

  const IN_STAGE: In.InWorld := In.InWorld([[]], 1, Data1, [[]], Data1)
  const OUT_STAGE: Out.OutWorld := Out.OutWorld([[]], Data1, [[]], Data1)

  /** How a stage ended; `None` is a dropped future. */
  type Outcome<+T> = Option<Result<T, PipeError>>

  predicate Succeeds<T>(r: Outcome<T>) { r.Some? && r.value.Ok? }

  /** The same failure, or the same drop, for a caller that expects something else. */
  function Failure<T, U>(r: Outcome<T>): Outcome<U>
    requires !Succeeds(r)
  {
    if r.None? then None else Some(Err(r.value.error))
  }

  // ----- what is asked of the engine ------------------------------------------------------

  /**
   * One transaction: SETUP or OUT with its data packet, or IN with the expected
   * identifier and the room for a payload; `waits` is for the next frame.
   */
  datatype Transaction =
    | Sends(token: byte, data: byte, payload: Payload, waits: bool)
    | Asks(data: byte, room: nat, waits: bool)

  /** The engine's transactions so far, in order. */
  class Bus {
    var log: seq<Transaction>

    constructor ()
      ensures log == []
    {
      log := [];
    }
  }

  /** Attempts at one packet: the first one, and the others. */
  function Attempts(first: Transaction, again: Transaction, n: nat): seq<Transaction> {
    seq(n, i => if i == 0 then first else again)
  }

  lemma OneMoreAttempt(before: seq<Transaction>, first: Transaction, again: Transaction, n: nat)
    ensures before + Attempts(first, again, 0) == before
    ensures before + Attempts(first, again, n) + [if n == 0 then first else again]
         == before + Attempts(first, again, n + 1)
  {}

  // ----- SETUP stage --------------------------------------------------------------------

  /** One SETUP attempt: whether the device got it, what the host heard, and whether time was up. */
  datatype SetupTry = SetupTry(arrives: bool, handshake: Out.Handshake, expired: bool)

  /** A heard acknowledgement was sent, and a device acknowledges only the SETUP that it got. */
  ghost predicate HonestSetups(tries: seq<SetupTry>) {
    forall t | t in tries :: t.handshake.HeardAck? ==> t.arrives
  }

  /** A SETUP that arrives starts the transfer afresh, whatever the device was doing. */
  function AfterSetups<World>(before: World, begun: World, tries: seq<SetupTry>): World {
    if exists t | t in tries :: t.arrives then begun else before
  }

  datatype Tally = Tally(bad: nat, silent: nat)

  /** Bad handshakes in all, and silent attempts since the last NAK. */
  function Count(tries: seq<SetupTry>): Tally {
    if tries == [] then Tally(0, 0)
    else
      var before := Count(tries[..|tries| - 1]);
      match tries[|tries| - 1].handshake
      case HeardNak => before.(silent := 0)
      case Silence => before.(silent := before.silent + 1)
      case HeardOther => before.(bad := before.bad + 1)
      case _ => before
  }

  /** The last of these attempts ends the stage with this result. */
  ghost predicate SetupEnds(tries: seq<SetupTry>, result: Result<(), PipeError>) {
    tries != [] &&
    var last := tries[|tries| - 1];
    match last.handshake
    case HeardAck => result.Ok?
    case HeardNak => last.expired && result == Err(Timeout)
    case Silence =>
      result == Err(Timeout) && (last.expired || Count(tries).silent >= CONTROL_SETUP_NO_RESPONSE_RETRY_LIMIT)
    case HeardOther =>
      result == Err(BadResponse) && (last.expired || Count(tries).bad >= CONTROL_SETUP_BAD_RESPONSE_RETRY_LIMIT)
    case HeardStall => result == Err(Stall)
    case Unsent => result == Err(Timeout)
  }

  /** After these attempts the stage goes on. */
  ghost predicate SetupGoesOn(tries: seq<SetupTry>) {
    && (tries != [] ==>
          tries[|tries| - 1].handshake in {Out.HeardNak, Out.Silence, Out.HeardOther} && !tries[|tries| - 1].expired)
    && Count(tries).silent < CONTROL_SETUP_NO_RESPONSE_RETRY_LIMIT
    && Count(tries).bad < CONTROL_SETUP_BAD_RESPONSE_RETRY_LIMIT
  }

  /** The SETUP stage on a script: n attempts, all but the last of which let it go on. */
  ghost predicate SetupStage(script: seq<SetupTry>, n: nat, result: Outcome<()>) {
    && n <= |script|
    && (forall k | 0 <= k < n :: SetupGoesOn(script[..k]))
    && if result.None? then n == |script| && SetupGoesOn(script) else SetupEnds(script[..n], result.value)
  }

  lemma OneMoreSetup(tries: seq<SetupTry>, t: SetupTry)
    ensures Count(tries + [t]) ==
      match t.handshake
      case HeardNak => Count(tries).(silent := 0)
      case Silence => Count(tries).(silent := Count(tries).silent + 1)
      case HeardOther => Count(tries).(bad := Count(tries).bad + 1)
      case _ => Count(tries)
  {
    assert (tries + [t])[..|tries|] == tries;
  }

  function SetupOf(setup: seq<byte>): Transaction { Sends(PID_SETUP, PID_DATA0, setup, true) }

  /**
   * Retry SETUP: at most three bad handshakes, at most sixteen unanswered
   * attempts since the last NAK, and not past the deadline.
   */
  method ControlSetupStage(bus: Bus, setup: seq<byte>, script: seq<SetupTry>)
    returns (result: Outcome<()>, attempts: nat)
    modifies bus
    ensures SetupStage(script, attempts, result)
    ensures bus.log == old(bus.log) + Attempts(SetupOf(setup), SetupOf(setup), attempts)
  {
    var bad, silent := 0, 0;
    attempts := 0;
    OneMoreAttempt(old(bus.log), SetupOf(setup), SetupOf(setup), 0);
    while attempts < |script|
      invariant 0 <= attempts <= |script|
      invariant Count(script[..attempts]) == Tally(bad, silent)
      invariant forall k | 0 <= k <= attempts :: SetupGoesOn(script[..k])
      invariant bus.log == old(bus.log) + Attempts(SetupOf(setup), SetupOf(setup), attempts)
    {
      hide Count, Attempts;
      OneMoreAttempt(old(bus.log), SetupOf(setup), SetupOf(setup), attempts);
      bus.log := bus.log + [Sends(PID_SETUP, PID_DATA0, setup, true)];
      var t := script[attempts];
      OneMoreSetup(script[..attempts], t);
      assert script[..attempts] + [t] == script[..attempts + 1];
      attempts := attempts + 1;
      match t.handshake {
        case HeardAck => return Some(Ok(())), attempts;
        case HeardNak =>
          silent := 0;
          if t.expired { return Some(Err(Timeout)), attempts; }
        case Silence =>
          silent := silent + 1;
          if silent >= CONTROL_SETUP_NO_RESPONSE_RETRY_LIMIT || t.expired { return Some(Err(Timeout)), attempts; }
        case HeardOther =>
          bad := bad + 1;
          if bad >= CONTROL_SETUP_BAD_RESPONSE_RETRY_LIMIT || t.expired { return Some(Err(BadResponse)), attempts; }
        case HeardStall => return Some(Err(Stall)), attempts;
        case Unsent => return Some(Err(Timeout)), attempts;
      }
    }
    assert script[..attempts] == script;
    return None, attempts;
  }

  /** The attempts that were answered by something else than a handshake. */
  ghost function BadTries(tries: seq<SetupTry>): set<int> {
    set i | 0 <= i < |tries| && tries[i].handshake == Out.HeardOther
  }

  /** The attempts that were not answered, with no NAK after them. */
  ghost function SilentTries(tries: seq<SetupTry>): set<int> {
    set i | 0 <= i < |tries| && tries[i].handshake == Out.Silence
            && forall j | i < j < |tries| :: tries[j].handshake != Out.HeardNak
  }

  lemma OneMoreTally(tries: seq<SetupTry>, t: SetupTry)
    ensures |BadTries(tries + [t])| == |BadTries(tries)| + (if t.handshake == Out.HeardOther then 1 else 0)
    ensures |SilentTries(tries + [t])| ==
      if t.handshake == Out.HeardNak then 0
      else |SilentTries(tries)| + (if t.handshake == Out.Silence then 1 else 0)
  {
    OneMoreBad(tries, t);
    OneMoreSilent(tries, t);
    hide BadTries, SilentTries;
  }

  lemma OneMoreBad(tries: seq<SetupTry>, t: SetupTry)
    ensures BadTries(tries + [t]) == BadTries(tries) + (if t.handshake == Out.HeardOther then {|tries|} else {})
    ensures |tries| !in BadTries(tries)
  {
    forall i
      ensures i in BadTries(tries + [t]) <==> i in BadTries(tries) || (i == |tries| && t.handshake == Out.HeardOther)
    {}
  }

  lemma OneMoreSilent(tries: seq<SetupTry>, t: SetupTry)
    ensures SilentTries(tries + [t]) ==
      if t.handshake == Out.HeardNak then {}
      else SilentTries(tries) + (if t.handshake == Out.Silence then {|tries|} else {})
    ensures |tries| !in SilentTries(tries)
  {
    var more, n := tries + [t], |tries|;
    forall i
      ensures i in SilentTries(more) <==>
        t.handshake != Out.HeardNak && (i in SilentTries(tries) || (i == n && t.handshake == Out.Silence))
    {
      assert more[n] == t;
      if 0 <= i < n {
        assert more[i] == tries[i];
        assert forall j | i < j < n :: more[j] == tries[j];
      }
    }
  }

  lemma {:induction false} CountMeans(tries: seq<SetupTry>)
    ensures Count(tries) == Tally(|BadTries(tries)|, |SilentTries(tries)|)
  {
    if tries == [] {
      assert BadTries(tries) == {} && SilentTries(tries) == {};
    } else {
      var before, t := tries[..|tries| - 1], tries[|tries| - 1];
      assert before + [t] == tries;
      CountMeans(before);
      OneMoreTally(before, t);
      hide BadTries, SilentTries;
    }
  }

  /** A SETUP stage that has gone on after these attempts, by the last of them. */
  ghost predicate StillTrying(tries: seq<SetupTry>) {
    && |BadTries(tries)| < 3 && |SilentTries(tries)| < 16
    && (tries != [] ==>
          tries[|tries| - 1].handshake in {Out.HeardNak, Out.Silence, Out.HeardOther} && !tries[|tries| - 1].expired)
  }

  /**
   * How a SETUP stage ends: ACK and STALL are the result; a bad answer is,
   * once it is the third or time is up; a NAK is a timeout when time is up, and
   * silence also when it is the sixteenth since the last NAK.
   */
  ghost predicate LastTry(tries: seq<SetupTry>, result: Result<(), PipeError>) {
    tries != []
    && var last := tries[|tries| - 1];
    && (result.Ok? <==> last.handshake == Out.HeardAck)
    && (result == Err(Stall) <==> last.handshake == Out.HeardStall)
    && (result == Err(BadResponse) <==> last.handshake == Out.HeardOther)
    && (last.handshake == Out.HeardOther ==> last.expired || |BadTries(tries)| == 3)
    && (result == Err(Timeout) <==> last.handshake in {Out.Unsent, Out.HeardNak, Out.Silence})
    && (last.handshake == Out.HeardNak ==> last.expired)
    && (last.handshake == Out.Silence ==> last.expired || |SilentTries(tries)| == 16)
  }

  /** A SETUP stage, by its attempts: it goes on until one of them ends it. */
  lemma SetupByHandshakes(script: seq<SetupTry>, n: nat, result: Outcome<()>)
    requires SetupStage(script, n, result)
    ensures n <= |script| && (result.None? ==> n == |script|)
    ensures forall k | 0 <= k < n || (k == n && result.None?) :: StillTrying(script[..k])
    ensures result.Some? ==> LastTry(script[..n], result.value)
  {
    forall k | 0 <= k <= |script| && SetupGoesOn(script[..k]) ensures StillTrying(script[..k]) {
      CountMeans(script[..k]);
    }
    assert script[..|script|] == script;
    if result.Some? {
      assert SetupEnds(script[..n], result.value);
      assert script[..n - 1] + [script[n - 1]] == script[..n];
      EndsByLast(script[..n - 1], script[n - 1], result.value);
    }
    hide SetupGoesOn, SetupEnds, StillTrying, LastTry;
  }

  lemma EndsByLast(before: seq<SetupTry>, last: SetupTry, result: Result<(), PipeError>)
    requires SetupGoesOn(before) && SetupEnds(before + [last], result)
    ensures LastTry(before + [last], result)
  {
    CountMeans(before);
    CountMeans(before + [last]);
    OneMoreSetup(before, last);
    hide BadTries, SilentTries, Count;
  }

  lemma SetupAccepted<World>(before: World, begun: World, script: seq<SetupTry>, n: nat, result: Outcome<()>)
    requires SetupStage(script, n, result) && Succeeds(result) && HonestSetups(script[..n])
    ensures AfterSetups(before, begun, script[..n]) == begun
  {
    var last := script[..n][n - 1];
    assert last in script[..n] && last.arrives;
  }

  // ----- polling for data -----------------------------------------------------------------

  datatype DataTry = DataTry(fate: In.InFate, expired: bool)

  /** What one poll tells the engine. */
  function Told(toggle: DataToggle, room: nat, maxPacketSize: nat, t: DataTry): Result<Retry.Outcome<nat>, PipeError> {
    In.InOutcome(toggle, maxPacketSize, In.InTry(room, t.fate))
  }

  /** The last poll ends the polling with this result. */
  ghost predicate PollEnds(toggle: DataToggle, room: nat, maxPacketSize: nat, t: DataTry,
                           result: Result<Payload, PipeError>)
  {
    var told := Told(toggle, room, maxPacketSize, t);
    if told.Err? then result == Err(told.error)
    else if told.value.Complete? then t.fate.arrival.Complete? && result == Ok(In.PayloadOf(t.fate.arrival.bytes))
    else t.expired && result == Err(Timeout)
  }

  /** Polling on a script: n polls, all but the last of which were to be repeated. */
  ghost predicate Polled(script: seq<DataTry>, toggle: DataToggle, room: nat, maxPacketSize: nat, n: nat,
                         result: Outcome<Payload>)
  {
    && n <= |script|
    && (forall i | 0 <= i < (if result.None? then n else n - 1) ::
          Retry.Retryable(Told(toggle, room, maxPacketSize, script[i])) && !script[i].expired)
    && if result.None? then n == |script|
       else n > 0 && PollEnds(toggle, room, maxPacketSize, script[n - 1], result.value)
  }

  lemma CompleteHasBytes(toggle: DataToggle, room: nat, maxPacketSize: nat, t: DataTry)
    ensures Retry.Completes(Told(toggle, room, maxPacketSize, t)) ==> t.fate.arrival.Complete?
  {
    hide InReceive.Judgement;
  }

  function PollOf(toggle: DataToggle, room: nat, waits: bool): Transaction { Asks(toggle.Pid(), room, waits) }

  function PollsOf(toggle: DataToggle, room: nat, waits: bool, n: nat): seq<Transaction> {
    Attempts(PollOf(toggle, room, waits), PollOf(toggle, room, true), n)
  }

  /** A heard STALL is the last poll, and the result. */
  ghost predicate StalledPoll(script: seq<DataTry>, polls: nat, result: Outcome<Payload>) {
    && polls <= |script|
    && forall i | 0 <= i < polls && script[i].fate.arrival == In.Arrival.Complete([0x80, 0x1e]) ::
         i == polls - 1 && result == Some(Err(Stall))
  }

  /**
   * A polling, by what arrived: it is repeated over silence, NAK and
   * duplicates while time is left, succeeds on the expected packet and with its
   * payload, and stalls on STALL.
   */
  lemma PollingByArrivals(script: seq<DataTry>, toggle: DataToggle, room: nat, maxPacketSize: nat, n: nat,
                          result: Outcome<Payload>)
    requires Polled(script, toggle, room, maxPacketSize, n, result) && maxPacketSize <= 100
    ensures n <= |script|
    ensures forall i | 0 <= i < n - 1 ::
      In.AsksAgain(toggle, maxPacketSize, script[i].fate) && !script[i].expired
    ensures result.None? <==>
      n == |script| && (n > 0 ==> In.AsksAgain(toggle, maxPacketSize, script[n - 1].fate) && !script[n - 1].expired)
    ensures result == Some(Err(Stall)) <==> n > 0 && script[n - 1].fate.arrival == In.Arrival.Complete([0x80, 0x1e])
    ensures result == Some(Err(Timeout)) <==>
      n > 0 && var t := script[n - 1];
      In.NotConfirmed(toggle, room, maxPacketSize, t.fate)
      || (In.AsksAgain(toggle, maxPacketSize, t.fate) && t.expired)
    ensures Succeeds(result) <==>
      n > 0 && var fate := script[n - 1].fate;
      fate.confirmed
      && In.IsDataPacket(fate.arrival, if toggle == Data0 then 0xc3 else 0x4b, Min(room, maxPacketSize))
    ensures Succeeds(result) ==>
      script[n - 1].fate.arrival
      == In.Arrival.Complete(Packets.DataBytes(if toggle == Data0 then 0xc3 else 0x4b, result.value.value))
  {
    if n > 0 {
      PollTells(toggle, room, maxPacketSize, script[n - 1]);
    }
    forall i | 0 <= i < n - 1 ensures In.AsksAgain(toggle, maxPacketSize, script[i].fate) {
      PollTells(toggle, room, maxPacketSize, script[i]);
    }
    hide Told, In.AsksAgain, In.NotConfirmed, In.IsDataPacket, Packets.DataBytes;
  }

  /** One poll, by what arrived. */
  lemma PollTells(toggle: DataToggle, room: nat, maxPacketSize: nat, t: DataTry)
    requires maxPacketSize <= LARGEST_PAYLOAD
    ensures var told, pid := Told(toggle, room, maxPacketSize, t), if toggle == Data0 then 0xc3 else 0x4b;
      && (Retry.Retryable(told) <==> In.AsksAgain(toggle, maxPacketSize, t.fate))
      && (told == Err(Stall) <==> t.fate.arrival == In.Arrival.Complete([0x80, 0x1e]))
      && (told == Err(Timeout) <==> In.NotConfirmed(toggle, room, maxPacketSize, t.fate))
      && (Retry.Completes(told) <==>
            t.fate.confirmed && In.IsDataPacket(t.fate.arrival, pid, Min(room, maxPacketSize)))
      && (Retry.Completes(told) ==>
            t.fate.arrival.Complete?
            && t.fate.arrival.bytes == Packets.DataBytes(pid, In.PayloadOf(t.fate.arrival.bytes)))
  {
    In.ArrivalDecides(toggle, maxPacketSize, In.InTry(room, t.fate));
    In.ArrivalTells(toggle, maxPacketSize, In.InTry(room, t.fate));
    hide In.InOutcome, Packets.DataBytes, In.AsksAgain, In.NotConfirmed;
    var pid: byte := if toggle == Data0 then 0xc3 else 0x4b;
    if payload: Payload :| t.fate.arrival == In.Arrival.Complete(Packets.DataBytes(pid, payload)) {
      In.PayloadInside(pid, payload);
    }
  }

  lemma StallIsLastPoll(script: seq<DataTry>, toggle: DataToggle, room: nat, maxPacketSize: nat, n: nat,
                        result: Outcome<Payload>)
    requires Polled(script, toggle, room, maxPacketSize, n, result)
    ensures maxPacketSize <= 100 ==> StalledPoll(script, n, result)
  {
    if maxPacketSize <= 100 {
      forall i | 0 <= i < n && script[i].fate.arrival == In.Arrival.Complete([0x80, 0x1e])
        ensures Told(toggle, room, maxPacketSize, script[i]) == Err(Stall)
      {
        PollTells(toggle, room, maxPacketSize, script[i]);
      }
      hide Told;
    }
  }

  /** Poll until a packet arrives, the device stalls, or time is up; NAKs, duplicates and silence are polled over. */
  method PollData(bus: Bus, toggle: DataToggle, room: nat, maxPacketSize: nat, waits: bool, script: seq<DataTry>)
    returns (result: Outcome<Payload>, polls: nat)
    modifies bus
    ensures Polled(script, toggle, room, maxPacketSize, polls, result)
    ensures maxPacketSize <= 100 ==> StalledPoll(script, polls, result)
    ensures bus.log == old(bus.log) + PollsOf(toggle, room, waits, polls)
  {
    polls := 0;
    OneMoreAttempt(old(bus.log), PollOf(toggle, room, waits), PollOf(toggle, room, true), 0);
    while polls < |script|
      invariant 0 <= polls <= |script|
      invariant forall i | 0 <= i < polls ::
        Retry.Retryable(Told(toggle, room, maxPacketSize, script[i])) && !script[i].expired
      invariant bus.log == old(bus.log) + PollsOf(toggle, room, waits, polls)
    {
      CompleteHasBytes(toggle, room, maxPacketSize, script[polls]);
      hide Told, Attempts, StalledPoll;
      OneMoreAttempt(old(bus.log), PollOf(toggle, room, waits), PollOf(toggle, room, true), polls);
      bus.log := bus.log + [Asks(toggle.Pid(), room, waits || polls > 0)];
      var t := script[polls];
      var told := Told(toggle, room, maxPacketSize, t);
      polls := polls + 1;
      if told.Err? {
        result := Some(Err(told.error));
        StallIsLastPoll(script, toggle, room, maxPacketSize, polls, result);
        return;
      }
      if told.value.Complete? {
        result := Some(Ok(In.PayloadOf(t.fate.arrival.bytes)));
        StallIsLastPoll(script, toggle, room, maxPacketSize, polls, result);
        return;
      }
      if t.expired {
        result := Some(Err(Timeout));
        StallIsLastPoll(script, toggle, room, maxPacketSize, polls, result);
        return;
      }
    }
    StallIsLastPoll(script, toggle, room, maxPacketSize, polls, None);
    return None, polls;
  }

  /** The attempts on the wire that polls are. */
  function TriesOf(polls: seq<DataTry>, room: nat): seq<In.InTry> {
    if polls == [] then []
    else TriesOf(polls[..|polls| - 1], room) + [In.InTry(room, polls[|polls| - 1].fate)]
  }

  lemma OneMorePoll(script: seq<DataTry>, room: nat, n: nat)
    requires n < |script|
    ensures TriesOf(script[..n + 1], room) == TriesOf(script[..n], room) + [In.InTry(room, script[n].fate)]
  {
    assert script[..n + 1][..n] == script[..n];
  }

  /** Everything received so far was kept: no packet was dropped after its ACK. */
  ghost predicate Receiving(maxPacketSize: nat, tries: seq<In.InTry>, toggle: DataToggle) {
    && In.NothingLost(IN_STAGE, maxPacketSize, tries)
    && In.RunIn(IN_STAGE, maxPacketSize, tries).host == toggle
  }

  lemma OneMoreTry(maxPacketSize: nat, tries: seq<In.InTry>, t: In.InTry, toggle: DataToggle)
    requires Receiving(maxPacketSize, tries, toggle)
    requires In.InOutcome(toggle, maxPacketSize, t).Ok?
    ensures In.NothingLost(IN_STAGE, maxPacketSize, tries + [t])
    ensures In.RunIn(IN_STAGE, maxPacketSize, tries + [t])
      == In.InStep(In.RunIn(IN_STAGE, maxPacketSize, tries), maxPacketSize, t)
  {
    hide In.Heard, In.RunIn, In.InStep;
    In.RunInAppend(IN_STAGE, maxPacketSize, tries, t);
    assert !In.Loses(In.RunIn(IN_STAGE, maxPacketSize, tries), maxPacketSize, t);
    hide In.Loses;
    var all := tries + [t];
    forall i | 0 <= i < |all| ensures !In.Loses(In.RunIn(IN_STAGE, maxPacketSize, all[..i]), maxPacketSize, all[i]) {
      assert all[..i] == tries[..i];
      assert tries[..|tries|] == tries;
    }
  }

  /** Polls that are to be repeated change nothing that the host sees. */
  lemma {:induction false} PollsKeep(script: seq<DataTry>, toggle: DataToggle, maxPacketSize: nat, n: nat,
                                     past: seq<In.InTry>)
    requires n <= |script| && Receiving(maxPacketSize, past, toggle)
    requires forall i | 0 <= i < n :: Retry.Retryable(Told(toggle, maxPacketSize, maxPacketSize, script[i]))
    ensures var all := past + TriesOf(script[..n], maxPacketSize);
      && Receiving(maxPacketSize, all, toggle)
      && In.RunIn(IN_STAGE, maxPacketSize, all).accepted == In.RunIn(IN_STAGE, maxPacketSize, past).accepted
  {
    hide In.RunIn, In.NothingLost, In.InStep, In.InOutcome;
    if n == 0 {
      assert past + TriesOf(script[..0], maxPacketSize) == past;
    } else {
      PollsKeep(script, toggle, maxPacketSize, n - 1, past);
      var before, t := past + TriesOf(script[..n - 1], maxPacketSize), In.InTry(maxPacketSize, script[n - 1].fate);
      OneMorePoll(script, maxPacketSize, n - 1);
      assert past + TriesOf(script[..n], maxPacketSize) == before + [t];
      OneMoreTry(maxPacketSize, before, t, toggle);
      In.OutcomeOfStep(In.RunIn(IN_STAGE, maxPacketSize, before), maxPacketSize, t);
    }
  }

  /** A successful polling accepts exactly the packet that it returns, and the toggle flips. */
  lemma PolledPacket(script: seq<DataTry>, toggle: DataToggle, maxPacketSize: nat, n: nat, past: seq<In.InTry>,
                     p: Payload)
    requires Receiving(maxPacketSize, past, toggle)
    requires Polled(script, toggle, maxPacketSize, maxPacketSize, n, Some(Ok(p)))
    ensures var all := past + TriesOf(script[..n], maxPacketSize);
      && Receiving(maxPacketSize, all, toggle.AfterAck())
      && |p| <= maxPacketSize
      && In.RunIn(IN_STAGE, maxPacketSize, all).accepted == In.RunIn(IN_STAGE, maxPacketSize, past).accepted + [p]
  {
    PollsKeep(script, toggle, maxPacketSize, n - 1, past);
    hide In.RunIn, In.NothingLost, In.InStep, In.InOutcome;
    var before, t := past + TriesOf(script[..n - 1], maxPacketSize), In.InTry(maxPacketSize, script[n - 1].fate);
    OneMorePoll(script, maxPacketSize, n - 1);
    assert past + TriesOf(script[..n], maxPacketSize) == before + [t];
    OneMoreTry(maxPacketSize, before, t, toggle);
    In.OutcomeOfStep(In.RunIn(IN_STAGE, maxPacketSize, before), maxPacketSize, t);
  }

  // ----- sending data ----------------------------------------------------------------------

  datatype WriteTry = WriteTry(fate: Out.OutFate, expired: bool)

  function Answer(packet: Payload, t: WriteTry): Result<Retry.Outcome<()>, PipeError> {
    Out.OutOutcome(Out.OutTry(packet, t.fate))
  }

  ghost predicate SendEnds(packet: Payload, t: WriteTry, result: Result<(), PipeError>) {
    var answer := Answer(packet, t);
    if answer.Err? then result == Err(answer.error)
    else if answer.value.Complete? then result.Ok?
    else t.expired && result == Err(Timeout)
  }

  /** Sending on a script: n attempts, all but the last of which were to be repeated. */
  ghost predicate Sent(script: seq<WriteTry>, packet: Payload, n: nat, result: Outcome<()>) {
    && n <= |script|
    && (forall i | 0 <= i < (if result.None? then n else n - 1) ::
          Retry.Retryable(Answer(packet, script[i])) && !script[i].expired)
    && if result.None? then n == |script| else n > 0 && SendEnds(packet, script[n - 1], result.value)
  }

  function SendOf(toggle: DataToggle, packet: Payload, waits: bool): Transaction {
    Sends(PID_OUT, toggle.Pid(), packet, waits)
  }

  function SendsAll(toggle: DataToggle, packet: Payload, waits: bool, n: nat): seq<Transaction> {
    Attempts(SendOf(toggle, packet, waits), SendOf(toggle, packet, true), n)
  }

  /**
   * A sending, by the handshakes: it is repeated over silence and NAK while
   * time is left, succeeds on ACK, and stalls on STALL.
   */
  lemma SendingByHandshakes(script: seq<WriteTry>, packet: Payload, n: nat, result: Outcome<()>)
    requires Sent(script, packet, n, result) && |packet| <= 100
    ensures n <= |script|
    ensures forall i | 0 <= i < n - 1 :: script[i].fate.handshake in {Out.HeardNak, Out.Silence} && !script[i].expired
    ensures result.None? <==>
      n == |script|
      && (n > 0 ==> script[n - 1].fate.handshake in {Out.HeardNak, Out.Silence} && !script[n - 1].expired)
    ensures Succeeds(result) <==> n > 0 && script[n - 1].fate.handshake == Out.HeardAck
    ensures result == Some(Err(Stall)) <==> n > 0 && script[n - 1].fate.handshake == Out.HeardStall
    ensures result == Some(Err(BadResponse)) <==> n > 0 && script[n - 1].fate.handshake == Out.HeardOther
    ensures result == Some(Err(Timeout)) <==>
      n > 0 && var t := script[n - 1];
      t.fate.handshake == Out.Unsent || (t.fate.handshake in {Out.HeardNak, Out.Silence} && t.expired)
  {
  }

  /** Send one packet until it is acknowledged, the device stalls, or time is up. */
  method SendData(bus: Bus, toggle: DataToggle, packet: Payload, waits: bool, script: seq<WriteTry>)
    returns (result: Outcome<()>, attempts: nat)
    modifies bus
    ensures Sent(script, packet, attempts, result)
    ensures bus.log == old(bus.log) + SendsAll(toggle, packet, waits, attempts)
  {
    hide Answer;
    attempts := 0;
    OneMoreAttempt(old(bus.log), SendOf(toggle, packet, waits), SendOf(toggle, packet, true), 0);
    while attempts < |script|
      invariant 0 <= attempts <= |script|
      invariant forall i | 0 <= i < attempts :: Retry.Retryable(Answer(packet, script[i])) && !script[i].expired
      invariant bus.log == old(bus.log) + SendsAll(toggle, packet, waits, attempts)
    {
      hide Attempts;
      OneMoreAttempt(old(bus.log), SendOf(toggle, packet, waits), SendOf(toggle, packet, true), attempts);
      bus.log := bus.log + [Sends(PID_OUT, toggle.Pid(), packet, waits || attempts > 0)];
      var t := script[attempts];
      var answer := Answer(packet, t);
      attempts := attempts + 1;
      if answer.Err? {
        return Some(Err(answer.error)), attempts;
      }
      if answer.value.Complete? {
        return Some(Ok(())), attempts;
      }
      if t.expired {
        return Some(Err(Timeout)), attempts;
      }
    }
    return None, attempts;
  }

  function SendsOf(sends: seq<WriteTry>, packet: Payload): seq<Out.OutTry> {
    if sends == [] then []
    else SendsOf(sends[..|sends| - 1], packet) + [Out.OutTry(packet, sends[|sends| - 1].fate)]
  }

  lemma OneMoreSend(script: seq<WriteTry>, packet: Payload, n: nat)
    requires n < |script|
    ensures SendsOf(script[..n + 1], packet) == SendsOf(script[..n], packet) + [Out.OutTry(packet, script[n].fate)]
  {
    assert script[..n + 1][..n] == script[..n];
  }

  // ----- control read -------------------------------------------------------------------

  datatype ReadScript = ReadScript(setups: seq<SetupTry>, packets: nat -> seq<DataTry>, status: seq<WriteTry>)

  /** All attempts of a data stage, with so many polls for each packet. */
  function AllTries(packets: nat -> seq<DataTry>, counts: seq<nat>, maxPacketSize: nat): seq<In.InTry> {
    if counts == [] then []
    else
      var i := |counts| - 1;
      AllTries(packets, counts[..i], maxPacketSize) + TriesOf(packets(i)[..Min(counts[i], |packets(i)|)], maxPacketSize)
  }

  /** Every packet was polled for on its own script, with alternating toggles from DATA1 on. */
  ghost predicate PolledAll(packets: nat -> seq<DataTry>, maxPacketSize: nat, counts: seq<nat>, taken: seq<Payload>) {
    && |counts| == |taken|
    && (forall i | 0 <= i < |taken| ::
          Polled(packets(i), ToggleAfter(i + 1), maxPacketSize, maxPacketSize, counts[i], Some(Ok(taken[i]))))
  }

  /** Full packets, with room left before each of them. */
  ghost predicate AllFull(taken: seq<Payload>, maxPacketSize: nat, requested: nat) {
    && (forall i | 0 <= i < |taken| :: |taken[i]| == maxPacketSize)
    && (forall i | 0 <= i < |taken| :: |Concat(taken[..i])| < requested)
    && |Concat(taken)| <= requested
  }

  /** Packets of a data stage received so far. */
  ghost predicate Reading(packets: nat -> seq<DataTry>, maxPacketSize: nat, requested: nat, counts: seq<nat>,
                          taken: seq<Payload>)
  {
    && PolledAll(packets, maxPacketSize, counts, taken)
    && AllFull(taken, maxPacketSize, requested)
    && Received(packets, maxPacketSize, counts, taken)
  }

  /** The accepted packets beyond the SETUP are these, and none was lost. */
  ghost predicate Received(packets: nat -> seq<DataTry>, maxPacketSize: nat, counts: seq<nat>, taken: seq<Payload>) {
    var tries := AllTries(packets, counts, maxPacketSize);
    && Receiving(maxPacketSize, tries, ToggleAfter(|taken| + 1))
    && In.RunIn(IN_STAGE, maxPacketSize, tries).accepted == [[]] + taken
  }

  /**
   * How a data stage ends: at a short packet or at wLength on success; a
   * polling that fails, or a packet beyond wLength, fails it.
   */
  ghost predicate DataStage(packets: nat -> seq<DataTry>, maxPacketSize: nat, requested: nat, counts: seq<nat>,
                            taken: seq<Payload>, result: Outcome<()>)
  {
    if Succeeds(result) then
      && PolledAll(packets, maxPacketSize, counts, taken) && Received(packets, maxPacketSize, counts, taken)
      && (if requested == 0 then taken == [] else OneTransfer(taken, maxPacketSize, requested))
    else
      && counts != [] && var k := |counts| - 1;
      && Reading(packets, maxPacketSize, requested, counts[..k], taken) && |Concat(taken)| < requested
      && exists last ::
          && Polled(packets(k), ToggleAfter(k + 1), maxPacketSize, maxPacketSize, counts[k], last)
          && if Succeeds(last) then result == Some(Err(BadResponse)) && |Concat(taken)| + |last.value.value| > requested
             else result == Failure(last)
  }

  lemma ReadingBegins(packets: nat -> seq<DataTry>, maxPacketSize: nat, requested: nat)
    ensures Reading(packets, maxPacketSize, requested, [], [])
  {
    var none: seq<Payload> := [];
    assert [[]] + none == [[]];
    In.NoPackets();
  }

  lemma OneMoreCount(packets: nat -> seq<DataTry>, counts: seq<nat>, n: nat, maxPacketSize: nat)
    requires n <= |packets(|counts|)|
    ensures AllTries(packets, counts + [n], maxPacketSize)
      == AllTries(packets, counts, maxPacketSize) + TriesOf(packets(|counts|)[..n], maxPacketSize)
  {
    assert (counts + [n])[..|counts|] == counts;
  }

  lemma OneMoreReceived(packets: nat -> seq<DataTry>, maxPacketSize: nat, counts: seq<nat>, taken: seq<Payload>,
                        n: nat, p: Payload)
    requires Received(packets, maxPacketSize, counts, taken) && |counts| == |taken|
    requires Polled(packets(|taken|), ToggleAfter(|taken| + 1), maxPacketSize, maxPacketSize, n, Some(Ok(p)))
    ensures Received(packets, maxPacketSize, counts + [n], taken + [p]) && |p| <= maxPacketSize
  {
    hide Polled, Receiving, TriesOf, AllTries, ToggleAfter, In.RunIn;
    var tries := AllTries(packets, counts, maxPacketSize);
    PolledWithin(packets(|taken|), ToggleAfter(|taken| + 1), maxPacketSize, n, Some(Ok(p)));
    OneMoreCount(packets, counts, n, maxPacketSize);
    PolledPacket(packets(|taken|), ToggleAfter(|taken| + 1), maxPacketSize, n, tries, p);
    ToggleFlips(|taken| + 1);
    OneMoreItem([[]], taken, p);
    assert |taken + [p]| + 1 == |taken| + 2;
  }

  lemma OneMoreItem<T>(base: seq<T>, items: seq<T>, item: T)
    ensures base + items + [item] == base + (items + [item])
  {}

  lemma PolledWithin(script: seq<DataTry>, toggle: DataToggle, maxPacketSize: nat, n: nat, result: Outcome<Payload>)
    requires Polled(script, toggle, maxPacketSize, maxPacketSize, n, result)
    ensures n <= |script|
  {}

  /** One more packet of a read: the stage goes on after a full one with more to come, and is over otherwise. */
  lemma ReadingGoesOn(packets: nat -> seq<DataTry>, maxPacketSize: nat, requested: nat, counts: seq<nat>,
                      taken: seq<Payload>, n: nat, p: Payload)
    requires Reading(packets, maxPacketSize, requested, counts, taken) && |Concat(taken)| < requested
    requires Polled(packets(|taken|), ToggleAfter(|taken| + 1), maxPacketSize, maxPacketSize, n, Some(Ok(p)))
    requires |Concat(taken)| + |p| <= requested
    ensures |Concat(taken + [p])| == |Concat(taken)| + |p| && |p| <= maxPacketSize
    ensures |p| == maxPacketSize ==> Reading(packets, maxPacketSize, requested, counts + [n], taken + [p])
    ensures |p| < maxPacketSize || |Concat(taken)| + |p| == requested ==>
      DataStage(packets, maxPacketSize, requested, counts + [n], taken + [p], Some(Ok(())))
  {
    OneMorePolled(packets, maxPacketSize, counts, taken, n, p);
    hide PolledAll, Received, Polled, Concat, ToggleAfter;
    OneMoreReceived(packets, maxPacketSize, counts, taken, n, p);
    In.OnePacketMore(taken, p);
    MoreFull(taken, p, maxPacketSize, requested);
  }

  lemma OneMorePolled(packets: nat -> seq<DataTry>, maxPacketSize: nat, counts: seq<nat>, taken: seq<Payload>, n: nat,
                      p: Payload)
    requires PolledAll(packets, maxPacketSize, counts, taken)
    requires Polled(packets(|taken|), ToggleAfter(|taken| + 1), maxPacketSize, maxPacketSize, n, Some(Ok(p)))
    ensures PolledAll(packets, maxPacketSize, counts + [n], taken + [p])
    ensures |counts| == |taken|
  {
    hide Polled, ToggleAfter;
    var more := taken + [p];
    forall i | 0 <= i < |more|
      ensures Polled(packets(i), ToggleAfter(i + 1), maxPacketSize, maxPacketSize, (counts + [n])[i], Some(Ok(more[i])))
    {
      assert i < |taken| ==> (counts + [n])[i] == counts[i] && more[i] == taken[i];
    }
  }

  lemma MoreFull(taken: seq<Payload>, p: Payload, maxPacketSize: nat, requested: nat)
    requires AllFull(taken, maxPacketSize, requested) && |Concat(taken)| < requested
    requires |Concat(taken + [p])| <= requested && |p| <= maxPacketSize
    ensures |p| == maxPacketSize ==> AllFull(taken + [p], maxPacketSize, requested)
    ensures |p| < maxPacketSize || |Concat(taken + [p])| == requested ==>
      OneTransfer(taken + [p], maxPacketSize, requested)
  {
    hide Concat, OneTransfer;
    var more := taken + [p];
    forall i | 0 <= i <= |taken| ensures |Concat(more[..i])| < requested && |Concat(taken[..i])| < requested {
      assert more[..i] == taken[..i];
      assert taken[..|taken|] == taken;
    }
    if |p| < maxPacketSize || |Concat(more)| == requested {
      In.LastPacket(taken, p, maxPacketSize, requested);
    }
  }

  lemma ReadingBreaks(packets: nat -> seq<DataTry>, maxPacketSize: nat, requested: nat, counts: seq<nat>,
                      taken: seq<Payload>, n: nat, last: Outcome<Payload>)
    requires Reading(packets, maxPacketSize, requested, counts, taken) && |Concat(taken)| < requested
    requires Polled(packets(|taken|), ToggleAfter(|taken| + 1), maxPacketSize, maxPacketSize, n, last)
    ensures !Succeeds(last) ==> DataStage(packets, maxPacketSize, requested, counts + [n], taken, Failure(last))
    ensures Succeeds(last) && |Concat(taken)| + |last.value.value| > requested ==>
      DataStage(packets, maxPacketSize, requested, counts + [n], taken, Some(Err(BadResponse)))
  {
    hide Polled, Reading;
    assert (counts + [n])[..|counts|] == counts
      && |counts| == |taken| by { CountsMatch(packets, maxPacketSize, requested, counts, taken); }
  }

  lemma CountsMatch(packets: nat -> seq<DataTry>, maxPacketSize: nat, requested: nat, counts: seq<nat>,
                    taken: seq<Payload>)
    requires Reading(packets, maxPacketSize, requested, counts, taken)
    ensures |counts| == |taken|
  {}

  /** What the data stage of a read asks of the engine: so many polls for each packet, from DATA1 on. */
  function ReadLog(counts: seq<nat>, maxPacketSize: nat): seq<Transaction> {
    if counts == [] then []
    else
      var i := |counts| - 1;
      ReadLog(counts[..i], maxPacketSize) + PollsOf(ToggleAfter(i + 1), maxPacketSize, true, counts[i])
  }

  lemma OneMoreRead(before: seq<Transaction>, counts: seq<nat>, n: nat, maxPacketSize: nat)
    ensures before + ReadLog(counts, maxPacketSize)
                   + PollsOf(ToggleAfter(|counts| + 1), maxPacketSize, true, n)
         == before + ReadLog(counts + [n], maxPacketSize)
    ensures before + ReadLog([], maxPacketSize) == before
  {
    hide PollsOf, ToggleAfter;
    assert (counts + [n])[..|counts|] == counts;
  }

  /** The data stage of a control read. */
  method ReadData(bus: Bus, buffer: array<byte>, requested: nat, maxPacketSize: nat, packets: nat -> seq<DataTry>)
    returns (result: Outcome<()>, received: nat, ghost counts: seq<nat>, ghost taken: seq<Payload>)
    requires requested <= buffer.Length && maxPacketSize > 0
    modifies bus, buffer
    ensures bus.log == old(bus.log) + ReadLog(counts, maxPacketSize)
    ensures DataStage(packets, maxPacketSize, requested, counts, taken, result)
    ensures Succeeds(result) ==> received == |Concat(taken)| <= requested && buffer[..received] == Concat(taken)
  {
    counts, taken := [], [];
    ReadingBegins(packets, maxPacketSize, requested);
    In.NoPackets();
    ghost var done := requested == 0;
    EmptyStage(packets, maxPacketSize);
    hide Concat, Reading, Polled, DataStage, ToggleAfter, ReadLog, PollsOf, StalledPoll;
    received := 0;
    OneMoreRead(old(bus.log), [], 0, maxPacketSize);
    var expected, index: nat, more := Data1, 0, requested > 0;
    FirstToggle();
    while more
      invariant received <= requested && received == |Concat(taken)| && buffer[..received] == Concat(taken)
      invariant index == |taken| == |counts| && expected == ToggleAfter(index + 1)
      invariant more ==> received < requested && Reading(packets, maxPacketSize, requested, counts, taken)
      invariant !more ==> DataStage(packets, maxPacketSize, requested, counts, taken, Some(Ok(())))
      invariant bus.log == old(bus.log) + ReadLog(counts, maxPacketSize)
      decreases more, requested - received
    {
      var packet, polls := PollData(bus, expected, maxPacketSize, maxPacketSize, true, packets(index));
      OneMoreRead(old(bus.log), counts, polls, maxPacketSize);
      ReadingBreaks(packets, maxPacketSize, requested, counts, taken, polls, packet);
      if packet.None? || packet.value.Err? {
        return Failure(packet), received, counts + [polls], taken;
      }
      var p := packet.value.value;
      if received + |p| > requested {
        return Some(Err(BadResponse)), received, counts + [polls], taken;
      }
      ReadingGoesOn(packets, maxPacketSize, requested, counts, taken, polls, p);
      In.OnePacketMore(taken, p);
      ToggleFlips(index + 1);
      In.CopyInto(buffer, received, p);
      assert buffer[..received + |p|] == buffer[..received] + p;
      counts, taken := counts + [polls], taken + [p];
      received := received + |p|;
      index := index + 1;
      expected := expected.AfterAck();
      more := |p| >= maxPacketSize && received < requested;
    }
    return Some(Ok(())), received, counts, taken;
  }

  lemma FirstToggle()
    ensures ToggleAfter(1) == Data1
  {}

  lemma EmptyStage(packets: nat -> seq<DataTry>, maxPacketSize: nat)
    ensures DataStage(packets, maxPacketSize, 0, [], [], Some(Ok(())))
  {
    ReadingBegins(packets, maxPacketSize, 0);
  }

  /**
   * A conforming device sends exactly its response: full packets, then a short
   * one unless the response is as long as requested.
   */
  ghost predicate Responds(setups: seq<SetupTry>, tries: seq<In.InTry>, response: Payload, maxPacketSize: nat,
                           requested: nat)
    requires maxPacketSize > 0
  {
    && |response| <= requested
    && HonestSetups(setups)
    && In.HonestRun(IN_STAGE, maxPacketSize, tries)
    && In.RunIn(IN_STAGE, maxPacketSize, tries).sent <= [[]] + Split(response, maxPacketSize, |response| < requested)
  }

  /** Leaving out the marking packet leaves a prefix. */
  lemma {:induction false} UnmarkedIsPrefix(data: Payload, size: nat)
    requires size > 0
    ensures Split(data, size, false) <= Split(data, size, true)
    decreases |data|
  {
    if |data| > size {
      UnmarkedIsPrefix(data[size..], size);
    }
  }

  /** Whoever took one transfer off such a response has exactly the response. */
  lemma ReadIsExact(setups: seq<SetupTry>, tries: seq<In.InTry>, taken: seq<Payload>, response: Payload,
                    maxPacketSize: nat, requested: nat)
    requires maxPacketSize > 0 && Responds(setups, tries, response, maxPacketSize, requested)
    requires In.NothingLost(IN_STAGE, maxPacketSize, tries)
    requires In.RunIn(IN_STAGE, maxPacketSize, tries).accepted == [[]] + taken
    requires OneTransfer(taken, maxPacketSize, requested)
    ensures Concat(taken) == response
  {
    In.ExactlyOnceIn(IN_STAGE, maxPacketSize, tries);
    hide In.RunIn, In.NothingLost, In.HonestRun, Split, OneTransfer, Concat, HonestSetups;
    UnmarkedIsPrefix(response, maxPacketSize);
    var packets := Split(response, maxPacketSize, |response| < requested);
    PrefixTail(taken, packets, In.RunIn(IN_STAGE, maxPacketSize, tries).sent);
    assert taken <= Split(response, maxPacketSize, true) + [];
    ReassemblyInvertsPackets(response, maxPacketSize, requested, [], taken);
  }

  lemma PrefixTail(taken: seq<Payload>, packets: seq<Payload>, sent: seq<Payload>)
    requires [[]] + taken <= sent <= [[]] + packets
    ensures taken <= packets
  {
    var a, b: seq<Payload> := [[]] + taken, [[]] + packets;
    assert a <= b;
    assert taken == a[1..] && packets == b[1..];
  }

  /** How far a control read got in each stage. */
  datatype ReadStages = ReadStages(
    attempts: nat, setup: Outcome<()>, counts: seq<nat>, taken: seq<Payload>, data: Outcome<()>, sends: nat,
      status: Outcome<()>)

  /** The stages of a control read on its scripts, each entered only when the one before succeeded. */
  ghost predicate ReadRun(script: ReadScript, maxPacketSize: nat, requested: nat, s: ReadStages, result: Outcome<nat>) {
    && SetupStage(script.setups, s.attempts, s.setup)
    && (!Succeeds(s.setup) ==> result == Failure(s.setup) && s.counts == [] && s.sends == 0)
    && (Succeeds(s.setup) ==>
          && DataStage(script.packets, maxPacketSize, requested, s.counts, s.taken, s.data)
          && (!Succeeds(s.data) ==> result == Failure(s.data) && s.sends == 0)
          && (Succeeds(s.data) ==>
                && Sent(script.status, [], s.sends, s.status)
                && result == if Succeeds(s.status) then Some(Ok(|Concat(s.taken)|)) else Failure(s.status)))
  }

  /**
   * What a read asked of the engine: SETUP with DATA0, the data packets, and
   * then an empty OUT/DATA1 packet, which the first time does not wait for a frame.
   */
  ghost predicate ReadTransactions(before: seq<Transaction>, log: seq<Transaction>, setup: seq<byte>,
                                   maxPacketSize: nat, attempts: nat, counts: seq<nat>, sends: nat)
  {
    log == before
      + Attempts(Sends(0x2d, 0xc3, setup, true), Sends(0x2d, 0xc3, setup, true), attempts)
      + ReadLog(counts, maxPacketSize)
      + Attempts(Sends(0xe1, 0x4b, [], false), Sends(0xe1, 0x4b, [], true), sends)
  }

  lemma NothingAsked(log: seq<Transaction>, setup: seq<byte>, maxPacketSize: nat)
    ensures ReadTransactions(log, log, setup, maxPacketSize, 0, [], 0)
  {}

  lemma SetupAsked(before: seq<Transaction>, log: seq<Transaction>, setup: seq<byte>, maxPacketSize: nat, attempts: nat)
    requires log == before + Attempts(SetupOf(setup), SetupOf(setup), attempts)
    ensures ReadTransactions(before, log, setup, maxPacketSize, attempts, [], 0)
  {}

  lemma PacketsAsked(before: seq<Transaction>, asked: seq<Transaction>, log: seq<Transaction>, setup: seq<byte>,
                     maxPacketSize: nat, attempts: nat, counts: seq<nat>)
    requires ReadTransactions(before, asked, setup, maxPacketSize, attempts, [], 0)
    requires log == asked + ReadLog(counts, maxPacketSize)
    ensures ReadTransactions(before, log, setup, maxPacketSize, attempts, counts, 0)
  {}

  lemma StatusSent(before: seq<Transaction>, asked: seq<Transaction>, log: seq<Transaction>, setup: seq<byte>,
                   maxPacketSize: nat, attempts: nat, counts: seq<nat>, sends: nat)
    requires ReadTransactions(before, asked, setup, maxPacketSize, attempts, counts, 0)
    requires log == asked + SendsAll(Data1, [], false, sends)
    ensures ReadTransactions(before, log, setup, maxPacketSize, attempts, counts, sends)
  {}

  /**
   * Control read. The result is that of SETUP, data and status stages on their
   * scripts. Success means: the caller's first n bytes are the packets
   * accepted with toggles alternating from DATA1, ending exactly at a short
   * packet or at wLength; and against a conforming device they are exactly its
   * response, however often SETUP, data or status had to be retried.
   */
  method ControlIn(bus: Bus, setup: seq<byte>, endpointZero: bool, buffer: array<byte>, maxPacketSize: nat,
                   script: ReadScript, ghost before: In.InWorld, ghost response: Payload)
    returns (result: Outcome<nat>, ghost s: ReadStages)
    requires |setup| == 8 && maxPacketSize > 0
    modifies bus, buffer
    ensures ReadTransactions(old(bus.log), bus.log, setup, maxPacketSize, s.attempts, s.counts, s.sends)
    ensures !endpointZero || setup[0] & 0x80 == 0 ==> result == Some(Err(BadResponse)) && bus.log == old(bus.log)
    ensures endpointZero && setup[0] & 0x80 != 0 && setup[6] as nat + 256 * setup[7] as nat > buffer.Length ==>
      result == Some(Err(BufferOverflow)) && bus.log == old(bus.log)
    ensures endpointZero && setup[0] & 0x80 != 0 && Word(setup[6], setup[7]) <= buffer.Length ==>
      ReadRun(script, maxPacketSize, Word(setup[6], setup[7]), s, result)
    ensures Succeeds(result) ==>
      result.value.value <= Word(setup[6], setup[7]) <= buffer.Length && buffer[..result.value.value] == Concat(s.taken)
    ensures var wLength := Word(setup[6], setup[7]);
      Succeeds(result) && 0 < wLength && Conforms(script, s, response, maxPacketSize, wLength) ==>
      && AfterSetups(before, IN_STAGE, script.setups[..Min(s.attempts, |script.setups|)]) == IN_STAGE
      && result.value.value == |response| && buffer[..result.value.value] == response
  {
    s := ReadStages(0, None, [], [], None, 0, None);
    NothingAsked(bus.log, setup, maxPacketSize);
    hide Concat, ReadRun, Conforms, AfterSetups, ReadTransactions;
    if !endpointZero || setup[0] & 0x80 == 0 {
      return Some(Err(BadResponse)), s;
    }
    var requested := Word(setup[6], setup[7]);
    if requested > buffer.Length {
      return Some(Err(BufferOverflow)), s;
    }
    result, s := ReadInStages(bus, setup, buffer, requested, maxPacketSize, script);
    if Succeeds(result) && 0 < requested && Conforms(script, s, response, maxPacketSize, requested) {
      WholeRead(script, maxPacketSize, requested, s, result);
      ConformingRead(before, script, s, response, maxPacketSize, requested);
    }
  }

  /** The three stages of a read, one after the other. */
  method ReadInStages(bus: Bus, setup: seq<byte>, buffer: array<byte>, requested: nat, maxPacketSize: nat,
                      script: ReadScript)
    returns (result: Outcome<nat>, ghost s: ReadStages)
    requires requested <= buffer.Length && maxPacketSize > 0
    modifies bus, buffer
    ensures ReadTransactions(old(bus.log), bus.log, setup, maxPacketSize, s.attempts, s.counts, s.sends)
    ensures ReadRun(script, maxPacketSize, requested, s, result)
    ensures Succeeds(result) ==> result.value.value <= requested && buffer[..result.value.value] == Concat(s.taken)
  {
    s := ReadStages(0, None, [], [], None, 0, None);
    ghost var log := bus.log;
    hide Concat, DataStage, SetupStage, Sent, Attempts, ReadLog, ReadTransactions, SetupOf, SendsAll, ReadRun;
    var accepted, attempts := ControlSetupStage(bus, setup, script.setups);
    s := s.(attempts := attempts, setup := accepted);
    SetupAsked(log, bus.log, setup, maxPacketSize, attempts);
    ghost var asked := bus.log;
    ReadStopsAtSetup(script, maxPacketSize, requested, s);
    if accepted.None? || accepted.value.Err? {
      return Failure(accepted), s;
    }
    var stage, received;
    ghost var counts, taken;
    stage, received, counts, taken := ReadData(bus, buffer, requested, maxPacketSize, script.packets);
    s := s.(counts := counts, taken := taken, data := stage);
    PacketsAsked(log, asked, bus.log, setup, maxPacketSize, attempts, counts);
    asked := bus.log;
    ReadStopsAtData(script, maxPacketSize, requested, s);
    if stage.None? || stage.value.Err? {
      return Failure(stage), s;
    }
    var status, sends := SendData(bus, Data1, [], false, script.status);
    StatusSent(log, asked, bus.log, setup, maxPacketSize, attempts, counts, sends);
    s := s.(sends := sends, status := status);
    ReadReachesStatus(script, maxPacketSize, requested, s);
    if status.None? || status.value.Err? {
      return Failure(status), s;
    }
    return Some(Ok(received)), s;
  }

  lemma ReadStopsAtSetup(script: ReadScript, maxPacketSize: nat, requested: nat, s: ReadStages)
    requires SetupStage(script.setups, s.attempts, s.setup) && s.counts == [] && s.sends == 0
    ensures !Succeeds(s.setup) ==> ReadRun(script, maxPacketSize, requested, s, Failure(s.setup))
  {
    hide SetupStage;
  }

  lemma ReadStopsAtData(script: ReadScript, maxPacketSize: nat, requested: nat, s: ReadStages)
    requires SetupStage(script.setups, s.attempts, s.setup) && Succeeds(s.setup)
    requires DataStage(script.packets, maxPacketSize, requested, s.counts, s.taken, s.data) && s.sends == 0
    ensures !Succeeds(s.data) ==> ReadRun(script, maxPacketSize, requested, s, Failure(s.data))
  {
    hide SetupStage, DataStage;
  }

  lemma ReadReachesStatus(script: ReadScript, maxPacketSize: nat, requested: nat, s: ReadStages)
    requires SetupStage(script.setups, s.attempts, s.setup) && Succeeds(s.setup)
    requires DataStage(script.packets, maxPacketSize, requested, s.counts, s.taken, s.data) && Succeeds(s.data)
    requires Sent(script.status, [], s.sends, s.status)
    ensures ReadRun(script, maxPacketSize, requested, s,
                    if Succeeds(s.status) then Some(Ok(|Concat(s.taken)|)) else Failure(s.status))
  {
    hide SetupStage, DataStage, Sent;
  }

  /** A read that succeeds has gone through all its stages. */
  lemma WholeRead(script: ReadScript, maxPacketSize: nat, requested: nat, s: ReadStages, result: Outcome<nat>)
    requires ReadRun(script, maxPacketSize, requested, s, result) && Succeeds(result)
    ensures SetupStage(script.setups, s.attempts, s.setup) && Succeeds(s.setup)
    ensures DataStage(script.packets, maxPacketSize, requested, s.counts, s.taken, s.data) && Succeeds(s.data)
    ensures result.value.value == |Concat(s.taken)|
  {
    hide SetupStage, DataStage, Sent, Concat;
  }

  /** The wire was honest and the device conforming during this read. */
  ghost predicate Conforms(script: ReadScript, s: ReadStages, response: Payload, maxPacketSize: nat, requested: nat)
    requires maxPacketSize > 0
  {
    Responds(script.setups[..Min(s.attempts, |script.setups|)], AllTries(script.packets, s.counts, maxPacketSize),
             response, maxPacketSize, requested)
  }

  lemma ConformingRead(before: In.InWorld, script: ReadScript, s: ReadStages, response: Payload, maxPacketSize: nat,
                       requested: nat)
    requires maxPacketSize > 0 && requested > 0 && Conforms(script, s, response, maxPacketSize, requested)
    requires SetupStage(script.setups, s.attempts, s.setup) && Succeeds(s.setup)
    requires DataStage(script.packets, maxPacketSize, requested, s.counts, s.taken, s.data) && Succeeds(s.data)
    ensures AfterSetups(before, IN_STAGE, script.setups[..Min(s.attempts, |script.setups|)]) == IN_STAGE
    ensures Concat(s.taken) == response
  {
    hide Concat, OneTransfer, Polled, AllTries;
    SetupAccepted(before, IN_STAGE, script.setups, s.attempts, s.setup);
    ReadIsExact(script.setups[..s.attempts], AllTries(script.packets, s.counts, maxPacketSize), s.taken, response,
                maxPacketSize, requested);
  }

  // ----- control write ------------------------------------------------------------------

  datatype WriteScript = WriteScript(setups: seq<SetupTry>, packets: nat -> seq<WriteTry>, status: seq<DataTry>)

  /** The packets of the data stage; empty data has none. */
  function Chunks(data: Payload, size: nat): seq<Payload>
    requires size > 0
  {
    if data == [] then [] else Split(data, size, false)
  }

  /**
   * Packets by their lengths: none is empty, all but the last are full, and
   * there are as many as the data needs, so none for no data.
   */
  ghost predicate ExactPackets(packets: seq<Payload>, data: Payload, size: nat)
    requires size > 0
  {
    && Concat(packets) == data
    && |packets| == (|data| + size - 1) / size
    && (forall i | 0 <= i < |packets| :: 0 < |packets[i]| <= size)
    && (forall i | 0 <= i < |packets| - 1 :: |packets[i]| == size)
    && (data == [] <==> packets == [])
  }

  lemma ChunksAreExact(data: Payload, size: nat)
    requires size > 0
    ensures ExactPackets(Chunks(data, size), data, size)
  {
    if data == [] {
      SmallRemainder(size);
    } else {
      PacketsAreExact(data, size, false);
      CountIsExact(data, size, false);
      hide Split, Concat;
    }
  }

  lemma SmallRemainder(size: nat)
    requires size > 0
    ensures (size - 1) / size == 0 && Concat([]) == []
  {
    QuotientUnique(size - 1, size, 0, size - 1);
  }

  lemma FirstChunk(data: Payload, size: nat)
    requires size > 0 && data != []
    ensures var n := Min(size, |data|); Chunks(data, size) == [data[..n]] + Chunks(data[n..], size)
  {
    if |data| <= size {
      assert data[..|data|] == data;
    }
  }

  /** All attempts of a data stage, with so many sends for each packet. */
  function AllSends(scripts: nat -> seq<WriteTry>, counts: seq<nat>, packets: seq<Payload>): seq<Out.OutTry>
    requires |counts| <= |packets|
  {
    if counts == [] then []
    else
      var i := |counts| - 1;
      AllSends(scripts, counts[..i], packets) + SendsOf(scripts(i)[..Min(counts[i], |scripts(i)|)], packets[i])
  }

  /** Packets of a data stage written so far, each sent on its own script until acknowledged. */
  ghost predicate Writing(scripts: nat -> seq<WriteTry>, packets: seq<Payload>, counts: seq<nat>) {
    && |counts| <= |packets|
    && (forall i | 0 <= i < |counts| :: Sent(scripts(i), packets[i], counts[i], Out.DONE))
    && Written(AllSends(scripts, counts, packets), packets[..|counts|])
  }

  /** Exactly these packets were acknowledged, with alternating toggles, and none was abandoned. */
  ghost predicate Written(tries: seq<Out.OutTry>, packets: seq<Payload>) {
    && Out.NothingAbandoned(tries)
    && (tries != [] ==> Out.Acknowledged(tries[|tries| - 1]))
    && (tries == [] ==> packets == [])
    && Out.RunOut(OUT_STAGE, tries).acked == [[]] + packets
    && Out.RunOut(OUT_STAGE, tries).host == ToggleAfter(|packets| + 1)
  }

  ghost predicate WriteStage(scripts: nat -> seq<WriteTry>, packets: seq<Payload>, counts: seq<nat>,
                             result: Outcome<()>)
  {
    if Succeeds(result) then |counts| == |packets| && Writing(scripts, packets, counts)
    else
      && 0 < |counts| <= |packets| && var k := |counts| - 1;
      && Writing(scripts, packets, counts[..k]) && Sent(scripts(k), packets[k], counts[k], result)
  }

  lemma WritingBegins(scripts: nat -> seq<WriteTry>, packets: seq<Payload>)
    ensures Writing(scripts, packets, [])
  {
    var none: seq<Payload> := [];
    assert [[]] + none == [[]] && packets[..0] == none;
  }

  /** Sends that are to be repeated change nothing that the host sees. */
  lemma {:induction false} SendsKeep(script: seq<WriteTry>, packet: Payload, n: nat, past: seq<Out.OutTry>)
    requires n <= |script| && forall i | 0 <= i < n :: Retry.Retryable(Answer(packet, script[i]))
    ensures var sends := SendsOf(script[..n], packet);
      && |sends| == n && (forall i | 0 <= i < n :: sends[i].packet == packet && !Out.Acknowledged(sends[i]))
      && Out.RunOut(OUT_STAGE, past + sends).acked == Out.RunOut(OUT_STAGE, past).acked
      && Out.RunOut(OUT_STAGE, past + sends).host == Out.RunOut(OUT_STAGE, past).host
  {
    hide Out.RunOut, Out.OutStep;
    if n == 0 {
      assert past + SendsOf(script[..0], packet) == past;
    } else {
      SendsKeep(script, packet, n - 1, past);
      var before, t := past + SendsOf(script[..n - 1], packet), Out.OutTry(packet, script[n - 1].fate);
      OneMoreSend(script, packet, n - 1);
      assert past + SendsOf(script[..n], packet) == before + [t];
      Out.RunOutAppend(OUT_STAGE, before, t);
      Out.StepAcks(Out.RunOut(OUT_STAGE, before), t);
    }
  }

  lemma SentPacket(script: seq<WriteTry>, packet: Payload, n: nat, past: seq<Out.OutTry>, packets: seq<Payload>)
    requires Written(past, packets) && Sent(script, packet, n, Out.DONE)
    ensures Written(past + SendsOf(script[..n], packet), packets + [packet])
  {
    hide Out.RunOut, Out.OutStep, SendsOf, Out.NothingAbandoned, Out.OutOutcome, Out.Acknowledged, Written,
      Out.SendingOnly;
    var before, t := SendsOf(script[..n - 1], packet), Out.OutTry(packet, script[n - 1].fate);
    SendsKeep(script, packet, n - 1, past);
    OneMoreSend(script, packet, n - 1);
    SendsTogether(before, packet, t);
    OneMoreItem(past, before, t);
    Out.RunOutAppend(OUT_STAGE, past + before, t);
    Out.StepAcks(Out.RunOut(OUT_STAGE, past + before), t);
    assert (before + [t])[|before + [t]| - 1] == t;
    WrittenMore(past, packets, before + [t], packet);
  }

  lemma WrittenMore(past: seq<Out.OutTry>, packets: seq<Payload>, sends: seq<Out.OutTry>, packet: Payload)
    requires Written(past, packets) && Out.SendingOnly(packet, sends)
    requires sends != [] && Out.Acknowledged(sends[|sends| - 1])
    requires Out.RunOut(OUT_STAGE, past + sends).acked == Out.RunOut(OUT_STAGE, past).acked + [packet]
    requires Out.RunOut(OUT_STAGE, past + sends).host == Out.RunOut(OUT_STAGE, past).host.AfterAck()
    ensures Written(past + sends, packets + [packet])
  {
    hide Out.RunOut, Out.NothingAbandoned, Out.Acknowledged, Out.SendingOnly, ToggleAfter;
    Out.Chained(past, packet, sends);
    ToggleFlips(|packets| + 1);
    OneMoreItem([[]], packets, packet);
    assert |packets + [packet]| + 1 == |packets| + 2;
  }

  lemma SendsTogether(before: seq<Out.OutTry>, packet: Payload, t: Out.OutTry)
    requires forall i | 0 <= i < |before| :: before[i].packet == packet && !Out.Acknowledged(before[i])
    requires t.packet == packet
    ensures Out.SendingOnly(packet, before + [t])
  {
    hide Out.Acknowledged;
  }

  lemma OneMoreSendCount(scripts: nat -> seq<WriteTry>, packets: seq<Payload>, counts: seq<nat>, n: nat)
    requires |counts| < |packets| && n <= |scripts(|counts|)|
    ensures AllSends(scripts, counts + [n], packets)
      == AllSends(scripts, counts, packets) + SendsOf(scripts(|counts|)[..n], packets[|counts|])
  {
    assert (counts + [n])[..|counts|] == counts;
  }

  lemma WritingGoesOn(scripts: nat -> seq<WriteTry>, packets: seq<Payload>, counts: seq<nat>, n: nat,
                      result: Outcome<()>)
    requires Writing(scripts, packets, counts) && |counts| < |packets|
    requires Sent(scripts(|counts|), packets[|counts|], n, result)
    ensures Succeeds(result) ==> Writing(scripts, packets, counts + [n])
    ensures !Succeeds(result) ==> WriteStage(scripts, packets, counts + [n], result)
  {
    var k := |counts|;
    assert (counts + [n])[..k] == counts;
    if Succeeds(result) {
      assert result.value.value == ();
      SentPacket(scripts(k), packets[k], n, AllSends(scripts, counts, packets), packets[..k]);
      OneMoreSendCount(scripts, packets, counts, n);
      hide Sent, Written, AllSends;
      assert packets[..k] + [packets[k]] == packets[..k + 1];
      forall i | 0 <= i < k + 1 ensures Sent(scripts(i), packets[i], (counts + [n])[i], Out.DONE) {
        assert i < k ==> (counts + [n])[i] == counts[i];
      }
    }
  }

  /** What the data stage of a write asks of the engine: so many sends of each packet, from DATA1 on. */
  function WriteLog(packets: seq<Payload>, counts: seq<nat>): seq<Transaction>
    requires |counts| <= |packets|
  {
    if counts == [] then []
    else
      var i := |counts| - 1;
      WriteLog(packets, counts[..i]) + SendsAll(ToggleAfter(i + 1), packets[i], true, counts[i])
  }

  lemma OneMoreWrite(before: seq<Transaction>, packets: seq<Payload>, counts: seq<nat>, n: nat)
    requires |counts| < |packets|
    ensures before + WriteLog(packets, counts)
                   + SendsAll(ToggleAfter(|counts| + 1), packets[|counts|], true, n)
         == before + WriteLog(packets, counts + [n])
  {
    hide SendsAll, ToggleAfter;
    assert (counts + [n])[..|counts|] == counts;
  }

  function Total(counts: seq<nat>): nat {
    if counts == [] then 0 else Total(counts[..|counts| - 1]) + counts[|counts| - 1]
  }

  lemma TotalMore(counts: seq<nat>, i: nat)
    requires i < |counts|
    ensures Total(counts[..i + 1]) == Total(counts[..i]) + counts[i]
  {
    assert counts[..i + 1][..i] == counts[..i];
  }

  lemma {:induction false} TotalGrows(counts: seq<nat>, i: nat)
    requires i <= |counts|
    ensures Total(counts[..i]) <= Total(counts)
  {
    assert counts[..|counts|] == counts;
    if i < |counts| {
      TotalGrows(counts[..|counts| - 1], i);
      assert counts[..|counts| - 1][..i] == counts[..i];
    }
  }

  lemma AppendedAt<T>(a: seq<T>, b: seq<T>, i: nat)
    requires i < |a + b|
    ensures (a + b)[i] == if i < |a| then a[i] else b[i - |a|]
  {}

  /** What is sent when: the j-th attempt at the i-th packet, the first packet with DATA1, the next with DATA0. */
  lemma {:induction false} WriteLogAt(packets: seq<Payload>, counts: seq<nat>, i: nat, j: nat)
    requires i < |counts| <= |packets| && j < counts[i]
    ensures |WriteLog(packets, counts)| == Total(counts)
    ensures Total(counts[..i]) + j < Total(counts)
    ensures WriteLog(packets, counts)[Total(counts[..i]) + j]
         == Sends(0xe1, if i % 2 == 0 then 0x4b else 0xc3, packets[i], true)
  {
    var last := |counts| - 1;
    WriteLogLength(packets, counts);
    WriteLogLength(packets, counts[..last]);
    TotalMore(counts, i);
    TotalGrows(counts, i + 1);
    var before := WriteLog(packets, counts[..last]);
    var more := SendsAll(ToggleAfter(last + 1), packets[last], true, counts[last]);
    assert WriteLog(packets, counts) == before + more;
    if i < last {
      hide WriteLog, Total;
      assert counts[..last][..i] == counts[..i];
      WriteLogAt(packets, counts[..last], i, j);
      AppendedAt(before, more, Total(counts[..i]) + j);
    } else {
      hide WriteLog, Total;
      AppendedAt(before, more, |before| + j);
    }
  }

  lemma {:induction false} WriteLogLength(packets: seq<Payload>, counts: seq<nat>)
    requires |counts| <= |packets|
    ensures |WriteLog(packets, counts)| == Total(counts)
  {
    if counts != [] {
      WriteLogLength(packets, counts[..|counts| - 1]);
    }
  }

  /** The same for a read: IN transactions expect DATA1 first, then DATA0, in turns. */
  lemma {:induction false} ReadLogAt(counts: seq<nat>, maxPacketSize: nat, i: nat, j: nat)
    requires i < |counts| && j < counts[i]
    ensures |ReadLog(counts, maxPacketSize)| == Total(counts)
    ensures Total(counts[..i]) + j < Total(counts)
    ensures ReadLog(counts, maxPacketSize)[Total(counts[..i]) + j]
         == Asks(if i % 2 == 0 then 0x4b else 0xc3, maxPacketSize, true)
  {
    var last := |counts| - 1;
    ReadLogLength(counts, maxPacketSize);
    ReadLogLength(counts[..last], maxPacketSize);
    TotalMore(counts, i);
    TotalGrows(counts, i + 1);
    var before := ReadLog(counts[..last], maxPacketSize);
    var more := PollsOf(ToggleAfter(last + 1), maxPacketSize, true, counts[last]);
    assert ReadLog(counts, maxPacketSize) == before + more;
    if i < last {
      hide ReadLog, Total;
      assert counts[..last][..i] == counts[..i];
      ReadLogAt(counts[..last], maxPacketSize, i, j);
      AppendedAt(before, more, Total(counts[..i]) + j);
    } else {
      hide ReadLog, Total;
      AppendedAt(before, more, |before| + j);
    }
  }

  lemma {:induction false} ReadLogLength(counts: seq<nat>, maxPacketSize: nat)
    ensures |ReadLog(counts, maxPacketSize)| == Total(counts)
  {
    if counts != [] {
      ReadLogLength(counts[..|counts| - 1], maxPacketSize);
    }
  }

  lemma NothingWritten(before: seq<Transaction>, packets: seq<Payload>)
    ensures before + WriteLog(packets, []) == before
  {}

  /** The data stage of a control write. */
  method WriteData(bus: Bus, data: Payload, maxPacketSize: nat, scripts: nat -> seq<WriteTry>)
    returns (result: Outcome<()>, ghost counts: seq<nat>)
    requires maxPacketSize > 0
    modifies bus
    ensures |counts| <= |Chunks(data, maxPacketSize)|
    ensures bus.log == old(bus.log) + WriteLog(Chunks(data, maxPacketSize), counts)
    ensures WriteStage(scripts, Chunks(data, maxPacketSize), counts, result)
    ensures ExactPackets(Chunks(data, maxPacketSize), data, maxPacketSize)
    ensures data == [] ==> Succeeds(result) && counts == []
  {
    ChunksAreExact(data, maxPacketSize);
    ghost var packets := Chunks(data, maxPacketSize);
    counts := [];
    WritingBegins(scripts, packets);
    assert packets[0..] == packets;
    hide Writing, Sent, WriteLog, SendsAll, ToggleAfter;
    NothingWritten(bus.log, packets);
    FirstToggle();
    var index: nat, rest, toggle := 0, data, Data1;
    while rest != []
      invariant toggle == ToggleAfter(index + 1)
      invariant |counts| <= |packets| && bus.log == old(bus.log) + WriteLog(packets, counts)
      invariant index == |counts| <= |packets| && Writing(scripts, packets, counts)
      invariant packets[index..] == Chunks(rest, maxPacketSize)
      decreases |rest|
    {
      FirstChunk(rest, maxPacketSize);
      hide Chunks, WriteStage, ExactPackets;
      var packet := rest[..Min(maxPacketSize, |rest|)];
      assert packets[index] == packets[index..][0] == packet;
      var attempts;
      result, attempts := SendData(bus, toggle, packet, true, scripts(index));
      OneMoreWrite(old(bus.log), packets, counts, attempts);
      WritingGoesOn(scripts, packets, counts, attempts, result);
      counts := counts + [attempts];
      if result.None? || result.value.Err? {
        return result, counts;
      }
      assert packets[index + 1..] == packets[index..][1..];
      ToggleFlips(index + 1);
      toggle := toggle.AfterAck();
      index := index + 1;
      rest := rest[|packet|..];
    }
    assert packets[index..] == [];
    return Some(Ok(())), counts;
  }

  /** How far a control write got in each stage. */
  datatype WriteStages = WriteStages(
    attempts: nat, setup: Outcome<()>, counts: seq<nat>, data: Outcome<()>, polls: nat, status: Outcome<Payload>)

  /** The stages of a control write on its scripts; the status stage must bring an empty DATA1 packet. */
  ghost predicate WriteRun(script: WriteScript, maxPacketSize: nat, packets: seq<Payload>, s: WriteStages,
                           result: Outcome<()>)
  {
    && SetupStage(script.setups, s.attempts, s.setup)
    && (!Succeeds(s.setup) ==> result == Failure(s.setup) && s.counts == [] && s.polls == 0)
    && (Succeeds(s.setup) ==>
          && WriteStage(script.packets, packets, s.counts, s.data)
          && (!Succeeds(s.data) ==> result == Failure(s.data) && s.polls == 0)
          && (Succeeds(s.data) ==>
                && Polled(script.status, Data1, 0, maxPacketSize, s.polls, s.status)
                && (if Succeeds(s.status) then Succeeds(result) else result == Failure(s.status))))
  }

  /** On an honest wire the device took exactly the packets that were written. */
  lemma WriteIsExact(tries: seq<Out.OutTry>, packets: seq<Payload>)
    requires Out.HonestRun(OUT_STAGE, tries) && Written(tries, packets)
    ensures Out.RunOut(OUT_STAGE, tries).received == [[]] + packets
  {
    if tries != [] {
      Out.OutIsExact(OUT_STAGE, tries, packets);
    }
  }

  lemma ChunksConcat(data: Payload, size: nat)
    requires size > 0
    ensures Concat([[]] + Chunks(data, size)) == data
  {
    if data != [] {
      PacketsAreExact(data, size, false);
    }
    ConcatAppend([[]], Chunks(data, size));
    ConcatOne([]);
  }

  /** With no room only an empty packet is accepted. */
  lemma StatusIsEmpty(script: seq<DataTry>, maxPacketSize: nat, n: nat, result: Outcome<Payload>)
    requires Polled(script, Data1, 0, maxPacketSize, n, result) && Succeeds(result)
    ensures result.value.value == []
  {
    hide In.InOutcome, In.InStep;
    In.OutcomeOfStep(In.InWorld([], 0, Data1, [], Data1), maxPacketSize, In.InTry(0, script[n - 1].fate));
  }

  /** The wire was honest during this write. */
  ghost predicate HonestWrite(script: WriteScript, s: WriteStages, packets: seq<Payload>) {
    && |s.counts| <= |packets|
    && HonestSetups(script.setups[..Min(s.attempts, |script.setups|)])
    && Out.HonestRun(OUT_STAGE, AllSends(script.packets, s.counts, packets))
  }

  /**
   * What a write asked of the engine: SETUP with DATA0, the data packets, and
   * then IN for an empty DATA1 packet, which the first time does not wait for
   * a frame. Without data packets the status stage follows SETUP directly.
   */
  ghost predicate WriteTransactions(before: seq<Transaction>, log: seq<Transaction>, setup: seq<byte>,
                                    packets: seq<Payload>, attempts: nat, counts: seq<nat>, polls: nat)
  {
    |counts| <= |packets|
    && log == before
         + Attempts(Sends(0x2d, 0xc3, setup, true), Sends(0x2d, 0xc3, setup, true), attempts)
         + WriteLog(packets, counts)
         + Attempts(Asks(0x4b, 0, false), Asks(0x4b, 0, true), polls)
  }

  lemma NothingSent(log: seq<Transaction>, setup: seq<byte>, packets: seq<Payload>)
    ensures WriteTransactions(log, log, setup, packets, 0, [], 0)
  {}

  lemma SetupSent(before: seq<Transaction>, log: seq<Transaction>, setup: seq<byte>, packets: seq<Payload>,
                  attempts: nat)
    requires log == before + Attempts(SetupOf(setup), SetupOf(setup), attempts)
    ensures WriteTransactions(before, log, setup, packets, attempts, [], 0)
  {}

  lemma PacketsWritten(before: seq<Transaction>, asked: seq<Transaction>, log: seq<Transaction>, setup: seq<byte>,
                       packets: seq<Payload>, attempts: nat, counts: seq<nat>)
    requires WriteTransactions(before, asked, setup, packets, attempts, [], 0)
    requires |counts| <= |packets| && log == asked + WriteLog(packets, counts)
    ensures WriteTransactions(before, log, setup, packets, attempts, counts, 0)
  {
    assert WriteLog(packets, []) == [];
    assert Attempts(Asks(0x4b, 0, false), Asks(0x4b, 0, true), 0) == [];
    hide *;
    var first := Attempts(Sends(0x2d, 0xc3, setup, true), Sends(0x2d, 0xc3, setup, true), attempts);
    AfterNothing(before + first, WriteLog(packets, counts));
    assert log == before + first + [] + [] + WriteLog(packets, counts);
    WithoutStatus(before, log, setup, packets, attempts, counts);
  }

  lemma AfterNothing<T>(before: seq<T>, more: seq<T>)
    ensures before + [] + [] + more == before + more + []
  {}

  lemma WithoutStatus(before: seq<Transaction>, log: seq<Transaction>, setup: seq<byte>, packets: seq<Payload>,
                   attempts: nat, counts: seq<nat>)
    requires |counts| <= |packets| && log == before
      + Attempts(Sends(0x2d, 0xc3, setup, true), Sends(0x2d, 0xc3, setup, true), attempts)
      + WriteLog(packets, counts) + []
    ensures WriteTransactions(before, log, setup, packets, attempts, counts, 0)
  {
    hide WriteLog;
  }

  lemma StatusAsked(before: seq<Transaction>, asked: seq<Transaction>, log: seq<Transaction>, setup: seq<byte>,
                    packets: seq<Payload>, attempts: nat, counts: seq<nat>, polls: nat)
    requires WriteTransactions(before, asked, setup, packets, attempts, counts, 0)
    requires log == asked + PollsOf(Data1, 0, false, polls)
    ensures WriteTransactions(before, log, setup, packets, attempts, counts, polls)
  {}

  lemma EmptyChunks(data: Payload, size: nat)
    requires size > 0
    ensures data == [] ==> Chunks(data, size) == []
  {}

  /**
   * Control write. The result is that of SETUP, data and status stages on
   * their scripts; on an honest wire success means that the device has taken
   * exactly the data, in order and once.
   */
  method ControlOut(bus: Bus, setup: seq<byte>, endpointZero: bool, data: Payload, maxPacketSize: nat,
                    script: WriteScript, ghost before: Out.OutWorld)
    returns (result: Outcome<()>, ghost s: WriteStages)
    requires |setup| == 8 && maxPacketSize > 0
    modifies bus
    ensures WriteTransactions(old(bus.log), bus.log, setup, Chunks(data, maxPacketSize), s.attempts, s.counts, s.polls)
    ensures data == [] ==>
      s.counts == [] && WriteTransactions(old(bus.log), bus.log, setup, [], s.attempts, [], s.polls)
    ensures !endpointZero || setup[0] & 0x80 != 0 ==> result == Some(Err(BadResponse)) && bus.log == old(bus.log)
    ensures endpointZero && setup[0] & 0x80 == 0 && setup[6] as nat + 256 * setup[7] as nat != |data| ==>
      result == Some(Err(BufferOverflow)) && bus.log == old(bus.log)
    ensures endpointZero && setup[0] & 0x80 == 0 && Word(setup[6], setup[7]) == |data| ==>
      && WriteRun(script, maxPacketSize, Chunks(data, maxPacketSize), s, result)
      && ExactPackets(Chunks(data, maxPacketSize), data, maxPacketSize)
      && (data == [] && Succeeds(s.setup) ==> Succeeds(s.data) && s.counts == [])
    ensures Succeeds(result) && HonestWrite(script, s, Chunks(data, maxPacketSize)) ==>
      && AfterSetups(before, OUT_STAGE, script.setups[..Min(s.attempts, |script.setups|)]) == OUT_STAGE
      && var received := Out.RunOut(OUT_STAGE,
        AllSends(script.packets, s.counts, Chunks(data, maxPacketSize))).received;
         received == [[]] + Chunks(data, maxPacketSize) && Concat(received) == data
  {
    s := WriteStages(0, None, [], None, 0, None);
    ChunksAreExact(data, maxPacketSize);
    EmptyChunks(data, maxPacketSize);
    NothingSent(bus.log, setup, Chunks(data, maxPacketSize));
    hide Concat, WriteTransactions, WriteRun, HonestWrite, AfterSetups, Chunks, ExactPackets;
    if !endpointZero || setup[0] & 0x80 != 0 {
      return Some(Err(BadResponse)), s;
    }
    if Word(setup[6], setup[7]) != |data| {
      return Some(Err(BufferOverflow)), s;
    }
    result, s := WriteInStages(bus, setup, data, maxPacketSize, script);
    if Succeeds(result) && HonestWrite(script, s, Chunks(data, maxPacketSize)) {
      WholeRun(script, maxPacketSize, Chunks(data, maxPacketSize), s, result);
      ConformingWrite(before, script, s, data, maxPacketSize);
    }
  }

  /** The three stages of a write, one after the other. */
  method WriteInStages(bus: Bus, setup: seq<byte>, data: Payload, maxPacketSize: nat, script: WriteScript)
    returns (result: Outcome<()>, ghost s: WriteStages)
    requires maxPacketSize > 0
    modifies bus
    ensures WriteTransactions(old(bus.log), bus.log, setup, Chunks(data, maxPacketSize), s.attempts, s.counts, s.polls)
    ensures WriteRun(script, maxPacketSize, Chunks(data, maxPacketSize), s, result)
    ensures data == [] ==> s.counts == []
    ensures data == [] && Succeeds(s.setup) ==> Succeeds(s.data)
  {
    s := WriteStages(0, None, [], None, 0, None);
    ghost var log, packets := bus.log, Chunks(data, maxPacketSize);
    hide SetupStage, WriteStage, Polled, Chunks, ExactPackets, StalledPoll, Attempts, WriteLog, WriteTransactions,
      SetupOf, PollsOf, WriteRun;
    var accepted, attempts := ControlSetupStage(bus, setup, script.setups);
    s := s.(attempts := attempts, setup := accepted);
    SetupSent(log, bus.log, setup, packets, attempts);
    ghost var asked := bus.log;
    RunStopsAtSetup(script, maxPacketSize, packets, s);
    if accepted.None? || accepted.value.Err? {
      return Failure(accepted), s;
    }
    var stage;
    ghost var counts;
    stage, counts := WriteData(bus, data, maxPacketSize, script.packets);
    s := s.(counts := counts, data := stage);
    PacketsWritten(log, asked, bus.log, setup, packets, attempts, counts);
    asked := bus.log;
    RunStopsAtData(script, maxPacketSize, packets, s);
    if stage.None? || stage.value.Err? {
      return Failure(stage), s;
    }
    var status, polls := PollData(bus, Data1, 0, maxPacketSize, false, script.status);
    StatusAsked(log, asked, bus.log, setup, packets, attempts, counts, polls);
    s := s.(polls := polls, status := status);
    RunReachesStatus(script, maxPacketSize, packets, s);
    if status.None? || status.value.Err? {
      return Failure(status), s;
    }
    return Some(Ok(())), s;
  }

  lemma RunStopsAtSetup(script: WriteScript, maxPacketSize: nat, packets: seq<Payload>, s: WriteStages)
    requires SetupStage(script.setups, s.attempts, s.setup) && s.counts == [] && s.polls == 0
    ensures !Succeeds(s.setup) ==> WriteRun(script, maxPacketSize, packets, s, Failure(s.setup))
  {
    hide SetupStage;
  }

  lemma RunStopsAtData(script: WriteScript, maxPacketSize: nat, packets: seq<Payload>, s: WriteStages)
    requires SetupStage(script.setups, s.attempts, s.setup) && Succeeds(s.setup)
    requires WriteStage(script.packets, packets, s.counts, s.data) && s.polls == 0
    ensures !Succeeds(s.data) ==> WriteRun(script, maxPacketSize, packets, s, Failure(s.data))
  {
    hide SetupStage, WriteStage;
  }

  lemma RunReachesStatus(script: WriteScript, maxPacketSize: nat, packets: seq<Payload>, s: WriteStages)
    requires SetupStage(script.setups, s.attempts, s.setup) && Succeeds(s.setup)
    requires WriteStage(script.packets, packets, s.counts, s.data) && Succeeds(s.data)
    requires Polled(script.status, Data1, 0, maxPacketSize, s.polls, s.status)
    ensures WriteRun(script, maxPacketSize, packets, s, if Succeeds(s.status) then Some(Ok(())) else Failure(s.status))
  {
    hide SetupStage, WriteStage, Polled;
  }

  /** A write that succeeds has gone through all its stages. */
  lemma WholeRun(script: WriteScript, maxPacketSize: nat, packets: seq<Payload>, s: WriteStages, result: Outcome<()>)
    requires WriteRun(script, maxPacketSize, packets, s, result) && Succeeds(result)
    ensures SetupStage(script.setups, s.attempts, s.setup) && Succeeds(s.setup)
    ensures WriteStage(script.packets, packets, s.counts, s.data) && Succeeds(s.data)
  {
    hide SetupStage, WriteStage, Polled;
  }

  /** Without data the status stage follows SETUP directly. */
  lemma NoDataStage(before: seq<Transaction>, log: seq<Transaction>, setup: seq<byte>, attempts: nat, polls: nat)
    requires WriteTransactions(before, log, setup, [], attempts, [], polls)
    ensures log == before
      + Attempts(Sends(0x2d, 0xc3, setup, true), Sends(0x2d, 0xc3, setup, true), attempts)
      + Attempts(Asks(0x4b, 0, false), Asks(0x4b, 0, true), polls)
  {}

  lemma ConformingWrite(before: Out.OutWorld, script: WriteScript, s: WriteStages, data: Payload, maxPacketSize: nat)
    requires maxPacketSize > 0 && HonestWrite(script, s, Chunks(data, maxPacketSize))
    requires SetupStage(script.setups, s.attempts, s.setup) && Succeeds(s.setup)
    requires WriteStage(script.packets, Chunks(data, maxPacketSize), s.counts, s.data) && Succeeds(s.data)
    ensures AfterSetups(before, OUT_STAGE, script.setups[..Min(s.attempts, |script.setups|)]) == OUT_STAGE
    ensures var received :=
      Out.RunOut(OUT_STAGE, AllSends(script.packets, s.counts, Chunks(data, maxPacketSize))).received;
      received == [[]] + Chunks(data, maxPacketSize) && Concat(received) == data
  {
    hide Concat, Chunks, Sent, Written, AllSends, Out.RunOut;
    SetupAccepted(before, OUT_STAGE, script.setups, s.attempts, s.setup);
    var packets := Chunks(data, maxPacketSize);
    assert packets[..|s.counts|] == packets;
    WriteIsExact(AllSends(script.packets, s.counts, packets), packets);
    ChunksConcat(data, maxPacketSize);
  }
}
