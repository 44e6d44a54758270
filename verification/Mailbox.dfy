/**
 * The two-slot event mailbox between the root-port monitor and the single
 * consumer of device events.
 */
module Mailbox {
  import opened UsbTypes

  datatype Speed = Low | Full | High

  datatype DeviceEvent = Connected(speed: Speed) | Disconnected | Overcurrent | OtherEvent

  datatype PendingEvents = PendingEvents(destructive: Option<DeviceEvent>, connected: Option<Speed>) {
    function Push(event: DeviceEvent): PendingEvents {
      match event
      case Connected(speed) => this.(connected := Some(speed))
      case Disconnected =>
        PendingEvents(if destructive == Some(Overcurrent) then destructive else Some(DeviceEvent.Disconnected), None)
      case Overcurrent => PendingEvents(Some(Overcurrent), None)
      case OtherEvent =>
        PendingEvents(if destructive == Some(Overcurrent) then destructive else Some(OtherEvent), None)
    }

    function Taken(): Option<DeviceEvent> {
      if destructive.Some? then destructive
      else if connected.Some? then Some(Connected(connected.value))
      else None
    }

    function AfterTake(): PendingEvents {
      if destructive.Some? then this.(destructive := None) else this.(connected := None)
    }
  }

  const EMPTY: PendingEvents := PendingEvents(None, None)

  // ----- the log that the mailbox stands for ----------------------------------------------

  predicate Destructive(event: DeviceEvent) { !event.Connected? }

  /** The part of the log up to and including its last destructive event. */
  function Through(log: seq<DeviceEvent>): (n: nat)
    ensures n <= |log|
    ensures n > 0 ==> Destructive(log[n - 1])
    ensures forall i | n <= i < |log| :: !Destructive(log[i])
  {
    if log == [] then 0
    else if Destructive(log[|log| - 1]) then |log|
    else Through(log[..|log| - 1])
  }

  /** What a consumer sees of a log that it has not looked at yet. */
  function Summary(log: seq<DeviceEvent>): PendingEvents {
    PendingEvents(
      if Through(log) == 0 then None
      else if Overcurrent in log then Some(Overcurrent)
      else Some(log[Through(log) - 1]),
      if log != [] && log[|log| - 1].Connected? then Some(log[|log| - 1].speed) else None)
  }

  /** The event that one take delivers for the log, and how much of the log it stands for. */
  function Delivered(log: seq<DeviceEvent>): Option<DeviceEvent> {
    if log == [] then None
    else if Through(log) == 0 then Some(log[|log| - 1])
    else if Overcurrent in log then Some(Overcurrent)
    else Some(log[Through(log) - 1])
  }

  function Seen(log: seq<DeviceEvent>): (n: nat)
    ensures n <= |log|
  {
    if Through(log) == 0 then |log| else Through(log)
  }

  /**
   * A delivered event stands for a stretch of the log: a Connected for earlier
   * Connecteds only, a destructive event for everything up to the last
   * destructive one, and as Overcurrent exactly when one was among them.
   */
  ghost predicate StandsFor(event: DeviceEvent, stretch: seq<DeviceEvent>) {
    && stretch != []
    && if event.Connected?
       then event == stretch[|stretch| - 1] && forall e | e in stretch :: e.Connected?
       else Destructive(stretch[|stretch| - 1]) && (event == Overcurrent <==> Overcurrent in stretch)
            && (event != Overcurrent ==> event == stretch[|stretch| - 1])
  }

  lemma OneEventMore(log: seq<DeviceEvent>, event: DeviceEvent)
    ensures Through(log + [event]) == if Destructive(event) then |log| + 1 else Through(log)
    ensures Overcurrent in log + [event] <==> Overcurrent in log || event == Overcurrent
  {
    assert (log + [event])[..|log|] == log;
  }

  lemma OvercurrentIsThrough(log: seq<DeviceEvent>)
    requires Overcurrent in log
    ensures Through(log) > 0 && Overcurrent in log[..Through(log)]
  {
    var i :| 0 <= i < |log| && log[i] == Overcurrent;
    assert log[..Through(log)][i] == Overcurrent;
  }

  /** Pushing keeps the mailbox the summary of the log. */
  lemma PushRefines(log: seq<DeviceEvent>, event: DeviceEvent)
    ensures Summary(log).Push(event) == Summary(log + [event])
  {
    OneEventMore(log, event);
    if Overcurrent in log {
      OvercurrentIsThrough(log);
    }
    hide Through;
  }

  lemma OnlyConnected(log: seq<DeviceEvent>)
    requires forall i | 0 <= i < |log| :: !Destructive(log[i])
    ensures Through(log) == 0 && Overcurrent !in log
  {}

  /** Taking delivers one event for a stretch of the log and leaves the summary of the rest. */
  lemma TakeRefines(log: seq<DeviceEvent>)
    ensures Summary(log).Taken() == Delivered(log)
    ensures Summary(log).AfterTake() == Summary(log[Seen(log)..])
    ensures log != [] ==> StandsFor(Delivered(log).value, log[..Seen(log)])
  {
    var n, rest := Seen(log), log[Seen(log)..];
    OnlyConnected(rest);
    if Overcurrent in log {
      OvercurrentIsThrough(log);
    }
    hide Through;
    assert rest != [] ==> rest[|rest| - 1] == log[|log| - 1];
    if log != [] {
      assert log[..n][n - 1] == log[n - 1];
      assert Overcurrent in log[..n] ==> Overcurrent in log;
    }
  }

  // ----- whole histories ------------------------------------------------------------------

  datatype Operation = Pushed(event: DeviceEvent) | Take

  /** `delivered[i]` was taken for `stretches[i]`; `unseen` are the events since. */
  datatype History = History(box: PendingEvents, delivered: seq<DeviceEvent>,
                             stretches: seq<seq<DeviceEvent>>, unseen: seq<DeviceEvent>)

  function Perform(h: History, op: Operation): History {
    match op
    case Pushed(event) => h.(box := h.box.Push(event), unseen := h.unseen + [event])
    case Take =>
      if h.box.Taken().None? then h
      else History(h.box.AfterTake(), h.delivered + [h.box.Taken().value],
                   h.stretches + [h.unseen[..Seen(h.unseen)]], h.unseen[Seen(h.unseen)..])
  }

  function Replay(ops: seq<Operation>): History {
    if ops == [] then History(EMPTY, [], [], [])
    else Perform(Replay(ops[..|ops| - 1]), ops[|ops| - 1])
  }

  /** All events ever pushed, in order. */
  function Log(ops: seq<Operation>): seq<DeviceEvent> {
    if ops == [] then []
    else
      var last := ops[|ops| - 1];
      Log(ops[..|ops| - 1]) + (if last.Pushed? then [last.event] else [])
  }

  function Flatten(stretches: seq<seq<DeviceEvent>>): seq<DeviceEvent> {
    if stretches == [] then [] else Flatten(stretches[..|stretches| - 1]) + stretches[|stretches| - 1]
  }

  lemma FlattenAppend(stretches: seq<seq<DeviceEvent>>, s: seq<DeviceEvent>)
    ensures Flatten(stretches + [s]) == Flatten(stretches) + s
  {
    assert (stretches + [s])[..|stretches|] == stretches;
  }

  ghost predicate Faithful(h: History, log: seq<DeviceEvent>) {
    && h.box == Summary(h.unseen)
    && |h.delivered| == |h.stretches|
    && (forall i | 0 <= i < |h.delivered| :: StandsFor(h.delivered[i], h.stretches[i]))
    && Flatten(h.stretches) + h.unseen == log
  }

  lemma PerformKeeps(h: History, log: seq<DeviceEvent>, op: Operation)
    requires Faithful(h, log)
    ensures Faithful(Perform(h, op), log + (if op.Pushed? then [op.event] else []))
  {
    hide Summary, Delivered, Seen, StandsFor;
    match op
    case Pushed(event) =>
      PushRefines(h.unseen, event);
      assert Flatten(h.stretches) + (h.unseen + [event]) == Flatten(h.stretches) + h.unseen + [event];
    case Take =>
      TakeRefines(h.unseen);
      NothingUnseen(h.unseen);
      var n := Seen(h.unseen);
      FlattenAppend(h.stretches, h.unseen[..n]);
      assert h.unseen == h.unseen[..n] + h.unseen[n..];
      assert Flatten(h.stretches) + h.unseen[..n] + h.unseen[n..] == Flatten(h.stretches) + h.unseen;
      assert log + [] == log;
  }

  lemma NothingUnseen(log: seq<DeviceEvent>)
    ensures Delivered(log).None? <==> log == []
  {}

  /**
   * The mailbox refines an unbounded log: after any pushes and takes, the
   * delivered events stand, in order, for consecutive stretches of everything
   * ever pushed, and the mailbox is the summary of what is left.
   */
  lemma {:induction false} MailboxRefinesLog(ops: seq<Operation>)
    ensures Faithful(Replay(ops), Log(ops))
  {
    if ops != [] {
      MailboxRefinesLog(ops[..|ops| - 1]);
      hide Faithful, Perform;
      PerformKeeps(Replay(ops[..|ops| - 1]), Log(ops[..|ops| - 1]), ops[|ops| - 1]);
    } else {
      assert Faithful(Replay([]), []);
    }
  }

  // ----- what the consumer knows ----------------------------------------------------------

  /** What the last event says of the port. */
  function View(events: seq<DeviceEvent>): Option<Speed> {
    if events != [] && events[|events| - 1].Connected? then Some(events[|events| - 1].speed) else None
  }

  /** What is still to be taken. */
  function Drained(box: PendingEvents): seq<DeviceEvent> {
    (if box.destructive.Some? then [box.destructive.value] else [])
    + (if box.connected.Some? then [Connected(box.connected.value)] else [])
  }

  lemma LastStretch(h: History, log: seq<DeviceEvent>)
    requires Faithful(h, log) && h.unseen == []
    ensures h.delivered == [] <==> log == []
    ensures h.delivered != [] ==>
      Destructive(h.delivered[|h.delivered| - 1]) == Destructive(log[|log| - 1])
      && (h.delivered[|h.delivered| - 1].Connected? ==> h.delivered[|h.delivered| - 1] == log[|log| - 1])
  {
    assert Flatten(h.stretches) + [] == Flatten(h.stretches);
    if h.delivered != [] {
      var n := |h.delivered| - 1;
      assert StandsFor(h.delivered[n], h.stretches[n]);
    }
  }

  /** Draining the mailbox brings the consumer's view to what the last event ever pushed says. */
  lemma DrainingShowsTheLog(ops: seq<Operation>)
    ensures View(Replay(ops).delivered + Drained(Replay(ops).box)) == View(Log(ops))
  {
    MailboxRefinesLog(ops);
    var h, log := Replay(ops), Log(ops);
    hide Replay, Log;
    if h.unseen == [] {
      EmptySummary();
      LastStretch(h, log);
      assert h.delivered + [] == h.delivered;
    } else {
      LastUnseen(h, log);
    }
  }

  lemma EmptySummary()
    ensures Summary([]) == EMPTY
  {}

  lemma LastUnseen(h: History, log: seq<DeviceEvent>)
    requires Faithful(h, log) && h.unseen != []
    ensures View(h.delivered + Drained(h.box)) == View(log)
  {
    var last := |h.unseen| - 1;
    assert log[|log| - 1] == h.unseen[last];
    hide Flatten;
  }

  /**
   * What a delivered event tells: a Connected is the last event pushed and
   * comes only after every detach before it has been delivered; an Overcurrent
   * that has not been delivered yet is delivered next.
   */
  lemma NextEvent(ops: seq<Operation>, event: DeviceEvent)
    requires Replay(ops).box.Taken() == Some(event)
    ensures event.Connected? ==>
      && View(Log(ops)) == Some(event.speed)
      && forall e | e in Replay(ops).unseen :: !Destructive(e)
    ensures Overcurrent in Replay(ops).unseen <==> event == Overcurrent
  {
    MailboxRefinesLog(ops);
    var h, log := Replay(ops), Log(ops);
    hide Replay, Log;
    TakeRefines(h.unseen);
    NothingUnseen(h.unseen);
    assert log[|log| - 1] == h.unseen[|h.unseen| - 1];
    if Overcurrent in h.unseen {
      OvercurrentIsThrough(h.unseen);
    }
    hide Flatten;
    if event.Connected? {
      assert Through(h.unseen) == 0;
    }
  }
}
