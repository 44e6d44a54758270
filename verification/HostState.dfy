/**
 * The state that the controller, the port monitor and all pipes share: port
 * generations, the engine lock, bus resets and cancellation.
 *
 * The asynchronous code is cut into atomic actions at its suspension points
 * and between its critical sections; a dropped future is a `Cancel` action.
 */
module HostState {
  import opened UsbTypes
  import opened Mailbox

  /** Generations are 32-bit counters that wrap around. */
  const WRAP: nat := 0x1_0000_0000

  function Next32(generation: nat): nat { (generation + 1) % WRAP }

  datatype PortState = PortState(connected: bool, speed: Option<Speed>, connection: nat, reset: nat) {
    function AfterConnection(speed: Speed): PortState {
      PortState(true, Some(speed), Next32(connection), Next32(reset))
    }

    function AfterDisconnection(): PortState {
      PortState(false, None, Next32(connection), reset)
    }

    function AfterBusReset(): PortState {
      this.(reset := Next32(reset))
    }
  }

  /** A pipe keeps the generations of its allocation; `allocConn` and `allocResets` number them without wrap-around. */
  datatype Pipe = Pipe(address: nat, connection: nat, reset: nat, allocConn: nat, allocResets: nat)

  predicate CheckValid(pipe: Pipe, port: PortState) {
    && port.connected && port.connection == pipe.connection
    && (pipe.address != 0 ==> port.reset == pipe.reset)
  }

  datatype Shared = Shared(port: PortState, pending: PendingEvents, resetting: bool) {
    function AfterDetach(): Shared {
      this.(port := port.AfterDisconnection(), pending := pending.Push(DeviceEvent.Disconnected))
    }

    function AfterGuardedDetach(): Shared {
      if resetting then this else AfterDetach()
    }

    function AfterOvercurrent(): Shared {
      this.(port := port.AfterDisconnection(), pending := pending.Push(Overcurrent))
    }

    function AfterMark(): Shared {
      this.(port := port.AfterBusReset())
    }

    function AfterActivity(): Shared {
      this.(resetting := true)
    }

    function AfterActivityEnds(): Shared {
      this.(resetting := false)
    }

    /** Publish the attachment, unless the connection has changed since the reset call began. */
    function AfterPublish(generation: nat, speed: Speed): Shared {
      if port.connection == generation
      then this.(port := port.AfterConnection(speed), pending := pending.Push(Connected(speed)))
      else this
    }

    /** A reset that failed: a lost device is reported. */
    function AfterFailure(error: PipeError): Shared {
      if error == PipeError.Disconnected then AfterDetach() else this
    }
  }

  const INITIAL: Shared := Shared(PortState(false, None, 0, 0), EMPTY, false)

  // ----- the shared object --------------------------------------------------------------

  class PioHostState {
    var port: PortState
    var pending: PendingEvents
    var controllerTaken: bool
    var resetInProgress: bool
    var eventWake: bool

    ghost predicate Valid()
      reads this
    {
      port.connection < WRAP && port.reset < WRAP
    }

    function Value(): Shared
      reads this
    {
      Shared(port, pending, resetInProgress)
    }

    constructor ()
      ensures Valid() && Value() == INITIAL && !controllerTaken && !eventWake
    {
      port, pending := PortState(false, None, 0, 0), EMPTY;
      controllerTaken, resetInProgress, eventWake := false, false, false;
    }

    /** The controller handle, for the first caller only. */
    method Controller() returns (acquired: bool)
      modifies this`controllerTaken
      ensures acquired == !old(controllerTaken) && controllerTaken
    {
      acquired := !controllerTaken;
      controllerTaken := true;
    }

    /**
     * The device is gone: whatever pipe was valid fails now and after any
     * reattachment, what a drain delivers ends without a device, an
     * undelivered overcurrent is kept, and the consumer is woken.
     */
    method ReportDisconnected()
      requires Valid()
      modifies this`port, this`pending, this`eventWake
      ensures Valid() && Value() == old(Value()).AfterDetach() && eventWake
      ensures port == PortState(false, None, (old(port).connection + 1) % 0x1_0000_0000, old(port).reset)
      ensures View(Drained(pending)) == None
      ensures forall pipe | CheckValid(pipe, old(port)) :: Inert(pipe, port)
      ensures pending.Taken() == if old(pending).destructive == Some(Overcurrent) then Some(Overcurrent)
                                 else Some(DeviceEvent.Disconnected)
    {
      AllGone(port);
      hide CheckValid, Inert;
      port := port.AfterDisconnection();
      pending := pending.Push(DeviceEvent.Disconnected);
      eventWake := true;
    }

    /** A sampled detach: inert while the host itself drives the reset, else a report like any other. */
    method ReportDisconnectedIfNotResetting() returns (reported: bool)
      requires Valid()
      modifies this`port, this`pending, this`eventWake
      ensures Valid() && reported == !resetInProgress
      ensures Value() == if reported then old(Value()).AfterDetach() else old(Value())
      ensures eventWake == (reported || old(eventWake))
      ensures reported ==> forall pipe | CheckValid(pipe, old(port)) :: Inert(pipe, port)
      ensures !reported ==> forall pipe :: CheckValid(pipe, port) <==> CheckValid(pipe, old(port))
      ensures reported ==> View(Drained(pending)) == None
    {
      reported := !resetInProgress;
      if reported {
        ReportDisconnected();
      }
    }

    method ReportOvercurrent()
      requires Valid()
      modifies this`port, this`pending, this`eventWake
      ensures Valid() && Value() == old(Value()).AfterOvercurrent() && eventWake
      ensures forall pipe | CheckValid(pipe, old(port)) :: Inert(pipe, port)
      ensures Drained(pending) == [Overcurrent]
    {
      AllGone(port);
      hide CheckValid, Inert;
      port := port.AfterDisconnection();
      pending := pending.Push(Overcurrent);
      eventWake := true;
    }

    method TakePendingEvent() returns (event: Option<DeviceEvent>)
      modifies this`pending
      ensures Drained(old(pending)) == (if event.Some? then [event.value] else []) + Drained(pending)
      ensures event == None ==> Drained(old(pending)) == []
    {
      event := pending.Taken();
      pending := pending.AfterTake();
    }

    method MarkBusReset()
      requires Valid()
      modifies this`port
      ensures Valid() && Value() == old(Value()).AfterMark()
      ensures port == old(port).(reset := (old(port).reset + 1) % 0x1_0000_0000)
      ensures forall pipe | CheckValid(pipe, old(port)) :: CheckValid(pipe, port) <==> pipe.address == 0
    {
      AllGone(port);
      hide CheckValid, Inert;
      port := port.AfterBusReset();
    }

    method BeginResetActivity()
      modifies this`resetInProgress
      ensures Value() == old(Value()).AfterActivity()
    {
      resetInProgress := true;
    }

    /** The rest of `reset_and_report_connected` once the engine has finished. */
    method FinishAttach(result: Result<(), PipeError>, generation: nat, speed: Speed)
      returns (outcome: Result<(), PipeError>)
      requires Valid()
      modifies this`port, this`pending, this`resetInProgress, this`eventWake
      ensures Valid()
      ensures Value() == match result
        case Ok(_) => old(Value()).AfterPublish(generation, speed).AfterActivityEnds()
        case Err(error) => old(Value()).AfterActivityEnds().AfterFailure(error)
      ensures outcome.Ok? <==> result.Ok? && old(port).connection == generation
      ensures outcome.Ok? ==>
        && port == PortState(true, Some(speed), (old(port).connection + 1) % 0x1_0000_0000,
                             (old(port).reset + 1) % 0x1_0000_0000)
        && View(Drained(pending)) == Some(speed)
      ensures outcome.Err? ==> outcome.error == if result.Err? then result.error else PipeError.Disconnected
      ensures eventWake == (old(eventWake) || outcome.Ok? || result == Err(PipeError.Disconnected))
    {
      if result.Err? {
        resetInProgress := false;
        if result.error == PipeError.Disconnected {
          ReportDisconnected();
        }
        return Err(result.error);
      }
      var connected := port.connection == generation;
      if connected {
        port := port.AfterConnection(speed);
        pending := pending.Push(Connected(speed));
      }
      resetInProgress := false;
      if !connected {
        return Err(PipeError.Disconnected);
      }
      eventWake := true;
      return result;
    }

    method FinishControllerReset(result: Result<(), PipeError>)
      requires Valid()
      modifies this`port, this`pending, this`resetInProgress, this`eventWake
      ensures Valid()
      ensures Value() == match result
        case Ok(_) => old(Value()).AfterActivityEnds()
        case Err(error) => old(Value()).AfterActivityEnds().AfterFailure(error)
      ensures eventWake == (old(eventWake) || result == Err(PipeError.Disconnected))
    {
      resetInProgress := false;
      if result == Err(PipeError.Disconnected) {
        ReportDisconnected();
      }
    }
  }

  /** No check passes, now or after a reattachment. */
  ghost predicate Inert(pipe: Pipe, port: PortState) {
    !CheckValid(pipe, port) && forall speed :: !CheckValid(pipe, port.AfterConnection(speed))
  }

  /** Whatever pipe was valid is gone with the connection; a reset spares the address-zero pipes. */
  lemma AllGone(port: PortState)
    requires port.connection < WRAP && port.reset < WRAP
    ensures forall pipe | CheckValid(pipe, port) :: Inert(pipe, port.AfterDisconnection())
    ensures forall pipe | CheckValid(pipe, port) :: CheckValid(pipe, port.AfterBusReset()) <==> pipe.address == 0
  {
    GenerationsDiffer(port);
    hide Next32;
  }

  lemma GenerationsDiffer(port: PortState)
    requires port.connection < WRAP && port.reset < WRAP
    ensures Next32(port.reset) != port.reset
    ensures Next32(port.connection) != port.connection && Next32(Next32(port.connection)) != port.connection
  {}

  // ----- the whole system ---------------------------------------------------------------

  /** Where one asynchronous call has got to. */
  datatype Task =
    | Idle
    | PipeDelayed(pipe: Pipe)
    | PipeQueued(pipe: Pipe)
    | PipeTouching(pipe: Pipe, atConn: nat, atResets: nat)
    | PipeReturning(pipe: Pipe, outcome: CallOutcome, atConn: nat, atResets: nat)
    | AttachQueued(speed: Speed, generation: nat, startConn: nat)
    | AttachMarked(speed: Speed, generation: nat, startConn: nat)
    | Attaching(speed: Speed, generation: nat, startConn: nat)
    | ResetQueued
    | ResetMarked
    | BusResetting
    | Closing(flagged: bool, failure: Option<PipeError>)
    | Servicing

  /** The consumer of events is away, about to look at the mailbox, or parked on the signal. */
  datatype Consumer = Away | Looking | Parked

  /** What has happened so far that the properties speak about. */
  datatype Entry =
    | EngineCall(pipe: Pipe, connected: bool, conn: nat, resets: nat)
    | EngineLeft(pipe: Pipe, atResets: nat, resets: nat)
    | Returned(pipe: Pipe, atConn: nat, atResets: nat, conn: nat, resets: nat)
    | Published(startConn: nat, conn: nat)

  /**
   * The consumer's side: `wake` is the event signal, and `owed` counts the
   * reports that have changed the mailbox but not yet signalled; `delivered`
   * is what the consumer has taken, `controllers` who was given the controller.
   */
  datatype Desk = Desk(wake: bool, owed: nat, consumer: Consumer, delivered: seq<DeviceEvent>,
                       taken: bool, controllers: seq<nat>)

  /** `conn` and `resets` number the generations without wrap-around. */
  datatype World = World(shared: Shared, owner: Option<nat>, tasks: map<nat, Task>, pipes: seq<Pipe>,
                         conn: nat, resets: nat, journal: seq<Entry>, desk: Desk) {
    function TaskOf(id: nat): Task { if id in tasks then tasks[id] else Idle }

    function Put(id: nat, task: Task): World { this.(tasks := tasks[id := task]) }

    function Acquire(id: nat, task: Task): World { this.(owner := Some(id), tasks := tasks[id := task]) }

    function Release(id: nat, task: Task): World { this.(owner := None, tasks := tasks[id := task]) }

    function Note(entry: Entry): World { this.(journal := journal + [entry]) }
  }

  datatype CallOutcome = Done(result: Result<(), PipeError>) | Retry

  datatype Action =
    | Allocate(address: nat)
    | StartPipeCall(id: nat, index: nat)
    | StartAttach(id: nat, speed: Speed)
    | StartControllerReset(id: nat)
    | StartFrame(id: nat)
    | DelayOver(id: nat)
    | LockEngine(id: nat)
    | EngineFinished(id: nat, outcome: CallOutcome)
    | Proceed(id: nat)
    | Cancel(id: nat)
    | Detach
    | GuardedDetach
    | OvercurrentReport
    | SignalWake
    | ConsumerCall
    | ConsumerLook
    | ConsumerWake
    | ConsumerDrop
    | TakeController(caller: nat)

  const START: World := World(INITIAL, None, map[], [], 0, 0, [], Desk(false, 0, Away, [], false, []))

  function Started(w: World, id: nat, task: Task): World {
    if w.TaskOf(id).Idle? then w.Put(id, task) else w
  }

  /** A queued task gets the engine. */
  function Locked(w: World, id: nat): World {
    match w.TaskOf(id)
    case PipeQueued(pipe) =>
      if CheckValid(pipe, w.shared.port)
      then w.Acquire(id, PipeTouching(pipe, w.conn, w.resets))
            .Note(EngineCall(pipe, w.shared.port.connected, w.conn, w.resets))
      else w.Put(id, Idle)
    case AttachQueued(speed, generation, startConn) =>
      w.Acquire(id, AttachMarked(speed, generation, startConn)).(shared := w.shared.AfterMark(), resets := w.resets + 1)
    case ResetQueued =>
      if w.shared.port.speed.None? then w.Put(id, Idle)
      else w.Acquire(id, ResetMarked).(shared := w.shared.AfterMark(), resets := w.resets + 1)
    case _ => w
  }

  /** The engine call of the owner is over. */
  function Finished(w: World, id: nat, outcome: CallOutcome): World {
    match w.TaskOf(id)
    case PipeTouching(pipe, atConn, atResets) =>
      w.Release(id, PipeReturning(pipe, outcome, atConn, atResets)).Note(EngineLeft(pipe, atResets, w.resets))
    case Attaching(speed, generation, startConn) =>
      if outcome.Retry? then w
      else if outcome.result.Err? then
        w.Put(id, Closing(false, Some(outcome.result.error))).(shared := w.shared.AfterActivityEnds())
      else
        var after := w.Put(id, Closing(true, None)).(shared := w.shared.AfterPublish(generation, speed));
        if w.shared.port.connection == generation
        then after.(conn := w.conn + 1, resets := w.resets + 1).Note(Published(startConn, w.conn))
        else after
    case BusResetting =>
      if outcome.Retry? then w
      else
        w.Put(id, Closing(false, if outcome.result.Err? then Some(outcome.result.error) else None))
         .(shared := w.shared.AfterActivityEnds())
    case Servicing => w.Release(id, Idle)
    case _ => w
  }

  /** A task goes on to its next critical section without suspending. */
  function Proceeded(w: World, id: nat): World {
    match w.TaskOf(id)
    case PipeReturning(pipe, outcome, atConn, atResets) =>
      if !CheckValid(pipe, w.shared.port) then w.Put(id, Idle)
      else if outcome.Retry? then w.Put(id, PipeDelayed(pipe))
      else if outcome.result.Ok? then w.Put(id, Idle).Note(Returned(pipe, atConn, atResets, w.conn, w.resets))
      else w.Put(id, Idle)
    case AttachMarked(speed, generation, startConn) =>
      w.Put(id, Attaching(speed, generation, startConn)).(shared := w.shared.AfterActivity())
    case ResetMarked => w.Put(id, BusResetting).(shared := w.shared.AfterActivity())
    case Closing(flagged, failure) =>
      var after := w.Release(id, Idle);
      if flagged then after.(shared := w.shared.AfterActivityEnds())
      else if failure.Some? then
        after.(shared := w.shared.AfterFailure(failure.value),
               conn := if failure.value == PipeError.Disconnected then w.conn + 1 else w.conn)
      else after
    case _ => w
  }

  /** The future is dropped where it is suspended; its guards release what it holds. */
  function Cancelled(w: World, id: nat): World {
    match w.TaskOf(id)
    case PipeTouching(_, _, _) => w.Release(id, Idle)
    case Servicing => w.Release(id, Idle)
    case Attaching(_, _, _) => w.Release(id, Idle).(shared := w.shared.AfterActivityEnds())
    case BusResetting => w.Release(id, Idle).(shared := w.shared.AfterActivityEnds())
    case PipeReturning(_, _, _, _) => w
    case AttachMarked(_, _, _) => w
    case ResetMarked => w
    case Closing(_, _) => w
    case _ => w.Put(id, Idle)
  }

  /** One action, but for the signal that a report still owes. */
  function Acted(w: World, a: Action): World {
    match a
    case Allocate(address) =>
      if w.shared.port.connected
      then w.(pipes := w.pipes + [Pipe(address, w.shared.port.connection, w.shared.port.reset, w.conn, w.resets)])
      else w
    case StartPipeCall(id, index) => if index < |w.pipes| then Started(w, id, PipeDelayed(w.pipes[index])) else w
    case StartAttach(id, speed) => Started(w, id, AttachQueued(speed, w.shared.port.connection, w.conn))
    case StartControllerReset(id) => Started(w, id, ResetQueued)
    case StartFrame(id) =>
      if w.TaskOf(id).Idle? && w.owner.None? && w.shared.port.speed in {Some(Low), Some(Full)}
      then w.Acquire(id, Servicing) else w
    case DelayOver(id) =>
      if w.TaskOf(id).PipeDelayed?
      then w.Put(id, if CheckValid(w.TaskOf(id).pipe, w.shared.port) then PipeQueued(w.TaskOf(id).pipe) else Idle)
      else w
    case LockEngine(id) => if w.owner.None? then Locked(w, id) else w
    case EngineFinished(id, outcome) => Finished(w, id, outcome)
    case Proceed(id) => Proceeded(w, id)
    case Cancel(id) => Cancelled(w, id)
    case Detach => w.(shared := w.shared.AfterDetach(), conn := w.conn + 1)
    case GuardedDetach =>
      w.(shared := w.shared.AfterGuardedDetach(), conn := if w.shared.resetting then w.conn else w.conn + 1)
    case OvercurrentReport => w.(shared := w.shared.AfterOvercurrent(), conn := w.conn + 1)
    case ConsumerLook => Looked(w)
    case _ => w.(desk := AtDesk(w.desk, a))
  }

  /** The signal and the consumer, apart from the mailbox. */
  function AtDesk(d: Desk, a: Action): Desk {
    match a
    case SignalWake => if d.owed > 0 then d.(wake := true, owed := d.owed - 1) else d
    case ConsumerCall => if d.consumer.Away? then d.(consumer := Looking) else d
    case ConsumerWake => if d.consumer.Parked? && d.wake then d.(wake := false, consumer := Looking) else d
    case ConsumerDrop => d.(consumer := Away)
    case TakeController(caller) => if d.taken then d else d.(taken := true, controllers := d.controllers + [caller])
    case _ => d
  }

  /** The consumer looks at the mailbox: it returns an event, or parks. */
  function Looked(w: World): World {
    var event := w.shared.pending.Taken();
    if !w.desk.consumer.Looking? then w
    else if event.None? then w.(desk := w.desk.(consumer := Parked))
    else
      w.(shared := w.shared.(pending := w.shared.pending.AfterTake()),
         desk := w.desk.(consumer := Away, delivered := w.desk.delivered + [event.value]))
  }

  /** The event that an action puts into the mailbox. */
  function Report(w: World, a: Action): Option<DeviceEvent> {
    match a
    case Detach => Some(DeviceEvent.Disconnected)
    case GuardedDetach => if w.shared.resetting then None else Some(DeviceEvent.Disconnected)
    case OvercurrentReport => Some(Overcurrent)
    case EngineFinished(id, outcome) =>
      var task := w.TaskOf(id);
      if task.Attaching? && outcome.Done? && outcome.result.Ok? && w.shared.port.connection == task.generation
      then Some(Connected(task.speed))
      else None
    case Proceed(id) =>
      if w.TaskOf(id).Closing? && !w.TaskOf(id).flagged && w.TaskOf(id).failure == Some(PipeError.Disconnected)
      then Some(DeviceEvent.Disconnected)
      else None
    case _ => None
  }

  function Next(w: World, a: Action): World {
    var after := Acted(w, a);
    if Report(w, a).Some? then after.(desk := after.desk.(owed := after.desk.owed + 1)) else after
  }

  function Run(actions: seq<Action>): World {
    if actions == [] then START else Next(Run(actions[..|actions| - 1]), actions[|actions| - 1])
  }

  // ----- invariants ---------------------------------------------------------------------

  predicate Owns(task: Task) {
    || task.PipeTouching? || task.Servicing? || task.Closing?
    || task.AttachMarked? || task.Attaching? || task.ResetMarked? || task.BusResetting?
  }

  /** A resetter from raising the reset flag to lowering it. */
  predicate Resets(task: Task) { task.Attaching? || task.BusResetting? || (task.Closing? && task.flagged) }

  ghost predicate Numbered(w: World) {
    && w.shared.port.connection == w.conn % WRAP
    && w.shared.port.reset == w.resets % WRAP
    && (w.shared.port.connected <==> w.shared.port.speed.Some?)
  }

  ghost predicate PipeNumbered(w: World, pipe: Pipe) {
    && pipe.allocConn <= w.conn && pipe.connection == pipe.allocConn % WRAP
    && pipe.allocResets <= w.resets && pipe.reset == pipe.allocResets % WRAP
  }

  /** What a pipe that passed its check with the engine in hand may rely on. */
  ghost predicate Touched(w: World, pipe: Pipe, atConn: nat, atResets: nat) {
    && PipeNumbered(w, pipe) && atConn <= w.conn && atResets <= w.resets
    && pipe.connection == atConn % WRAP && (pipe.address != 0 ==> pipe.reset == atResets % WRAP)
  }

  ghost predicate TaskNumbered(w: World, task: Task) {
    match task
    case PipeDelayed(pipe) => PipeNumbered(w, pipe)
    case PipeQueued(pipe) => PipeNumbered(w, pipe)
    case PipeTouching(pipe, atConn, atResets) => Touched(w, pipe, atConn, atResets) && atResets == w.resets
    case PipeReturning(pipe, _, atConn, atResets) => Touched(w, pipe, atConn, atResets)
    case AttachQueued(_, generation, startConn) => startConn <= w.conn && generation == startConn % WRAP
    case AttachMarked(_, generation, startConn) => startConn <= w.conn && generation == startConn % WRAP
    case Attaching(_, generation, startConn) => startConn <= w.conn && generation == startConn % WRAP
    case _ => true
  }

  /** The engine has at most one owner, and the reset flag is set exactly while a resetter is that owner. */
  ghost predicate Exclusive(w: World) {
    && (forall id | id in w.tasks :: Owns(w.tasks[id]) <==> w.owner == Some(id))
    && (w.owner.Some? ==> w.owner.value in w.tasks)
    && (w.shared.resetting <==> w.owner.Some? && Resets(w.TaskOf(w.owner.value)))
  }

  ghost predicate AllNumbered(w: World) {
    && (forall id | id in w.tasks :: TaskNumbered(w, w.tasks[id]))
    && (forall i | 0 <= i < |w.pipes| :: PipeNumbered(w, w.pipes[i]))
  }

  /** Fewer than 2^32 changes in between: equal generations mean that nothing changed. */
  lemma SameGeneration(before: nat, now: nat)
    requires before <= now < before + WRAP && before % WRAP == now % WRAP
    ensures before == now
  {
    assert before == before / WRAP * WRAP + before % WRAP;
    assert now == now / WRAP * WRAP + now % WRAP;
    assert now - before == (now / WRAP - before / WRAP) * WRAP;
  }

  ghost predicate Good(entry: Entry) {
    match entry
    case EngineCall(pipe, connected, conn, resets) =>
      && connected
      && (conn < pipe.allocConn + WRAP ==> conn == pipe.allocConn)
      && (pipe.address != 0 && resets < pipe.allocResets + WRAP ==> resets == pipe.allocResets)
    case EngineLeft(_, atResets, resets) => resets == atResets
    case Returned(pipe, atConn, atResets, conn, resets) =>
      && (pipe.address != 0 && resets < atResets + WRAP ==> resets == atResets)
      && (conn < atConn + WRAP ==> conn == atConn)
      && (conn < pipe.allocConn + WRAP ==> conn == pipe.allocConn)
      && (pipe.address != 0 && resets < pipe.allocResets + WRAP ==> resets == pipe.allocResets)
    case Published(startConn, conn) => conn < startConn + WRAP ==> conn == startConn
  }

  ghost predicate Inv(w: World) {
    && Numbered(w) && Exclusive(w) && AllNumbered(w)
    && forall i | 0 <= i < |w.journal| :: Good(w.journal[i])
  }

  lemma OneMore(n: nat)
    ensures Next32(n % WRAP) == (n + 1) % WRAP
  {}

  lemma ValidIsCurrent(w: World, pipe: Pipe)
    requires Numbered(w) && PipeNumbered(w, pipe) && CheckValid(pipe, w.shared.port)
    ensures w.conn < pipe.allocConn + WRAP ==> w.conn == pipe.allocConn
    ensures pipe.address != 0 && w.resets < pipe.allocResets + WRAP ==> w.resets == pipe.allocResets
  {
    if w.conn < pipe.allocConn + WRAP { SameGeneration(pipe.allocConn, w.conn); }
    if pipe.address != 0 && w.resets < pipe.allocResets + WRAP { SameGeneration(pipe.allocResets, w.resets); }
  }

  /** Counters may advance under a task that does not hold the engine; an owner sees no reset. */
  lemma StillNumbered(w: World, next: World, task: Task)
    requires TaskNumbered(w, task) && w.conn <= next.conn && w.resets <= next.resets
    requires task.PipeTouching? ==> next.resets == w.resets
    ensures TaskNumbered(next, task)
  {}

  lemma TasksStillNumbered(w: World, next: World)
    requires AllNumbered(w) && w.conn <= next.conn && w.resets <= next.resets
    requires next.tasks == w.tasks && next.pipes == w.pipes
    requires next.resets == w.resets || forall id | id in w.tasks :: !w.tasks[id].PipeTouching?
    ensures AllNumbered(next)
  {
    forall id | id in next.tasks ensures TaskNumbered(next, next.tasks[id]) {
      StillNumbered(w, next, w.tasks[id]);
    }
  }

  /** One task changes, and counters may advance. */
  lemma OneTaskChanges(w: World, next: World, id: nat, task: Task)
    requires AllNumbered(w) && w.conn <= next.conn && w.resets <= next.resets
    requires next.tasks == w.tasks[id := task] && next.pipes == w.pipes
    requires TaskNumbered(next, task)
    requires next.resets == w.resets || forall k | k in w.tasks && k != id :: !w.tasks[k].PipeTouching?
    ensures AllNumbered(next)
  {
    forall k | k in next.tasks ensures TaskNumbered(next, next.tasks[k]) {
      if k != id { StillNumbered(w, next, w.tasks[k]); }
    }
  }

  lemma NumberedByOwner(w: World, id: nat)
    requires AllNumbered(w)
    ensures TaskNumbered(w, w.TaskOf(id))
  {}

  lemma LockedKeeps(w: World, id: nat)
    requires Inv(w) && w.owner.None?
    ensures Inv(Locked(w, id))
  {
    var next := Locked(w, id);
    NumberedByOwner(w, id);
    OneMore(w.resets);
    match w.TaskOf(id)
    case PipeQueued(pipe) =>
      OneTaskChanges(w, next, id, next.TaskOf(id));
      if CheckValid(pipe, w.shared.port) { ValidIsCurrent(w, pipe); }
    case AttachQueued(_, _, _) => OneTaskChanges(w, next, id, next.TaskOf(id));
    case ResetQueued => OneTaskChanges(w, next, id, next.TaskOf(id));
    case _ =>
  }

  lemma PipeFinishedKeeps(w: World, id: nat, outcome: CallOutcome)
    requires Inv(w) && w.TaskOf(id).PipeTouching?
    ensures Inv(Finished(w, id, outcome))
  {
    var next := Finished(w, id, outcome);
    NumberedByOwner(w, id);
    OneTaskChanges(w, next, id, next.TaskOf(id));
  }

  lemma PipeReturnsKeeps(w: World, id: nat)
    requires Inv(w) && w.TaskOf(id).PipeReturning?
    ensures Inv(Proceeded(w, id))
  {
    var next := Proceeded(w, id);
    NumberedByOwner(w, id);
    OneTaskChanges(w, next, id, next.TaskOf(id));
    var PipeReturning(pipe, _, atConn, atResets) := w.TaskOf(id);
    if CheckValid(pipe, w.shared.port) {
      ValidIsCurrent(w, pipe);
      if w.conn < atConn + WRAP { SameGeneration(atConn, w.conn); }
      if pipe.address != 0 && w.resets < atResets + WRAP { SameGeneration(atResets, w.resets); }
    }
  }

  lemma AttachFinishedKeeps(w: World, id: nat, outcome: CallOutcome)
    requires Inv(w) && w.TaskOf(id).Attaching? && outcome.Done?
    ensures Inv(Finished(w, id, outcome))
  {
    var next := Finished(w, id, outcome);
    NumberedByOwner(w, id);
    OneMore(w.conn);
    OneMore(w.resets);
    OneTaskChanges(w, next, id, next.TaskOf(id));
    var Attaching(_, generation, startConn) := w.TaskOf(id);
    if w.shared.port.connection == generation && w.conn < startConn + WRAP { SameGeneration(startConn, w.conn); }
  }

  lemma FinishedKeeps(w: World, id: nat, outcome: CallOutcome)
    requires Inv(w)
    ensures Inv(Finished(w, id, outcome))
  {
    var next := Finished(w, id, outcome);
    match w.TaskOf(id)
    case PipeTouching(_, _, _) => PipeFinishedKeeps(w, id, outcome);
    case Attaching(_, _, _) => if outcome.Done? { AttachFinishedKeeps(w, id, outcome); }
    case BusResetting => if outcome.Done? { OneTaskChanges(w, next, id, next.TaskOf(id)); }
    case Servicing => OneTaskChanges(w, next, id, Idle);
    case _ =>
  }

  lemma ProceededKeeps(w: World, id: nat)
    requires Inv(w)
    ensures Inv(Proceeded(w, id))
  {
    var next := Proceeded(w, id);
    NumberedByOwner(w, id);
    match w.TaskOf(id)
    case PipeReturning(_, _, _, _) => PipeReturnsKeeps(w, id);
    case AttachMarked(_, _, _) => OneTaskChanges(w, next, id, next.TaskOf(id));
    case ResetMarked => OneTaskChanges(w, next, id, next.TaskOf(id));
    case Closing(_, _) =>
      OneMore(w.conn);
      OneTaskChanges(w, next, id, Idle);
    case _ =>
  }

  lemma CancelledKeeps(w: World, id: nat)
    requires Inv(w)
    ensures Inv(Cancelled(w, id))
  {
    if Cancelled(w, id) != w { OneTaskChanges(w, Cancelled(w, id), id, Idle); }
  }

  lemma StartedKeeps(w: World, id: nat, task: Task)
    requires Inv(w) && TaskNumbered(w, task) && !Owns(task)
    ensures Inv(Started(w, id, task))
  {
    if w.TaskOf(id).Idle? { OneTaskChanges(w, Started(w, id, task), id, task); }
  }

  lemma PortChangeKeeps(w: World, next: World)
    requires Inv(w) && next.conn == w.conn + 1
    requires next == w.(shared := next.shared, conn := next.conn)
    requires next.shared.port == w.shared.port.AfterDisconnection() && next.shared.resetting == w.shared.resetting
    ensures Inv(next)
  {
    OneMore(w.conn);
    TasksStillNumbered(w, next);
  }

  /** Signal, consumer and controller are no concern of the generations. */
  lemma MailboxStepKeeps(w: World, next: World)
    requires Inv(w)
    requires next.(shared := w.shared, desk := w.desk) == w
    requires next.shared.(pending := w.shared.pending) == w.shared
    ensures Inv(next)
  {
    TasksStillNumbered(w, next);
  }

  /** Every action keeps the generations numbered, the engine owned at most once, and the journal good. */
  lemma NextKeeps(w: World, a: Action)
    requires Inv(w)
    ensures Inv(Next(w, a))
  {
    ActedKeeps(w, a);
    hide Acted, Report;
    MailboxStepKeeps(Acted(w, a), Next(w, a));
  }

  lemma StartsKeep(w: World, a: Action)
    requires Inv(w) && (a.StartPipeCall? || a.StartAttach? || a.StartControllerReset?)
    ensures Inv(Acted(w, a))
  {
    match a
    case StartPipeCall(id, index) => if index < |w.pipes| { StartedKeeps(w, id, PipeDelayed(w.pipes[index])); }
    case StartAttach(id, speed) => StartedKeeps(w, id, AttachQueued(speed, w.shared.port.connection, w.conn));
    case StartControllerReset(id) => StartedKeeps(w, id, ResetQueued);
  }

  lemma WaitingKeeps(w: World, a: Action)
    requires Inv(w) && (a.StartFrame? || a.DelayOver? || a.Allocate?)
    ensures Inv(Acted(w, a))
  {
    var next := Acted(w, a);
    match a
    case StartFrame(id) => if next != w { OneTaskChanges(w, next, id, Servicing); }
    case DelayOver(id) =>
      NumberedByOwner(w, id);
      if w.TaskOf(id).PipeDelayed? { OneTaskChanges(w, next, id, next.TaskOf(id)); }
    case Allocate(_) =>
  }

  lemma ReportsKeep(w: World, a: Action)
    requires Inv(w) && (a.Detach? || a.GuardedDetach? || a.OvercurrentReport?)
    ensures Inv(Acted(w, a))
  {
    if !(a.GuardedDetach? && w.shared.resetting) { PortChangeKeeps(w, Acted(w, a)); }
  }

  lemma ActedKeeps(w: World, a: Action)
    requires Inv(w)
    ensures Inv(Acted(w, a))
  {
    hide Inv;
    match a
    case LockEngine(id) => if w.owner.None? { LockedKeeps(w, id); }
    case EngineFinished(id, outcome) => FinishedKeeps(w, id, outcome);
    case Proceed(id) => ProceededKeeps(w, id);
    case Cancel(id) => CancelledKeeps(w, id);
    case StartPipeCall(_, _) => StartsKeep(w, a);
    case StartAttach(_, _) => StartsKeep(w, a);
    case StartControllerReset(_) => StartsKeep(w, a);
    case StartFrame(_) => WaitingKeeps(w, a);
    case DelayOver(_) => WaitingKeeps(w, a);
    case Allocate(_) => WaitingKeeps(w, a);
    case Detach => ReportsKeep(w, a);
    case GuardedDetach => ReportsKeep(w, a);
    case OvercurrentReport => ReportsKeep(w, a);
    case _ => MailboxStepKeeps(w, Acted(w, a));
  }

  // ----- what holds over every interleaving ---------------------------------------------

  /** The invariants hold after any interleaving of calls, reports, resets and cancellations. */
  lemma {:induction false} Invariant(actions: seq<Action>)
    ensures Inv(Run(actions))
  {
    if actions != [] {
      Invariant(actions[..|actions| - 1]);
      hide Inv, Next;
      NextKeeps(Run(actions[..|actions| - 1]), actions[|actions| - 1]);
    }
  }

  /**
   * Stale pipes are inert. In every run: an engine call starts only on a
   * connected port, with no connection change (and, for an addressed device,
   * no reset) since the pipe was allocated; no reset falls into an engine call;
   * a call that returns success saw no connection change (and, for an addressed
   * device, no reset) from taking the engine to its return, after the engine is
   * given back; and an attachment is published only if no connection change
   * occurred since the reset call began. (Fewer than 2^32 changes in between.)
   */
  lemma JournalIsGood(actions: seq<Action>, i: nat)
    requires i < |Run(actions).journal|
    ensures Good(Run(actions).journal[i])
  {
    Invariant(actions);
  }

  /** A pipe whose connection is gone, or whose device was reset since, fails every validity check. */
  lemma StalePipeIsInvalid(actions: seq<Action>, index: nat)
    requires index < |Run(actions).pipes|
    ensures var w := Run(actions);
      var pipe := w.pipes[index];
      && (pipe.allocConn < w.conn < pipe.allocConn + WRAP ==> !CheckValid(pipe, w.shared.port))
      && (pipe.address != 0 && pipe.allocResets < w.resets < pipe.allocResets + WRAP ==>
        !CheckValid(pipe, w.shared.port))
      && (pipe.address == 0 && w.conn == pipe.allocConn && w.shared.port.connected ==> CheckValid(pipe, w.shared.port))
  {
    Invariant(actions);
    var w := Run(actions);
    var pipe := w.pipes[index];
    hide Run;
    if CheckValid(pipe, w.shared.port) { ValidIsCurrent(w, pipe); }
  }

  function Actor(a: Action): Option<nat> {
    match a
    case LockEngine(id) => Some(id)
    case EngineFinished(id, _) => Some(id)
    case _ => None
  }

  /** Reset generations move only in steps of a task that holds the engine, alone. */
  lemma ResetsMoveUnderTheLock(actions: seq<Action>, a: Action)
    ensures var w := Run(actions); var next := Next(w, a);
      next.resets != w.resets || next.shared.port.reset != w.shared.port.reset ==>
        && Actor(a).Some?
        && (w.owner == Actor(a) || (w.owner.None? && next.owner == Actor(a)))
  {
    Invariant(actions);
    hide Run;
    var w := Run(actions);
    match a
    case EngineFinished(id, _) => assert Owns(w.TaskOf(id)) ==> w.owner == Some(id);
    case _ =>
  }

  /**
   * The reset flag is set exactly while a resetter that raised it owns the
   * engine; that resetter's completion and error clear it in its next critical
   * sections, and its cancellation, where it is suspended, at once; and while
   * the flag is set a guarded detach changes nothing.
   */
  lemma ResetFlag(actions: seq<Action>, result: Result<(), PipeError>)
    ensures var w := Run(actions);
      && (w.shared.resetting <==> w.owner.Some? && Resets(w.TaskOf(w.owner.value)))
      && (w.shared.resetting ==>
            var id := w.owner.value;
            var over, dropped := Next(Next(w, EngineFinished(id, Done(result))), Proceed(id)), Next(w, Cancel(id));
            && !over.shared.resetting && over.owner.None?
            && (w.TaskOf(id).Closing? || (!dropped.shared.resetting && dropped.owner.None?))
            && Next(w, GuardedDetach) == w)
  {
    Invariant(actions);
    hide Run;
    var w := Run(actions);
    if w.shared.resetting {
      hide Inv, Next;
      FlagClears(w, w.owner.value, result);
      if !w.TaskOf(w.owner.value).Closing? { DropClears(w, w.owner.value); }
      GuardedIsInert(w);
    }
  }

  lemma FlagClears(w: World, id: nat, result: Result<(), PipeError>)
    requires Resets(w.TaskOf(id)) && w.owner == Some(id)
    ensures var over := Next(Next(w, EngineFinished(id, Done(result))), Proceed(id));
      !over.shared.resetting && over.owner.None?
  {
    FinishedCloses(w, id, result);
    hide Next;
    ProceedClears(Next(w, EngineFinished(id, Done(result))), id);
  }

  lemma FinishedCloses(w: World, id: nat, result: Result<(), PipeError>)
    requires Resets(w.TaskOf(id)) && w.owner == Some(id)
    ensures var next := Next(w, EngineFinished(id, Done(result)));
      && next.owner == Some(id) && next.TaskOf(id).Closing?
      && (next.TaskOf(id).flagged || !next.shared.resetting)
  {}

  lemma ProceedClears(w: World, id: nat)
    requires w.TaskOf(id).Closing? && (w.TaskOf(id).flagged || !w.shared.resetting)
    ensures var next := Next(w, Proceed(id)); !next.shared.resetting && next.owner.None?
  {}

  lemma DropClears(w: World, id: nat)
    requires Resets(w.TaskOf(id)) && !w.TaskOf(id).Closing?
    ensures var next := Next(w, Cancel(id)); !next.shared.resetting && next.owner.None?
  {}

  lemma GuardedIsInert(w: World)
    requires w.shared.resetting
    ensures Next(w, GuardedDetach) == w
  {}

  /** Endpoint-zero pipes at address zero survive a reset; all pipes die with the connection. */
  lemma ResetSparesAddressZero(pipe: Pipe, port: PortState)
    requires CheckValid(pipe, port) && port.connection < WRAP && port.reset < WRAP
    ensures CheckValid(pipe, port.AfterBusReset()) <==> pipe.address == 0
    ensures !CheckValid(pipe, port.AfterDisconnection())
    ensures forall speed :: !CheckValid(pipe, port.AfterDisconnection().AfterConnection(speed))
  {
    GenerationsDiffer(port);
  }

  // ----- the port and its mailbox -------------------------------------------------------

  /** What the actions did to the mailbox. */
  function Ops(actions: seq<Action>): seq<Operation> {
    if actions == [] then []
    else
      var w, a := Run(actions[..|actions| - 1]), actions[|actions| - 1];
      Ops(actions[..|actions| - 1])
      + (if Report(w, a).Some? then [Pushed(Report(w, a).value)]
         else if a.ConsumerLook? && w.desk.consumer.Looking? then [Take] else [])
  }

  /**
   * The mailbox is that of the operations, the consumer got what they delivered, and the port is as
   * the last event says.
   */
  ghost predicate Coupled(w: World, ops: seq<Operation>) {
    && Replay(ops).box == w.shared.pending
    && Replay(ops).delivered == w.desk.delivered
    && View(Log(ops)) == w.shared.port.speed
  }

  lemma ReplayMore(ops: seq<Operation>, op: Operation)
    ensures Replay(ops + [op]) == Perform(Replay(ops), op)
    ensures Log(ops + [op]) == Log(ops) + (if op.Pushed? then [op.event] else [])
  {
    hide Perform;
    assert (ops + [op])[..|ops|] == ops;
  }

  /** An action that reports puts its event into the mailbox and leaves the port as that event says. */
  lemma ReportShows(w: World, a: Action)
    ensures var next := Next(w, a);
      if Report(w, a).Some? then
        && next.shared.pending == w.shared.pending.Push(Report(w, a).value) && next.desk.delivered == w.desk.delivered
        && next.shared.port.speed == View([Report(w, a).value])
      else
        && next.shared.port.speed == w.shared.port.speed
        && (a.ConsumerLook? || (next.shared.pending == w.shared.pending && next.desk.delivered == w.desk.delivered))
  {
    hide CheckValid;
  }

  lemma LastShows(log: seq<DeviceEvent>, event: DeviceEvent)
    ensures View(log + [event]) == View([event])
  {}

  lemma StepCouples(w: World, ops: seq<Operation>, a: Action)
    requires Coupled(w, ops)
    ensures Report(w, a).Some? ==> Coupled(Next(w, a), ops + [Pushed(Report(w, a).value)])
    ensures Report(w, a).None? && a.ConsumerLook? && w.desk.consumer.Looking? ==> Coupled(Next(w, a), ops + [Take])
    ensures Report(w, a).None? && !(a.ConsumerLook? && w.desk.consumer.Looking?) ==> Coupled(Next(w, a), ops)
  {
    ReportShows(w, a);
    if Report(w, a).Some? {
      var event := Report(w, a).value;
      ReplayMore(ops, Pushed(event));
      LastShows(Log(ops), event);
    } else if a.ConsumerLook? && w.desk.consumer.Looking? {
      ReplayMore(ops, Take);
      assert Log(ops) + [] == Log(ops);
    }
    hide Replay, Log, View;
  }

  lemma {:induction false} MailboxFollowsThePort(actions: seq<Action>)
    ensures Coupled(Run(actions), Ops(actions))
  {
    if actions != [] {
      var before := actions[..|actions| - 1];
      MailboxFollowsThePort(before);
      hide Coupled, Next, Report;
      StepCouples(Run(before), Ops(before), actions[|actions| - 1]);
      assert Ops(before) + [] == Ops(before);
    }
  }

  /**
   * After any interleaving, draining the mailbox brings the consumer's view to
   * the state of the port that the validity checks read: the last of the
   * events taken and still to be taken is a Connected with the port's speed
   * exactly while the port is connected.
   */
  lemma DrainingShowsThePort(actions: seq<Action>)
    ensures var w := Run(actions);
      && View(w.desk.delivered + Drained(w.shared.pending)) == w.shared.port.speed
      && (w.shared.port.connected <==> w.shared.port.speed.Some?)
  {
    Invariant(actions);
    MailboxFollowsThePort(actions);
    DrainingShowsTheLog(Ops(actions));
  }

  /**
   * What the next event taken tells, after any interleaving: a Connected
   * carries the speed of a port that is connected now, and comes only when
   * every detach reported before has been delivered; an overcurrent that has
   * been reported and not delivered comes next.
   */
  lemma NextEventIsCurrent(actions: seq<Action>, event: DeviceEvent)
    requires Run(actions).shared.pending.Taken() == Some(event)
    ensures var w, unseen := Run(actions), Replay(Ops(actions)).unseen;
      && (event.Connected? ==>
            && w.shared.port.connected && w.shared.port.speed == Some(event.speed)
            && forall e | e in unseen :: e.Connected?)
      && (Overcurrent in unseen <==> event == Overcurrent)
  {
    Invariant(actions);
    MailboxFollowsThePort(actions);
    NextEvent(Ops(actions), event);
    hide Replay;
  }

  /** A parked consumer with pending work always has a wake-up set or in flight. */
  lemma {:induction false} NoLostWakeup(actions: seq<Action>)
    ensures var w := Run(actions);
      w.desk.consumer.Parked? && w.shared.pending.Taken().Some? ==> w.desk.wake || w.desk.owed > 0
  {
    if actions != [] {
      var before := actions[..|actions| - 1];
      NoLostWakeup(before);
      WakeStep(Run(before), actions[|actions| - 1]);
      hide Next;
    }
  }

  lemma WakeStep(w: World, a: Action)
    requires w.desk.consumer.Parked? && w.shared.pending.Taken().Some? ==> w.desk.wake || w.desk.owed > 0
    ensures var next := Next(w, a);
      next.desk.consumer.Parked? && next.shared.pending.Taken().Some? ==> next.desk.wake || next.desk.owed > 0
  {
    ReportShows(w, a);
  }

  /** Whoever asks first, and nobody else, gets the controller. */
  function Callers(actions: seq<Action>): seq<nat> {
    if actions == [] then []
    else
      var last := actions[|actions| - 1];
      Callers(actions[..|actions| - 1]) + (if last.TakeController? then [last.caller] else [])
  }

  lemma {:induction false} OneController(actions: seq<Action>)
    ensures Run(actions).desk.controllers == if Callers(actions) == [] then [] else [Callers(actions)[0]]
    ensures Run(actions).desk.taken <==> Callers(actions) != []
  {
    if actions != [] {
      OneController(actions[..|actions| - 1]);
      ControllerStep(Run(actions[..|actions| - 1]), actions[|actions| - 1]);
      hide Next;
    }
  }

  lemma ControllerStep(w: World, a: Action)
    ensures Next(w, a).desk.taken == (w.desk.taken || a.TakeController?)
    ensures Next(w, a).desk.controllers == if a.TakeController? && !w.desk.taken then w.desk.controllers + [a.caller]
      else w.desk.controllers
  {}
}
