/**
 * Runs of the shared host state, seen from outside: a detach is an action that
 * reports one, a bus reset is a task that takes the engine for it. The counters
 * that number the generations are spoken of only in proofs.
 */
module HostRuns {
  import opened UsbTypes
  import opened Mailbox
  import opened HostState

  /** The world before the k-th action. */
  function At(actions: seq<Action>, k: nat): World
    requires k <= |actions|
  {
    Run(actions[..k])
  }

  lemma StepAt(actions: seq<Action>, k: nat)
    requires k < |actions|
    ensures At(actions, k + 1) == Next(At(actions, k), actions[k])
    ensures Inv(At(actions, k)) && Inv(At(actions, k + 1))
  {
    hide Next, Inv;
    assert actions[..k + 1][..k] == actions[..k];
    Invariant(actions[..k]);
    Invariant(actions[..k + 1]);
  }

  // ----- what is seen of a step -----------------------------------------------------------

  /** The action reports that the device is gone. */
  predicate ReportsGone(w: World, a: Action) {
    || a.Detach? || a.OvercurrentReport?
    || (a.GuardedDetach? && !w.shared.resetting)
    || (a.Proceed? && w.TaskOf(a.id) == Closing(false, Some(PipeError.Disconnected)))
  }

  /** The step publishes a new connection. */
  predicate Publishes(w: World, next: World) {
    next.shared.port.connected && next.shared.port.connection != w.shared.port.connection
  }

  /** A task takes the engine to reset the bus, for an attachment or for the controller. */
  predicate TakesForReset(w: World, next: World) {
    && w.owner.None? && next.owner.Some?
    && (w.TaskOf(next.owner.value).AttachQueued? || w.TaskOf(next.owner.value).ResetQueued?)
  }

  /** The step allocates this pipe. */
  predicate Allocates(w: World, next: World, pipe: Pipe) { next.pipes == w.pipes + [pipe] }

  /** What a step says of the connection generation. */
  ghost predicate ConnectionFits(w: World, a: Action, next: World) {
    var changed := next.shared.port.connection != w.shared.port.connection;
    && (changed <==> ReportsGone(w, a) || Publishes(w, next))
    && (ReportsGone(w, a) ==> !next.shared.port.connected)
    && (!ReportsGone(w, a) && w.shared.port.connected ==> next.shared.port.connected)
    && next.conn == if changed then w.conn + 1 else w.conn
  }

  lemma FinishConnects(w: World, id: nat, outcome: CallOutcome)
    requires Numbered(w)
    ensures ConnectionFits(w, EngineFinished(id, outcome), Finished(w, id, outcome))
  {
    GenerationsDiffer(w.shared.port);
    hide PendingEvents.Push;
  }

  lemma ProceedConnects(w: World, id: nat)
    requires Numbered(w)
    ensures ConnectionFits(w, Proceed(id), Proceeded(w, id))
  {
    GenerationsDiffer(w.shared.port);
    hide PendingEvents.Push, CheckValid;
  }

  lemma OthersConnect(w: World, a: Action)
    requires Numbered(w) && !a.Proceed? && !a.EngineFinished?
    ensures ConnectionFits(w, a, Acted(w, a))
  {
    GenerationsDiffer(w.shared.port);
    hide CheckValid, Next32, PendingEvents.Push, PendingEvents.AfterTake, PendingEvents.Taken, AtDesk;
  }

  /** Detaches and attachments are new connections, and nothing else is. */
  lemma ConnectionStep(w: World, a: Action)
    requires Numbered(w)
    ensures ConnectionFits(w, a, Next(w, a))
  {
    match a {
      case EngineFinished(id, outcome) => FinishConnects(w, id, outcome);
      case Proceed(id) => ProceedConnects(w, id);
      case _ => OthersConnect(w, a);
    }
    hide Locked, Finished, Proceeded, Cancelled, Report, Looked, AtDesk, Numbered;
    OnlyDeskOwes(w, a);
  }

  /** What a step says of the reset generation. */
  ghost predicate ResetFits(w: World, next: World) {
    var changed := next.shared.port.reset != w.shared.port.reset;
    && (changed <==> TakesForReset(w, next) || Publishes(w, next))
    && (changed ==> next.shared.port.reset == (w.shared.port.reset + 1) % 0x1_0000_0000)
    && next.resets == if changed then w.resets + 1 else w.resets
  }

  lemma LockFits(w: World, id: nat)
    requires Numbered(w) && w.owner.None?
    ensures ResetFits(w, Locked(w, id))
  {
    GenerationsDiffer(w.shared.port);
    hide CheckValid;
  }

  lemma FinishFits(w: World, id: nat, outcome: CallOutcome)
    requires Numbered(w) && Exclusive(w)
    ensures ResetFits(w, Finished(w, id, outcome))
  {
    GenerationsDiffer(w.shared.port);
    hide PendingEvents.Push;
  }

  lemma OthersFit(w: World, a: Action)
    requires Numbered(w) && !a.LockEngine? && !a.EngineFinished?
    ensures ResetFits(w, Acted(w, a))
  {
    hide CheckValid, Next32, PendingEvents.Push, PendingEvents.AfterTake, PendingEvents.Taken, AtDesk;
  }

  /** Whoever takes the engine for a reset, and whoever publishes, is a new reset generation, and nobody else is. */
  lemma ResetStep(w: World, a: Action)
    requires Inv(w)
    ensures ResetFits(w, Next(w, a))
  {
    match a {
      case LockEngine(id) => if w.owner.None? { LockFits(w, id); }
      case EngineFinished(id, outcome) => FinishFits(w, id, outcome);
      case _ => OthersFit(w, a);
    }
    hide Locked, Finished, Proceeded, Cancelled, Report, Looked, AtDesk, Inv;
    OnlyDeskOwes(w, a);
  }

  lemma OnlyDeskOwes(w: World, a: Action)
    ensures Next(w, a) == Acted(w, a).(desk := Next(w, a).desk)
  {
    hide Acted, Report;
  }

  /** A pipe is numbered with the generations of its allocation, on a connected port, and never changes. */
  lemma PipeStep(w: World, a: Action)
    ensures var next := Next(w, a);
      next.pipes != w.pipes ==>
        && w.shared.port.connected && |next.pipes| == |w.pipes| + 1
        && Allocates(w, next, next.pipes[|w.pipes|])
        && next.pipes[|w.pipes|].allocConn == w.conn && next.pipes[|w.pipes|].allocResets == w.resets
        && next.shared == w.shared && next.conn == w.conn && next.resets == w.resets && next.owner == w.owner
  {
    hide CheckValid, PendingEvents.Push, PendingEvents.AfterTake, PendingEvents.Taken, AtDesk;
  }

  // ----- what is seen of a run ------------------------------------------------------------

  /** How often the connection generation has changed between two moments. */
  function ConnectionChanges(actions: seq<Action>, start: nat, end: nat): nat
    requires start <= end <= |actions|
  {
    if start == end then 0
    else ConnectionChanges(actions, start, end - 1)
         + if At(actions, end).shared.port.connection != At(actions, end - 1).shared.port.connection then 1 else 0
  }

  function ResetChanges(actions: seq<Action>, start: nat, end: nat): nat
    requires start <= end <= |actions|
  {
    if start == end then 0
    else ResetChanges(actions, start, end - 1)
         + if At(actions, end).shared.port.reset != At(actions, end - 1).shared.port.reset then 1 else 0
  }

  /** The step neither detaches nor attaches and, for an addressed device, does not reset the bus. */
  predicate Calm(w: World, a: Action, next: World, address: nat) {
    !ReportsGone(w, a) && !Publishes(w, next) && (address != 0 ==> !TakesForReset(w, next))
  }

  /** Nothing in between has changed the generations that a pipe for this address depends on. */
  ghost predicate Undisturbed(actions: seq<Action>, start: nat, end: nat, address: nat)
    requires start <= end <= |actions|
  {
    forall j | start <= j < end :: Calm(At(actions, j), actions[j], At(actions, j + 1), address)
  }

  lemma {:induction false} CountersOver(actions: seq<Action>, start: nat, end: nat)
    requires start <= end <= |actions|
    ensures At(actions, end).conn == At(actions, start).conn + ConnectionChanges(actions, start, end)
    ensures At(actions, end).resets == At(actions, start).resets + ResetChanges(actions, start, end)
    decreases end
  {
    hide *;
    NothingYet(actions, start, 0);
    if start < end {
      CountersOver(actions, start, end - 1);
      OneMoreChange(actions, start, end);
      StepAt(actions, end - 1);
      StepCounts(At(actions, end - 1), actions[end - 1]);
    }
  }

  lemma StepCounts(w: World, a: Action)
    requires Inv(w)
    ensures var next := Next(w, a);
      && next.conn == w.conn + (if next.shared.port.connection != w.shared.port.connection then 1 else 0)
      && next.resets == w.resets + (if next.shared.port.reset != w.shared.port.reset then 1 else 0)
  {
    ConnectionStep(w, a);
    ResetStep(w, a);
    hide Inv, Next;
  }

  lemma OneMoreCalm(actions: seq<Action>, start: nat, end: nat, address: nat)
    requires start < end <= |actions|
    ensures Undisturbed(actions, start, end, address) <==>
      Undisturbed(actions, start, end - 1, address)
      && Calm(At(actions, end - 1), actions[end - 1], At(actions, end), address)
  {
    hide Calm, At;
  }

  lemma OneMoreChange(actions: seq<Action>, start: nat, end: nat)
    requires start < end <= |actions|
    ensures var before, after := At(actions, end - 1).shared.port, At(actions, end).shared.port;
      && ConnectionChanges(actions, start, end)
         == ConnectionChanges(actions, start, end - 1) + (if after.connection != before.connection then 1 else 0)
      && ResetChanges(actions, start, end)
         == ResetChanges(actions, start, end - 1) + (if after.reset != before.reset then 1 else 0)
  {
    hide At;
  }

  lemma NothingYet(actions: seq<Action>, start: nat, address: nat)
    requires start <= |actions|
    ensures Undisturbed(actions, start, start, address)
    ensures ConnectionChanges(actions, start, start) == ResetChanges(actions, start, start) == 0
  {
    hide Calm, At;
  }

  lemma CalmIff(w: World, a: Action, address: nat)
    requires Inv(w)
    ensures var before, after := w.shared.port, Next(w, a).shared.port;
      && (Calm(w, a, Next(w, a), address) <==>
            after.connection == before.connection && (address != 0 ==> after.reset == before.reset))
      && (Calm(w, a, Next(w, a), address) && before.connected ==> after.connected)
  {
    ConnectionStep(w, a);
    ResetStep(w, a);
    hide Inv, Next, ReportsGone, Publishes, TakesForReset;
  }

  lemma {:induction false} UndisturbedIff(actions: seq<Action>, start: nat, end: nat, address: nat)
    requires start <= end <= |actions|
    ensures Undisturbed(actions, start, end, address) <==>
      ConnectionChanges(actions, start, end) == 0 && (address != 0 ==> ResetChanges(actions, start, end) == 0)
    decreases end
  {
    hide *;
    NothingYet(actions, start, address);
    if start < end {
      UndisturbedIff(actions, start, end - 1, address);
      OneMoreStep(actions, start, end, address);
    }
  }

  lemma OneMoreStep(actions: seq<Action>, start: nat, end: nat, address: nat)
    requires start < end <= |actions|
    ensures ConnectionChanges(actions, start, end) >= ConnectionChanges(actions, start, end - 1)
    ensures ResetChanges(actions, start, end) >= ResetChanges(actions, start, end - 1)
    ensures Undisturbed(actions, start, end, address) <==>
      && Undisturbed(actions, start, end - 1, address)
      && ConnectionChanges(actions, start, end) == ConnectionChanges(actions, start, end - 1)
      && (address != 0 ==> ResetChanges(actions, start, end) == ResetChanges(actions, start, end - 1))
  {
    hide *;
    OneMoreCalm(actions, start, end, address);
    OneMoreChange(actions, start, end);
    StepAt(actions, end - 1);
    CalmIff(At(actions, end - 1), actions[end - 1], address);
  }

  lemma {:induction false} StaysConnected(actions: seq<Action>, start: nat, end: nat, address: nat)
    requires start <= end <= |actions| && Undisturbed(actions, start, end, address)
    requires At(actions, start).shared.port.connected
    ensures At(actions, end).shared.port.connected
    decreases end
  {
    hide *;
    if start < end {
      OneMoreCalm(actions, start, end, address);
      StaysConnected(actions, start, end - 1, address);
      StepAt(actions, end - 1);
      CalmIff(At(actions, end - 1), actions[end - 1], address);
    }
  }

  lemma {:induction false} PipesStay(actions: seq<Action>, start: nat, end: nat)
    requires start <= end <= |actions|
    ensures At(actions, start).pipes <= At(actions, end).pipes
    decreases end
  {
    hide *;
    if start < end {
      PipesStay(actions, start, end - 1);
      StepAt(actions, end - 1);
      PipesGrow(At(actions, end - 1), actions[end - 1]);
      PrefixesChain(At(actions, start).pipes, At(actions, end - 1).pipes, At(actions, end).pipes);
    }
  }

  lemma PipesGrow(w: World, a: Action)
    ensures w.pipes <= Next(w, a).pipes
  {
    PipeStep(w, a);
    hide Next;
  }

  lemma PrefixesChain<T>(a: seq<T>, b: seq<T>, c: seq<T>)
    requires a <= b <= c
    ensures a <= c
  {}

  /**
   * When a pipe is valid, after any interleaving: exactly as long as since its
   * allocation nothing has reported the device gone, no connection has been
   * published, and - for an addressed device - no task has taken the engine to
   * reset the bus. (Fewer than 2^32 changes in between.)
   */
  lemma PipeValidIff(actions: seq<Action>, k: nat, now: nat, pipe: Pipe)
    requires k < now <= |actions| && Allocates(At(actions, k), At(actions, k + 1), pipe)
    requires ConnectionChanges(actions, k + 1, now) < 0x1_0000_0000
    requires ResetChanges(actions, k + 1, now) < 0x1_0000_0000
    ensures CheckValid(pipe, At(actions, now).shared.port) <==> Undisturbed(actions, k + 1, now, pipe.address)
  {
    hide Next, At, Undisturbed, ConnectionChanges, ResetChanges, Inv, CheckValid, Allocates;
    StepAt(actions, k);
    CountersOver(actions, k + 1, now);
    UndisturbedIff(actions, k + 1, now, pipe.address);
    if Undisturbed(actions, k + 1, now, pipe.address) && At(actions, k + 1).shared.port.connected {
      StaysConnected(actions, k + 1, now, pipe.address);
    }
    StepAt(actions, now - 1);
    PipesStay(actions, k + 1, now);
    AllocatedNow(At(actions, k), actions[k], pipe);
    ValidIff(At(actions, k + 1), At(actions, now), pipe);
  }

  lemma AllocatedNow(w: World, a: Action, pipe: Pipe)
    requires Inv(w) && Allocates(w, Next(w, a), pipe)
    ensures var next := Next(w, a);
      && next.shared.port.connected && pipe in next.pipes
      && pipe.allocConn == next.conn && pipe.allocResets == next.resets
  {
    PipeStep(w, a);
    hide Inv, Next;
    assert (w.pipes + [pipe])[|w.pipes|] == pipe;
  }

  /** From an allocation on, a pipe is valid while neither of its generations has changed. */
  lemma ValidIff(born: World, now: World, pipe: Pipe)
    requires Inv(now) && born.pipes <= now.pipes && pipe in born.pipes
    requires pipe.allocConn == born.conn && pipe.allocResets == born.resets
    requires born.conn <= now.conn < born.conn + WRAP && born.resets <= now.resets < born.resets + WRAP
    requires born.conn == now.conn && (pipe.address != 0 ==> born.resets == now.resets) ==> now.shared.port.connected
    ensures CheckValid(pipe, now.shared.port) <==>
      now.conn == born.conn && (pipe.address != 0 ==> now.resets == born.resets)
  {
    assert pipe in now.pipes;
    var i :| 0 <= i < |now.pipes| && now.pipes[i] == pipe;
    if CheckValid(pipe, now.shared.port) { ValidIsCurrent(now, pipe); }
  }

  // ----- the steps that a call takes ------------------------------------------------------

  /** How a task comes to be what it is after a step that changes it. */
  predicate Follows(w: World, a: Action, next: World, id: nat) {
    var before := w.TaskOf(id);
    match next.TaskOf(id)
    case Idle => true
    case PipeDelayed(pipe) =>
      || (before.Idle? && a.StartPipeCall? && a.id == id && a.index < |w.pipes| && pipe == w.pipes[a.index])
      || (before.PipeReturning? && before.pipe == pipe && before.outcome.Retry? && a == Proceed(id)
          && CheckValid(pipe, w.shared.port))
    case PipeQueued(pipe) => before == PipeDelayed(pipe) && a == DelayOver(id) && CheckValid(pipe, w.shared.port)
    case PipeTouching(pipe, _, _) =>
      before == PipeQueued(pipe) && Locks(w, a, next, id) && CheckValid(pipe, w.shared.port)
    case PipeReturning(pipe, outcome, _, _) =>
      before.PipeTouching? && before.pipe == pipe && a == EngineFinished(id, outcome) && next.owner.None?
    case AttachQueued(speed, generation, _) =>
      before.Idle? && a == StartAttach(id, speed) && generation == w.shared.port.connection
    case AttachMarked(speed, generation, start) =>
      before == AttachQueued(speed, generation, start) && Locks(w, a, next, id)
    case Attaching(speed, generation, start) =>
      before == AttachMarked(speed, generation, start) && a == Proceed(id) && next.shared.resetting
    case ResetQueued => before.Idle? && a == StartControllerReset(id)
    case ResetMarked => before.ResetQueued? && Locks(w, a, next, id) && w.shared.port.speed.Some?
    case BusResetting => before.ResetMarked? && a == Proceed(id) && next.shared.resetting
    case Closing(_, _) => Driving(before) && a.EngineFinished? && a.id == id && a.outcome.Done?
    case Servicing => before.Idle? && a == StartFrame(id) && w.owner.None? && next.owner == Some(id)
  }

  predicate Locks(w: World, a: Action, next: World, id: nat) {
    a == LockEngine(id) && w.owner.None? && next.owner == Some(id)
  }

  /** A step changes no task but in these ways. */
  lemma TaskStep(w: World, a: Action, id: nat)
    ensures Next(w, a).TaskOf(id) == w.TaskOf(id) || Follows(w, a, Next(w, a), id)
  {
    ActedTask(w, a, id);
    hide Acted, Report, CheckValid;
    OnlyDeskOwes(w, a);
  }

  lemma ActedTask(w: World, a: Action, id: nat)
    ensures Acted(w, a).TaskOf(id) == w.TaskOf(id) || Follows(w, a, Acted(w, a), id)
  {
    hide Locked, Finished, Proceeded, Cancelled, Looked, AtDesk, CheckValid, Follows;
    match a {
      case LockEngine(k) => if w.owner.None? { LockTask(w, k, id); }
      case EngineFinished(k, outcome) => FinishTask(w, k, outcome, id);
      case Proceed(k) => ProceedTask(w, k, id);
      case _ => OtherTask(w, a, id);
    }
  }

  lemma LockTask(w: World, k: nat, id: nat)
    requires w.owner.None?
    ensures Locked(w, k).TaskOf(id) == w.TaskOf(id) || Follows(w, LockEngine(k), Locked(w, k), id)
  {
    hide CheckValid;
  }

  lemma FinishTask(w: World, k: nat, outcome: CallOutcome, id: nat)
    ensures Finished(w, k, outcome).TaskOf(id) == w.TaskOf(id)
            || Follows(w, EngineFinished(k, outcome), Finished(w, k, outcome), id)
  {
    hide CheckValid, PendingEvents.Push;
  }

  lemma ProceedTask(w: World, k: nat, id: nat)
    ensures Proceeded(w, k).TaskOf(id) == w.TaskOf(id) || Follows(w, Proceed(k), Proceeded(w, k), id)
  {
    hide CheckValid, PendingEvents.Push;
  }

  lemma OtherTask(w: World, a: Action, id: nat)
    requires !a.LockEngine? && !a.EngineFinished? && !a.Proceed?
    ensures Acted(w, a).TaskOf(id) == w.TaskOf(id) || Follows(w, a, Acted(w, a), id)
  {
    hide CheckValid, PendingEvents.Push, PendingEvents.AfterTake, PendingEvents.Taken, AtDesk;
  }

  // ----- no reset without a new generation ------------------------------------------------

  predicate Marked(task: Task) { task.AttachMarked? || task.ResetMarked? }

  predicate Driving(task: Task) { task.Attaching? || task.BusResetting? }

  /** The task took the engine at step j with a new reset generation, and has held it since, with that generation. */
  ghost predicate TookAt(actions: seq<Action>, j: nat, id: nat)
    requires j < |actions|
  {
    && At(actions, j).owner.None?
    && (At(actions, j).TaskOf(id).AttachQueued? || At(actions, j).TaskOf(id).ResetQueued?)
    && At(actions, j + 1).shared.port.reset == (At(actions, j).shared.port.reset + 1) % 0x1_0000_0000
    && forall i | j < i <= |actions| :: HoldsWith(At(actions, i), id, At(actions, j + 1).shared.port.reset)
  }

  predicate HoldsWith(w: World, id: nat, generation: nat) { w.owner == Some(id) && w.shared.port.reset == generation }

  /** A marked task holds the engine, and nobody else resets anything. */
  lemma MarkedStays(w: World, a: Action, id: nat)
    requires Inv(w) && Inv(Next(w, a)) && Marked(w.TaskOf(id)) && Marked(Next(w, a).TaskOf(id))
    ensures HoldsWith(w, id, w.shared.port.reset) && HoldsWith(Next(w, a), id, w.shared.port.reset)
  {
    OwnerOf(w, id);
    OwnerOf(Next(w, a), id);
    ResetStep(w, a);
    OnlyAttachPublishes(w, a);
    hide Next, Inv;
  }

  lemma OwnerOf(w: World, id: nat)
    requires Inv(w) && Owns(w.TaskOf(id))
    ensures w.owner == Some(id)
  {}

  /** Only an attachment that holds the engine publishes. */
  lemma OnlyAttachPublishes(w: World, a: Action)
    requires Inv(w)
    ensures Publishes(w, Next(w, a)) ==> w.owner.Some? && w.TaskOf(w.owner.value).Attaching?
  {
    match a {
      case EngineFinished(id, outcome) => FinishPublishes(w, id, outcome);
      case _ => OthersPublishNothing(w, a);
    }
    hide Locked, Finished, Proceeded, Cancelled, Report, Looked, AtDesk, Inv;
    OnlyDeskOwes(w, a);
  }

  lemma FinishPublishes(w: World, id: nat, outcome: CallOutcome)
    requires Exclusive(w)
    ensures Publishes(w, Finished(w, id, outcome)) ==> w.owner.Some? && w.TaskOf(w.owner.value).Attaching?
  {
    hide PendingEvents.Push;
  }

  lemma OthersPublishNothing(w: World, a: Action)
    requires !a.EngineFinished?
    ensures !Publishes(w, Acted(w, a))
  {
    hide CheckValid, Next32, PendingEvents.Push, PendingEvents.AfterTake, PendingEvents.Taken, AtDesk;
  }

  lemma BecomesMarked(w: World, a: Action, id: nat)
    requires Inv(w) && !Marked(w.TaskOf(id)) && Marked(Next(w, a).TaskOf(id))
    ensures var next := Next(w, a);
      && w.owner.None? && (w.TaskOf(id).AttachQueued? || w.TaskOf(id).ResetQueued?)
      && HoldsWith(next, id, (w.shared.port.reset + 1) % 0x1_0000_0000)
  {
    ResetStep(w, a);
    MarkedByLock(w, a, id);
    hide Next, Inv;
  }

  lemma MarkedByLock(w: World, a: Action, id: nat)
    requires !Marked(w.TaskOf(id)) && Marked(Next(w, a).TaskOf(id))
    ensures w.owner.None? && Next(w, a).owner == Some(id) && (w.TaskOf(id).AttachQueued? || w.TaskOf(id).ResetQueued?)
  {
    TaskStep(w, a, id);
    hide Next, CheckValid;
  }

  lemma AtPrefix(actions: seq<Action>, n: nat)
    requires n <= |actions|
    ensures forall i | 0 <= i <= n :: At(actions[..n], i) == At(actions, i)
  {
    forall i | 0 <= i <= n ensures At(actions[..n], i) == At(actions, i) {
      assert actions[..n][..i] == actions[..i];
    }
  }

  /** A marked task has taken the engine before, with a new reset generation. */
  lemma {:induction false} MarkedSince(actions: seq<Action>, id: nat) returns (j: nat)
    requires Marked(At(actions, |actions|).TaskOf(id))
    ensures j < |actions| && TookAt(actions, j, id)
  {
    hide *;
    NothingMarked(actions, id);
    var n := |actions| - 1;
    StepAt(actions, n);
    AtPrefix(actions, n);
    if Marked(At(actions, n).TaskOf(id)) {
      j := MarkedSince(actions[..n], id);
      MarkedStays(At(actions, n), actions[n], id);
      TookLonger(actions, j, id);
    } else {
      BecomesMarked(At(actions, n), actions[n], id);
      j := n;
      TookNow(actions, id);
    }
  }

  lemma NothingMarked(actions: seq<Action>, id: nat)
    ensures Marked(At(actions, |actions|).TaskOf(id)) ==> actions != []
  {}

  lemma TookNow(actions: seq<Action>, id: nat)
    requires actions != [] && var n := |actions| - 1;
      && At(actions, n).owner.None?
      && (At(actions, n).TaskOf(id).AttachQueued? || At(actions, n).TaskOf(id).ResetQueued?)
      && HoldsWith(At(actions, n + 1), id, (At(actions, n).shared.port.reset + 1) % 0x1_0000_0000)
    ensures TookAt(actions, |actions| - 1, id)
  {
    hide At;
  }

  lemma TookLonger(actions: seq<Action>, j: nat, id: nat)
    requires j + 1 < |actions| && TookAt(actions[..|actions| - 1], j, id)
    requires var n := |actions| - 1;
      HoldsWith(At(actions, n + 1), id, At(actions, n).shared.port.reset)
    ensures TookAt(actions, j, id)
  {
    hide At, HoldsWith;
    var n := |actions| - 1;
    AtPrefix(actions, n);
    assert HoldsWith(At(actions[..n], n), id, At(actions, j + 1).shared.port.reset);
    SameGenerationHeld(At(actions, n), id, At(actions, j + 1).shared.port.reset);
    forall i | j < i <= |actions| ensures HoldsWith(At(actions, i), id, At(actions, j + 1).shared.port.reset) {
      assert i <= n ==> HoldsWith(At(actions[..n], i), id, At(actions, j + 1).shared.port.reset);
    }
  }

  lemma SameGenerationHeld(w: World, id: nat, generation: nat)
    requires HoldsWith(w, id, generation)
    ensures w.shared.port.reset == generation
  {}

  /**
   * No bus reset without a new generation: in every run, a task that begins to
   * drive a reset took the engine at an earlier step, with a new reset
   * generation, and has held it alone ever since.
   */
  lemma ResetsAreMarked(actions: seq<Action>, m: nat, id: nat) returns (j: nat)
    requires m < |actions|
    requires Driving(At(actions, m + 1).TaskOf(id)) && !Driving(At(actions, m).TaskOf(id))
    ensures j < m && TookAt(actions[..m], j, id)
    ensures At(actions, m + 1).shared.resetting
  {
    hide Inv;
    StepAt(actions, m);
    DrivesAfterMark(At(actions, m), actions[m], id);
    hide Next;
    AtPrefix(actions, m);
    j := MarkedSince(actions[..m], id);
  }

  lemma DrivesAfterMark(w: World, a: Action, id: nat)
    requires Driving(Next(w, a).TaskOf(id)) && !Driving(w.TaskOf(id))
    ensures Marked(w.TaskOf(id)) && Next(w, a).shared.resetting
  {
    TaskStep(w, a, id);
    hide Next, CheckValid;
  }

  /** An addressed pipe that is older than a reset never passes a check again. */
  lemma StaleAfterReset(actions: seq<Action>, k: nat, m: nat, now: nat, id: nat, pipe: Pipe)
    requires k < m < now <= |actions| && Allocates(At(actions, k), At(actions, k + 1), pipe)
    requires pipe.address != 0 && At(actions, k).owner != Some(id)
    requires Driving(At(actions, m + 1).TaskOf(id)) && !Driving(At(actions, m).TaskOf(id))
    requires ConnectionChanges(actions, k + 1, now) < 0x1_0000_0000
    requires ResetChanges(actions, k + 1, now) < 0x1_0000_0000
    ensures !CheckValid(pipe, At(actions, now).shared.port)
  {
    hide Inv, Next, Driving, ConnectionChanges, ResetChanges, CheckValid, Undisturbed;
    var j := ResetsAreMarked(actions, m, id);
    AtPrefix(actions, m);
    StepAt(actions, k);
    PipeStep(At(actions, k), actions[k]);
    hide At;
    assert HoldsWith(At(actions[..m], j + 1), id, At(actions, j + 1).shared.port.reset);
    PipeValidIff(actions, k, now, pipe);
    DisturbedBy(actions, k + 1, now, j, pipe.address);
  }

  lemma DisturbedBy(actions: seq<Action>, start: nat, end: nat, j: nat, address: nat)
    requires start <= j < end <= |actions| && address != 0 && TakesForReset(At(actions, j), At(actions, j + 1))
    ensures !Undisturbed(actions, start, end, address)
  {
    hide At, ReportsGone, Publishes, TakesForReset;
    assert !Calm(At(actions, j), actions[j], At(actions, j + 1), address);
  }

  // ----- the engine's calls ---------------------------------------------------------------

  /** The pipe that a call is for. */
  function PipeOf(task: Task): Option<Pipe> {
    match task
    case PipeDelayed(pipe) => Some(pipe)
    case PipeQueued(pipe) => Some(pipe)
    case PipeTouching(pipe, _, _) => Some(pipe)
    case PipeReturning(pipe, _, _, _) => Some(pipe)
    case _ => None
  }

  ghost predicate CallsArePipes(w: World) {
    forall id | PipeOf(w.TaskOf(id)).Some? :: PipeOf(w.TaskOf(id)).value in w.pipes
  }

  lemma CallsStep(w: World, a: Action)
    requires CallsArePipes(w)
    ensures CallsArePipes(Next(w, a))
  {
    forall id | PipeOf(Next(w, a).TaskOf(id)).Some? ensures PipeOf(Next(w, a).TaskOf(id)).value in Next(w, a).pipes {
      OneCallStep(w, a, id);
    }
  }

  lemma OneCallStep(w: World, a: Action, id: nat)
    requires CallsArePipes(w) && PipeOf(Next(w, a).TaskOf(id)).Some?
    ensures PipeOf(Next(w, a).TaskOf(id)).value in Next(w, a).pipes
  {
    TaskStep(w, a, id);
    PipeStep(w, a);
    hide Next, CheckValid;
    assert PipeOf(w.TaskOf(id)).Some? ==> PipeOf(w.TaskOf(id)).value in w.pipes;
  }

  lemma {:induction false} CallsOver(actions: seq<Action>)
    ensures CallsArePipes(Run(actions))
  {
    hide Next;
    if actions != [] {
      CallsOver(actions[..|actions| - 1]);
      CallsStep(Run(actions[..|actions| - 1]), actions[|actions| - 1]);
    }
  }

  /** Every pipe was allocated at some step. */
  lemma {:induction false} PipeBorn(actions: seq<Action>, n: nat, pipe: Pipe) returns (k: nat)
    requires n <= |actions| && pipe in At(actions, n).pipes
    ensures k < n && Allocates(At(actions, k), At(actions, k + 1), pipe)
    decreases n
  {
    hide Inv, Next;
    assert At(actions, 0) == START;
    if pipe in At(actions, n - 1).pipes {
      k := PipeBorn(actions, n - 1, pipe);
    } else {
      k := n - 1;
      StepAt(actions, k);
      PipeStep(At(actions, k), actions[k]);
    }
  }

  /**
   * Engine calls are fresh: when a task is let at the engine for a pipe, the
   * pipe was allocated before, and since then nothing has reported the device
   * gone, no connection has been published and, for an addressed device, no
   * reset has begun. (Fewer than 2^32 changes in between.)
   */
  lemma EngineCallIsFresh(actions: seq<Action>, m: nat, id: nat) returns (k: nat)
    requires m < |actions|
    requires At(actions, m + 1).TaskOf(id).PipeTouching? && !At(actions, m).TaskOf(id).PipeTouching?
    ensures k < m && Allocates(At(actions, k), At(actions, k + 1), At(actions, m + 1).TaskOf(id).pipe)
    ensures ConnectionChanges(actions, k + 1, m) < 0x1_0000_0000 && ResetChanges(actions, k + 1, m) < 0x1_0000_0000 ==>
      Undisturbed(actions, k + 1, m, At(actions, m + 1).TaskOf(id).pipe.address)
  {
    hide Inv, Undisturbed, ConnectionChanges, ResetChanges, CheckValid, Allocates;
    StepAt(actions, m);
    CallsOver(actions[..m]);
    var pipe := At(actions, m + 1).TaskOf(id).pipe;
    TouchesAfterCheck(At(actions, m), actions[m], id);
    hide Next;
    k := PipeBorn(actions, m, pipe);
    if ConnectionChanges(actions, k + 1, m) < WRAP && ResetChanges(actions, k + 1, m) < WRAP {
      PipeValidIff(actions, k, m, pipe);
    }
  }

  lemma TouchesAfterCheck(w: World, a: Action, id: nat)
    requires Next(w, a).TaskOf(id).PipeTouching? && !w.TaskOf(id).PipeTouching?
    ensures var pipe := Next(w, a).TaskOf(id).pipe;
      PipeOf(w.TaskOf(id)) == Some(pipe) && CheckValid(pipe, w.shared.port)
  {
    TaskStep(w, a, id);
    hide Next, CheckValid;
  }

  // ----- whole calls ----------------------------------------------------------------------

  /** A valid pipe call that finds the engine free gets it, runs, gives it back and returns its success. */
  lemma CallGoesThrough(w: World, id: nat, pipe: Pipe)
    requires w.owner.None? && w.TaskOf(id) == PipeDelayed(pipe) && CheckValid(pipe, w.shared.port)
    ensures var called := Next(Next(w, DelayOver(id)), LockEngine(id));
      && called.owner == Some(id) && called.TaskOf(id) == PipeTouching(pipe, w.conn, w.resets)
      && called.journal == w.journal + [EngineCall(pipe, true, w.conn, w.resets)]
      && var back := Next(Next(called, EngineFinished(id, Done(Ok(())))), Proceed(id));
      && back.owner.None? && back.TaskOf(id).Idle? && back.shared == w.shared
      && back.journal == called.journal
           + [EngineLeft(pipe, w.resets, w.resets), Returned(pipe, w.conn, w.resets, w.conn, w.resets)]
  {
    hide CheckValid;
    var queued := Next(w, DelayOver(id));
    assert queued.TaskOf(id) == PipeQueued(pipe) && queued.owner.None? && queued.shared == w.shared;
    var called := Next(queued, LockEngine(id));
    assert w.shared.port.connected by { ValidIsConnected(pipe, w.shared.port); }
    assert called.TaskOf(id) == PipeTouching(pipe, w.conn, w.resets) && called.shared == w.shared;
    var left := Next(called, EngineFinished(id, Done(Ok(()))));
    assert left.TaskOf(id) == PipeReturning(pipe, Done(Ok(())), w.conn, w.resets) && left.shared == w.shared;
  }

  lemma ValidIsConnected(pipe: Pipe, port: PortState)
    requires CheckValid(pipe, port)
    ensures port.connected
  {}

  /** An attachment that finds the engine free marks the reset and raises the flag, in this order, before it drives. */
  lemma AttachBegins(w: World, id: nat, speed: Speed)
    requires w.owner.None? && w.TaskOf(id).Idle?
    ensures var begun := Next(Next(Next(w, StartAttach(id, speed)), LockEngine(id)), Proceed(id));
      && begun.TaskOf(id) == Attaching(speed, w.shared.port.connection, w.conn) && begun.owner == Some(id)
      && begun.shared == w.shared.AfterMark().AfterActivity()
  {
    var queued := Next(w, StartAttach(id, speed));
    assert queued.TaskOf(id) == AttachQueued(speed, w.shared.port.connection, w.conn) && queued.shared == w.shared;
    var marked := Next(queued, LockEngine(id));
    assert marked.TaskOf(id) == AttachMarked(speed, w.shared.port.connection, w.conn);
  }

  /** Once the engine has finished, an attachment leaves the shared state as `PioHostState.FinishAttach` does. */
  lemma AttachEnds(w: World, id: nat, result: Result<(), PipeError>)
    requires w.TaskOf(id).Attaching?
    ensures var task, over := w.TaskOf(id), Next(Next(w, EngineFinished(id, Done(result))), Proceed(id));
      && over.TaskOf(id).Idle? && over.owner.None?
      && over.shared == (if result.Ok? then w.shared.AfterPublish(task.generation, task.speed).AfterActivityEnds()
                         else w.shared.AfterActivityEnds().AfterFailure(result.error))
      && (result.Ok? && w.shared.port.connection == task.generation ==>
            && over.shared.port == PortState(true, Some(task.speed), (w.shared.port.connection + 1) % 0x1_0000_0000,
                                             (w.shared.port.reset + 1) % 0x1_0000_0000)
            && over.shared.pending == w.shared.pending.Push(Connected(task.speed)))
      && (result.Ok? && w.shared.port.connection != task.generation ==> over.shared.port == w.shared.port)
  {
    hide PendingEvents.Push;
  }

  /** The controller's reset of a connected port marks the reset and raises the flag before it drives. */
  lemma ResetBegins(w: World, id: nat)
    requires w.owner.None? && w.TaskOf(id).Idle?
    ensures var queued := Next(w, StartControllerReset(id)); var locked := Next(queued, LockEngine(id));
      if w.shared.port.speed.Some? then
        var begun := Next(locked, Proceed(id));
        && begun.TaskOf(id).BusResetting? && begun.owner == Some(id)
        && begun.shared == w.shared.AfterMark().AfterActivity()
      else locked.TaskOf(id).Idle? && locked.owner.None? && locked.shared == w.shared
  {
    assert Next(w, StartControllerReset(id)).TaskOf(id).ResetQueued?;
  }

  /** Once the engine has finished, it leaves the shared state as `PioHostState.FinishControllerReset` does. */
  lemma ResetEnds(w: World, id: nat, result: Result<(), PipeError>)
    requires w.TaskOf(id).BusResetting?
    ensures var over := Next(Next(w, EngineFinished(id, Done(result))), Proceed(id));
      && over.TaskOf(id).Idle? && over.owner.None?
      && over.shared == if result.Ok? then w.shared.AfterActivityEnds()
                        else w.shared.AfterActivityEnds().AfterFailure(result.error)
  {
    hide PendingEvents.Push;
  }

  /** An idle frame is serviced exactly when the engine is free and a low- or full-speed device is connected. */
  lemma FrameGoesThrough(w: World, id: nat)
    requires w.TaskOf(id).Idle?
    ensures var taken := Next(w, StartFrame(id));
      if w.owner.None? && (w.shared.port.speed == Some(Low) || w.shared.port.speed == Some(Full)) then
        && taken.TaskOf(id).Servicing? && taken.owner == Some(id)
        && Next(taken, EngineFinished(id, Done(Ok(())))).TaskOf(id).Idle?
        && Next(taken, EngineFinished(id, Done(Ok(())))).owner.None?
      else taken == w
  {}

  // ----- the consumer's signal ------------------------------------------------------------

  /** Every report owes one signal, and each signal pays one and wakes the consumer. */
  lemma SignalsArePaid(w: World, a: Action)
    ensures var next := Next(w, a);
      && next.desk.owed == w.desk.owed + (if Report(w, a).Some? then 1 else 0)
                           - (if a.SignalWake? && w.desk.owed > 0 then 1 else 0)
      && (a.SignalWake? && w.desk.owed > 0 ==> next.desk.wake)
      && (w.desk.wake && !a.ConsumerWake? ==> next.desk.wake)
  {
    ActedAtDesk(w, a);
    assert a.SignalWake? ==> Report(w, a).None?;
    hide Acted, Report;
  }

  lemma ActedAtDesk(w: World, a: Action)
    ensures var desk := Acted(w, a).desk;
      && desk.owed == w.desk.owed - (if a.SignalWake? && w.desk.owed > 0 then 1 else 0)
      && (a.SignalWake? && w.desk.owed > 0 ==> desk.wake)
      && (w.desk.wake && !a.ConsumerWake? ==> desk.wake)
  {
    hide CheckValid, Shared.AfterMark, Shared.AfterActivity, Shared.AfterActivityEnds, Shared.AfterPublish,
      Shared.AfterFailure, Shared.AfterDetach, Shared.AfterGuardedDetach, Shared.AfterOvercurrent,
      PendingEvents.AfterTake, PendingEvents.Taken;
  }

  /** A consumer that calls looks at once: it gets the event that is due, or parks. */
  lemma CallLooks(w: World)
    requires w.desk.consumer.Away?
    ensures var looked, due := Next(Next(w, ConsumerCall), ConsumerLook), w.shared.pending.Taken();
      if due.Some? then
        && looked.desk.consumer.Away? && looked.desk.delivered == w.desk.delivered + [due.value]
        && looked.shared.pending == w.shared.pending.AfterTake()
      else looked.desk.consumer.Parked? && looked.desk.delivered == w.desk.delivered && looked.shared == w.shared
  {}

  /** A consumer that is dropped leaves everything else as it was. */
  lemma DropLeaves(w: World)
    ensures Next(w, ConsumerDrop) == w.(desk := w.desk.(consumer := Away))
  {}

  /** In the beginning nothing is connected, nobody does anything, and nothing is due. */
  lemma Beginning(id: nat)
    ensures var w := At([], 0);
      && w.TaskOf(id).Idle? && w.owner.None? && w.pipes == [] && w.journal == []
      && w.shared.port == PortState(false, None, 0, 0) && !w.shared.resetting && w.shared.pending.Taken().None?
      && w.desk == Desk(false, 0, Away, [], false, [])
  {}

  /**
   * A parked consumer with an event due gets it, after any interleaving: once
   * the signal owed is given, it wakes, looks and takes the event.
   */
  lemma ParkedConsumerGetsItsEvent(actions: seq<Action>)
    requires var w := Run(actions); w.desk.consumer.Parked? && w.shared.pending.Taken().Some?
    ensures var w := Run(actions);
      var looked := Next(Next(Next(w, SignalWake), ConsumerWake), ConsumerLook);
      && looked.desk.consumer.Away?
      && looked.desk.delivered == w.desk.delivered + [w.shared.pending.Taken().value]
  {
    NoLostWakeup(actions);
    hide Run;
    var w := Run(actions);
    var signalled := Next(w, SignalWake);
    assert signalled.desk.wake && signalled.desk.consumer.Parked? && signalled.shared == w.shared;
    assert signalled.desk.delivered == w.desk.delivered;
  }
}
