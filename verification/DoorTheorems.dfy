// What holds of every run of a door's caller and its watch thread.
module DoorTheorems {
  import opened Common
  import opened DoorShared
  import opened DoorAsks
  import opened DoorScript
  import opened DoorProtocol
  import opened DoorCalls
  import opened DoorSafety

  // ----- Calls -----

  /**
   * In every run, a call signals the door only right after a check that held and a
   * lock that saw the turn idle and set `closing`, in that order and in the same
   * call; it signals at most once; a result other than an error, `Exited` and
   * `StillLive` means the call signalled nothing; `StillLive` means a signal was sent;
   * and `Exited` means so exactly when the signal did not find the door already gone.
   */
  lemma SignalSafety(s: Sys)
    requires Reachable(s)
    ensures SignalsGuarded(s.call) && SignalsOnce(s.call)
    ensures forall c: seq<CallMark> :: c in s.calls ==> SafeCall(c)
  {
    if s.call != [] {
      LogsAreLinked(s, s.call);
      LinkedIsGuarded(s.call);
    }
    forall c: seq<CallMark> | c in s.calls
      ensures SafeCall(c)
    {
      CallIsLinked(s, c);
      LinkedIsGuarded(c);
      SignalIsTold(c);
    }
  }

  /** In every run, each call's result is answered exactly when its own locks and answers call for it. */
  lemma CallsAreTold(s: Sys)
    requires Reachable(s)
    ensures forall c: seq<CallMark> :: c in s.calls ==>
              Finished(c) && ResultIsTold(c[0].op, c, c[|c| - 1].result)
  {
    forall c: seq<CallMark> | c in s.calls
      ensures Finished(c) && ResultIsTold(c[0].op, c, c[|c| - 1].result)
    {
      CallIsLinked(s, c);
      FinishedIsTold(c);
    }
  }

  /**
   * In every run, `close_due` signals only a door whose mark it read standing, and answers `Revoked` exactly when
   * it read none.
   */
  lemma DueClosesOnlyMarked(s: Sys, c: seq<CallMark>)
    requires Reachable(s) && (c in s.calls || c == s.call) && c != [] && c[0] == Began(Due)
    ensures HasSignal(c) ==> MarkRead(true) in c && MarkRead(false) !in c
    ensures c in s.calls ==> (c[|c| - 1] == Returned(Revoked) <==> MarkRead(false) in c)
  {
    LogsAreLinked(s, c);
    DueIsMarked(c);
  }

  /**
   * In every run, a stop sends its cancel only after a check that held, and notes the turn idle exactly when the
   * cancel was answered "idle"; it closes only after that, after a wait that saw the turn end, or after a check
   * that did not hold; and it answers `NoTurnEnd` exactly when the cancel was taken and the wait saw another turn.
   */
  lemma StopFollowsTheCancel(s: Sys, c: seq<CallMark>)
    requires Reachable(s) && c in s.calls && c != [] && c[0] == Began(StopNow)
    ensures StopIsChecked(c)
    ensures NotedIdle in c <==> CancelAnswered(CancelIdle) in c
    ensures c[|c| - 1] == Returned(NoTurnEnd) <==>
            CancelAnswered(CancelDone) in c && (TurnWaited(Unknown) in c || TurnWaited(Running) in c)
  {
    LogsAreLinked(s, c);
    FinishedIsTold(c);
    StopIsLinked(c);
    IdleIsNoted(c);
  }

  lemma CallIsLinked(s: Sys, c: seq<CallMark>)
    requires Reachable(s) && c in s.calls
    ensures Finished(c)
  {
    ReachableInv(s);
  }

  lemma LogsAreLinked(s: Sys, c: seq<CallMark>)
    requires Reachable(s) && (c in s.calls || c == s.call) && c != []
    ensures Linked(c) && (c in s.calls ==> Finished(c))
  {
    ReachableInv(s);
  }

  // ----- The log is true -----

  /** What a mark says of the step that noted it. */
  predicate IsTrue(s: Shared, inMap: bool, caller: Caller, a: Answer, mark: CallMark) {
    match mark
    case Began(op) => a == Begin(op) && caller == Free
    case NotFound => caller.Looking? && (s.exited || !inMap)
    case MarkRead(armed) => caller == Reading(Due) && armed == s.armed
    case TurnRead(turn) => caller == Reading(AfterTurn) && turn == s.turn
    case StopChecked(check) => caller == StopVerifying && a == Checked(check)
    case CancelAnswered(cancel) => caller == Cancelling && a == Cancelled(cancel)
    case NotedIdle => caller == NotingIdle
    case TurnWaited(turn) => caller == Waiting && turn == s.turn
    case Verified(check) => caller.CloseVerifying? && a == Checked(check)
    case TurnLocked(turn) => caller.CloseLocking? && turn == s.turn
    case Signalled(signal) => caller.Signalling? && a == Signals(signal)
    case ExitLooked(exited) => caller.AwaitingExit? && a == ExitSeen(exited)
    case Stored(ok) => caller.Storing? && a == StoreDone(ok)
    case Returned(result) => result.Exited? ==> result.joined == s.exited
  }

  /** The marks a step must note: whatever it asked of the world, and each look that failed. */
  predicate MustNote(s: Shared, inMap: bool, caller: Caller, a: Answer) {
    || a.Begin? || a.Checked? || a.Cancelled? || a.Signals? || a.ExitSeen? || a.StoreDone?
    || (caller.Looking? && (s.exited || !inMap))
    || caller in {Reading(Due), Reading(AfterTurn), NotingIdle, Waiting} || caller.CloseLocking?
  }

  /** Each step of the caller adds to its call's log, and only what it saw; what it asks or reads it adds. */
  lemma CallSaysWhatItSaw(s: Sys, a: Answer) returns (notes: seq<CallMark>)
    requires Enabled(s, CallerStep(a))
    ensures var t := Next(s, CallerStep(a));
            if notes != [] && notes[|notes| - 1].Returned? then t.call == [] && t.calls == s.calls + [s.call + notes]
            else t.call == s.call + notes && t.calls == s.calls
    ensures forall mark :: mark in notes ==> IsTrue(s.shared, s.inMap, s.caller, a, mark)
    ensures MustNote(s.shared, s.inMap, s.caller, a) ==> notes != [] && !notes[0].Returned?
    ensures Next(s, CallerStep(a)).shared.turn == if NotedIdle in notes then Idle else s.shared.turn
  {
    notes := MoveCaller(s.shared, s.inMap, s.caller, a).notes;
    NotesAreTrue(s.shared, s.inMap, s.caller, a);
    if Early(s.caller) {
      EarlyFrames(s.shared, s.inMap, s.caller, a);
    } else {
      ClosingFrames(s.shared, s.caller, a);
    }
  }

  lemma NotesAreTrue(s: Shared, inMap: bool, caller: Caller, a: Answer)
    requires CallerMay(caller, inMap, a)
    ensures AreTrue(s, inMap, caller, a, MoveCaller(s, inMap, caller, a).notes)
  {
    if Early(caller) {
      EarlyNotes(s, inMap, caller, a);
    } else {
      ClosingNotes(s, inMap, caller, a);
    }
  }

  lemma EarlyNotes(s: Shared, inMap: bool, caller: Caller, a: Answer)
    requires CallerMay(caller, inMap, a) && Early(caller)
    ensures AreTrue(s, inMap, caller, a, MoveEarly(s, inMap, caller, a).notes)
  {
    match caller {
      case Reading(op) => ReadingNotes(s, inMap, op, a);
      case CloseLocking(op) => LockingNotes(s, inMap, op, a);
      case CloseVerifying(op) => VerifyingNotes(s, inMap, op, a);
      case Looking(op, at) => LookingNotes(s, inMap, op, at, a);
      case Free =>
      case _ => StoppingNotes(s, inMap, caller, a);
    }
  }

  lemma StoppingNotes(s: Shared, inMap: bool, caller: Caller, a: Answer)
    requires CallerMay(caller, inMap, a) && Stopping(caller)
    ensures AreTrue(s, inMap, caller, a, MoveEarly(s, inMap, caller, a).notes)
  {
  }

  lemma VerifyingNotes(s: Shared, inMap: bool, op: Op, a: Answer)
    requires a.Checked?
    ensures AreTrue(s, inMap, CloseVerifying(op), a, MoveVerifying(s, op, a.check).notes)
  {
  }

  lemma LookingNotes(s: Shared, inMap: bool, op: Op, at: Look, a: Answer)
    requires a.Go?
    ensures AreTrue(s, inMap, Looking(op, at), a, MoveEarly(s, inMap, Looking(op, at), a).notes)
  {
  }

  lemma ReadingNotes(s: Shared, inMap: bool, op: Op, a: Answer)
    requires a.Go?
    ensures AreTrue(s, inMap, Reading(op), a, MoveReading(s, op).notes)
  {
  }

  lemma LockingNotes(s: Shared, inMap: bool, op: Op, a: Answer)
    requires a.Go?
    ensures AreTrue(s, inMap, CloseLocking(op), a, MoveLocking(s, op).notes)
  {
  }

  lemma ClosingNotes(s: Shared, inMap: bool, caller: Caller, a: Answer)
    requires CallerMay(caller, true, a) && !Early(caller)
    ensures AreTrue(s, inMap, caller, a, MoveClosing(s, caller, a).notes)
  {
  }

  predicate AreTrue(s: Shared, inMap: bool, caller: Caller, a: Answer, notes: seq<CallMark>) {
    && (forall i :: 0 <= i < |notes| ==> IsTrue(s, inMap, caller, a, notes[i]))
    && (MustNote(s, inMap, caller, a) ==> notes != [] && !notes[0].Returned?)
  }

  /** The lock that takes an idle turn is the one step that sets `closing`; it takes the closer and fires it. */
  lemma ClosingIsSetIdle(s: Sys, step: Step)
    requires Inv(s) && Enabled(s, step)
    requires !s.shared.closing && Next(s, step).shared.closing
    ensures step.CallerStep? && s.caller.CloseLocking? && s.shared.turn == Idle
    ensures var t := Next(s, step);
            && t.call == s.call + [TurnLocked(Idle)] && t.caller.Signalling? && t.shared.closer == None
            && (s.shared.closer.Some? ==> s.shared.closer.value in t.fired)
  {
    assert FlagsOk(s);
    ClosingIsSetAt(s, step);
  }

  lemma ClosingIsSetAt(s: Sys, step: Step)
    requires FlagsOk(s) && Enabled(s, step)
    requires !s.shared.closing && Next(s, step).shared.closing
    ensures step.CallerStep? && s.caller.CloseLocking? && s.shared.turn == Idle
    ensures var t := Next(s, step);
            && t.call == s.call + [TurnLocked(Idle)] && t.caller.Signalling? && t.shared.closer == None
            && (s.shared.closer.Some? ==> s.shared.closer.value in t.fired)
  {
    match step {
      case CallerStep(a) =>
        if Early(s.caller) {
          EarlyTakes(s.shared, s.inMap, s.caller, a);
        } else {
          ClosingTakesNothing(s.shared, s.caller, a);
        }
      case WorkerStep(a) =>
        if OnStream(s.worker) {
          OnStreamFrames(s.worker, s.shared, s.receiverGone, a);
        } else {
          OffStreamFrames(s.worker, s.shared, s.failing, s.streams, a);
        }
        assert false;
    }
  }

  lemma EarlyTakes(s: Shared, inMap: bool, caller: Caller, a: Answer)
    requires CallerMay(caller, inMap, a) && Early(caller)
    requires !s.closing && MoveEarly(s, inMap, caller, a).shared.closing
    ensures caller.CloseLocking? && s.turn == Idle
    ensures var m := MoveEarly(s, inMap, caller, a);
            m.notes == [TurnLocked(Idle)] && m.to.Signalling? && m.shared.closer == None && m.fires == s.closer
  {
  }

  lemma ClosingTakesNothing(s: Shared, caller: Caller, a: Answer)
    requires CallerMay(caller, true, a) && !Early(caller)
    ensures MoveClosing(s, caller, a).shared.closing ==> s.closing
  {
  }

  // ----- Closers, and the hold -----

  /**
   * Whenever the lock is free: a closing or stopped watch has no closer in its
   * record; a stream being read has its closer there unless it has been fired; and
   * between calls a watch still in the map is not closing, so nothing holds its
   * thread.
   */
  lemma ClosersAndFlags(s: Sys)
    requires Reachable(s)
    ensures && (s.shared.closing || s.shared.stop ==> s.shared.closer == None)
            && (Drained(s.worker).Some? && Drained(s.worker).value !in s.fired ==>
                  s.shared.closer == Drained(s.worker))
            && (s.caller.Free? && s.inMap ==> !s.shared.closing)
            && (s.caller.Free? && s.worker.Holding? ==> Enabled(s, WorkerStep(Go)))
            && (!s.inMap <==> s.shared.stop)
  {
    ReachableInv(s);
  }

  /** How many of its own steps a call has left, at most. */
  function CallerRank(caller: Caller): nat {
    match caller
    case Free => 0
    case Looking(_, AtEntry) => 15
    case Looking(_, AtLink) => 14
    case StopVerifying => 13
    case Looking(_, AtDoor) => 12
    case Cancelling => 11
    case Looking(_, AtWait) => 10
    case Reading(_) => 9
    case NotingIdle => 9
    case Waiting => 9
    case Looking(_, AtClose) => 8
    case CloseVerifying(_) => 7
    case CloseLocking(_) => 6
    case Signalling(_) => 5
    case AwaitingExit(_) => 4
    case Storing(_, _) => 3
    case Detaching(_, _) => 2
    case Joining(_, _) => 1
    case GivingUp(_) => 1
    case Unsignalled(_) => 1
    case Unstored(_, _) => 1
  }

  /** A call in progress always has a step to take, and each step brings its return nearer. */
  lemma CallProgresses(s: Sys)
    requires !s.caller.Free?
    ensures exists a: Answer :: Enabled(s, CallerStep(a))
    ensures forall a: Answer :: Enabled(s, CallerStep(a)) ==>
              CallerRank(Next(s, CallerStep(a)).caller) < CallerRank(s.caller)
  {
    var a := match s.caller
             case StopVerifying => Checked(Holds)
             case CloseVerifying(_) => Checked(Holds)
             case Cancelling => Cancelled(CancelIdle)
             case Signalling(_) => Signals(Sent)
             case AwaitingExit(_) => ExitSeen(true)
             case Storing(_, _) => StoreDone(true)
             case _ => Go;
    assert Enabled(s, CallerStep(a));
    forall a: Answer | Enabled(s, CallerStep(a))
      ensures CallerRank(Next(s, CallerStep(a)).caller) < CallerRank(s.caller)
    {
      CallerRankFalls(s.shared, s.inMap, s.caller, a);
    }
  }

  lemma CallerRankFalls(s: Shared, inMap: bool, caller: Caller, a: Answer)
    requires CallerMay(caller, inMap, a) && !caller.Free?
    ensures CallerRank(MoveCaller(s, inMap, caller, a).to) < CallerRank(caller)
  {
  }

  function CallerSteps(steps: seq<Step>): nat {
    if steps == [] then 0 else (if steps[0].CallerStep? then 1 else 0) + CallerSteps(steps[1..])
  }

  lemma WorkerLeavesCaller(s: Sys, a: Answer)
    requires Enabled(s, WorkerStep(a))
    ensures Next(s, WorkerStep(a)).caller == s.caller
  {
  }

  /** A run in which the caller takes as many steps as its rank passes through its return. */
  lemma {:induction false} CallReturns(s: Sys, steps: seq<Step>) returns (k: nat)
    requires Plays(s, steps) && CallerRank(s.caller) <= CallerSteps(steps)
    ensures k <= |steps| && Plays(s, steps[..k]) && Play(s, steps[..k]).caller.Free?
    decreases |steps|
  {
    if s.caller.Free? {
      return 0;
    }
    var t := Next(s, steps[0]);
    match steps[0] {
      case CallerStep(a) => CallerRankFalls(s.shared, s.inMap, s.caller, a);
      case WorkerStep(a) => WorkerLeavesCaller(s, a);
    }
    var rest := CallReturns(t, steps[1..]);
    k := rest + 1;
    assert steps[..k][1..] == steps[1..][..rest];
  }

  /**
   * The hold is always released: a thread held by `closing` waits only for a call
   * in progress, and once that call returns (`CallReturns`) the hold may end.
   */
  lemma HoldIsReleased(s: Sys, more: seq<Step>) returns (k: nat)
    requires Reachable(s) && Plays(s, more) && CallerRank(s.caller) <= CallerSteps(more)
    ensures k <= |more| && Plays(s, more[..k])
    ensures var t := Play(s, more[..k]); t.worker.Holding? ==> Enabled(t, WorkerStep(Go))
    ensures s.worker.Holding? ==> (!Enabled(s, WorkerStep(Go)) <==> s.shared.closing && !s.shared.stop)
    ensures s.worker.Holding? && !Enabled(s, WorkerStep(Go)) ==> HoldsClosing(s.caller)
  {
    ReachableInv(s);
    k := CallReturns(s, more);
    RunsKeepInv(s, more[..k]);
    assert FlagsOk(s) && FlagsOk(Play(s, more[..k]));
    HeldIsClosing(s);
    FreeMayGoOn(Play(s, more[..k]));
  }

  lemma FreeMayGoOn(s: Sys)
    requires FlagsOk(s) && s.caller.Free?
    ensures s.worker.Holding? ==> Enabled(s, WorkerStep(Go))
  {
  }

  lemma HeldIsClosing(s: Sys)
    requires FlagsOk(s)
    ensures s.worker.Holding? ==> (!Enabled(s, WorkerStep(Go)) <==> s.shared.closing && !s.shared.stop)
    ensures s.worker.Holding? && !Enabled(s, WorkerStep(Go)) ==> HoldsClosing(s.caller)
  {
  }

  // ----- Deliveries -----

  /**
   * What the channel took from the watch is a prefix of what the watch asked to
   * deliver; while the watch is not stopped and the receiver lives, it is all of it
   * but the events in hand.
   */
  lemma DeliveriesArePrefix(s: Sys)
    requires Reachable(s)
    ensures && s.sent <= Asked(s.script)
            && (!s.shared.stop && !s.receiverGone ==> Asked(s.script) == s.sent + InFlight(s.worker))
  {
    ReachableInv(s);
  }

  lemma StopEndsSending(s: Sys, step: Step)
    requires Inv(s) && Enabled(s, step) && s.shared.stop
    ensures Next(s, step).shared.stop && Next(s, step).sent == s.sent
  {
    match step {
      case CallerStep(a) =>
        if Early(s.caller) {
          EarlyFlags(s.shared, s.inMap, s.caller, a);
        } else {
          ClosingFlags(s.shared, s.inMap, s.caller, a);
        }
      case WorkerStep(a) =>
        if OnStream(s.worker) {
          OnStreamDeliveries(s.worker, s.shared, s.receiverGone, a);
        } else {
          OffStreamDeliveries(s.worker, s.shared, s.receiverGone, s.failing, s.streams, a);
        }
    }
  }

  /** Nothing is received after `detach` has set `stop`, however long the run goes on. */
  lemma {:induction false} NothingAfterDetach(s: Sys, steps: seq<Step>)
    requires Inv(s) && Plays(s, steps) && s.shared.stop
    ensures Play(s, steps).shared.stop && Play(s, steps).sent == s.sent
    decreases |steps|
  {
    if steps != [] {
      StopEndsSending(s, steps[0]);
      match steps[0] {
        case CallerStep(a) => CallerKeepsInv(s, a);
        case WorkerStep(a) => WorkerKeepsInv(s, a);
      }
      NothingAfterDetach(Next(s, steps[0]), steps[1..]);
    }
  }

  // ----- The end of the thread -----

  function AfterRank(after: After): nat {
    match after
    case ToStream(_) => 7
    case ToHold => 2
    case ToLeave => 1
  }

  /** How many of its own steps a stopped watch thread has left, at most. */
  function StopRank(worker: Worker): nat {
    match worker
    case Clearing(_) => 8
    case Awaiting(_) => 7
    case StopLooking(_, _) => 6
    case Observing(_, _) => 11
    case Delivering(rest, after) => |rest| + AfterRank(after)
    case EndLooking(_) => 5
    case EndLocking(_, _) => 4
    case Holding => 2
    case Pausing => 2
    case LivenessLooking => 5
    case ForgetStoring => 4
    case ForgetMarking => 3
    case Reconnecting => 4
    case Installing(_) => 2
    case DropStoring => 3
    case Leaving => 1
    case Dead => 0
  }

  lemma StopRankFalls(s: Sys, a: Answer)
    requires Enabled(s, WorkerStep(a)) && s.shared.stop
    ensures StopRank(Next(s, WorkerStep(a)).worker) < StopRank(s.worker)
  {
    if OnStream(s.worker) {
    } else {
      OffStreamRankFalls(s.worker, s.shared, s.failing, s.streams, a);
    }
  }

  lemma OffStreamRankFalls(worker: Worker, s: Shared, failing: bool, streams: nat, a: Answer)
    requires WorkerMay(worker, s, false, a) && !OnStream(worker) && s.stop
    ensures StopRank(MoveOffStream(worker, s, failing, streams, a).to) < StopRank(worker)
  {
  }

  function WorkerSteps(steps: seq<Step>): nat {
    if steps == [] then 0 else (if steps[0].WorkerStep? then 1 else 0) + WorkerSteps(steps[1..])
  }

  lemma CallerLeavesWorker(s: Sys, a: Answer)
    requires Enabled(s, CallerStep(a))
    ensures Next(s, CallerStep(a)).worker == s.worker
  {
  }

  lemma {:induction false} StoppedThreadRuns(s: Sys, steps: seq<Step>)
    requires Inv(s) && Plays(s, steps) && s.shared.stop
    ensures WorkerSteps(steps) + StopRank(Play(s, steps).worker) <= StopRank(s.worker)
    decreases |steps|
  {
    if steps != [] {
      StoppedThreadSteps(s, steps[0]);
      StoppedThreadRuns(Next(s, steps[0]), steps[1..]);
    }
  }

  lemma StoppedThreadSteps(s: Sys, step: Step)
    requires Inv(s) && Enabled(s, step) && s.shared.stop
    ensures Inv(Next(s, step)) && Next(s, step).shared.stop
    ensures (if step.WorkerStep? then 1 else 0) + StopRank(Next(s, step).worker) <= StopRank(s.worker)
  {
    StopEndsSending(s, step);
    match step {
      case CallerStep(a) =>
        CallerKeepsInv(s, a);
        CallerLeavesWorker(s, a);
      case WorkerStep(a) =>
        WorkerKeepsInv(s, a);
        StopRankFalls(s, a);
    }
  }

  /** Once stopped, a watch thread is never stuck, and has ended after at most its rank of its own steps. */
  lemma DetachEndsTheThread(s: Sys, steps: seq<Step>)
    requires Reachable(s) && Plays(s, steps) && s.shared.stop
    ensures WorkerSteps(steps) >= StopRank(s.worker) ==> Play(s, steps).shared.exited
    ensures !s.worker.Dead? ==> exists a: Answer :: Enabled(s, WorkerStep(a))
  {
    ReachableInv(s);
    StoppedThreadRuns(s, steps);
    RunsKeepInv(s, steps);
    if StopRank(Play(s, steps).worker) == 0 {
      RankZeroIsDead(Play(s, steps));
    }
    if !s.worker.Dead? {
      StoppedThreadMoves(s);
    }
  }

  lemma RankZeroIsDead(s: Sys)
    requires DeliveryOk(s) && FlagsOk(s) && StopRank(s.worker) == 0
    ensures s.shared.exited
  {
  }

  lemma StoppedThreadMoves(s: Sys)
    requires Inv(s) && s.shared.stop && !s.worker.Dead?
    ensures exists a: Answer :: Enabled(s, WorkerStep(a))
  {
    var a := match s.worker
             case Awaiting(_) => StreamOver
             case Delivering(_, _) => Tried(Full)
             case EndLooking(_) => Alive(true)
             case LivenessLooking => Alive(true)
             case ForgetStoring => StoreDone(true)
             case DropStoring => StoreDone(true)
             case Reconnecting => Opened
             case _ => Go;
    assert Enabled(s, WorkerStep(a));
  }

  // ----- The mark -----

  /** Which steps raise the mark. */
  predicate Raises(s: Sys, step: Step) {
    step.CallerStep? && CallerRaises(s.shared, s.caller)
  }

  /** Which steps lower it. */
  predicate Lowers(s: Sys, step: Step) {
    if step.CallerStep? then CallerLowers(s.caller) else WorkerLowers(s.shared, s.worker)
  }

  /** Exactly these steps change the mark, and they always do: above all no close that ends in an error does. */
  lemma OnlyTheseChangeTheMark(s: Sys, step: Step)
    requires Reachable(s) && Enabled(s, step)
    ensures Next(s, step).shared.armed <==> Raises(s, step) || (s.shared.armed && !Lowers(s, step))
    ensures !(Raises(s, step) && Lowers(s, step))
  {
    assert CallsOk(s) by {
      ReachableInv(s);
    }
    match step {
      case CallerStep(a) => CallerMarks(s.shared, s.inMap, s.caller, s.call, a);
      case WorkerStep(a) => WorkerMarks(s.worker, s.shared, s.receiverGone, s.failing, s.streams, a);
    }
  }

  lemma CallerMarks(s: Shared, inMap: bool, caller: Caller, call: seq<CallMark>, a: Answer)
    requires CallerMay(caller, inMap, a) && CallLogOk(caller, call)
    ensures CallerMark(s, caller, MoveCaller(s, inMap, caller, a))
  {
    if Early(caller) {
      EarlyMarks(s, inMap, caller, a);
    } else {
      ClosingFrames(s, caller, a);
    }
  }

  lemma WorkerMarks(worker: Worker, s: Shared, receiverGone: bool, failing: bool, streams: nat, a: Answer)
    requires WorkerMay(worker, s, receiverGone, a)
    ensures WorkerFrame(worker, s, MoveWorker(worker, s, receiverGone, failing, streams, a))
  {
    if OnStream(worker) {
      OnStreamFrames(worker, s, receiverGone, a);
    } else {
      OffStreamFrames(worker, s, failing, streams, a);
    }
  }

  /**
   * Over every run: the mark's changes alternate, each rise was made by
   * `close_after_turn` under a lock that saw `Running`, each fall by `revoke`, by a
   * close whose door outlived its signal, or by the end of a stream no close held;
   * and the events ask for exactly one `Withdrawn` per fall of the last kind, and for
   * a `CloseDue` only with the end of a turn, seen while the mark stood. Each change
   * carries the program point of the step that made it (`Changed`).
   */
  lemma MarkAccounting(s: Sys)
    requires Reachable(s)
    ensures Alternates(s.marks) && s.shared.armed == (|s.marks| % 2 == 1)
    ensures multiset(Asked(s.script))[Withdrawn] == StreamFalls(s.marks)
    ensures CloseDueIsCaused(s.script)
  {
    ReachableInv(s);
    FaithfulCloseDue(s.script);
  }

  // ----- Asks -----

  /**
   * Past a stream's first lock, the pending asks are the fold of the frames read
   * from it (`PendingIffCarried`, `PendingIsOpen`); the frames asked to be forwarded
   * since it began are those frames in order but for the refused asks, so every
   * pending ask is among them; and the overflow notices are its first refused id,
   * once, or none (`FirstRefusalReportedOnce`).
   */
  lemma AsksAreTheStreams(s: Sys)
    requires Reachable(s)
    ensures var frames, asked := CurrentFrames(s.script), StreamAsked(s.script);
            && (!s.worker.Clearing? ==> s.shared.asks == Fold(frames).asks && |s.shared.asks| <= 64)
            && ForwardedFrames(asked) == Accepted(frames)
            && (forall frame :: frame in ForwardedFrames(asked) ==> exists k: nat :: KeptAt(frames, k, frame))
            && (!s.worker.Clearing? ==>
                  forall id :: id in s.shared.asks ==> AskFrame(id, s.shared.asks[id]) in ForwardedFrames(asked))
            && OverflowIds(asked) == Reports(frames)
  {
    ReachableInv(s);
    var frames := CurrentFrames(s.script);
    StreamReports(s.script);
    StreamForwards(s.script);
    PendingIsBounded(frames);
    forall id | id in Fold(frames).asks
      ensures AskFrame(id, Fold(frames).asks[id]) in Accepted(frames)
    {
      PendingIsAccepted(frames, id);
    }
    forall frame | frame in Accepted(frames) ensures exists k: nat :: KeptAt(frames, k, frame) {
      var k := AcceptedIsKept(frames, frame);
    }
  }

  lemma PendingIsAccepted(frames: seq<Frame>, id: nat)
    requires id in Fold(frames).asks
    ensures AskFrame(id, Fold(frames).asks[id]) in Accepted(frames)
  {
    var ask := Fold(frames).asks[id];
    PendingIffCarried(frames, id, ask);
    var k: nat :| CarriedLastAt(frames, k, id, ask);
    KeptIsAccepted(frames, k, AskFrame(id, ask));
  }

  // ----- What the thread reports of itself -----

  /**
   * In every run: `Gone` is asked for exactly when the door was marked gone; a failed reconnect is reported exactly
   * when no other failed since the last stream began; a dropped record is reported exactly when a reconnect failed
   * on identity; and after either farewell the thread learns nothing more and leaves.
   */
  lemma ReportsAreMade(s: Sys)
    requires Reachable(s)
    ensures s.shared.gone <==> Gone in Asked(s.script)
    ensures forall k: nat :: k < |s.script| ==>
              (Unwatched in EventsOf(s.script[k]) <==> s.script[k].Unusable? && !Failing(s.script[..k]))
    ensures forall k: nat :: k < |s.script| ==>
              (RecordDropped in EventsOf(s.script[k]) <==> s.script[k].IdentityFailed?)
    ensures forall k: nat :: k < |s.script| && Farewell(s.script[k]) ==> k == |s.script| - 1 && IsLeaving(s.worker)
  {
    ReachableInv(s);
    forall k: nat | k < |s.script|
      ensures Unwatched in EventsOf(s.script[k]) <==> s.script[k].Unusable? && s.script[k].first
      ensures RecordDropped in EventsOf(s.script[k]) <==> s.script[k].IdentityFailed?
    {
      OwnReports(s.script[k]);
    }
  }

  lemma OwnReports(cause: Cause)
    ensures Unwatched in EventsOf(cause) <==> cause == Unusable(true)
    ensures RecordDropped in EventsOf(cause) <==> cause == IdentityFailed
  {
  }

  // ----- The turn a close sees -----

  /**
   * A call that takes the turn as idle has the door's word for it: the last turn
   * frame of the stream being read said so, or a cancel was answered "idle" since.
   */
  lemma IdleIsTheDoorsWord(s: Sys, step: Step)
    requires Reachable(s) && Enabled(s, step)
    requires !s.shared.closing && Next(s, step).shared.closing
    ensures TurnOf(s.script) == Idle || s.idleNoted
    ensures Drained(s.worker).Some? || s.idleNoted
  {
    ReachableInv(s);
    ClosingIsSetIdle(s, step);
  }

  /**
   * The record's comment says a new stream starts `Unknown`. It does exactly when no
   * cancel's "idle" was written since the last stream ended.
   */
  lemma NewStreamsTurn(s: Sys)
    requires Reachable(s) && s.worker.Clearing?
    ensures s.shared.turn == Unknown <==> !s.idleNoted
    ensures s.shared.turn == Idle <==> s.idleNoted
  {
    ReachableInv(s);
  }

  lemma Advance(s: Sys, step: Step) returns (t: Sys)
    requires Reachable(s) && Enabled(s, step)
    ensures Reachable(t) && t == Next(s, step)
  {
    ReachOn(s, step);
    t := Next(s, step);
  }

  lemma StreamIsOver() returns (s: Sys)
    ensures Reachable(s) && s.inMap
    ensures s.worker == EndLooking(0) && s.caller == Free && s.shared == NEW_SHARED.(closer := Some(0))
            && s.streams == 1
  {
    s := Init(true);
    assert Plays(Init(true), []);
    s := Advance(s, WorkerStep(Go));
    s := Advance(s, WorkerStep(StreamOver));
  }

  lemma StreamEndsFirst() returns (s: Sys)
    ensures Reachable(s) && s.inMap
    ensures s.worker == Holding && s.caller == Free && s.shared == NEW_SHARED && s.streams == 1
  {
    s := StreamIsOver();
    s := Advance(s, WorkerStep(Alive(true)));
    s := Advance(s, WorkerStep(Go));
  }

  lemma StopBegins() returns (s: Sys)
    ensures Reachable(s) && s.inMap && s.caller == StopVerifying
    ensures s.worker == Holding && s.shared == NEW_SHARED && s.streams == 1
  {
    s := StreamEndsFirst();
    s := Advance(s, CallerStep(Begin(StopNow)));
    s := Advance(s, CallerStep(Go));
    s := Advance(s, CallerStep(Go));
  }

  lemma StopNotesIdle() returns (s: Sys)
    ensures Reachable(s)
    ensures s.worker == Holding && s.shared == NEW_SHARED.(turn := Idle) && s.streams == 1
  {
    s := StopBegins();
    s := Advance(s, CallerStep(Checked(Holds)));
    s := Advance(s, CallerStep(Go));
    s := Advance(s, CallerStep(Cancelled(CancelIdle)));
    s := Advance(s, CallerStep(Go));
  }

  lemma WatchReconnects() returns (s: Sys)
    ensures Reachable(s)
    ensures s.worker == Reconnecting && s.shared == NEW_SHARED.(turn := Idle) && s.streams == 1
  {
    s := StopNotesIdle();
    s := Advance(s, WorkerStep(Go));
    s := Advance(s, WorkerStep(Go));
    s := Advance(s, WorkerStep(Alive(true)));
  }

  /** It can start `Idle`: `stop_now` writes its cancel's answer between two streams. */
  lemma NewStreamCanStartIdle() returns (s: Sys)
    ensures Reachable(s) && s.worker == Clearing(1) && s.shared.turn == Idle
  {
    s := WatchReconnects();
    s := Advance(s, WorkerStep(Opened));
    s := Advance(s, WorkerStep(Go));
  }

  lemma StreamTellsIdle() returns (s: Sys)
    ensures Reachable(s) && s.caller == Free && s.inMap && s.call == [] && s.calls == []
    ensures s.shared == OPEN_AND_IDLE
  {
    s := Init(true);
    assert Plays(Init(true), []);
    s := Advance(s, WorkerStep(Go));
    s := Advance(s, WorkerStep(FrameRead(TurnFrame(false))));
    s := Advance(s, WorkerStep(Go));
    s := Advance(s, WorkerStep(Go));
  }

  /** One step of the caller, by its move. */
  lemma CallerAdvance(s: Sys, a: Answer) returns (t: Sys)
    requires Reachable(s) && Enabled(s, CallerStep(a))
    ensures var m := MoveCaller(s.shared, s.inMap, s.caller, a);
            && Reachable(t) && t.shared == m.shared && t.caller == m.to && t.inMap == (s.inMap && !m.unmaps)
            && (m.notes == [] ==> t.call == s.call && t.calls == s.calls)
            && (if ReturnsNow(m) then t.call == [] && t.calls == s.calls + [s.call + m.notes]
                else t.call == s.call + m.notes && t.calls == s.calls)
  {
    t := Advance(s, CallerStep(a));
  }

  /** The record of a stream that is open and has told an idle turn. */
  const OPEN_AND_IDLE: Shared := NEW_SHARED.(closer := Some(0), turn := Idle)

  /** A look that finds the watch goes on, and notes nothing. */
  lemma LooksOn(s: Shared, op: Op, at: Look)
    requires !s.exited
    ensures MoveCaller(s, true, Looking(op, at), Go) == Goes(s, Looked(op, at), [])
  {
  }

  lemma CallerGoesOn(s: Sys, to: Caller) returns (t: Sys)
    requires Reachable(s) && CallerMay(s.caller, s.inMap, Go)
    requires MoveCaller(s.shared, s.inMap, s.caller, Go) == Goes(s.shared, to, [])
    ensures Reachable(t) && t.shared == s.shared && t.caller == to && t.inMap == s.inMap
    ensures t.call == s.call && t.calls == s.calls
  {
    t := CallerAdvance(s, Go);
  }

  lemma CloseBegins() returns (s: Sys)
    ensures Reachable(s) && s.caller == Looking(AfterTurn, AtEntry) && s.inMap && s.calls == []
    ensures s.call == [Began(AfterTurn)] && s.shared == OPEN_AND_IDLE
  {
    s := StreamTellsIdle();
    s := CallerAdvance(s, Begin(AfterTurn));
  }

  lemma CloseReads() returns (s: Sys)
    ensures Reachable(s) && s.caller == Reading(AfterTurn) && s.inMap && s.calls == []
    ensures s.call == [Began(AfterTurn)] && s.shared == OPEN_AND_IDLE
  {
    s := CloseBegins();
    LooksOn(s.shared, AfterTurn, AtEntry);
    s := CallerGoesOn(s, Reading(AfterTurn));
  }

  lemma CloseLooks() returns (s: Sys)
    ensures Reachable(s) && s.caller == Looking(AfterTurn, AtClose) && s.inMap && s.calls == []
    ensures s.call == [Began(AfterTurn), TurnRead(Idle)] && s.shared == OPEN_AND_IDLE
  {
    s := CloseReads();
    s := CallerAdvance(s, Go);
  }

  lemma CloseChecks() returns (s: Sys)
    ensures Reachable(s) && s.caller == CloseVerifying(AfterTurn) && s.inMap && s.calls == []
    ensures s.call == [Began(AfterTurn), TurnRead(Idle)] && s.shared == OPEN_AND_IDLE
  {
    s := CloseLooks();
    LooksOn(s.shared, AfterTurn, AtClose);
    s := CallerGoesOn(s, CloseVerifying(AfterTurn));
  }

  lemma CloseVerifies() returns (s: Sys)
    ensures Reachable(s) && s.caller == CloseLocking(AfterTurn) && s.inMap && s.calls == []
    ensures s.call == [Began(AfterTurn), TurnRead(Idle), Verified(Holds)]
    ensures s.shared == OPEN_AND_IDLE
  {
    s := CloseChecks();
    s := CallerAdvance(s, Checked(Holds));
  }

  lemma CloseTakesIdle() returns (s: Sys)
    ensures Reachable(s) && s.caller == Signalling(AfterTurn) && s.inMap && !s.shared.exited && s.calls == []
    ensures s.call == [Began(AfterTurn), TurnRead(Idle), Verified(Holds), TurnLocked(Idle)]
  {
    s := CloseVerifies();
    s := CallerAdvance(s, Go);
  }

  lemma CloseFindsGone() returns (s: Sys)
    ensures Reachable(s) && s.caller == Storing(AfterTurn, true) && s.inMap && !s.shared.exited && s.calls == []
    ensures s.call == [Began(AfterTurn), TurnRead(Idle), Verified(Holds), TurnLocked(Idle), Signalled(AlreadyGone)]
  {
    s := CloseTakesIdle();
    s := CallerAdvance(s, Signals(AlreadyGone));
  }

  lemma CloseForgets() returns (s: Sys)
    ensures Reachable(s) && s.caller == Detaching(AfterTurn, true) && s.inMap && !s.shared.exited && s.calls == []
    ensures s.call ==
            [Began(AfterTurn), TurnRead(Idle), Verified(Holds), TurnLocked(Idle), Signalled(AlreadyGone), Stored(true)]
  {
    s := CloseFindsGone();
    s := CallerAdvance(s, StoreDone(true));
  }

  lemma CloseDetaches() returns (s: Sys)
    ensures Reachable(s) && s.caller == Joining(AfterTurn, true) && !s.shared.exited && s.calls == []
    ensures s.call ==
            [Began(AfterTurn), TurnRead(Idle), Verified(Holds), TurnLocked(Idle), Signalled(AlreadyGone), Stored(true)]
  {
    s := CloseForgets();
    s := CallerAdvance(s, Go);
  }

  /** `Exited` can come of a signal that was not sent: the door was gone before it. */
  lemma ExitedCanBeUnsent() returns (s: Sys)
    ensures Reachable(s) && |s.calls| == 1
    ensures s.calls[0] ==
            [Began(AfterTurn), TurnRead(Idle), Verified(Holds), TurnLocked(Idle), Signalled(AlreadyGone), Stored(true),
             Returned(Exited(false))]
  {
    s := CloseDetaches();
    s := CallerAdvance(s, Go);
  }
}
