// One door's caller and its watch thread, interleaved at the lock
// (pkgs/aoide-desktop/crates/shell/src/doors.rs, `Doors`, `Watch` and `Worker`).
//
// A step is one critical section, or one answer of the outside world: the stream,
// the identity checks, the pidfd, the store and the channel answer as they like.
// The calls take `&mut self`, so one call runs at a time.
module DoorProtocol {
  import opened Common
  import opened DoorShared
  import opened DoorAsks
  import opened DoorScript

  // ----- What the outside world answers -----

  datatype Check = Holds | Identity | Unchecked

  /** A door that is gone has been reaped, so the first look for its exit sees it: no wait follows `AlreadyGone`. */
  datatype Signal = Sent | AlreadyGone | SignalFailed
  datatype Cancel = CancelFails | CancelIdle | CancelDone
  datatype TrySend = Taken | Full | Disconnected

  datatype Answer =
    | Go
    | Begin(op: Op)
    | Checked(check: Check)
    | Cancelled(cancel: Cancel)
    | Signals(signal: Signal)
    | ExitSeen(exited: bool)
    | StoreDone(ok: bool)
    | FrameRead(frame: Frame)
    | StreamOver
    | Alive(alive: bool)
    | Tried(send: TrySend)
    | Opened
    | OpenIdentity
    | OpenOther

  // ----- The caller -----

  /** The public calls that act on a watch; `Leave` is the drop of `Doors`. */
  datatype Op = AfterTurn | Due | StopNow | Revoke | Leave

  /** Where `watch(id)?` looks the watch up; each look reads `exited` under the lock. */
  datatype Look = AtEntry | AtLink | AtDoor | AtWait | AtClose

  datatype Caller =
    | Free
    | Looking(op: Op, at: Look)
    | Reading(op: Op)
    | StopVerifying
    | Cancelling
    | NotingIdle
    | Waiting
    | CloseVerifying(op: Op)
    | CloseLocking(op: Op)
    | Signalling(op: Op)
    | Unsignalled(op: Op)
    | AwaitingExit(op: Op)
    | GivingUp(op: Op)
    | Storing(op: Op, died: bool)
    | Unstored(op: Op, died: bool)
    | Detaching(op: Op, died: bool)
    | Joining(op: Op, died: bool)

  datatype Result =
    | Exited(joined: bool)
    | StillLive
    | Dropped
    | Busy
    | ArmedNow
    | StaysArmed
    | Revoked
    | NoTurnEnd
    | Unmarked
    | Left
    | Failed(error: Error)

  datatype Error = UnknownDoor | TurnUnknown | Unverified | SignalError | StoreError | CancelError

  /**
   * What one call did, in order: what its own locks read and its outside answers were, with the check a stop makes
   * first apart from the one its close makes.
   */
  datatype CallMark =
    | Began(op: Op)
    | NotFound
    | MarkRead(armed: bool)
    | TurnRead(turn: TurnState)
    | StopChecked(check: Check)
    | CancelAnswered(cancel: Cancel)
    | NotedIdle
    | TurnWaited(turn: TurnState)
    | Verified(check: Check)
    | TurnLocked(turn: TurnState)
    | Signalled(signal: Signal)
    | ExitLooked(exited: bool)
    | Stored(ok: bool)
    | Returned(result: Result)

  // ----- The watch thread -----

  datatype After = ToStream(stream: Stream) | ToHold | ToLeave

  datatype Worker =
    | Clearing(stream: Stream)
    | Awaiting(stream: Stream)
    | StopLooking(stream: Stream, frame: Frame)
    | Observing(stream: Stream, frame: Frame)
    | Delivering(rest: seq<Event>, after: After)
    | EndLooking(stream: Stream)
    | EndLocking(stream: Stream, alive: bool)
    | Holding
    | Pausing
    | LivenessLooking
    | ForgetStoring
    | ForgetMarking
    | Reconnecting
    | Installing(stream: Stream)
    | DropStoring
    | Leaving
    | Dead

  // ----- The mark's history -----

  /** Whose step it was, and where it stood. */
  datatype Point = CallerAt(caller: Caller) | WatchAt(worker: Worker)

  /** A change of the armed mark: the step that made it, and what its lock saw. */
  datatype MarkChange = Raised(turn: TurnState, at: Point) | Fell(closing: bool, at: Point)

  /**
   * The record, both program counters, and the histories: `call` is the call in
   * progress, `calls` the finished ones, `script` what the watch asked to deliver
   * and why, `sent` what the caller's channel took from this watch, `fired` the
   * closed streams, and `idleNoted` whether a cancel's "idle" was written since the
   * door's own frames last told its turn, or its last stream ended.
   */
  datatype Sys = Sys(
    shared: Shared,
    caller: Caller,
    worker: Worker,
    inMap: bool,
    receiverGone: bool,
    failing: bool,
    streams: nat,
    fired: set<Stream>,
    idleNoted: bool,
    call: seq<CallMark>,
    calls: seq<seq<CallMark>>,
    marks: seq<MarkChange>,
    script: seq<Cause>,
    sent: seq<Event>)

  /** A watch starts on an open stream, or unattached. */
  function Init(attached: bool): Sys {
    Sys(if attached then NEW_SHARED.(closer := Some(0)) else NEW_SHARED,
        Free, if attached then Clearing(0) else Holding,
        true, false, false, if attached then 1 else 0, {}, false, [], [], [], [], [])
  }

  // ----- The caller's moves -----

  /**
   * What one step of the caller does: where it goes, the record it leaves, the
   * closer it fires, and what its call notes.
   */
  datatype CallerMove = CallerMove(
    to: Caller,
    shared: Shared,
    fires: Option<Stream>,
    notes: seq<CallMark>,
    unmaps: bool)

  function Goes(s: Shared, to: Caller, notes: seq<CallMark>): CallerMove {
    CallerMove(to, s, None, notes, false)
  }

  function Returns(s: Shared, notes: seq<CallMark>, result: Result): CallerMove {
    Goes(s, Free, notes + [Returned(result)])
  }

  predicate CallerMay(caller: Caller, inMap: bool, a: Answer) {
    match caller
    case Free => a.Begin? && (a.op == Leave ==> inMap)
    case StopVerifying => a.Checked?
    case CloseVerifying(_) => a.Checked?
    case Cancelling => a.Cancelled?
    case Signalling(_) => a.Signals?
    case AwaitingExit(_) => a.ExitSeen?
    case Storing(_, _) => a.StoreDone?
    case _ => a.Go?
  }

  function Looked(op: Op, at: Look): Caller {
    match at
    case AtEntry => if op == StopNow then Looking(op, AtLink) else Reading(op)
    case AtLink => StopVerifying
    case AtDoor => Cancelling
    case AtWait => Waiting
    case AtClose => CloseVerifying(op)
  }

  /** The call's own first lock: `close_after_turn` marks, `close_due` reads the mark, `revoke` clears it. */
  function MoveReading(s: Shared, op: Op): CallerMove {
    match op
    case AfterTurn =>
      var marked := MarkRunning(s);
      (match s.turn
       case Unknown => Returns(marked, [TurnRead(Unknown)], Failed(TurnUnknown))
       case Running => Returns(marked, [TurnRead(Running)], ArmedNow)
       case Idle => Goes(marked, Looking(op, AtClose), [TurnRead(Idle)]))
    case Due =>
      if s.armed then Goes(s, Looking(op, AtClose), [MarkRead(true)]) else Returns(s, [MarkRead(false)], Revoked)
    case _ => Returns(Unmark(s), [], Unmarked)
  }

  function MoveLocking(s: Shared, op: Op): CallerMove {
    var (shared, outcome) := TakeIdle(s, op == AfterTurn);
    var seen := [TurnLocked(s.turn)];
    match outcome
    case CloseBusy => Returns(shared, seen, if op == Due then StaysArmed else Busy)
    case CloseArmed => Returns(shared, seen, ArmedNow)
    case CloseTaken(closer) => Goes(shared, Signalling(op), seen).(fires := closer)
  }

  function MoveVerifying(s: Shared, op: Op, check: Check): CallerMove {
    match check
    case Holds => Goes(s, CloseLocking(op), [Verified(Holds)])
    case Identity => Goes(s, Storing(op, false), [Verified(Identity)])
    case Unchecked => Returns(s, [Verified(Unchecked)], Failed(Unverified))
  }

  /** The part of a call before it sets `closing`. */
  predicate Early(caller: Caller) {
    caller.Free? || caller.Looking? || caller.Reading? || caller.StopVerifying? || caller.Cancelling?
    || caller.NotingIdle? || caller.Waiting? || caller.CloseVerifying? || caller.CloseLocking?
  }

  function MoveEarly(s: Shared, inMap: bool, caller: Caller, a: Answer): CallerMove
    requires CallerMay(caller, inMap, a) && Early(caller)
  {
    match caller
    case Free =>
      Goes(s, if a.op == Leave then Detaching(Leave, false) else Looking(a.op, AtEntry), [Began(a.op)])
    case Looking(op, at) =>
      if s.exited || !inMap then Returns(s, [NotFound], Failed(UnknownDoor)) else Goes(s, Looked(op, at), [])
    case Reading(op) => MoveReading(s, op)
    case StopVerifying =>
      Goes(s, Looking(StopNow, if a.check == Holds then AtDoor else AtClose), [StopChecked(a.check)])
    case Cancelling =>
      var answered := [CancelAnswered(a.cancel)];
      (match a.cancel
       case CancelFails => Returns(s, answered, Failed(CancelError))
       case CancelIdle => Goes(s, NotingIdle, answered)
       case CancelDone => Goes(s, Looking(StopNow, AtWait), answered))
    case NotingIdle => Goes(NoteIdle(s), Looking(StopNow, AtClose), [NotedIdle])
    case Waiting =>
      var waited := [TurnWaited(s.turn)];
      if s.turn == Idle then Goes(s, Looking(StopNow, AtClose), waited) else Returns(s, waited, NoTurnEnd)
    case CloseVerifying(op) => MoveVerifying(s, op, a.check)
    case CloseLocking(op) => MoveLocking(s, op)
  }

  function MoveClosing(s: Shared, caller: Caller, a: Answer): CallerMove
    requires CallerMay(caller, true, a) && !Early(caller)
  {
    match caller
    case Signalling(op) =>
      var to := match a.signal
                case Sent => AwaitingExit(op)
                case AlreadyGone => Storing(op, true)
                case SignalFailed => Unsignalled(op);
      Goes(s, to, [Signalled(a.signal)])
    case Unsignalled(_) => Returns(ClearClosing(s), [], Failed(SignalError))
    case AwaitingExit(op) => Goes(s, if a.exited then Storing(op, true) else GivingUp(op), [ExitLooked(a.exited)])
    case GivingUp(_) => Returns(GiveUp(s), [], StillLive)
    case Storing(op, died) => Goes(s, if a.ok then Detaching(op, died) else Unstored(op, died), [Stored(a.ok)])
    case Unstored(_, _) => Returns(ClearClosing(s), [], Failed(StoreError))
    case Detaching(op, died) =>
      var (shared, closer) := StopWatch(s);
      Goes(shared, Joining(op, died), []).(fires := closer, unmaps := true)
    case Joining(op, died) =>
      Returns(s, [], if op == Leave then Left else if died then Exited(s.exited) else Dropped)
  }

  function MoveCaller(s: Shared, inMap: bool, caller: Caller, a: Answer): CallerMove
    requires CallerMay(caller, inMap, a)
  {
    if Early(caller) then MoveEarly(s, inMap, caller, a) else MoveClosing(s, caller, a)
  }

  // ----- The watch thread's moves -----

  /**
   * What one step of the watch thread does: where it goes, the record it leaves,
   * what it learned, what the channel took, and what its own flags become.
   */
  datatype WorkerMove = WorkerMove(
    to: Worker,
    shared: Shared,
    learns: Option<Cause>,
    sends: Option<Event>,
    receiverGone: bool,
    failing: Option<bool>,
    opens: bool)

  function Turns(s: Shared, to: Worker): WorkerMove {
    WorkerMove(to, s, None, None, false, None, false)
  }

  function Resume(rest: seq<Event>, after: After): Worker {
    if rest != [] then Delivering(rest, after)
    else
      match after
      case ToStream(stream) => Awaiting(stream)
      case ToHold => Holding
      case ToLeave => Leaving
  }

  /** The watch learned `cause`, and delivers what it calls for. */
  function Learns(s: Shared, cause: Cause, after: After): WorkerMove {
    Turns(s, Resume(EventsOf(cause), after)).(learns := Some(cause))
  }

  predicate WorkerMay(worker: Worker, s: Shared, receiverGone: bool, a: Answer) {
    match worker
    case Awaiting(_) => a.FrameRead? || a.StreamOver?
    case Delivering(rest, _) =>
      rest != [] && a.Tried? && (receiverGone && !s.stop ==> a.send == Disconnected)
    case EndLooking(_) => a.Alive?
    case LivenessLooking => a.Alive?
    case Holding => a.Go? && (s.closing ==> s.stop)
    case ForgetStoring => a.StoreDone?
    case DropStoring => a.StoreDone?
    case Reconnecting => a.Opened? || a.OpenIdentity? || a.OpenOther?
    case Dead => false
    case _ => a.Go?
  }

  /** One try of `deliver`: under the lock, nothing is sent once the watch is stopped. */
  function MoveDelivering(s: Shared, rest: seq<Event>, after: After, send: TrySend): WorkerMove
    requires rest != []
  {
    var over := Turns(s, Resume(rest[1..], after));
    if s.stop then over
    else
      match send
      case Taken => over.(sends := Some(rest[0]))
      case Full => Turns(s, Delivering(rest, after))
      case Disconnected => over.(receiverGone := true)
  }

  function MoveInstalling(s: Shared, stream: Stream): WorkerMove {
    var (shared, outcome) := Install(s, stream);
    match outcome
    case InstallStop => Turns(shared, Leaving)
    case InstallHold => Turns(shared, Holding)
    case Installed => Turns(shared, Clearing(stream)).(failing := Some(false))
  }

  /** The part of the thread that reads one stream, up to its end. */
  predicate OnStream(worker: Worker) {
    worker.Clearing? || worker.Awaiting? || worker.StopLooking? || worker.Observing? || worker.Delivering?
    || worker.EndLooking? || worker.EndLocking?
  }

  function MoveOnStream(worker: Worker, s: Shared, receiverGone: bool, a: Answer): WorkerMove
    requires WorkerMay(worker, s, receiverGone, a) && OnStream(worker)
  {
    match worker
    case Clearing(stream) => Turns(ClearAsks(s), Awaiting(stream)).(learns := Some(StreamBegan))
    case Awaiting(stream) => Turns(s, if a.StreamOver? then EndLooking(stream) else StopLooking(stream, a.frame))
    case StopLooking(stream, frame) => Turns(s, if s.stop then EndLooking(stream) else Observing(stream, frame))
    case Observing(stream, frame) =>
      var (shared, seen) := Observe(s, frame);
      Learns(shared, Saw(frame, seen, s.armed), ToStream(stream))
    case Delivering(rest, after) => MoveDelivering(s, rest, after, a.send)
    case EndLooking(stream) => Turns(s, EndLocking(stream, a.alive))
    case EndLocking(_, alive) =>
      var (shared, withdrawn) := EndStream(s, alive);
      Learns(shared, StreamEnded(withdrawn), ToHold)
  }

  function MoveOffStream(worker: Worker, s: Shared, failing: bool, streams: nat, a: Answer): WorkerMove
    requires WorkerMay(worker, s, false, a) && !OnStream(worker)
  {
    match worker
    case Holding => Turns(s, if s.stop then Leaving else Pausing)
    case Pausing => Turns(s, if s.stop then Leaving else LivenessLooking)
    case LivenessLooking => Turns(s, if a.alive then Reconnecting else ForgetStoring)
    case ForgetStoring => Turns(s, ForgetMarking)
    case ForgetMarking => Learns(MarkGone(s), WentGone, ToLeave)
    case Reconnecting =>
      if a.Opened? then Turns(s, Installing(streams)).(opens := true)
      else if a.OpenIdentity? then Turns(s, DropStoring)
      else Learns(s, Unusable(!failing), ToHold).(failing := Some(true))
    case Installing(stream) => MoveInstalling(s, stream)
    case DropStoring => Learns(s, IdentityFailed, ToLeave)
    case Leaving => Turns(MarkExited(s), Dead)
  }

  function MoveWorker(worker: Worker, s: Shared, receiverGone: bool, failing: bool, streams: nat, a: Answer): WorkerMove
    requires WorkerMay(worker, s, receiverGone, a)
  {
    if OnStream(worker) then MoveOnStream(worker, s, receiverGone, a)
    else MoveOffStream(worker, s, failing, streams, a)
  }

  // ----- The system's steps -----

  /** The mark's history after a critical section. */
  function Changed(marks: seq<MarkChange>, before: Shared, after: Shared, at: Point): seq<MarkChange> {
    if before.armed == after.armed then marks
    else marks + [if after.armed then Raised(before.turn, at) else Fell(before.closing, at)]
  }

  function CallerMoves(s: Sys, m: CallerMove): Sys {
    var noted := s.call + m.notes;
    var returned := m.notes != [] && m.notes[|m.notes| - 1].Returned?;
    s.(shared := m.shared,
       caller := m.to,
       inMap := s.inMap && !m.unmaps,
       fired := if m.fires.Some? then s.fired + {m.fires.value} else s.fired,
       idleNoted := s.idleNoted || NotedIdle in m.notes,
       call := if returned then [] else noted,
       calls := if returned then s.calls + [noted] else s.calls,
       marks := Changed(s.marks, s.shared, m.shared, CallerAt(s.caller)))
  }

  function WorkerMoves(s: Sys, m: WorkerMove): Sys {
    s.(shared := m.shared,
       worker := m.to,
       receiverGone := s.receiverGone || m.receiverGone,
       failing := if m.failing.Some? then m.failing.value else s.failing,
       streams := if m.opens then s.streams + 1 else s.streams,
       idleNoted := s.idleNoted && !(m.learns.Some? && TellsTurn(m.learns.value)),
       script := if m.learns.Some? then s.script + [m.learns.value] else s.script,
       marks := Changed(s.marks, s.shared, m.shared, WatchAt(s.worker)),
       sent := if m.sends.Some? then s.sent + [m.sends.value] else s.sent)
  }

  // ----- Runs -----

  datatype Step = CallerStep(answer: Answer) | WorkerStep(answer: Answer)

  predicate Enabled(s: Sys, step: Step) {
    match step
    case CallerStep(a) => CallerMay(s.caller, s.inMap, a)
    case WorkerStep(a) => WorkerMay(s.worker, s.shared, s.receiverGone, a)
  }

  function Next(s: Sys, step: Step): Sys
    requires Enabled(s, step)
  {
    match step
    case CallerStep(a) => CallerMoves(s, MoveCaller(s.shared, s.inMap, s.caller, a))
    case WorkerStep(a) => WorkerMoves(s, MoveWorker(s.worker, s.shared, s.receiverGone, s.failing, s.streams, a))
  }

  predicate Plays(s: Sys, steps: seq<Step>)
    decreases |steps|
  {
    steps == [] || (Enabled(s, steps[0]) && Plays(Next(s, steps[0]), steps[1..]))
  }

  /** The state after a run. */
  function Play(s: Sys, steps: seq<Step>): Sys
    requires Plays(s, steps)
    decreases |steps|
  {
    if steps == [] then s else Play(Next(s, steps[0]), steps[1..])
  }

  /** A state some run from a watch's start comes to. */
  ghost predicate Reachable(s: Sys) {
    exists attached: bool, steps: seq<Step> :: Plays(Init(attached), steps) && s == Play(Init(attached), steps)
  }

  lemma {:induction false} PlayOn(s: Sys, steps: seq<Step>, step: Step)
    requires Plays(s, steps) && Enabled(Play(s, steps), step)
    ensures Plays(s, steps + [step]) && Play(s, steps + [step]) == Next(Play(s, steps), step)
    decreases |steps|
  {
    if steps == [] {
      OneStep(s, step);
      assert steps + [step] == [step];
    } else {
      PlayOn(Next(s, steps[0]), steps[1..], step);
      PlayFirst(s, steps[0], steps[1..] + [step]);
      assert [steps[0]] + (steps[1..] + [step]) == steps + [step];
    }
  }

  lemma PlayFirst(s: Sys, step: Step, more: seq<Step>)
    requires Enabled(s, step) && Plays(Next(s, step), more)
    ensures Plays(s, [step] + more) && Play(s, [step] + more) == Play(Next(s, step), more)
  {
    assert ([step] + more)[1..] == more;
  }

  lemma OneStep(s: Sys, step: Step)
    requires Enabled(s, step)
    ensures Plays(s, [step]) && Play(s, [step]) == Next(s, step)
  {
    assert [step][1..] == [];
  }

  lemma ReachOn(s: Sys, step: Step)
    requires Reachable(s) && Enabled(s, step)
    ensures Reachable(Next(s, step))
  {
    var attached: bool, steps: seq<Step> :| Plays(Init(attached), steps) && s == Play(Init(attached), steps);
    PlayOn(Init(attached), steps, step);
  }
}
