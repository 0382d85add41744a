// What every run of the door protocol keeps, and what that says of whole runs.
module DoorSafety {
  import opened Common
  import opened DoorShared
  import opened DoorAsks
  import opened DoorScript
  import opened DoorProtocol
  import opened DoorCalls

  // ----- Closers and the two flags -----

  /** The stream the watch thread reads, from its first lock to its end's. */
  function Drained(worker: Worker): Option<Stream> {
    match worker
    case Clearing(stream) => Some(stream)
    case Awaiting(stream) => Some(stream)
    case StopLooking(stream, _) => Some(stream)
    case Observing(stream, _) => Some(stream)
    case Delivering(_, ToStream(stream)) => Some(stream)
    case EndLooking(stream) => Some(stream)
    case EndLocking(stream, _) => Some(stream)
    case _ => None
  }

  /** The points of a close between setting `closing` and clearing it or stopping the watch. */
  predicate HoldsClosing(caller: Caller) {
    match caller
    case Signalling(_) => true
    case Unsignalled(_) => true
    case AwaitingExit(_) => true
    case GivingUp(_) => true
    case Storing(_, died) => died
    case Unstored(_, died) => died
    case Detaching(_, died) => died
    case _ => false
  }

  /** Past its looks a call has found the watch, and only `detach` takes it out of the map. */
  predicate CallerMapped(caller: Caller, inMap: bool) {
    && (!inMap ==> caller.Free? || caller.Looking? || caller.Joining?)
    && (caller.Joining? ==> !inMap)
  }

  ghost predicate ClosersOk(s: Sys) {
    && (s.shared.closing || s.shared.stop ==> s.shared.closer == None)
    && (Drained(s.worker).Some? ==>
          s.shared.closer == Drained(s.worker) || Drained(s.worker).value in s.fired)
    && (s.shared.closer.Some? ==> s.shared.closer == Drained(s.worker))
  }

  ghost predicate FlagsOk(s: Sys) {
    && (s.shared.closing ==> HoldsClosing(s.caller) || s.shared.stop)
    && (HoldsClosing(s.caller) ==> s.shared.closing)
    && s.shared.stop == !s.inMap
    && CallerMapped(s.caller, s.inMap)
    && s.shared.exited == s.worker.Dead?
    && (s.shared.gone ==> s.worker.Leaving? || s.worker.Dead? || (s.worker.Delivering? && s.worker.after == ToLeave))
  }

  // ----- Deliveries -----

  function InFlight(worker: Worker): seq<Event> {
    if worker.Delivering? then worker.rest else []
  }

  /** `sent` is what was asked for, but for the rest in hand; a prefix of it once the watch is cut off. */
  predicate Delivered(asked: seq<Event>, rest: seq<Event>, sent: seq<Event>, cutOff: bool) {
    && |rest| <= |asked|
    && asked == asked[..|asked| - |rest|] + rest
    && sent <= asked[..|asked| - |rest|]
    && (!cutOff ==> sent == asked[..|asked| - |rest|])
  }

  ghost predicate DeliveryOk(s: Sys) {
    && (s.worker.Delivering? ==> s.worker.rest != [])
    && Delivered(Asked(s.script), InFlight(s.worker), s.sent, s.shared.stop || s.receiverGone)
  }

  lemma DeliveredMore(asked: seq<Event>, sent: seq<Event>, cutOff: bool, events: seq<Event>)
    requires Delivered(asked, [], sent, cutOff)
    ensures Delivered(asked + events, events, sent, cutOff)
  {
    assert asked[..|asked|] == asked;
    assert (asked + events)[..|asked|] == asked;
  }

  lemma DeliveredFirst(asked: seq<Event>, rest: seq<Event>, sent: seq<Event>, cutOff: bool)
    requires Delivered(asked, rest, sent, cutOff) && rest != []
    ensures Delivered(asked, rest[1..], sent, true)
    ensures !cutOff ==> Delivered(asked, rest[1..], sent + [rest[0]], false)
  {
    var n := |asked| - |rest|;
    assert asked[n] == rest[0];
    assert asked[..n + 1] == asked[..n] + [rest[0]];
    assert asked == asked[..n + 1] + rest[1..];
  }

  ghost predicate AsksOk(s: Sys) {
    && Faithful(s.script)
    && (!s.worker.Clearing? ==>
          Ledger(s.shared.asks, s.shared.overflowed) == Fold(CurrentFrames(s.script)))
  }

  // ----- The turn between streams -----

  predicate BetweenStreams(worker: Worker) {
    worker.Clearing? || Drained(worker) == None
  }

  /** The turn is what the door's own frames told last, but for a cancel's "idle" since. */
  ghost predicate TurnOk(s: Sys) {
    && s.shared.turn == (if s.idleNoted then Idle else TurnOf(s.script))
    && (BetweenStreams(s.worker) ==> TurnOf(s.script) == Unknown)
  }

  // ----- Calls -----

  /** What the last mark of a call is, at each of its points. */
  predicate AtPoint(caller: Caller, call: seq<CallMark>)
    requires call != [] && call[0].Began?
  {
    var (op0, last) := (call[0].op, call[|call| - 1]);
    match caller
    case Free => false
    case Looking(op, at) =>
      && op == op0 && op != Leave
      && (match at
          case AtEntry => last == Began(op)
          case AtLink => last == Began(StopNow)
          case AtDoor => last == StopChecked(Holds)
          case AtWait => last == CancelAnswered(CancelDone)
          case AtClose => OpensClose(last))
    case Reading(op) => last == Began(op) && op in {AfterTurn, Due, Revoke}
    case StopVerifying => last == Began(StopNow)
    case Cancelling => last == StopChecked(Holds)
    case NotingIdle => last == CancelAnswered(CancelIdle)
    case Waiting => last == CancelAnswered(CancelDone)
    case CloseVerifying(op) => op == op0 && op != Leave && OpensClose(last)
    case CloseLocking(op) => op == op0 && op != Leave && last == Verified(Holds)
    case Signalling(op) => op == op0 && op != Leave && last == TurnLocked(Idle)
    case Unsignalled(op) => op == op0 && op != Leave && last == Signalled(SignalFailed)
    case AwaitingExit(op) => op == op0 && op != Leave && last == Signalled(Sent)
    case GivingUp(op) => op == op0 && op != Leave && last == ExitLooked(false)
    case Storing(op, died) => op == op0 && op != Leave && if died then Died(last) else last == Verified(Identity)
    case Unstored(op, died) => op == op0 && op != Leave && last == Stored(false)
    case Detaching(op, died) => op == op0 && StoredFor(op, died, call)
    case Joining(op, died) => op == op0 && StoredFor(op, died, call)
  }

  /** The record is gone from the store, for a door that died or one that is another; a drop of `Doors` keeps it. */
  predicate StoredFor(op: Op, died: bool, call: seq<CallMark>)
    requires call != []
  {
    if op == Leave then !died && call == [Began(Leave)]
    else
      && |call| >= 2 && call[|call| - 1] == Stored(true)
      && if died then Died(call[|call| - 2]) else call[|call| - 2] == Verified(Identity)
  }

  /** A call's log as far as it has come. */
  ghost predicate CallLogOk(caller: Caller, call: seq<CallMark>) {
    if caller.Free? then call == [] else Linked(call) && AtPoint(caller, call)
  }

  ghost predicate CallsOk(s: Sys) {
    && CallLogOk(s.caller, s.call)
    && forall c :: c in s.calls ==> Finished(c)
  }

  // ----- The mark -----

  /** `close_after_turn` raises the mark, at its first lock or in its close, where it sees a running turn. */
  predicate IsRaise(m: MarkChange) {
    m.Raised? && m.turn == Running && m.at in {CallerAt(Reading(AfterTurn)), CallerAt(CloseLocking(AfterTurn))}
  }

  predicate IsRevoke(m: MarkChange) {
    m.Fell? && m.at == CallerAt(Reading(Revoke))
  }

  predicate IsGivenUp(m: MarkChange) {
    m.Fell? && m.at.CallerAt? && m.at.caller.GivingUp?
  }

  /** The end of a stream that no close held, of a door that lives. */
  predicate IsStreamEnd(m: MarkChange) {
    m.Fell? && !m.closing && m.at.WatchAt? && m.at.worker.EndLocking? && m.at.worker.alive
  }

  function StreamFalls(marks: seq<MarkChange>): nat {
    if marks == [] then 0
    else StreamFalls(marks[..|marks| - 1]) + if IsStreamEnd(marks[|marks| - 1]) then 1 else 0
  }

  /** Rises and falls take turns, and each is one of those there are. */
  predicate Alternates(marks: seq<MarkChange>) {
    forall i: nat :: i < |marks| ==>
      if i % 2 == 0 then IsRaise(marks[i]) else IsRevoke(marks[i]) || IsGivenUp(marks[i]) || IsStreamEnd(marks[i])
  }

  predicate MarksAre(armed: bool, marks: seq<MarkChange>, asked: seq<Event>) {
    && armed == (|marks| % 2 == 1)
    && Alternates(marks)
    && StreamFalls(marks) == Withdrawals(asked)
  }

  ghost predicate MarksOk(s: Sys) {
    MarksAre(s.shared.armed, s.marks, Asked(s.script))
  }

  lemma StreamFallsMore(marks: seq<MarkChange>, change: MarkChange)
    ensures StreamFalls(marks + [change]) == StreamFalls(marks) + if IsStreamEnd(change) then 1 else 0
  {
    assert (marks + [change])[..|marks|] == marks;
  }

  lemma AlternatesMore(marks: seq<MarkChange>, change: MarkChange)
    requires Alternates(marks)
    requires if |marks| % 2 == 0 then IsRaise(change) else IsRevoke(change) || IsGivenUp(change) || IsStreamEnd(change)
    ensures Alternates(marks + [change])
  {
  }

  // ----- What the thread reports of itself -----

  /** The thread is on its way out. */
  predicate IsLeaving(worker: Worker) {
    worker.Leaving? || worker.Dead? || (worker.Delivering? && worker.after == ToLeave)
  }

  ghost predicate ReportsOk(s: Sys) {
    && Orderly(s.script)
    && (s.script != [] && Farewell(s.script[|s.script| - 1]) ==> IsLeaving(s.worker))
    && (s.shared.gone <==> Gone in Asked(s.script))
    && s.failing == (!s.worker.Clearing? && Failing(s.script))
  }

  /** A critical section that changes the mark as it may leaves a history that alternates. */
  lemma ChangedAlternates(marks: seq<MarkChange>, before: Shared, after: Shared, at: Point)
    requires before.armed == (|marks| % 2 == 1) && Alternates(marks)
    requires !before.armed && after.armed ==> IsRaise(Raised(before.turn, at))
    requires before.armed && !after.armed ==>
               var fall := Fell(before.closing, at); IsRevoke(fall) || IsGivenUp(fall) || IsStreamEnd(fall)
    ensures var changed := Changed(marks, before, after, at);
            && after.armed == (|changed| % 2 == 1) && Alternates(changed)
            && StreamFalls(changed) == StreamFalls(marks) +
               if before.armed && !after.armed && IsStreamEnd(Fell(before.closing, at)) then 1 else 0
  {
    if before.armed != after.armed {
      var change := if after.armed then Raised(before.turn, at) else Fell(before.closing, at);
      AlternatesMore(marks, change);
      StreamFallsMore(marks, change);
    }
  }

  ghost predicate Inv(s: Sys) {
    && ClosersOk(s) && FlagsOk(s) && DeliveryOk(s) && AsksOk(s)
    && TurnOk(s) && CallsOk(s) && MarksOk(s) && ReportsOk(s)
  }

  lemma InitKeepsFlags(attached: bool)
    ensures var s := Init(attached); ClosersOk(s) && FlagsOk(s) && DeliveryOk(s) && TurnOk(s)
  {
  }

  lemma InitKeepsLogs(attached: bool)
    ensures var s := Init(attached); AsksOk(s) && CallsOk(s) && MarksOk(s) && ReportsOk(s)
  {
  }

  lemma InitKeepsInv(attached: bool)
    ensures Inv(Init(attached))
  {
    InitKeepsFlags(attached);
    InitKeepsLogs(attached);
  }

  // ----- Every caller step keeps it -----

  /** What no move of the caller touches, and how it may change the turn and the closer. */
  predicate CallerFrame(s: Shared, m: CallerMove) {
    && m.shared.asks == s.asks && m.shared.overflowed == s.overflowed
    && m.shared.gone == s.gone && m.shared.exited == s.exited
    && m.shared.turn == (if NotedIdle in m.notes then Idle else s.turn)
    && (m.shared.closer == s.closer || m.shared.closer == None)
    && m.fires == (if m.shared.closer == s.closer then None else s.closer)
  }

  /** How a move of the caller may change the flags. */
  predicate CallerFlags(s: Shared, inMap: bool, m: CallerMove) {
    && m.shared.stop == !(inMap && !m.unmaps)
    && (m.shared.closing ==> HoldsClosing(m.to) || m.shared.stop)
    && (HoldsClosing(m.to) ==> m.shared.closing)
    && CallerMapped(m.to, inMap && !m.unmaps)
    && (m.shared.closing || m.shared.stop ==> m.shared.closer == None)
  }

  /** `close_after_turn` raises the mark, under a lock that sees a running turn. */
  predicate CallerRaises(s: Shared, caller: Caller) {
    s.turn == Running && caller in {Reading(AfterTurn), CloseLocking(AfterTurn)}
  }

  /** `revoke` lowers it, and so does a still-live close. */
  predicate CallerLowers(caller: Caller) {
    caller == Reading(Revoke) || caller.GivingUp?
  }

  /** Where the caller changes the mark: exactly there. */
  predicate CallerMark(s: Shared, caller: Caller, m: CallerMove) {
    m.shared.armed <==> CallerRaises(s, caller) || (s.armed && !CallerLowers(caller))
  }

  lemma EarlyFrames(s: Shared, inMap: bool, caller: Caller, a: Answer)
    requires CallerMay(caller, inMap, a) && Early(caller)
    ensures CallerFrame(s, MoveEarly(s, inMap, caller, a))
  {
    match caller {
      case Reading(op) => ReadingFrames(s, op);
      case CloseVerifying(op) => VerifyingFrames(s, op, a.check);
      case CloseLocking(op) => LockingFrames(s, op);
      case _ =>
    }
  }

  lemma ReadingFrames(s: Shared, op: Op)
    ensures CallerFrame(s, MoveReading(s, op))
  {
    match op {
      case AfterTurn => TurnFrames(s);
      case _ =>
    }
  }

  lemma TurnFrames(s: Shared)
    ensures CallerFrame(s, MoveReading(s, AfterTurn))
  {
  }

  lemma VerifyingFrames(s: Shared, op: Op, check: Check)
    ensures CallerFrame(s, MoveVerifying(s, op, check))
  {
  }

  lemma LockingFrames(s: Shared, op: Op)
    ensures CallerFrame(s, MoveLocking(s, op))
  {
    if s.turn == Idle {
      TakingFrames(s, op);
    } else {
      BusyFrames(s, op);
    }
  }

  lemma TakingFrames(s: Shared, op: Op)
    requires s.turn == Idle
    ensures CallerFrame(s, MoveLocking(s, op))
  {
    var taken := s.(closing := true, closer := None);
    assert MoveLocking(s, op) == Goes(taken, Signalling(op), [TurnLocked(Idle)]).(fires := s.closer);
  }

  lemma BusyFrames(s: Shared, op: Op)
    requires s.turn != Idle
    ensures CallerFrame(s, MoveLocking(s, op))
  {
  }

  lemma EarlyMarks(s: Shared, inMap: bool, caller: Caller, a: Answer)
    requires CallerMay(caller, inMap, a) && Early(caller)
    requires caller.Reading? ==> caller.op in {AfterTurn, Due, Revoke}
    ensures CallerMark(s, caller, MoveEarly(s, inMap, caller, a))
  {
    match caller {
      case Reading(op) => ReadingMarks(s, op);
      case CloseLocking(op) => LockingMarks(s, op);
      case _ =>
    }
  }

  lemma ReadingMarks(s: Shared, op: Op)
    requires op in {AfterTurn, Due, Revoke}
    ensures CallerMark(s, Reading(op), MoveReading(s, op))
  {
  }

  lemma LockingMarks(s: Shared, op: Op)
    ensures CallerMark(s, CloseLocking(op), MoveLocking(s, op))
  {
  }

  lemma ClosingFrames(s: Shared, caller: Caller, a: Answer)
    requires CallerMay(caller, true, a) && !Early(caller)
    ensures CallerFrame(s, MoveClosing(s, caller, a)) && CallerMark(s, caller, MoveClosing(s, caller, a))
  {
  }

  ghost predicate CallerReady(s: Shared, inMap: bool, caller: Caller) {
    && CallerMapped(caller, inMap)
    && s.stop == !inMap
    && (s.closing ==> HoldsClosing(caller) || s.stop)
    && (HoldsClosing(caller) ==> s.closing)
    && (s.closing || s.stop ==> s.closer == None)
  }

  lemma EarlyFlags(s: Shared, inMap: bool, caller: Caller, a: Answer)
    requires CallerMay(caller, inMap, a) && Early(caller) && CallerReady(s, inMap, caller)
    ensures CallerFlags(s, inMap, MoveEarly(s, inMap, caller, a))
  {
  }

  lemma ClosingFlags(s: Shared, inMap: bool, caller: Caller, a: Answer)
    requires CallerMay(caller, true, a) && !Early(caller) && CallerReady(s, inMap, caller)
    ensures CallerFlags(s, inMap, MoveClosing(s, caller, a))
  {
  }

  predicate ReturnsNow(m: CallerMove) {
    m.notes != [] && m.notes[|m.notes| - 1].Returned?
  }

  /** A returning move finishes its call's log; any other extends it. */
  ghost predicate LogMoves(call: seq<CallMark>, m: CallerMove) {
    if ReturnsNow(m) then m.to == Free && Finished(call + m.notes) else CallLogOk(m.to, call + m.notes)
  }

  lemma NotesNothing(call: seq<CallMark>, m: CallerMove)
    requires m.notes == [] && Linked(call) && !m.to.Free? && AtPoint(m.to, call)
    ensures LogMoves(call, m)
  {
    assert call + [] == call;
  }

  lemma NotesOne(call: seq<CallMark>, m: CallerMove, mark: CallMark)
    requires m.notes == [mark] && !mark.Returned? && Linked(call) && Follows(call + [mark], |call|)
    requires !m.to.Free? && AtPoint(m.to, call + [mark])
    ensures LogMoves(call, m)
  {
    LinkedMore(call, mark);
  }

  lemma NotesReturn(call: seq<CallMark>, m: CallerMove, result: Result)
    requires m.notes == [Returned(result)] && m.to == Free
    requires Linked(call) && Follows(call + [Returned(result)], |call|)
    ensures LogMoves(call, m)
  {
    LinkedMore(call, Returned(result));
  }

  lemma NotesLast(call: seq<CallMark>, m: CallerMove, mark: CallMark, result: Result)
    requires m.notes == [mark] + [Returned(result)] && m.to == Free && Linked(call) && Follows(call + [mark], |call|)
    requires Tells(call[0].op, call[|call| - 1], mark, result)
    ensures LogMoves(call, m)
  {
    LinkedMore(call, mark);
    LinkedMore(call + [mark], Returned(result));
    assert call + m.notes == call + [mark] + [Returned(result)];
  }

  lemma CallerLogEarly(s: Shared, inMap: bool, caller: Caller, call: seq<CallMark>, a: Answer)
    requires CallerMay(caller, inMap, a) && CallLogOk(caller, call) && Early(caller)
    ensures LogMoves(call, MoveEarly(s, inMap, caller, a))
  {
    var m := MoveEarly(s, inMap, caller, a);
    match caller {
      case Free => assert call + m.notes == [Began(a.op)];
      case Looking(op, at) =>
        if s.exited || !inMap {
          NotesLast(call, m, NotFound, Failed(UnknownDoor));
        } else {
          NotesNothing(call, m);
        }
      case Reading(op) => ReadingLogs(s, op, call);
      case CloseVerifying(op) => VerifyingLogs(s, op, call, a.check);
      case CloseLocking(op) => LockingLogs(s, op, call);
      case _ => StoppingLogs(s, inMap, caller, call, a);
    }
  }

  predicate Stopping(caller: Caller) {
    caller.StopVerifying? || caller.Cancelling? || caller.NotingIdle? || caller.Waiting?
  }

  lemma StoppingLogs(s: Shared, inMap: bool, caller: Caller, call: seq<CallMark>, a: Answer)
    requires CallerMay(caller, inMap, a) && CallLogOk(caller, call) && Stopping(caller)
    ensures LogMoves(call, MoveEarly(s, inMap, caller, a))
  {
    var m := MoveEarly(s, inMap, caller, a);
    FirstIsFirst(call, |call| - 1);
    match caller {
      case StopVerifying => NotesOne(call, m, StopChecked(a.check));
      case Cancelling =>
        if a.cancel == CancelFails {
          NotesLast(call, m, CancelAnswered(CancelFails), Failed(CancelError));
        } else {
          NotesOne(call, m, CancelAnswered(a.cancel));
        }
      case NotingIdle => NotesOne(call, m, NotedIdle);
      case Waiting =>
        if s.turn == Idle {
          NotesOne(call, m, TurnWaited(Idle));
        } else {
          NotesLast(call, m, TurnWaited(s.turn), NoTurnEnd);
        }
    }
  }

  lemma ReadingLogs(s: Shared, op: Op, call: seq<CallMark>)
    requires CallLogOk(Reading(op), call)
    ensures LogMoves(call, MoveReading(s, op))
  {
    var m := MoveReading(s, op);
    FirstIsFirst(call, |call| - 1);
    match op {
      case AfterTurn => TurnLogs(s, call);
      case Due => DueLogs(s, call);
      case _ => NotesReturn(call, m, Unmarked);
    }
  }

  lemma TurnLogs(s: Shared, call: seq<CallMark>)
    requires CallLogOk(Reading(AfterTurn), call)
    ensures LogMoves(call, MoveReading(s, AfterTurn))
  {
    var m := MoveReading(s, AfterTurn);
    FirstIsFirst(call, |call| - 1);
    match s.turn {
      case Idle => NotesOne(call, m, TurnRead(Idle));
      case Running => NotesLast(call, m, TurnRead(Running), ArmedNow);
      case Unknown => NotesLast(call, m, TurnRead(Unknown), Failed(TurnUnknown));
    }
  }

  lemma DueLogs(s: Shared, call: seq<CallMark>)
    requires CallLogOk(Reading(Due), call)
    ensures LogMoves(call, MoveReading(s, Due))
  {
    var m := MoveReading(s, Due);
    FirstIsFirst(call, |call| - 1);
    if s.armed {
      NotesOne(call, m, MarkRead(true));
    } else {
      NotesLast(call, m, MarkRead(false), Revoked);
    }
  }

  lemma VerifyingLogs(s: Shared, op: Op, call: seq<CallMark>, check: Check)
    requires CallLogOk(CloseVerifying(op), call)
    ensures LogMoves(call, MoveVerifying(s, op, check))
  {
    var m := MoveVerifying(s, op, check);
    if check == Unchecked {
      NotesLast(call, m, Verified(Unchecked), Failed(Unverified));
    } else {
      NotesOne(call, m, Verified(check));
    }
  }

  lemma LockingLogs(s: Shared, op: Op, call: seq<CallMark>)
    requires CallLogOk(CloseLocking(op), call)
    ensures LogMoves(call, MoveLocking(s, op))
  {
    var m := MoveLocking(s, op);
    if s.turn == Idle {
      NotesOne(call, m, TurnLocked(Idle));
    } else {
      var result := if op == AfterTurn && s.turn == Running then ArmedNow else if op == Due then StaysArmed else Busy;
      NotesLast(call, m, TurnLocked(s.turn), result);
    }
  }

  lemma CallerLogLate(s: Shared, caller: Caller, call: seq<CallMark>, a: Answer)
    requires CallerMay(caller, true, a) && CallLogOk(caller, call) && !Early(caller)
    ensures LogMoves(call, MoveClosing(s, caller, a))
  {
    var m := MoveClosing(s, caller, a);
    match caller {
      case Signalling(op) => SignallingLogs(s, op, call, a);
      case AwaitingExit(op) => AwaitingLogs(s, op, call, a);
      case Storing(op, died) => StoringLogs(s, op, died, call, a);
      case Detaching(op, died) => NotesNothing(call, m);
      case Joining(op, died) => JoiningLogs(s, op, died, call, a);
      case Unsignalled(_) => NotesReturn(call, m, Failed(SignalError));
      case GivingUp(_) => NotesReturn(call, m, StillLive);
      case Unstored(_, _) => NotesReturn(call, m, Failed(StoreError));
    }
  }

  lemma SignallingLogs(s: Shared, op: Op, call: seq<CallMark>, a: Answer)
    requires a.Signals? && CallLogOk(Signalling(op), call)
    ensures LogMoves(call, MoveClosing(s, Signalling(op), a))
  {
    NotesOne(call, MoveClosing(s, Signalling(op), a), Signalled(a.signal));
  }

  lemma AwaitingLogs(s: Shared, op: Op, call: seq<CallMark>, a: Answer)
    requires a.ExitSeen? && CallLogOk(AwaitingExit(op), call)
    ensures LogMoves(call, MoveClosing(s, AwaitingExit(op), a))
  {
    NotesOne(call, MoveClosing(s, AwaitingExit(op), a), ExitLooked(a.exited));
  }

  lemma StoringLogs(s: Shared, op: Op, died: bool, call: seq<CallMark>, a: Answer)
    requires a.StoreDone? && CallLogOk(Storing(op, died), call)
    ensures LogMoves(call, MoveClosing(s, Storing(op, died), a))
  {
    NotesOne(call, MoveClosing(s, Storing(op, died), a), Stored(a.ok));
  }

  lemma JoiningLogs(s: Shared, op: Op, died: bool, call: seq<CallMark>, a: Answer)
    requires a.Go? && CallLogOk(Joining(op, died), call)
    ensures LogMoves(call, MoveClosing(s, Joining(op, died), a))
  {
    var result := if op == Leave then Left else if died then Exited(s.exited) else Dropped;
    NotesReturn(call, MoveClosing(s, Joining(op, died), a), result);
  }

  lemma CallerMovesMarks(s: Sys, m: CallerMove)
    requires MarksOk(s) && CallerMark(s.shared, s.caller, m)
    ensures MarksOk(CallerMoves(s, m))
  {
    ChangedAlternates(s.marks, s.shared, m.shared, CallerAt(s.caller));
  }

  lemma CallerMovesClosers(s: Sys, m: CallerMove)
    requires ClosersOk(s) && CallerFrame(s.shared, m) && CallerFlags(s.shared, s.inMap, m)
    ensures ClosersOk(CallerMoves(s, m))
  {
  }

  lemma CallerMovesFlags(s: Sys, m: CallerMove)
    requires FlagsOk(s) && CallerFrame(s.shared, m) && CallerFlags(s.shared, s.inMap, m)
    ensures FlagsOk(CallerMoves(s, m))
  {
  }

  lemma CallerMovesDelivery(s: Sys, m: CallerMove)
    requires DeliveryOk(s) && FlagsOk(s) && CallerFlags(s.shared, s.inMap, m)
    ensures DeliveryOk(CallerMoves(s, m))
  {
  }

  lemma CallerMovesAsks(s: Sys, m: CallerMove)
    requires AsksOk(s) && TurnOk(s) && CallerFrame(s.shared, m)
    ensures AsksOk(CallerMoves(s, m)) && TurnOk(CallerMoves(s, m))
  {
  }

  lemma CallerMovesReports(s: Sys, m: CallerMove)
    requires ReportsOk(s) && CallerFrame(s.shared, m)
    ensures ReportsOk(CallerMoves(s, m))
  {
  }

  lemma CallerMovesCalls(s: Sys, m: CallerMove)
    requires CallsOk(s) && LogMoves(s.call, m)
    ensures CallsOk(CallerMoves(s, m))
  {
  }

  lemma CallerMoveKeepsInv(s: Sys, m: CallerMove)
    requires Inv(s)
    requires CallerFrame(s.shared, m) && CallerFlags(s.shared, s.inMap, m)
    requires CallerMark(s.shared, s.caller, m) && LogMoves(s.call, m)
    ensures Inv(CallerMoves(s, m))
  {
    CallerMovesClosers(s, m);
    CallerMovesFlags(s, m);
    CallerMovesDelivery(s, m);
    CallerMovesAsks(s, m);
    CallerMovesCalls(s, m);
    CallerMovesReports(s, m);
    CallerMovesMarks(s, m);
  }

  lemma CallerKeepsInv(s: Sys, a: Answer)
    requires Inv(s) && Enabled(s, CallerStep(a))
    ensures Inv(Next(s, CallerStep(a)))
  {
    if Early(s.caller) {
      EarlyFrames(s.shared, s.inMap, s.caller, a);
      EarlyMarks(s.shared, s.inMap, s.caller, a);
      EarlyFlags(s.shared, s.inMap, s.caller, a);
      CallerLogEarly(s.shared, s.inMap, s.caller, s.call, a);
    } else {
      ClosingFrames(s.shared, s.caller, a);
      ClosingFlags(s.shared, s.inMap, s.caller, a);
      CallerLogLate(s.shared, s.caller, s.call, a);
    }
    CallerMoveKeepsInv(s, MoveCaller(s.shared, s.inMap, s.caller, a));
  }

  // ----- Every step of the watch thread keeps it -----

  /** The end of a live door's stream that no close holds lowers the mark. */
  predicate WorkerLowers(s: Shared, worker: Worker) {
    worker.EndLocking? && worker.alive && !s.closing
  }

  /** What no move of the watch thread touches, and where it changes the mark: exactly there. */
  predicate WorkerFrame(worker: Worker, s: Shared, m: WorkerMove) {
    && m.shared.closing == s.closing
    && m.shared.stop == s.stop
    && (m.shared.armed <==> s.armed && !WorkerLowers(s, worker))
    && (m.learns == Some(StreamEnded(true)) <==> m.shared.armed != s.armed)
  }

  /** A stream the thread reads keeps its closer in the record until it is fired. */
  predicate WorkerCloser(worker: Worker, s: Shared, m: WorkerMove) {
    && (m.shared.closing || m.shared.stop ==> m.shared.closer == None)
    && (m.shared.closer.Some? ==> m.shared.closer == Drained(m.to))
    && (Drained(m.to).Some? ==>
          || m.shared.closer == Drained(m.to)
          || (m.shared.closer == s.closer && Drained(worker) == Drained(m.to)))
  }

  predicate WorkerPhase(worker: Worker, s: Shared, m: WorkerMove) {
    && m.shared.exited == m.to.Dead?
    && (m.shared.gone ==> m.to.Leaving? || m.to.Dead? || (m.to.Delivering? && m.to.after == ToLeave))
    && m.shared.turn == (if m.learns.Some? && TellsTurn(m.learns.value) then TurnOf([m.learns.value]) else s.turn)
    && (BetweenStreams(m.to) ==>
          if m.learns.Some? && TellsTurn(m.learns.value) then TurnOf([m.learns.value]) == Unknown
          else BetweenStreams(worker))
  }

  /** The event in hand first is kept, sent while the watch is not stopped, or given up. */
  predicate Disposes(before: seq<Event>, after: seq<Event>, stop: bool, receiverGone: bool, m: WorkerMove) {
    if before == after then m.sends == None
    else
      && before != []
      && after == before[1..]
      && (if m.sends.Some? then m.sends.value == before[0] && !stop && !receiverGone else stop || m.receiverGone)
  }

  predicate WorkerDelivery(worker: Worker, s: Shared, receiverGone: bool, m: WorkerMove) {
    && m.shared.stop == s.stop
    && (m.to.Delivering? ==> m.to.rest != [])
    && (if m.learns.Some? then !worker.Delivering? && m.sends == None && InFlight(m.to) == EventsOf(m.learns.value)
        else Disposes(InFlight(worker), InFlight(m.to), s.stop, receiverGone, m))
  }

  ghost predicate WorkerAsking(worker: Worker, s: Shared, frames: seq<Frame>, m: WorkerMove) {
    && (m.learns == None ==> !worker.Clearing? && m.shared.asks == s.asks && m.shared.overflowed == s.overflowed)
    && (m.learns.Some? ==>
          && (m.learns.value.Saw? ==>
             m.learns.value.seen == SeenAfter(frames, m.learns.value.frame, m.learns.value.armed))
          && Ledger(m.shared.asks, m.shared.overflowed) ==
             (match m.learns.value
              case StreamBegan => NEW_LEDGER
              case Saw(frame, _, _) => Fold(frames + [frame])
              case _ => Fold(frames)))
    && (m.to.Clearing? ==> worker.Installing?)
  }

  /** How a move of the watch thread bears on what it reports. */
  predicate WorkerReports(worker: Worker, s: Shared, failing: bool, m: WorkerMove) {
    && m.shared.gone == (s.gone || m.learns == Some(WentGone))
    && (IsLeaving(worker) ==> m.learns == None && IsLeaving(m.to))
    && (m.learns.Some? && Farewell(m.learns.value) ==> IsLeaving(m.to))
    && (m.to.Clearing? <==> m.failing == Some(false))
    && (m.to.Clearing? ==> m.learns == None && !worker.Clearing?)
    && (m.failing == Some(true) <==> m.learns.Some? && m.learns.value.Unusable?)
    && (m.learns.Some? && m.learns.value.Unusable? ==> m.learns.value.first == !failing && !worker.Clearing?)
    && (worker.Clearing? <==> m.learns == Some(StreamBegan))
  }

  ghost predicate WorkerReady(worker: Worker, s: Shared) {
    && (s.closing || s.stop ==> s.closer == None)
    && (s.closer.Some? ==> s.closer == Drained(worker))
    && s.exited == worker.Dead?
    && (s.gone ==> worker.Leaving? || worker.Dead? || (worker.Delivering? && worker.after == ToLeave))
  }

  lemma OnStreamFrames(worker: Worker, s: Shared, receiverGone: bool, a: Answer)
    requires WorkerMay(worker, s, receiverGone, a) && OnStream(worker)
    ensures WorkerFrame(worker, s, MoveOnStream(worker, s, receiverGone, a))
  {
    match worker {
      case Observing(stream, frame) => ObservingFrame(s, stream, frame);
      case Delivering(rest, after) => TryingFrame(s, rest, after, a.send);
      case EndLocking(stream, alive) => EndingFrame(s, stream, alive);
      case _ =>
    }
  }

  lemma ObservingFrame(s: Shared, stream: Stream, frame: Frame)
    ensures var (shared, seen) := Observe(s, frame);
            WorkerFrame(Observing(stream, frame), s, Learns(shared, Saw(frame, seen, s.armed), ToStream(stream)))
  {
  }

  lemma TryingFrame(s: Shared, rest: seq<Event>, after: After, send: TrySend)
    requires rest != []
    ensures WorkerFrame(Delivering(rest, after), s, MoveDelivering(s, rest, after, send))
  {
  }

  lemma EndingFrame(s: Shared, stream: Stream, alive: bool)
    ensures var (shared, withdrawn) := EndStream(s, alive);
            WorkerFrame(EndLocking(stream, alive), s, Learns(shared, StreamEnded(withdrawn), ToHold))
  {
  }

  lemma OnStreamReports(worker: Worker, s: Shared, receiverGone: bool, failing: bool, a: Answer)
    requires WorkerMay(worker, s, receiverGone, a) && OnStream(worker)
    ensures WorkerReports(worker, s, failing, MoveOnStream(worker, s, receiverGone, a))
  {
    match worker {
      case Observing(stream, frame) => ObservingReports(s, failing, stream, frame);
      case Delivering(rest, after) => TryingReports(s, failing, rest, after, a.send);
      case _ =>
    }
  }

  lemma ObservingReports(s: Shared, failing: bool, stream: Stream, frame: Frame)
    ensures var (shared, seen) := Observe(s, frame);
            var m := Learns(shared, Saw(frame, seen, s.armed), ToStream(stream));
            WorkerReports(Observing(stream, frame), s, failing, m)
  {
  }

  lemma TryingReports(s: Shared, failing: bool, rest: seq<Event>, after: After, send: TrySend)
    requires rest != []
    ensures WorkerReports(Delivering(rest, after), s, failing, MoveDelivering(s, rest, after, send))
  {
  }

  lemma OffStreamReports(worker: Worker, s: Shared, failing: bool, streams: nat, a: Answer)
    requires WorkerMay(worker, s, false, a) && !OnStream(worker)
    ensures WorkerReports(worker, s, failing, MoveOffStream(worker, s, failing, streams, a))
  {
  }

  lemma OffStreamFrames(worker: Worker, s: Shared, failing: bool, streams: nat, a: Answer)
    requires WorkerMay(worker, s, false, a) && !OnStream(worker)
    ensures WorkerFrame(worker, s, MoveOffStream(worker, s, failing, streams, a))
  {
  }

  lemma OnStreamClosers(worker: Worker, s: Shared, receiverGone: bool, a: Answer)
    requires WorkerMay(worker, s, receiverGone, a) && OnStream(worker) && WorkerReady(worker, s)
    ensures WorkerCloser(worker, s, MoveOnStream(worker, s, receiverGone, a))
  {
  }

  lemma OnStreamPhases(worker: Worker, s: Shared, receiverGone: bool, a: Answer)
    requires WorkerMay(worker, s, receiverGone, a) && OnStream(worker) && WorkerReady(worker, s)
    ensures WorkerPhase(worker, s, MoveOnStream(worker, s, receiverGone, a))
  {
    match worker {
      case Observing(stream, frame) => ObservingPhase(s, stream, frame);
      case Delivering(rest, after) => TryingPhase(s, rest, after, a.send);
      case _ =>
    }
  }

  lemma ObservingPhase(s: Shared, stream: Stream, frame: Frame)
    requires WorkerReady(Observing(stream, frame), s)
    ensures var (shared, seen) := Observe(s, frame);
            WorkerPhase(Observing(stream, frame), s, Learns(shared, Saw(frame, seen, s.armed), ToStream(stream)))
  {
  }

  lemma TryingPhase(s: Shared, rest: seq<Event>, after: After, send: TrySend)
    requires rest != [] && WorkerReady(Delivering(rest, after), s)
    ensures WorkerPhase(Delivering(rest, after), s, MoveDelivering(s, rest, after, send))
  {
  }

  lemma OffStreamClosers(worker: Worker, s: Shared, failing: bool, streams: nat, a: Answer)
    requires WorkerMay(worker, s, false, a) && !OnStream(worker) && WorkerReady(worker, s)
    ensures WorkerCloser(worker, s, MoveOffStream(worker, s, failing, streams, a))
    ensures WorkerPhase(worker, s, MoveOffStream(worker, s, failing, streams, a))
  {
  }

  lemma OnStreamDeliveries(worker: Worker, s: Shared, receiverGone: bool, a: Answer)
    requires WorkerMay(worker, s, receiverGone, a) && OnStream(worker)
    ensures WorkerDelivery(worker, s, receiverGone, MoveOnStream(worker, s, receiverGone, a))
  {
    match worker {
      case Observing(stream, frame) =>
        var (shared, seen) := Observe(s, frame);
        LearningDelivers(worker, s, receiverGone, shared, Saw(frame, seen, s.armed), ToStream(stream));
      case Delivering(rest, after) => TryingDelivers(s, receiverGone, rest, after, a.send);
      case EndLocking(_, alive) =>
        var (shared, withdrawn) := EndStream(s, alive);
        LearningDelivers(worker, s, receiverGone, shared, StreamEnded(withdrawn), ToHold);
      case _ =>
    }
  }

  lemma LearningDelivers(worker: Worker, s: Shared, receiverGone: bool, shared: Shared, cause: Cause, after: After)
    requires !worker.Delivering? && shared.stop == s.stop
    ensures WorkerDelivery(worker, s, receiverGone, Learns(shared, cause, after))
  {
  }

  lemma TryingDelivers(s: Shared, receiverGone: bool, rest: seq<Event>, after: After, send: TrySend)
    requires rest != [] && (receiverGone && !s.stop ==> send == Disconnected)
    ensures WorkerDelivery(Delivering(rest, after), s, receiverGone, MoveDelivering(s, rest, after, send))
  {
  }

  lemma OffStreamDeliveries(worker: Worker, s: Shared, receiverGone: bool, failing: bool, streams: nat, a: Answer)
    requires WorkerMay(worker, s, false, a) && !OnStream(worker)
    ensures WorkerDelivery(worker, s, receiverGone, MoveOffStream(worker, s, failing, streams, a))
  {
  }

  lemma OnStreamAsks(worker: Worker, s: Shared, receiverGone: bool, a: Answer, frames: seq<Frame>)
    requires WorkerMay(worker, s, receiverGone, a) && OnStream(worker)
    requires !worker.Clearing? ==> Ledger(s.asks, s.overflowed) == Fold(frames)
    ensures WorkerAsking(worker, s, frames, MoveOnStream(worker, s, receiverGone, a))
  {
    if worker.Observing? {
      ObserveIsFold(s, frames, worker.frame);
    }
  }

  lemma OffStreamAsks(worker: Worker, s: Shared, failing: bool, streams: nat, a: Answer, frames: seq<Frame>)
    requires WorkerMay(worker, s, false, a) && !OnStream(worker)
    requires Ledger(s.asks, s.overflowed) == Fold(frames)
    ensures WorkerAsking(worker, s, frames, MoveOffStream(worker, s, failing, streams, a))
  {
  }

  lemma WorkerMoveKeepsFlags(s: Sys, m: WorkerMove)
    requires ClosersOk(s) && FlagsOk(s) && TurnOk(s) && CallsOk(s)
    requires WorkerFrame(s.worker, s.shared, m) && WorkerCloser(s.worker, s.shared, m)
             && WorkerPhase(s.worker, s.shared, m)
    ensures var t := WorkerMoves(s, m); ClosersOk(t) && FlagsOk(t) && TurnOk(t) && CallsOk(t)
  {
    if m.learns.Some? {
      AskedGrows(s.script, m.learns.value);
    }
  }

  lemma WorkerMoveWithdraws(s: Sys, m: WorkerMove)
    ensures Withdrawals(Asked(WorkerMoves(s, m).script)) ==
            Withdrawals(Asked(s.script)) + if m.learns == Some(StreamEnded(true)) then 1 else 0
  {
    if m.learns.Some? {
      WithdrawalsGrow(s.script, m.learns.value);
    }
  }

  /** The watch only lowers the mark, at a stream's end, and then says so. */
  lemma WatchFalls(worker: Worker, s: Shared, m: WorkerMove)
    requires WorkerFrame(worker, s, m)
    ensures m.shared.armed ==> s.armed
    ensures s.armed && !m.shared.armed ==> IsStreamEnd(Fell(s.closing, WatchAt(worker)))
    ensures m.learns == Some(StreamEnded(true)) <==>
            s.armed && !m.shared.armed && IsStreamEnd(Fell(s.closing, WatchAt(worker)))
  {
  }

  lemma WorkerMoveKeepsMarks(s: Sys, m: WorkerMove)
    requires MarksOk(s) && WorkerFrame(s.worker, s.shared, m)
    ensures MarksOk(WorkerMoves(s, m))
  {
    WorkerMoveWithdraws(s, m);
    WatchChanges(s.worker, s.shared, m, s.marks, Asked(s.script), Asked(WorkerMoves(s, m).script));
  }

  lemma WatchChanges(worker: Worker, s: Shared, m: WorkerMove, marks: seq<MarkChange>, asked: seq<Event>,
      more: seq<Event>)
    requires MarksAre(s.armed, marks, asked) && WorkerFrame(worker, s, m)
    requires Withdrawals(more) == Withdrawals(asked) + if m.learns == Some(StreamEnded(true)) then 1 else 0
    ensures MarksAre(m.shared.armed, Changed(marks, s, m.shared, WatchAt(worker)), more)
  {
    WatchFalls(worker, s, m);
    ChangedAlternates(marks, s, m.shared, WatchAt(worker));
  }

  lemma WorkerMoveKeepsOrder(s: Sys, m: WorkerMove)
    requires ReportsOk(s) && WorkerReports(s.worker, s.shared, s.failing, m)
    ensures var script := WorkerMoves(s, m).script;
            Orderly(script) && (script != [] && Farewell(script[|script| - 1]) ==> IsLeaving(m.to))
  {
    if m.learns.Some? {
      OrderlyGrows(s.script, m.learns.value);
    }
  }

  lemma WorkerMoveKeepsGone(s: Sys, m: WorkerMove)
    requires ReportsOk(s) && WorkerReports(s.worker, s.shared, s.failing, m)
    ensures m.shared.gone <==> Gone in Asked(WorkerMoves(s, m).script)
    ensures WorkerMoves(s, m).failing == (!m.to.Clearing? && Failing(WorkerMoves(s, m).script))
  {
    if m.learns.Some? {
      GoneGrows(s.script, m.learns.value);
    }
  }

  lemma WorkerMoveKeepsReports(s: Sys, m: WorkerMove)
    requires ReportsOk(s) && WorkerReports(s.worker, s.shared, s.failing, m)
    ensures ReportsOk(WorkerMoves(s, m))
  {
    WorkerMoveKeepsOrder(s, m);
    WorkerMoveKeepsGone(s, m);
  }

  lemma WorkerKeepsReports(s: Sys, a: Answer)
    requires ReportsOk(s) && Enabled(s, WorkerStep(a))
    ensures ReportsOk(Next(s, WorkerStep(a)))
  {
    if OnStream(s.worker) {
      OnStreamReports(s.worker, s.shared, s.receiverGone, s.failing, a);
    } else {
      OffStreamReports(s.worker, s.shared, s.failing, s.streams, a);
    }
    WorkerMoveKeepsReports(s, MoveWorker(s.worker, s.shared, s.receiverGone, s.failing, s.streams, a));
  }

  lemma WorkerMoveKeepsDelivery(s: Sys, m: WorkerMove)
    requires DeliveryOk(s) && WorkerDelivery(s.worker, s.shared, s.receiverGone, m)
    ensures DeliveryOk(WorkerMoves(s, m))
  {
    if m.learns.Some? {
      LearningKeepsDelivery(s, m);
    } else {
      TryingKeepsDelivery(s, m);
    }
  }

  lemma TryingKeepsDelivery(s: Sys, m: WorkerMove)
    requires DeliveryOk(s) && WorkerDelivery(s.worker, s.shared, s.receiverGone, m) && m.learns.None?
    ensures DeliveryOk(WorkerMoves(s, m))
  {
    DisposingDelivers(Asked(s.script), InFlight(s.worker), InFlight(m.to), s.sent, s.shared.stop, s.receiverGone, m);
  }

  lemma DisposingDelivers(asked: seq<Event>, before: seq<Event>, after: seq<Event>, sent: seq<Event>, stop: bool,
      receiverGone: bool, m: WorkerMove)
    requires Delivered(asked, before, sent, stop || receiverGone) && Disposes(before, after, stop, receiverGone, m)
    ensures Delivered(asked, after, if m.sends.Some? then sent + [m.sends.value] else sent,
                      stop || receiverGone || m.receiverGone)
  {
    if before != after {
      DeliveredFirst(asked, before, sent, stop || receiverGone);
    }
  }

  lemma LearningKeepsDelivery(s: Sys, m: WorkerMove)
    requires DeliveryOk(s) && WorkerDelivery(s.worker, s.shared, s.receiverGone, m) && m.learns.Some?
    ensures DeliveryOk(WorkerMoves(s, m))
  {
    AskedGrows(s.script, m.learns.value);
    DeliveredMore(Asked(s.script), s.sent, s.shared.stop || s.receiverGone, EventsOf(m.learns.value));
  }

  lemma WorkerMoveKeepsAsks(s: Sys, m: WorkerMove)
    requires AsksOk(s) && WorkerAsking(s.worker, s.shared, CurrentFrames(s.script), m)
    ensures AsksOk(WorkerMoves(s, m))
  {
    if m.learns.Some? {
      AskedGrows(s.script, m.learns.value);
      FaithfulGrows(s.script, m.learns.value);
    }
  }

  lemma WorkerMovesFlags(worker: Worker, s: Shared, receiverGone: bool, failing: bool, streams: nat, a: Answer)
    requires WorkerMay(worker, s, receiverGone, a) && WorkerReady(worker, s)
    ensures var m := MoveWorker(worker, s, receiverGone, failing, streams, a);
            WorkerFrame(worker, s, m) && WorkerCloser(worker, s, m) && WorkerPhase(worker, s, m)
  {
    if OnStream(worker) {
      OnStreamFrames(worker, s, receiverGone, a);
      OnStreamClosers(worker, s, receiverGone, a);
      OnStreamPhases(worker, s, receiverGone, a);
    } else {
      OffStreamFrames(worker, s, failing, streams, a);
      OffStreamClosers(worker, s, failing, streams, a);
    }
  }

  lemma WorkerKeepsFlags(s: Sys, a: Answer)
    requires ClosersOk(s) && FlagsOk(s) && TurnOk(s) && CallsOk(s) && Enabled(s, WorkerStep(a))
    ensures var t := Next(s, WorkerStep(a)); ClosersOk(t) && FlagsOk(t) && TurnOk(t) && CallsOk(t)
  {
    WorkerMovesFlags(s.worker, s.shared, s.receiverGone, s.failing, s.streams, a);
    WorkerMoveKeepsFlags(s, MoveWorker(s.worker, s.shared, s.receiverGone, s.failing, s.streams, a));
  }

  lemma WorkerKeepsMarks(s: Sys, a: Answer)
    requires MarksOk(s) && Enabled(s, WorkerStep(a))
    ensures MarksOk(Next(s, WorkerStep(a)))
  {
    if OnStream(s.worker) {
      OnStreamFrames(s.worker, s.shared, s.receiverGone, a);
    } else {
      OffStreamFrames(s.worker, s.shared, s.failing, s.streams, a);
    }
    WorkerMoveKeepsMarks(s, MoveWorker(s.worker, s.shared, s.receiverGone, s.failing, s.streams, a));
  }

  lemma WorkerKeepsDelivery(s: Sys, a: Answer)
    requires DeliveryOk(s) && AsksOk(s) && Enabled(s, WorkerStep(a))
    ensures DeliveryOk(Next(s, WorkerStep(a))) && AsksOk(Next(s, WorkerStep(a)))
  {
    var m := MoveWorker(s.worker, s.shared, s.receiverGone, s.failing, s.streams, a);
    if OnStream(s.worker) {
      OnStreamDeliveries(s.worker, s.shared, s.receiverGone, a);
      OnStreamAsks(s.worker, s.shared, s.receiverGone, a, CurrentFrames(s.script));
    } else {
      OffStreamDeliveries(s.worker, s.shared, s.receiverGone, s.failing, s.streams, a);
      OffStreamAsks(s.worker, s.shared, s.failing, s.streams, a, CurrentFrames(s.script));
    }
    WorkerMoveKeepsDelivery(s, m);
    WorkerMoveKeepsAsks(s, m);
  }

  lemma WorkerKeepsInv(s: Sys, a: Answer)
    requires Inv(s) && Enabled(s, WorkerStep(a))
    ensures Inv(Next(s, WorkerStep(a)))
  {
    WorkerKeepsFlags(s, a);
    WorkerKeepsMarks(s, a);
    WorkerKeepsReports(s, a);
    WorkerKeepsDelivery(s, a);
  }

  /** Every state of every run from a watch's start. */
  lemma {:induction false} RunsKeepInv(s: Sys, steps: seq<Step>)
    requires Inv(s) && Plays(s, steps)
    ensures Inv(Play(s, steps))
    decreases |steps|
  {
    if steps != [] {
      match steps[0] {
        case CallerStep(a) => CallerKeepsInv(s, a);
        case WorkerStep(a) => WorkerKeepsInv(s, a);
      }
      RunsKeepInv(Next(s, steps[0]), steps[1..]);
    }
  }

  lemma ReachableInv(s: Sys)
    requires Reachable(s)
    ensures Inv(s)
  {
    var attached: bool, steps: seq<Step> :| Plays(Init(attached), steps) && s == Play(Init(attached), steps);
    InitKeepsInv(attached);
    RunsKeepInv(Init(attached), steps);
  }
}
