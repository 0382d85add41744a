// The log of one call: what its locks read and its outside answers were, in order, and what that says of its result
// (pkgs/aoide-desktop/crates/shell/src/doors.rs, `close_after_turn`, `close_due`, `stop_now`, `revoke`, `close_now`).
module DoorCalls {
  import opened DoorShared
  import opened DoorProtocol

  /** After this mark the call's close begins. */
  predicate OpensClose(mark: CallMark) {
    mark in {MarkRead(true), TurnRead(Idle), NotedIdle, TurnWaited(Idle), StopChecked(Identity), StopChecked(Unchecked)}
  }

  /** The door was seen to be gone. */
  predicate Died(mark: CallMark) {
    mark in {Signalled(AlreadyGone), ExitLooked(true)}
  }

  /** What each mark comes directly after. */
  predicate Follows(call: seq<CallMark>, i: nat)
    requires 0 < i < |call|
  {
    var before := call[i - 1];
    match call[i]
    case Began(_) => false
    case NotFound =>
      (before.Began? && before.op != Leave) || before in {StopChecked(Holds), CancelAnswered(CancelDone)}
      || OpensClose(before)
    case MarkRead(_) => before == Began(Due)
    case TurnRead(_) => before == Began(AfterTurn)
    case StopChecked(_) => before == Began(StopNow)
    case CancelAnswered(_) => before == StopChecked(Holds)
    case NotedIdle => before == CancelAnswered(CancelIdle)
    case TurnWaited(_) => before == CancelAnswered(CancelDone)
    case Verified(_) => OpensClose(before)
    case TurnLocked(_) => before == Verified(Holds)
    case Signalled(_) => before == TurnLocked(Idle)
    case ExitLooked(_) => before == Signalled(Sent)
    case Stored(_) => before == Verified(Identity) || Died(before)
    case Returned(result) =>
      call[0].Began? && Tells(call[0].op, if i >= 2 then call[i - 2] else call[0], before, result)
  }

  /** The result a call comes to after its last two marks. */
  predicate Tells(op: Op, earlier: CallMark, last: CallMark, result: Result) {
    match last
    case Began(_) => (op == Leave && result == Left) || (op == Revoke && result == Unmarked)
    case NotFound => result == Failed(UnknownDoor)
    case MarkRead(armed) => !armed && result == Revoked
    case TurnRead(turn) => turn != Idle && result == if turn == Running then ArmedNow else Failed(TurnUnknown)
    case CancelAnswered(cancel) => cancel == CancelFails && result == Failed(CancelError)
    case TurnWaited(turn) => turn != Idle && result == NoTurnEnd
    case Verified(check) => check == Unchecked && result == Failed(Unverified)
    case TurnLocked(turn) =>
      turn != Idle
      && result == if op == Due then StaysArmed else if op == AfterTurn && turn == Running then ArmedNow else Busy
    case Signalled(signal) => signal == SignalFailed && result == Failed(SignalError)
    case ExitLooked(exited) => !exited && result == StillLive
    case Stored(ok) =>
      if !ok then result == Failed(StoreError)
      else if earlier == Verified(Identity) then result == Dropped
      else Died(earlier) && result.Exited?
    case _ => false
  }

  /** A log that began, each of whose marks comes after one it may. */
  ghost predicate Linked(call: seq<CallMark>) {
    call != [] && call[0].Began? && forall i: nat :: 0 < i < |call| ==> Follows(call, i)
  }

  ghost predicate Finished(call: seq<CallMark>) {
    Linked(call) && |call| >= 2 && call[|call| - 1].Returned?
  }

  lemma LinkedMore(call: seq<CallMark>, mark: CallMark)
    requires Linked(call) && Follows(call + [mark], |call|)
    ensures Linked(call + [mark])
  {
    var more := call + [mark];
    forall i: nat | 0 < i < |more| ensures Follows(more, i) {
      if i < |call| {
        assert Follows(call, i);
      }
    }
  }

  // ----- The order of marks -----

  function Rank(mark: CallMark): nat {
    match mark
    case Began(_) => 0
    case MarkRead(_) => 1
    case TurnRead(_) => 1
    case StopChecked(_) => 1
    case CancelAnswered(_) => 2
    case NotedIdle => 3
    case TurnWaited(_) => 3
    case Verified(_) => 4
    case TurnLocked(_) => 5
    case Signalled(_) => 6
    case ExitLooked(_) => 7
    case Stored(_) => 8
    case NotFound => 9
    case Returned(_) => 10
  }

  /** So a call's log holds no kind of mark twice. */
  lemma {:induction false} RanksRise(call: seq<CallMark>, i: nat, j: nat)
    requires Linked(call) && i < j < |call|
    ensures Rank(call[i]) < Rank(call[j])
  {
    assert Follows(call, j);
    if i < j - 1 {
      RanksRise(call, i, j - 1);
    }
  }

  lemma OnePerRank(call: seq<CallMark>, i: nat, j: nat)
    requires Linked(call) && i < |call| && j < |call| && Rank(call[i]) == Rank(call[j])
    ensures i == j
  {
    if i < j {
      RanksRise(call, i, j);
    } else if j < i {
      RanksRise(call, j, i);
    }
  }

  /** How the part of a call before its close went. */
  lemma OpeningIs(call: seq<CallMark>, i: nat)
    requires Linked(call) && i < |call| && OpensClose(call[i])
    ensures match call[0].op
            case Due => i == 1 && call[1] == MarkRead(true)
            case AfterTurn => i == 1 && call[1] == TurnRead(Idle)
            case StopNow =>
              if i == 1 then call[1].StopChecked? && call[1].check != Holds
              else
                && i == 3 && call[1] == StopChecked(Holds)
                && ((call[2] == CancelAnswered(CancelIdle) && call[3] == NotedIdle)
                    || (call[2] == CancelAnswered(CancelDone) && call[3] == TurnWaited(Idle)))
            case _ => false
  {
    FirstIsFirst(call, i);
  }

  /** Where each mark before a close stands, and what comes before it. */
  lemma FirstIsFirst(call: seq<CallMark>, i: nat)
    requires Linked(call) && i < |call|
    ensures call[i].Began? ==> i == 0
    ensures call[i].MarkRead? ==> i == 1 && call[0] == Began(Due)
    ensures call[i].TurnRead? ==> i == 1 && call[0] == Began(AfterTurn)
    ensures call[i].StopChecked? ==> i == 1 && call[0] == Began(StopNow)
    ensures call[i].CancelAnswered? ==> i == 2 && call[0] == Began(StopNow) && call[1] == StopChecked(Holds)
    ensures call[i].NotedIdle? ==>
              && i == 3 && call[0] == Began(StopNow) && call[1] == StopChecked(Holds)
              && call[2] == CancelAnswered(CancelIdle)
    ensures call[i].TurnWaited? ==>
              && i == 3 && call[0] == Began(StopNow) && call[1] == StopChecked(Holds)
              && call[2] == CancelAnswered(CancelDone)
  {
    if i > 0 {
      assert Follows(call, i);
      FirstIsFirst(call, i - 1);
    }
  }

  // ----- Signals -----

  /** No signal without its two checks, directly before it and in this order. */
  ghost predicate SignalsGuarded(call: seq<CallMark>) {
    forall i: nat :: i < |call| && call[i].Signalled? ==>
      i >= 2 && call[i - 2] == Verified(Holds) && call[i - 1] == TurnLocked(Idle)
  }

  ghost predicate SignalsOnce(call: seq<CallMark>) {
    forall i: nat, j: nat :: i < j < |call| ==> !(call[i].Signalled? && call[j].Signalled?)
  }

  predicate HasSignal(call: seq<CallMark>) {
    exists i: nat :: i < |call| && call[i].Signalled?
  }

  lemma LinkedIsGuarded(call: seq<CallMark>)
    requires Linked(call)
    ensures SignalsGuarded(call) && SignalsOnce(call)
  {
    forall i: nat | i < |call| && call[i].Signalled?
      ensures i >= 2 && call[i - 2] == Verified(Holds) && call[i - 1] == TurnLocked(Idle)
    {
      assert Follows(call, i) && Follows(call, i - 1);
    }
    forall i: nat, j: nat | i < j < |call| ensures !(call[i].Signalled? && call[j].Signalled?) {
      RanksRise(call, i, j);
    }
  }

  // ----- Results -----

  /** Only a return comes after such a mark. */
  predicate Last(mark: CallMark) {
    match mark
    case NotFound => true
    case MarkRead(armed) => !armed
    case TurnRead(turn) => turn != Idle
    case CancelAnswered(cancel) => cancel == CancelFails
    case TurnWaited(turn) => turn != Idle
    case Verified(check) => check == Unchecked
    case TurnLocked(turn) => turn != Idle
    case Signalled(signal) => signal == SignalFailed
    case ExitLooked(exited) => !exited
    case Stored(_) => true
    case _ => false
  }

  lemma LastIsLast(call: seq<CallMark>, mark: CallMark)
    requires Finished(call) && Last(mark)
    ensures mark in call <==> call[|call| - 2] == mark
  {
    if i :| 0 <= i < |call| && call[i] == mark {
      if i < |call| - 2 {
        assert Follows(call, i + 1);
        assert call[i + 1].Returned?;
        RanksRise(call, i + 1, |call| - 1);
      }
    }
  }

  /** Any of the two other turns. */
  lemma LastTurns(call: seq<CallMark>)
    requires Finished(call)
    ensures forall turn :: turn != Idle ==>
              && (TurnRead(turn) in call <==> call[|call| - 2] == TurnRead(turn))
              && (TurnWaited(turn) in call <==> call[|call| - 2] == TurnWaited(turn))
              && (TurnLocked(turn) in call <==> call[|call| - 2] == TurnLocked(turn))
  {
    forall turn | turn != Idle
      ensures TurnRead(turn) in call <==> call[|call| - 2] == TurnRead(turn)
      ensures TurnWaited(turn) in call <==> call[|call| - 2] == TurnWaited(turn)
      ensures TurnLocked(turn) in call <==> call[|call| - 2] == TurnLocked(turn)
    {
      LastIsLast(call, TurnRead(turn));
      LastIsLast(call, TurnWaited(turn));
      LastIsLast(call, TurnLocked(turn));
    }
  }

  /** What each result says of what the call saw: exactly that. */
  predicate ResultIsTold(op: Op, call: seq<CallMark>, result: Result) {
    && (result == Failed(UnknownDoor) <==> NotFound in call)
    && (result == Revoked <==> MarkRead(false) in call)
    && (result == Failed(TurnUnknown) <==> TurnRead(Unknown) in call)
    && (result == Failed(CancelError) <==> CancelAnswered(CancelFails) in call)
    && (result == NoTurnEnd <==> TurnWaited(Unknown) in call || TurnWaited(Running) in call)
    && (result == Failed(Unverified) <==> Verified(Unchecked) in call)
    && (result == StaysArmed <==> op == Due && (TurnLocked(Unknown) in call || TurnLocked(Running) in call))
    && (result == ArmedNow <==>
          TurnRead(Running) in call || (op == AfterTurn && TurnLocked(Running) in call))
    && (result == Busy <==>
          op != Due && (TurnLocked(Unknown) in call || (op != AfterTurn && TurnLocked(Running) in call)))
    && (result == Failed(SignalError) <==> Signalled(SignalFailed) in call)
    && (result == StillLive <==> ExitLooked(false) in call)
    && (result == Failed(StoreError) <==> Stored(false) in call)
    && (result == Dropped <==> Verified(Identity) in call && Stored(true) in call)
    && (result.Exited? <==> Verified(Holds) in call && Stored(true) in call)
    && (result == Unmarked <==> op == Revoke && NotFound !in call)
    && (result == Left <==> op == Leave)
  }

  lemma StoredAfter(call: seq<CallMark>)
    requires Finished(call) && call[|call| - 2] == Stored(true)
    ensures |call| >= 3
    ensures if call[|call| - 3] == Verified(Identity) then Verified(Identity) in call && Verified(Holds) !in call
            else Died(call[|call| - 3]) && Verified(Holds) in call && Verified(Identity) !in call
  {
    var n := |call|;
    assert Follows(call, n - 2);
    if call[n - 3] == Verified(Identity) {
      if i :| 0 <= i < n && call[i] == Verified(Holds) {
        OnePerRank(call, i, n - 3);
      }
    } else {
      var k := VerifiedBefore(call, n - 3);
      if i :| 0 <= i < n && call[i] == Verified(Identity) {
        OnePerRank(call, i, k);
      }
    }
  }

  lemma VerifiedBefore(call: seq<CallMark>, i: nat) returns (k: nat)
    requires Linked(call) && i < |call| && Died(call[i])
    ensures k < i && call[k] == Verified(Holds)
  {
    assert Follows(call, i);
    var j := if call[i].Signalled? then i else i - 1;
    assert Follows(call, j);
    assert Follows(call, j - 1);
    k := j - 2;
  }

  /** A call is told by its log: each result is answered exactly when the log holds what calls for it. */
  lemma FinishedIsTold(call: seq<CallMark>)
    requires Finished(call)
    ensures ResultIsTold(call[0].op, call, call[|call| - 1].result)
  {
    var n := |call|;
    var last := call[n - 2];
    assert Follows(call, n - 1);
    LastTurns(call);
    LastIsLast(call, NotFound);
    LastIsLast(call, MarkRead(false));
    LastIsLast(call, CancelAnswered(CancelFails));
    LastIsLast(call, Verified(Unchecked));
    LastIsLast(call, Signalled(SignalFailed));
    LastIsLast(call, ExitLooked(false));
    LastIsLast(call, Stored(false));
    LastIsLast(call, Stored(true));
    if last == Stored(true) {
      StoredAfter(call);
    }
    BeganIsFirst(call);
    ReadsAreOf(call);
  }

  lemma ReadsAreOf(call: seq<CallMark>)
    requires Finished(call)
    ensures call[|call| - 2].TurnRead? ==> call[0].op == AfterTurn
    ensures call[|call| - 2].MarkRead? ==> call[0].op == Due
    ensures call[|call| - 2].TurnLocked? ==> call[0].op in {AfterTurn, Due, StopNow}
  {
    var n := |call|;
    FirstIsFirst(call, n - 2);
    if call[n - 2].TurnLocked? {
      assert Follows(call, n - 2) && Follows(call, n - 3);
      OpeningIs(call, n - 4);
    }
  }

  lemma BeganIsFirst(call: seq<CallMark>)
    requires Finished(call)
    ensures call[|call| - 2].Began? ==> |call| == 2
    ensures call[0].op in {Leave, Revoke} ==>
            |call| == 2 || (call[0].op == Revoke && |call| == 3 && call[1] == NotFound)
  {
    FirstIsFirst(call, |call| - 2);
    if call[0].op in {Leave, Revoke} {
      assert Follows(call, 1);
      if |call| > 2 {
        assert Follows(call, 2);
        if |call| > 3 {
          RanksRise(call, 2, |call| - 1);
        }
      }
    }
  }

  // ----- What results say of signals -----

  predicate IsClean(result: Result) {
    !result.Exited? && !result.StillLive? && !result.Failed?
  }

  ghost predicate SafeCall(call: seq<CallMark>) {
    && Finished(call) && SignalsGuarded(call) && SignalsOnce(call)
    && var result := call[|call| - 1].result;
       && (IsClean(result) ==> !HasSignal(call))
       && (result.StillLive? ==> Signalled(Sent) in call)
       && (result.Exited? ==> (Signalled(Sent) in call <==> Signalled(AlreadyGone) !in call))
  }

  lemma SignalIsTold(call: seq<CallMark>)
    requires Finished(call)
    ensures var result := call[|call| - 1].result;
            && (IsClean(result) ==> !HasSignal(call))
            && (result.StillLive? ==> Signalled(Sent) in call)
            && (result.Exited? ==> (Signalled(Sent) in call <==> Signalled(AlreadyGone) !in call))
  {
    var n := |call|;
    assert Follows(call, n - 1);
    if HasSignal(call) {
      var i: nat :| i < n && call[i].Signalled?;
      SignalEndsCall(call, i);
    }
    if call[n - 1].result.StillLive? || call[n - 1].result.Exited? {
      assert Follows(call, n - 2);
      if call[n - 1].result.Exited? {
        assert Follows(call, n - 3);
        SignalledOnce(call);
      }
    }
  }

  lemma SignalledOnce(call: seq<CallMark>)
    requires Linked(call)
    ensures !(Signalled(Sent) in call && Signalled(AlreadyGone) in call)
  {
    if i, j :| 0 <= i < |call| && 0 <= j < |call| && call[i] == Signalled(Sent) && call[j] == Signalled(AlreadyGone) {
      OnePerRank(call, i, j);
    }
  }

  /** After a signal a call ends in `Exited`, `StillLive` or an error. */
  lemma SignalEndsCall(call: seq<CallMark>, i: nat)
    requires Finished(call) && i < |call| && call[i].Signalled?
    ensures !IsClean(call[|call| - 1].result)
  {
    var n := |call|;
    FinishedIsTold(call);
    assert Follows(call, n - 1);
    RanksRise(call, i, n - 1);
    if i < n - 2 {
      RanksRise(call, i, n - 2);
      if call[n - 2] == Stored(true) {
        assert Follows(call, n - 2);
        if i < n - 3 {
          RanksRise(call, i, n - 3);
        }
      }
    }
  }

  // ----- A close that is due -----

  lemma DueIsMarked(c: seq<CallMark>)
    requires Linked(c) && c[0] == Began(Due)
    ensures HasSignal(c) ==> MarkRead(true) in c && MarkRead(false) !in c
    ensures Finished(c) ==> (c[|c| - 1] == Returned(Revoked) <==> MarkRead(false) in c)
  {
    if i: nat :| i < |c| && c[i].Signalled? {
      SignalNeedsMark(c, i);
    }
    if Finished(c) {
      FinishedIsTold(c);
    }
  }

  lemma SignalNeedsMark(c: seq<CallMark>, i: nat)
    requires Linked(c) && c[0] == Began(Due) && i < |c| && c[i].Signalled?
    ensures MarkRead(true) in c && MarkRead(false) !in c
  {
    assert Follows(c, i);
    assert Follows(c, i - 1);
    assert Follows(c, i - 2);
    OpeningIs(c, i - 3);
    if j :| 0 <= j < |c| && c[j] == MarkRead(false) {
      OnePerRank(c, j, 1);
    }
  }

  // ----- A stop -----

  /** A stop's cancel and its close each come after what calls for them. */
  ghost predicate StopIsChecked(c: seq<CallMark>) {
    && (forall i: nat :: i < |c| && c[i].CancelAnswered? ==> i == 2 && c[1] == StopChecked(Holds))
    && (forall i: nat :: i < |c| && c[i].Verified? ==>
          i > 0 && c[i - 1] in {NotedIdle, TurnWaited(Idle), StopChecked(Identity), StopChecked(Unchecked)})
  }

  lemma StopIsLinked(c: seq<CallMark>)
    requires Linked(c) && c[0] == Began(StopNow)
    ensures StopIsChecked(c)
    ensures forall i: nat :: i < |c| && c[i].TurnWaited? ==> i == 3 && c[2] == CancelAnswered(CancelDone)
  {
    forall i: nat | i < |c|
      ensures c[i].CancelAnswered? ==> i == 2 && c[1] == StopChecked(Holds)
      ensures c[i].TurnWaited? ==> i == 3 && c[2] == CancelAnswered(CancelDone)
    {
      FirstIsFirst(c, i);
    }
    forall i: nat | i < |c| && c[i].Verified?
      ensures i > 0 && c[i - 1] in {NotedIdle, TurnWaited(Idle), StopChecked(Identity), StopChecked(Unchecked)}
    {
      assert Follows(c, i);
      OpeningIs(c, i - 1);
    }
  }

  lemma IdleIsNoted(c: seq<CallMark>)
    requires Finished(c)
    ensures NotedIdle in c <==> CancelAnswered(CancelIdle) in c
  {
    if i :| 0 <= i < |c| && c[i] == CancelAnswered(CancelIdle) {
      assert Follows(c, i + 1);
      assert c[i + 1] == NotedIdle;
    }
    if i :| 0 <= i < |c| && c[i] == NotedIdle {
      assert Follows(c, i);
    }
  }
}
