// The record a door's watch thread and its caller share under one lock
// (pkgs/aoide-desktop/crates/shell/src/doors.rs, `Shared` and `Link`).
//
// Each function here is one critical section: what the record becomes between
// one lock and its unlock. `Link` holds the same record as fields that its
// methods update in place; each method is proved against its function, and the
// protocol in DoorProtocol.dfy interleaves the functions.
module DoorShared {
  import opened Common

  /** The most asks a door keeps pending. */
  const ASKS_BOUND: nat := 64

  datatype TurnState = Unknown | Running | Idle

  /** A frame of a door's stream, by what the watch does with it. */
  datatype Frame =
    | TurnFrame(running: bool)
    | AskFrame(id: nat, ask: string)
    | AskSettled(askId: nat)
    | OtherFrame(text: string)

  /** The number of an opened stream. Its closer carries the same number. */
  type Stream = nat

  datatype Shared = Shared(
    turn: TurnState,
    armed: bool,
    closing: bool,
    stop: bool,
    closer: Option<Stream>,
    exited: bool,
    gone: bool,
    overflowed: bool,
    asks: map<nat, string>)

  const NEW_SHARED := Shared(Unknown, false, false, false, None, false, false, false, map[])

  /** What a frame leaves the watch to deliver. */
  datatype Seen = Seen(forward: bool, overflow: Option<nat>, due: bool)

  // ----- The caller's critical sections -----

  /** `close_after_turn`'s first lock: a running turn is marked. */
  function MarkRunning(s: Shared): Shared {
    if s.turn == Running then s.(armed := true) else s
  }

  datatype CloseOutcome = CloseBusy | CloseArmed | CloseTaken(fired: Option<Stream>)

  /** `close_now`'s lock: only an idle turn is taken, and its closer with it. */
  function TakeIdle(s: Shared, armOnBusy: bool): (Shared, CloseOutcome) {
    if s.turn != Idle then
      if armOnBusy && s.turn == Running then (s.(armed := true), CloseArmed) else (s, CloseBusy)
    else
      (s.(closing := true, closer := None), CloseTaken(s.closer))
  }

  function ClearClosing(s: Shared): Shared { s.(closing := false) }

  function GiveUp(s: Shared): Shared { s.(closing := false, armed := false) }

  function Unmark(s: Shared): Shared { s.(armed := false) }

  /** `stop_now` after a cancel that answered "idle". */
  function NoteIdle(s: Shared): Shared { s.(turn := Idle) }

  /** `detach`: stop, and take the closer to fire it. */
  function StopWatch(s: Shared): (Shared, Option<Stream>) {
    (s.(stop := true, closer := None), s.closer)
  }

  // ----- The watch thread's critical sections -----

  function ClearAsks(s: Shared): Shared { s.(asks := map[], overflowed := false) }

  function Observe(s: Shared, frame: Frame): (Shared, Seen) {
    match frame
    case TurnFrame(running) =>
      (s.(turn := if running then Running else Idle), Seen(true, None, !running && s.armed))
    case AskFrame(id, ask) =>
      if id in s.asks || |s.asks| < ASKS_BOUND then
        (s.(asks := s.asks[id := ask]), Seen(true, None, false))
      else
        (s.(overflowed := true), Seen(false, if s.overflowed then None else Some(id), false))
    case AskSettled(id) => (s.(asks := s.asks - {id}), Seen(true, None, false))
    case OtherFrame(_) => (s, Seen(true, None, false))
  }

  /** Ends a stream; the second part says whether an armed mark was withdrawn. */
  function EndStream(s: Shared, alive: bool): (Shared, bool) {
    var withdrawn := s.armed && !s.closing && alive;
    (s.(closer := None, turn := Unknown, armed := s.armed && !withdrawn), withdrawn)
  }

  datatype InstallOutcome = Installed | InstallStop | InstallHold

  /** `reconnect`'s lock: a new stream's closer is stored unless stopped or held. */
  function Install(s: Shared, stream: Stream): (Shared, InstallOutcome) {
    if s.stop then (s, InstallStop)
    else if s.closing then (s, InstallHold)
    else (s.(closer := Some(stream)), Installed)
  }

  function MarkGone(s: Shared): Shared { s.(gone := true) }

  function MarkExited(s: Shared): Shared { s.(exited := true) }

  /**
   * The record as an object. `Value` is the record a critical section sees; every
   * method leaves exactly the record its function says.
   */
  class Link {
    var turn: TurnState
    var armed: bool
    var closing: bool
    var stop: bool
    var closer: Option<Stream>
    var exited: bool
    var gone: bool
    var overflowed: bool
    var asks: map<nat, string>

    constructor ()
      ensures Value() == NEW_SHARED
    {
      turn, armed, closing, stop := Unknown, false, false, false;
      closer, exited, gone, overflowed, asks := None, false, false, false, map[];
    }

    function Value(): Shared
      reads this
    {
      Shared(turn, armed, closing, stop, closer, exited, gone, overflowed, asks)
    }

    method ArmIfRunning() returns (seen: TurnState)
      modifies this
      ensures Value() == MarkRunning(old(Value())) && seen == old(turn)
    {
      if turn == Running {
        armed := true;
      }
      seen := turn;
    }

    method Revoke()
      modifies this
      ensures Value() == Unmark(old(Value()))
    {
      armed := false;
    }

    method TakeForClose(armOnBusy: bool) returns (outcome: CloseOutcome)
      modifies this
      ensures (Value(), outcome) == TakeIdle(old(Value()), armOnBusy)
      ensures outcome.CloseTaken? <==> old(turn) == Idle
      ensures outcome.CloseTaken? ==> closing && closer == None
      ensures !outcome.CloseTaken? ==> closing == old(closing) && closer == old(closer) && turn == old(turn)
    {
      if turn != Idle {
        if armOnBusy && turn == Running {
          armed := true;
          return CloseArmed;
        }
        return CloseBusy;
      }
      closing := true;
      outcome := CloseTaken(closer);
      closer := None;
    }

    method Release()
      modifies this
      ensures Value() == ClearClosing(old(Value()))
    {
      closing := false;
    }

    method ReleaseStillLive()
      modifies this
      ensures Value() == GiveUp(old(Value()))
    {
      closing := false;
      armed := false;
    }

    method SetIdle()
      modifies this
      ensures Value() == NoteIdle(old(Value()))
    {
      turn := Idle;
    }

    method Detach() returns (fired: Option<Stream>)
      modifies this
      ensures (Value(), fired) == StopWatch(old(Value()))
    {
      stop := true;
      fired := closer;
      closer := None;
    }

    method BeginStream()
      modifies this
      ensures Value() == ClearAsks(old(Value()))
    {
      asks := map[];
      overflowed := false;
    }

    method ObserveFrame(frame: Frame) returns (seen: Seen)
      modifies this
      ensures (Value(), seen) == Observe(old(Value()), frame)
    {
      seen := Seen(true, None, false);
      match frame {
        case TurnFrame(running) =>
          turn := if running then Running else Idle;
          seen := seen.(due := !running && armed);
        case AskFrame(id, ask) =>
          if id in asks || |asks| < ASKS_BOUND {
            asks := asks[id := ask];
          } else {
            seen := seen.(forward := false);
            if !overflowed {
              seen := seen.(overflow := Some(id));
            }
            overflowed := true;
          }
        case AskSettled(id) =>
          asks := asks - {id};
        case OtherFrame(_) =>
      }
    }

    method CloseStream(alive: bool) returns (withdrawn: bool)
      modifies this
      ensures (Value(), withdrawn) == EndStream(old(Value()), alive)
    {
      closer := None;
      turn := Unknown;
      withdrawn := armed && !closing && alive;
      if withdrawn {
        armed := false;
      }
    }

    method StoreCloser(stream: Stream) returns (outcome: InstallOutcome)
      modifies this
      ensures (Value(), outcome) == Install(old(Value()), stream)
    {
      if stop {
        return InstallStop;
      }
      if closing {
        return InstallHold;
      }
      closer := Some(stream);
      outcome := Installed;
    }

    method SetGone()
      modifies this
      ensures Value() == MarkGone(old(Value()))
    {
      gone := true;
    }

    method SetExited()
      modifies this
      ensures Value() == MarkExited(old(Value()))
    {
      exited := true;
    }
  }
}
