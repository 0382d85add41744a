// What a watch thread asks to deliver, and why: the script of one run of the
// thread, one entry per thing it learned (doors.rs, `drain`, `end_stream`,
// `failed`, `forget`).
module DoorScript {
  import opened DoorShared
  import opened DoorAsks

  datatype Event =
    | Forwarded(frame: Frame)
    | CloseDue
    | Withdrawn
    | Gone
    | RecordDropped
    | Unwatched
    | AsksOverflow(askId: nat)

  datatype Cause =
    | StreamBegan
    | Saw(frame: Frame, seen: Seen, armed: bool)
    | StreamEnded(withdrawn: bool)
    | WentGone
    | IdentityFailed
    | Unusable(first: bool)

  function EventsOf(cause: Cause): (events: seq<Event>)
    ensures |events| <= 3
  {
    match cause
    case StreamBegan => []
    case Saw(frame, seen, _) =>
      (if seen.forward then [Forwarded(frame)] else [])
      + (if seen.overflow.Some? then [AsksOverflow(seen.overflow.value)] else [])
      + (if seen.due then [CloseDue] else [])
    case StreamEnded(withdrawn) => if withdrawn then [Withdrawn] else []
    case WentGone => [Gone]
    case IdentityFailed => [RecordDropped]
    case Unusable(first) => if first then [Unwatched] else []
  }

  /** Every event asked for, in order. */
  function Asked(script: seq<Cause>): seq<Event> {
    if script == [] then [] else Asked(script[..|script| - 1]) + EventsOf(script[|script| - 1])
  }

  /** The frames of the stream read last. */
  function CurrentFrames(script: seq<Cause>): seq<Frame> {
    if script == [] then []
    else
      var earlier := CurrentFrames(script[..|script| - 1]);
      match script[|script| - 1]
      case StreamBegan => []
      case Saw(frame, _, _) => earlier + [frame]
      case _ => earlier
  }

  /** The turn the door's own frames tell: the last one said on this stream, `Unknown` past a stream's end. */
  function TurnOf(script: seq<Cause>): TurnState {
    if script == [] then Unknown
    else
      match script[|script| - 1]
      case Saw(TurnFrame(running), _, _) => if running then Running else Idle
      case StreamEnded(_) => Unknown
      case _ => TurnOf(script[..|script| - 1])
  }

  predicate TellsTurn(cause: Cause) {
    cause.StreamEnded? || (cause.Saw? && cause.frame.TurnFrame?)
  }

  /** Each frame's deliveries are the ones its own stream's frames call for. */
  ghost predicate Faithful(script: seq<Cause>) {
    forall k: nat :: k < |script| && script[k].Saw? ==>
      script[k].seen == SeenAfter(CurrentFrames(script[..k]), script[k].frame, script[k].armed)
  }

  lemma AskedGrows(script: seq<Cause>, cause: Cause)
    ensures Asked(script + [cause]) == Asked(script) + EventsOf(cause)
    ensures cause.StreamBegan? ==> CurrentFrames(script + [cause]) == []
    ensures cause.Saw? ==> CurrentFrames(script + [cause]) == CurrentFrames(script) + [cause.frame]
    ensures !cause.StreamBegan? && !cause.Saw? ==> CurrentFrames(script + [cause]) == CurrentFrames(script)
    ensures TurnOf(script + [cause]) == if TellsTurn(cause) then TurnOf([cause]) else TurnOf(script)
  {
    assert (script + [cause])[..|script|] == script;
  }

  lemma FaithfulGrows(script: seq<Cause>, cause: Cause)
    requires Faithful(script)
    requires cause.Saw? ==> cause.seen == SeenAfter(CurrentFrames(script), cause.frame, cause.armed)
    ensures Faithful(script + [cause])
  {
    var longer := script + [cause];
    forall k: nat | k < |longer| && longer[k].Saw?
      ensures longer[k].seen == SeenAfter(CurrentFrames(longer[..k]), longer[k].frame, longer[k].armed)
    {
      if k < |script| {
        assert longer[..k] == script[..k];
      } else {
        assert longer[..k] == script;
      }
    }
  }

  function OverflowIds(events: seq<Event>): seq<nat> {
    if events == [] then []
    else
      var earlier := OverflowIds(events[..|events| - 1]);
      var last := events[|events| - 1];
      if last.AsksOverflow? then earlier + [last.askId] else earlier
  }

  lemma {:induction false} OverflowIdsAppend(a: seq<Event>, b: seq<Event>)
    ensures OverflowIds(a + b) == OverflowIds(a) + OverflowIds(b)
  {
    if b == [] {
      assert a + b == a;
    } else {
      OverflowIdsAppend(a, b[..|b| - 1]);
      assert (a + b)[..|a + b| - 1] == a + b[..|b| - 1];
    }
  }

  /** The events asked for since the last stream began. */
  function StreamAsked(script: seq<Cause>): seq<Event> {
    if script == [] || script[|script| - 1].StreamBegan? then []
    else StreamAsked(script[..|script| - 1]) + EventsOf(script[|script| - 1])
  }

  /** The overflow notices of a stream are its first refused id, once, or none. */
  lemma {:induction false} StreamReports(script: seq<Cause>)
    requires Faithful(script)
    ensures OverflowIds(StreamAsked(script)) == Reports(CurrentFrames(script))
  {
    if script == [] {
      return;
    }
    var n := |script| - 1;
    var cause := script[n];
    assert forall k: nat :: k <= n ==> script[..n][..k] == script[..k];
    StreamReports(script[..n]);
    if !cause.StreamBegan? {
      OverflowIdsAppend(StreamAsked(script[..n]), EventsOf(cause));
      OverflowsOfCause(cause);
      if cause.Saw? {
        var frames := CurrentFrames(script[..n]);
        assert (frames + [cause.frame])[..|frames|] == frames;
      }
    }
  }

  /** The frames among some events, in order. */
  function ForwardedFrames(events: seq<Event>): seq<Frame> {
    if events == [] then []
    else
      var earlier := ForwardedFrames(events[..|events| - 1]);
      var last := events[|events| - 1];
      if last.Forwarded? then earlier + [last.frame] else earlier
  }

  /** A stream's frames but for the asks it refused. */
  function Accepted(frames: seq<Frame>): seq<Frame> {
    if frames == [] then []
    else
      var n := |frames| - 1;
      if RefusedAt(frames, n) then Accepted(frames[..n]) else Accepted(frames[..n]) + [frames[n]]
  }

  lemma {:induction false} ForwardedFramesAppend(a: seq<Event>, b: seq<Event>)
    ensures ForwardedFrames(a + b) == ForwardedFrames(a) + ForwardedFrames(b)
  {
    if b == [] {
      assert a + b == a;
    } else {
      ForwardedFramesAppend(a, b[..|b| - 1]);
      assert (a + b)[..|a + b| - 1] == a + b[..|b| - 1];
    }
  }

  lemma ForwardedOfCause(cause: Cause)
    ensures ForwardedFrames(EventsOf(cause)) == if cause.Saw? && cause.seen.forward then [cause.frame] else []
  {
    if cause.Saw? {
      var forwarded := if cause.seen.forward then [Forwarded(cause.frame)] else [];
      var overflow := if cause.seen.overflow.Some? then [AsksOverflow(cause.seen.overflow.value)] else [];
      var due := if cause.seen.due then [CloseDue] else [];
      assert forwarded[..0] == overflow[..0] == due[..0] == [];
      ForwardedFramesAppend(forwarded, overflow);
      ForwardedFramesAppend(forwarded + overflow, due);
    } else {
      assert EventsOf(cause)[..0] == [];
    }
  }

  /** The frames forwarded since a stream began are its frames, in order, but for the asks it refused. */
  lemma {:induction false} StreamForwards(script: seq<Cause>)
    requires Faithful(script)
    ensures ForwardedFrames(StreamAsked(script)) == Accepted(CurrentFrames(script))
  {
    if script == [] {
      return;
    }
    var n := |script| - 1;
    var cause := script[n];
    assert forall k: nat :: k <= n ==> script[..n][..k] == script[..k];
    StreamForwards(script[..n]);
    if !cause.StreamBegan? {
      ForwardedFramesAppend(StreamAsked(script[..n]), EventsOf(cause));
      ForwardedOfCause(cause);
      if cause.Saw? {
        var frames := CurrentFrames(script[..n]);
        assert (frames + [cause.frame])[..|frames|] == frames;
      }
    }
  }

  /** A frame the stream carried somewhere and did not refuse there. */
  ghost predicate KeptAt(frames: seq<Frame>, k: nat, frame: Frame) {
    k < |frames| && frames[k] == frame && !RefusedAt(frames, k)
  }

  lemma {:induction false} KeptIsAccepted(frames: seq<Frame>, k: nat, frame: Frame)
    requires KeptAt(frames, k, frame)
    ensures frame in Accepted(frames)
  {
    var n := |frames| - 1;
    if k < n {
      EarlierRefusals(frames);
      KeptIsAccepted(frames[..n], k, frame);
    }
  }

  lemma {:induction false} AcceptedIsKept(frames: seq<Frame>, frame: Frame) returns (k: nat)
    requires frame in Accepted(frames)
    ensures KeptAt(frames, k, frame)
  {
    var n := |frames| - 1;
    if KeptAt(frames, n, frame) {
      k := n;
    } else {
      EarlierRefusals(frames);
      k := AcceptedIsKept(frames[..n], frame);
    }
  }

  lemma OverflowsOfCause(cause: Cause)
    ensures OverflowIds(EventsOf(cause)) ==
            if cause.Saw? && cause.seen.overflow.Some? then [cause.seen.overflow.value] else []
  {
    if cause.Saw? {
      var forwarded := if cause.seen.forward then [Forwarded(cause.frame)] else [];
      var overflow := if cause.seen.overflow.Some? then [AsksOverflow(cause.seen.overflow.value)] else [];
      var due := if cause.seen.due then [CloseDue] else [];
      assert forwarded[..0] == overflow[..0] == due[..0] == [];
      OverflowIdsAppend(forwarded, overflow);
      OverflowIdsAppend(forwarded + overflow, due);
    } else {
      assert EventsOf(cause)[..0] == [];
    }
  }

  function Withdrawals(events: seq<Event>): nat {
    multiset(events)[Withdrawn]
  }

  lemma WithdrawalsGrow(script: seq<Cause>, cause: Cause)
    ensures Withdrawals(Asked(script + [cause])) ==
            Withdrawals(Asked(script)) + if cause == StreamEnded(true) then 1 else 0
  {
    AskedGrows(script, cause);
    WithdrawnIsStreamEnd(cause);
  }

  lemma WithdrawnIsStreamEnd(cause: Cause)
    ensures Withdrawals(EventsOf(cause)) == if cause == StreamEnded(true) then 1 else 0
  {
    assert cause != StreamEnded(true) ==> Withdrawn !in EventsOf(cause);
  }

  /** A close is asked for only right after the end of a turn, seen while its mark stood. */
  ghost predicate CloseDueIsCaused(script: seq<Cause>) {
    forall k: nat :: k < |script| && CloseDue in EventsOf(script[k]) ==>
      && script[k].Saw?
      && script[k].armed
      && EventsOf(script[k]) == [Forwarded(TurnFrame(false)), CloseDue]
  }

  lemma FaithfulCloseDue(script: seq<Cause>)
    requires Faithful(script)
    ensures CloseDueIsCaused(script)
  {
  }

  /** Whether the last reconnect failed: no stream began since. */
  predicate Failing(script: seq<Cause>) {
    script != [] &&
    match script[|script| - 1]
    case StreamBegan => false
    case Unusable(_) => true
    case _ => Failing(script[..|script| - 1])
  }

  /** A cause the thread leaves by. */
  predicate Farewell(cause: Cause) { cause.WentGone? || cause.IdentityFailed? }

  /** Each failed reconnect knows whether it is the first of its streak, and nothing is learned after a farewell. */
  ghost predicate Orderly(script: seq<Cause>) {
    && (forall k: nat :: k < |script| && script[k].Unusable? ==> script[k].first == !Failing(script[..k]))
    && (forall k: nat :: k < |script| && Farewell(script[k]) ==> k == |script| - 1)
  }

  lemma OrderlyGrows(script: seq<Cause>, cause: Cause)
    requires Orderly(script) && (script != [] ==> !Farewell(script[|script| - 1]))
    requires cause.Unusable? ==> cause.first == !Failing(script)
    ensures Orderly(script + [cause])
  {
    var longer := script + [cause];
    forall k: nat | k < |longer| && longer[k].Unusable?
      ensures longer[k].first == !Failing(longer[..k])
    {
      if k < |script| {
        assert longer[..k] == script[..k];
      } else {
        assert longer[..k] == script;
      }
    }
  }

  lemma GoneGrows(script: seq<Cause>, cause: Cause)
    ensures Gone in Asked(script + [cause]) <==> Gone in Asked(script) || cause == WentGone
    ensures Failing(script + [cause]) ==
            if cause.StreamBegan? then false else if cause.Unusable? then true else Failing(script)
  {
    AskedGrows(script, cause);
    assert (script + [cause])[..|script|] == script;
  }
}
