// The asks one stream leaves pending, as a fold of the stream's frames
// (pkgs/aoide-desktop/crates/shell/src/doors.rs, `observe`).
module DoorAsks {
  import opened Common
  import opened DoorShared

  datatype Ledger = Ledger(asks: map<nat, string>, overflowed: bool)

  const NEW_LEDGER := Ledger(map[], false)

  predicate Refuses(ledger: Ledger, frame: Frame) {
    frame.AskFrame? && frame.id !in ledger.asks && |ledger.asks| >= ASKS_BOUND
  }

  function Keep(ledger: Ledger, frame: Frame): Ledger {
    match frame
    case AskFrame(id, ask) =>
      if Refuses(ledger, frame) then ledger.(overflowed := true)
      else ledger.(asks := ledger.asks[id := ask])
    case AskSettled(id) => ledger.(asks := ledger.asks - {id})
    case _ => ledger
  }

  function Fold(frames: seq<Frame>): Ledger {
    if frames == [] then NEW_LEDGER
    else Keep(Fold(frames[..|frames| - 1]), frames[|frames| - 1])
  }

  /** Whether the frame at `k` is an ask past the bound. */
  predicate RefusedAt(frames: seq<Frame>, k: nat)
    requires k < |frames|
  {
    Refuses(Fold(frames[..k]), frames[k])
  }

  /** What a frame leaves to deliver, from the frames of its stream before it. */
  function SeenAfter(frames: seq<Frame>, frame: Frame, armed: bool): Seen {
    var refused := Refuses(Fold(frames), frame);
    Seen(!refused,
         if refused && !Fold(frames).overflowed then Some(frame.id) else None,
         frame == TurnFrame(false) && armed)
  }

  /** `Observe` updates the asks as the fold does, and says what the fold says. */
  lemma ObserveIsFold(s: Shared, frames: seq<Frame>, frame: Frame)
    requires Ledger(s.asks, s.overflowed) == Fold(frames)
    ensures var (s', seen) := Observe(s, frame);
            Ledger(s'.asks, s'.overflowed) == Fold(frames + [frame]) && seen == SeenAfter(frames, frame, s.armed)
  {
    FoldMore(frames, frame);
    ObserveKeeps(s, frame);
  }

  lemma FoldMore(frames: seq<Frame>, frame: Frame)
    ensures Fold(frames + [frame]) == Keep(Fold(frames), frame)
  {
    assert (frames + [frame])[..|frames|] == frames;
  }

  lemma ObserveKeeps(s: Shared, frame: Frame)
    ensures var ((s', seen), ledger) := (Observe(s, frame), Ledger(s.asks, s.overflowed));
            && Ledger(s'.asks, s'.overflowed) == Keep(ledger, frame)
            && seen.forward == !Refuses(ledger, frame)
            && seen.overflow == (if Refuses(ledger, frame) && !ledger.overflowed then Some(frame.id) else None)
            && seen.due == (frame == TurnFrame(false) && s.armed)
  {
    match frame {
      case TurnFrame(_) =>
      case AskFrame(_, _) => AskKeeps(s, frame);
      case AskSettled(_) =>
      case OtherFrame(_) =>
    }
  }

  lemma AskKeeps(s: Shared, frame: Frame)
    requires frame.AskFrame?
    ensures var ((s', seen), ledger) := (Observe(s, frame), Ledger(s.asks, s.overflowed));
            && Ledger(s'.asks, s'.overflowed) == Keep(ledger, frame)
            && seen.forward == !Refuses(ledger, frame)
            && seen.overflow == (if Refuses(ledger, frame) && !ledger.overflowed then Some(frame.id) else None)
            && !seen.due
  {
  }

  /** A stream never leaves more than 64 asks pending. */
  lemma {:induction false} PendingIsBounded(frames: seq<Frame>)
    ensures |Fold(frames).asks| <= 64
  {
    if frames != [] {
      var n := |frames| - 1;
      PendingIsBounded(frames[..n]);
      var before := Fold(frames[..n]).asks;
      match frames[n] {
        case AskFrame(id, ask) =>
          AddingKeyGrows(before, id, ask);
        case AskSettled(id) =>
          RemovingKeyShrinks(before, id);
        case _ =>
      }
    }
  }

  lemma RemovingKeyShrinks(m: map<nat, string>, id: nat)
    ensures |m - {id}| <= |m|
  {
    var less := m - {id};
    assert less.Keys == m.Keys - {id};
    assert |less.Keys| <= |m.Keys|;
  }

  predicate Names(frame: Frame, id: nat) {
    (frame.AskFrame? && frame.id == id) || (frame.AskSettled? && frame.askId == id)
  }

  /** The frame at `k` carried this ask, was not refused, and no later frame names its id. */
  ghost predicate CarriedLastAt(frames: seq<Frame>, k: nat, id: nat, ask: string) {
    && k < |frames|
    && frames[k] == AskFrame(id, ask)
    && !RefusedAt(frames, k)
    && forall m: nat :: k < m < |frames| ==> !Names(frames[m], id) || RefusedAt(frames, m)
  }

  ghost predicate Carried(frames: seq<Frame>, id: nat, ask: string) {
    exists k: nat :: CarriedLastAt(frames, k, id, ask)
  }

  lemma RefusalsStay(frames: seq<Frame>, frame: Frame)
    ensures forall k: nat :: k < |frames| ==> RefusedAt(frames + [frame], k) == RefusedAt(frames, k)
    ensures RefusedAt(frames + [frame], |frames|) == Refuses(Fold(frames), frame)
  {
    var more := frames + [frame];
    assert more[..|frames|] == frames;
    forall k: nat | k < |frames| ensures RefusedAt(more, k) == RefusedAt(frames, k) {
      assert more[..k] == frames[..k];
    }
  }

  /** A frame that names an id and is kept has the last word on it. */
  lemma NamedNow(frames: seq<Frame>, frame: Frame, id: nat, ask: string)
    requires Names(frame, id) && !Refuses(Fold(frames), frame)
    ensures Carried(frames + [frame], id, ask) <==> frame == AskFrame(id, ask)
  {
    var more := frames + [frame];
    RefusalsStay(frames, frame);
    assert more[|frames|] == frame;
    if frame == AskFrame(id, ask) {
      assert CarriedLastAt(more, |frames|, id, ask);
    } else {
      forall k: nat ensures !CarriedLastAt(more, k, id, ask) {
      }
    }
  }

  /** Any other frame leaves it. */
  lemma NotNamedNow(frames: seq<Frame>, frame: Frame, id: nat, ask: string)
    requires !Names(frame, id) || Refuses(Fold(frames), frame)
    ensures Carried(frames + [frame], id, ask) <==> Carried(frames, id, ask)
  {
    var more := frames + [frame];
    RefusalsStay(frames, frame);
    assert more[|frames|] == frame;
    forall k: nat ensures CarriedLastAt(more, k, id, ask) <==> CarriedLastAt(frames, k, id, ask) {
      CarriedStays(frames, frame, k, id, ask);
    }
  }

  lemma CarriedStays(frames: seq<Frame>, frame: Frame, k: nat, id: nat, ask: string)
    requires !Names(frame, id) || Refuses(Fold(frames), frame)
    ensures CarriedLastAt(frames + [frame], k, id, ask) <==> CarriedLastAt(frames, k, id, ask)
  {
    var more := frames + [frame];
    RefusalsStay(frames, frame);
    assert more[|frames|] == frame && forall m: nat :: m < |frames| ==> more[m] == frames[m];
  }

  /** An ask is pending exactly when a frame of this stream carried it, was kept, and nothing later named it. */
  lemma {:induction false} PendingIffCarried(frames: seq<Frame>, id: nat, ask: string)
    ensures (id in Fold(frames).asks && Fold(frames).asks[id] == ask) <==> Carried(frames, id, ask)
  {
    if frames != [] {
      var init, frame := frames[..|frames| - 1], frames[|frames| - 1];
      assert frames == init + [frame];
      PendingIffCarried(init, id, ask);
      if Names(frame, id) && !Refuses(Fold(init), frame) {
        NamedNow(init, frame, id, ask);
      } else {
        NotNamedNow(init, frame, id, ask);
      }
    }
  }

  /** A stream has overflowed exactly when one of its asks was refused. */
  lemma {:induction false} OverflowedIffRefused(frames: seq<Frame>)
    ensures Fold(frames).overflowed <==> exists k: nat :: k < |frames| && RefusedAt(frames, k)
  {
    if frames != [] {
      var n := |frames| - 1;
      OverflowedIffRefused(frames[..n]);
      EarlierRefusals(frames);
      assert Fold(frames).overflowed <==> Fold(frames[..n]).overflowed || RefusedAt(frames, n);
      if Fold(frames[..n]).overflowed {
        var k: nat :| k < n && RefusedAt(frames[..n], k);
        assert RefusedAt(frames, k);
      }
    }
  }

  lemma EarlierRefusals(frames: seq<Frame>)
    requires frames != []
    ensures forall k: nat :: k < |frames| - 1 ==> RefusedAt(frames[..|frames| - 1], k) == RefusedAt(frames, k)
  {
    forall k: nat | k < |frames| - 1
      ensures RefusedAt(frames[..|frames| - 1], k) == RefusedAt(frames, k)
    {
      assert frames[..|frames| - 1][..k] == frames[..k];
    }
  }

  /** The ids a stream reports as refused, one per `AsksOverflow` it leaves to deliver. */
  function Reports(frames: seq<Frame>): seq<nat> {
    if frames == [] then []
    else
      var init := frames[..|frames| - 1];
      var seen := SeenAfter(init, frames[|frames| - 1], false);
      Reports(init) + (if seen.overflow.Some? then [seen.overflow.value] else [])
  }

  ghost predicate FirstRefusedAt(frames: seq<Frame>, k: nat) {
    k < |frames| && RefusedAt(frames, k) && forall j: nat :: j < k ==> !RefusedAt(frames, j)
  }

  /** A stream that refused no ask reports none; any other reports its first refused id, once. */
  lemma {:induction false} FirstRefusalReportedOnce(frames: seq<Frame>)
    ensures !Fold(frames).overflowed ==> Reports(frames) == []
    ensures Fold(frames).overflowed ==>
              exists k: nat :: FirstRefusedAt(frames, k) && Reports(frames) == [frames[k].id]
  {
    if frames != [] {
      var n := |frames| - 1;
      var init := frames[..n];
      FirstRefusalReportedOnce(init);
      EarlierRefusals(frames);
      assert Fold(frames).overflowed <==> Fold(init).overflowed || RefusedAt(frames, n);
      if Fold(init).overflowed {
        var k: nat :| FirstRefusedAt(init, k) && Reports(init) == [init[k].id];
        assert FirstRefusedAt(frames, k);
        assert Reports(frames) == [frames[k].id];
      } else if RefusedAt(frames, n) {
        OverflowedIffRefused(init);
        assert FirstRefusedAt(frames, n);
        assert Reports(frames) == [frames[n].id];
      }
    }
  }

  function Opened(open: map<nat, string>, frame: Frame): map<nat, string> {
    match frame
    case AskFrame(id, ask) => open[id := ask]
    case AskSettled(id) => open - {id}
    case _ => open
  }

  /** The asks opened and not settled, with no bound. */
  function OpenAsks(frames: seq<Frame>): map<nat, string> {
    if frames == [] then map[] else Opened(OpenAsks(frames[..|frames| - 1]), frames[|frames| - 1])
  }

  ghost predicate NeverPastBound(frames: seq<Frame>) {
    forall k: nat :: k <= |frames| ==> |OpenAsks(frames[..k])| <= 64
  }

  lemma NeverPastBoundMore(frames: seq<Frame>, frame: Frame)
    ensures NeverPastBound(frames + [frame]) <==> NeverPastBound(frames) && |OpenAsks(frames + [frame])| <= 64
  {
    var more := frames + [frame];
    assert more[..|more|] == more;
    if NeverPastBound(more) {
      forall k: nat | k <= |frames| ensures |OpenAsks(frames[..k])| <= 64 {
        SamePrefix(frames, frame, k);
        assert |OpenAsks(more[..k])| <= 64;
      }
      assert |OpenAsks(more[..|more|])| <= 64;
    }
    if NeverPastBound(frames) && |OpenAsks(more)| <= 64 {
      forall k: nat | k <= |more| ensures |OpenAsks(more[..k])| <= 64 {
        if k < |more| {
          SamePrefix(frames, frame, k);
        }
      }
    }
  }

  lemma SamePrefix(frames: seq<Frame>, frame: Frame, k: nat)
    requires k <= |frames|
    ensures (frames + [frame])[..k] == frames[..k]
  {
  }

  lemma AddingKeyGrows(m: map<nat, string>, id: nat, ask: string)
    ensures |m[id := ask]| == |m| + if id in m then 0 else 1
  {
    if id in m {
      assert m[id := ask].Keys == m.Keys;
    } else {
      assert m[id := ask].Keys == m.Keys + {id};
    }
  }

  /** One frame, while the pending asks are the open ones. */
  lemma KeepIsOpen(open: map<nat, string>, frame: Frame)
    requires |open| <= 64
    ensures Keep(Ledger(open, false), frame).overflowed <==> |Opened(open, frame)| > 64
    ensures !Keep(Ledger(open, false), frame).overflowed ==>
            Keep(Ledger(open, false), frame).asks == Opened(open, frame)
  {
    if frame.AskFrame? {
      AddingKeyGrows(open, frame.id, frame.ask);
    } else if frame.AskSettled? {
      RemovingKeyShrinks(open, frame.askId);
    }
  }

  /** While open asks never pass the bound, and only then, none is refused and the pending asks are exactly them. */
  lemma {:induction false} PendingIsOpen(frames: seq<Frame>)
    ensures NeverPastBound(frames) <==> !Fold(frames).overflowed
    ensures NeverPastBound(frames) ==> Fold(frames).asks == OpenAsks(frames)
  {
    if frames == [] {
      assert frames[..0] == [];
    } else {
      var init, frame := frames[..|frames| - 1], frames[|frames| - 1];
      assert frames == init + [frame] && init[..|init|] == init;
      PendingIsOpen(init);
      NeverPastBoundMore(init, frame);
      if NeverPastBound(init) {
        assert |OpenAsks(init[..|init|])| <= 64;
        assert Fold(init) == Ledger(OpenAsks(init), false);
        KeepIsOpen(OpenAsks(init), frame);
      }
    }
  }
}
