// What the watch learned, tied to what its own run was answered
// (pkgs/aoide-desktop/crates/shell/src/doors.rs, `Worker::run`, `drain`, `reconnect`, `forget`).
module DoorTrace {
  import opened Common
  import opened DoorShared
  import opened DoorScript
  import opened DoorProtocol
  import opened DoorCalls
  import opened DoorSafety

  // ----- What a run was answered -----

  /** The last word of the pidfd in a run. */
  function LastAlive(steps: seq<Step>): Option<bool> {
    if steps == [] then None else AliveAfter(LastAlive(steps[..|steps| - 1]), steps[|steps| - 1])
  }

  function AliveAfter(before: Option<bool>, step: Step): Option<bool> {
    match step
    case WorkerStep(Alive(alive)) => Some(alive)
    case _ => before
  }

  /** What became of the last reconnect. */
  function LastOpen(steps: seq<Step>): Option<Answer> {
    if steps == [] then None else OpenAfter(LastOpen(steps[..|steps| - 1]), steps[|steps| - 1])
  }

  function OpenAfter(before: Option<Answer>, step: Step): Option<Answer> {
    if step.WorkerStep? && step.answer in {Opened, OpenIdentity, OpenOther} then Some(step.answer) else before
  }

  /** The frames the door's streams gave in a run, in order. */
  function FramesGiven(steps: seq<Step>): seq<Frame> {
    if steps == [] then [] else FramesGiven(steps[..|steps| - 1]) + GivenAt(steps[|steps| - 1])
  }

  function GivenAt(step: Step): seq<Frame> {
    match step
    case WorkerStep(FrameRead(frame)) => [frame]
    case _ => []
  }

  /** How many reconnects failed on something else than identity. */
  function OtherFailures(steps: seq<Step>): nat {
    if steps == [] then 0 else OtherFailures(steps[..|steps| - 1]) + FailureAt(steps[|steps| - 1])
  }

  function FailureAt(step: Step): nat { if step == WorkerStep(OpenOther) then 1 else 0 }

  /** The channel answered once that its receiver is gone. */
  predicate LostItsReceiver(steps: seq<Step>) { WorkerStep(Tried(Disconnected)) in steps }

  /** How many events the channel took. */
  function EventsTaken(steps: seq<Step>): nat {
    if steps == [] then 0 else EventsTaken(steps[..|steps| - 1]) + TakenAt(steps[|steps| - 1])
  }

  function TakenAt(step: Step): nat { if step == WorkerStep(Tried(Taken)) then 1 else 0 }

  // ----- What the watch made of it -----

  /** The frames a watch has seen, over all its streams. */
  function FramesSeen(script: seq<Cause>): seq<Frame> {
    if script == [] then [] else FramesSeen(script[..|script| - 1]) + SeenIn(script[|script| - 1])
  }

  function SeenIn(cause: Cause): seq<Frame> { if cause.Saw? then [cause.frame] else [] }

  function Unusables(script: seq<Cause>): nat {
    if script == [] then 0 else Unusables(script[..|script| - 1]) + if script[|script| - 1].Unusable? then 1 else 0
  }

  lemma SeenMore(script: seq<Cause>, cause: Cause)
    ensures FramesSeen(script + [cause]) == FramesSeen(script) + SeenIn(cause)
    ensures Unusables(script + [cause]) == Unusables(script) + if cause.Unusable? then 1 else 0
  {
    assert (script + [cause])[..|script|] == script;
  }

  /** The frame read and not yet seen. */
  function InHand(worker: Worker): seq<Frame> {
    match worker
    case StopLooking(_, frame) => [frame]
    case Observing(_, frame) => [frame]
    case _ => []
  }

  /** The way out of a stream whose watch was stopped: no frame is read on it. */
  predicate WindsUp(worker: Worker) {
    match worker
    case EndLooking(_) => true
    case EndLocking(_, _) => true
    case Delivering(_, after) => !after.ToStream?
    case Holding => true
    case Leaving => true
    case Dead => true
    case _ => false
  }

  /** Every frame given was seen, is in hand, or was the one read as the watch was stopped. */
  predicate FramesOk(given: seq<Frame>, seen: seq<Frame>, worker: Worker, stop: bool) {
    given == seen + InHand(worker) || (stop && WindsUp(worker) && seen < given && |given| == |seen| + 1)
  }

  /** A stream is read, or one is being opened. */
  predicate Reads(worker: Worker) {
    worker.Reconnecting? || worker.Installing? || worker.Clearing? || worker.Awaiting? || worker.StopLooking?
    || worker.Observing? || worker.EndLooking? || (worker.Delivering? && worker.after.ToStream?)
  }

  /** What the thread does is what the pidfd and the reconnect last said. */
  predicate LivesOk(alive: Option<bool>, open: Option<Answer>, worker: Worker) {
    && (worker.EndLocking? ==> alive == Some(worker.alive))
    && (worker.Reconnecting? ==> alive == Some(true))
    && (worker.ForgetStoring? || worker.ForgetMarking? ==> alive == Some(false))
    && (Reads(worker) ==> alive != Some(false))
    && (Reads(worker) && !worker.Reconnecting? ==> open == None || open == Some(Opened))
    && (worker.Installing? ==> open == Some(Opened))
    && (worker.DropStoring? ==> open == Some(OpenIdentity))
  }

  /** A farewell is what was answered last. */
  predicate FarewellOk(alive: Option<bool>, open: Option<Answer>, script: seq<Cause>) {
    && (WentGone in script ==> alive == Some(false))
    && (IdentityFailed in script ==> open == Some(OpenIdentity))
  }

  /** What a run gave and answered: its frames, how many reconnects failed, and its last words. */
  datatype Given = Given(frames: seq<Frame>, failures: nat, alive: Option<bool>, open: Option<Answer>, lost: bool,
      taken: nat)

  function GivenBy(steps: seq<Step>): Given {
    Given(FramesGiven(steps), OtherFailures(steps), LastAlive(steps), LastOpen(steps), LostItsReceiver(steps),
          EventsTaken(steps))
  }

  function GivenMore(g: Given, step: Step): Given {
    Given(g.frames + GivenAt(step), g.failures + FailureAt(step), AliveAfter(g.alive, step), OpenAfter(g.open, step),
          g.lost || step == WorkerStep(Tried(Disconnected)), g.taken + TakenAt(step))
  }

  lemma GivenByMore(steps: seq<Step>, step: Step)
    ensures GivenBy(steps + [step]) == GivenMore(GivenBy(steps), step)
  {
    assert (steps + [step])[..|steps|] == steps;
  }

  /** The thread leaves only when it is stopped, or after a farewell. */
  predicate LeavesOk(worker: Worker, stop: bool, script: seq<Cause>) {
    IsLeaving(worker) ==> stop || WentGone in script || IdentityFailed in script
  }

  /** What was sent is what the channel took, until the watch is stopped. */
  predicate SentOk(taken: nat, sent: nat, stop: bool) {
    sent <= taken && (!stop ==> sent == taken)
  }

  /** No stream that is opened has a closer that was fired before: every one is numbered anew. */
  predicate StreamsOk(s: Sys) {
    && (forall stream :: stream in s.fired ==> stream < s.streams)
    && (Drained(s.worker).Some? ==> Drained(s.worker).value < s.streams)
    && (s.worker.Installing? ==> s.worker.stream + 1 == s.streams && s.worker.stream !in s.fired)
  }

  predicate TraceOk(g: Given, s: Sys) {
    && LeavesOk(s.worker, s.shared.stop, s.script)
    && (s.receiverGone ==> g.lost)
    && SentOk(g.taken, |s.sent|, s.shared.stop)
    && FramesOk(g.frames, FramesSeen(s.script), s.worker, s.shared.stop)
    && LivesOk(g.alive, g.open, s.worker)
    && FarewellOk(g.alive, g.open, s.script)
    && g.failures == Unusables(s.script)
  }

  // ----- Every step keeps it -----

  lemma OnStreamLives(worker: Worker, s: Shared, receiverGone: bool, a: Answer, alive: Option<bool>,
      open: Option<Answer>)
    requires WorkerMay(worker, s, receiverGone, a) && OnStream(worker) && LivesOk(alive, open, worker)
    ensures var m, step := MoveOnStream(worker, s, receiverGone, a), WorkerStep(a);
            LivesOk(AliveAfter(alive, step), OpenAfter(open, step), m.to)
  {
    match worker {
      case Delivering(rest, after) => TryingLives(s, rest, after, a, alive, open);
      case Observing(stream, frame) => ObservingLives(s, stream, frame, a, alive, open);
      case _ =>
    }
  }

  lemma OnStreamLeaves(worker: Worker, s: Shared, receiverGone: bool, a: Answer)
    requires WorkerMay(worker, s, receiverGone, a) && OnStream(worker)
    ensures var m, step := MoveOnStream(worker, s, receiverGone, a), WorkerStep(a);
            && (m.learns.Some? ==> !Farewell(m.learns.value) && !m.learns.value.Unusable?)
            && FailureAt(step) == 0
            && (IsLeaving(m.to) ==> IsLeaving(worker)) && m.shared.stop == s.stop
            && (m.receiverGone ==> a == Tried(Disconnected))
            && (m.sends.Some? <==> a == Tried(Taken) && !s.stop)
  {
    match worker {
      case Delivering(rest, after) => TryingLeaves(s, rest, after, a);
      case Observing(stream, frame) => ObservingLeaves(s, stream, frame, a);
      case _ =>
    }
  }

  lemma TryingLives(s: Shared, rest: seq<Event>, after: After, a: Answer, alive: Option<bool>, open: Option<Answer>)
    requires rest != [] && a.Tried? && LivesOk(alive, open, Delivering(rest, after))
    ensures LivesOk(alive, open, MoveDelivering(s, rest, after, a.send).to)
  {
  }

  lemma TryingLeaves(s: Shared, rest: seq<Event>, after: After, a: Answer)
    requires rest != [] && a.Tried?
    ensures var m := MoveDelivering(s, rest, after, a.send);
            && m.learns.None? && (IsLeaving(m.to) ==> after == ToLeave)
            && m.shared.stop == s.stop && (m.receiverGone ==> a == Tried(Disconnected))
            && (m.sends.Some? <==> a == Tried(Taken) && !s.stop)
  {
  }

  lemma ObservingLives(s: Shared, stream: Stream, frame: Frame, a: Answer, alive: Option<bool>, open: Option<Answer>)
    requires a.Go? && LivesOk(alive, open, Observing(stream, frame))
    ensures var (shared, seen) := Observe(s, frame);
            LivesOk(alive, open, Learns(shared, Saw(frame, seen, s.armed), ToStream(stream)).to)
  {
  }

  lemma ObservingLeaves(s: Shared, stream: Stream, frame: Frame, a: Answer)
    requires a.Go?
    ensures var (shared, seen) := Observe(s, frame);
            !IsLeaving(Learns(shared, Saw(frame, seen, s.armed), ToStream(stream)).to) && shared.stop == s.stop
  {
  }

  /** What a step adds to the frames seen. */
  function Sees(m: WorkerMove): seq<Frame> { if m.learns.Some? then SeenIn(m.learns.value) else [] }

  lemma OnStreamFramesGiven(worker: Worker, s: Shared, receiverGone: bool, a: Answer, given: seq<Frame>,
      seen: seq<Frame>)
    requires WorkerMay(worker, s, receiverGone, a) && OnStream(worker) && FramesOk(given, seen, worker, s.stop)
    ensures var m := MoveOnStream(worker, s, receiverGone, a);
            FramesOk(given + GivenAt(WorkerStep(a)), seen + Sees(m), m.to, m.shared.stop)
  {
  }

  lemma OffStreamLives(worker: Worker, s: Shared, failing: bool, streams: nat, a: Answer, alive: Option<bool>,
      open: Option<Answer>)
    requires WorkerMay(worker, s, false, a) && !OnStream(worker) && LivesOk(alive, open, worker)
    ensures var m, step := MoveOffStream(worker, s, failing, streams, a), WorkerStep(a);
            && LivesOk(AliveAfter(alive, step), OpenAfter(open, step), m.to)
            && (m.learns == Some(WentGone) ==> AliveAfter(alive, step) == Some(false))
            && (m.learns == Some(IdentityFailed) ==> OpenAfter(open, step) == Some(OpenIdentity))
  {
  }

  lemma OffStreamLeaves(worker: Worker, s: Shared, failing: bool, streams: nat, a: Answer)
    requires WorkerMay(worker, s, false, a) && !OnStream(worker)
    ensures var m, step := MoveOffStream(worker, s, failing, streams, a), WorkerStep(a);
            && GivenAt(step) == [] && Sees(m) == []
            && FailureAt(step) == (if m.learns.Some? && m.learns.value.Unusable? then 1 else 0)
            && (IsLeaving(m.to) ==>
                  IsLeaving(worker) || s.stop || (m.learns.Some? && Farewell(m.learns.value)))
            && m.shared.stop == s.stop && !m.receiverGone && m.sends == None && TakenAt(step) == 0
  {
  }

  lemma OffStreamFramesGiven(worker: Worker, s: Shared, failing: bool, streams: nat, a: Answer, given: seq<Frame>,
      seen: seq<Frame>)
    requires WorkerMay(worker, s, false, a) && !OnStream(worker) && FramesOk(given, seen, worker, s.stop)
    ensures var m := MoveOffStream(worker, s, failing, streams, a); FramesOk(given, seen, m.to, m.shared.stop)
  {
  }

  lemma WorkerMoveTrace(s: Sys, m: WorkerMove)
    ensures var t := WorkerMoves(s, m);
            && FramesSeen(t.script) == FramesSeen(s.script) + Sees(m)
            && Unusables(t.script) ==
               Unusables(s.script) + (if m.learns.Some? && m.learns.value.Unusable? then 1 else 0)
            && (WentGone in t.script <==> WentGone in s.script || m.learns == Some(WentGone))
            && (IdentityFailed in t.script <==> IdentityFailed in s.script || m.learns == Some(IdentityFailed))
            && |t.sent| == |s.sent| + (if m.sends.Some? then 1 else 0)
            && t.worker == m.to && t.shared == m.shared && t.receiverGone == (s.receiverGone || m.receiverGone)
  {
    if m.learns.Some? {
      SeenMore(s.script, m.learns.value);
    }
  }

  /** After a farewell nothing is asked. */
  lemma FarewellStays(s: Sys, a: Answer, alive: Option<bool>, open: Option<Answer>)
    requires ReportsOk(s) && Enabled(s, WorkerStep(a)) && FarewellOk(alive, open, s.script)
    ensures FarewellOk(AliveAfter(alive, WorkerStep(a)), OpenAfter(open, WorkerStep(a)), s.script)
  {
    if WentGone in s.script || IdentityFailed in s.script {
      assert IsLeaving(s.worker);
    }
  }

  lemma WorkerStepTrace(g: Given, s: Sys, a: Answer)
    requires TraceOk(g, s) && ReportsOk(s) && Enabled(s, WorkerStep(a))
    ensures TraceOk(GivenMore(g, WorkerStep(a)), Next(s, WorkerStep(a)))
  {
    if OnStream(s.worker) {
      OnStreamTrace(g, s, a);
    } else {
      OffStreamTrace(g, s, a);
    }
  }

  lemma OnStreamTrace(g: Given, s: Sys, a: Answer)
    requires TraceOk(g, s) && ReportsOk(s) && Enabled(s, WorkerStep(a)) && OnStream(s.worker)
    ensures TraceOk(GivenMore(g, WorkerStep(a)), Next(s, WorkerStep(a)))
  {
    OnStreamFits(g, s, a);
    MoveTrace(g, s, WorkerStep(a), MoveOnStream(s.worker, s.shared, s.receiverGone, a));
  }

  lemma OnStreamFits(g: Given, s: Sys, a: Answer)
    requires TraceOk(g, s) && ReportsOk(s) && Enabled(s, WorkerStep(a)) && OnStream(s.worker)
    ensures MoveFits(g, s, WorkerStep(a), MoveOnStream(s.worker, s.shared, s.receiverGone, a))
  {
    OnStreamLives(s.worker, s.shared, s.receiverGone, a, g.alive, g.open);
    OnStreamLeaves(s.worker, s.shared, s.receiverGone, a);
    OnStreamFramesGiven(s.worker, s.shared, s.receiverGone, a, g.frames, FramesSeen(s.script));
    FarewellStays(s, a, g.alive, g.open);
  }

  lemma OffStreamTrace(g: Given, s: Sys, a: Answer)
    requires TraceOk(g, s) && ReportsOk(s) && Enabled(s, WorkerStep(a)) && !OnStream(s.worker)
    ensures TraceOk(GivenMore(g, WorkerStep(a)), Next(s, WorkerStep(a)))
  {
    OffStreamFits(g, s, a);
    MoveTrace(g, s, WorkerStep(a), MoveOffStream(s.worker, s.shared, s.failing, s.streams, a));
  }

  lemma OffStreamFits(g: Given, s: Sys, a: Answer)
    requires TraceOk(g, s) && ReportsOk(s) && Enabled(s, WorkerStep(a)) && !OnStream(s.worker)
    ensures MoveFits(g, s, WorkerStep(a), MoveOffStream(s.worker, s.shared, s.failing, s.streams, a))
  {
    OffStreamLives(s.worker, s.shared, s.failing, s.streams, a, g.alive, g.open);
    OffStreamLeaves(s.worker, s.shared, s.failing, s.streams, a);
    OffStreamFramesGiven(s.worker, s.shared, s.failing, s.streams, a, g.frames, FramesSeen(s.script));
    assert g.frames + [] == g.frames && FramesSeen(s.script) + [] == FramesSeen(s.script);
    FarewellStays(s, a, g.alive, g.open);
  }

  /** A move of the watch thread goes with what its step was answered. */
  predicate MoveFits(g: Given, s: Sys, step: Step, m: WorkerMove) {
    && FramesOk(g.frames + GivenAt(step), FramesSeen(s.script) + Sees(m), m.to, m.shared.stop)
    && LivesOk(AliveAfter(g.alive, step), OpenAfter(g.open, step), m.to)
    && FarewellOk(AliveAfter(g.alive, step), OpenAfter(g.open, step), s.script)
    && (m.learns == Some(WentGone) ==> AliveAfter(g.alive, step) == Some(false))
    && (m.learns == Some(IdentityFailed) ==> OpenAfter(g.open, step) == Some(OpenIdentity))
    && g.failures == Unusables(s.script)
    && FailureAt(step) == (if m.learns.Some? && m.learns.value.Unusable? then 1 else 0)
    && LeavesOk(s.worker, s.shared.stop, s.script) && m.shared.stop == s.shared.stop
    && (s.receiverGone ==> g.lost) && (m.receiverGone ==> step == WorkerStep(Tried(Disconnected)))
    && SentOk(g.taken, |s.sent|, s.shared.stop)
    && (m.sends.Some? <==> TakenAt(step) == 1 && !s.shared.stop)
    && (IsLeaving(m.to) ==> IsLeaving(s.worker) || s.shared.stop || (m.learns.Some? && Farewell(m.learns.value)))
  }

  lemma MoveTrace(g: Given, s: Sys, step: Step, m: WorkerMove)
    requires MoveFits(g, s, step, m)
    ensures TraceOk(GivenMore(g, step), WorkerMoves(s, m))
  {
    WorkerMoveTrace(s, m);
    MoveLeaves(g, s, step, m, WorkerMoves(s, m));
  }

  /** What a state is that such a move leads to. */
  lemma MoveLeaves(g: Given, s: Sys, step: Step, m: WorkerMove, t: Sys)
    requires MoveFits(g, s, step, m)
    requires t.worker == m.to && t.shared == m.shared && t.receiverGone == (s.receiverGone || m.receiverGone)
    requires |t.sent| == |s.sent| + (if m.sends.Some? then 1 else 0)
    requires FramesSeen(t.script) == FramesSeen(s.script) + Sees(m)
    requires Unusables(t.script) == Unusables(s.script) + if m.learns.Some? && m.learns.value.Unusable? then 1 else 0
    requires WentGone in t.script <==> WentGone in s.script || m.learns == Some(WentGone)
    requires IdentityFailed in t.script <==> IdentityFailed in s.script || m.learns == Some(IdentityFailed)
    ensures TraceOk(GivenMore(g, step), t)
  {
  }

  lemma CallerStepTrace(g: Given, s: Sys, a: Answer)
    requires TraceOk(g, s) && ClosersOk(s) && FlagsOk(s) && Enabled(s, CallerStep(a))
    ensures TraceOk(GivenMore(g, CallerStep(a)), Next(s, CallerStep(a)))
  {
    assert g.frames + [] == g.frames;
    if Early(s.caller) {
      EarlyFlags(s.shared, s.inMap, s.caller, a);
    } else {
      ClosingFlags(s.shared, s.inMap, s.caller, a);
    }
  }

  lemma WorkerKeepsStreams(s: Sys, a: Answer)
    requires StreamsOk(s) && Enabled(s, WorkerStep(a))
    ensures StreamsOk(Next(s, WorkerStep(a)))
  {
    if OnStream(s.worker) {
      OnStreamDrains(s.worker, s.shared, s.receiverGone, a);
    } else {
      OffStreamDrains(s.worker, s.shared, s.failing, s.streams, a);
    }
  }

  lemma OnStreamDrains(worker: Worker, s: Shared, receiverGone: bool, a: Answer)
    requires WorkerMay(worker, s, receiverGone, a) && OnStream(worker)
    ensures var m := MoveOnStream(worker, s, receiverGone, a);
            !m.opens && !m.to.Installing? && (Drained(m.to) == Drained(worker) || Drained(m.to) == None)
  {
  }

  lemma OffStreamDrains(worker: Worker, s: Shared, failing: bool, streams: nat, a: Answer)
    requires WorkerMay(worker, s, false, a) && !OnStream(worker)
    ensures var m := MoveOffStream(worker, s, failing, streams, a);
            && (m.opens <==> m.to.Installing?)
            && (m.to.Installing? ==> m.to.stream == streams)
            && (Drained(m.to).Some? ==> worker.Installing? && Drained(m.to).value == worker.stream)
  {
  }

  lemma CallerKeepsStreams(s: Sys, a: Answer)
    requires StreamsOk(s) && ClosersOk(s) && Enabled(s, CallerStep(a))
    ensures StreamsOk(Next(s, CallerStep(a)))
  {
    if Early(s.caller) {
      EarlyFrames(s.shared, s.inMap, s.caller, a);
    } else {
      ClosingFrames(s.shared, s.caller, a);
    }
  }

  lemma InitTrace(attached: bool)
    ensures TraceOk(GivenBy([]), Init(attached)) && StreamsOk(Init(attached))
  {
  }

  ghost predicate Traced(steps: seq<Step>, s: Sys) {
    TraceOk(GivenBy(steps), s) && StreamsOk(s) && Inv(s)
  }

  lemma StepTraced(steps: seq<Step>, s: Sys, step: Step)
    requires Traced(steps, s) && Enabled(s, step)
    ensures Traced(steps + [step], Next(s, step))
  {
    GivenByMore(steps, step);
    StepTrace(GivenBy(steps), s, step);
    StepStreams(s, step);
  }

  lemma StepStreams(s: Sys, step: Step)
    requires StreamsOk(s) && Inv(s) && Enabled(s, step)
    ensures StreamsOk(Next(s, step))
  {
    match step {
      case CallerStep(a) => CallerKeepsStreams(s, a);
      case WorkerStep(a) => WorkerKeepsStreams(s, a);
    }
  }

  lemma StepTrace(g: Given, s: Sys, step: Step)
    requires TraceOk(g, s) && Inv(s) && Enabled(s, step)
    ensures TraceOk(GivenMore(g, step), Next(s, step)) && Inv(Next(s, step))
  {
    match step {
      case CallerStep(a) =>
        CallerStepTrace(g, s, a);
        CallerKeepsInv(s, a);
      case WorkerStep(a) =>
        WorkerStepTrace(g, s, a);
        WorkerKeepsInv(s, a);
    }
  }

  lemma {:induction false} RunsKeepTrace(s: Sys, before: seq<Step>, steps: seq<Step>)
    requires Traced(before, s) && Plays(s, steps)
    ensures Traced(before + steps, Play(s, steps))
    decreases |steps|
  {
    if steps == [] {
      assert before + [] == before;
    } else {
      StepTraced(before, s, steps[0]);
      RunsKeepTrace(Next(s, steps[0]), before + [steps[0]], steps[1..]);
      FirstJoins(before, steps);
    }
  }

  lemma FirstJoins<T>(before: seq<T>, steps: seq<T>)
    requires steps != []
    ensures before + [steps[0]] + steps[1..] == before + steps
  {
  }

  // ----- The watch follows its answers -----

  /**
   * Over every run: the frames the watch has seen are those its streams gave, in order, less the one in hand, or
   * the one read as it was stopped; it learns that the door is gone only if the pidfd's last word was that it
   * does not live, and is reading or reopening a stream only if it was not; a reconnect is tried only if that
   * word was that it lives; the record is dropped only for an identity that failed; and each reconnect that
   * failed otherwise is learned of. The thread leaves only when it is stopped, or after one of its two
   * farewells; what it sent is what the channel took until then; and no stream it opens has a fired closer.
   */
  lemma WatchFollowsItsAnswers(attached: bool, steps: seq<Step>)
    requires Plays(Init(attached), steps)
    ensures FollowsAnswers(steps, Play(Init(attached), steps))
  {
    InitKeepsInv(attached);
    InitTrace(attached);
    RunsKeepTrace(Init(attached), [], steps);
    assert [] + steps == steps;
    TraceFollows(steps, Play(Init(attached), steps));
  }

  predicate FollowsAnswers(steps: seq<Step>, s: Sys) {
    var given, seen := FramesGiven(steps), FramesSeen(s.script);
    && (given == seen + InHand(s.worker) || (s.shared.stop && seen < given && |given| == |seen| + 1))
    && (WentGone in s.script || s.shared.gone ==> LastAlive(steps) == Some(false))
    && (s.worker.ForgetStoring? || s.worker.ForgetMarking? ==> LastAlive(steps) == Some(false))
    && (Reads(s.worker) ==> LastAlive(steps) != Some(false))
    && (s.worker.Reconnecting? ==> LastAlive(steps) == Some(true))
    && (s.worker.EndLocking? ==> LastAlive(steps) == Some(s.worker.alive))
    && (IdentityFailed in s.script || s.worker.DropStoring? ==> LastOpen(steps) == Some(OpenIdentity))
    && Unusables(s.script) == OtherFailures(steps)
    && (s.receiverGone ==> LostItsReceiver(steps))
    && |s.sent| <= EventsTaken(steps) && (!s.shared.stop ==> |s.sent| == EventsTaken(steps))
    && (s.worker.Installing? ==> s.worker.stream !in s.fired)
    && (s.worker.Leaving? || s.worker.Dead? ==>
          s.shared.stop || WentGone in s.script || IdentityFailed in s.script)
  }

  lemma TraceFollows(steps: seq<Step>, s: Sys)
    requires TraceOk(GivenBy(steps), s) && StreamsOk(s) && ReportsOk(s)
    ensures FollowsAnswers(steps, s)
  {
    GoneIsLearned(s);
  }

  lemma GoneIsLearned(s: Sys)
    requires ReportsOk(s)
    ensures s.shared.gone <==> WentGone in s.script
  {
    if s.shared.gone {
      GoneHasACause(s.script);
    }
    if WentGone in s.script {
      var k :| 0 <= k < |s.script| && s.script[k] == WentGone;
      CauseIsAsked(s.script, k);
    }
  }

  lemma {:induction false} GoneHasACause(script: seq<Cause>)
    requires Gone in Asked(script)
    ensures WentGone in script
  {
    if Gone in Asked(script[..|script| - 1]) {
      GoneHasACause(script[..|script| - 1]);
    }
  }

  lemma {:induction false} CauseIsAsked(script: seq<Cause>, k: nat)
    requires k < |script|
    ensures forall event :: event in EventsOf(script[k]) ==> event in Asked(script)
  {
    if k < |script| - 1 {
      CauseIsAsked(script[..|script| - 1], k);
    }
  }
}
