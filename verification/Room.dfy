// The byte-budgeted queue between a followed child's reader and its caller
// (pkgs/aoide-desktop/crates/exec/src/lib.rs, `Room`, `Out::send`, `Follow`).
module Room {
  import opened LineReader

  /** The most a followed child may have queued for its reader, in bytes. */
  const QUEUE_BYTES: nat := 8 * 1024 * 1024
  const EVENT_COST: nat := 64

  function EventBytes(event: Event): nat {
    match event
    case Line(bytes) => |bytes|
    case Dropped(total) => total
    case Eof => 0
  }

  function Cost(event: Event): nat {
    match event
    case Line(bytes) => |bytes| + EVENT_COST
    case Dropped(_) => EVENT_COST
    case Eof => EVENT_COST
  }

  function Costs(events: seq<Event>): nat {
    if events == [] then 0 else Cost(events[0]) + Costs(events[1..])
  }

  function Bytes(events: seq<Event>): nat {
    if events == [] then 0 else EventBytes(events[0]) + Bytes(events[1..])
  }

  lemma {:induction false} SumsAppend(a: seq<Event>, b: seq<Event>)
    ensures Costs(a + b) == Costs(a) + Costs(b)
    ensures Bytes(a + b) == Bytes(a) + Bytes(b)
  {
    if a == [] {
      assert a + b == b;
    } else {
      SumsAppend(a[1..], b);
      assert (a + b)[1..] == a[1..] + b;
    }
  }

  lemma SumsOfOne(event: Event)
    ensures Costs([event]) == Cost(event) && Bytes([event]) == EventBytes(event)
  {
  }

  /** The bytes of the lines among some events. */
  function LineLengths(events: seq<Event>): nat {
    if events == [] then 0 else (if events[0].Line? then |events[0].bytes| else 0) + LineLengths(events[1..])
  }

  /** The bytes their marks stand for. */
  function DroppedLengths(events: seq<Event>): nat {
    if events == [] then 0 else (if events[0].Dropped? then events[0].total else 0) + DroppedLengths(events[1..])
  }

  /** A queue's size: its lines' bytes, and 64 for each event, whatever it is. */
  function Size(events: seq<Event>): nat { LineLengths(events) + 64 * |events| }

  /** Some events fit in 8 MiB. */
  predicate Fits(events: seq<Event>) { Size(events) <= 8_388_608 }

  /** What is reserved and counted is that size, and those bytes. */
  lemma {:induction false} SumsAreSizes(events: seq<Event>)
    ensures Costs(events) == Size(events)
    ensures Bytes(events) == LineLengths(events) + DroppedLengths(events)
  {
    if events != [] {
      SumsAreSizes(events[1..]);
    }
  }

  lemma SizesAppend(a: seq<Event>, b: seq<Event>)
    ensures Size(a + b) == Size(a) + Size(b)
  {
    SumsAppend(a, b);
    SumsAreSizes(a);
    SumsAreSizes(b);
    SumsAreSizes(a + b);
  }

  // ----- The budget, and its lock -----

  datatype Budget = Budget(bytes: nat, closed: bool)

  datatype Reserve = Wait | Closed | Taken

  /** One look of `reserve` under the lock: wait, give up, or take the bytes. */
  function TryReserve(b: Budget, cost: nat): (Budget, Reserve) {
    if b.closed then (b, Closed)
    else if b.bytes + cost > QUEUE_BYTES then (b, Wait)
    else (b.(bytes := b.bytes + cost), Taken)
  }

  function Released(b: Budget, cost: nat): Budget {
    b.(bytes := if b.bytes < cost then 0 else b.bytes - cost)
  }

  /** The budget as an object; each method is one critical section. */
  class RoomState {
    var bytes: nat
    var closed: bool

    constructor ()
      ensures Value() == Budget(0, false)
    {
      bytes, closed := 0, false;
    }

    function Value(): Budget
      reads this
    {
      Budget(bytes, closed)
    }

    method LookToReserve(cost: nat) returns (outcome: Reserve)
      modifies this
      ensures (Value(), outcome) == TryReserve(old(Value()), cost)
      ensures outcome.Taken? ==> bytes <= QUEUE_BYTES
      ensures !outcome.Taken? ==> Value() == old(Value())
    {
      if closed {
        return Closed;
      }
      if bytes + cost > QUEUE_BYTES {
        return Wait;
      }
      bytes := bytes + cost;
      outcome := Taken;
    }

    method Release(cost: nat)
      modifies this
      ensures Value() == Released(old(Value()), cost)
      ensures old(bytes) >= cost ==> bytes == old(bytes) - cost
    {
      bytes := if bytes < cost then 0 else bytes - cost;
    }

    method Close()
      modifies this
      ensures Value() == old(Value()).(closed := true)
    {
      closed := true;
    }
  }

  // ----- The reader thread and the follower -----

  /** The reader: between events, waiting for room, with room taken but nothing sent, or over. */
  datatype Producer = Ready | Waiting(event: Event) | Holding(event: Event) | Over

  /** The follower: `next` and `end` receive and then release; an ended or dropped follow closes the room. */
  datatype Consumer =
    | Between
    | Releasing(event: Event)
    | Ending
    | EndReleasing(event: Event)
    | Ended
    | Dropping
    | Gone

  /**
   * `left` is what the reader has not begun to send, `taken` what the follower has
   * received, `got` what `next` has returned of it, `ends` how often `next` returned
   * an `Eof` for a reader that is over, and `stranded` the events whose bytes are
   * never released: the `Eof` that ends `end`, and an event whose receiver went.
   */
  datatype Sys = Sys(
    budget: Budget,
    producer: Producer,
    consumer: Consumer,
    left: seq<Event>,
    queue: seq<Event>,
    taken: seq<Event>,
    got: seq<Event>,
    ends: nat,
    stranded: seq<Event>)

  datatype Step =
    | Produce
    | Receive
    | Disconnect
    | Finish
    | BeginEnd
    | GiveUp
    | Drop

  /** A reader's events: the pipe's lines, each within the cap, then `Eof`. */
  ghost predicate IsScript(script: seq<Event>) {
    && script != []
    && script[|script| - 1] == Eof
    && forall i :: 0 <= i < |script| - 1 ==> script[i] != Eof && Cost(script[i]) <= LINE_CAP + EVENT_COST
  }

  function Init(script: seq<Event>): Sys {
    Sys(Budget(0, false), Ready, Between, script, [], [], [], 0, [])
  }

  function RxLives(consumer: Consumer): bool {
    consumer != Gone
  }

  predicate Enabled(s: Sys, step: Step) {
    match step
    case Produce =>
      (match s.producer
       case Ready => true
       case Waiting(event) => TryReserve(s.budget, Cost(event)).1 != Wait
       case Holding(_) => true
       case Over => false)
    case Receive => (s.consumer.Between? || s.consumer.Ending?) && s.queue != []
    case Disconnect => s.consumer.Between? && s.queue == [] && s.producer.Over?
    case Finish =>
      s.consumer.Releasing? || s.consumer.EndReleasing? || s.consumer.Ended? || s.consumer.Dropping?
    case BeginEnd => s.consumer.Between?
    case GiveUp => s.consumer.Ending?
    case Drop => s.consumer.Between?
  }

  /** A send that fails ends the lines; the reader still tries its `Eof` once. */
  function Fails(s: Sys, event: Event): Sys {
    s.(producer := if event == Eof then Over else Waiting(Eof), left := [])
  }

  function BeginNext(s: Sys): Sys {
    if s.left == [] then s.(producer := Over) else s.(producer := Waiting(s.left[0]), left := s.left[1..])
  }

  function Reserving(s: Sys, event: Event): Sys {
    var (budget, outcome) := TryReserve(s.budget, Cost(event));
    if outcome == Closed then Fails(s, event) else s.(budget := budget, producer := Holding(event))
  }

  function Sending(s: Sys, event: Event): Sys {
    if RxLives(s.consumer) then s.(queue := s.queue + [event], producer := Ready)
    else Fails(s.(stranded := s.stranded + [event]), event)
  }

  function Producing(s: Sys): Sys
    requires Enabled(s, Produce)
  {
    match s.producer
    case Ready => BeginNext(s)
    case Waiting(event) => Reserving(s, event)
    case Holding(event) => Sending(s, event)
  }

  function Receiving(s: Sys): Sys
    requires Enabled(s, Receive)
  {
    var event := s.queue[0];
    var popped := s.(queue := s.queue[1..], taken := s.taken + [event]);
    if s.consumer.Between? then popped.(consumer := Releasing(event))
    else if event == Eof then popped.(consumer := Ended, stranded := s.stranded + [event])
    else popped.(consumer := EndReleasing(event))
  }

  function Finishing(s: Sys): Sys
    requires Enabled(s, Finish)
  {
    match s.consumer
    case Releasing(event) =>
      s.(budget := Released(s.budget, Cost(event)), consumer := Between, got := s.got + [event])
    case EndReleasing(event) => s.(budget := Released(s.budget, Cost(event)), consumer := Ending)
    case Ended => s.(budget := s.budget.(closed := true), consumer := Dropping)
    case Dropping => s.(consumer := Gone)
  }

  function Next(s: Sys, step: Step): Sys
    requires Enabled(s, step)
  {
    match step
    case Produce => Producing(s)
    case Receive => Receiving(s)
    case Disconnect => s.(ends := s.ends + 1)
    case Finish => Finishing(s)
    case BeginEnd => s.(consumer := Ending)
    case GiveUp => s.(consumer := Ended)
    case Drop => s.(budget := s.budget.(closed := true), consumer := Dropping)
  }

  predicate Plays(s: Sys, steps: seq<Step>)
    decreases |steps|
  {
    steps == [] || (Enabled(s, steps[0]) && Plays(Next(s, steps[0]), steps[1..]))
  }

  function Play(s: Sys, steps: seq<Step>): Sys
    requires Plays(s, steps)
    decreases |steps|
  {
    if steps == [] then s else Play(Next(s, steps[0]), steps[1..])
  }

  // ----- What every run keeps -----

  function Held(s: Sys): seq<Event> {
    if s.producer.Holding? then [s.producer.event] else []
  }

  function Unreleased(s: Sys): seq<Event> {
    if s.consumer.Releasing? || s.consumer.EndReleasing? then [s.consumer.event] else []
  }

  function Pending(s: Sys): seq<Event> {
    if s.producer.Waiting? || s.producer.Holding? then [s.producer.event] + s.left else s.left
  }

  /** The bytes are those of the queue, of the event reserved and not sent, and of the events taken and not released. */
  ghost predicate BytesOk(s: Sys) {
    && s.budget.bytes == Costs(s.queue) + Costs(Held(s)) + Costs(Unreleased(s)) + Costs(s.stranded)
    && s.budget.bytes <= QUEUE_BYTES
  }

  /** Until the room closes, everything is somewhere, in order. */
  ghost predicate OrderOk(s: Sys, script: seq<Event>) {
    && s.taken + s.queue + Held(s) <= script
    && (!s.budget.closed ==> s.taken + s.queue + Pending(s) == script)
  }

  /** What `next` returned is what was taken and released, in order; it made up an end only after the real one. */
  ghost predicate GotOk(s: Sys, script: seq<Event>) {
    && s.got <= s.taken
    && |Unreleased(s)| <= |s.taken|
    && Unreleased(s) == s.taken[|s.taken| - |Unreleased(s)|..]
    && (s.consumer.Between? || s.consumer.Releasing? ==> s.got == s.taken[..|s.taken| - |Unreleased(s)|])
    && (s.ends > 0 ==> s.taken == script)
  }

  ghost predicate PhaseOk(s: Sys) {
    && (s.budget.closed <==> s.consumer.Dropping? || s.consumer.Gone?)
    && (s.producer.Over? ==> s.left == [])
    && (Unreleased(s) != [] ==> s.taken != [])
    && (s.stranded != [] ==> s.budget.closed || s.consumer.Ended?)
    && (s.consumer.Ended? && s.stranded != [] ==> s.queue == [] && Pending(s) == [])
    && (forall e :: e in Pending(s) ==> Cost(e) <= LINE_CAP + EVENT_COST)
  }

  ghost predicate Inv(s: Sys, script: seq<Event>) {
    BytesOk(s) && PhaseOk(s) && OrderOk(s, script) && GotOk(s, script)
  }

  lemma InitInv(script: seq<Event>)
    requires IsScript(script)
    ensures Inv(Init(script), script)
  {
  }

  lemma ProducingKeepsBytes(s: Sys)
    requires BytesOk(s) && Enabled(s, Produce)
    ensures BytesOk(Producing(s))
  {
    match s.producer {
      case Holding(event) => SendingKeepsBytes(s, event);
      case _ =>
    }
  }

  lemma SendingKeepsBytes(s: Sys, event: Event)
    requires BytesOk(s) && s.producer == Holding(event)
    ensures BytesOk(Sending(s, event))
  {
    SumsAppend(s.queue, [event]);
    SumsAppend(s.stranded, [event]);
  }

  ghost predicate PlaceOk(s: Sys, script: seq<Event>) {
    PhaseOk(s) && OrderOk(s, script) && GotOk(s, script)
  }

  lemma BeginningKeepsPlace(s: Sys, script: seq<Event>)
    requires PlaceOk(s, script) && s.producer.Ready?
    ensures PlaceOk(BeginNext(s), script)
  {
    BeginningKeepsPending(s);
    BeginningKeepsPhase(s);
  }

  lemma BeginningKeepsPending(s: Sys)
    requires s.producer.Ready?
    ensures Pending(BeginNext(s)) == Pending(s) && Held(BeginNext(s)) == Held(s)
  {
  }

  lemma BeginningKeepsPhase(s: Sys)
    requires PhaseOk(s) && s.producer.Ready?
    ensures PhaseOk(BeginNext(s))
  {
    BeginningKeepsPending(s);
  }

  lemma ReservingKeepsPlace(s: Sys, script: seq<Event>, event: Event)
    requires PlaceOk(s, script) && s.producer == Waiting(event) && Enabled(s, Produce)
    ensures PlaceOk(Reserving(s, event), script)
  {
    Regroup(s.taken, s.queue, event, s.left);
    ReservingKeepsPhase(s, event);
  }

  lemma ReservingKeepsPhase(s: Sys, event: Event)
    requires PhaseOk(s) && s.producer == Waiting(event) && Enabled(s, Produce)
    ensures PhaseOk(Reserving(s, event))
  {
  }

  lemma SendingKeepsPlace(s: Sys, script: seq<Event>, event: Event)
    requires PlaceOk(s, script) && s.producer == Holding(event)
    ensures PlaceOk(Sending(s, event), script)
  {
    Regroup(s.taken, s.queue, event, s.left);
    SendingKeepsPhase(s, event);
  }

  lemma Regroup(taken: seq<Event>, queue: seq<Event>, event: Event, left: seq<Event>)
    ensures taken + (queue + [event]) + [] == taken + queue + [event]
    ensures taken + (queue + [event]) + left == taken + queue + ([event] + left)
    ensures taken + queue + [] <= taken + queue + [event] <= taken + queue + ([event] + left)
  {
  }

  lemma SendingKeepsPhase(s: Sys, event: Event)
    requires PhaseOk(s) && s.producer == Holding(event)
    ensures PhaseOk(Sending(s, event))
  {
  }

  lemma ProducingKeepsPlace(s: Sys, script: seq<Event>)
    requires PlaceOk(s, script) && Enabled(s, Produce)
    ensures PlaceOk(Producing(s), script)
  {
    match s.producer {
      case Ready => BeginningKeepsPlace(s, script);
      case Waiting(event) => ReservingKeepsPlace(s, script, event);
      case Holding(event) => SendingKeepsPlace(s, script, event);
    }
  }

  /** Only the last event of a script is its `Eof`. */
  lemma EofIsLast(script: seq<Event>, before: seq<Event>, after: seq<Event>)
    requires IsScript(script) && before + [Eof] + after == script
    ensures after == []
  {
    assert script[|before|] == Eof;
  }

  lemma ReceivingKeepsBytes(s: Sys)
    requires BytesOk(s) && Enabled(s, Receive)
    ensures BytesOk(Receiving(s))
  {
    SumsOfOne(s.queue[0]);
    SumsAppend(s.stranded, [s.queue[0]]);
  }

  lemma HeadMoves(taken: seq<Event>, queue: seq<Event>)
    requires queue != []
    ensures taken + [queue[0]] + queue[1..] == taken + queue
  {
  }

  lemma ReceivingKeepsOrder(s: Sys, script: seq<Event>)
    requires PlaceOk(s, script) && Enabled(s, Receive)
    ensures OrderOk(Receiving(s), script) && GotOk(Receiving(s), script)
  {
    HeadMoves(s.taken, s.queue);
    assert s.ends == 0 by {
      assert |s.taken + s.queue| <= |script|;
    }
  }

  lemma ReceivingKeepsPhase(s: Sys, script: seq<Event>)
    requires IsScript(script) && PlaceOk(s, script) && Enabled(s, Receive)
    ensures PhaseOk(Receiving(s))
  {
    if s.consumer.Ending? && s.queue[0] == Eof {
      var after := s.queue[1..] + Pending(s);
      HeadMoves(s.taken, s.queue);
      assert s.taken + [Eof] + after == s.taken + s.queue + Pending(s);
      EofIsLast(script, s.taken, after);
    }
  }

  lemma FinishingKeepsBytes(s: Sys)
    requires BytesOk(s) && Enabled(s, Finish)
    ensures BytesOk(Finishing(s))
  {
    if s.consumer.Releasing? || s.consumer.EndReleasing? {
      SumsOfOne(s.consumer.event);
    }
  }

  lemma FinishingKeepsPlace(s: Sys, script: seq<Event>)
    requires PlaceOk(s, script) && Enabled(s, Finish)
    ensures PlaceOk(Finishing(s), script)
  {
    FinishingKeepsPhase(s);
    FinishingKeepsGot(s, script);
  }

  lemma FinishingKeepsPhase(s: Sys)
    requires PhaseOk(s) && Enabled(s, Finish)
    ensures PhaseOk(Finishing(s))
  {
  }

  lemma FinishingKeepsGot(s: Sys, script: seq<Event>)
    requires GotOk(s, script) && Enabled(s, Finish)
    ensures GotOk(Finishing(s), script)
  {
    if s.consumer.Releasing? {
      WithLast(s.taken, s.consumer.event);
    }
    assert s.taken[|s.taken|..] == [] && s.taken[..|s.taken|] == s.taken;
  }

  lemma WithLast(taken: seq<Event>, event: Event)
    requires taken != [] && taken[|taken| - 1..] == [event]
    ensures taken == taken[..|taken| - 1] + [event]
  {
  }

  lemma StepKeepsInv(s: Sys, step: Step, script: seq<Event>)
    requires IsScript(script) && Inv(s, script) && Enabled(s, step)
    ensures Inv(Next(s, step), script)
  {
    match step {
      case Produce =>
        ProducingKeepsBytes(s);
        ProducingKeepsPlace(s, script);
      case Receive =>
        ReceivingKeepsBytes(s);
        ReceivingKeepsOrder(s, script);
        ReceivingKeepsPhase(s, script);
      case Finish =>
        FinishingKeepsBytes(s);
        FinishingKeepsPlace(s, script);
      case Disconnect => assert s.taken + [] + [] == s.taken;
      case _ =>
    }
  }

  lemma {:induction false} RunsKeepInv(s: Sys, steps: seq<Step>, script: seq<Event>)
    requires IsScript(script) && Inv(s, script) && Plays(s, steps)
    ensures Inv(Play(s, steps), script)
    decreases |steps|
  {
    if steps != [] {
      StepKeepsInv(s, steps[0], script);
      RunsKeepInv(Next(s, steps[0]), steps[1..], script);
    }
  }

  /**
   * Over every interleaving: the room's bytes are exactly those of the queued
   * events, of the one reserved and not yet sent, and of those taken and not
   * released (a line's own bytes, and 64 for each event); they never pass 8 MiB;
   * and a release never takes more than is there.
   */
  lemma BytesAreAccounted(script: seq<Event>, steps: seq<Step>)
    requires IsScript(script) && Plays(Init(script), steps)
    ensures var s := Play(Init(script), steps);
            && s.budget.bytes == Size(s.queue + Held(s) + Unreleased(s) + s.stranded) <= 8_388_608
            && (s.stranded != [] ==> s.consumer.Ended? || s.budget.closed)
            && Size(Unreleased(s)) <= s.budget.bytes
  {
    InitInv(script);
    RunsKeepInv(Init(script), steps, script);
    var s := Play(Init(script), steps);
    ReservedIsBytes(s);
    SumsAreSizes(Unreleased(s));
  }

  /** Everything that is reserved: queued, about to be sent, taken and not yet released, or never released. */
  function Reserved(s: Sys): seq<Event> { s.queue + Held(s) + Unreleased(s) + s.stranded }

  /**
   * The bytes of the lines queued, held and unreleased, with 64 for each event of these, never pass 8 MiB; and a
   * reader waits exactly when with its own event they would, while the room is open.
   */
  lemma ReservedFits(script: seq<Event>, steps: seq<Step>)
    requires IsScript(script) && Plays(Init(script), steps)
    ensures var s := Play(Init(script), steps);
            && Fits(Reserved(s)) && Fits(s.queue + Held(s) + Unreleased(s))
            && (s.producer.Waiting? ==>
                  (!Enabled(s, Produce) <==> !s.budget.closed && !Fits(Reserved(s) + [s.producer.event])))
  {
    InitInv(script);
    RunsKeepInv(Init(script), steps, script);
    ReservedIsBytes(Play(Init(script), steps));
  }

  lemma ReservedIsBytes(s: Sys)
    requires BytesOk(s)
    ensures s.budget.bytes == Size(Reserved(s)) && Fits(Reserved(s)) && Fits(s.queue + Held(s) + Unreleased(s))
    ensures s.producer.Waiting? ==>
              (!Enabled(s, Produce) <==> !s.budget.closed && !Fits(Reserved(s) + [s.producer.event]))
  {
    SumsAreSizes(s.queue);
    SumsAreSizes(Held(s));
    SumsAreSizes(Unreleased(s));
    SumsAreSizes(s.stranded);
    SizesAppend(s.queue, Held(s));
    SizesAppend(s.queue + Held(s), Unreleased(s));
    SizesAppend(s.queue + Held(s) + Unreleased(s), s.stranded);
    if s.producer.Waiting? {
      SizesAppend(Reserved(s), [s.producer.event]);
      SumsAreSizes([s.producer.event]);
      SumsOfOne(s.producer.event);
    }
  }

  /** A reader that waits for room leaves the follower a step to take: it is never a deadlock. */
  lemma WaitingIsNoDeadlock(script: seq<Event>, steps: seq<Step>)
    requires IsScript(script) && Plays(Init(script), steps)
    requires var s := Play(Init(script), steps); s.producer.Waiting? && !Enabled(s, Produce)
    ensures var s := Play(Init(script), steps); Enabled(s, Receive) || Enabled(s, Finish)
  {
    InitInv(script);
    RunsKeepInv(Init(script), steps, script);
    BlockedHasWork(Play(Init(script), steps), script);
  }

  lemma BlockedHasWork(s: Sys, script: seq<Event>)
    requires Inv(s, script) && s.producer.Waiting? && !Enabled(s, Produce)
    ensures Enabled(s, Receive) || Enabled(s, Finish)
  {
  }

  // ----- How it ends -----

  /** A reader that is not over always has a step to take, unless it waits for room that is still open. */
  lemma ReaderMoves(s: Sys)
    ensures Enabled(s, Produce) <==>
            && !s.producer.Over?
            && (s.producer.Waiting? ==> s.budget.closed || s.budget.bytes + Size([s.producer.event]) <= 8_388_608)
  {
    if s.producer.Waiting? {
      SumsAreSizes([s.producer.event]);
      SumsOfOne(s.producer.event);
    }
  }

  /** A follower between two events may end or drop its follow: either way the room is closed, by steps it can take. */
  lemma EndsCloseTheRoom(s: Sys)
    requires s.consumer.Between?
    ensures Enabled(s, Drop) && Next(s, Drop).budget.closed && Next(s, Drop).consumer.Dropping?
    ensures Enabled(s, BeginEnd) && Next(s, BeginEnd) == s.(consumer := Ending)
    ensures var ending := Next(s, BeginEnd);
            && Enabled(ending, GiveUp) && Next(ending, GiveUp) == s.(consumer := Ended)
            && Enabled(Next(ending, GiveUp), Finish) && Next(Next(ending, GiveUp), Finish).budget.closed
  {
  }

  /** How many steps a reader has left once the room is closed, at most. */
  function ReaderRank(producer: Producer): nat {
    match producer
    case Over => 0
    case Waiting(event) => if event == Eof then 1 else 2
    case Ready => 3
    case Holding(_) => 4
  }

  lemma ClosedStep(s: Sys, step: Step)
    requires s.budget.closed && Enabled(s, step)
    ensures Next(s, step).budget.closed
    ensures ReaderRank(Next(s, step).producer) + (if step == Produce then 1 else 0) <= ReaderRank(s.producer)
  {
  }

  function ReaderSteps(steps: seq<Step>): nat {
    if steps == [] then 0 else (if steps[0] == Produce then 1 else 0) + ReaderSteps(steps[1..])
  }

  /** A closed room releases its reader: it is never stuck, and is over after at most its rank of its own steps. */
  lemma {:induction false} ClosedEndsTheReader(s: Sys, steps: seq<Step>)
    requires s.budget.closed && Plays(s, steps)
    ensures ReaderSteps(steps) + ReaderRank(Play(s, steps).producer) <= ReaderRank(s.producer)
    ensures ReaderSteps(steps) >= ReaderRank(s.producer) ==> Play(s, steps).producer.Over?
    ensures !s.producer.Over? ==> Enabled(s, Produce)
    decreases |steps|
  {
    if steps != [] {
      ClosedStep(s, steps[0]);
      ClosedEndsTheReader(Next(s, steps[0]), steps[1..]);
    }
  }

  function Disconnects(steps: seq<Step>): nat {
    if steps == [] then 0 else (if steps[0] == Disconnect then 1 else 0) + Disconnects(steps[1..])
  }

  /** An end is made up each time the reader is found over with nothing queued, and never else. */
  lemma {:induction false} EndsAreCounted(s: Sys, steps: seq<Step>)
    requires Plays(s, steps)
    ensures Play(s, steps).ends == s.ends + Disconnects(steps)
    decreases |steps|
  {
    if steps != [] {
      EndsAreCounted(Next(s, steps[0]), steps[1..]);
    }
  }

  /** A send into a queue whose follower is gone ends the lines, and the reader then tries its `Eof`, once. */
  lemma GoneEndsTheLines(s: Sys, event: Event)
    requires s.producer == Holding(event) && s.consumer.Gone?
    ensures Next(s, Produce).left == [] && Next(s, Produce).queue == s.queue
    ensures Next(s, Produce).producer == if event == Eof then Over else Waiting(Eof)
  {
  }

  /**
   * What `next` returns is a prefix of what the reader produced, in order and whole;
   * an `Eof` it makes up for a reader that is over comes only after the real one.
   */
  lemma NextReturnsAPrefix(script: seq<Event>, steps: seq<Step>)
    requires IsScript(script) && Plays(Init(script), steps)
    ensures var s := Play(Init(script), steps);
            && s.got <= s.taken <= script
            && (s.ends > 0 ==> s.taken == script)
            && (!s.budget.closed ==> s.taken + s.queue + Pending(s) == script)
  {
    InitInv(script);
    RunsKeepInv(Init(script), steps, script);
    var s := Play(Init(script), steps);
    assert s.taken <= s.taken + s.queue + Held(s);
  }

  /** A pipe's events, then `Eof`, are such a script: what `next` returns is a prefix of the pipe's own lines. */
  lemma PipeIsScript(answers: seq<Read>)
    ensures IsScript(PipeEvents(answers) + [Eof])
  {
    var events := PipeEvents(answers);
    forall i | 0 <= i < |events|
      ensures events[i] != Eof && Cost(events[i]) <= LINE_CAP + EVENT_COST
    {
      var lines := Lines(BytesOf(answers));
      assert events[i] == if i < |lines| then LineEvent(lines[i]) else LineEvent(Tail(BytesOf(answers)));
    }
  }

  /**
   * However a pipe was cut into reads, and however reader and follower took turns, what `next` has returned
   * is a prefix of the pipe's own lines and then `Eof`.
   */
  lemma NextReturnsThePipesLines(answers: seq<Read>, steps: seq<Step>)
    requires Plays(Init(PipeEvents(answers) + [Eof]), steps)
    ensures var s := Play(Init(PipeEvents(answers) + [Eof]), steps);
            && s.got <= PipeEvents(answers) + [Eof]
            && (s.ends > 0 ==> s.taken == PipeEvents(answers) + [Eof])
  {
    PipeIsScript(answers);
    NextReturnsAPrefix(PipeEvents(answers) + [Eof], steps);
  }

  // ----- What `end` keeps of what it drains -----

  /** The events `end` keeps: each that still fits its own budget. */
  function Kept(events: seq<Event>, used: nat): seq<Event> {
    if events == [] then []
    else if used + Cost(events[0]) <= QUEUE_BYTES then [events[0]] + Kept(events[1..], used + Cost(events[0]))
    else Kept(events[1..], used)
  }

  function Overflow(events: seq<Event>, used: nat): nat {
    if events == [] then 0
    else if used + Cost(events[0]) <= QUEUE_BYTES then Overflow(events[1..], used + Cost(events[0]))
    else EventBytes(events[0]) + Overflow(events[1..], used)
  }

  function Rest(events: seq<Event>): seq<Event> {
    Kept(events, 0) + (if Overflow(events, 0) > 0 then [Dropped(Overflow(events, 0))] else [])
  }

  /** `end`'s loop over the events it drains before the child's `Eof`. */
  method CollectRest(events: seq<Event>) returns (rest: seq<Event>)
    ensures rest == Rest(events)
  {
    rest := [];
    var kept: nat, overflow: nat := 0, 0;
    var i := 0;
    while i < |events|
      invariant i <= |events|
      invariant rest + Kept(events[i..], kept) == Kept(events, 0)
      invariant overflow + Overflow(events[i..], kept) == Overflow(events, 0)
    {
      var price := Cost(events[i]);
      OneMoreDrained(events, i, kept, rest);
      if kept + price <= QUEUE_BYTES {
        kept := kept + price;
        rest := rest + [events[i]];
      } else {
        overflow := overflow + EventBytes(events[i]);
      }
      i := i + 1;
    }
    if overflow > 0 {
      rest := rest + [Dropped(overflow)];
    }
  }

  lemma OneMoreDrained(events: seq<Event>, i: nat, kept: nat, rest: seq<Event>)
    requires i < |events|
    ensures var fits, later := kept + Cost(events[i]) <= QUEUE_BYTES, events[i + 1..];
            if fits then
              && rest + Kept(events[i..], kept) == rest + [events[i]] + Kept(later, kept + Cost(events[i]))
              && Overflow(events[i..], kept) == Overflow(later, kept + Cost(events[i]))
            else
              && rest + Kept(events[i..], kept) == rest + Kept(later, kept)
              && Overflow(events[i..], kept) == EventBytes(events[i]) + Overflow(later, kept)
  {
    assert events[i..][1..] == events[i + 1..];
  }

  lemma {:induction false} KeptSums(events: seq<Event>, used: nat)
    requires used <= QUEUE_BYTES
    ensures Bytes(Kept(events, used)) + Overflow(events, used) == Bytes(events)
    ensures used + Costs(Kept(events, used)) <= QUEUE_BYTES
    ensures used + Costs(events) <= QUEUE_BYTES ==> Kept(events, used) == events && Overflow(events, used) == 0
  {
    if events != [] {
      if used + Cost(events[0]) <= QUEUE_BYTES {
        KeptSums(events[1..], used + Cost(events[0]));
        SumsAppend([events[0]], Kept(events[1..], used + Cost(events[0])));
        SumsOfOne(events[0]);
      } else {
        KeptSums(events[1..], used);
      }
    }
  }

  /** `end` conserves bytes, keeps no more than its budget, and loses nothing within it. */
  lemma RestConservesBytes(events: seq<Event>)
    ensures LineLengths(Rest(events)) + DroppedLengths(Rest(events)) == LineLengths(events) + DroppedLengths(events)
    ensures Fits(Kept(events, 0))
    ensures Fits(events) ==> Rest(events) == events
  {
    SumsAreSizes(events);
    SumsAreSizes(Rest(events));
    SumsAreSizes(Kept(events, 0));
    KeptSums(events, 0);
    assert Kept(events, 0) + [] == Kept(events, 0);
    if Overflow(events, 0) > 0 {
      SumsAppend(Kept(events, 0), [Dropped(Overflow(events, 0))]);
      SumsOfOne(Dropped(Overflow(events, 0)));
    }
  }

  /** `end` keeps, one event after the other, each that fits with those it has kept, and no other. */
  lemma KeepsWhatFits(events: seq<Event>, last: Event)
    ensures var kept := Kept(events, 0);
            Kept(events + [last], 0) == kept + if Fits(kept + [last]) then [last] else []
  {
    KeptAfter(events, 0, last);
    SizesAppend(Kept(events, 0), [last]);
    SumsAreSizes(Kept(events, 0));
    SumsAreSizes([last]);
    SumsOfOne(last);
  }

  lemma {:induction false} KeptAfter(events: seq<Event>, used: nat, last: Event)
    ensures var kept := Kept(events, used);
            Kept(events + [last], used) ==
            kept + if used + Costs(kept) + Cost(last) <= QUEUE_BYTES then [last] else []
  {
    if events == [] {
      assert [] + [last] == [last] && [last][1..] == [];
    } else {
      assert (events + [last])[1..] == events[1..] + [last];
      if used + Cost(events[0]) <= QUEUE_BYTES {
        KeptAfter(events[1..], used + Cost(events[0]), last);
      } else {
        KeptAfter(events[1..], used, last);
      }
    }
  }

  /** After events that all fit, one more is kept if it fits too, and else its bytes are counted. */
  lemma {:induction false} KeptOfMore(events: seq<Event>, used: nat, last: Event)
    requires used + Costs(events) <= QUEUE_BYTES
    ensures var fits := used + Costs(events) + Cost(last) <= QUEUE_BYTES;
            && Kept(events + [last], used) == events + (if fits then [last] else [])
            && Overflow(events + [last], used) == if fits then 0 else EventBytes(last)
  {
    if events == [] {
      assert [] + [last] == [last] && [last][1..] == [];
    } else {
      assert (events + [last])[1..] == events[1..] + [last];
      KeptOfMore(events[1..], used + Cost(events[0]), last);
    }
  }

  /** All but the last of some events fit, and the last is a mark that carries bytes. */
  predicate EndsOnAMark(events: seq<Event>) {
    && events != []
    && Fits(events[..|events| - 1])
    && events[|events| - 1].Dropped? && events[|events| - 1].total > 0
  }

  lemma AMarkStandsForItself(before: seq<Event>, last: Event)
    requires Fits(before) && last.Dropped? && last.total > 0
    ensures Rest(before + [last]) == before + [last]
  {
    SumsAreSizes(before);
    KeptOfMore(before, 0, last);
    assert before + [last] + [] == before + [last] && before + [] == before;
  }

  lemma WhatStaysFits(events: seq<Event>)
    requires Rest(events) == events
    ensures Fits(events) || EndsOnAMark(events)
  {
    KeptSums(events, 0);
    SumsAreSizes(Kept(events, 0));
    var mark := Dropped(Overflow(events, 0));
    if Overflow(events, 0) > 0 {
      SameLast(events, Kept(events, 0), mark);
    } else {
      assert Kept(events, 0) + [] == Kept(events, 0);
    }
  }

  /**
   * `rest` is what was drained exactly when all of it fits, or all but one last mark with bytes, which
   * then stands for itself.
   */
  lemma RestIsAllIff(events: seq<Event>)
    ensures Rest(events) == events <==> Fits(events) || EndsOnAMark(events)
  {
    if Fits(events) {
      RestConservesBytes(events);
    } else if EndsOnAMark(events) {
      var before, last := events[..|events| - 1], events[|events| - 1];
      AMarkStandsForItself(before, last);
      assert events == before + [last];
    }
    if Rest(events) == events {
      WhatStaysFits(events);
    }
  }

  lemma SameLast<T>(longer: seq<T>, shorter: seq<T>, last: T)
    requires longer == shorter + [last]
    ensures longer[..|longer| - 1] == shorter && longer[|longer| - 1] == last
  {
  }

  /** The events `end` does not keep. */
  function Spilled(events: seq<Event>, used: nat): seq<Event> {
    if events == [] then []
    else if used + Cost(events[0]) <= QUEUE_BYTES then Spilled(events[1..], used + Cost(events[0]))
    else [events[0]] + Spilled(events[1..], used)
  }

  lemma {:induction false} OverflowIsSpilled(events: seq<Event>, used: nat)
    ensures Overflow(events, used) == Bytes(Spilled(events, used))
    ensures |Kept(events, used)| + |Spilled(events, used)| == |events|
  {
    if events != [] {
      if used + Cost(events[0]) <= QUEUE_BYTES {
        OverflowIsSpilled(events[1..], used + Cost(events[0]));
      } else {
        OverflowIsSpilled(events[1..], used);
      }
    }
  }

  /**
   * `rest` does not account for every event: what spilled leaves its one mark
   * exactly when it carried bytes, so spilled empty lines leave none.
   */
  lemma SpilledLeavesAMark(events: seq<Event>)
    ensures |Rest(events)| > |Kept(events, 0)| <==>
            LineLengths(Spilled(events, 0)) + DroppedLengths(Spilled(events, 0)) > 0
    ensures Spilled(events, 0) == [] ==> Rest(events) == Kept(events, 0)
  {
    OverflowIsSpilled(events, 0);
    SumsAreSizes(Spilled(events, 0));
  }

  function EmptyLines(n: nat): seq<Event> {
    seq(n, _ => Line([]))
  }

  lemma {:induction false} EmptyLinesKept(n: nat, used: nat)
    requires used % EVENT_COST == 0 && used <= QUEUE_BYTES
    ensures Overflow(EmptyLines(n), used) == 0
    ensures |Kept(EmptyLines(n), used)| <= (QUEUE_BYTES - used) / EVENT_COST
  {
    if n > 0 {
      assert EmptyLines(n)[1..] == EmptyLines(n - 1);
      if used + EVENT_COST <= QUEUE_BYTES {
        EmptyLinesKept(n - 1, used + EVENT_COST);
      } else {
        EmptyLinesKept(n - 1, used);
      }
    }
  }

  /** A child that ends on more empty lines than the budget holds loses the last of them without a trace. */
  lemma EmptyLinesVanish(n: nat)
    requires n > QUEUE_BYTES / EVENT_COST
    ensures |Rest(EmptyLines(n))| < n && LineLengths(Rest(EmptyLines(n))) == 0
    ensures forall e :: e in Rest(EmptyLines(n)) ==> !e.Dropped?
  {
    EmptyLinesKept(n, 0);
    RestConservesBytes(EmptyLines(n));
    NoBytesInEmptyLines(n);
    SumsAreSizes(EmptyLines(n));
    SumsAreSizes(Rest(EmptyLines(n)));
    KeptIsFrom(EmptyLines(n), 0);
  }

  lemma {:induction false} NoBytesInEmptyLines(n: nat)
    ensures Bytes(EmptyLines(n)) == 0
  {
    if n > 0 {
      NoBytesInEmptyLines(n - 1);
      assert EmptyLines(n)[1..] == EmptyLines(n - 1);
    }
  }

  lemma {:induction false} KeptIsFrom(events: seq<Event>, used: nat)
    ensures forall e :: e in Kept(events, used) ==> e in events
  {
    if events != [] {
      if used + Cost(events[0]) <= QUEUE_BYTES {
        KeptIsFrom(events[1..], used + Cost(events[0]));
      } else {
        KeptIsFrom(events[1..], used);
      }
    }
  }
}
