// The asks watch and the window's reader of it (pkgs/aoide-desktop/crates/shell/src/asks.rs,
// `Watch::next` and `Watch::close`; pkgs/aoide-desktop/crates/app/src/window.rs, `asks_open`).
module AskWatch {
  import opened Common
  import opened Asks
  import opened AskAnswer

  /** What the held child gives: a line, the length of one past the cap, or its end. */
  datatype Event = Line(text: string) | TooLong(bytes: nat) | Eof

  /** How a line that is not blank reads; the reading of its JSON is not part of this model. */
  type Parser = string -> Change

  predicate Blank(text: string) {
    forall i :: 0 <= i < |text| ==> text[i] in " \t\n\r\U{0C}"
  }

  /** What one event says; a blank line says nothing. */
  function Read(parse: Parser, event: Event): Option<Change> {
    match event
    case Line(text) => if Blank(text) then None else Some(parse(text))
    case TooLong(bytes) => Some(Dropped(bytes))
    case Eof => Some(End)
  }

  /** Everything some events say, through the first end and nothing after it. */
  function Says(parse: Parser, events: seq<Event>): seq<Change> {
    if events == [] then []
    else
      var change := Read(parse, events[0]);
      if change.None? then Says(parse, events[1..])
      else if change.value.End? then [End]
      else [change.value] + Says(parse, events[1..])
  }

  function First(event: Option<Event>): seq<Event> {
    if event.Some? then [event.value] else []
  }

  /** The events among the answers a follower gave; the others ran out of time. */
  function Events(answers: seq<Option<Event>>): seq<Event> {
    if answers == [] then [] else First(answers[0]) + Events(answers[1..])
  }

  class Watch {
    const parse: Parser
    /** The answers the follower is still to give; after them it gives none. */
    var feed: seq<Option<Event>>
    /** An event taken before the watch was handed out; it comes first. */
    var pending: Option<Event>
    var ended: bool

    function Queue(): seq<Event>
      reads this
    {
      First(pending) + Events(feed)
    }

    /** Everything the watch is still to say. */
    function Left(): seq<Change>
      reads this
    {
      if ended then [] else Says(parse, Queue())
    }

    method Take() returns (event: Option<Event>)
      modifies this`feed, this`pending
      ensures old(Queue()) == First(event) + Queue()
      ensures event.Some? ==> |feed| + |First(pending)| < |old(feed)| + |First(old(pending))|
    {
      if pending.Some? {
        event := pending;
        pending := None;
      } else if feed == [] {
        event := None;
      } else {
        event := feed[0];
        feed := feed[1..];
      }
    }

    /** `Watch::next`: the next thing said, or nothing when the follower ran out of time. */
    method Next() returns (change: Option<Change>)
      modifies this
      ensures change.Some? ==> old(Left()) == [change.value] + Left() && ended == change.value.End?
      ensures change.None? ==> Left() == old(Left()) && ended == old(ended)
      ensures old(ended) ==> change.None?
    {
      while !ended
        invariant Left() == old(Left()) && ended == old(ended)
        decreases |feed| + |First(pending)|
      {
        var event := Take();
        if event.None? {
          assert First(event) + Queue() == Queue();
          return None;
        }
        SaysFirst(parse, event.value, Queue());
        var said := Read(parse, event.value);
        if said.Some? {
          ended := said.value.End?;
          return said;
        }
      }
      change := None;
    }

    /** `Watch::close`, on the events that came from the interrupt on; an event never taken is dropped. */
    method Close(rest: seq<Event>) returns (out: seq<Change>)
      ensures out == if ended then [] else Says(parse, rest)
    {
      out := [];
      var over := ended;
      ghost var whole := if ended then [] else Says(parse, rest);
      for i := 0 to |rest|
        invariant if over then out == whole else out + Says(parse, rest[i..]) == whole
      {
        SaysAt(parse, rest, i, out);
        var change := Read(parse, rest[i]);
        if change.Some? {
          if over {
            break;
          }
          over := change.value.End?;
          out := out + [change.value];
        }
      }
      assert out + Says(parse, rest[|rest|..]) == out;
    }
  }

  lemma SaysAt(parse: Parser, events: seq<Event>, i: nat, before: seq<Change>)
    requires i < |events|
    ensures var change := Read(parse, events[i]);
            before + Says(parse, events[i..]) ==
            if change.None? then before + Says(parse, events[i + 1..])
            else if change.value.End? then before + [End]
            else before + [change.value] + Says(parse, events[i + 1..])
  {
    SaysFirst(parse, events[i], events[i + 1..]);
    assert events[i..] == [events[i]] + events[i + 1..];
  }

  lemma SaysFirst(parse: Parser, event: Event, events: seq<Event>)
    ensures var change := Read(parse, event);
            Says(parse, [event] + events) ==
            if change.None? then Says(parse, events)
            else if change.value.End? then [End]
            else [change.value] + Says(parse, events)
  {
    assert ([event] + events)[1..] == events;
  }

  /** A line is said as it reads, unless it holds nothing but white space; so is the length of one past the cap. */
  function Heard(parse: Parser, events: seq<Event>): seq<Change> {
    if events == [] then []
    else
      var last := HeardOf(parse, events[|events| - 1]);
      Heard(parse, events[..|events| - 1]) + if last.Some? then [last.value] else []
  }

  function HeardOf(parse: Parser, event: Event): Option<Change> {
    match event
    case Line(text) =>
      if exists i :: 0 <= i < |text| && text[i] !in [' ', '\t', '\n', '\r', '\U{0C}'] then Some(parse(text)) else None
    case TooLong(bytes) => Some(Dropped(bytes))
    case Eof => None
  }

  /** Until its end the watch says just what its lines do (and then, `SaysItEnded`, that it ended). */
  lemma {:induction false} SaysWhatIsHeard(parse: Parser, events: seq<Event>, more: seq<Event>)
    requires Eof !in events && End !in Heard(parse, events)
    ensures Says(parse, events + more) == Heard(parse, events) + Says(parse, more)
  {
    if events == [] {
      assert events + more == more;
    } else {
      var before, last := events[..|events| - 1], events[|events| - 1];
      assert events == before + [last];
      Regrouped(before, last, more);
      SaysWhatIsHeard(parse, before, [last] + more);
      SaysOneMore(parse, Heard(parse, before), last, more);
    }
  }

  lemma SaysOneMore(parse: Parser, heard: seq<Change>, event: Event, more: seq<Event>)
    requires event != Eof && HeardOf(parse, event) != Some(End)
    ensures var said := HeardOf(parse, event);
            heard + Says(parse, [event] + more) == heard + (if said.Some? then [said.value] else []) + Says(parse, more)
  {
    HeardIsRead(parse, event);
    SaysFirst(parse, event, more);
  }

  lemma HeardIsRead(parse: Parser, event: Event)
    requires event != Eof
    ensures HeardOf(parse, event) == Read(parse, event)
  {
  }

  lemma Regrouped<T>(before: seq<T>, last: T, more: seq<T>)
    ensures before + [last] + more == before + ([last] + more)
  {
  }

  lemma SaysItEnded(parse: Parser, events: seq<Event>, more: seq<Event>)
    requires Eof !in events && End !in Heard(parse, events)
    ensures Says(parse, events + [Eof] + more) == Heard(parse, events) + [End]
  {
    SaysWhatIsHeard(parse, events, [Eof] + more);
    SaysFirst(parse, Eof, more);
    Regrouped(events, Eof, more);
  }

  /** Nothing is said after an end. */
  lemma {:induction false} EndIsLast(parse: Parser, events: seq<Event>)
    ensures forall i :: 0 <= i < |Says(parse, events)| - 1 ==> !Says(parse, events)[i].End?
  {
    if events != [] {
      EndIsLast(parse, events[1..]);
    }
  }

  /** What was said while the record was kept, and what was only pushed after. */
  datatype Told = Told(kept: seq<Change>, late: seq<Change>)

  /** One change, kept and pushed. */
  method Hear(w: World, window: Window, page: Page, ghost before: seq<Change>, change: Change)
    requires window.held == KeepAll(before) && page.pending == ShownAll(w, before)
    modifies window, page
    ensures window.held == KeepAll(before + [change]) && page.pending == ShownAll(w, before + [change])
  {
    assert (before + [change])[..|before|] == before;
    window.Keep(change);
    page.OnAskPush(Wire(w, change));
  }

  lemma MoveOver(kept: seq<Change>, change: Change, left: seq<Change>)
    ensures kept + ([change] + left) == kept + [change] + left
    ensures End in kept + [change] <==> End in kept || change.End?
  {
  }

  /** Until it is told to stop, or the end is told, each change is kept in the record and pushed to the page. */
  method Follow(w: World, watch: Watch, window: Window, page: Page, stops: nat) returns (kept: seq<Change>)
    requires window.held == [] && page.pending == map[]
    modifies watch, window, page
    ensures old(watch.Left()) == kept + watch.Left()
    ensures window.held == KeepAll(kept) && page.pending == ShownAll(w, kept) && Mirrors(w, page.pending, window.held)
    ensures watch.ended <==> End in kept || old(watch.ended)
  {
    kept := [];
    var turns := 0;
    ghost var whole := watch.Left();
    while turns < stops
      invariant whole == kept + watch.Left()
      invariant window.held == KeepAll(kept) && page.pending == ShownAll(w, kept)
      invariant watch.ended <==> End in kept || old(watch.ended)
    {
      var change := watch.Next();
      if change.Some? {
        Hear(w, window, page, kept, change.value);
        MoveOver(kept, change.value, watch.Left());
        kept := kept + [change.value];
        if change.value.End? {
          break;
        }
      }
      turns := turns + 1;
    }
    PageMirrorsTheRecord(w, kept);
  }

  /** What the close gave, pushed and not kept. */
  method PushLate(w: World, page: Page, ghost kept: seq<Change>, late: seq<Change>)
    requires page.pending == ShownAll(w, kept)
    modifies page
    ensures page.pending == ShownAll(w, kept + late)
  {
    assert kept + late[..0] == kept;
    for i := 0 to |late|
      invariant page.pending == ShownAll(w, kept + late[..i])
    {
      ghost var more := kept + late[..i + 1];
      assert more[|more| - 1] == late[i] && more[..|more| - 1] == kept + late[..i];
      page.OnAskPush(Wire(w, late[i]));
    }
    assert kept + late[..|late|] == kept + late;
  }

  /**
   * The reader `asks_open` starts: it follows the watch, pushes what the close gives without keeping it,
   * and then empties the record.
   */
  method Reader(w: World, watch: Watch, window: Window, page: Page, stops: nat, rest: Option<seq<Event>>)
      returns (told: Told)
    requires window.held == [] && page.pending == map[]
    modifies watch, window, page
    ensures told.kept <= old(watch.Left())
    ensures told.late ==
            if rest.None? || End in told.kept || old(watch.ended) then [] else Says(watch.parse, rest.value)
    ensures page.pending == ShownAll(w, told.kept + told.late)
    ensures window.held == []
  {
    var kept := Follow(w, watch, window, page, stops);
    var late: seq<Change> := [];
    if rest.Some? {
      late := watch.Close(rest.value);
    }
    PushLate(w, page, kept, late);
    window.held := [];
    told := Told(kept, late);
  }

  /** Some key's last word is that its ask is open. */
  ghost predicate LeavesAnAsk(changes: seq<Change>) {
    exists session, askId :: LastWordIsAdded(changes, session, askId)
  }

  /**
   * Once its reader is over, the record is empty, so the page still mirrors it exactly when every ask
   * it was ever told of has been reported gone or the end was told.
   */
  lemma AfterTheReader(w: World, changes: seq<Change>)
    ensures Mirrors(w, ShownAll(w, changes), []) <==> !LeavesAnAsk(changes)
    ensures !LeavesAnAsk(changes) <==> ShownAll(w, changes) == map[]
    ensures changes != [] && changes[|changes| - 1].End? ==> !LeavesAnAsk(changes)
  {
    var pending := ShownAll(w, changes);
    PageMirrorsTheRecord(w, changes);
    forall session, askId ensures At(pending, session, askId).Some? <==> LastWordIsAdded(changes, session, askId) {
      PageShowsIff(w, changes, session, askId);
    }
    if pending != map[] {
      var session :| session in pending;
      var askId :| askId in pending[session];
      assert At(pending, session, askId).Some?;
      assert LastWordIsAdded(changes, session, askId);
    }
    if LeavesAnAsk(changes) {
      var session, askId :| LastWordIsAdded(changes, session, askId);
      assert At(pending, session, askId).Some?;
    }
  }

  /** An ask told of only while the watch closed stays on the page, and no answer to it runs. */
  lemma LateAskStays(w: World, h: Held, word: string, pane: Option<string>, said: Said)
    ensures LeavesAnAsk([Added(h)])
    ensures At(ShownAll(w, [Added(h)]), h.session, h.askId) == Some(ViewOf(w, h))
    ensures AnswerOf(w, [], h.session, h.askId, word, pane, said) == Refused(NotOpen)
  {
    var changes := [Added(h)];
    assert changes[..0] == [];
    assert LastWordIsAdded(changes, h.session, h.askId);
    AtAfterPush(w, map[], Added(h), h.session, h.askId);
    assert ShownAll(w, changes) == Shown(map[], Wire(w, Added(h)));
  }
}
