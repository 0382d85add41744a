// The answer the window sends for an ask, built from its record and never from the page
// (pkgs/aoide-desktop/crates/app/src/window.rs, `ask_answer`;
// pkgs/aoide-desktop/crates/shell/src/asks.rs, `permits` and `answer`).
module AskAnswer {
  import opened Common
  import opened Asks

  /** What was shown before the answer. */
  datatype Showing = Nothing | Confirm(digest: Digest) | Pane(digest: Digest)

  /** What the native confirm says, when it is asked. */
  datatype Said = Yes | No | Busy

  datatype Why = NotOpen | NotOffered | NoPaneDigest | Declined | ConfirmBusy | NotPermitted

  /** The command that runs, or why none does. */
  datatype Answered = Runs(session: string, askId: nat, word: string, fingerprint: string) | Refused(why: Why)

  /** `permits`. */
  predicate Permits(dialog: Option<Dialog>, shown: Showing) {
    match (dialog, shown)
    case (None, Nothing) => true
    case (None, _) => false
    case (Some(_), Nothing) => false
    case (Some(d), Confirm(digest)) => !d.capped && digest == d.digest
    case (Some(d), Pane(digest)) => digest == d.digest
  }

  /**
   * An answer goes exactly when nothing had to be shown and nothing was, or what was shown is the dialog as it is now,
   * on the confirm only if it is within its cap.
   */
  lemma PermitsIff(dialog: Option<Dialog>, shown: Showing)
    ensures Permits(dialog, shown) <==>
            || (dialog.None? && shown.Nothing?)
            || (dialog.Some? && shown == Pane(dialog.value.digest))
            || (dialog.Some? && shown == Confirm(dialog.value.digest) && !dialog.value.capped)
  {
  }

  /** What an answer shows, or why it stops before anything is permitted. */
  function ShowingFor(dialog: Option<Dialog>, pane: Option<string>, said: Said): (r: (Showing, Option<Why>)) {
    match dialog
    case None => (Nothing, None)
    case Some(d) =>
      if d.capped then
        var digest := if pane.Some? then UnhexOf(pane.value) else None;
        if digest.Some? then (Pane(digest.value), None) else (Nothing, Some(NoPaneDigest))
      else
        match said
        case Yes => (Confirm(d.digest), None)
        case No => (Nothing, Some(Declined))
        case Busy => (Nothing, Some(ConfirmBusy))
  }

  function AnswerOf(w: World, record: seq<Held>, session: string, askId: nat, word: string, pane: Option<string>,
      said: Said): Answered
  {
    var found := Find(record, session, askId);
    if found.None? then Refused(NotOpen)
    else
      var held := found.value;
      if !Offers(held.ask, word) then Refused(NotOffered)
      else
        var dialog := DialogOf(w, held.ask, word);
        var (shown, stopped) := ShowingFor(dialog, pane, said);
        if stopped.Some? then Refused(stopped.value)
        else if !Permits(dialog, shown) then Refused(NotPermitted)
        else Runs(held.session, held.askId, word, held.fingerprint)
  }

  class Window {
    var held: seq<Held>

    /** `keep`. */
    method Keep(change: Change)
      modifies this
      ensures held == Asks.Keep(old(held), change)
    {
      match change
      case Added(_) =>
        Retain(change);
        held := held + [change.held];
      case Removed(_, _, _) =>
        Retain(change);
      case _ =>
        KeptWhole(held, change);
    }

    method Retain(change: Change)
      modifies this
      ensures held == Retained(old(held), change)
    {
      var kept := [];
      for i := 0 to |held|
        invariant held == old(held) && kept == Retained(held[..i], change)
      {
        assert held[..i + 1][..i] == held[..i];
        if Kept(held[i], change) {
          kept := kept + [held[i]];
        }
      }
      assert held[..|held|] == held;
      held := kept;
    }

    /** `held_ask`. */
    method HeldAsk(session: string, askId: nat) returns (r: Option<Held>)
      ensures r == Find(held, session, askId)
    {
      for i := 0 to |held|
        invariant Find(held, session, askId) == Find(held[i..], session, askId)
      {
        assert held[i..][1..] == held[i + 1..];
        if Keyed(held[i], session, askId) {
          return Some(held[i]);
        }
      }
      r := None;
    }

    /** `ask_answer`, up to the command it runs. */
    method Answer(w: World, session: string, askId: nat, word: string, pane: Option<string>, said: Said)
        returns (r: Answered)
      ensures r == AnswerOf(w, held, session, askId, word, pane, said)
    {
      var found := HeldAsk(session, askId);
      if found.None? {
        return Refused(NotOpen);
      }
      var ask := found.value.ask;
      if !Offers(ask, word) {
        return Refused(NotOffered);
      }
      var dialog := DialogOf(w, ask, word);
      var shown := Nothing;
      if dialog.Some? {
        var d := dialog.value;
        if d.capped {
          var digest := None;
          if pane.Some? {
            digest := Unhex(pane.value);
          }
          if digest.None? {
            return Refused(NoPaneDigest);
          }
          shown := Pane(digest.value);
        } else {
          match said
          case Yes => shown := Confirm(d.digest);
          case No => return Refused(Declined);
          case Busy => return Refused(ConfirmBusy);
        }
      }
      if !Permits(dialog, shown) {
        return Refused(NotPermitted);
      }
      r := Runs(found.value.session, found.value.askId, word, found.value.fingerprint);
    }
  }

  lemma {:induction false} KeptWhole(record: seq<Held>, change: Change)
    requires !change.Added? && !change.Removed?
    ensures Retained(record, change) == record
  {
    if record != [] {
      KeptWhole(record[..|record| - 1], change);
      assert record == record[..|record| - 1] + [record[|record| - 1]];
    }
  }

  // ----- When an answer runs -----

  /**
   * A yes on an approval is given on the whole call: by the native confirm within its cap, by the pane's digest
   * above it.
   */
  predicate YesIsShown(w: World, held: Held, pane: Option<string>, said: Said) {
    var d := DialogOf(w, held.ask, YES);
    && d.Some?
    && if d.value.capped then pane == Some(Hex(w.sha(w.spell(held.ask.call)))) else said == Yes
  }

  /**
   * An answer runs exactly when the record holds the ask, the ask offers it, and a yes on an approval was
   * given on that ask's own call; and then it names the record's ask and fingerprint.
   */
  lemma AnswerRunsIff(w: World, record: seq<Held>, session: string, askId: nat, word: string, pane: Option<string>,
      said: Said)
    ensures var found, r := Find(record, session, askId), AnswerOf(w, record, session, askId, word, pane, said);
            && (r.Runs? <==> found.Some? && word in Labels(found.value.ask)
                             && (found.value.ask.Approval? && word == YES ==> YesIsShown(w, found.value, pane, said)))
            && (r.Runs? ==> r == Runs(session, askId, word, found.value.fingerprint))
  {
    var found := Find(record, session, askId);
    if found.Some? {
      OffersItsLabels(found.value.ask, word);
      var d := DialogOf(w, found.value.ask, word);
      if d.Some? {
        HexReadsBack(d.value.digest);
        if pane.Some? && UnhexOf(pane.value) == Some(d.value.digest) {
          HexIsTheOnlyText(pane.value, d.value.digest);
        }
      }
    }
  }

  // ----- What the page can answer -----

  /** The labels a view draws a button for. */
  function Buttons(view: View): seq<string> {
    view.answers + seq(|view.options|, i requires 0 <= i < |view.options| => view.options[i].word)
  }

  lemma ButtonsAreLabels(w: World, h: Held)
    ensures Buttons(ViewOf(w, h)) == Labels(h.ask)
  {
  }

  /**
   * Whatever the watch has said, every button the page draws is one the record takes, under the fingerprint
   * the page shows: only a yes that needs the native confirm can still be declined.
   */
  lemma EveryButtonWorks(w: World, changes: seq<Change>, session: string, askId: nat, word: string, said: Said)
    requires At(ShownAll(w, changes), session, askId).Some?
    requires var view := At(ShownAll(w, changes), session, askId).value;
             word in Buttons(view) && (view.call.Some? && word == YES && !view.capped ==> said == Yes)
    ensures var view := At(ShownAll(w, changes), session, askId).value;
            AnswerOf(w, KeepAll(changes), session, askId, word, view.digest, said) ==
              Runs(session, askId, word, view.fingerprint)
  {
    PageMirrorsTheRecord(w, changes);
    var view := At(ShownAll(w, changes), session, askId).value;
    var held := Find(KeepAll(changes), session, askId).value;
    assert view == ViewOf(w, held);
    ButtonsAreLabels(w, held);
    AnswerRunsIff(w, KeepAll(changes), session, askId, word, view.digest, said);
  }

  /** A yes the pane gives on a call the record no longer holds is refused, unless the two calls have one digest. */
  lemma StaleYesIsRefused(w: World, record: seq<Held>, stale: Held, word: string, said: Said)
    requires stale.ask.Approval? && word == YES
    requires var now := Find(record, stale.session, stale.askId);
             now.Some? && now.value.ask.Approval?
             && DialogOf(w, now.value.ask, YES).value.capped
             && w.sha(w.spell(now.value.ask.call)) != w.sha(w.spell(stale.ask.call))
    ensures AnswerOf(w, record, stale.session, stale.askId, word, ViewOf(w, stale).digest, said).Refused?
  {
    var now := Find(record, stale.session, stale.askId).value;
    AnswerRunsIff(w, record, stale.session, stale.askId, word, ViewOf(w, stale).digest, said);
    HexReadsBack(w.sha(w.spell(now.ask.call)));
    HexReadsBack(w.sha(w.spell(stale.ask.call)));
  }
}
