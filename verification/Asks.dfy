// The window's record of the open asks, the page that mirrors it, and the answer built from
// the record (pkgs/aoide-desktop/crates/app/src/window.rs, `keep`, `held_ask`, `ask_answer`;
// pkgs/aoide-desktop/crates/shell/src/asks.rs; pkgs/aoide-desktop/crates/app/src/wire.rs,
// `ask_wire`; pkgs/aoide-desktop/ui/chat.js, `onAskPush`).
module Asks {
  import opened Common

  // ----- Asks -----

  datatype Choice = Choice(word: string, description: Option<string>)

  /** The call an approval asks about; its input is JSON. */
  datatype Call = Call(callId: string, tool: string, prompt: string, reason: Option<string>, input: string)

  datatype Ask =
    | Approval(call: Call, answers: seq<string>)
    | Question(prompt: string, options: seq<Choice>)

  /** One open ask as the watch reported it. */
  datatype Held = Held(session: string, port: nat, askId: nat, fingerprint: string, ask: Ask)

  /** How a call is spelled for a dialog, and how a text is digested; neither is part of this model. */
  datatype World = World(spell: Call -> string, sha: string -> Digest)

  const CAP_BYTES := 4 * 1024
  const CAP_LINES := 60
  const YES := "yes"

  datatype Dialog = Dialog(text: string, capped: bool, digest: Digest)

  /** How many bytes a text takes in UTF-8. */
  function Utf8Length(text: string): nat {
    if text == "" then 0
    else
      var c := text[0] as int;
      (if c < 0x80 then 1 else if c < 0x800 then 2 else if c < 0x1_0000 then 3 else 4) + Utf8Length(text[1..])
  }

  /** How many lines a text has: a last newline opens no further one. */
  function LineCount(text: string): nat {
    if text == "" then 0
    else if text[0] == '\n' then 1 + LineCount(text[1..])
    else if |text| == 1 then 1
    else LineCount(text[1..])
  }

  /** `dialog`: what a yes on an approval shows; every other answer shows nothing. */
  function DialogOf(w: World, ask: Ask, word: string): Option<Dialog> {
    if ask.Question? || word != YES then None
    else
      var text := w.spell(ask.call);
      Some(Dialog(text, Utf8Length(text) > CAP_BYTES || LineCount(text) > CAP_LINES, w.sha(text)))
  }

  /** A character in UTF-8. */
  function Utf8Of(c: char): seq<int> {
    var n := c as int;
    if n < 0x80 then [n]
    else if n < 0x800 then [0xC0 + n / 0x40, 0x80 + n % 0x40]
    else if n < 0x1_0000 then [0xE0 + n / 0x1000, 0x80 + n / 0x40 % 0x40, 0x80 + n % 0x40]
    else [0xF0 + n / 0x4_0000, 0x80 + n / 0x1000 % 0x40, 0x80 + n / 0x40 % 0x40, 0x80 + n % 0x40]
  }

  function Utf8(text: string): seq<int> {
    if text == "" then [] else Utf8Of(text[0]) + Utf8(text[1..])
  }

  lemma {:induction false} LengthIsUtf8(text: string)
    ensures Utf8Length(text) == |Utf8(text)|
  {
    if text != "" {
      LengthIsUtf8(text[1..]);
    }
  }

  /** A text made of lines, each with a newline, and what follows the last. */
  function Lined(lines: seq<string>, tail: string): string {
    if lines == [] then tail else lines[0] + "\n" + Lined(lines[1..], tail)
  }

  predicate NoNewlines(lines: seq<string>) { forall i :: 0 <= i < |lines| ==> '\n' !in lines[i] }

  lemma {:induction false} LineCountOfOne(line: string, rest: string)
    requires '\n' !in line
    ensures LineCount(line + "\n" + rest) == 1 + LineCount(rest)
    ensures LineCount(line) == if line == "" then 0 else 1
  {
    if line == "" {
      assert ("\n" + rest)[1..] == rest && "" + "\n" + rest == "\n" + rest;
    } else {
      LineCountOfOne(line[1..], rest);
      assert (line + "\n" + rest)[1..] == line[1..] + "\n" + rest;
    }
  }

  /** A text has the lines it is made of; what follows its last newline is one more if it is not empty. */
  lemma {:induction false} LineCountIs(lines: seq<string>, tail: string)
    requires NoNewlines(lines) && '\n' !in tail
    ensures LineCount(Lined(lines, tail)) == |lines| + if tail == "" then 0 else 1
  {
    if lines == [] {
      LineCountOfOne(tail, "");
    } else {
      LineCountOfOne(lines[0], Lined(lines[1..], tail));
      LineCountIs(lines[1..], tail);
    }
  }

  /**
   * A yes on an approval, and nothing else, shows the whole call as it is spelled; it is over the confirm's cap
   * exactly when that spelling takes more than 4096 bytes of UTF-8 or has more than 60 lines.
   */
  lemma DialogTells(w: World, ask: Ask, word: string, lines: seq<string>, tail: string)
    requires NoNewlines(lines) && '\n' !in tail
    requires ask.Approval? ==> w.spell(ask.call) == Lined(lines, tail)
    ensures DialogOf(w, ask, word).Some? <==> ask.Approval? && word == "yes"
    ensures ask.Approval? && word == "yes" ==>
              var d := DialogOf(w, ask, word).value;
              && d.text == w.spell(ask.call) && d.digest == w.sha(w.spell(ask.call))
              && (d.capped <==> |Utf8(w.spell(ask.call))| > 4096 || |lines| + (if tail == "" then 0 else 1) > 60)
  {
    if ask.Approval? {
      LengthIsUtf8(w.spell(ask.call));
      LineCountIs(lines, tail);
    }
  }

  /** The labels an ask offers. */
  function Labels(ask: Ask): seq<string> {
    match ask
    case Approval(_, answers) => answers
    case Question(_, options) => seq(|options|, i requires 0 <= i < |options| => options[i].word)
  }

  predicate Offers(ask: Ask, word: string) {
    match ask
    case Approval(_, answers) => word in answers
    case Question(_, options) => exists i :: 0 <= i < |options| && options[i].word == word
  }

  lemma OffersItsLabels(ask: Ask, word: string)
    ensures Offers(ask, word) <==> word in Labels(ask)
  {
    match ask
    case Approval(_, _) =>
    case Question(_, options) =>
      if i :| 0 <= i < |options| && options[i].word == word {
        assert Labels(ask)[i] == word;
      }
  }

  // ----- Digests in hexadecimal -----

  predicate HexText(text: string) { |text| == 64 && forall i :: 0 <= i < |text| ==> IsHex(text[i]) }

  function ByteAt(text: string, i: nat): Byte
    requires HexText(text) && i < 32
  {
    HexValue(text[2 * i]) * 16 + HexValue(text[2 * i + 1])
  }

  /** `unhex`: exactly 64 lowercase digits, or nothing. */
  function UnhexOf(text: string): Option<Digest> {
    if HexText(text) then Some(seq(32, i requires 0 <= i < 32 => ByteAt(text, i))) else None
  }

  method Unhex(text: string) returns (r: Option<Digest>)
    ensures r == UnhexOf(text)
  {
    if |text| != 64 {
      return None;
    }
    for i := 0 to 64
      invariant forall k :: 0 <= k < i ==> IsHex(text[k])
    {
      if !IsHex(text[i]) {
        return None;
      }
    }
    var digest := new Byte[32](_ => 0);
    for i := 0 to 32
      invariant forall k :: 0 <= k < i ==> digest[k] == ByteAt(text, k)
    {
      digest[i] := ByteAt(text, i);
    }
    assert digest[..] == UnhexOf(text).value;
    r := Some(digest[..]);
  }

  /** A digest the page was shown is read back as it was. */
  lemma HexReadsBack(d: Digest)
    ensures UnhexOf(Hex(d)) == Some(d)
  {
    HexAt(d, 0);
    forall i: nat | i < 32 ensures PairIs(Hex(d), i, d[i]) {
      HexAt(d, i);
      HexDigitBack(d[i] / 16);
      HexDigitBack(d[i] % 16);
    }
    PairsAreText(Hex(d), d);
  }

  lemma PairsAreText(text: string, d: Digest)
    requires |text| == 64 && forall i: nat :: i < 32 ==> PairIs(text, i, d[i])
    ensures UnhexOf(text) == Some(d)
  {
    forall i | 0 <= i < 64 ensures IsHex(text[i]) {
      assert PairIs(text, i / 2, d[i / 2]);
    }
    forall i: nat | i < 32 ensures ByteAt(text, i) == d[i] {
      assert PairIs(text, i, d[i]);
    }
    assert UnhexOf(text).value == d;
  }

  /** Only a digest's own text reads as it. */
  lemma HexIsTheOnlyText(text: string, d: Digest)
    requires UnhexOf(text) == Some(d)
    ensures text == Hex(d)
  {
    HexAt(d, 0);
    forall i | 0 <= i < 64 ensures text[i] == Hex(d)[i] {
      var k := i / 2;
      HexAt(d, k);
      PairReadBack(text[2 * k], text[2 * k + 1], d[k]);
      assert i == 2 * k || i == 2 * k + 1;
    }
  }

  lemma PairReadBack(high: char, low: char, byte: Byte)
    requires IsHex(high) && IsHex(low) && byte == HexValue(high) * 16 + HexValue(low)
    ensures HexDigit(byte / 16) == high && HexDigit(byte % 16) == low
  {
    var h, l := HexValue(high), HexValue(low);
    HexValueBack(high);
    HexValueBack(low);
    NibblesBack(h, l);
  }

  lemma NibblesBack(high: nat, low: nat)
    requires low < 16
    ensures (high * 16 + low) / 16 == high && (high * 16 + low) % 16 == low
  {
  }

  // ----- The record -----

  /** What one line of the watch says. */
  datatype Change =
    | Added(held: Held)
    | Removed(session: string, port: nat, askId: nat)
    | Other(text: string)
    | Dropped(bytes: nat)
    | End

  predicate Keyed(h: Held, session: string, askId: nat) { h.session == session && h.askId == askId }

  predicate Kept(h: Held, change: Change) {
    match change
    case Added(ask) => !Keyed(h, ask.session, ask.askId)
    case Removed(session, port, askId) => !(Keyed(h, session, askId) && h.port == port)
    case _ => true
  }

  function Retained(record: seq<Held>, change: Change): seq<Held> {
    if record == [] then []
    else
      var last := record[|record| - 1];
      Retained(record[..|record| - 1], change) + if Kept(last, change) then [last] else []
  }

  /** The record after one change. */
  function Keep(record: seq<Held>, change: Change): seq<Held> {
    Retained(record, change) + if change.Added? then [change.held] else []
  }

  function KeepAll(changes: seq<Change>): seq<Held> {
    if changes == [] then [] else Keep(KeepAll(changes[..|changes| - 1]), changes[|changes| - 1])
  }

  /** The first ask of a key, as an answer looks it up. */
  function Find(record: seq<Held>, session: string, askId: nat): (r: Option<Held>)
    ensures r.Some? ==> r.value in record && Keyed(r.value, session, askId)
    ensures r.None? ==> forall h :: h in record ==> !Keyed(h, session, askId)
  {
    if record == [] then None
    else if Keyed(record[0], session, askId) then Some(record[0])
    else Find(record[1..], session, askId)
  }

  predicate OnePerKey(record: seq<Held>) {
    forall i, j :: 0 <= i < j < |record| ==> !Keyed(record[i], record[j].session, record[j].askId)
  }

  lemma {:induction false} RetainedIs(record: seq<Held>, change: Change)
    requires OnePerKey(record)
    ensures OnePerKey(Retained(record, change))
    ensures forall h :: h in Retained(record, change) <==> h in record && Kept(h, change)
  {
    if record != [] {
      var last, rest := record[|record| - 1], record[..|record| - 1];
      assert record == rest + [last];
      RetainedIs(rest, change);
      var kept := Retained(rest, change);
      forall i | 0 <= i < |kept| ensures !Keyed(kept[i], last.session, last.askId) {
        assert kept[i] in rest;
      }
    }
  }

  /** The record has at most one ask a key: an ask added again replaces the one it had, and goes last. */
  lemma KeepKeepsOnePerKey(record: seq<Held>, change: Change)
    requires OnePerKey(record)
    ensures OnePerKey(Keep(record, change))
    ensures forall h :: h in Keep(record, change) <==> (h in record && Kept(h, change)) || change == Added(h)
  {
    RetainedIs(record, change);
    if change.Added? {
      var kept := Retained(record, change);
      forall i | 0 <= i < |kept| ensures !Keyed(kept[i], change.held.session, change.held.askId) {
        assert kept[i] in kept;
      }
    }
  }

  lemma {:induction false} KeepAllHasOnePerKey(changes: seq<Change>)
    ensures OnePerKey(KeepAll(changes))
  {
    if changes != [] {
      KeepAllHasOnePerKey(changes[..|changes| - 1]);
      KeepKeepsOnePerKey(KeepAll(changes[..|changes| - 1]), changes[|changes| - 1]);
    }
  }

  lemma {:induction false} FindIs(record: seq<Held>, h: Held)
    requires OnePerKey(record) && h in record
    ensures Find(record, h.session, h.askId) == Some(h)
  {
    if record[0] != h {
      FindIs(record[1..], h);
    }
  }

  /** What one change does to the ask of a key. */
  function Next(held: Option<Held>, change: Change, session: string, askId: nat): Option<Held> {
    if change.Added? && Keyed(change.held, session, askId) then Some(change.held)
    else if held.Some? && !Kept(held.value, change) then None
    else held
  }

  lemma FindAfterKeep(record: seq<Held>, change: Change, session: string, askId: nat)
    requires OnePerKey(record)
    ensures Find(Keep(record, change), session, askId) == Next(Find(record, session, askId), change, session, askId)
  {
    var after := Keep(record, change);
    KeepKeepsOnePerKey(record, change);
    var next := Next(Find(record, session, askId), change, session, askId);
    if next.Some? {
      FindIs(after, next.value);
    } else if Find(after, session, askId).Some? {
      FindIs(record, Find(after, session, askId).value);
    }
  }

  // ----- The page -----

  datatype OptionView = OptionView(word: string, description: string)

  datatype View = View(
    session: string,
    askId: nat,
    kind: string,
    prompt: string,
    answers: seq<string>,
    options: seq<OptionView>,
    call: Option<string>,
    digest: Option<string>,
    capped: bool,
    fingerprint: string)

  /** An ask as the page draws it. */
  function ViewOf(w: World, h: Held): View {
    var shown := DialogOf(w, h.ask, YES);
    var call := if shown.Some? then Some(shown.value.text) else None;
    var digest := if shown.Some? then Some(Hex(shown.value.digest)) else None;
    var capped := shown.Some? && shown.value.capped;
    match h.ask
    case Approval(asked, answers) =>
      View(h.session, h.askId, "approval", asked.prompt, answers, [], call, digest, capped, h.fingerprint)
    case Question(prompt, options) =>
      var views := seq(|options|, i requires 0 <= i < |options| =>
        OptionView(options[i].word, if options[i].description.Some? then options[i].description.value else ""));
      View(h.session, h.askId, "question", prompt, [], views, call, digest, capped, h.fingerprint)
  }

  /** What the page is shown of an ask: its own words and labels, and of an approval the whole call a yes shows. */
  lemma ViewTells(w: World, h: Held)
    ensures var view := ViewOf(w, h);
            && view.session == h.session && view.askId == h.askId && view.fingerprint == h.fingerprint
            && match h.ask
               case Approval(call, answers) =>
                 && view.kind == "approval" && view.prompt == call.prompt && view.answers == answers
                 && view.options == [] && view.call == Some(w.spell(call))
                 && view.digest == Some(Hex(w.sha(w.spell(call))))
                 && view.capped == DialogOf(w, h.ask, "yes").value.capped
               case Question(prompt, options) =>
                 && view.kind == "question" && view.prompt == prompt && view.answers == [] && !view.capped
                 && |view.options| == |options| && view.call == None && view.digest == None
                 && forall i :: 0 <= i < |options| ==>
                      && view.options[i].word == options[i].word
                      && view.options[i].description ==
                         if options[i].description.Some? then options[i].description.value else ""
  {
  }

  datatype Push =
    | Open(view: View)
    | Gone(session: string, askId: nat)
    | Note(text: string)
    | Lost(bytes: nat)
    | Closed

  /** `ask_wire`. */
  function Wire(w: World, change: Change): Push {
    match change
    case Added(h) => Open(ViewOf(w, h))
    case Removed(session, _, askId) => Gone(session, askId)
    case Other(text) => Note(text)
    case Dropped(bytes) => Lost(bytes)
    case End => Closed
  }

  /** The page's open asks, by session and then by ask id. */
  type Pending = map<string, map<nat, View>>

  function At(pending: Pending, session: string, askId: nat): Option<View> {
    if session in pending && askId in pending[session] then Some(pending[session][askId]) else None
  }

  /** No session is kept that has no ask, so a session with any is drawn as asking. */
  predicate NoneIdle(pending: Pending) {
    forall session :: session in pending ==> pending[session] != map[]
  }

  /** The page's asks after one push. */
  function Shown(pending: Pending, push: Push): Pending {
    match push
    case Open(view) =>
      var held := if view.session in pending then pending[view.session] else map[];
      pending[view.session := held[view.askId := view]]
    case Gone(session, askId) =>
      if session !in pending then pending
      else
        var held := pending[session] - {askId};
        if held == map[] then pending - {session} else pending[session := held]
    case Closed => map[]
    case _ => pending
  }

  class Page {
    var pending: Pending
    var note: string

    /** `onAskPush`, but for what is drawn. */
    method OnAskPush(push: Push)
      modifies this
      ensures pending == Shown(old(pending), push)
    {
      match push
      case Open(view) =>
        var held := if view.session in pending then pending[view.session] else map[];
        held := held[view.askId := view];
        pending := pending[view.session := held];
      case Gone(session, askId) =>
        if session in pending {
          var held := pending[session] - {askId};
          if |held| == 0 {
            assert held == map[];
            pending := pending - {session};
          } else {
            pending := pending[session := held];
          }
        }
      case Note(text) =>
        note := text;
      case Lost(_) =>
        note := "an asks line was dropped";
      case Closed =>
        pending := map[];
        note := "the asks watch closed";
    }
  }

  function ShownAll(w: World, changes: seq<Change>): Pending {
    if changes == [] then map[] else Shown(ShownAll(w, changes[..|changes| - 1]), Wire(w, changes[|changes| - 1]))
  }

  /** What one change does to the view of a key. */
  function NextView(w: World, view: Option<View>, change: Change, session: string, askId: nat): Option<View> {
    match change
    case Added(h) => if Keyed(h, session, askId) then Some(ViewOf(w, h)) else view
    case Removed(s, _, id) => if s == session && id == askId then None else view
    case End => None
    case _ => view
  }

  lemma AtAfterPush(w: World, pending: Pending, change: Change, session: string, askId: nat)
    ensures At(Shown(pending, Wire(w, change)), session, askId) ==
            NextView(w, At(pending, session, askId), change, session, askId)
    ensures NoneIdle(pending) ==> NoneIdle(Shown(pending, Wire(w, change)))
  {
    var after := Shown(pending, Wire(w, change));
    match change
    case Added(h) =>
      assert after[h.session] != map[] by { assert h.askId in after[h.session]; }
    case Removed(s, _, id) =>
      if s in pending {
        var held := pending[s] - {id};
        assert askId != id && askId in pending[s] ==> askId in held;
      }
    case _ =>
  }

  // ----- The page against the record -----

  /** Every ask the page shows is the view of the one the record holds. */
  ghost predicate Mirrors(w: World, pending: Pending, record: seq<Held>) {
    forall session, askId :: At(pending, session, askId).Some? ==>
      && Find(record, session, askId).Some?
      && At(pending, session, askId) == Some(ViewOf(w, Find(record, session, askId).value))
  }

  lemma OneChangeKeepsTheMirror(w: World, pending: Pending, record: seq<Held>, change: Change)
    requires OnePerKey(record) && Mirrors(w, pending, record)
    ensures Mirrors(w, Shown(pending, Wire(w, change)), Keep(record, change))
  {
    forall session, askId | At(Shown(pending, Wire(w, change)), session, askId).Some?
      ensures Find(Keep(record, change), session, askId).Some?
      ensures At(Shown(pending, Wire(w, change)), session, askId) ==
              Some(ViewOf(w, Find(Keep(record, change), session, askId).value))
    {
      AtAfterPush(w, pending, change, session, askId);
      FindAfterKeep(record, change, session, askId);
    }
  }

  /** Whatever the watch says, the page shows only asks the record holds, each as the record has it. */
  lemma {:induction false} PageMirrorsTheRecord(w: World, changes: seq<Change>)
    ensures OnePerKey(KeepAll(changes)) && NoneIdle(ShownAll(w, changes))
    ensures Mirrors(w, ShownAll(w, changes), KeepAll(changes))
  {
    if changes != [] {
      var before, last := changes[..|changes| - 1], changes[|changes| - 1];
      PageMirrorsTheRecord(w, before);
      KeepAllHasOnePerKey(changes);
      AtAfterPush(w, ShownAll(w, before), last, "", 0);
      OneChangeKeepsTheMirror(w, ShownAll(w, before), KeepAll(before), last);
    }
  }

  /** The last change that touches a key put its ask there, whatever doors report it. */
  predicate LastWordIsAdded(changes: seq<Change>, session: string, askId: nat) {
    changes != [] &&
    var last := changes[|changes| - 1];
    match last
    case Added(h) => Keyed(h, session, askId) || LastWordIsAdded(changes[..|changes| - 1], session, askId)
    case Removed(s, _, id) =>
      !(s == session && id == askId) && LastWordIsAdded(changes[..|changes| - 1], session, askId)
    case End => false
    case _ => LastWordIsAdded(changes[..|changes| - 1], session, askId)
  }

  /**
   * The page shows an ask exactly when, since it was last added, no door reported it gone and the watch did not
   * end.
   */
  lemma {:induction false} PageShowsIff(w: World, changes: seq<Change>, session: string, askId: nat)
    ensures At(ShownAll(w, changes), session, askId).Some? <==> LastWordIsAdded(changes, session, askId)
  {
    if changes != [] {
      var before := changes[..|changes| - 1];
      PageShowsIff(w, before, session, askId);
      AtAfterPush(w, ShownAll(w, before), changes[|changes| - 1], session, askId);
    }
  }

  // ----- Where page and record part -----

  /** A change that puts an ask of this one's key in the record, or takes this one out. */
  predicate Unseats(change: Change, h: Held) {
    (change.Added? && Keyed(change.held, h.session, h.askId)) || change == Removed(h.session, h.port, h.askId)
  }

  /** A change that takes an ask off the page and leaves it in the record: another door's removal, or the end. */
  predicate Hides(change: Change, h: Held) {
    || change.End?
    || (change.Removed? && change.session == h.session && change.askId == h.askId && change.port != h.port)
  }

  /** The ask was added at `k`, and nothing since has put another in its place or taken it out. */
  ghost predicate HeldFrom(changes: seq<Change>, k: nat, h: Held) {
    && k < |changes| && changes[k] == Added(h)
    && forall m: nat :: k < m < |changes| ==> !Unseats(changes[m], h)
  }

  ghost predicate HiddenFrom(changes: seq<Change>, k: nat, h: Held) {
    HeldFrom(changes, k, h) && !NotHidden(changes, k, h)
  }

  lemma HeldFromMore(changes: seq<Change>, change: Change, h: Held)
    ensures (exists k: nat :: HeldFrom(changes + [change], k, h)) <==>
            change == Added(h) || (!Unseats(change, h) && exists k: nat :: HeldFrom(changes, k, h))
  {
    var more := changes + [change];
    assert more[|changes|] == change && forall m: nat :: m < |changes| ==> more[m] == changes[m];
    if change == Added(h) {
      assert HeldFrom(more, |changes|, h);
    }
    if !Unseats(change, h) && exists k: nat :: HeldFrom(changes, k, h) {
      var k: nat :| HeldFrom(changes, k, h);
      assert HeldFrom(more, k, h);
    }
    if change != Added(h) && exists k: nat :: HeldFrom(more, k, h) {
      var k: nat :| HeldFrom(more, k, h);
      assert HeldFrom(changes, k, h);
    }
  }

  /**
   * The record holds an ask exactly when it was added and, since then, neither replaced nor removed by its own
   * door.
   */
  lemma {:induction false} RecordHoldsIff(changes: seq<Change>, h: Held)
    ensures Find(KeepAll(changes), h.session, h.askId) == Some(h) <==> exists k: nat :: HeldFrom(changes, k, h)
  {
    if changes != [] {
      var before, last := changes[..|changes| - 1], changes[|changes| - 1];
      assert changes == before + [last];
      RecordHoldsIff(before, h);
      KeepAllHasOnePerKey(before);
      FindAfterKeep(KeepAll(before), last, h.session, h.askId);
      HeldFromMore(before, last, h);
    }
  }

  /** While an ask is held from `k`, the page shows its key exactly if nothing since has hidden it. */
  lemma {:induction false} ShownWhileHeld(changes: seq<Change>, k: nat, h: Held)
    requires HeldFrom(changes, k, h)
    ensures LastWordIsAdded(changes, h.session, h.askId) <==> NotHidden(changes, k, h)
  {
    var before, last := changes[..|changes| - 1], changes[|changes| - 1];
    assert changes == before + [last];
    if k < |changes| - 1 {
      HeldBefore(before, last, k, h);
      ShownWhileHeld(before, k, h);
      NotHiddenMore(before, last, k, h);
      LastWordMore(before, last, h);
    } else {
      assert last == Added(h);
    }
  }

  /** Nothing since `k` has hidden it. */
  predicate NotHidden(changes: seq<Change>, k: nat, h: Held) {
    forall m: nat :: k < m < |changes| ==> !Hides(changes[m], h)
  }

  lemma HeldBefore(before: seq<Change>, last: Change, k: nat, h: Held)
    requires HeldFrom(before + [last], k, h) && k < |before|
    ensures HeldFrom(before, k, h) && !Unseats(last, h)
  {
    var changes := before + [last];
    assert changes[|before|] == last && forall m: nat :: m < |before| ==> changes[m] == before[m];
  }

  lemma NotHiddenMore(before: seq<Change>, last: Change, k: nat, h: Held)
    requires k < |before|
    ensures NotHidden(before + [last], k, h) <==> NotHidden(before, k, h) && !Hides(last, h)
  {
    var changes := before + [last];
    assert changes[|before|] == last && forall m: nat :: m < |before| ==> changes[m] == before[m];
  }

  lemma LastWordMore(before: seq<Change>, last: Change, h: Held)
    requires !Unseats(last, h)
    ensures LastWordIsAdded(before + [last], h.session, h.askId) <==>
            LastWordIsAdded(before, h.session, h.askId) && !Hides(last, h)
  {
    assert (before + [last])[..|before|] == before;
  }

  /**
   * The record holds an ask the page does not show exactly when, since it was added and while it was neither
   * replaced nor removed by its own door, another door reported it removed or the watch ended.
   */
  lemma RecordHidesIff(w: World, changes: seq<Change>, session: string, askId: nat)
    ensures Find(KeepAll(changes), session, askId).Some? && At(ShownAll(w, changes), session, askId) == None
            <==> exists h, k: nat :: Keyed(h, session, askId) && HiddenFrom(changes, k, h)
  {
    PageShowsIff(w, changes, session, askId);
    forall h, k: nat | Keyed(h, session, askId) && HeldFrom(changes, k, h)
      ensures Find(KeepAll(changes), session, askId).Some?
      ensures HiddenFrom(changes, k, h) <==> !LastWordIsAdded(changes, session, askId)
    {
      RecordHoldsIff(changes, h);
      ShownWhileHeld(changes, k, h);
    }
    if Find(KeepAll(changes), session, askId).Some? {
      var h := Find(KeepAll(changes), session, askId).value;
      RecordHoldsIff(changes, h);
      var k: nat :| HeldFrom(changes, k, h);
      assert HiddenFrom(changes, k, h) <==> !LastWordIsAdded(changes, session, askId);
    }
  }

  /** A door whose ask it is not takes an ask off the page and leaves it in the record, where it can be answered. */
  lemma OtherDoorHidesAnAsk(w: World, h: Held, port: nat)
    requires port != h.port
    ensures var changes := [Added(h), Removed(h.session, port, h.askId)];
            && At(ShownAll(w, changes), h.session, h.askId) == None
            && Find(KeepAll(changes), h.session, h.askId) == Some(h)
  {
    var one, two: seq<Change> := [Added(h)], [Added(h), Removed(h.session, port, h.askId)];
    assert two[..1] == one && one[..0] == [];
    KeepAllHasOnePerKey(one);
    PageShowsIff(w, two, h.session, h.askId);
    FindAfterKeep([], Added(h), h.session, h.askId);
    assert KeepAll(one) == Keep([], Added(h));
    FindAfterKeep(KeepAll(one), two[1], h.session, h.askId);
  }
}
