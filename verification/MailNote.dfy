// One thread as one Markdown note (pkgs/aoide/crates/client/src/mail_export.rs, `note`),
// and what a reader of the note gets back from it.
module MailNote {
  import opened Common
  import opened Mail
  import opened MailYaml
  import opened MailFence
  import opened MailThreads

  // ----- The parts of a note -----

  /** A text put on one line: carriage returns, newlines and escapes out. */
  function SingleLine(s: string): string {
    if s == "" then ""
    else (if s[0] in "\r\n\U{1B}" then "" else [s[0]]) + SingleLine(s[1..])
  }

  function AddressText(a: Address): string {
    SingleLine(a.node) + "/" + SingleLine(a.name)
  }

  datatype Recipients = Recipients(to: seq<string>, cc: seq<string>)

  /** A structured letter names its own recipients; any other, the one its envelope does. */
  function RecipientsOf(decode: Decoder, entry: Entry): Recipients {
    var content := decode(entry.envelope.text);
    if content.Some? then Recipients(Map(AddressText, content.value.to), Map(AddressText, content.value.cc))
    else Recipients([AddressText(entry.envelope.header.to)], [])
  }

  function SubjectOf(decode: Decoder, thread: Thread): string {
    var content := if thread.letters == [] then None else decode(thread.letters[0].envelope.text);
    if content.None? || content.value.subject == "" then "(no subject)" else content.value.subject
  }

  function Everyone(decode: Decoder, entry: Entry): seq<string> {
    var r := RecipientsOf(decode, entry);
    [AddressText(entry.envelope.header.from)] + r.to + r.cc
  }

  /** Everyone a thread's letters are from or to, once each and in order. */
  function Participants(decode: Decoder, letters: seq<Entry>): seq<string> {
    if letters == [] then []
    else InsertAll(Participants(decode, letters[..|letters| - 1]), Everyone(decode, letters[|letters| - 1]))
  }

  /** The least of some texts. */
  function Earliest(times: seq<string>): string
    requires times != []
  {
    if |times| == 1 then times[0]
    else
      var rest := Earliest(times[1..]);
      if Less(rest, times[0]) then rest else times[0]
  }

  function Decimal(n: nat): string {
    if n < 10 then [('0' as int + n) as char] else Decimal(n / 10) + [('0' as int + n % 10) as char]
  }

  /** A structured letter's own body; any other letter's text as it is. */
  function BodyOf(decode: Decoder, block: seq<Entry>): string
    requires block != []
  {
    var content := decode(block[0].envelope.text);
    if content.Some? then content.value.body else block[0].envelope.text
  }

  function Received(block: seq<Entry>): seq<string> {
    Map((e: Entry) => e.receivedAt, block)
  }

  // ----- The note's text -----

  /** What a note's frontmatter says. */
  datatype Front = Front(thread: string, subject: string, node: string, participants: seq<string>, first: string,
      last: string, blocks: nat)

  function FrontOf(decode: Decoder, thread: Thread, node: string): Front {
    var letters := thread.letters;
    Front(thread.key, SubjectOf(decode, thread), node, Participants(decode, letters),
          if letters == [] then "" else letters[0].receivedAt,
          if letters == [] then "" else letters[|letters| - 1].receivedAt,
          |BlocksOf(letters)|)
  }

  function FieldLine(name: string, value: string): string {
    name + ": " + value
  }

  function FieldNames(): seq<string> {
    ["type", "thread", "subject", "node", "participants", "first", "last", "letters"]
  }

  function FieldValues(f: Front): seq<string> {
    ["mail-thread", Quoted(f.thread), Quoted(f.subject), Quoted(f.node), QuotedList(f.participants),
     Quoted(f.first), Quoted(f.last), Decimal(f.blocks)]
  }

  function FieldLines(names: seq<string>, values: seq<string>): seq<string>
    requires |names| == |values|
  {
    if names == [] then [] else [FieldLine(names[0], values[0])] + FieldLines(names[1..], values[1..])
  }

  /** The frontmatter and the title. */
  function FrontText(f: Front): string {
    "---" + "\n" + (Text(FieldLines(FieldNames(), FieldValues(f))) + ("---" + "\n" + TitleText(f.subject)))
  }

  function TitleText(subject: string): string {
    "\n" + ("# " + SingleLine(subject)) + "\n"
  }

  function HeadingLine(at: string, from: string, to: seq<string>): string {
    "## " + at + " \U{B7} " + from + " \U{2192} " + Join(to, ", ")
  }

  function CcLine(cc: seq<string>): string { "cc: " + Join(cc, ", ") }

  function HeadingLines(at: string, from: string, r: Recipients): seq<string> {
    if r.cc == [] then ["", HeadingLine(at, from, r.to), ""]
    else ["", HeadingLine(at, from, r.to), CcLine(r.cc), ""]
  }

  function BlockLines(decode: Decoder, block: seq<Entry>): seq<string>
    requires block != []
  {
    HeadingLines(SingleLine(Earliest(Received(block))), AddressText(block[0].envelope.header.from),
      RecipientsOf(decode, block[0]))
  }

  function FencedText(body: string): string {
    FenceFor(body) + "\n" + body + "\n" + FenceFor(body) + "\n"
  }

  function BlockText(decode: Decoder, block: seq<Entry>): string
    requires block != []
  {
    Text(BlockLines(decode, block)) + FencedText(BodyOf(decode, block))
  }

  predicate NoneEmpty(blocks: seq<seq<Entry>>) { forall i :: 0 <= i < |blocks| ==> blocks[i] != [] }

  function BlocksText(decode: Decoder, blocks: seq<seq<Entry>>): string
    requires NoneEmpty(blocks)
  {
    if blocks == [] then ""
    else BlocksText(decode, blocks[..|blocks| - 1]) + BlockText(decode, blocks[|blocks| - 1])
  }

  function NoteText(decode: Decoder, thread: Thread, node: string): string {
    BlocksAreGreedy(thread.letters);
    FrontText(FrontOf(decode, thread, node)) + BlocksText(decode, BlocksOf(thread.letters))
  }

  // ----- Writing it -----

  method QuoteAll(values: seq<string>) returns (quoted: seq<string>)
    ensures quoted == Map(Quoted, values)
  {
    quoted := [];
    for i := 0 to |values|
      invariant |quoted| == i && forall k :: 0 <= k < i ==> quoted[k] == Quoted(values[k])
    {
      var q := YamlQuote(values[i]);
      quoted := quoted + [q];
    }
  }

  method Gather(decode: Decoder, letters: seq<Entry>) returns (participants: seq<string>)
    ensures participants == Participants(decode, letters)
  {
    participants := [];
    for i := 0 to |letters|
      invariant participants == Participants(decode, letters[..i])
    {
      assert letters[..i + 1][..i] == letters[..i];
      participants := InsertAll(participants, Everyone(decode, letters[i]));
    }
    assert letters[..|letters|] == letters;
  }

  method WriteValues(f: Front) returns (values: seq<string>)
    ensures values == FieldValues(f)
  {
    var thread := YamlQuote(f.thread);
    var subject := YamlQuote(f.subject);
    var node := YamlQuote(f.node);
    var people := QuoteAll(f.participants);
    var first := YamlQuote(f.first);
    var last := YamlQuote(f.last);
    values := ["mail-thread", thread, subject, node, "[" + Join(people, ", ") + "]", first, last, Decimal(f.blocks)];
  }

  lemma FieldFirst(names: seq<string>, values: seq<string>, i: nat, before: string)
    requires |names| == |values| && i < |names|
    ensures before + Text(FieldLines(names[i..], values[i..])) ==
            before + (FieldLine(names[i], values[i]) + "\n") + Text(FieldLines(names[i + 1..], values[i + 1..]))
  {
    assert names[i..][1..] == names[i + 1..] && values[i..][1..] == values[i + 1..];
    TextOfMore(FieldLine(names[i], values[i]), FieldLines(names[i + 1..], values[i + 1..]));
  }

  method WriteFront(f: Front) returns (out: string)
    ensures out == FrontText(f)
  {
    var names := FieldNames();
    var values := WriteValues(f);
    ghost var fields := Text(FieldLines(names, values));
    var lines := "";
    for i := 0 to |names|
      invariant lines + Text(FieldLines(names[i..], values[i..])) == fields
    {
      FieldFirst(names, values, i, lines);
      lines := lines + (FieldLine(names[i], values[i]) + "\n");
    }
    assert FieldLines(names[|names|..], values[|names|..]) == [];
    assert lines == fields;
    out := "---" + "\n" + (lines + ("---" + "\n" + TitleText(f.subject)));
  }

  lemma TextOfMore(line: string, rest: seq<string>)
    ensures Text([line] + rest) == (line + "\n") + Text(rest)
  {
    assert ([line] + rest)[1..] == rest;
  }

  /** The heading of one block, up to its fence. */
  method WriteHeading(at: string, from: string, r: Recipients) returns (out: string)
    ensures out == Text(HeadingLines(at, from, r))
  {
    var line := HeadingLine(at, from, r.to);
    TextOfMore("", []);
    assert [""] + [] == [""];
    out := "" + "\n";
    if r.cc != [] {
      TextOfMore(CcLine(r.cc), [""]);
      assert [CcLine(r.cc)] + [""] == [CcLine(r.cc), ""];
      out := (CcLine(r.cc) + "\n") + out;
    }
    ghost var below := if r.cc == [] then [""] else [CcLine(r.cc), ""];
    assert HeadingLines(at, from, r) == [""] + ([line] + below);
    TextOfMore(line, below);
    TextOfMore("", [line] + below);
    out := ("" + "\n") + ((line + "\n") + out);
  }

  method WriteBlock(decode: Decoder, block: seq<Entry>) returns (out: string)
    requires block != []
    ensures out == BlockText(decode, block)
  {
    var r := RecipientsOf(decode, block[0]);
    var heading := WriteHeading(SingleLine(Earliest(Received(block))), AddressText(block[0].envelope.header.from), r);
    var body := BodyOf(decode, block);
    var fence := Fence(body);
    out := heading + (fence + "\n" + body + "\n" + fence + "\n");
  }

  /** `note`. */
  method Note(decode: Decoder, thread: Thread, node: string) returns (out: string)
    ensures out == NoteText(decode, thread, node)
  {
    BlocksAreGreedy(thread.letters);
    var letters := thread.letters;
    var blocks := Blocks(letters);
    var participants := Gather(decode, letters);
    var front := Front(thread.key, SubjectOf(decode, thread), node, participants,
                       if letters == [] then "" else letters[0].receivedAt,
                       if letters == [] then "" else letters[|letters| - 1].receivedAt, |blocks|);
    var top := WriteFront(front);
    var rest := WriteBlocks(decode, blocks);
    out := top + rest;
  }

  method WriteBlocks(decode: Decoder, blocks: seq<seq<Entry>>) returns (out: string)
    requires NoneEmpty(blocks)
    ensures out == BlocksText(decode, blocks)
  {
    out := "";
    for i := 0 to |blocks|
      invariant out == BlocksText(decode, blocks[..i])
    {
      var block := WriteBlock(decode, blocks[i]);
      assert blocks[..i + 1][..i] == blocks[..i];
      out := out + block;
    }
    assert blocks[..|blocks|] == blocks;
  }

  // ----- Reading it back: the bodies -----

  lemma {:induction false} SingleLineIsOneLine(s: string)
    ensures OneLine(SingleLine(s)) && '\U{1B}' !in SingleLine(s)
  {
    if s != "" {
      SingleLineIsOneLine(s[1..]);
    }
  }

  lemma AddressIsOneLine(a: Address)
    ensures OneLine(AddressText(a))
  {
    SingleLineIsOneLine(a.node);
    SingleLineIsOneLine(a.name);
  }

  lemma {:induction false} JoinIsOneLine(parts: seq<string>, between: string)
    requires OneLine(between) && forall i :: 0 <= i < |parts| ==> OneLine(parts[i])
    ensures OneLine(Join(parts, between))
  {
    if |parts| > 1 {
      JoinIsOneLine(parts[1..], between);
    }
  }

  lemma RecipientsAreOneLine(decode: Decoder, entry: Entry)
    ensures OneLine(Join(RecipientsOf(decode, entry).to, ", ")) && OneLine(Join(RecipientsOf(decode, entry).cc, ", "))
  {
    var r := RecipientsOf(decode, entry);
    forall i | 0 <= i < |r.to| ensures OneLine(r.to[i]) {
      var content := decode(entry.envelope.text);
      AddressIsOneLine(if content.Some? then content.value.to[i] else entry.envelope.header.to);
    }
    forall i | 0 <= i < |r.cc| ensures OneLine(r.cc[i]) {
      AddressIsOneLine(decode(entry.envelope.text).value.cc[i]);
    }
    JoinIsOneLine(r.to, ", ");
    JoinIsOneLine(r.cc, ", ");
  }

  predicate PlainLines(lines: seq<string>) { forall i :: 0 <= i < |lines| ==> PlainLine(lines[i]) }

  lemma OneLineBoth(a: string, b: string)
    requires OneLine(a) && OneLine(b)
    ensures OneLine(a + b)
  {
  }

  lemma HeadingLinesArePlain(at: string, from: string, r: Recipients)
    requires OneLine(at) && OneLine(from) && OneLine(Join(r.to, ", ")) && OneLine(Join(r.cc, ", "))
    ensures PlainLines(HeadingLines(at, from, r))
  {
    OneLineBoth("## ", at);
    OneLineBoth("## " + at, " \U{B7} ");
    OneLineBoth("## " + at + " \U{B7} ", from);
    OneLineBoth("## " + at + " \U{B7} " + from, " \U{2192} ");
    OneLineBoth("## " + at + " \U{B7} " + from + " \U{2192} ", Join(r.to, ", "));
    OneLineBoth("cc: ", Join(r.cc, ", "));
    assert HeadingLine(at, from, r.to)[0] == '#' && CcLine(r.cc)[0] == 'c';
  }

  /** No address or time of a letter can start a line of its heading. */
  lemma HeadingIsPlain(decode: Decoder, block: seq<Entry>)
    requires block != []
    ensures PlainLines(BlockLines(decode, block))
  {
    RecipientsAreOneLine(decode, block[0]);
    AddressIsOneLine(block[0].envelope.header.from);
    SingleLineIsOneLine(Earliest(Received(block)));
    HeadingLinesArePlain(SingleLine(Earliest(Received(block))), AddressText(block[0].envelope.header.from),
      RecipientsOf(decode, block[0]));
  }

  lemma {:induction false} DecimalIsDigits(n: nat)
    ensures Decimal(n) != "" && forall i :: 0 <= i < |Decimal(n)| ==> '0' <= Decimal(n)[i] <= '9'
  {
    if n >= 10 {
      DecimalIsDigits(n / 10);
    }
  }

  lemma QuotedIsOneLine(s: string)
    ensures OneLine(Quoted(s))
  {
    QuoteIsOneLine(s);
  }

  lemma ListIsOneLine(values: seq<string>)
    ensures OneLine(QuotedList(values))
  {
    var quoted := Map(Quoted, values);
    forall i | 0 <= i < |quoted| ensures OneLine(quoted[i]) {
      QuotedIsOneLine(values[i]);
    }
    JoinIsOneLine(quoted, ", ");
  }

  predicate OneLines(lines: seq<string>) { forall i :: 0 <= i < |lines| ==> OneLine(lines[i]) }

  /** Every field's value is on one line, whatever the thread's text is. */
  lemma ValuesAreOneLine(f: Front)
    ensures OneLines(FieldValues(f))
  {
    QuotedIsOneLine(f.thread);
    QuotedIsOneLine(f.subject);
    QuotedIsOneLine(f.node);
    ListIsOneLine(f.participants);
    QuotedIsOneLine(f.first);
    QuotedIsOneLine(f.last);
    DecimalIsDigits(f.blocks);
  }

  /** A name that is neither cut nor taken for the frontmatter's end or a fence. */
  predicate FieldName(name: string) {
    && name != "" && 'a' <= name[0] <= 'z'
    && forall i :: 0 <= i < |name| ==> !Break(name[i]) && name[i] != ':'
  }

  predicate AllFieldNames(names: seq<string>) { forall i :: 0 <= i < |names| ==> FieldName(names[i]) }

  lemma NamesAreFieldNames()
    ensures AllFieldNames(FieldNames())
  {
    assert FieldName("type");
    assert FieldName("thread");
    assert FieldName("subject");
    assert FieldName("node");
    assert FieldName("participants");
    assert FieldName("first");
    assert FieldName("last");
    assert FieldName("letters");
  }

  lemma {:induction false} FieldLinesArePlain(names: seq<string>, values: seq<string>)
    requires |names| == |values| && AllFieldNames(names) && OneLines(values)
    ensures PlainLines(FieldLines(names, values))
  {
    if names != [] {
      assert OneLine(names[0]) && FieldLine(names[0], values[0])[0] == names[0][0];
      OneLineBoth(names[0], ": ");
      OneLineBoth(names[0] + ": ", values[0]);
      FieldLinesArePlain(names[1..], values[1..]);
    }
  }

  lemma TitleHoldsNoBlock(subject: string, rest: string)
    ensures FencedBlocks(TitleText(subject) + rest) == FencedBlocks(rest)
  {
    var title := "# " + SingleLine(subject);
    SingleLineIsOneLine(subject);
    OneLineBoth("# ", SingleLine(subject));
    assert TitleText(subject) + rest == "" + "\n" + (title + "\n" + rest);
    PlainLineIsSkipped("", title + "\n" + rest);
    PlainLineIsSkipped(title, rest);
  }

  lemma FrontHoldsNoBlock(f: Front, rest: string)
    ensures FencedBlocks(FrontText(f) + rest) == FencedBlocks(rest)
  {
    var lines := FieldLines(FieldNames(), FieldValues(f));
    NamesAreFieldNames();
    ValuesAreOneLine(f);
    FieldLinesArePlain(FieldNames(), FieldValues(f));
    LinesBetweenDashes(lines, TitleText(f.subject), rest);
    TitleHoldsNoBlock(f.subject, rest);
  }

  lemma LinesBetweenDashes(lines: seq<string>, title: string, rest: string)
    requires PlainLines(lines)
    ensures FencedBlocks("---" + "\n" + (Text(lines) + ("---" + "\n" + title)) + rest) == FencedBlocks(title + rest)
  {
    var after := "---" + "\n" + (title + rest);
    assert "---" + "\n" + (Text(lines) + ("---" + "\n" + title)) + rest == "---" + "\n" + (Text(lines) + after);
    PlainLineIsSkipped("---", Text(lines) + after);
    PlainLinesHoldNoBlock(lines, after);
    PlainLineIsSkipped("---", title + rest);
  }

  lemma PlainLineIsSkipped(line: string, rest: string)
    requires PlainLine(line)
    ensures FencedBlocks(line + "\n" + rest) == FencedBlocks(rest)
  {
    TextOfMore(line, []);
    assert [line] + [] == [line] && Text([line]) == line + "\n";
    PlainLinesHoldNoBlock([line], rest);
  }

  /** The bodies of a thread's blocks, each with the newline put after it. */
  function Bodies(decode: Decoder, blocks: seq<seq<Entry>>): (bodies: seq<string>)
    requires NoneEmpty(blocks)
    ensures |bodies| == |blocks|
    ensures forall i :: 0 <= i < |blocks| ==> bodies[i] == BodyOf(decode, blocks[i]) + "\n"
  {
    if blocks == [] then [] else Bodies(decode, blocks[..|blocks| - 1]) + [BodyOf(decode, blocks[|blocks| - 1]) + "\n"]
  }

  lemma BlockIsRead(decode: Decoder, block: seq<Entry>, after: string)
    requires block != []
    ensures FencedBlocks(BlockText(decode, block) + after) == [BodyOf(decode, block) + "\n"] + FencedBlocks(after)
  {
    var body, lines := BodyOf(decode, block), BlockLines(decode, block);
    HeadingIsPlain(decode, block);
    PlainLinesHoldNoBlock(lines, FencedText(body) + after);
    assert Text(lines) + FencedText(body) + after == Text(lines) + (FencedText(body) + after);
    FencedTextIsOneBlock(body, after);
    assert FencedText(body) + after == FenceFor(body) + "\n" + body + "\n" + FenceFor(body) + "\n" + after;
  }

  lemma Regroup<T>(a: seq<T>, b: seq<T>, c: seq<T>)
    ensures a + b + c == a + (b + c)
  {
  }

  lemma {:induction false} BlocksAreRead(decode: Decoder, blocks: seq<seq<Entry>>, after: string)
    requires NoneEmpty(blocks)
    ensures FencedBlocks(BlocksText(decode, blocks) + after) == Bodies(decode, blocks) + FencedBlocks(after)
  {
    if blocks == [] {
      assert BlocksText(decode, blocks) + after == after;
    } else {
      var before, block := blocks[..|blocks| - 1], blocks[|blocks| - 1];
      var text := BlockText(decode, block);
      Regroup(BlocksText(decode, before), text, after);
      BlocksAreRead(decode, before, text + after);
      BlockIsRead(decode, block, after);
      Regroup(Bodies(decode, before), [BodyOf(decode, block) + "\n"], FencedBlocks(after));
    }
  }

  /** A letter's words, with the newline put after them: a structured letter's own body, any other's text as it is. */
  predicate IsSaid(decode: Decoder, e: Entry, said: string) {
    match decode(e.envelope.text)
    case Some(content) => said == content.body + "\n"
    case None => said == e.envelope.text + "\n"
  }

  /** One text for each block, and it is what every letter of the block says. */
  predicate SaysTheBlocks(decode: Decoder, blocks: seq<seq<Entry>>, said: seq<string>) {
    && |said| == |blocks|
    && forall k, e :: 0 <= k < |blocks| && e in blocks[k] ==> IsSaid(decode, e, said[k])
  }

  /**
   * A reader of fenced code finds exactly what the thread's blocks say, in order and unchanged, whatever text,
   * addresses, times and subject the letters carry: for each block, the words of every letter in it.
   */
  lemma NoteHoldsTheBodies(decode: Decoder, thread: Thread, node: string)
    ensures var blocks := BlocksOf(thread.letters);
            && Concat(blocks) == thread.letters && Greedy(blocks)
            && SaysTheBlocks(decode, blocks, FencedBlocks(NoteText(decode, thread, node)))
  {
    var blocks := BlocksOf(thread.letters);
    BlocksAreGreedy(thread.letters);
    FencedBlocksAreBodies(decode, thread, node);
    forall k, e | 0 <= k < |blocks| && e in blocks[k] ensures IsSaid(decode, e, Bodies(decode, blocks)[k]) {
      assert e.envelope.text == blocks[k][0].envelope.text;
    }
  }

  lemma FencedBlocksAreBodies(decode: Decoder, thread: Thread, node: string)
    requires NoneEmpty(BlocksOf(thread.letters))
    ensures FencedBlocks(NoteText(decode, thread, node)) == Bodies(decode, BlocksOf(thread.letters))
  {
    var blocks := BlocksOf(thread.letters);
    FrontHoldsNoBlock(FrontOf(decode, thread, node), BlocksText(decode, blocks));
    BlocksAreRead(decode, blocks, "");
    assert BlocksText(decode, blocks) + "" == BlocksText(decode, blocks);
  }

  // ----- What the headings say -----

  /** A line without its carriage returns, newlines and escapes, and otherwise as it is. */
  lemma SingleLineIs(s: string, rest: string)
    ensures SingleLine(s + rest) == SingleLine(s) + SingleLine(rest)
    ensures '\r' !in s && '\n' !in s && '\U{1B}' !in s ==> SingleLine(s) == s
    ensures SingleLine("\r") == SingleLine("\n") == SingleLine("\U{1B}") == ""
  {
    SingleLineJoins(s, rest);
    if '\r' !in s && '\n' !in s && '\U{1B}' !in s {
      SingleLineKeeps(s);
    }
  }

  lemma {:induction false} SingleLineJoins(s: string, rest: string)
    ensures SingleLine(s + rest) == SingleLine(s) + SingleLine(rest)
  {
    if s == "" {
      assert s + rest == rest;
    } else {
      SingleLineJoins(s[1..], rest);
      assert (s + rest)[0] == s[0] && (s + rest)[1..] == s[1..] + rest;
      var first := if s[0] in "\r\n\U{1B}" then "" else [s[0]];
      Regroup(first, SingleLine(s[1..]), SingleLine(rest));
    }
  }

  lemma {:induction false} SingleLineKeeps(s: string)
    requires '\r' !in s && '\n' !in s && '\U{1B}' !in s
    ensures SingleLine(s) == s
  {
    if s != "" {
      assert s == [s[0]] + s[1..];
      SingleLineKeeps(s[1..]);
    }
  }

  function Names(addresses: seq<Address>): string {
    Join(Map((a: Address) => SingleLine(a.node) + "/" + SingleLine(a.name), addresses), ", ")
  }

  /** What stands above a block's words: when it was received, from whom and to whom. */
  function Above(at: string, from: Address, to: seq<Address>, cc: seq<Address>): string {
    "\n" + ("## " + SingleLine(at) + " \U{B7} " + Names([from]) + " \U{2192} " + Names(to)) + "\n"
    + (if cc == [] then "" else "cc: " + Names(cc) + "\n") + "\n"
  }

  /**
   * A block's heading tells the least time its copies were received at, their sender, and the recipients the letter
   * itself names, or its envelope does if it is not structured.
   */
  lemma HeadingTells(decode: Decoder, block: seq<Entry>) returns (at: string)
    requires block != []
    ensures (exists e :: e in block && e.receivedAt == at) && forall e :: e in block ==> !Less(e.receivedAt, at)
    ensures var header := block[0].envelope.header;
            Text(BlockLines(decode, block)) ==
            match decode(block[0].envelope.text)
            case Some(content) => Above(at, header.from, content.to, content.cc)
            case None => Above(at, header.from, [header.to], [])
  {
    at := Earliest(Received(block));
    EarliestIsLeast(Received(block));
    forall e | e in block ensures !Less(e.receivedAt, at) {
      var i :| 0 <= i < |block| && block[i] == e;
      assert Received(block)[i] == e.receivedAt;
    }
    var k :| 0 <= k < |block| && Received(block)[k] == at;
    assert block[k] in block;
    var header, r := block[0].envelope.header, RecipientsOf(decode, block[0]);
    var content := decode(block[0].envelope.text);
    var (to, cc) := if content.Some? then (content.value.to, content.value.cc) else ([header.to], []);
    assert r.to == Map((a: Address) => SingleLine(a.node) + "/" + SingleLine(a.name), to);
    assert r.cc == Map((a: Address) => SingleLine(a.node) + "/" + SingleLine(a.name), cc);
    HeadingText(SingleLine(at), AddressText(header.from), r);
    assert Names([header.from]) == AddressText(header.from);
    assert r.cc == [] <==> cc == [];
  }

  lemma HeadingText(at: string, from: string, r: Recipients)
    ensures Text(HeadingLines(at, from, r)) ==
            "\n" + HeadingLine(at, from, r.to) + "\n" + (if r.cc == [] then "" else CcLine(r.cc) + "\n") + "\n"
  {
    var line := HeadingLine(at, from, r.to);
    var below := if r.cc == [] then [""] else [CcLine(r.cc)] + [""];
    assert HeadingLines(at, from, r) == [""] + ([line] + below);
    TextOfMore("", [line] + below);
    TextOfMore(line, below);
    TextOfMore(CcLine(r.cc), [""]);
    EmptyLine();
    LinesJoin(line, if r.cc == [] then "" else CcLine(r.cc) + "\n");
  }

  lemma EmptyLine()
    ensures Text([""]) == "\n"
  {
    TextOfMore("", []);
    assert [""] + [] == [""];
  }

  lemma LinesJoin(line: string, cc: string)
    ensures ("" + "\n") + ((line + "\n") + (cc + "\n")) == "\n" + line + "\n" + cc + "\n"
    ensures cc == "" ==> cc + "\n" == "\n"
  {
  }

  /** The title is the subject the frontmatter tells, on one line. */
  lemma TitleTells(f: Front) returns (fields: string)
    ensures FrontText(f) == "---\n" + fields + "---\n\n# " + SingleLine(f.subject) + "\n"
  {
    fields := Text(FieldLines(FieldNames(), FieldValues(f)));
  }

  // ----- Reading it back: the frontmatter -----

  /** The length of a field's name: everything before the first colon and space. */
  function NameLength(line: string): (n: nat)
    ensures n <= |line|
  {
    if |line| < 2 then |line|
    else if line[0] == ':' && line[1] == ' ' then 0
    else 1 + NameLength(line[1..])
  }

  lemma {:induction false} NameLengthIs(name: string, value: string)
    requires ':' !in name
    ensures NameLength(FieldLine(name, value)) == |name|
  {
    if name != "" {
      assert FieldLine(name, value)[1..] == FieldLine(name[1..], value);
      NameLengthIs(name[1..], value);
    }
  }

  datatype Fields = Fields(names: seq<string>, values: seq<string>)

  /** The fields up to the line that closes the frontmatter. */
  function ReadFields(doc: string): Option<Fields>
    decreases |doc|
  {
    var line := FirstLine(doc);
    var n := NameLength(line);
    if line == "---" then Some(Fields([], []))
    else if doc == "" || |line| < n + 2 then None
    else
      var more := ReadFields(doc[LineSpan(doc)..]);
      if more.None? then None else Some(Fields([line[..n]] + more.value.names, [line[n + 2..]] + more.value.values))
  }

  lemma FieldIsRead(name: string, value: string, rest: string)
    requires FieldName(name) && OneLine(value) && ReadFields(rest).Some?
    ensures ReadFields(FieldLine(name, value) + "\n" + rest) ==
            Some(Fields([name] + ReadFields(rest).value.names, [value] + ReadFields(rest).value.values))
  {
    var line := FieldLine(name, value);
    OneLineBoth(name, ": ");
    OneLineBoth(name + ": ", value);
    FirstLineIs(line, rest);
    NameLengthIs(name, value);
    assert line[..|name|] == name && line[|name| + 2..] == value;
    assert line[0] == name[0] != '-';
  }

  lemma {:induction false} FieldsAreRead(names: seq<string>, values: seq<string>, after: string)
    requires |names| == |values| && AllFieldNames(names) && OneLines(values)
    ensures ReadFields(Text(FieldLines(names, values)) + ("---" + "\n" + after)) == Some(Fields(names, values))
  {
    if names == [] {
      NoFieldIsRead(after);
    } else {
      var closing := "---" + "\n" + after;
      FieldThenRest(names, values, closing);
      FieldsAreRead(names[1..], values[1..], after);
      OneMoreField(names, values, Text(FieldLines(names[1..], values[1..])) + closing);
    }
  }

  lemma NoFieldIsRead(after: string)
    ensures ReadFields(Text(FieldLines([], [])) + ("---" + "\n" + after)) == Some(Fields([], []))
  {
    var closing := "---" + "\n" + after;
    assert Text(FieldLines([], [])) + closing == closing;
    FirstLineIs("---", after);
  }

  lemma OneMoreField(names: seq<string>, values: seq<string>, rest: string)
    requires |names| == |values| && names != [] && FieldName(names[0]) && OneLine(values[0])
    requires ReadFields(rest) == Some(Fields(names[1..], values[1..]))
    ensures ReadFields(FieldLine(names[0], values[0]) + "\n" + rest) == Some(Fields(names, values))
  {
    FieldIsRead(names[0], values[0], rest);
    assert [names[0]] + names[1..] == names && [values[0]] + values[1..] == values;
  }

  lemma FieldThenRest(names: seq<string>, values: seq<string>, closing: string)
    requires |names| == |values| && names != []
    ensures Text(FieldLines(names, values)) + closing ==
            FieldLine(names[0], values[0]) + "\n" + (Text(FieldLines(names[1..], values[1..])) + closing)
  {
    var line, rest := FieldLine(names[0], values[0]), FieldLines(names[1..], values[1..]);
    TextOfMore(line, rest);
    Regroup(line + "\n", Text(rest), closing);
  }

  function ReadDecimal(digits: string): nat
    requires forall i :: 0 <= i < |digits| ==> '0' <= digits[i] <= '9'
  {
    if digits == "" then 0
    else 10 * ReadDecimal(digits[..|digits| - 1]) + (digits[|digits| - 1] as int - '0' as int)
  }

  lemma {:induction false} DecimalReadsBack(n: nat)
    ensures forall i :: 0 <= i < |Decimal(n)| ==> '0' <= Decimal(n)[i] <= '9'
    ensures ReadDecimal(Decimal(n)) == n
  {
    DecimalIsDigits(n);
    if n >= 10 {
      DecimalReadsBack(n / 10);
      assert Decimal(n)[..|Decimal(n)| - 1] == Decimal(n / 10);
    } else {
      assert Decimal(n)[..0] == "";
    }
  }

  /** A whole value that is one quoted text. */
  function Whole(value: string): Option<string> {
    var scalar := ReadScalar(value);
    if scalar.Some? && scalar.value.rest == "" then Some(scalar.value.value) else None
  }

  function WholeList(value: string): Option<seq<string>> {
    var list := ReadList(value);
    if list.Some? && list.value.rest == "" then Some(list.value.values) else None
  }

  predicate Digits(value: string) {
    value != "" && forall i :: 0 <= i < |value| ==> '0' <= value[i] <= '9'
  }

  /** A frontmatter's values as a reader takes them. */
  function FrontFrom(values: seq<string>): Option<Front>
    requires |values| == 8
  {
    var thread, subject, node := Whole(values[1]), Whole(values[2]), Whole(values[3]);
    var participants, first, last := WholeList(values[4]), Whole(values[5]), Whole(values[6]);
    if values[0] != "mail-thread" || thread.None? || subject.None? || node.None? || participants.None?
       || first.None? || last.None? || !Digits(values[7]) then None
    else
      Some(Front(thread.value, subject.value, node.value, participants.value, first.value, last.value,
                 ReadDecimal(values[7])))
  }

  function ReadFront(doc: string): Option<Front> {
    if FirstLine(doc) != "---" then None
    else
      var fields := ReadFields(doc[LineSpan(doc)..]);
      if fields.None? || fields.value.names != NAMES || |fields.value.values| != 8 then None
      else FrontFrom(fields.value.values)
  }

  /** The fields a reader looks for, in order. */
  const NAMES: seq<string> := ["type", "thread", "subject", "node", "participants", "first", "last", "letters"]

  lemma WholeReadsBack(s: string)
    ensures Whole(Quoted(s)) == Some(s)
  {
    QuoteReadsBack(s, "");
    assert Quoted(s) + "" == Quoted(s);
  }

  lemma WholeListReadsBack(values: seq<string>)
    ensures WholeList(QuotedList(values)) == Some(values)
  {
    ListReadsBack(values, "");
    assert QuotedList(values) + "" == QuotedList(values);
  }

  lemma ValuesGiveTheFront(f: Front)
    ensures FrontFrom(FieldValues(f)) == Some(f)
  {
    WholeReadsBack(f.thread);
    WholeReadsBack(f.subject);
    WholeReadsBack(f.node);
    WholeListReadsBack(f.participants);
    WholeReadsBack(f.first);
    WholeReadsBack(f.last);
    DecimalIsDigits(f.blocks);
    DecimalReadsBack(f.blocks);
  }

  lemma FrontTextReadsBack(f: Front, rest: string)
    ensures ReadFront(FrontText(f) + rest) == Some(f)
  {
    var names, values := FieldNames(), FieldValues(f);
    var after := TitleText(f.subject) + rest;
    var fields := Text(FieldLines(names, values)) + ("---" + "\n" + after);
    assert FrontText(f) + rest == "---" + "\n" + fields;
    NamesAreFieldNames();
    ValuesAreOneLine(f);
    FieldsAreRead(names, values, after);
    FirstLineIs("---", fields);
    ValuesGiveTheFront(f);
  }

  /** A letter is from or to someone. */
  predicate IsParty(decode: Decoder, e: Entry, who: string) {
    || who == Names([e.envelope.header.from])
    || match decode(e.envelope.text)
       case Some(content) => exists a :: a in content.to + content.cc && who == Names([a])
       case None => who == Names([e.envelope.header.to])
  }

  /** What a thread's frontmatter tells. */
  ghost predicate FrontTells(decode: Decoder, thread: Thread, node: string, front: Front) {
    var letters := thread.letters;
    && front.thread == thread.key && front.node == node
    && (letters == [] ==> front.subject == "(no subject)" && front.first == front.last == "")
    && (letters != [] ==>
          && front.first == letters[0].receivedAt && front.last == letters[|letters| - 1].receivedAt
          && match decode(letters[0].envelope.text)
             case Some(content) => front.subject == if content.subject == "" then "(no subject)" else content.subject
             case None => front.subject == "(no subject)")
    && Ascending(front.participants)
    && (forall who :: who in front.participants <==> exists e :: e in letters && IsParty(decode, e, who))
  }

  /**
   * The frontmatter gives back the thread's key, the first letter's subject, the node, everyone the letters are from
   * or to, the first and last letters' times, and how many fenced blocks follow.
   */
  lemma FrontReadsBack(decode: Decoder, thread: Thread, node: string)
    ensures var note := NoteText(decode, thread, node);
            && ReadFront(note).Some? && FrontTells(decode, thread, node, ReadFront(note).value)
            && ReadFront(note).value.blocks == |FencedBlocks(note)|
  {
    var front, note := FrontOf(decode, thread, node), NoteText(decode, thread, node);
    assert ReadFront(note) == Some(front) by {
      BlocksAreGreedy(thread.letters);
      FrontTextReadsBack(front, BlocksText(decode, BlocksOf(thread.letters)));
    }
    assert front.blocks == |FencedBlocks(note)| by {
      NoteHoldsTheBodies(decode, thread, node);
    }
    FrontOfTells(decode, thread, node);
  }

  lemma FrontOfTells(decode: Decoder, thread: Thread, node: string)
    ensures FrontTells(decode, thread, node, FrontOf(decode, thread, node))
  {
    ParticipantsAreEveryone(decode, thread.letters);
    forall who
      ensures who in Participants(decode, thread.letters) <==>
              exists e :: e in thread.letters && IsParty(decode, e, who)
    {
      PartiesAreTaken(decode, thread.letters, who);
    }
  }

  lemma PartiesAreTaken(decode: Decoder, letters: seq<Entry>, who: string)
    ensures Takes(decode, letters, who) <==> exists e :: e in letters && IsParty(decode, e, who)
  {
    forall e ensures IsParty(decode, e, who) <==> who in Everyone(decode, e) {
      PartyIsOne(decode, e, who);
    }
    if e :| e in letters && IsParty(decode, e, who) {
      var i :| 0 <= i < |letters| && letters[i] == e;
      assert who in Everyone(decode, letters[i]);
    }
    if i :| 0 <= i < |letters| && who in Everyone(decode, letters[i]) {
      assert letters[i] in letters;
    }
  }

  lemma NameOfOne(a: Address)
    ensures Names([a]) == AddressText(a)
  {
  }

  lemma PartyIsOne(decode: Decoder, e: Entry, who: string)
    ensures IsParty(decode, e, who) <==> who in Everyone(decode, e)
  {
    var r, content := RecipientsOf(decode, e), decode(e.envelope.text);
    NameOfOne(e.envelope.header.from);
    NameOfOne(e.envelope.header.to);
    if content.Some? {
      MapHolds(content.value.to, who);
      MapHolds(content.value.cc, who);
    }
  }

  lemma MapHolds(addresses: seq<Address>, who: string)
    ensures who in Map(AddressText, addresses) <==> exists a :: a in addresses && who == Names([a])
  {
    if i :| 0 <= i < |addresses| && Map(AddressText, addresses)[i] == who {
      NameOfOne(addresses[i]);
    }
    if a :| a in addresses && who == Names([a]) {
      NameOfOne(a);
      var i :| 0 <= i < |addresses| && addresses[i] == a;
      assert Map(AddressText, addresses)[i] == who;
    }
  }

  /** Someone a letter of a thread is from or to. */
  predicate Takes(decode: Decoder, letters: seq<Entry>, who: string) {
    exists i :: 0 <= i < |letters| && who in Everyone(decode, letters[i])
  }

  lemma TakesMore(decode: Decoder, letters: seq<Entry>, last: Entry, who: string)
    ensures Takes(decode, letters + [last], who) <==> Takes(decode, letters, who) || who in Everyone(decode, last)
  {
    var more := letters + [last];
    assert more[|letters|] == last;
    if Takes(decode, letters, who) {
      var i :| 0 <= i < |letters| && who in Everyone(decode, letters[i]);
      assert more[i] == letters[i];
    }
  }

  /** The participants are exactly the senders and recipients of the thread's letters, once each and in order. */
  lemma {:induction false} ParticipantsAreEveryone(decode: Decoder, letters: seq<Entry>)
    ensures Ascending(Participants(decode, letters))
    ensures forall who :: who in Participants(decode, letters) <==> Takes(decode, letters, who)
  {
    if letters != [] {
      var before, last := letters[..|letters| - 1], letters[|letters| - 1];
      ParticipantsAreEveryone(decode, before);
      InsertAllKeepsOrder(Participants(decode, before), Everyone(decode, last));
      forall who ensures who in Participants(decode, letters) <==> Takes(decode, letters, who) {
        TakesMore(decode, before, last, who);
        assert letters == before + [last];
      }
    }
  }

  /** A block's heading shows the least time its copies were received at. */
  lemma {:induction false} EarliestIsLeast(times: seq<string>)
    requires times != []
    ensures Earliest(times) in times && forall i :: 0 <= i < |times| ==> !Less(times[i], Earliest(times))
  {
    LessIsTotal(times[0], times[0]);
    if |times| > 1 {
      var rest := Earliest(times[1..]);
      EarliestIsLeast(times[1..]);
      LessIsTotal(rest, times[0]);
      forall i | 0 < i < |times| ensures !Less(times[i], Earliest(times)) {
        assert times[1..][i - 1] == times[i];
        if Less(times[i], times[0]) && Less(times[0], rest) {
          LessIsTransitive(times[i], times[0], rest);
        }
      }
    }
  }
}
