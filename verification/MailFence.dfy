// The fence around a letter's text (pkgs/aoide/crates/client/src/mail_export.rs, `fence`)
// and a scanner for fenced code blocks after section 4.5 of CommonMark 0.31.2.
module MailFence {
  import opened Mail

  predicate AllTicks(s: string) { forall i :: 0 <= i < |s| ==> s[i] == '`' }

  function Ticks(n: nat): (s: string)
    ensures |s| == n && AllTicks(s)
  {
    seq(n, _ => '`')
  }

  // ----- The longest run of backticks -----

  /** `n` is the length of the longest run of backticks in `s`. */
  ghost predicate IsLongestRun(s: string, n: nat) {
    && (exists i, j :: 0 <= i <= j <= |s| && j - i == n && AllTicks(s[i..j]))
    && forall i, j :: 0 <= i <= j <= |s| && AllTicks(s[i..j]) ==> j - i <= n
  }

  function LeadingTicks(s: string): (n: nat)
    ensures n <= |s| && AllTicks(s[..n]) && (n < |s| ==> s[n] != '`')
  {
    if s == "" || s[0] != '`' then 0 else 1 + LeadingTicks(s[1..])
  }

  function LongestRun(s: string): nat {
    if s == "" then 0
    else
      var here, later := LeadingTicks(s), LongestRun(s[1..]);
      if here > later then here else later
  }

  lemma {:induction false} LeadingIsLongest(s: string, n: nat)
    requires n <= |s| && AllTicks(s[..n])
    ensures n <= LeadingTicks(s)
  {
    if n > 0 {
      assert s[..n][0] == s[0] && s[1..][..n - 1] == s[..n][1..];
      LeadingIsLongest(s[1..], n - 1);
    }
  }

  lemma {:induction false} LongestRunIs(s: string)
    ensures IsLongestRun(s, LongestRun(s))
  {
    if s == "" {
      assert AllTicks(s[0..0]);
    } else {
      var here, later := LeadingTicks(s), LongestRun(s[1..]);
      LongestRunIs(s[1..]);
      if here > later {
        assert AllTicks(s[0..here]);
      } else {
        var i, j :| 0 <= i <= j <= |s[1..]| && j - i == later && AllTicks(s[1..][i..j]);
        assert s[1..][i..j] == s[i + 1..j + 1];
      }
      forall i, j | 0 <= i <= j <= |s| && AllTicks(s[i..j])
        ensures j - i <= LongestRun(s)
      {
        if i > 0 {
          assert s[1..][i - 1..j - 1] == s[i..j];
        } else {
          assert s[i..j] == s[..j];
          LeadingIsLongest(s, j);
        }
      }
    }
  }

  lemma RunIsUnique(s: string, n: nat)
    requires IsLongestRun(s, n)
    ensures n == LongestRun(s)
  {
    LongestRunIs(s);
  }

  function FenceFor(body: string): string {
    Ticks(if LongestRun(body) < 2 then 3 else LongestRun(body) + 1)
  }

  /** The run that ends before `i`, and the longest one before it. */
  ghost predicate RunsSoFar(body: string, i: nat, run: nat, longest: nat) {
    && run <= i <= |body| && AllTicks(body[i - run..i]) && (run < i ==> body[i - run - 1] != '`')
    && IsLongestRun(body[..i], longest)
  }

  /** `fence`. */
  method Fence(body: string) returns (r: string)
    ensures r == FenceFor(body)
  {
    var longest, run := 0, 0;
    NoRunsYet(body);
    for i := 0 to |body|
      invariant RunsSoFar(body, i, run, longest)
    {
      RunGrows(body, i, run, longest);
      run := if body[i] == '`' then run + 1 else 0;
      longest := if run > longest then run else longest;
    }
    assert body[..|body|] == body;
    RunIsUnique(body, longest);
    r := Ticks((if longest < 2 then 2 else longest) + 1);
  }

  lemma NoRunsYet(body: string)
    ensures RunsSoFar(body, 0, 0, 0)
  {
    assert AllTicks(body[..0][0..0]);
  }

  lemma RunGrows(body: string, i: nat, run: nat, longest: nat)
    requires i < |body| && RunsSoFar(body, i, run, longest)
    ensures var now := if body[i] == '`' then run + 1 else 0;
            RunsSoFar(body, i + 1, now, if now > longest then now else longest)
  {
    var now := if body[i] == '`' then run + 1 else 0;
    assert now > 0 ==> body[i + 1 - now..i + 1] == body[i - run..i] + [body[i]];
    RunsAreBounded(body, body[..i + 1], i, run, longest);
    LongestIsThere(body, body[..i + 1], i, now, longest);
  }

  lemma RunsAreBounded(body: string, after: string, i: nat, run: nat, longest: nat)
    requires i < |body| && RunsSoFar(body, i, run, longest) && after == body[..i + 1]
    ensures var now := if body[i] == '`' then run + 1 else 0;
            forall a, b :: 0 <= a <= b <= |after| && AllTicks(after[a..b]) ==>
                b - a <= if now > longest then now else longest
  {
    forall a, b | 0 <= a <= b <= |after| && AllTicks(after[a..b])
      ensures b - a <= if body[i] == '`' && run + 1 > longest then run + 1 else longest
    {
      if b <= i {
        assert body[..i][a..b] == after[a..b];
      } else {
        RunEndsHere(body, i, run, a);
      }
    }
  }

  lemma LongestIsThere(body: string, after: string, i: nat, now: nat, longest: nat)
    requires i < |body| && IsLongestRun(body[..i], longest) && after == body[..i + 1]
    requires now <= i + 1 && AllTicks(body[i + 1 - now..i + 1])
    ensures var most := if now > longest then now else longest;
            exists a, b :: 0 <= a <= b <= |after| && b - a == most && AllTicks(after[a..b])
  {
    if now > longest {
      assert after[i + 1 - now..i + 1] == body[i + 1 - now..i + 1];
    } else {
      var a, b :| 0 <= a <= b <= i && b - a == longest && AllTicks(body[..i][a..b]);
      assert after[a..b] == body[..i][a..b];
    }
  }

  lemma RunEndsHere(body: string, i: nat, run: nat, a: nat)
    requires a <= i + 1 && i < |body| && run <= i
    requires run < i ==> body[i - run - 1] != '`'
    requires AllTicks(body[..i + 1][a..i + 1])
    ensures i + 1 - a <= if body[i] == '`' then run + 1 else 0
  {
    var ticks := body[..i + 1][a..i + 1];
    assert forall k :: a <= k < i + 1 ==> ticks[k - a] == body[k];
  }

  // ----- Lines, after section 2.1 -----

  predicate Break(c: char) { c == '\n' || c == '\r' }

  predicate OneLine(s: string) { forall i :: 0 <= i < |s| ==> !Break(s[i]) }

  /** The length of a document's first line, without its ending. */
  function LineLength(doc: string): (n: nat)
    ensures n <= |doc| && OneLine(doc[..n]) && (n < |doc| ==> Break(doc[n]))
  {
    if doc == "" || Break(doc[0]) then 0 else 1 + LineLength(doc[1..])
  }

  function FirstLine(doc: string): string { doc[..LineLength(doc)] }

  /** The length of a document's first line with its ending: a newline, a carriage return, or the two in this order. */
  function LineSpan(doc: string): (n: nat)
    ensures n <= |doc| && (doc != "" ==> n > 0)
  {
    var n := LineLength(doc);
    if n == |doc| then n
    else if doc[n] == '\r' && n + 1 < |doc| && doc[n + 1] == '\n' then n + 2
    else n + 1
  }

  lemma {:induction false} LineLengthIs(line: string, doc: string)
    requires OneLine(line) && (doc == "" || Break(doc[0]))
    ensures LineLength(line + doc) == |line|
  {
    if line != "" {
      assert (line + doc)[1..] == line[1..] + doc;
      LineLengthIs(line[1..], doc);
    } else {
      assert line + doc == doc;
    }
  }

  // ----- Fenced code blocks -----

  datatype Opened = Opened(mark: char, length: nat, indent: nat)

  datatype Opening = NoFence | Fenced(fence: Opened)

  function Spaces(s: string): (n: nat)
    ensures n <= |s|
  {
    if s == "" || s[0] != ' ' then 0 else 1 + Spaces(s[1..])
  }

  function Marks(s: string, mark: char): (n: nat)
    ensures n <= |s| && forall i :: 0 <= i < n ==> s[i] == mark
  {
    if s == "" || s[0] != mark then 0 else 1 + Marks(s[1..], mark)
  }

  predicate Blank(s: string) { forall i :: 0 <= i < |s| ==> s[i] == ' ' || s[i] == '\t' }

  /** Whether a line opens a block: at most three spaces, then at least three marks; after backticks, no further one. */
  function Opens(line: string): Opening {
    var indent := Spaces(line);
    var text := line[indent..];
    if indent > 3 || text == "" || text[0] !in "`~" then NoFence
    else
      var length := Marks(text, text[0]);
      if length < 3 || (text[0] == '`' && '`' in text[length..]) then NoFence
      else Fenced(Opened(text[0], length, indent))
  }

  /** Whether a line closes a block: at least as many of its marks, and nothing but blanks after them. */
  predicate Closes(line: string, fence: Opened) {
    var indent := Spaces(line);
    var text := line[indent..];
    indent <= 3 && Marks(text, fence.mark) >= fence.length && Blank(text[Marks(text, fence.mark)..])
  }

  /** Where the line that closes a block begins; the document's end if no line does. */
  function ClosingAt(doc: string, fence: Opened): (n: nat)
    ensures n <= |doc|
    decreases |doc|
  {
    if doc == "" || Closes(FirstLine(doc), fence) then 0
    else LineSpan(doc) + ClosingAt(doc[LineSpan(doc)..], fence)
  }

  /** A block's lines less the indentation its opening had. */
  function Dedent(text: string, indent: nat): string
    decreases |text|
  {
    if indent == 0 || text == "" then text
    else
      var spaces := Spaces(FirstLine(text));
      text[if spaces < indent then spaces else indent..LineSpan(text)] + Dedent(text[LineSpan(text)..], indent)
  }

  /** The content of every fenced block of a document, in order, each with its line endings. */
  function FencedBlocks(doc: string): seq<string>
    decreases |doc|
  {
    if doc == "" then []
    else
      var rest := doc[LineSpan(doc)..];
      match Opens(FirstLine(doc))
      case NoFence => FencedBlocks(rest)
      case Fenced(fence) =>
        var at := ClosingAt(rest, fence);
        [Dedent(rest[..at], fence.indent)] + FencedBlocks(rest[at + LineSpan(rest[at..])..])
  }

  // ----- What a note's lines are to the scanner -----

  /** A line that opens no block, whatever text it carries. */
  predicate PlainLine(line: string) {
    OneLine(line) && (line == "" || line[0] !in " `~")
  }

  /** Lines, each ended by a newline. */
  function Text(lines: seq<string>): string {
    if lines == [] then "" else lines[0] + "\n" + Text(lines[1..])
  }

  lemma FirstLineIs(line: string, rest: string)
    requires OneLine(line)
    ensures var doc := line + "\n" + rest;
            FirstLine(doc) == line && LineSpan(doc) == |line| + 1 && doc[LineSpan(doc)..] == rest
  {
    var doc := line + "\n" + rest;
    assert doc == line + ("\n" + rest);
    LineLengthIs(line, "\n" + rest);
  }

  lemma {:induction false} PlainLinesHoldNoBlock(lines: seq<string>, rest: string)
    requires forall i :: 0 <= i < |lines| ==> PlainLine(lines[i])
    ensures FencedBlocks(Text(lines) + rest) == FencedBlocks(rest)
  {
    if lines == [] {
      assert Text(lines) + rest == rest;
    } else {
      var after := Text(lines[1..]) + rest;
      assert Text(lines) + rest == lines[0] + "\n" + after;
      FirstLineIs(lines[0], after);
      assert Opens(lines[0]) == NoFence;
      PlainLinesHoldNoBlock(lines[1..], rest);
    }
  }

  lemma {:induction false} TicksAreMarks(n: nat)
    ensures Marks(Ticks(n), '`') == n
  {
    if n > 0 {
      assert Ticks(n)[1..] == Ticks(n - 1);
      TicksAreMarks(n - 1);
    }
  }

  lemma FenceLine(n: nat)
    requires n >= 3
    ensures Opens(Ticks(n)) == Fenced(Opened('`', n, 0))
    ensures Closes(Ticks(n), Opened('`', n, 0))
  {
    TicksAreMarks(n);
    assert Spaces(Ticks(n)) == 0 && Ticks(n)[0..] == Ticks(n);
  }

  lemma {:induction false} TicksInside(s: string)
    ensures AllTicks(s[..Marks(s, '`')])
  {
  }

  /** Backticks that follow one another in a text are no more than its longest run. */
  lemma RunIsBounded(body: string, from: nat, n: nat)
    requires from + n <= |body| && AllTicks(body[from..from + n])
    ensures n <= LongestRun(body)
  {
    LongestRunIs(body);
    var to := from + n;
    assert AllTicks(body[from..to]) && to - from == n;
  }

  lemma MarksAreBounded(text: string, body: string, at: nat)
    requires at + |text| <= |body| && text == body[at..at + |text|]
    ensures Marks(text, '`') <= LongestRun(body)
  {
    var marks := Marks(text, '`');
    TicksInside(text);
    assert body[at..at + marks] == text[..marks];
    RunIsBounded(body, at, marks);
  }

  /** A line of a text whose runs are all shorter than a fence never closes it. */
  lemma ShortRunsNeverClose(line: string, body: string, from: nat, fence: Opened)
    requires from + |line| <= |body| && line == body[from..from + |line|]
    requires fence.mark == '`' && fence.length > LongestRun(body)
    ensures !Closes(line, fence)
  {
    var indent := Spaces(line);
    MarksAreBounded(line[indent..], body, from + indent);
  }

  /** A text, the newline after it, and what closes its fence. */
  function Whole(body: string, closing: string): (whole: string)
    ensures |whole| == |body| + 1 + |closing|
  {
    body + "\n" + closing
  }

  /**
   * A line of a text put before a closing fence is the text's own, and the next one begins within it or is the
   * fence.
   */
  lemma NextLine(rest: string, body: string, from: nat, closing: string)
    requires from <= |body| && rest == Whole(body, closing)[from..]
    ensures var line := FirstLine(rest);
            from + |line| <= |body| && line == body[from..from + |line|]
    ensures 0 < LineSpan(rest) <= |body| + 1 - from
  {
    var n := LineLength(rest);
    assert rest[|body| - from] == '\n';
    assert forall i :: 0 <= i < n ==> rest[..n][i] == rest[i];
    assert rest[..n] == body[from..from + n];
  }

  lemma ClosesAtFence(fence: Opened, after: string)
    requires fence.mark == '`' && fence.indent == 0 && fence.length >= 3
    ensures ClosingAt(Ticks(fence.length) + "\n" + after, fence) == 0
  {
    FirstLineIs(Ticks(fence.length), after);
    FenceLine(fence.length);
  }

  lemma ClosesLater(doc: string, fence: Opened, at: nat)
    requires doc != "" && !Closes(FirstLine(doc), fence)
    requires ClosingAt(doc[LineSpan(doc)..], fence) == at
    ensures ClosingAt(doc, fence) == LineSpan(doc) + at
  {
  }

  lemma NextLineDoesNotClose(rest: string, body: string, from: nat, fence: Opened, closing: string)
    requires from <= |body| && fence.mark == '`' && fence.length > LongestRun(body)
    requires rest == Whole(body, closing)[from..]
    ensures !Closes(FirstLine(rest), fence)
  {
    NextLine(rest, body, from, closing);
    ShortRunsNeverClose(FirstLine(rest), body, from, fence);
  }

  /** From any line start within a fenced text, the block closes at the fence after it and nowhere before. */
  lemma {:induction false} ClosesAfterBody(rest: string, body: string, from: nat, fence: Opened, closing: string)
    requires from <= |body| + 1 && rest == Whole(body, closing)[from..]
    requires fence.mark == '`' && fence.length > LongestRun(body)
    requires ClosingAt(closing, fence) == 0
    ensures ClosingAt(rest, fence) == |body| + 1 - from
    decreases |body| + 1 - from
  {
    if from == |body| + 1 {
      assert rest == closing;
    } else {
      NextLine(rest, body, from, closing);
      NextLineDoesNotClose(rest, body, from, fence, closing);
      var span := LineSpan(rest);
      ClosesAfterBody(rest[span..], body, from + span, fence, closing);
      ClosesLater(rest, fence, |body| + 1 - from - span);
    }
  }

  /** A fenced text is one block, and its content is that text and the newline put after it, whatever the text is. */
  lemma FencedTextIsOneBlock(body: string, after: string)
    ensures var fence := FenceFor(body);
            FencedBlocks(fence + "\n" + body + "\n" + fence + "\n" + after) == [body + "\n"] + FencedBlocks(after)
  {
    var ticks := FenceFor(body);
    var fence := Opened('`', |ticks|, 0);
    assert ticks == Ticks(|ticks|);
    var closing := ticks + "\n" + after;
    var rest := Whole(body, closing);
    var doc := ticks + "\n" + body + "\n" + ticks + "\n" + after;
    assert doc == ticks + "\n" + rest;
    FirstLineIs(ticks, rest);
    FenceLine(|ticks|);
    assert rest[0..] == rest;
    ClosesAtFence(fence, after);
    ClosesAfterBody(rest, body, 0, fence, closing);
    var at := ClosingAt(rest, fence);
    assert rest[..at] == body + "\n" && rest[at..] == closing;
    FirstLineIs(ticks, after);
    assert rest[at + LineSpan(closing)..] == closing[LineSpan(closing)..] == after;
  }
}
