// How a followed child's stdout is cut into events
// (pkgs/aoide-desktop/crates/exec/src/lib.rs, `read_lines`, `absorb`, `take_line`).
module LineReader {
  import opened Common

  const NEWLINE: Byte := 10

  /** The most a followed line may hold. */
  const LINE_CAP: nat := 1024 * 1024

  datatype Event = Line(bytes: seq<Byte>) | Dropped(total: nat) | Eof

  // ----- What the events of a stream are -----

  /** The finished lines of a stream, each without its newline. */
  function Lines(stream: seq<Byte>): seq<seq<Byte>> {
    if stream == [] then []
    else
      var n := |stream| - 1;
      if stream[n] == NEWLINE then Lines(stream[..n]) + [Tail(stream[..n])] else Lines(stream[..n])
  }

  /** The bytes after a stream's last newline. */
  function Tail(stream: seq<Byte>): seq<Byte> {
    if stream == [] || stream[|stream| - 1] == NEWLINE then []
    else Tail(stream[..|stream| - 1]) + [stream[|stream| - 1]]
  }

  function LineEvent(line: seq<Byte>): Event {
    if |line| > LINE_CAP then Dropped(|line|) else Line(line)
  }

  function LineEvents(lines: seq<seq<Byte>>): (events: seq<Event>)
    ensures |events| == |lines|
    ensures forall i :: 0 <= i < |lines| ==> events[i] == LineEvent(lines[i])
  {
    seq(|lines|, i requires 0 <= i < |lines| => LineEvent(lines[i]))
  }

  /** The events of a stream that ended: its finished lines, and an unfinished last line that is not empty. */
  function StreamEvents(stream: seq<Byte>): seq<Event> {
    LineEvents(Lines(stream)) + (if Tail(stream) == [] then [] else [LineEvent(Tail(stream))])
  }

  /** The stream that finished lines and an unfinished one make. */
  function Joined(lines: seq<seq<Byte>>, tail: seq<Byte>): seq<Byte> {
    if lines == [] then tail else lines[0] + [10] + Joined(lines[1..], tail)
  }

  ghost predicate NoNewlines(lines: seq<seq<Byte>>, tail: seq<Byte>) {
    NEWLINE !in tail && forall i :: 0 <= i < |lines| ==> NEWLINE !in lines[i]
  }

  lemma {:induction false} TailIsLast(stream: seq<Byte>, piece: seq<Byte>)
    requires NEWLINE !in piece
    ensures Lines(stream + piece) == Lines(stream) && Tail(stream + piece) == Tail(stream) + piece
  {
    if piece == [] {
      assert stream + piece == stream && Tail(stream) + piece == Tail(stream);
    } else {
      var before, last := piece[..|piece| - 1], piece[|piece| - 1];
      assert piece == before + [last];
      TailIsLast(stream, before);
      assert stream + piece == stream + before + [last];
      assert Tail(stream) + piece == Tail(stream) + before + [last];
    }
  }

  lemma LineEnds(stream: seq<Byte>, piece: seq<Byte>)
    requires NEWLINE !in piece
    ensures Lines(stream + piece + [NEWLINE]) == Lines(stream) + [Tail(stream) + piece]
    ensures Tail(stream + piece + [NEWLINE]) == []
  {
    TailIsLast(stream, piece);
    assert (stream + piece + [NEWLINE])[..|stream + piece|] == stream + piece;
  }

  lemma {:induction false} JoinMore(lines: seq<seq<Byte>>, tail: seq<Byte>, more: seq<Byte>)
    ensures Joined(lines, tail) + more == Joined(lines, tail + more)
    ensures Joined(lines, tail) + [NEWLINE] == Joined(lines + [tail], [])
  {
    if lines == [] {
      assert ([] + [tail])[1..] == [];
    } else {
      JoinMore(lines[1..], tail, more);
      assert (lines + [tail])[1..] == lines[1..] + [tail];
    }
  }

  /** Splitting loses nothing: the lines and the tail join to the stream, and none holds a newline. */
  lemma {:induction false} SplitJoins(stream: seq<Byte>)
    ensures Joined(Lines(stream), Tail(stream)) == stream
    ensures NoNewlines(Lines(stream), Tail(stream))
  {
    if stream != [] {
      var n := |stream| - 1;
      SplitJoins(stream[..n]);
      JoinMore(Lines(stream[..n]), Tail(stream[..n]), [stream[n]]);
      assert stream == stream[..n] + [stream[n]];
    }
  }

  /** And only one split does: any lines and tail without newlines are the split of what they join to. */
  lemma {:induction false} JoinSplits(lines: seq<seq<Byte>>, tail: seq<Byte>)
    requires NoNewlines(lines, tail)
    ensures Lines(Joined(lines, tail)) == lines && Tail(Joined(lines, tail)) == tail
  {
    if lines == [] {
      TailIsLast([], tail);
      assert [] + tail == tail;
    } else {
      var n := |lines| - 1;
      JoinSplits(lines[..n], []);
      assert lines[..n] + [lines[n]] == lines;
      var before := Joined(lines[..n], []);
      JoinMore(lines[..n], [], lines[n]);
      assert [] + lines[n] == lines[n];
      JoinMore(lines[..n], lines[n], []);
      LineEnds(before, lines[n]);
      assert before + lines[n] + [NEWLINE] == Joined(lines, []);
      assert [] + tail == tail;
      JoinMore(lines, [], tail);
      TailIsLast(Joined(lines, []), tail);
    }
  }

  /** A stream whose lines are all within the cap is read verbatim: its events are its lines. */
  lemma WithinCapIsVerbatim(stream: seq<Byte>)
    requires forall i :: 0 <= i < |Lines(stream)| ==> |Lines(stream)[i]| <= LINE_CAP
    requires |Tail(stream)| <= LINE_CAP
    ensures var lines := Lines(stream) + (if Tail(stream) == [] then [] else [Tail(stream)]);
            StreamEvents(stream) == seq(|lines|, i requires 0 <= i < |lines| => Line(lines[i]))
  {
  }

  // ----- The pipe, and where the events go -----

  /** One answer of `pipe.read`. No more answers is the end of the pipe. */
  datatype Read = Data(bytes: seq<Byte>) | Interrupted | Error

  /** The bytes read before the pipe ended or failed. */
  function BytesOf(answers: seq<Read>): seq<Byte> {
    if answers == [] || answers[0].Error? || answers[0] == Data([]) then []
    else (if answers[0].Data? then answers[0].bytes else []) + BytesOf(answers[1..])
  }

  predicate Fails(answers: seq<Read>) {
    answers != [] && answers[0] != Data([]) && (answers[0].Error? || Fails(answers[1..]))
  }

  /** What a pipe gives to send: all of its events when it ends, its finished lines when it fails. */
  function PipeEvents(answers: seq<Read>): seq<Event> {
    if Fails(answers) then LineEvents(Lines(BytesOf(answers))) else StreamEvents(BytesOf(answers))
  }

  /** What one line of a stream is told as: itself up to 1 MiB, and above that its length. */
  predicate Tells(event: Event, line: seq<Byte>) {
    event == if |line| <= 1_048_576 then Line(line) else Dropped(|line|)
  }

  /**
   * The events of a pipe, by nothing but the lines its bytes are made of: one for each line that a newline ends, and
   * one for a last line that is not empty, unless the pipe failed.
   */
  lemma EventsTellTheLines(answers: seq<Read>, lines: seq<seq<Byte>>, tail: seq<Byte>)
    requires NoNewlines(lines, tail) && BytesOf(answers) == Joined(lines, tail)
    ensures var events, last := PipeEvents(answers), tail != [] && !Fails(answers);
            && |events| == |lines| + (if last then 1 else 0)
            && (forall i :: 0 <= i < |lines| ==> Tells(events[i], lines[i]))
            && (last ==> Tells(events[|lines|], tail))
  {
    JoinSplits(lines, tail);
  }

  /** The reader's end of the queue: it takes `room` events before it is closed. */
  class Out {
    var sent: seq<Event>
    const room: nat

    constructor (room: nat)
      ensures sent == [] && this.room == room
    {
      sent := [];
      this.room := room;
    }

    method Send(event: Event) returns (ok: bool)
      modifies this
      ensures ok == (|old(sent)| < room)
      ensures sent == if ok then old(sent) + [event] else old(sent)
    {
      ok := |sent| < room;
      if ok {
        sent := sent + [event];
      }
    }
  }

  /** The line being read: `total` counts its bytes, `line` keeps them up to the cap. */
  class LineBuffer {
    var line: seq<Byte>
    var total: nat

    /** The buffer holds `bytes` of a line so far, and never grows past the cap. */
    ghost predicate Holds(bytes: seq<Byte>)
      reads this
    {
      total == |bytes| && line == bytes[..if |bytes| < LINE_CAP then |bytes| else LINE_CAP]
    }

    constructor ()
      ensures Holds([])
    {
      line, total := [], 0;
    }

    method Absorb(piece: seq<Byte>, ghost before: seq<Byte>)
      requires Holds(before)
      modifies this
      ensures Holds(before + piece) && |line| <= LINE_CAP
    {
      total := total + |piece|;
      var room := LINE_CAP - |line|;
      line := line + piece[..if |piece| < room then |piece| else room];
    }

    method TakeLine(ghost whole: seq<Byte>) returns (event: Event)
      requires Holds(whole)
      modifies this
      ensures event == LineEvent(whole) && Holds([])
    {
      if total > LINE_CAP {
        line := [];
        event := Dropped(total);
      } else {
        event := Line(line);
        line := [];
      }
      total := 0;
    }
  }

  method FindNewline(piece: seq<Byte>) returns (at: nat)
    ensures at <= |piece| && NEWLINE !in piece[..at]
    ensures at < |piece| ==> piece[at] == NEWLINE
  {
    at := 0;
    while at < |piece| && piece[at] != NEWLINE
      invariant at <= |piece| && NEWLINE !in piece[..at]
    {
      at := at + 1;
    }
  }

  /** The events an `Out` with this much room has taken of those offered. */
  function Upto(events: seq<Event>, room: nat): seq<Event> {
    if |events| <= room then events else events[..room]
  }

  /** Where a run of the reader stands: `read` is what it has taken from the pipe, all within the queue's room. */
  ghost predicate Standing(buffer: LineBuffer, out: Out, read: seq<Byte>)
    reads buffer, out
  {
    buffer.Holds(Tail(read)) && out.sent == LineEvents(Lines(read)) && |out.sent| <= out.room
  }

  /**
   * Whatever way the pipe is cut into reads, the events sent are those of its whole
   * bytes, up to the queue's close.
   */
  method ReadLines(answers: seq<Read>, out: Out) returns (ok: bool)
    requires out.sent == []
    modifies out
    ensures out.sent == Upto(PipeEvents(answers), out.room)
    ensures !ok ==> Fails(answers)
    ensures Fails(answers) && |PipeEvents(answers)| <= out.room ==> !ok
  {
    var buffer := new LineBuffer();
    ghost var read: seq<Byte> := [];
    var i := 0;
    while i < |answers| && answers[i] != Data([])
      invariant i <= |answers|
      invariant Standing(buffer, out, read)
      invariant read + BytesOf(answers[i..]) == BytesOf(answers) && Fails(answers[i..]) == Fails(answers)
    {
      ghost var rest := answers[i + 1..];
      assert answers[i..][1..] == rest;
      if answers[i].Error? {
        assert read == BytesOf(answers);
        return false;
      }
      if answers[i].Data? {
        var bytes := answers[i].bytes;
        var open := ReadPiece(bytes, buffer, out, read);
        assert read + (bytes + BytesOf(rest)) == read + bytes + BytesOf(rest);
        read := read + bytes;
        if !open {
          SentStops(answers, read, BytesOf(rest), out.room);
          return true;
        }
      }
      i := i + 1;
    }
    assert BytesOf(answers[i..]) == [] && !Fails(answers[i..]);
    assert read + [] == read;
    FinishLine(buffer, out, read);
    ok := true;
  }

  /** The end of the pipe: an unfinished line that is not empty is sent. */
  method FinishLine(buffer: LineBuffer, out: Out, ghost read: seq<Byte>)
    requires Standing(buffer, out, read)
    modifies buffer, out
    ensures out.sent == Upto(StreamEvents(read), out.room)
  {
    if buffer.total > 0 {
      var event := buffer.TakeLine(Tail(read));
      var sent := out.Send(event);
    }
  }

  /** One read's bytes: each newline ends a line, and the rest is kept. False once the queue is closed. */
  method ReadPiece(bytes: seq<Byte>, buffer: LineBuffer, out: Out, ghost read: seq<Byte>) returns (open: bool)
    requires Standing(buffer, out, read)
    modifies buffer, out
    ensures open ==> Standing(buffer, out, read + bytes)
    ensures !open ==> |Lines(read + bytes)| > out.room && out.sent == LineEvents(Lines(read + bytes))[..out.room]
  {
    var piece := bytes;
    ghost var seen := read;
    var at: nat := FindNewline(piece);
    while at < |piece|
      invariant seen + piece == read + bytes
      invariant at <= |piece| && NEWLINE !in piece[..at] && (at < |piece| ==> piece[at] == NEWLINE)
      invariant Standing(buffer, out, seen)
      decreases |piece|
    {
      var sent := EndLine(piece[..at], buffer, out, seen);
      seen := seen + piece[..at] + [NEWLINE];
      assert piece == piece[..at] + [NEWLINE] + piece[at + 1..];
      piece := piece[at + 1..];
      if !sent {
        LinesGrow(seen, piece);
        assert seen + piece == read + bytes;
        return false;
      }
      at := FindNewline(piece);
    }
    assert piece[..at] == piece;
    TailIsLast(seen, piece);
    buffer.Absorb(piece, Tail(seen));
    open := true;
  }

  /** The rest of a line and its newline. False once the queue is closed. */
  method EndLine(part: seq<Byte>, buffer: LineBuffer, out: Out, ghost seen: seq<Byte>) returns (open: bool)
    requires Standing(buffer, out, seen) && NEWLINE !in part
    modifies buffer, out
    ensures open ==> Standing(buffer, out, seen + part + [NEWLINE])
    ensures !open ==>
              var lines := Lines(seen + part + [NEWLINE]);
              |lines| > out.room && out.sent == LineEvents(lines)[..out.room]
  {
    LineEnds(seen, part);
    buffer.Absorb(part, Tail(seen));
    var event := buffer.TakeLine(Tail(seen) + part);
    open := out.Send(event);
  }

  lemma {:induction false} LinesGrow(stream: seq<Byte>, more: seq<Byte>)
    ensures Lines(stream) <= Lines(stream + more)
  {
    if more == [] {
      assert stream + more == stream;
    } else {
      LinesGrow(stream, more[..|more| - 1]);
      assert (stream + more)[..|stream + more| - 1] == stream + more[..|more| - 1];
    }
  }

  lemma SentStops(answers: seq<Read>, read: seq<Byte>, more: seq<Byte>, room: nat)
    requires read + more == BytesOf(answers) && |Lines(read)| > room
    ensures |PipeEvents(answers)| > room && PipeEvents(answers)[..room] == LineEvents(Lines(read))[..room]
  {
    LinesGrow(read, more);
  }

  function Chunks(answers: seq<Read>): seq<Byte> {
    if answers == [] then []
    else (if answers[0].Data? then answers[0].bytes else []) + Chunks(answers[1..])
  }

  /** A pipe gives what it was read to before its first empty read or error. */
  lemma {:induction false} PipeEndsThere(answers: seq<Read>, last: Read, more: seq<Read>)
    requires forall i :: 0 <= i < |answers| ==> answers[i].Interrupted? || (answers[i].Data? && answers[i].bytes != [])
    requires last.Error? || last == Data([])
    ensures BytesOf(answers + [last] + more) == Chunks(answers)
    ensures Fails(answers + [last] + more) == last.Error?
  {
    var whole := answers + [last] + more;
    if answers != [] {
      assert whole[1..] == answers[1..] + [last] + more;
      PipeEndsThere(answers[1..], last, more);
    }
  }

  /** However a stream is cut into non-empty reads, interrupted or not, its events are those of the whole. */
  lemma {:induction false} CuttingDoesNotMatter(answers: seq<Read>)
    requires forall i :: 0 <= i < |answers| ==> answers[i].Interrupted? || (answers[i].Data? && answers[i].bytes != [])
    ensures PipeEvents(answers) == StreamEvents(Chunks(answers))
    ensures !Fails(answers) && BytesOf(answers) == Chunks(answers)
  {
    if answers != [] {
      CuttingDoesNotMatter(answers[1..]);
    }
  }
}
