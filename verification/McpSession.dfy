// The MCP session client against any server (pkgs/aoide/crates/client/src/mcp_client.rs,
// `McpSession`; "Session Management" in the Transports section of MCP 2025-03-26).
module McpSession {
  import opened Common

  datatype Failure =
    | Transport | Denied | Http(status: nat)
    | DuplicateSession | InvalidSession | SessionChanged | SessionOutsideInitialize
    | NoReply | BadReply | UnsupportedVersion | BadAcknowledgement | ToolFailed

  datatype Result<+T> = Ok(value: T) | Err(why: Failure)

  // ----- What is sent and answered -----

  datatype Verb = Post | Delete

  datatype Body =
    | Initialize(id: nat)
    | Initialized
    | ToolCall(id: nat, name: string, args: string)
    | Empty

  /** The headers that vary: the session's id and the protocol's version, when there are any. */
  datatype Headers = Headers(session: Option<string>, version: Option<string>)

  datatype Message = Message(verb: Verb, body: Body, headers: Headers)

  datatype Answer = Failed | Response(status: nat, headers: seq<(string, string)>, text: string)

  /** A server answers by everything it was ever sent. */
  type Server = seq<Message> -> Answer

  /** How the reply of an id is read out of a body, and what a reply says; its JSON is not part of this model. */
  datatype Reader = Reader(reply: (string, nat) -> Option<string>, version: string -> Option<string>,
      text: string -> Option<string>)

  const VERSIONS: seq<string> := ["2025-03-26", "2025-06-18", "2025-11-25"]
  const SESSION_HEADER := "mcp-session-id"

  function LowerChar(c: char): char {
    if 'A' <= c <= 'Z' then (c as int + 32) as char else c
  }

  predicate SameIgnoringCase(a: string, b: string) {
    |a| == |b| && forall i :: 0 <= i < |a| ==> LowerChar(a[i]) == LowerChar(b[i])
  }

  /** The session ids an answer's headers give. */
  function SessionIds(headers: seq<(string, string)>): seq<string> {
    if headers == [] then []
    else (if SameIgnoringCase(headers[0].0, SESSION_HEADER) then [headers[0].1] else []) + SessionIds(headers[1..])
  }

  predicate ValidId(id: string) {
    id != "" && forall i :: 0 <= i < |id| ==> '!' <= id[i] <= '~'
  }

  predicate Blank(text: string) { forall i :: 0 <= i < |text| ==> White(text[i]) }

  predicate Success(status: nat) { 200 <= status < 300 }

  // ----- The client's steps -----

  datatype Client = Client(session: Option<string>, version: Option<string>, nextId: nat, log: seq<Message>)

  function HeadersOf(c: Client): Headers { Headers(c.session, c.version) }

  function Sent(c: Client, verb: Verb, body: Body): Client {
    c.(log := c.log + [Message(verb, body, HeadersOf(c))])
  }

  datatype Step<+T> = Step(result: Result<T>, client: Client)

  /** What an answer is worth to a client: its body, or why not, and the session it now has. */
  function Taken(c: Client, answer: Answer): (Result<Answer>, Option<string>) {
    match answer
    case Failed => (Err(Transport), c.session)
    case Response(status, headers, _) =>
      var ids := SessionIds(headers);
      if status == 401 || status == 403 then (Err(Denied), c.session)
      else if !Success(status) then (Err(Http(status)), c.session)
      else if |ids| > 1 then (Err(DuplicateSession), c.session)
      else if ids == [] then (Ok(answer), c.session)
      else if !ValidId(ids[0]) then (Err(InvalidSession), c.session)
      else if c.session.Some? then
        (if c.session.value != ids[0] then Err(SessionChanged) else Ok(answer), c.session)
      else if c.version.Some? then (Err(SessionOutsideInitialize), c.session)
      else (Ok(answer), Some(ids[0]))
  }

  function Exchanged(server: Server, c: Client, body: Body): Step<Answer> {
    var sent := Sent(c, Post, body);
    var (result, session) := Taken(c, server(sent.log));
    Step(result, sent.(session := session))
  }

  function Replied(reader: Reader, result: Result<Answer>, id: nat): Result<string> {
    match result
    case Err(why) => Err(why)
    case Ok(answer) =>
      if answer.Failed? || answer.status != 200 then Err(NoReply)
      else
        var reply := reader.reply(answer.text, id);
        if reply.None? then Err(BadReply) else Ok(reply.value)
  }

  /** A request takes the next id, whatever comes of it. */
  function Requested(server: Server, reader: Reader, c: Client, body: Body): Step<string> {
    var x := Exchanged(server, c.(nextId := c.nextId + 1), body);
    Step(Replied(reader, x.result, c.nextId), x.client)
  }

  predicate IsAcknowledged(result: Result<Answer>) {
    result.Ok? && result.value.Response? && result.value.status == 202 && Blank(result.value.text)
  }

  /** The version a reply names, if it is one the client speaks. */
  function Spoken(reader: Reader, reply: string): Option<string> {
    var version := reader.version(reply);
    if version.Some? && version.value in VERSIONS then version else None
  }

  function Begun(server: Server, reader: Reader, c: Client): Step<()> {
    var r := Requested(server, reader, c, Initialize(c.nextId));
    match r.result
    case Err(why) => Step(Err(why), r.client)
    case Ok(reply) =>
      var version := Spoken(reader, reply);
      if version.None? then Step(Err(UnsupportedVersion), r.client)
      else
        var x := Exchanged(server, r.client.(version := version), Initialized);
        match x.result
        case Err(why) => Step(Err(why), x.client)
        case Ok(answer) => Step(if IsAcknowledged(x.result) then Ok(()) else Err(BadAcknowledgement), x.client)
  }

  datatype Closing = NotApplicable | Closed | Unsupported | NotClosed

  function Ended(c: Client): Client {
    if c.session.None? then c else Sent(c, Delete, Empty).(session := None)
  }

  const FRESH := Client(None, None, 1, [])

  function Connected(server: Server, reader: Reader): Step<()> {
    var b := Begun(server, reader, FRESH);
    if b.result.Ok? then b else Step(b.result, Ended(b.client))
  }

  function Called(server: Server, reader: Reader, c: Client, name: string, args: string): Step<string> {
    var r := Requested(server, reader, c, ToolCall(c.nextId, name, args));
    match r.result
    case Err(_) => r
    case Ok(reply) =>
      var text := reader.text(reply);
      Step(if text.Some? then Ok(text.value) else Err(ToolFailed), r.client)
  }

  // ----- The client itself -----

  class McpSession {
    const server: Server
    const reader: Reader
    var session: Option<string>
    var version: Option<string>
    var nextId: nat
    /** Everything sent, in order. */
    var log: seq<Message>

    constructor (server: Server, reader: Reader)
      ensures State() == FRESH && this.server == server && this.reader == reader
    {
      this.server := server;
      this.reader := reader;
      session := None;
      version := None;
      nextId := 1;
      log := [];
    }

    function State(): Client
      reads this
    {
      Client(session, version, nextId, log)
    }

    method Post(verb: Verb, body: Body) returns (answer: Answer)
      modifies this`log
      ensures State() == Sent(old(State()), verb, body)
      ensures answer == server(State().log)
    {
      log := log + [Message(verb, body, Headers(session, version))];
      answer := server(log);
    }

    /** `exchange`. */
    method Exchange(body: Body) returns (result: Result<Answer>)
      modifies this
      ensures Step(result, State()) == Exchanged(server, old(State()), body)
    {
      var answer := Post(Verb.Post, body);
      if answer.Failed? {
        return Err(Transport);
      }
      if answer.status == 401 || answer.status == 403 {
        return Err(Denied);
      }
      if !Success(answer.status) {
        return Err(Http(answer.status));
      }
      var ids := SessionIds(answer.headers);
      if |ids| > 1 {
        return Err(DuplicateSession);
      }
      if |ids| == 1 {
        if !ValidId(ids[0]) {
          return Err(InvalidSession);
        }
        if session.Some? {
          if session.value != ids[0] {
            return Err(SessionChanged);
          }
        } else if version.Some? {
          return Err(SessionOutsideInitialize);
        } else {
          session := Some(ids[0]);
        }
      }
      result := Ok(answer);
    }

    /** `request`, on a body that carries the next id. */
    method Request(body: Body) returns (result: Result<string>)
      modifies this
      ensures Step(result, State()) == Requested(server, reader, old(State()), body)
    {
      var id := nextId;
      nextId := nextId + 1;
      var answer := Exchange(body);
      if answer.Err? {
        return Err(answer.why);
      }
      if answer.value.Failed? || answer.value.status != 200 {
        return Err(NoReply);
      }
      var reply := reader.reply(answer.value.text, id);
      result := if reply.None? then Err(BadReply) else Ok(reply.value);
    }

    /** `initialize`. */
    method Begin() returns (result: Result<()>)
      modifies this
      ensures Step(result, State()) == Begun(server, reader, old(State()))
    {
      var reply := Request(Initialize(nextId));
      if reply.Err? {
        return Err(reply.why);
      }
      var spoken := Spoken(reader, reply.value);
      if spoken.None? {
        return Err(UnsupportedVersion);
      }
      version := spoken;
      var answer := Exchange(Initialized);
      if answer.Err? {
        return Err(answer.why);
      }
      result := if IsAcknowledged(answer) then Ok(()) else Err(BadAcknowledgement);
    }

    /** `connect`, on a fresh client. */
    method Connect() returns (result: Result<()>)
      requires State() == FRESH
      modifies this
      ensures Step(result, State()) == Connected(server, reader)
    {
      result := Begin();
      if result.Err? {
        var _ := Close();
      }
    }

    /** `close`. */
    method Close() returns (how: Closing)
      modifies this
      ensures State() == Ended(old(State()))
      ensures old(session).None? ==> how == NotApplicable
      ensures old(session).Some? ==>
                how == match server(State().log)
                       case Failed => NotClosed
                       case Response(status, _, _) =>
                         if 200 <= status < 300 || status == 404 then Closed
                         else if status == 405 then Unsupported else NotClosed
    {
      if session.None? {
        return NotApplicable;
      }
      var answer := Post(Delete, Empty);
      session := None;
      if answer.Failed? {
        return NotClosed;
      }
      how := if Success(answer.status) || answer.status == 404 then Closed
        else if answer.status == 405 then Unsupported else NotClosed;
    }

    /** `mneme_rpc`. */
    method MnemeRpc(name: string, args: string) returns (result: Result<string>)
      modifies this
      ensures Step(result, State()) == Called(server, reader, old(State()), name, args)
    {
      var reply := Request(ToolCall(nextId, name, args));
      if reply.Err? {
        return reply;
      }
      var text := reader.text(reply.value);
      result := if text.Some? then Ok(text.value) else Err(ToolFailed);
    }
  }

  // ----- What an answer is taken for -----

  /** A header that names a session: `mcp-session-id`, in whatever case. */
  predicate NamesSession(name: string) {
    && |name| == |"mcp-session-id"|
    && forall i :: 0 <= i < |name| ==>
         var c := "mcp-session-id"[i];
         name[i] == c || ('a' <= c <= 'z' && name[i] as int == c as int - 32)
  }

  lemma NameIsRead(name: string)
    ensures SameIgnoringCase(name, SESSION_HEADER) <==> NamesSession(name)
  {
    if |name| == |SESSION_HEADER| {
      forall i | 0 <= i < |name|
        ensures LowerChar(name[i]) == LowerChar(SESSION_HEADER[i]) <==>
                var c := SESSION_HEADER[i]; name[i] == c || ('a' <= c <= 'z' && name[i] as int == c as int - 32)
      {
        CaseIsRead(name[i], SESSION_HEADER[i]);
      }
    }
  }

  lemma CaseIsRead(a: char, c: char)
    requires 'a' <= c <= 'z' || c == '-'
    ensures LowerChar(a) == LowerChar(c) <==> a == c || ('a' <= c <= 'z' && a as int == c as int - 32)
  {
  }

  /** The values of the headers that name a session, in order. */
  function Named(headers: seq<(string, string)>): seq<string> {
    if headers == [] then []
    else
      var last := headers[|headers| - 1];
      Named(headers[..|headers| - 1]) + if NamesSession(last.0) then [last.1] else []
  }

  lemma {:induction false} NamedFirst(headers: seq<(string, string)>)
    requires headers != []
    ensures Named(headers) == (if NamesSession(headers[0].0) then [headers[0].1] else []) + Named(headers[1..])
  {
    if |headers| == 1 {
      assert headers[1..] == [] && headers[..0] == [];
    } else {
      NamedFirst(headers[..|headers| - 1]);
      assert headers[1..][..|headers| - 2] == headers[..|headers| - 1][1..];
    }
  }

  lemma {:induction false} IdsAreNamed(headers: seq<(string, string)>)
    ensures SessionIds(headers) == Named(headers)
  {
    if headers != [] {
      NamedFirst(headers);
      NameIsRead(headers[0].0);
      IdsAreNamed(headers[1..]);
    }
  }

  /** A session's id: not empty, and printable ASCII without a space. */
  predicate Printable(id: string) {
    id != "" && forall i :: 0 <= i < |id| ==> 33 <= id[i] as int <= 126
  }

  /** No session, or one that is the client's, or its first. */
  predicate FitsClient(c: Client, ids: seq<string>) {
    || ids == []
    || (|ids| == 1 && Printable(ids[0]) && (c.session == Some(ids[0]) || (c.session == None && c.version == None)))
  }

  /**
   * An answer is taken exactly when it is a success that names no session, or one valid one: the client's own, or a
   * first one while no version is settled; and then the client has it.
   */
  lemma AnswerIsTaken(c: Client, answer: Answer)
    ensures var (result, session) := Taken(c, answer);
            && (result.Ok? <==>
                  && answer.Response? && 200 <= answer.status <= 299
                  && FitsClient(c, Named(answer.headers)))
            && (result.Ok? ==> result.value == answer)
            && session ==
               if result.Ok? && Named(answer.headers) != [] then Some(Named(answer.headers)[0]) else c.session
  {
    if answer.Response? {
      IdsAreNamed(answer.headers);
    }
  }

  /** Why an answer is not taken: the first thing that is wrong with it. */
  lemma RefusalIsTold(c: Client, answer: Answer)
    ensures var result := Taken(c, answer).0;
            result.Err? ==>
              match answer
              case Failed => result.why == Transport
              case Response(status, headers, _) =>
                var ids := Named(headers);
                result.why ==
                if status == 401 || status == 403 then Denied
                else if status < 200 || status > 299 then Http(status)
                else if |ids| > 1 then DuplicateSession
                else if ids != [] && !Printable(ids[0]) then InvalidSession
                else if c.session.Some? then SessionChanged
                else SessionOutsideInitialize
  {
    if answer.Response? {
      IdsAreNamed(answer.headers);
    }
  }

  /**
   * A call posts its own id, name and arguments, and answers with a text exactly when the server's answer to that
   * post is taken, is a 200, and holds a reply under that id whose text it is.
   */
  lemma CallReadsItsOwnReply(server: Server, reader: Reader, c: Client, name: string, args: string, text: string)
    ensures var after := Called(server, reader, c, name, args);
            var log := after.client.log;
            && log == c.log + [Message(Post, ToolCall(c.nextId, name, args), Headers(c.session, c.version))]
            && after.client.nextId == c.nextId + 1
            && (after.result == Ok(text) <==>
                  && Taken(c, server(log)).0.Ok? && server(log).status == 200
                  && reader.reply(server(log).text, c.nextId).Some?
                  && reader.text(reader.reply(server(log).text, c.nextId).value) == Some(text))
  {
    var log := c.log + [Message(Post, ToolCall(c.nextId, name, args), HeadersOf(c))];
    SameTaking(c, c.(nextId := c.nextId + 1), server(log));
  }

  /**
   * The version is settled by the server's answer to the first message: taken, a 200, with a reply under id 1 that
   * names one of the three versions.
   */
  lemma VersionIsSettled(server: Server, reader: Reader, log: seq<Message>, version: string)
    requires log != []
    ensures var answer := server(log[..1]);
            Settled(server, reader, log) == Some(version) <==>
            && Taken(FRESH, answer).0.Ok? && answer.status == 200 && reader.reply(answer.text, 1).Some?
            && reader.version(reader.reply(answer.text, 1).value) == Some(version)
            && version in ["2025-03-26", "2025-06-18", "2025-11-25"]
  {
  }

  /** The notification is acknowledged by a 202 whose body is white space, taken as any answer is. */
  lemma AcknowledgedIs(server: Server, reader: Reader, log: seq<Message>)
    requires |log| >= 2
    ensures var answer := server(log[..2]);
            var c := Client(Assigned(server, log), Settled(server, reader, log), 2, []);
            Acknowledged(server, reader, log) <==>
            && Taken(c, answer).0.Ok? && answer.status == 202
            && forall i :: 0 <= i < |answer.text| ==> White(answer.text[i])
  {
  }

  // ----- Runs -----

  datatype Op = Call(name: string, args: string) | Close

  function After(server: Server, reader: Reader, c: Client, ops: seq<Op>): Client {
    if ops == [] then c
    else
      AfterOp(server, reader, After(server, reader, c, ops[..|ops| - 1]), ops[|ops| - 1])
  }

  // ----- What every run keeps -----

  /** The session the server gave: exactly one valid id in a successful answer to the first message. */
  function Assigned(server: Server, log: seq<Message>): Option<string>
    requires log != []
  {
    Taken(FRESH, server(log[..1])).1
  }

  /** The version the server's answer to the first message settled on. */
  function Settled(server: Server, reader: Reader, log: seq<Message>): Option<string>
    requires log != []
  {
    var reply := Replied(reader, Taken(FRESH, server(log[..1])).0, 1);
    if reply.Ok? then Spoken(reader, reply.value) else None
  }

  /** The server acknowledged the second message: 202 with an empty body, and no other session. */
  predicate Acknowledged(server: Server, reader: Reader, log: seq<Message>)
    requires |log| >= 2
  {
    IsAcknowledged(Taken(Client(Assigned(server, log), Settled(server, reader, log), 2, []), server(log[..2])).0)
  }

  predicate Deleted(log: seq<Message>) { exists i :: 0 <= i < |log| && log[i].verb == Delete }

  function IdsOf(log: seq<Message>): seq<nat> {
    if log == [] then []
    else
      var last := log[|log| - 1];
      IdsOf(log[..|log| - 1]) + if last.body.Initialize? || last.body.ToolCall? then [last.body.id] else []
  }

  /** One message after the first is in its place. */
  predicate InPlace(server: Server, reader: Reader, log: seq<Message>, i: nat)
    requires 0 < i < |log|
  {
    var m := log[i];
    && m.headers.session == (if Deleted(log[..i]) then None else Assigned(server, log))
    && m.headers.version == Settled(server, reader, log)
    && (m.verb == Delete <==> m.body.Empty?)
    && (m.verb == Delete ==> m.headers.session.Some?)
    && !m.body.Initialize?
    && (m.body.Initialized? ==> i == 1 && m.headers.version.Some?)
    && (m.body.ToolCall? ==>
       i >= 2 && log[1].body == Initialized && m.headers.version.Some? && Acknowledged(server, reader, log))
  }

  predicate Ordered(log: seq<Message>) {
    forall k :: 0 <= k < |IdsOf(log)| ==> IdsOf(log)[k] == k + 1
  }

  /**
   * What holds of everything ever sent: the initialization is first and carries no session and no version;
   * everything after it carries the session it was given, until a deletion, and the version it settled on;
   * the notification is second if it is sent at all; no tool call is sent unless the version was settled and
   * the notification acknowledged; a deletion names a session; and the requests' ids are 1, 2, 3 and so on.
   */
  predicate WellRun(server: Server, reader: Reader, log: seq<Message>) {
    && log != [] && log[0] == Message(Post, Initialize(1), Headers(None, None))
    && (forall i: nat :: 0 < i < |log| ==> InPlace(server, reader, log, i))
    && Ordered(log)
  }

  /** The client agrees with what it sent. */
  predicate Agrees(server: Server, reader: Reader, c: Client) {
    && WellRun(server, reader, c.log)
    && c.session == (if Deleted(c.log) then None else Assigned(server, c.log))
    && c.version == Settled(server, reader, c.log)
    && c.nextId == |IdsOf(c.log)| + 1
  }

  /** A client that connected. */
  predicate Ready(server: Server, reader: Reader, c: Client) {
    && Agrees(server, reader, c)
    && |c.log| >= 2 && c.log[1].body == Initialized && c.version.Some? && Acknowledged(server, reader, c.log)
  }

  lemma IdsOfMore(log: seq<Message>, m: Message)
    ensures IdsOf(log + [m]) == IdsOf(log) + if m.body.Initialize? || m.body.ToolCall? then [m.body.id] else []
  {
    assert (log + [m])[..|log|] == log;
  }

  lemma DeletedMore(log: seq<Message>, m: Message)
    ensures Deleted(log + [m]) <==> Deleted(log) || m.verb == Delete
  {
    if Deleted(log) {
      var i :| 0 <= i < |log| && log[i].verb == Delete;
      assert (log + [m])[i].verb == Delete;
    }
    if m.verb == Delete {
      assert (log + [m])[|log|].verb == Delete;
    }
  }

  lemma PrefixStays(log: seq<Message>, m: Message, n: nat)
    requires n <= |log|
    ensures (log + [m])[..n] == log[..n]
  {
  }

  lemma OneMoreKeeps(server: Server, reader: Reader, log: seq<Message>, m: Message)
    requires WellRun(server, reader, log)
    requires InPlace(server, reader, log + [m], |log|)
    requires m.body.Initialize? || m.body.ToolCall? ==> m.body.id == |IdsOf(log)| + 1
    ensures WellRun(server, reader, log + [m])
    ensures Assigned(server, log + [m]) == Assigned(server, log)
            && Settled(server, reader, log + [m]) == Settled(server, reader, log)
  {
    var more := log + [m];
    PrefixStays(log, m, 1);
    IdsOfMore(log, m);
    forall i: nat | 0 < i < |more| ensures InPlace(server, reader, more, i) {
      if i < |log| {
        PrefixStays(log, m, i);
        if |log| >= 2 {
          PrefixStays(log, m, 2);
        }
        assert InPlace(server, reader, log, i);
      }
    }
  }

  /** Sending one more message in its place keeps the client in agreement. */
  lemma SentAgrees(server: Server, reader: Reader, c: Client, verb: Verb, body: Body)
    requires Agrees(server, reader, c)
    requires (verb == Delete <==> body.Empty?) && (verb == Delete ==> c.session.Some?) && !body.Initialize?
    requires body.Initialized? ==> |c.log| == 1 && c.version.Some?
    requires body.ToolCall? ==> Ready(server, reader, c) && body.id == c.nextId
    ensures var log := Sent(c, verb, body).log;
            && WellRun(server, reader, log)
            && Assigned(server, log) == Assigned(server, c.log)
            && Settled(server, reader, log) == Settled(server, reader, c.log)
            && (Deleted(log) <==> Deleted(c.log) || verb == Delete)
            && |IdsOf(log)| == |IdsOf(c.log)| + if body.ToolCall? then 1 else 0
  {
    var m := Message(verb, body, HeadersOf(c));
    var log := c.log + [m];
    PrefixStays(c.log, m, 1);
    PrefixStays(c.log, m, |c.log|);
    assert c.log[..|c.log|] == c.log;
    if |c.log| >= 2 {
      PrefixStays(c.log, m, 2);
    }
    assert InPlace(server, reader, log, |c.log|);
    OneMoreKeeps(server, reader, c.log, m);
    DeletedMore(c.log, m);
    IdsOfMore(c.log, m);
  }

  /** Once a version is settled, no answer changes the session a client has. */
  lemma SessionStays(c: Client, answer: Answer)
    requires c.version.Some?
    ensures Taken(c, answer).1 == c.session
  {
  }

  /** What the first answer is worth. */
  function FirstResult(server: Server, reader: Reader, log: seq<Message>): Result<string>
    requires log != []
  {
    Replied(reader, Taken(FRESH, server(log[..1])).0, 1)
  }

  lemma FirstRequest(server: Server, reader: Reader)
    ensures var log := [Message(Post, Initialize(1), Headers(None, None))];
            var r := Requested(server, reader, FRESH, Initialize(1));
            r.client == Client(Assigned(server, log), None, 2, log) && r.result == FirstResult(server, reader, log)
  {
    var log := [Message(Post, Initialize(1), Headers(None, None))];
    assert FRESH.log + log == log && log[..1] == log;
    SameTaking(FRESH.(nextId := 2), FRESH, server(log));
  }

  lemma FirstIsWellRun(server: Server, reader: Reader)
    ensures var log := [Message(Post, Initialize(1), Headers(None, None))];
            WellRun(server, reader, log) && !Deleted(log) && |IdsOf(log)| == 1
  {
    var m := Message(Post, Initialize(1), Headers(None, None));
    IdsOfMore([], m);
    assert [] + [m] == [m] && IdsOf([]) == [];
    assert IdsOf([m]) == [1];
    DeletedMore([], m);
    assert !Deleted([m]);
  }

  /** How far a beginning got: the notification was sent exactly when a version was settled. */
  predicate BeganWell(server: Server, reader: Reader, b: Step<()>) {
    && Agrees(server, reader, b.client) && !Deleted(b.client.log) && |b.client.log| <= 2
    && (|b.client.log| == 2 <==> b.client.version.Some?)
    && (|b.client.log| == 2 ==> b.client.log[1].body == Initialized)
    && (b.result.Ok? <==> |b.client.log| == 2 && Acknowledged(server, reader, b.client.log))
  }

  lemma BeginKeeps(server: Server, reader: Reader)
    ensures BeganWell(server, reader, Begun(server, reader, FRESH))
  {
    FirstRequest(server, reader);
    FirstIsWellRun(server, reader);
    var r := Requested(server, reader, FRESH, Initialize(1));
    var spoken := if r.result.Ok? then Spoken(reader, r.result.value) else None;
    assert Settled(server, reader, r.client.log) == spoken;
    if spoken.Some? {
      SecondIsSent(server, reader, r.client.(version := spoken));
    }
  }

  /**
   * A connection is made exactly when the version is settled and the notification acknowledged; else the session
   * given is deleted.
   */
  lemma ConnectKeeps(server: Server, reader: Reader)
    ensures var c := Connected(server, reader);
            if c.result.Ok? then Ready(server, reader, c.client) && !Deleted(c.client.log)
            else NotConnected(server, reader, c.client.log)
  {
    BeginKeeps(server, reader);
    var b := Begun(server, reader, FRESH);
    if b.result.Err? {
      FailureIsClosed(server, reader, b);
    }
  }

  lemma FailureIsClosed(server: Server, reader: Reader, b: Step<()>)
    requires BeganWell(server, reader, b) && b.result.Err?
    ensures NotConnected(server, reader, Ended(b.client).log)
  {
    EndedAgrees(server, reader, b.client);
    var began, log := b.client.log, Ended(b.client).log;
    assert began[0].body.Initialize?;
    assert forall i :: 0 <= i < |began| ==> log[i] == began[i];
  }

  /**
   * What was sent in a connection that failed: no tool call, no acknowledged notification, and the given session
   * deleted.
   */
  predicate NotConnected(server: Server, reader: Reader, log: seq<Message>) {
    && WellRun(server, reader, log)
    && (Deleted(log) <==> Assigned(server, log).Some?)
    && (forall i :: 0 <= i < |log| ==> !log[i].body.ToolCall?)
    && !(|log| >= 2 && log[1].body == Initialized && Acknowledged(server, reader, log))
  }

  lemma DeletionHasASession(server: Server, reader: Reader, log: seq<Message>)
    requires WellRun(server, reader, log) && Deleted(log)
    ensures Assigned(server, log).Some?
  {
    var i: nat :| 0 <= i < |log| && log[i].verb == Delete;
    assert InPlace(server, reader, log, i);
  }

  lemma SecondIsSent(server: Server, reader: Reader, c: Client)
    requires Agrees(server, reader, c) && |c.log| == 1 && c.version.Some? && !Deleted(c.log) && c.nextId == 2
    ensures var x := Exchanged(server, c, Initialized);
            && Agrees(server, reader, x.client) && |x.client.log| == 2 && x.client.log[1].body == Initialized
            && !Deleted(x.client.log) && x.client.version == c.version
            && (Acknowledged(server, reader, x.client.log) <==> IsAcknowledged(x.result))
  {
    SentAgrees(server, reader, c, Post, Initialized);
    var log := Sent(c, Post, Initialized).log;
    assert log[..2] == log;
    SessionStays(c, server(log));
    SameTaking(c, Client(Assigned(server, log), Settled(server, reader, log), 2, []), server(log));
  }

  /** What an answer is worth depends only on the session and the version a client has. */
  lemma SameTaking(a: Client, b: Client, answer: Answer)
    requires a.session == b.session && a.version == b.version
    ensures Taken(a, answer) == Taken(b, answer)
  {
  }

  /** A client that ends sends one deletion if it has a session, and nothing otherwise. */
  lemma EndedAgrees(server: Server, reader: Reader, c: Client)
    requires Agrees(server, reader, c)
    ensures var e := Ended(c);
            && Agrees(server, reader, e) && c.log <= e.log && |e.log| <= |c.log| + 1
            && (Deleted(e.log) <==> Assigned(server, e.log).Some?) && Assigned(server, e.log) == Assigned(server, c.log)
            && (forall i :: |c.log| <= i < |e.log| ==> e.log[i].body == Empty)
            && (|c.log| >= 2 ==> (Acknowledged(server, reader, e.log) <==> Acknowledged(server, reader, c.log)))
            && (Ready(server, reader, c) ==> Ready(server, reader, e))
  {
    if c.session.Some? {
      SentAgrees(server, reader, c, Delete, Empty);
      PrefixStays(c.log, Message(Delete, Empty, HeadersOf(c)), 1);
      if |c.log| >= 2 {
        PrefixStays(c.log, Message(Delete, Empty, HeadersOf(c)), 2);
      }
    } else if Deleted(c.log) {
      DeletionHasASession(server, reader, c.log);
    }
  }

  /** A call keeps the client ready, and deletes nothing, whatever the server answers. */
  lemma CallKeeps(server: Server, reader: Reader, c: Client, name: string, args: string)
    requires Ready(server, reader, c)
    ensures var after := Called(server, reader, c, name, args).client;
            && Ready(server, reader, after) && (Deleted(after.log) <==> Deleted(c.log))
            && Assigned(server, after.log) == Assigned(server, c.log)
  {
    var body := ToolCall(c.nextId, name, args);
    var next := c.(nextId := c.nextId + 1);
    SentAgrees(server, reader, c, Post, body);
    var log := Sent(next, Post, body).log;
    assert log == Sent(c, Post, body).log;
    SessionStays(next, server(log));
    PrefixStays(c.log, Message(Post, body, HeadersOf(c)), 2);
    var after := Called(server, reader, c, name, args).client;
    assert after == Client(c.session, c.version, c.nextId + 1, log);
  }

  /**
   * Against any server, whatever is called after a connection and in whatever order, everything sent is in
   * its place; and the session the server gave is deleted exactly when the client was closed.
   */
  lemma EveryRunIsWellRun(server: Server, reader: Reader, ops: seq<Op>)
    requires Connected(server, reader).result.Ok?
    ensures var c := After(server, reader, Connected(server, reader).client, ops);
            && Ready(server, reader, c) && WellRun(server, reader, c.log)
            && Assigned(server, c.log) == Assigned(server, Connected(server, reader).client.log)
            && (Deleted(c.log) <==> Close in ops && Assigned(server, c.log).Some?)
  {
    ConnectKeeps(server, reader);
    RunKeeps(server, reader, Connected(server, reader).client, ops);
  }

  lemma {:induction false} RunKeeps(server: Server, reader: Reader, start: Client, ops: seq<Op>)
    requires Ready(server, reader, start) && !Deleted(start.log)
    ensures Kept(server, reader, start, Close in ops, After(server, reader, start, ops))
  {
    if ops != [] {
      var rest, last := ops[..|ops| - 1], ops[|ops| - 1];
      assert ops == rest + [last];
      RunKeeps(server, reader, start, rest);
      var before := After(server, reader, start, rest);
      OneOpKeeps(server, reader, before, last);
    }
  }

  /** Still ready, with the same session, and deleted exactly if it was closed and had one. */
  predicate Kept(server: Server, reader: Reader, start: Client, closed: bool, c: Client)
    requires start.log != []
  {
    && Ready(server, reader, c)
    && Assigned(server, c.log) == Assigned(server, start.log)
    && (Deleted(c.log) <==> closed && Assigned(server, c.log).Some?)
  }

  function AfterOp(server: Server, reader: Reader, c: Client, op: Op): Client {
    match op
    case Call(name, args) => Called(server, reader, c, name, args).client
    case Close => Ended(c)
  }

  lemma OneOpKeeps(server: Server, reader: Reader, c: Client, op: Op)
    requires Ready(server, reader, c)
    ensures var after := AfterOp(server, reader, c, op);
            && Ready(server, reader, after) && Assigned(server, after.log) == Assigned(server, c.log)
            && (Deleted(after.log) <==> Deleted(c.log) || (op == Close && Assigned(server, c.log).Some?))
  {
    match op
    case Call(name, args) => CallKeeps(server, reader, c, name, args);
    case Close =>
      EndedAgrees(server, reader, c);
      if Deleted(c.log) {
        DeletionHasASession(server, reader, c.log);
      }
  }

  /** No session is deleted twice, and once it is nothing sent names it. */
  lemma AtMostOneDeletion(server: Server, reader: Reader, log: seq<Message>, i: nat, j: nat)
    requires WellRun(server, reader, log) && 0 < i < j < |log| && log[i].verb == Delete
    ensures log[j].verb != Delete && log[j].headers.session == None
    ensures Some(log[i].headers.session) == Some(Assigned(server, log)) && Assigned(server, log).Some?
  {
    assert InPlace(server, reader, log, i) && InPlace(server, reader, log, j);
    assert log[..j][i].verb == Delete;
  }
}
