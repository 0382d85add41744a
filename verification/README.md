# A verified model of aoide's doors, followed children, mail notes and asks

Dafny models of the parts of the repository that hold state across steps or print text
that must be read back, with proofs of what their documentation and tests promise.
`dafny verify dfyconfig.toml` checks everything.

- **Doors** (`DoorShared`, `DoorAsks`, `DoorScript`, `DoorProtocol`, `DoorCalls`, `DoorSafety`,
  `DoorTrace`, `DoorTheorems`). A door's caller and its watch thread share one locked record. A step is
  one critical section, or one answer of the outside world; steps interleave freely. The
  record is a class whose methods are proved equal to the functions the protocol
  interleaves. The theorems hold in every reachable state or over every run;
  a call's results are told by the log of what it read and was answered, and what the watch learned by the
  answers of its run.
- **Followed children** (`LineReader`, `Room`). The chunked line reader against the split of
  the whole stream, and the byte-budgeted queue between it and its follower.
- **Command lines** (`Argv`). What the app prints for a call, and aoide's own parser reading it.
- **Mail notes** (`Mail`, `MailYaml`, `MailFence`, `MailThreads`, `MailNote`, `MailExport`).
  Grouping, collapsing, printing and writing; against readers of YAML scalars and of
  CommonMark's fenced code that are written here from those standards.
- **Asks** (`Asks`, `AskAnswer`, `AskWatch`). The window's record, the page that mirrors it,
  the answers, and the watch that feeds both.
- **MCP session** (`McpSession`). The client against a server that answers by everything it
  was ever sent.
- **Session forest** (`Forest`, `ForestLayout`), **braille chart** (`Braille`) and **base64**
  (`Base64`). `Common` holds what several of them share.

## Where the code and its own words differ

The models follow the code. Each difference has a lemma that says exactly when the words hold.

- `doors.rs:1075-1079` says a new stream's turn is unknown. It is, exactly when no cancel's
  "idle" was written since the last stream ended (`DoorTheorems.NewStreamsTurn`,
  `DoorTheorems.NewStreamCanStartIdle`).
- `doors.rs:120-124` says `Exited` means SIGTERM was sent. It does, exactly when the signal
  did not find the door already gone (`DoorTheorems.SignalSafety`,
  `DoorTheorems.ExitedCanBeUnsent`).
- `exec/src/lib.rs:361-364` says that on success the command aoide runs is the one called.
  It is, exactly when the called words do not begin with an alias (`Argv.RunsTheCalled`); and
  `parse_with` reads the line back exactly when words and positionals together do not, no
  positionals go to a command that takes none, and no flag is a bare `help`, a bare one
  without a name, or one whose name holds `=` (`Argv.LineReadsBack`;
  `Argv.StrayPositionalIsRefused`, `Argv.HelpFlagIsRefused`, `Argv.AliasedCommandIsLost`,
  `Argv.AliasedPositionalIsChanged`). Over a schema that declares no path spelled like an
  alias's start the alias case cannot arise (`Argv.WithoutAliasLineReadsBack`); the commands
  the repository itself declares are such (`client/src/commands.rs:2158-2270`).
- `exec/src/lib.rs:692` calls `rest` the events from `end` on. It is all of them exactly when
  they fit its budget, or all but one last mark does (`Room.RestIsAllIff`). What does not fit
  leaves one mark with its bytes, and empty lines leave none (`Room.SpilledLeavesAMark`,
  `Room.EmptyLinesVanish`).
- `charter.rs:474-476` says a malformed body is an error. It is, exactly when a character
  that is neither of the alphabet nor a line break stands before the first `=`
  (`Base64.Decode`, `Base64.TakesTheMalformed`).
- `window.rs:191-194` says the window keeps each ask it pushes. While the watch runs it does,
  and the page shows what the record holds but for asks another door reported removed, or the
  end (`Asks.PageMirrorsTheRecord`, `Asks.RecordHidesIff`). What the watch prints while it
  closes is pushed and not kept, and then page and record agree exactly when every ask was
  reported gone or the end was told (`AskWatch.AfterTheReader`, `AskWatch.LateAskStays`).

## Model

| member | source | states |
|---|---|---|
| DoorTheorems.SignalSafety | pkgs/aoide-desktop/crates/shell/src/doors.rs:652-697 | in every run of a door's caller and watch, a call signals only right after a check that held and then a lock that saw the turn idle and set `closing`; it signals at most once; any answer but an error, `Exited` and `StillLive` means nothing was signalled; `StillLive` means a signal was sent; and `Exited` means so exactly when the signal did not find the door already gone |
| DoorTheorems.ClosingIsSetIdle | pkgs/aoide-desktop/crates/shell/src/doors.rs:667-678 | the only step that sets `closing` is the close's own lock on an idle turn, and it takes the stream's closer and fires it |
| DoorTheorems.ClosersAndFlags | pkgs/aoide-desktop/crates/shell/src/doors.rs:906-930 | whenever the lock is free: `closing` or `stop` means no closer is stored; the stream being read has its closer stored unless it was fired; between calls a watch in the map is not `closing`, and its thread is not held; a watch is out of the map exactly when it is stopped |
| DoorTheorems.CallProgresses | pkgs/aoide-desktop/crates/shell/src/doors.rs:529-717 | a call in progress is never stuck, and each step it takes brings its return nearer, whatever the outside answers |
| DoorTheorems.CallReturns | pkgs/aoide-desktop/crates/shell/src/doors.rs:529-717 | every run that gives the caller as many steps as its rank passes through the call's return; what it returns is told by `CallsAreTold` |
| DoorTheorems.CallsAreTold | pkgs/aoide-desktop/crates/shell/src/doors.rs:112-150 | in every run each call answers each result exactly when its own lock readings and outside answers call for it: `Revoked` when it read no mark, `NoTurnEnd` when its wait saw another turn, `Busy`, `Armed` and `StaysArmed` by the turn its close's lock saw, `StillLive` when the exit was not seen, `Dropped` and `Exited` by its check once the record was removed, and every error by its own cause |
| DoorTheorems.DueClosesOnlyMarked | pkgs/aoide-desktop/crates/shell/src/doors.rs:558-574 | in every run `close_due` signals only a door whose mark it read standing, and answers `Revoked` exactly when it read none |
| DoorTheorems.StopFollowsTheCancel | pkgs/aoide-desktop/crates/shell/src/doors.rs:576-606 | in every run a stop sends its cancel only after a check that held, notes the turn idle exactly when the cancel was answered idle, closes only after that, after a wait that saw the turn end, or after a check that did not hold, and answers `NoTurnEnd` exactly when the cancel was taken and the wait saw another turn |
| DoorTheorems.CallSaysWhatItSaw | pkgs/aoide-desktop/crates/shell/src/doors.rs:529-717 | each step of a call adds to its log exactly what its lock read or the outside answered, so the log the results are told by is true; and the caller writes the turn only when a cancel was answered idle |
| DoorTrace.WatchFollowsItsAnswers | pkgs/aoide-desktop/crates/shell/src/doors.rs:984-1202 | over every run's own steps: the frames the watch has seen are the frames its streams gave, in order, less the one in hand or the one read as it was stopped; the door is learned gone, and its record forgotten, only if the pidfd's last word was that it does not live; a reconnect is tried only if that word was that it lives; the record is dropped only for an identity that failed; every other failed reconnect is learned of; the thread leaves only when it is stopped or after one of those two farewells; what it sent is what the channel took until it was stopped; and no stream it opens has a closer that was fired before |
| DoorTheorems.HoldIsReleased | pkgs/aoide-desktop/crates/shell/src/doors.rs:1103-1109 | a thread is held exactly while `closing` stands on a watch that is not stopped; it then waits only for a call that took an idle turn, and once that call returns the hold can end |
| DoorTheorems.DeliveriesArePrefix | pkgs/aoide-desktop/crates/shell/src/doors.rs:1186-1202 | what the channel received from a watch is a prefix of what it asked to deliver, under any pattern of full-channel retries; while it is not stopped and the receiver lives, all of it but what is in hand |
| DoorTheorems.NothingAfterDetach | pkgs/aoide-desktop/crates/shell/src/doors.rs:875-896 | once `detach` has set `stop`, nothing more is received, however long the run goes on |
| DoorTheorems.DetachEndsTheThread | pkgs/aoide-desktop/crates/shell/src/doors.rs:984-1005 | a stopped thread is never stuck and marks itself ended after a bounded number of its own steps |
| DoorTheorems.MarkAccounting | pkgs/aoide-desktop/crates/shell/src/doors.rs:1080-1097 | over whole runs the mark's rises and falls alternate, and each, told by the program point of the step that made it, is one of these: a rise by `close_after_turn` under a lock that saw `Running`; a fall by `revoke`, by a still-live close, or by the end of a stream no close held, and for each of the last exactly one `Revoked` event is asked for; `CloseDue` only with the end of a turn seen while armed |
| DoorTheorems.AsksAreTheStreams | pkgs/aoide-desktop/crates/shell/src/doors.rs:1016-1072 | in every run, past a stream's first lock the pending asks are the bounded fold of that stream's frames; the frames asked to be forwarded since it began are its frames in order but for exactly the refused asks, so every pending ask is among them; and the overflow notices are the first refused id, once, or none |
| DoorTheorems.IdleIsTheDoorsWord | pkgs/aoide-desktop/crates/shell/src/doors.rs:586-606 | a close takes the turn as idle only on the door's word: its stream's last turn frame, or a cancel answered as idle since |
| DoorTheorems.NewStreamsTurn | pkgs/aoide-desktop/crates/shell/src/doors.rs:1075-1086 | a new stream starts with the turn `Unknown` exactly when no cancel's answer was written since the last stream ended (the comment says always) |
| DoorTheorems.NewStreamCanStartIdle | pkgs/aoide-desktop/crates/shell/src/doors.rs:592-596 | a run in which a new stream starts `Idle` |
| DoorAsks.PendingIffCarried | pkgs/aoide-desktop/crates/shell/src/doors.rs:1053-1068 | an ask is pending exactly when a frame of the stream carried it, was not refused, and no later frame named its id |
| DoorAsks.PendingIsBounded | pkgs/aoide-desktop/crates/shell/src/doors.rs:55 | at most 64 asks are ever pending |
| DoorAsks.FirstRefusalReportedOnce | pkgs/aoide-desktop/crates/shell/src/doors.rs:1058-1063 | a stream that refused asks reports the first refused id and no other, once; any other stream reports none |
| DoorAsks.PendingIsOpen | pkgs/aoide-desktop/crates/shell/src/doors.rs:1044-1072 | none is refused exactly when the asks opened and not settled never pass the bound, and then the pending asks are exactly those |
| DoorScript.StreamReports | pkgs/aoide-desktop/crates/shell/src/doors.rs:1016-1040 | the overflow notices delivered for one stream are the fold's reports |
| DoorSafety.RunsKeepInv | pkgs/aoide-desktop/crates/shell/src/doors.rs:529-717 | the protocol's invariant on closers, flags, deliveries, asks, turn, calls, marks and reports survives every interleaving |
| DoorShared.Link.TakeForClose | pkgs/aoide-desktop/crates/shell/src/doors.rs:667-678 | the close's lock as an update in place: taken exactly when idle, else nothing changes but a mark set for a running turn |
| DoorShared.Link.ObserveFrame | pkgs/aoide-desktop/crates/shell/src/doors.rs:1044-1072 | `observe` as an update in place |
| DoorShared.Link.CloseStream | pkgs/aoide-desktop/crates/shell/src/doors.rs:1080-1092 | `end_stream`'s lock as an update in place |
| DoorShared.Link.StoreCloser | pkgs/aoide-desktop/crates/shell/src/doors.rs:1134-1143 | `reconnect`'s lock as an update in place: no closer is stored for a stopped or held watch |
| LineReader.ReadLines | pkgs/aoide-desktop/crates/exec/src/lib.rs:847-873 | whatever the reads, interrupts and errors, the events sent are those of the pipe's whole bytes, up to the queue's close |
| LineReader.EventsTellTheLines | pkgs/aoide-desktop/crates/exec/src/lib.rs:847-892 | the events of a pipe by nothing but the lines its bytes are made of: one for each line a newline ends and one for a last line that is not empty, unless the pipe failed; each is the line itself up to 1 MiB, and above that its exact length |
| LineReader.PipeEndsThere | pkgs/aoide-desktop/crates/exec/src/lib.rs:850-858 | a pipe gives what was read before its first empty read or error, interrupted reads aside, and fails exactly for an error |
| LineReader.CuttingDoesNotMatter | pkgs/aoide-desktop/crates/exec/src/lib.rs:847-873 | two ways of cutting one stream into reads give the same events |
| LineReader.SplitJoins | pkgs/aoide-desktop/crates/exec/src/lib.rs:860-868 | the lines and the unfinished rest join back to the stream and hold no newline |
| LineReader.JoinSplits | pkgs/aoide-desktop/crates/exec/src/lib.rs:860-868 | no other lines and rest do: lines without newlines are the split of what they join to |
| LineReader.WithinCapIsVerbatim | pkgs/aoide-desktop/crates/exec/src/lib.rs:883-892 | a stream whose lines are within the cap is read verbatim, an empty last segment as nothing |
| LineReader.LineBuffer.Absorb | pkgs/aoide-desktop/crates/exec/src/lib.rs:876-880 | the buffer counts every byte and keeps the first `LINE_CAP` of them |
| LineReader.LineBuffer.TakeLine | pkgs/aoide-desktop/crates/exec/src/lib.rs:883-892 | a line up to the cap comes whole, a longer one as its exact length |
| Room.BytesAreAccounted | pkgs/aoide-desktop/crates/exec/src/lib.rs:607-661 | over every interleaving of reader and follower the room's bytes are the lengths of the lines, and 64 for each event, of what is queued, reserved and unsent, or taken and unreleased (and, once the follow has ended, of what it will never release); they never pass 8 MiB; a release never saturates |
| Room.ReservedFits | pkgs/aoide-desktop/crates/exec/src/lib.rs:598-633 | at every moment the lines queued, held and unreleased, by their own lengths and 64 for each event, fit 8 MiB, and a reader waits exactly when with its own event they would not, while the room is open |
| Room.WaitingIsNoDeadlock | pkgs/aoide-desktop/crates/exec/src/lib.rs:623-633 | a reader waiting for room always leaves the follower a step |
| Room.ReaderMoves | pkgs/aoide-desktop/crates/exec/src/lib.rs:623-661 | a reader that is not over always has a step to take, unless it waits for room that is open and that its event's length and 64 would overfill |
| Room.ClosedEndsTheReader | pkgs/aoide-desktop/crates/exec/src/lib.rs:623-661 | once the room is closed its reader is never stuck and is over after a bounded number of its own steps |
| Room.EndsCloseTheRoom | pkgs/aoide-desktop/crates/exec/src/lib.rs:716-770 | a follow that is dropped closes the room at once, and one that ends closes it once its bound is out |
| Room.GoneEndsTheLines | pkgs/aoide-desktop/crates/exec/src/lib.rs:655-661 | a send whose follower is gone ends the lines, and the reader then tries its `Eof` once |
| Room.NextReturnsAPrefix | pkgs/aoide-desktop/crates/exec/src/lib.rs:703-713 | what `next` returned is a prefix of what the reader produced; an end made up for a finished reader comes only after the real one |
| Room.EndsAreCounted | pkgs/aoide-desktop/crates/exec/src/lib.rs:703-713 | an end is made up each time the reader is found over with nothing queued, and never else |
| Room.PipeIsScript | pkgs/aoide-desktop/crates/exec/src/lib.rs:811-814 | a pipe's lines and then `Eof` are such a production, each event within the budget |
| Room.RoomState.LookToReserve | pkgs/aoide-desktop/crates/exec/src/lib.rs:623-633 | one look of `reserve`, as an update in place |
| Room.RoomState.Release | pkgs/aoide-desktop/crates/exec/src/lib.rs:635-639 | `release`, as an update in place |
| Room.CollectRest | pkgs/aoide-desktop/crates/exec/src/lib.rs:722-742 | `end`'s loop keeps each drained event that still fits and counts the bytes of the others |
| Room.RestConservesBytes | pkgs/aoide-desktop/crates/exec/src/lib.rs:731-742 | `end` conserves the bytes of lines and marks, keeps within 8 MiB by the lines' own lengths and 64 an event, and loses nothing that fits |
| Room.KeepsWhatFits | pkgs/aoide-desktop/crates/exec/src/lib.rs:726-738 | `end` keeps, one event after the other, each that with those kept fits 8 MiB by its own length and 64, and no other |
| Room.SpilledLeavesAMark | pkgs/aoide-desktop/crates/exec/src/lib.rs:740-742 | what does not fit leaves its one mark exactly when it carried bytes |
| Room.EmptyLinesVanish | pkgs/aoide-desktop/crates/exec/src/lib.rs:731-742 | more empty lines than the budget holds are lost without a trace |
| Argv.Argv | pkgs/aoide-desktop/crates/exec/src/lib.rs:292-355 | exactly the printable calls are printed, each as its line, and any other is refused with what is wrong with it |
| Argv.LineIsWritten | pkgs/aoide-desktop/crates/exec/src/lib.rs:336-355 | a line is the words, `--json`, each flag as `--name=value` or bare, and the positionals after a bare `--` |
| Argv.PrintableMeans | pkgs/aoide-desktop/crates/exec/src/lib.rs:292-378 | a call is printed exactly when it holds no NUL, its words are a declared path and no longer one begins its words and positionals, every flag is declared and bare exactly if it is a `bool`, and every required argument is given |
| Argv.RefusalMeans | pkgs/aoide-desktop/crates/exec/src/lib.rs:292-378 | what each refusal names is there: the longer path, the undeclared flag, the bare flag given a value, the flag given none, the missing argument |
| Argv.FlagTakesNext | pkgs/aoide/crates/protocol/src/door.rs:155-204 | a flag written apart from what follows it: a `bool` never takes it, one declared both ways is refused, so is one a path could go on with, and any other has it for its value |
| Argv.ReadFlagsAreKnown | pkgs/aoide/crates/protocol/src/door.rs:385-420 | a call that is read has no flag but its command's own, `json` and `audit-log` |
| Argv.RunsTheCalled | pkgs/aoide-desktop/crates/exec/src/lib.rs:365-379 | the command the rewritten line resolves to is the one called exactly when the called words do not begin with an alias |
| Argv.LineReadsBack | pkgs/aoide/crates/protocol/src/door.rs:122-299 | a printed line reads back in aoide's own parser as the same words, positionals and flags, even when positionals look like flags, `--` or path words, exactly when no flag is cut at a `=`, nameless and bare, or a bare `help`, words and positionals together do not begin with an alias, and a command that takes no arguments got none |
| Argv.FlagIsRead | pkgs/aoide/crates/protocol/src/door.rs:151-204 | one printed flag is read as itself whatever other commands declare its name to be |
| Argv.LineSplits | pkgs/aoide/crates/protocol/src/door.rs:135-209 | the parser's flag loop gives back the words and positionals in order, and the flags |
| MailYaml.YamlQuote | pkgs/aoide/crates/client/src/mail_export.rs:107-123 | the quoting loop writes the quoted form, for every text |
| MailYaml.QuoteReadsBack | pkgs/aoide/crates/client/src/mail_export.rs:107-123 | a reader of double-quoted scalars (sections 5.7 and 7.3.1 of YAML 1.2.2) gets back exactly the quoted text, whatever follows it |
| MailYaml.QuoteIsOneLine | pkgs/aoide/crates/client/src/mail_export.rs:107-123 | a quoted text holds no control character, so no raw line break |
| MailYaml.ListReadsBack | pkgs/aoide/crates/client/src/mail_export.rs:225 | the participants' flow sequence reads back as its values |
| MailFence.Fence | pkgs/aoide/crates/client/src/mail_export.rs:144-152 | the fence is one longer than the longest backtick run, three at least |
| MailFence.LongestRunIs | pkgs/aoide/crates/client/src/mail_export.rs:144-152 | the run length is the longest: some run has it and none is longer |
| MailFence.FencedTextIsOneBlock | pkgs/aoide/crates/client/src/mail_export.rs:249 | a scanner of fenced code (section 4.5 of CommonMark 0.31.2) reads a fenced text as one block whose content is that text, for every text |
| MailFence.PlainLinesHoldNoBlock | pkgs/aoide/crates/client/src/mail_export.rs:220-240 | lines that begin with no mark or space open no block |
| MailNote.Note | pkgs/aoide/crates/client/src/mail_export.rs:199-252 | the note is its frontmatter, title and blocks, written in that order |
| MailNote.NoteHoldsTheBodies | pkgs/aoide/crates/client/src/mail_export.rs:199-252 | a CommonMark fenced-code scanner finds in a note exactly one text for each block, in order, and it is what every letter of the block says: a structured letter's decoded body, any other letter's text as it is, whatever the letters carry |
| MailNote.FrontReadsBack | pkgs/aoide/crates/client/src/mail_export.rs:219-229 | a reader of the frontmatter gets back the key, the first letter's decoded subject (or that it has none), the node, exactly everyone the letters are from or to in ascending order, the first and last letters' times, and the number of fenced blocks that follow |
| MailNote.HeadingTells | pkgs/aoide/crates/client/src/mail_export.rs:232-241 | a block's heading tells the least time its copies were received at, their sender, and the recipients a structured letter itself names or the envelope's if it is not one |
| MailNote.TitleTells | pkgs/aoide/crates/client/src/mail_export.rs:219-230 | the title is the subject of the frontmatter, on one line |
| MailNote.SingleLineIs | pkgs/aoide/crates/client/src/mail_export.rs:99-103 | a text put on one line loses exactly its carriage returns, newlines and escapes |
| MailNote.HeadingIsPlain | pkgs/aoide/crates/client/src/mail_export.rs:233-240 | no address or time of a letter can start a line |
| MailNote.SingleLineIsOneLine | pkgs/aoide/crates/client/src/mail_export.rs:101-103 | a clamped field holds no line break and no escape |
| MailNote.ParticipantsAreEveryone | pkgs/aoide/crates/client/src/mail_export.rs:207-213 | the participants are exactly the senders and recipients of the thread's letters, once each and in order |
| MailNote.EarliestIsLeast | pkgs/aoide/crates/client/src/mail_export.rs:236 | a block's heading shows the least time its copies were received at |
| MailThreads.Threads | pkgs/aoide/crates/client/src/mail_export.rs:83-97 | one pass and a sort per group give the threads of the letters |
| MailThreads.ThreadsPartitionTheLetters | pkgs/aoide/crates/client/src/mail_export.rs:83-97 | the threads are in key order, one a key and none empty; each holds exactly the letters of its thread id, or of its message id for a letter that is not structured or has none, in `seq` order and, within one `seq`, as the base has them |
| MailThreads.LessIsByCharacter | pkgs/aoide/crates/client/src/mail_export.rs:84-97 | the order of keys and participants is by the first character that differs, or by which text ends first |
| MailThreads.BySeqIsStable | pkgs/aoide/crates/client/src/mail_export.rs:93 | sorting keeps, for each `seq`, the letters that carry it and their order |
| MailThreads.StableOrderIsUnique | pkgs/aoide/crates/client/src/mail_export.rs:93 | no other order by `seq` does, so the sorted thread is determined |
| MailThreads.Blocks | pkgs/aoide/crates/client/src/mail_export.rs:179-195 | the loop gives the greedy blocks |
| MailThreads.BlocksAreGreedy | pkgs/aoide/crates/client/src/mail_export.rs:179-195 | the blocks join to the thread; each has consecutive `seq`, one text and sender and distinct mailboxes; and every cut is forced by the next letter |
| MailThreads.GreedyCutIsUnique | pkgs/aoide/crates/client/src/mail_export.rs:179-195 | no other partition of the thread has these properties |
| MailExport.StemIsAName | pkgs/aoide/crates/client/src/mail_export.rs:66-78 | a stem is 16 or 17 characters of digits and lower-case letters |
| MailExport.StemsMeet | pkgs/aoide/crates/client/src/mail_export.rs:66-78 | exactly when two keys name one file |
| MailExport.StemIs | pkgs/aoide/crates/client/src/mail_export.rs:54-78 | a key of 64 hexadecimal digits is named by its first sixteen, and any other by `x` and the first eight bytes of its digest in hexadecimal |
| MailExport.FindStems | pkgs/aoide/crates/client/src/mail_export.rs:261-277 | names are given exactly when they are all different; a refusal names two keys that share one |
| MailExport.Directory.Export | pkgs/aoide/crates/client/src/mail_export.rs:287-309 | a shared name or a directory that cannot be made leaves every file as it was; else the notes are put in place one by one and counted |
| MailExport.EveryNoteIsInPlace | pkgs/aoide/crates/client/src/mail_export.rs:294-308 | every note a run reached is in its own file, `written` and `unchanged` count them, and a run stops only at the note after them |
| MailExport.WritesOnlyItsPaths | pkgs/aoide/crates/client/src/mail_export.rs:294-308 | a run touches no other file, and stops only at one that cannot be put in place |
| MailExport.WritesNothingIff | pkgs/aoide/crates/client/src/mail_export.rs:299-306 | a run writes nothing exactly when every note is already in place and readable |
| MailExport.SecondRunWritesNothing | pkgs/aoide/crates/client/src/mail_export.rs:287-309 | after a run that did not stop, a second one writes nothing exactly when the notes can be read |
| MailExport.LaterRunCompletes | pkgs/aoide/crates/client/src/mail_export.rs:287-309 | a run that stopped half way is completed by a later one, to the files it would have left |
| MailExport.ExportHoldsEveryThread | pkgs/aoide/crates/client/src/mail_export.rs:287-309 | after an export that did not stop, each thread's file gives its frontmatter back and, for each of its blocks, the words of every letter in it and nothing else |
| MailExport.ExportLosesNoLetter | pkgs/aoide/crates/client/src/mail_export.rs:287-312 | after an export that did not stop, every letter of the base is a fenced block of the file its thread id, or its message id, names |
| Asks.PageMirrorsTheRecord | pkgs/aoide-desktop/crates/app/src/window.rs:303-315 | for every sequence of changes, folding it through `keep` and through `ask_wire` and `onAskPush` leaves the page showing only asks the record holds, each as its view; the record has one ask a key, and the page keeps no session without one |
| Asks.KeepKeepsOnePerKey | pkgs/aoide-desktop/crates/app/src/window.rs:303-315 | one change keeps at most one ask a key: an added ask replaces the one it had, a removal drops only the reporting door's |
| Asks.FindAfterKeep | pkgs/aoide-desktop/crates/app/src/window.rs:279-283 | what an answer looks up after a change, key by key |
| Asks.Page.OnAskPush | pkgs/aoide-desktop/ui/chat.js:135-167 | the page's nested map, updated in place |
| Asks.AtAfterPush | pkgs/aoide-desktop/crates/app/src/wire.rs:51-59 | what the page shows after a pushed change, key by key |
| Asks.PageShowsIff | pkgs/aoide-desktop/ui/chat.js:135-167 | the page shows an ask exactly when its key's last word in the changes put it there: no removal by any door and no end since |
| Asks.OtherDoorHidesAnAsk | pkgs/aoide-desktop/crates/app/src/window.rs:310-312 | a removal reported by another door takes the ask off the page and leaves it in the record |
| Asks.HexReadsBack | pkgs/aoide-desktop/crates/shell/src/asks.rs:191-206 | a digest shown in hexadecimal is read back as it was |
| Asks.HexIsTheOnlyText | pkgs/aoide-desktop/crates/shell/src/asks.rs:196-206 | no other text reads as it |
| Asks.Unhex | pkgs/aoide-desktop/crates/shell/src/asks.rs:196-206 | exactly 64 lower-case digits are read, byte by byte |
| Asks.DialogTells | pkgs/aoide-desktop/crates/shell/src/asks.rs:50-69 | a yes on an approval, and nothing else, shows the whole call as it is spelled, under the digest of that; it is over the confirm's cap exactly when the spelling takes more than 4096 bytes of UTF-8 or has more than 60 lines |
| Asks.LineCountIs | pkgs/aoide-desktop/crates/shell/src/asks.rs:65 | a text has the lines it is made of, and one more if something follows its last newline |
| Asks.ViewTells | pkgs/aoide-desktop/crates/shell/src/asks.rs:161-192 | what the page is shown of an ask: its own words and labels, and of an approval the whole call, its digest and whether it is over the cap |
| AskAnswer.Window.Answer | pkgs/aoide-desktop/crates/app/src/window.rs:247-276 | `ask_answer` up to the command it runs |
| AskAnswer.Window.Keep | pkgs/aoide-desktop/crates/app/src/window.rs:303-315 | `keep`, as an update in place |
| AskAnswer.AnswerRunsIff | pkgs/aoide-desktop/crates/app/src/window.rs:247-276 | an answer runs exactly when the record holds the ask, the ask offers it, and a yes on an approval was given on that record's own call (by the native confirm within its cap, under its digest above it); it then names the record's ask and fingerprint |
| AskAnswer.PermitsIff | pkgs/aoide-desktop/crates/shell/src/asks.rs:122-137 | an answer goes exactly when nothing had to be shown and nothing was, or what was shown is the dialog as it is now, on the confirm only within its cap |
| AskAnswer.EveryButtonWorks | pkgs/aoide-desktop/ui/chat.js:98-124 | whatever the watch said, every button the page draws is one the record takes, under the fingerprint the page shows |
| AskAnswer.StaleYesIsRefused | pkgs/aoide-desktop/crates/shell/src/asks.rs:109-119 | a pane's yes on a call the record no longer holds is refused, unless the calls share a digest |
| AskWatch.Watch.Next | pkgs/aoide-desktop/crates/shell/src/asks.rs:321-335 | `next` gives the next thing the stream says, passing over blank lines, and loses nothing when time runs out |
| AskWatch.Watch.Close | pkgs/aoide-desktop/crates/shell/src/asks.rs:339-350 | `close` gives what the rest says through its first end |
| AskWatch.EndIsLast | pkgs/aoide-desktop/crates/shell/src/asks.rs:337-350 | nothing is said after an end |
| AskWatch.SaysWhatIsHeard | pkgs/aoide-desktop/crates/shell/src/asks.rs:283-293 | until its end the watch says just what its lines do: each that is not blank as it reads, and of one past the cap its length |
| AskWatch.SaysItEnded | pkgs/aoide-desktop/crates/shell/src/asks.rs:283-350 | and then that it ended, whatever else comes |
| AskWatch.Reader | pkgs/aoide-desktop/crates/app/src/window.rs:203-222 | the reader's whole run: what it kept is a prefix of what the watch said, the page was told that and then what the close gave, and the record ends empty |
| AskWatch.AfterTheReader | pkgs/aoide-desktop/crates/app/src/window.rs:214-219 | once the reader is over the page still mirrors the record exactly when every ask it was told of was reported gone or the end was told |
| AskWatch.LateAskStays | pkgs/aoide-desktop/crates/app/src/window.rs:214-219 | an ask told of only while the watch closed stays on the page, and no answer to it runs |
| McpSession.EveryRunIsWellRun | pkgs/aoide/crates/client/src/mcp_client.rs:801-896 | against any server, after any calls and closes everything sent is in its place: initialization first with no session or version, then the notification, no tool call unless the version was settled and the notification acknowledged, the given session on every later message until its deletion, ids 1, 2, 3; and the session is deleted exactly if the client was closed and had one |
| McpSession.ConnectKeeps | pkgs/aoide/crates/client/src/mcp_client.rs:803-827 | a connection that fails deletes exactly the session it was given and sent no tool call; one that is made has a settled version and an acknowledged notification |
| McpSession.AtMostOneDeletion | pkgs/aoide/crates/client/src/mcp_client.rs:840-850 | no session is deleted twice, the deletion names the given session, and nothing after it names any |
| McpSession.CallKeeps | pkgs/aoide/crates/client/src/mcp_client.rs:890-896 | a call keeps the client ready and deletes nothing, whatever the answer |
| McpSession.McpSession.Exchange | pkgs/aoide/crates/client/src/mcp_client.rs:852-880 | `exchange`, as an update in place |
| McpSession.AnswerIsTaken | pkgs/aoide/crates/client/src/mcp_client.rs:852-880 | an answer is taken exactly when it is a success that names no session, or one printable one that is the client's, or its first while no version is settled; and then the client has it |
| McpSession.RefusalIsTold | pkgs/aoide/crates/client/src/mcp_client.rs:852-880 | why an answer is not taken: the first of what can be wrong with it |
| McpSession.McpSession.Connect | pkgs/aoide/crates/client/src/mcp_client.rs:803-810 | `connect` on a fresh client |
| McpSession.McpSession.Close | pkgs/aoide/crates/client/src/mcp_client.rs:840-850 | `close`, as an update in place; nothing is sent exactly when there is no session |
| McpSession.McpSession.MnemeRpc | pkgs/aoide/crates/client/src/mcp_client.rs:890-895 | `mneme_rpc`, as an update in place |
| McpSession.CallReadsItsOwnReply | pkgs/aoide/crates/client/src/mcp_client.rs:882-896 | a call posts its own id, name and arguments, and answers with a text exactly when the server's answer to that post is taken, is a 200, and holds under that id a reply whose text it is |
| McpSession.VersionIsSettled | pkgs/aoide/crates/client/src/mcp_client.rs:812-825 | the version is settled by the server's answer to the first message: taken, a 200, with a reply under id 1 that names one of three versions |
| McpSession.AcknowledgedIs | pkgs/aoide/crates/client/src/mcp_client.rs:821-826 | the notification is acknowledged by a 202 whose body is white space |
| Forest.RootIn | rices/barcarolle/widgets/Buddy.js:21-25 | `rootIn` ends at the root of a session whose chain of parents ends, which names no other session of the list, and at a session on a cycle otherwise |
| Forest.ParentIsNamed | rices/barcarolle/widgets/Buddy.js:17-20 | a session's parent is exactly the other session of the list whose id it names |
| Forest.PathIsTheChain | rices/barcarolle/widgets/Buddy.js:21-25 | a session's chain of parents ends exactly when there is a chain of sessions, each named by id by the next, from one that names no other down to it; and that chain is the one the forest is drawn by |
| Forest.RankIsPlace | rices/barcarolle/widgets/Buddy.js:3-10 | states rank awaiting, working, stopped, idle, done, and any other after these |
| Forest.CyclesHaveNoRoot | rices/barcarolle/widgets/Buddy.js:21-25 | a session whose chain meets a cycle has no root |
| Forest.FlattenIs | rices/barcarolle/widgets/Buddy.js:102-109 | flattening a session gives itself and everything below it, each once, in preorder |
| Forest.FlattenMarksSubs | rices/barcarolle/widgets/Buddy.js:102-109 | the items drawn as sub-sessions are the ones with a parent |
| ForestLayout.GroupsHoldTheForest | rices/barcarolle/widgets/Buddy.js:96-125 | the groups come in order; a session is in one exactly when its chain of parents ends, then in its root's and no other; within a group it is preorder with siblings by rank and then as they came |
| ForestLayout.PreorderHasNoTwice | rices/barcarolle/widgets/Buddy.js:102-109 | in preorder no session comes twice |
| ForestLayout.RowsAreTheRooted | rices/barcarolle/widgets/Buddy.js:122-160 | a session has a row exactly when its chain of parents ends and its root's group is not collapsed |
| ForestLayout.Build | rices/barcarolle/widgets/Buddy.js:89-162 | headers and rows are those of the groups, in order, with heights 26, 37 and for an awaiting session 69, and tile the height (`SubsFollowTheirParents`, `RowsAreThoseThatEnd` and `SiblingsAreByState` say by the sessions' ids which rows those are) |
| ForestLayout.SubsFollowTheirParents | rices/barcarolle/widgets/Buddy.js:17-160 | a row is drawn as a sub-session exactly when its session names another of the list by id as its parent, and then that parent's row stands before it in the same group with only sessions that lead down from that parent between them |
| ForestLayout.RowsAreThoseThatEnd | rices/barcarolle/widgets/Buddy.js:89-160 | a session has a row exactly when parents named by id lead up from it to one that names none, whose group (the workspace of its window, or elsewhere) is open; and its row is in that group |
| ForestLayout.SiblingsAreByState | rices/barcarolle/widgets/Buddy.js:99-133 | sessions of one parent, and roots of one group, are drawn by state and then as they came |
| ForestLayout.GroupsComeByNumber | rices/barcarolle/widgets/Buddy.js:121-125 | workspaces come by their numbers, and everything else last |
| ForestLayout.FindGroups | rices/barcarolle/widgets/Buddy.js:90-125 | the maps and loops of `build` give those groups |
| ForestLayout.OneBlockCovers | rices/barcarolle/widgets/Buddy.js:121-160 | every height from 0 to the whole is in exactly one header or row |
| ForestLayout.GroupOf | rices/barcarolle/widgets/Buddy.js:30-33 | `groupOf` is the group of the root; of a session whose chain of parents does not end, the group of a session on the cycle the chain meets |
| Braille.BrailleLines | rices/cadenza/widgets/Kit.js:184-217 | every cell is a braille pattern, and decoding the cells gives exactly the curve's dots |
| Braille.DotIsNumbered | rices/cadenza/widgets/Kit.js:197-216 | a dot is drawn as the Unicode pattern that has its braille number, and as no other |
| Braille.RowIsNearest | rices/cadenza/widgets/Kit.js:198-203 | a value is drawn on the row nearest to where it lies in its range, the lower of two as near, so a greater value is drawn no lower |
| Braille.ClampedIs | rices/cadenza/widgets/Kit.js:202 | a row off the grid is drawn on the edge it passes |
| Braille.ValueIsBetween | rices/cadenza/widgets/Kit.js:198-201 | a column's value lies on the line between the two points of the series around its place |
| Braille.RangeIs | rices/cadenza/widgets/Kit.js:190-196 | the range drawn is as given, or from the series' least to its greatest, and an empty one counts as one |
| Braille.Draw | rices/cadenza/widgets/Kit.js:205-212 | the loops set exactly each column's run |
| Braille.CurveHasNoGap | rices/cadenza/widgets/Kit.js:205-212 | each column is one unbroken run that holds its sample, comes within a row of the last column's sample, and lies between the two |
| Braille.EndsAreTheSeries | rices/cadenza/widgets/Kit.js:198-203 | the first and last columns show the first and last values |
| Braille.OwnRangeIsNeverCut | rices/cadenza/widgets/Kit.js:190-203 | a series drawn on its own range is never cut at the grid's edge |
| Base64.Decode | pkgs/aoide/crates/client/src/charter.rs:477-502 | the loop over a register that is never cleared: an error at the first stray character before any `=`, else the whole bytes of the bits carried |
| Base64.LettersAreTheAlphabet | pkgs/aoide/crates/client/src/charter.rs:477-500 | the characters that carry bits are those of RFC 4648's table 1 in its order, and a stray is any other but a line break and `=` |
| Base64.TrimIs | pkgs/aoide/crates/client/src/charter.rs:477-500 | what is trimmed is white space at both ends, and all of it |
| Common.WhiteIsUnicodes | pkgs/aoide/crates/client/src/charter.rs:482 | the white space that is trimmed, or that a body may hold, is Unicode's |
| Base64.HoldsNext | pkgs/aoide/crates/client/src/charter.rs:494-499 | the register's low bits are always exactly the pending bits, though its high ones are not cleared |
| Base64.RoundTrip | pkgs/aoide/crates/client/src/charter.rs:474-502 | the decoder gives back what the encoder (section 4 of RFC 4648) was given, with carriage returns and newlines put in anywhere |
| Base64.Encode | pkgs/aoide/crates/server/src/a2a.rs:4186-4198 | the encoder's loop over chunks of three |
| Base64.EncodedCarries | pkgs/aoide/crates/server/src/a2a.rs:4186-4198 | an encoding carries exactly its bytes' bits, zeroes up to a whole sextet, and no stray character |
| Base64.CarriesOne | pkgs/aoide/crates/client/src/charter.rs:477-502 | a text carries one byte string |
| Base64.WellFormedIffEncodedAgain | pkgs/aoide/crates/client/src/charter.rs:474-476 | whether an accepted text is an encoding at all shows exactly when its bytes are encoded again |
| Base64.TakesTheMalformed | pkgs/aoide/crates/client/src/charter.rs:474-476 | malformed texts the decoder takes |
| DoorTheorems.ExitedCanBeUnsent | pkgs/aoide-desktop/crates/shell/src/doors.rs:119-124 | a run whose close answers `Exited` though its signal found the door already gone (the comment says SIGTERM was sent; `SignalSafety` says exactly when) |
| DoorTheorems.StopEndsSending | pkgs/aoide-desktop/crates/shell/src/doors.rs:1186-1202 | one step of a stopped watch sends nothing and leaves it stopped |
| DoorScript.FaithfulCloseDue | pkgs/aoide-desktop/crates/shell/src/doors.rs:1035-1037 | a close is asked for only with the end of a turn, right after its frame |
| DoorAsks.OverflowedIffRefused | pkgs/aoide-desktop/crates/shell/src/doors.rs:1058-1063 | a stream counts as overflowed exactly when one of its asks was refused |
| DoorShared.Link.ArmIfRunning | pkgs/aoide-desktop/crates/shell/src/doors.rs:531-537 | `close_after_turn`'s first lock |
| DoorShared.Link.Revoke | pkgs/aoide-desktop/crates/shell/src/doors.rs:555-558 | `revoke`'s lock |
| DoorShared.Link.SetIdle | pkgs/aoide-desktop/crates/shell/src/doors.rs:594 | the cancel's answer, written |
| DoorShared.Link.Release | pkgs/aoide-desktop/crates/shell/src/doors.rs:926-929 | `clear_closing` |
| DoorShared.Link.ReleaseStillLive | pkgs/aoide-desktop/crates/shell/src/doors.rs:688-691 | a still-live close's lock |
| DoorShared.Link.Detach | pkgs/aoide-desktop/crates/shell/src/doors.rs:878-884 | `detach`'s first lock |
| DoorShared.Link.BeginStream | pkgs/aoide-desktop/crates/shell/src/doors.rs:1017-1021 | `drain`'s first lock |
| DoorShared.Link.SetGone | pkgs/aoide-desktop/crates/shell/src/doors.rs:1173 | `forget`'s lock |
| DoorShared.Link.SetExited | pkgs/aoide-desktop/crates/shell/src/doors.rs:934-939 | the end of the thread |
| Room.RoomState.Close | pkgs/aoide-desktop/crates/exec/src/lib.rs:641-645 | `close`, as an update in place |
| MailNote.WriteFront | pkgs/aoide/crates/client/src/mail_export.rs:216-230 | the frontmatter and the title, line by line |
| MailNote.WriteBlock | pkgs/aoide/crates/client/src/mail_export.rs:233-249 | one block, with its heading and its fence |
| MailExport.Directory.WriteNotes | pkgs/aoide/crates/client/src/mail_export.rs:294-308 | `export`'s loop over the threads |
| AskAnswer.Window.HeldAsk | pkgs/aoide-desktop/crates/app/src/window.rs:279-283 | `held_ask`: the first ask of a key |
| McpSession.McpSession.Request | pkgs/aoide/crates/client/src/mcp_client.rs:882-888 | `request`, as an update in place: the next id is used up whatever comes of it |
| McpSession.McpSession.Begin | pkgs/aoide/crates/client/src/mcp_client.rs:812-827 | `initialize`, as an update in place |
| McpSession.EndedAgrees | pkgs/aoide/crates/client/src/mcp_client.rs:840-850 | `close` sends one deletion if there is a session and nothing otherwise |
| ForestLayout.GroupsMarkSubs | rices/barcarolle/widgets/Buddy.js:125 | in every group the rows drawn as sub-sessions are the sessions with a parent |
| ForestLayout.FindKids | rices/barcarolle/widgets/Buddy.js:96-101 | the children of each session and the roots, as they came |
| ForestLayout.FlattenInto | rices/barcarolle/widgets/Buddy.js:102-109 | `flatten`, into what was put out and seen so far |
| ForestLayout.Layout | rices/barcarolle/widgets/Buddy.js:121-160 | the loop that lays the groups out |
| Braille.OneDotMore | rices/cadenza/widgets/Kit.js:197-211 | setting a dot sets that dot and no other |
| DoorTheorems.OnlyTheseChangeTheMark | pkgs/aoide-desktop/crates/shell/src/doors.rs:636-650 | in every reachable state, the mark stands after a step exactly when the step is `close_after_turn`'s lock that saw `Running`, or the mark stood and the step is none of `revoke`'s, a still-live close's and the end of a live door's stream that no close held: each of these always raises or lowers it, and no close that ends in an error touches it |
| DoorScript.StreamForwards | pkgs/aoide-desktop/crates/shell/src/doors.rs:1022-1039 | the frames delivered for one stream are its frames in order but for the asks it refused |
| DoorScript.KeptIsAccepted | pkgs/aoide-desktop/crates/shell/src/doors.rs:1053-1064 | every frame the stream did not refuse is among those forwarded |
| DoorScript.AcceptedIsKept | pkgs/aoide-desktop/crates/shell/src/doors.rs:1053-1064 | every frame forwarded is one the stream did not refuse |
| DoorTheorems.ReportsAreMade | pkgs/aoide-desktop/crates/shell/src/doors.rs:1151-1177 | in every run `Gone` is delivered for exactly when the door was marked gone (and `WatchFollowsItsAnswers` says when that is), a failed reconnect is reported exactly when no other failed since the last stream began, and a dropped record exactly when a reconnect failed on identity; after either farewell the thread learns nothing more |
| Room.RestIsAllIff | pkgs/aoide-desktop/crates/exec/src/lib.rs:722-742 | `rest` is what was drained exactly when all of it fits the budget, or all but one last mark with bytes |
| Room.NextReturnsThePipesLines | pkgs/aoide-desktop/crates/exec/src/lib.rs:703-713 | whatever the reads and the interleaving, what `next` returned is a prefix of the pipe's own lines and then `Eof` |
| Argv.WithoutAliasLineReadsBack | pkgs/aoide/crates/protocol/src/door.rs:85-98 | over a schema that declares no path spelled like the alias's start or beginning with it, no printed call meets the alias, and its line reads back exactly when its flags are plain and no positionals go to a command that takes none |
| Argv.UnplainIsLost | pkgs/aoide/crates/protocol/src/door.rs:137-163 | whatever the schema, a printed call with a flag whose name holds `=`, a bare flag without a name or a bare flag named `help` is never read with its flags |
| Argv.HelpFlagIsRefused | pkgs/aoide/crates/protocol/src/door.rs:145-150 | a printed call whose line asks for help: a declared bare flag named `help` |
| Argv.StrayPositionalIsRefused | pkgs/aoide/crates/protocol/src/door.rs:269-285 | a printed call whose line is refused: a positional given to a command that takes none |
| Argv.AliasedCommandIsLost | pkgs/aoide/crates/protocol/src/door.rs:87-98 | a printed call whose line is refused: a declared command spelled like the alias |
| Argv.AliasedPositionalIsChanged | pkgs/aoide/crates/protocol/src/door.rs:87-98 | a printed call that is read otherwise: a positional that completes the alias |
| Asks.RecordHoldsIff | pkgs/aoide-desktop/crates/app/src/window.rs:303-315 | the record holds an ask exactly when it was added and, since then, neither replaced nor removed by its own door |
| Asks.RecordHidesIff | pkgs/aoide-desktop/crates/app/src/window.rs:303-315 | the record holds an ask the page does not show exactly when, while it was held, another door reported it removed or the watch ended |
| Forest.UnrootedIffMeetsACycle | rices/barcarolle/widgets/Buddy.js:21-25 | a session's chain of parents does not end exactly when it meets a cycle |
| ForestLayout.RowsAreInPreorder | rices/barcarolle/widgets/Buddy.js:122-160 | whatever is collapsed, the rows come group by group and in preorder with siblings by rank and then as they came, each in its root's group and drawn as a sub-session if it has a parent; and no session has two |

## Left out

- DoorProtocol.Init: one door and its one watch. Doors share the caller, which makes one call at a time, and the channel, whose fullness is an answer here; launching, re-attaching and opening are not modelled.
- DoorTheorems.DeliveriesArePrefix: order among several doors' events on the one channel.
- DoorProtocol.MoveClosing: a signal that finds the door gone finds it reaped, so the look for its exit that follows at once sees it (`doors.rs:1326-1347`), and the two are one answer here; a pid reused within that close by a process of the same start tick is not modelled.
- Checks, signals, exits, liveness, streams and clocks are answers of the outside world; a store update succeeds or fails as one step, though the real one can fail after its rename.
- DoorShared.Link.ObserveFrame: an ask is an id and a text; asks are kept by id, and the order `pending_asks` lists them in is that of their ids.
- LineReader.ReadLines: the queue is a bound on how many events are taken before it closes; the queue itself is `Room`, and `Room.NextReturnsThePipesLines` puts the two together.
- Room.BytesAreAccounted: counts are unbounded integers. An `Eof` that ends `end`, and an event sent after the receiver went, are never released; the statement counts them apart.
- Argv.LineReadsBack: path words that look like flags are excluded by its `requires`; no declared path holds one. It is about `parse_with`: `run` first takes `--color` and any `--color=...` before a bare `--` out of the line (`door.rs:809`, `style.rs:40`), so a declared flag named `color` never comes to it. A command's own check of its values and the texts of aoide's answers are not modelled.
- Letter decoding, SHA-256 and the spelling of a call as visible text are functions the statements hold for all of.
- MailFence.FencedTextIsOneBlock: the scanner reads fenced code only, and takes a NUL as it is, where section 2.3 of CommonMark replaces it by U+FFFD; no line a note puts outside a fence can open another kind of block that swallows one (an HTML block, an indented block).
- MailYaml.QuoteReadsBack: the reader takes no scalar broken over lines; none is written.
- MailThreads.Blocks: `seq` is an unbounded number, so the step past the largest 64-bit one is not modelled.
- MailExport.Directory.Export: a note is put in place as one step; file modes, links and the locking of the state directory are not modelled.
- Asks.Page.OnAskPush: what is drawn. Ask ids are exact numbers, as they are on the page below 2^53; and page and record fold the same pushes, so a page that lags behind shows an earlier fold.
- AskAnswer.Window.Answer: one answer at a time; a confirm that is open elsewhere is the answer `Busy`. What core says to the command that runs is not modelled.
- AskWatch.Reader: a watch's first event, taken before the reader starts, is lost if the reader is told to stop before its first turn, as in the source. Reading a line's JSON is a function the statements hold for all of.
- McpSession.EveryRunIsWellRun: reading a reply out of a body, and a tool's text out of a reply, are functions the statements hold for all of; the headers that never vary are left out.
- ForestLayout.Build: ids are not empty and differ (the statements of the forest are about such lists), and neither ids nor states are names a JavaScript object already has (`RANK["constructor"]` is no rank); a workspace is a whole number. Labels, icons, counts and click targets are not modelled.
- Braille.BrailleLines: exact arithmetic, and values that are numbers; at least one column and one row.
- Base64.Decode: the text of its error.
- `Doors::launch`, `open` and `reattach`, the banner, `/proc` and token checks; the palette, chats and chat windows; the Melete commands; the charter's other handlers; the QML, Nix and CLI wiring: they would add easier members or are plumbing.
