// The command line the app prints for an aoide call, and how aoide reads it back
// (pkgs/aoide-desktop/crates/exec/src/lib.rs, `argv` and `resolve`;
// pkgs/aoide/crates/protocol/src/door.rs, `parse_with`).
module Argv {
  import opened Common

  datatype Arg = Arg(name: string, required: bool)

  /** A declared command: its positional arguments, and each flag's declared type. */
  datatype Spec = Spec(args: seq<Arg>, flags: map<string, string>)

  /** The commands a program declares, by their path words. */
  type Schema = map<seq<string>, Spec>

  datatype Flag = Flag(name: string, value: Option<string>)

  datatype Error =
    | NulByte
    | UnknownCommand
    | Resolves(path: seq<string>)
    | Undeclared(flag: string)
    | BareFlagTakesNoValue(flag: string)
    | FlagNeedsValue(flag: string)
    | MissingArgument(name: string)

  datatype Result<+T> = Ok(value: T) | Err(error: Error)

  const ALIAS_FROM: seq<string> := ["node", "rm"]
  const ALIAS_TO: seq<string> := ["node", "remove"]

  /** A leading alias rewritten to its canonical words. */
  function Rewritten(words: seq<string>): seq<string> {
    if ALIAS_FROM <= words then ALIAS_TO + words[|ALIAS_FROM|..] else words
  }

  // ----- What `argv` prints -----

  predicate HasNul(text: string) { '\0' in text }

  predicate FlagHasNul(flag: Flag) {
    HasNul(flag.name) || (flag.value.Some? && HasNul(flag.value.value))
  }

  predicate AnyNul(words: seq<string>, flags: seq<Flag>, positionals: seq<string>) {
    || (exists i :: 0 <= i < |words| && HasNul(words[i]))
    || (exists i :: 0 <= i < |flags| && FlagHasNul(flags[i]))
    || (exists i :: 0 <= i < |positionals| && HasNul(positionals[i]))
  }

  /** The longest declared path, of at least `least` words, that `words` begins with; `least` if there is none. */
  function Longest(schema: Schema, words: seq<string>, least: nat): (n: nat)
    requires least <= |words|
    ensures least <= n <= |words|
    ensures n > least ==> words[..n] in schema
    ensures forall k: nat :: n < k <= |words| ==> words[..k] !in schema
    decreases |words|
  {
    if |words| == least then least
    else if words in schema then
      assert words[..|words|] == words;
      |words|
    else
      var n := Longest(schema, words[..|words| - 1], least);
      assert forall k: nat :: k < |words| ==> words[..|words| - 1][..k] == words[..k];
      assert words[..|words|] == words;
      n
  }

  /** `resolve`: refused when the words and positionals name a longer command. */
  function Resolve(schema: Schema, words: seq<string>, positionals: seq<string>): Result<seq<string>> {
    var all := Rewritten(words + positionals);
    var longest := Longest(schema, all, |words|);
    if longest > |words| then Err(Resolves(all[..longest])) else Ok(words)
  }

  function FlagText(flag: Flag): string {
    "--" + flag.name + (if flag.value.Some? then "=" + flag.value.value else "")
  }

  function FlagError(spec: Spec, flag: Flag): Option<Error> {
    if flag.name !in spec.flags then Some(Undeclared(flag.name))
    else if spec.flags[flag.name] == "bool" && flag.value.Some? then Some(BareFlagTakesNoValue(flag.name))
    else if spec.flags[flag.name] != "bool" && flag.value.None? then Some(FlagNeedsValue(flag.name))
    else None
  }

  predicate FlagsFit(spec: Spec, flags: seq<Flag>) {
    forall i :: 0 <= i < |flags| ==> FlagError(spec, flags[i]) == None
  }

  predicate ArgsGiven(spec: Spec, positionals: seq<string>) {
    forall i :: |positionals| <= i < |spec.args| ==> !spec.args[i].required
  }

  function FlagTexts(flags: seq<Flag>): seq<string> {
    seq(|flags|, i requires 0 <= i < |flags| => FlagText(flags[i]))
  }

  function AfterDashes(positionals: seq<string>): seq<string> {
    if positionals == [] then [] else ["--"] + positionals
  }

  /** The whole line, after the program. */
  function LineFor(words: seq<string>, flags: seq<Flag>, positionals: seq<string>): seq<string> {
    words + ["--json"] + FlagTexts(flags) + AfterDashes(positionals)
  }

  /** When a call is printed at all. */
  predicate Printable(schema: Schema, words: seq<string>, flags: seq<Flag>, positionals: seq<string>) {
    && !AnyNul(words, flags, positionals)
    && words in schema
    && Resolve(schema, words, positionals).Ok?
    && FlagsFit(schema[words], flags)
    && ArgsGiven(schema[words], positionals)
  }

  method CheckNul(words: seq<string>, flags: seq<Flag>, positionals: seq<string>) returns (bad: bool)
    ensures bad == AnyNul(words, flags, positionals)
  {
    for i := 0 to |words|
      invariant forall k :: 0 <= k < i ==> !HasNul(words[k])
    {
      if HasNul(words[i]) {
        return true;
      }
    }
    for i := 0 to |flags|
      invariant forall k :: 0 <= k < i ==> !FlagHasNul(flags[k])
    {
      if FlagHasNul(flags[i]) {
        return true;
      }
    }
    for i := 0 to |positionals|
      invariant forall k :: 0 <= k < i ==> !HasNul(positionals[k])
    {
      if HasNul(positionals[i]) {
        return true;
      }
    }
    bad := false;
  }

  predicate Misses(spec: Spec, positionals: seq<string>, name: string) {
    exists i :: |positionals| <= i < |spec.args| && spec.args[i] == Arg(name, true)
  }

  predicate FlagWrong(spec: Spec, flags: seq<Flag>, error: Error) {
    (error.Undeclared? || error.BareFlagTakesNoValue? || error.FlagNeedsValue?)
    && exists i :: 0 <= i < |flags| && FlagError(spec, flags[i]) == Some(error)
  }

  /** What a refusal says of the call. */
  predicate Explains(schema: Schema, words: seq<string>, flags: seq<Flag>, positionals: seq<string>, error: Error) {
    match error
    case NulByte => AnyNul(words, flags, positionals)
    case UnknownCommand => words !in schema
    case Resolves(_) => Resolve(schema, words, positionals) == Err(error)
    case MissingArgument(name) => words in schema && Misses(schema[words], positionals, name)
    case _ => words in schema && FlagWrong(schema[words], flags, error)
  }

  lemma OneMoreFlag(command: Spec, flags: seq<Flag>, i: nat)
    requires i < |flags| && FlagsFit(command, flags[..i]) && FlagError(command, flags[i]) == None
    ensures FlagsFit(command, flags[..i + 1])
            && FlagTexts(flags[..i + 1]) == FlagTexts(flags[..i]) + [FlagText(flags[i])]
  {
    assert flags[..i + 1] == flags[..i] + [flags[i]];
  }

  method PrintFlags(command: Spec, flags: seq<Flag>) returns (result: Result<seq<string>>)
    ensures result.Ok? ==> FlagsFit(command, flags) && result.value == FlagTexts(flags)
    ensures result.Err? ==> FlagWrong(command, flags, result.error) && !FlagsFit(command, flags)
  {
    var texts: seq<string> := [];
    for i := 0 to |flags|
      invariant texts == FlagTexts(flags[..i])
      invariant FlagsFit(command, flags[..i])
    {
      var flag := flags[i];
      if flag.name !in command.flags {
        return Err(Undeclared(flag.name));
      }
      var isBool := command.flags[flag.name] == "bool";
      var text: string;
      if isBool && flag.value.None? {
        text := "--" + flag.name;
        assert text == FlagText(flag);
      } else if isBool {
        return Err(BareFlagTakesNoValue(flag.name));
      } else if flag.value.Some? {
        text := "--" + flag.name + "=" + flag.value.value;
        assert text == FlagText(flag);
      } else {
        return Err(FlagNeedsValue(flag.name));
      }
      texts := texts + [text];
      OneMoreFlag(command, flags, i);
    }
    assert flags[..|flags|] == flags;
    result := Ok(texts);
  }

  method FindMissing(command: Spec, positionals: seq<string>) returns (missing: Option<string>)
    ensures missing.None? <==> ArgsGiven(command, positionals)
    ensures missing.Some? ==> Misses(command, positionals, missing.value)
  {
    for i := 0 to |command.args|
      invariant forall k :: |positionals| <= k < i ==> !command.args[k].required
    {
      if command.args[i].required && i >= |positionals| {
        assert command.args[i] == Arg(command.args[i].name, true);
        return Some(command.args[i].name);
      }
    }
    missing := None;
  }

  /** A flag as it is written: with its value after a `=`, or bare. */
  predicate IsFlag(text: string, flag: Flag) {
    match flag.value
    case Some(value) => text == "--" + flag.name + "=" + value
    case None => text == "--" + flag.name
  }

  lemma FlagsAreWritten(flags: seq<Flag>, i: nat)
    requires i < |flags|
    ensures IsFlag(FlagTexts(flags)[i], flags[i])
  {
    match flags[i].value {
      case Some(value) => assert FlagText(flags[i]) == "--" + flags[i].name + "=" + value;
      case None => assert FlagText(flags[i]) == "--" + flags[i].name;
    }
  }

  /** A line is the words, `--json`, the flags as they are written, and the positionals after a bare `--`. */
  lemma LineIsWritten(words: seq<string>, flags: seq<Flag>, positionals: seq<string>) returns (texts: seq<string>)
    ensures LineFor(words, flags, positionals) ==
            words + ["--json"] + texts + (if positionals == [] then [] else ["--"] + positionals)
    ensures |texts| == |flags| && forall i :: 0 <= i < |flags| ==> IsFlag(texts[i], flags[i])
  {
    texts := FlagTexts(flags);
    forall i | 0 <= i < |flags| ensures IsFlag(texts[i], flags[i]) {
      FlagsAreWritten(flags, i);
    }
  }

  lemma WholeLine(program: string, words: seq<string>, flags: seq<Flag>, positionals: seq<string>)
    ensures var line := [program] + words + ["--json"] + FlagTexts(flags);
            [program] + LineFor(words, flags, positionals) ==
              if positionals == [] then line else line + ["--"] + positionals
  {
  }

  /** `argv`: exactly the printable calls are printed, each as its line, and any other says what is wrong with it. */
  method Argv(program: string, schema: Schema, words: seq<string>, flags: seq<Flag>, positionals: seq<string>)
    returns (result: Result<seq<string>>)
    ensures result.Ok? <==> Printable(schema, words, flags, positionals)
    ensures result.Ok? ==> result.value == [program] + LineFor(words, flags, positionals)
    ensures result.Err? ==> Explains(schema, words, flags, positionals, result.error)
  {
    var bad := CheckNul(words, flags, positionals);
    if bad {
      return Err(NulByte);
    }
    if words !in schema {
      return Err(UnknownCommand);
    }
    var command := schema[words];
    var resolved := Resolve(schema, words, positionals);
    if resolved.Err? {
      return Err(resolved.error);
    }
    var line := [program] + words + ["--json"];
    var printed := PrintFlags(command, flags);
    if printed.Err? {
      return Err(printed.error);
    }
    line := line + printed.value;
    var missing := FindMissing(command, positionals);
    if missing.Some? {
      return Err(MissingArgument(missing.value));
    }
    WholeLine(program, words, flags, positionals);
    if positionals != [] {
      line := line + ["--"];
      line := line + positionals;
    }
    result := Ok(line);
  }

  // ----- What a printable call is -----

  /** The words and positionals as aoide matches them to a path. */
  predicate IsAliased(all: seq<string>, matched: seq<string>) {
    if ["node", "rm"] <= all then matched == ["node", "remove"] + all[2..] else matched == all
  }

  /** No text of a call holds a NUL. */
  predicate NoNul(words: seq<string>, flags: seq<Flag>, positionals: seq<string>) {
    && (forall text :: text in words + positionals ==> '\0' !in text)
    && (forall f :: f in flags ==> '\0' !in f.name && (f.value.Some? ==> '\0' !in f.value.value))
  }

  lemma NulIsNone(words: seq<string>, flags: seq<Flag>, positionals: seq<string>)
    ensures AnyNul(words, flags, positionals) <==> !NoNul(words, flags, positionals)
  {
    if AnyNul(words, flags, positionals) {
      if i :| 0 <= i < |words| && HasNul(words[i]) {
        assert words[i] in words + positionals;
      } else if i :| 0 <= i < |flags| && FlagHasNul(flags[i]) {
        assert flags[i] in flags;
      } else {
        var i :| 0 <= i < |positionals| && HasNul(positionals[i]);
        assert positionals[i] in words + positionals;
      }
    }
  }

  /**
   * A call is printed exactly when it holds no NUL, its words are a declared path and no longer one begins its words
   * and positionals, every flag is declared and bare exactly if it is a `bool`, and every required argument is given.
   */
  lemma PrintableMeans(schema: Schema, words: seq<string>, flags: seq<Flag>, positionals: seq<string>,
      all: seq<string>)
    requires IsAliased(words + positionals, all)
    ensures Printable(schema, words, flags, positionals) <==>
            && NoNul(words, flags, positionals)
            && words in schema
            && (forall n: nat :: |words| < n <= |all| ==> all[..n] !in schema)
            && (forall f :: f in flags ==>
                  f.name in schema[words].flags && (schema[words].flags[f.name] == "bool" <==> f.value.None?))
            && (forall i :: 0 <= i < |schema[words].args| && schema[words].args[i].required ==> i < |positionals|)
  {
    NulIsNone(words, flags, positionals);
    ResolveMeans(schema, words, positionals, all);
    if words in schema {
      FlagsFitMeans(schema[words], flags);
    }
  }

  lemma ResolveMeans(schema: Schema, words: seq<string>, positionals: seq<string>, all: seq<string>)
    requires IsAliased(words + positionals, all)
    ensures Resolve(schema, words, positionals).Ok? <==>
            forall n: nat :: |words| < n <= |all| ==> all[..n] !in schema
  {
    assert all == Rewritten(words + positionals);
    var longest := Longest(schema, all, |words|);
  }

  lemma FlagsFitMeans(spec: Spec, flags: seq<Flag>)
    ensures FlagsFit(spec, flags) <==>
            forall f :: f in flags ==> f.name in spec.flags && (spec.flags[f.name] == "bool" <==> f.value.None?)
  {
    if FlagsFit(spec, flags) {
      forall f | f in flags ensures f.name in spec.flags && (spec.flags[f.name] == "bool" <==> f.value.None?) {
        var i :| 0 <= i < |flags| && flags[i] == f;
        assert FlagError(spec, flags[i]) == None;
      }
    }
  }

  /** What each refusal names is there. */
  lemma RefusalMeans(schema: Schema, words: seq<string>, flags: seq<Flag>, positionals: seq<string>, error: Error,
      all: seq<string>)
    requires Explains(schema, words, flags, positionals, error) && IsAliased(words + positionals, all)
    ensures match error
            case NulByte => !NoNul(words, flags, positionals)
            case UnknownCommand => words !in schema
            case Resolves(path) =>
              && path in schema && |words| < |path| <= |all| && path == all[..|path|]
              && forall n: nat :: |path| < n <= |all| ==> all[..n] !in schema
            case Undeclared(name) => words in schema && name !in schema[words].flags && Gives(flags, name)
            case BareFlagTakesNoValue(name) =>
              words in schema && Declares(schema[words], name, true) && Gives(flags, name)
            case FlagNeedsValue(name) =>
              words in schema && Declares(schema[words], name, false) && Gives(flags, name)
            case MissingArgument(name) =>
              words in schema && exists i :: |positionals| <= i < |schema[words].args|
                                             && schema[words].args[i] == Arg(name, true)
  {
    NulIsNone(words, flags, positionals);
    assert all == Rewritten(words + positionals);
  }

  predicate Gives(flags: seq<Flag>, name: string) { exists i :: 0 <= i < |flags| && flags[i].name == name }

  // ----- How aoide reads a line -----

  predicate StartsWithDashes(text: string) { "--" <= text }

  /** Where a name's first `=` is, if it has one. */
  function FirstEquals(name: string): (at: nat)
    ensures at <= |name| && '=' !in name[..at] && (at < |name| ==> name[at] == '=')
  {
    if name == "" || name[0] == '=' then 0 else 1 + FirstEquals(name[1..])
  }

  /** What the candidate commands declare a flag to be. */
  datatype Declared = Bool | Valued | Mixed | NotDeclared

  /** A command whose path agrees with the words so far on their common prefix. */
  predicate Candidate(path: seq<string>, prior: seq<string>) {
    path <= prior || prior <= path
  }

  predicate DeclaresAs(spec: Spec, name: string, isBool: bool) {
    name in spec.flags && (spec.flags[name] == "bool") == isBool
  }

  function DeclaredKind(schema: Schema, name: string, prior: seq<string>): Declared {
    var asBool := exists path :: path in schema && Candidate(path, prior) && DeclaresAs(schema[path], name, true);
    var asValue := exists path :: path in schema && Candidate(path, prior) && DeclaresAs(schema[path], name, false);
    if asBool && asValue then Mixed else if asBool then Bool else if asValue then Valued else NotDeclared
  }

  /** Whether a token continues a command path still being spelled. */
  predicate IsCommandToken(schema: Schema, token: string, prior: seq<string>) {
    exists path :: path in schema && prior + [token] <= path
  }

  datatype Tokens = Tokens(positionals: seq<string>, flags: map<string, string>, json: bool, help: bool)

  datatype Refusal = Help | AmbiguousFlag | MixedFlag | NoCommand | UnknownFlag

  datatype Read =
    | Invocation(path: seq<string>, args: seq<string>, flags: map<string, string>, json: bool)
    | Refused(why: Refusal)

  datatype Split = Split(tokens: Tokens) | Stopped(why: Refusal)

  /** The flag loop: a bare `--` ends it, and the registry says whether a flag may take the next token. */
  function SplitFlags(schema: Schema, line: seq<string>, t: Tokens): Split
    decreases |line|
  {
    if line == [] then Split(t)
    else
      var a, rest := line[0], line[1..];
      if a == "--" then Split(t.(positionals := t.positionals + rest))
      else if a == "--help" || a == "-h" then SplitFlags(schema, rest, t.(help := true))
      else if !StartsWithDashes(a) then SplitFlags(schema, rest, t.(positionals := t.positionals + [a]))
      else
        var name := a[2..];
        var at := FirstEquals(name);
        if at < |name| then
          var key := name[..at];
          SplitFlags(schema, rest, t.(json := t.json || key == "json", flags := t.flags[key := name[at + 1..]]))
        else if name == "json" then SplitFlags(schema, rest, t.(json := true, flags := t.flags["json" := "true"]))
        else
          var kind := DeclaredKind(schema, name, t.positionals);
          var consumable := rest != [] && !StartsWithDashes(rest[0]);
          if kind == Bool || !consumable then SplitFlags(schema, rest, t.(flags := t.flags[name := "true"]))
          else if kind == Mixed then Stopped(MixedFlag)
          else if IsCommandToken(schema, rest[0], t.positionals) then Stopped(AmbiguousFlag)
          else SplitFlags(schema, rest[1..], t.(flags := t.flags[name := rest[0]]))
  }

  /** A flag neither the command nor the dispatcher declares. */
  predicate HasUnknown(spec: Spec, flags: map<string, string>) {
    exists name :: name in flags && name !in spec.flags && name !in ["json", "audit-log"]
  }

  predicate HasHead(schema: Schema, head: string) {
    exists path :: path in schema && path != [] && path[0] == head
  }

  /** `parse_with`, but for the text of its answers and a command's own checks of its values. */
  function ReadLine(schema: Schema, line: seq<string>): Read {
    match SplitFlags(schema, line, Tokens([], map[], false, false))
    case Stopped(why) => Refused(why)
    case Split(t) =>
      var asksHelp := t.positionals != [] && t.positionals[0] == "help" && !HasHead(schema, "help");
      var words := if asksHelp then t.positionals[1..] else t.positionals;
      if words == [] then Refused(Help)
      else
        var all := Rewritten(words);
        var longest := Longest(schema, all, 0);
        if t.help || asksHelp then Refused(Help)
        else if all[..longest] !in schema then Refused(NoCommand)
        else
          var command := schema[all[..longest]];
          if HasUnknown(command, t.flags) then Refused(UnknownFlag)
          else if all[longest..] != [] && command.args == [] then Refused(NoCommand)
          else Invocation(all[..longest], all[longest..], t.flags, t.json)
  }

  // ----- The line reads back as the call -----

  /** No word is taken for a flag. */
  predicate PlainWords(words: seq<string>) {
    words != [] && forall i :: 0 <= i < |words| ==> !StartsWithDashes(words[i]) && words[i] != "-h"
  }

  /** No flag's name is cut at a `=`, ends the flags, or asks for help. */
  predicate PlainFlags(flags: seq<Flag>) {
    forall i :: 0 <= i < |flags| ==>
      && '=' !in flags[i].name
      && (flags[i].value.None? ==> flags[i].name != "" && flags[i].name != "help")
  }

  /** The flags as aoide holds them: the last of a name counts, and a bare flag is "true". */
  function FlagMap(flags: seq<Flag>, before: map<string, string>): map<string, string> {
    if flags == [] then before
    else
      var value := if flags[0].value.Some? then flags[0].value.value else "true";
      FlagMap(flags[1..], before[flags[0].name := value])
  }

  lemma {:induction false} WordsAreRead(schema: Schema, words: seq<string>, rest: seq<string>, t: Tokens)
    requires forall i :: 0 <= i < |words| ==> !StartsWithDashes(words[i]) && words[i] != "-h"
    ensures SplitFlags(schema, words + rest, t) == SplitFlags(schema, rest, t.(positionals := t.positionals + words))
  {
    if words == [] {
      assert words + rest == rest && t.positionals + words == t.positionals;
    } else {
      var next := t.(positionals := t.positionals + [words[0]]);
      assert (words + rest)[0] == words[0] && (words + rest)[1..] == words[1..] + rest;
      WordsAreRead(schema, words[1..], rest, next);
      assert t.positionals + words == next.positionals + words[1..];
    }
  }

  lemma {:induction false} EqualsAt(name: string, value: string)
    requires '=' !in name
    ensures FirstEquals(name) == |name|
    ensures FirstEquals(name + "=" + value) == |name|
  {
    if name != "" {
      EqualsAt(name[1..], value);
      assert (name + "=" + value)[1..] == name[1..] + "=" + value;
    }
  }

  /** Where a printed flag is cut, and that it is none of the words the reader takes by themselves. */
  lemma FlagTextParts(flag: Flag)
    requires PlainFlags([flag])
    ensures var text := FlagText(flag);
            && StartsWithDashes(text) && text !in ["--", "--help", "-h"]
            && FirstEquals(text[2..]) == |flag.name|
            && text[2..][..|flag.name|] == flag.name
            && (if flag.value.None? then text[2..] == flag.name
                else |text[2..]| > |flag.name| && text[2..][|flag.name| + 1..] == flag.value.value)
  {
    var text := FlagText(flag);
    assert PlainFlags([flag]) ==> '=' !in [flag][0].name;
    assert text[..2] == "--";
    match flag.value {
      case None =>
        assert [flag][0].name != "" && [flag][0].name != "help";
        EqualsAt(flag.name, "");
        assert text[2..] == flag.name;
      case Some(value) =>
        EqualsAt(flag.name, value);
        assert text[2..] == flag.name + "=" + value;
        assert text[2..][|flag.name|] == '=' && '=' !in "--help"[2..];
    }
  }

  /** One printed flag is read as itself, whatever other commands declare its name to be. */
  lemma FlagIsRead(schema: Schema, flag: Flag, rest: seq<string>, t: Tokens)
    requires PlainFlags([flag])
    requires rest == [] || StartsWithDashes(rest[0])
    ensures SplitFlags(schema, [FlagText(flag)] + rest, t) ==
            SplitFlags(schema, rest, t.(flags := FlagMap([flag], t.flags), json := t.json || flag.name == "json"))
  {
    FlagTextParts(flag);
    var line := [FlagText(flag)] + rest;
    assert line[0] == FlagText(flag) && line[1..] == rest;
    assert [flag][1..] == [];
  }

  /** Some command that the words so far may still name declares the flag a `bool`, or something else. */
  ghost predicate MayBe(schema: Schema, name: string, prior: seq<string>, bare: bool) {
    exists path :: path in schema && (path <= prior || prior <= path) && Declares(schema[path], name, bare)
  }

  predicate Declares(spec: Spec, name: string, bare: bool) {
    name in spec.flags && (spec.flags[name] == "bool" <==> bare)
  }

  /**
   * A flag written apart from what follows it, if that is no flag: a `bool` never takes it; one that some candidate
   * command declares `bool` and another not is refused, and so is one that a path could go on with; any other has it
   * for its value.
   */
  lemma FlagTakesNext(schema: Schema, name: string, next: string, rest: seq<string>, t: Tokens)
    requires '=' !in name && name !in ["", "help", "json"] && !("--" <= next)
    ensures var bare, valued := MayBe(schema, name, t.positionals, true), MayBe(schema, name, t.positionals, false);
            SplitFlags(schema, ["--" + name] + ([next] + rest), t) ==
            if bare && !valued then SplitFlags(schema, [next] + rest, t.(flags := t.flags[name := "true"]))
            else if bare then Stopped(MixedFlag)
            else if exists path :: path in schema && t.positionals + [next] <= path then Stopped(AmbiguousFlag)
            else SplitFlags(schema, rest, t.(flags := t.flags[name := next]))
  {
    var line := ["--" + name] + ([next] + rest);
    EqualsAt(name, "");
    assert line[0] == "--" + name && line[0][2..] == name && line[1..] == [next] + rest;
    assert ([next] + rest)[0] == next && ([next] + rest)[1..] == rest;
    assert line[0][..2] == "--" && |line[0]| == |name| + 2;
    assert line[0] != "--help" by {
      assert "--help"[2..] == "help";
    }
    KindIs(schema, name, t.positionals);
  }

  lemma KindIs(schema: Schema, name: string, prior: seq<string>)
    ensures DeclaredKind(schema, name, prior) ==
            if MayBe(schema, name, prior, true) then if MayBe(schema, name, prior, false) then Mixed else Bool
            else if MayBe(schema, name, prior, false) then Valued else NotDeclared
  {
    forall bare
      ensures MayBe(schema, name, prior, bare) <==>
              exists path :: path in schema && Candidate(path, prior) && DeclaresAs(schema[path], name, bare)
    {
      if path :| path in schema && (path <= prior || prior <= path) && Declares(schema[path], name, bare) {
        assert Candidate(path, prior) && DeclaresAs(schema[path], name, bare);
      }
      if path :| path in schema && Candidate(path, prior) && DeclaresAs(schema[path], name, bare) {
        assert Declares(schema[path], name, bare);
      }
    }
  }

  lemma {:induction false} FlagsAreRead(schema: Schema, flags: seq<Flag>, rest: seq<string>, t: Tokens)
    requires PlainFlags(flags) && t.json
    requires rest == [] || StartsWithDashes(rest[0])
    ensures SplitFlags(schema, FlagTexts(flags) + rest, t) ==
            SplitFlags(schema, rest, t.(flags := FlagMap(flags, t.flags)))
  {
    if flags == [] {
      assert FlagTexts(flags) + rest == rest;
    } else {
      var after := FlagTexts(flags[1..]) + rest;
      assert FlagTexts(flags) + rest == [FlagText(flags[0])] + after;
      assert PlainFlags([flags[0]]);
      assert after == [] || StartsWithDashes(after[0]) by {
        if |flags| > 1 {
          assert FlagText(flags[1])[..2] == "--";
        }
      }
      FlagIsRead(schema, flags[0], after, t);
      assert [flags[0]][1..] == [];
      FlagsAreRead(schema, flags[1..], rest, t.(flags := FlagMap([flags[0]], t.flags)));
    }
  }

  lemma JsonIsRead(schema: Schema, rest: seq<string>, t: Tokens)
    ensures SplitFlags(schema, ["--json"] + rest, t) ==
            SplitFlags(schema, rest, t.(json := true, flags := t.flags["json" := "true"]))
  {
    var line := ["--json"] + rest;
    assert line[0] == "--json" && line[1..] == rest;
    assert "--json"[2..] == "json";
    EqualsAt("json", "");
  }

  lemma DashesEnd(schema: Schema, positionals: seq<string>, t: Tokens)
    ensures SplitFlags(schema, AfterDashes(positionals), t) == Split(t.(positionals := t.positionals + positionals))
  {
    if positionals == [] {
      assert t.positionals + positionals == t.positionals;
    } else {
      assert AfterDashes(positionals)[1..] == positionals;
    }
  }

  /** The flag loop gives back the words and positionals, in order, and the flags. */
  lemma LineSplits(schema: Schema, words: seq<string>, flags: seq<Flag>, positionals: seq<string>)
    requires PlainWords(words) && PlainFlags(flags)
    ensures SplitFlags(schema, LineFor(words, flags, positionals), Tokens([], map[], false, false)) ==
            Split(Tokens(words + positionals, FlagMap(flags, map["json" := "true"]), true, false))
  {
    var t0 := Tokens([], map[], false, false);
    var last := AfterDashes(positionals);
    var rest := FlagTexts(flags) + last;
    assert LineFor(words, flags, positionals) == words + (["--json"] + rest);
    WordsAreRead(schema, words, ["--json"] + rest, t0);
    assert [] + words == words;
    var t1 := t0.(positionals := words);
    JsonIsRead(schema, rest, t1);
    assert map[]["json" := "true"] == map["json" := "true"];
    var t2 := t1.(json := true, flags := map["json" := "true"]);
    FlagsAreRead(schema, flags, last, t2);
    DashesEnd(schema, positionals, t2.(flags := FlagMap(flags, t2.flags)));
  }

  lemma {:induction false} FlagMapNames(flags: seq<Flag>, before: map<string, string>)
    ensures forall name :: name in FlagMap(flags, before) ==>
              name in before || exists i :: 0 <= i < |flags| && flags[i].name == name
  {
    if flags != [] {
      var value := if flags[0].value.Some? then flags[0].value.value else "true";
      FlagMapNames(flags[1..], before[flags[0].name := value]);
      assert forall i :: 0 <= i < |flags| - 1 ==> flags[1..][i] == flags[i + 1];
    }
  }

  /**
   * The command aoide runs for a printed call is the one called, unless the called
   * words themselves begin with an alias: then it never is.
   */
  lemma RunsTheCalled(schema: Schema, words: seq<string>, positionals: seq<string>)
    requires words in schema && words != [] && Resolve(schema, words, positionals).Ok?
    ensures var all := Rewritten(words + positionals);
            all[..Longest(schema, all, 0)] == words <==> !(ALIAS_FROM <= words)
  {
    var all := Rewritten(words + positionals);
    if ALIAS_FROM <= words {
      assert words[1] == "rm" && all[1] == "remove";
    } else {
      assert Longest(schema, all, |words|) == |words|;
      CalledIsKept(words, positionals);
      assert all[..|words|] in schema;
      assert Longest(schema, all, 0) == |words|;
    }
  }

  lemma CalledIsKept(words: seq<string>, positionals: seq<string>)
    requires words != [] && !(ALIAS_FROM <= words)
    ensures Rewritten(words + positionals)[..|words|] == words
  {
    var whole := words + positionals;
    if ALIAS_FROM <= whole {
      assert whole[0] == words[0] && whole[..2] == ALIAS_FROM;
      if |words| == 1 {
        assert words == ["node"];
      } else {
        assert false;
      }
    }
  }

  lemma LongestIsLength(schema: Schema, all: seq<string>, n: nat)
    requires n <= |all| && Longest(schema, all, n) == n && all[..n] in schema
    ensures Longest(schema, all, 0) == n
  {
  }

  /** What the reader does with a printed line, once its flags are split off. */
  lemma LineIsResolved(schema: Schema, words: seq<string>, flags: seq<Flag>, positionals: seq<string>)
    requires Printable(schema, words, flags, positionals)
    requires PlainWords(words) && PlainFlags(flags)
    ensures var all, flagMap := Rewritten(words + positionals), FlagMap(flags, map["json" := "true"]);
            var n := Longest(schema, all, 0);
            ReadLine(schema, LineFor(words, flags, positionals)) ==
            if all[..n] !in schema then Refused(NoCommand)
            else if HasUnknown(schema[all[..n]], flagMap) then Refused(UnknownFlag)
            else if all[n..] != [] && schema[all[..n]].args == [] then Refused(NoCommand)
            else Invocation(all[..n], all[n..], flagMap, true)
  {
    LineSplits(schema, words, flags, positionals);
    assert (words + positionals)[0] == words[0];
    assert HasHead(schema, words[0]);
  }

  lemma FlagsAreDeclared(schema: Schema, words: seq<string>, flags: seq<Flag>)
    requires words in schema && FlagsFit(schema[words], flags)
    ensures !HasUnknown(schema[words], FlagMap(flags, map["json" := "true"]))
  {
    FlagMapNames(flags, map["json" := "true"]);
    assert forall i :: 0 <= i < |flags| ==> FlagError(schema[words], flags[i]) == None;
  }

  // ----- Flags that are not plain -----

  lemma {:induction false} FlagMapHolds(flags: seq<Flag>, before: map<string, string>)
    ensures forall name :: name in before ==> name in FlagMap(flags, before)
    ensures forall i :: 0 <= i < |flags| ==> flags[i].name in FlagMap(flags, before)
  {
    if flags != [] {
      var value := if flags[0].value.Some? then flags[0].value.value else "true";
      FlagMapHolds(flags[1..], before[flags[0].name := value]);
      assert flags == [flags[0]] + flags[1..];
    }
  }

  /** Once help is asked for, the line is not read as a call. */
  lemma {:induction false} HelpStays(schema: Schema, line: seq<string>, t: Tokens)
    requires t.help
    ensures var split := SplitFlags(schema, line, t); split.Split? ==> split.tokens.help
    decreases |line|
  {
    if line != [] {
      var a, rest := line[0], line[1..];
      if a == "--" {
      } else if a == "--help" || a == "-h" {
        HelpStays(schema, rest, t.(help := true));
      } else if !StartsWithDashes(a) {
        HelpStays(schema, rest, t.(positionals := t.positionals + [a]));
      } else {
        var name := a[2..];
        var at := FirstEquals(name);
        var key := name[..at];
        if at < |name| {
          var json := t.json || key == "json";
          HelpStays(schema, rest, t.(json := json, flags := t.flags[key := name[at + 1..]]));
        } else if name == "json" {
          HelpStays(schema, rest, t.(json := true, flags := t.flags["json" := "true"]));
        } else {
          HelpStays(schema, rest, t.(flags := t.flags[name := "true"]));
          if rest != [] {
            HelpStays(schema, rest[1..], t.(flags := t.flags[name := rest[0]]));
          }
        }
      }
    }
  }

  /** No flag is read under a name that holds `=`. */
  lemma {:induction false} NamesAreCut(schema: Schema, line: seq<string>, t: Tokens, whole: string)
    requires '=' in whole && whole !in t.flags
    ensures var split := SplitFlags(schema, line, t); split.Split? ==> whole !in split.tokens.flags
    decreases |line|
  {
    if line != [] {
      var a, rest := line[0], line[1..];
      if a == "--" {
      } else if a == "--help" || a == "-h" {
        NamesAreCut(schema, rest, t.(help := true), whole);
      } else if !StartsWithDashes(a) {
        NamesAreCut(schema, rest, t.(positionals := t.positionals + [a]), whole);
      } else {
        var name := a[2..];
        var at := FirstEquals(name);
        var key := name[..at];
        if at < |name| {
          var json := t.json || key == "json";
          NamesAreCut(schema, rest, t.(json := json, flags := t.flags[key := name[at + 1..]]), whole);
        } else if name == "json" {
          NamesAreCut(schema, rest, t.(json := true, flags := t.flags["json" := "true"]), whole);
        } else {
          assert key == name;
          NamesAreCut(schema, rest, t.(flags := t.flags[name := "true"]), whole);
          if rest != [] {
            NamesAreCut(schema, rest[1..], t.(flags := t.flags[name := rest[0]]), whole);
          }
        }
      }
    }
  }

  /** The flags of a call that is read from a line are those the flag loop found. */
  lemma ReadKeepsFlags(schema: Schema, line: seq<string>)
    requires ReadLine(schema, line).Invocation?
    ensures var split := SplitFlags(schema, line, Tokens([], map[], false, false));
            split.Split? && !split.tokens.help && ReadLine(schema, line).flags == split.tokens.flags
  {
  }

  /** A call that is read has no flag but its command's own and the dispatcher's two. */
  lemma ReadFlagsAreKnown(schema: Schema, line: seq<string>)
    ensures var read := ReadLine(schema, line);
            read.Invocation? ==>
              && read.path in schema
              && forall name :: name in read.flags ==> name in schema[read.path].flags || name in ["json", "audit-log"]
  {
  }

  lemma FlagTextsFrom(flags: seq<Flag>, k: nat)
    requires k < |flags|
    ensures FlagTexts(flags) == FlagTexts(flags[..k]) + ([FlagText(flags[k])] + FlagTexts(flags[k + 1..]))
  {
  }

  lemma Regroup<T>(a: seq<T>, b: seq<T>, c: seq<T>, d: seq<T>, e: seq<T>, f: seq<T>)
    ensures a + b + (c + (d + e)) + f == a + (b + (c + (d + (e + f))))
  {
  }

  /** The flag loop up to a flag before which all are plain. */
  lemma SplitsUpTo(schema: Schema, words: seq<string>, flags: seq<Flag>, k: nat, positionals: seq<string>)
    requires PlainWords(words) && k < |flags| && PlainFlags(flags[..k])
    ensures SplitFlags(schema, LineFor(words, flags, positionals), Tokens([], map[], false, false)) ==
            SplitFlags(schema, [FlagText(flags[k])] + (FlagTexts(flags[k + 1..]) + AfterDashes(positionals)),
                       Tokens(words, FlagMap(flags[..k], map["json" := "true"]), true, false))
  {
    var t0 := Tokens([], map[], false, false);
    var tail := [FlagText(flags[k])] + (FlagTexts(flags[k + 1..]) + AfterDashes(positionals));
    FlagTextsFrom(flags, k);
    Regroup(words, ["--json"], FlagTexts(flags[..k]), [FlagText(flags[k])], FlagTexts(flags[k + 1..]),
            AfterDashes(positionals));
    assert LineFor(words, flags, positionals) == words + (["--json"] + (FlagTexts(flags[..k]) + tail));
    WordsAreRead(schema, words, ["--json"] + (FlagTexts(flags[..k]) + tail), t0);
    assert [] + words == words;
    var t1 := t0.(positionals := words);
    JsonIsRead(schema, FlagTexts(flags[..k]) + tail, t1);
    assert map[]["json" := "true"] == map["json" := "true"];
    assert StartsWithDashes(tail[0]) by {
      assert FlagText(flags[k])[..2] == "--";
    }
    FlagsAreRead(schema, flags[..k], tail, t1.(json := true, flags := map["json" := "true"]));
  }

  /** A bare flag with no name ends the flags, and is lost. */
  lemma NamelessIsLost(schema: Schema, words: seq<string>, flags: seq<Flag>, k: nat, positionals: seq<string>)
    requires Printable(schema, words, flags, positionals) && PlainWords(words)
    requires k < |flags| && PlainFlags(flags[..k]) && flags[k] == Flag("", None)
    ensures var read := ReadLine(schema, LineFor(words, flags, positionals));
            read.Invocation? ==> "" !in read.flags
  {
    var line, before := LineFor(words, flags, positionals), FlagMap(flags[..k], map["json" := "true"]);
    SplitsUpTo(schema, words, flags, k, positionals);
    var rest := FlagTexts(flags[k + 1..]) + AfterDashes(positionals);
    assert ([FlagText(flags[k])] + rest)[0] == "--";
    if ReadLine(schema, line).Invocation? {
      ReadKeepsFlags(schema, line);
      FlagMapNames(flags[..k], map["json" := "true"]);
      forall i | 0 <= i < k ensures flags[..k][i].name != "" {
        assert FlagError(schema[words], flags[i]) == None && FlagError(schema[words], flags[k]) == None;
      }
    }
  }

  /** A bare flag named `help` is read as a call for help. */
  lemma HelpIsRefused(schema: Schema, words: seq<string>, flags: seq<Flag>, k: nat, positionals: seq<string>)
    requires PlainWords(words) && k < |flags| && PlainFlags(flags[..k]) && flags[k] == Flag("help", None)
    ensures ReadLine(schema, LineFor(words, flags, positionals)).Refused?
  {
    var line := LineFor(words, flags, positionals);
    SplitsUpTo(schema, words, flags, k, positionals);
    var rest := FlagTexts(flags[k + 1..]) + AfterDashes(positionals);
    var t := Tokens(words, FlagMap(flags[..k], map["json" := "true"]), true, false);
    assert ([FlagText(flags[k])] + rest)[0] == "--help" && ([FlagText(flags[k])] + rest)[1..] == rest;
    HelpStays(schema, rest, t.(help := true));
    if ReadLine(schema, line).Invocation? {
      ReadKeepsFlags(schema, line);
      assert false;
    }
  }

  lemma {:induction false} FirstUnplain(flags: seq<Flag>) returns (k: nat)
    requires !PlainFlags(flags)
    ensures k < |flags| && PlainFlags(flags[..k]) && !PlainFlags([flags[k]])
  {
    var init := flags[..|flags| - 1];
    if PlainFlags(init) {
      k := |flags| - 1;
      assert flags == init + [flags[k]];
    } else {
      k := FirstUnplain(init);
      assert init[..k] == flags[..k];
    }
  }

  /** A call with a flag that is not plain is printed, and is not read as itself. */
  lemma UnplainIsLost(schema: Schema, words: seq<string>, flags: seq<Flag>, positionals: seq<string>)
    requires Printable(schema, words, flags, positionals) && PlainWords(words) && !PlainFlags(flags)
    ensures var read := ReadLine(schema, LineFor(words, flags, positionals));
            read.Invocation? ==> read.flags != FlagMap(flags, map["json" := "true"])
  {
    var line := LineFor(words, flags, positionals);
    var k := FirstUnplain(flags);
    FlagMapHolds(flags, map["json" := "true"]);
    assert flags[k].name in FlagMap(flags, map["json" := "true"]);
    if '=' in flags[k].name {
      NamesAreCut(schema, line, Tokens([], map[], false, false), flags[k].name);
      if ReadLine(schema, line).Invocation? {
        ReadKeepsFlags(schema, line);
      }
    } else if flags[k].name == "" {
      NamelessIsLost(schema, words, flags, k, positionals);
    } else {
      HelpIsRefused(schema, words, flags, k, positionals);
    }
  }

  // ----- When a line reads back -----

  predicate ReadsBack(schema: Schema, words: seq<string>, flags: seq<Flag>, positionals: seq<string>) {
    ReadLine(schema, LineFor(words, flags, positionals)) ==
    Invocation(words, positionals, FlagMap(flags, map["json" := "true"]), true)
  }

  /**
   * A printed call of plain words reads back as itself, even when its positionals look
   * like flags, as `--` or as further path words, exactly when it is of none of three
   * kinds that `argv` prints and aoide reads otherwise: one with a flag that is not
   * plain, one whose words and positionals begin with an alias, and one that gives
   * positionals to a command that takes none.
   */
  lemma LineReadsBack(schema: Schema, words: seq<string>, flags: seq<Flag>, positionals: seq<string>)
    requires Printable(schema, words, flags, positionals) && PlainWords(words)
    ensures ReadsBack(schema, words, flags, positionals) <==>
            && PlainFlags(flags)
            && !(ALIAS_FROM <= words + positionals)
            && (positionals == [] || schema[words].args != [])
  {
    if !PlainFlags(flags) {
      UnplainIsLost(schema, words, flags, positionals);
    } else if ALIAS_FROM <= words + positionals {
      AliasIsLost(schema, words, flags, positionals);
    } else {
      PlainReadsBack(schema, words, flags, positionals);
    }
  }

  lemma PartsMakeWhole<T>(whole: seq<T>, n: nat, a: seq<T>, b: seq<T>)
    requires n <= |whole| && whole[..n] == a && whole[n..] == b
    ensures whole == a + b
  {
  }

  lemma AliasIsLost(schema: Schema, words: seq<string>, flags: seq<Flag>, positionals: seq<string>)
    requires Printable(schema, words, flags, positionals) && PlainWords(words) && PlainFlags(flags)
    requires ALIAS_FROM <= words + positionals
    ensures !ReadsBack(schema, words, flags, positionals)
  {
    var whole := words + positionals;
    var all := Rewritten(whole);
    LineIsResolved(schema, words, flags, positionals);
    assert whole[1] == "rm" && all[1] == "remove";
    if ReadsBack(schema, words, flags, positionals) {
      PartsMakeWhole(all, Longest(schema, all, 0), words, positionals);
      assert false;
    }
  }

  lemma PlainReadsBack(schema: Schema, words: seq<string>, flags: seq<Flag>, positionals: seq<string>)
    requires Printable(schema, words, flags, positionals) && PlainWords(words) && PlainFlags(flags)
    requires !(ALIAS_FROM <= words + positionals)
    ensures ReadsBack(schema, words, flags, positionals) <==> positionals == [] || schema[words].args != []
  {
    var all := Rewritten(words + positionals);
    LineIsResolved(schema, words, flags, positionals);
    CalledIsKept(words, positionals);
    LongestIsLength(schema, all, |words|);
    FlagsAreDeclared(schema, words, flags);
    assert all[|words|..] == positionals;
  }

  /** No declared command is spelled like the start of the alias, or begins with it. */
  predicate DeclaresNoAlias(schema: Schema) {
    forall path :: path in schema && path != [] ==> !(path <= ALIAS_FROM) && !(ALIAS_FROM <= path)
  }

  lemma AliasBegins(words: seq<string>, positionals: seq<string>)
    requires ALIAS_FROM <= words + positionals
    ensures words <= ALIAS_FROM || ALIAS_FROM <= words
  {
    var whole := words + positionals;
    assert whole[..2] == ALIAS_FROM && whole[..|words|] == words;
    if |words| < 2 {
      assert words == whole[..2][..|words|];
    } else {
      assert words[..2] == whole[..2];
    }
  }

  /**
   * Over such a schema the alias stands in no printed call's way: then only flags that are not plain do, and
   * positionals given to a command without any.
   */
  lemma WithoutAliasLineReadsBack(schema: Schema, words: seq<string>, flags: seq<Flag>, positionals: seq<string>)
    requires DeclaresNoAlias(schema)
    requires Printable(schema, words, flags, positionals) && PlainWords(words)
    ensures !(ALIAS_FROM <= words + positionals)
    ensures ReadsBack(schema, words, flags, positionals) <==>
            PlainFlags(flags) && (positionals == [] || schema[words].args != [])
  {
    if ALIAS_FROM <= words + positionals {
      AliasBegins(words, positionals);
      assert false;
    }
    LineReadsBack(schema, words, flags, positionals);
  }

  // ----- Calls that are printed and read otherwise -----

  /** Over a schema that declares one command, every call of it with fitting flags is printed. */
  lemma OneCommandIsPrinted(schema: Schema, words: seq<string>, flags: seq<Flag>, positionals: seq<string>)
    requires schema.Keys == {words} && words != [] && ArgsGiven(schema[words], positionals)
    requires !AnyNul(words, flags, positionals) && FlagsFit(schema[words], flags)
    ensures Resolve(schema, words, positionals) == Ok(words) && Printable(schema, words, flags, positionals)
  {
    var all := Rewritten(words + positionals);
    assert forall k: nat :: |words| < k <= |all| ==> all[..k] !in schema;
  }

  /** A positional given to a command that takes none is printed, and the line is refused. */
  lemma StrayPositionalIsRefused()
    ensures var schema: Schema := map[["graph"] := Spec([], map[])];
            && Printable(schema, ["graph"], [], ["nonsense"])
            && ReadLine(schema, LineFor(["graph"], [], ["nonsense"])) == Refused(NoCommand)
  {
    var schema: Schema := map[["graph"] := Spec([], map[])];
    var words, positionals := ["graph"], ["nonsense"];
    OneCommandIsPrinted(schema, words, [], positionals);
    assert words[0][0] == 'g' && (words + positionals)[0][0] != ALIAS_FROM[0][0];
    LineIsResolved(schema, words, [], positionals);
    CalledIsKept(words, positionals);
    LongestIsLength(schema, words + positionals, 1);
  }

  /** A declared bare flag named `help` is printed, and the line asks for help. */
  lemma HelpFlagIsRefused()
    ensures var schema: Schema := map[["graph"] := Spec([], map["help" := "bool"])];
            && Printable(schema, ["graph"], [Flag("help", None)], [])
            && ReadLine(schema, LineFor(["graph"], [Flag("help", None)], [])).Refused?
  {
    var schema: Schema := map[["graph"] := Spec([], map["help" := "bool"])];
    var words, flags := ["graph"], [Flag("help", None)];
    OneCommandIsPrinted(schema, words, flags, []);
    assert words[0][0] == 'g';
    HelpIsRefused(schema, words, flags, 0, []);
  }

  /** A declared command spelled like the alias is printed, and the line names another. */
  lemma AliasedCommandIsLost()
    ensures var schema: Schema := map[["node", "rm"] := Spec([], map[])];
            && Printable(schema, ["node", "rm"], [], [])
            && ReadLine(schema, LineFor(["node", "rm"], [], [])) == Refused(NoCommand)
  {
    var schema: Schema := map[["node", "rm"] := Spec([], map[])];
    var words := ["node", "rm"];
    OneCommandIsPrinted(schema, words, [], []);
    assert words + [] == words && ALIAS_FROM <= words;
    assert words[0][0] == 'n' && words[1][0] == 'r';
    var all := Rewritten(words);
    assert all == ["node", "remove"];
    LineIsResolved(schema, words, [], []);
    assert forall k: nat :: k <= |all| ==> all[..k] !in schema;
  }

  /** A positional that completes the alias is printed, and read as its canonical word. */
  lemma AliasedPositionalIsChanged()
    ensures var schema: Schema := map[["node"] := Spec([Arg("name", false)], map[])];
            && Printable(schema, ["node"], [], ["rm"])
            && ReadLine(schema, LineFor(["node"], [], ["rm"])) ==
               Invocation(["node"], ["remove"], map["json" := "true"], true)
  {
    var schema: Schema := map[["node"] := Spec([Arg("name", false)], map[])];
    var words, positionals := ["node"], ["rm"];
    OneCommandIsPrinted(schema, words, [], positionals);
    assert words[0][0] == 'n';
    assert words + positionals == ALIAS_FROM && Rewritten(ALIAS_FROM) == ALIAS_TO;
    LineIsResolved(schema, words, [], positionals);
    assert ALIAS_TO[..1] == ["node"] && ALIAS_TO[1..] == ["remove"];
    LongestIsLength(schema, ALIAS_TO, 1);
  }
}
