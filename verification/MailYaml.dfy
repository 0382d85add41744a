// The double-quoted scalars of a note's frontmatter
// (pkgs/aoide/crates/client/src/mail_export.rs, `yaml_quote`), and a reader for them
// after sections 5.7 and 7.3.1 of YAML 1.2.2.
module MailYaml {
  import opened Common
  import opened Mail

  /** Unicode's control characters (general category Cc). */
  predicate Control(c: char) {
    c as int <= 0x1F || 0x7F <= c as int <= 0x9F
  }

  function Escape(c: char): string {
    if c == '"' then "\\\""
    else if c == '\\' then "\\\\"
    else if c == '\n' then "\\n"
    else if c == '\r' then "\\r"
    else if c == '\t' then "\\t"
    else if Control(c) then ['\\', 'x', HexDigit(c as int / 16), HexDigit(c as int % 16)]
    else [c]
  }

  function Escaped(s: string): string {
    if s == "" then "" else Escape(s[0]) + Escaped(s[1..])
  }

  function Quoted(s: string): string {
    "\"" + Escaped(s) + "\""
  }

  /** `yaml_quote`. */
  method YamlQuote(s: string) returns (out: string)
    ensures out == Quoted(s)
  {
    out := "\"";
    for i := 0 to |s|
      invariant out + Escaped(s[i..]) == "\"" + Escaped(s)
    {
      var piece := EscapeOne(s[i]);
      EscapedFirst(s, i, out);
      out := out + piece;
    }
    assert out + Escaped(s[|s|..]) == out;
    out := out + "\"";
  }

  method EscapeOne(c: char) returns (piece: string)
    ensures piece == Escape(c)
  {
    match c {
      case '"' => piece := "\\\"";
      case '\\' => piece := "\\\\";
      case '\n' => piece := "\\n";
      case '\r' => piece := "\\r";
      case '\t' => piece := "\\t";
      case _ =>
        if Control(c) {
          piece := ['\\', 'x', HexDigit(c as int / 16), HexDigit(c as int % 16)];
        } else {
          piece := [c];
        }
    }
  }

  lemma EscapedFirst(s: string, i: nat, before: string)
    requires i < |s|
    ensures before + Escaped(s[i..]) == before + Escape(s[i]) + Escaped(s[i + 1..])
  {
    assert s[i..][1..] == s[i + 1..];
  }

  // ----- Reading a scalar back -----

  function ReadDigit(c: char): Option<nat> {
    if '0' <= c <= '9' then Some(c as int - '0' as int)
    else if 'a' <= c <= 'f' then Some(c as int - 'a' as int + 10)
    else if 'A' <= c <= 'F' then Some(c as int - 'A' as int + 10)
    else None
  }

  function HexNumber(digits: string): Option<nat> {
    if digits == "" then Some(0)
    else
      var most, least := HexNumber(digits[..|digits| - 1]), ReadDigit(digits[|digits| - 1]);
      if most.None? || least.None? then None else Some(16 * most.value + least.value)
  }

  datatype Escapee = Escapee(c: char, used: nat)

  /** The character a fixed number of hexadecimal digits after the escape's letter names. */
  function ReadHex(text: string, digits: nat): Option<Escapee> {
    if |text| < 1 + digits then None
    else
      var code := HexNumber(text[1..1 + digits]);
      if code.Some? && (code.value < 0xD800 || 0xE000 <= code.value < 0x11_0000)
      then Some(Escapee(code.value as char, 1 + digits)) else None
  }

  /** The character a one-letter escape names. */
  function Named(letter: char): Option<char> {
    match letter
    case '0' => Some('\0')
    case 'a' => Some('\U{07}')
    case 'b' => Some('\U{08}')
    case 't' => Some('\t')
    case '\t' => Some('\t')
    case 'n' => Some('\n')
    case 'v' => Some('\U{0B}')
    case 'f' => Some('\U{0C}')
    case 'r' => Some('\r')
    case 'e' => Some('\U{1B}')
    case ' ' => Some(' ')
    case '"' => Some('"')
    case '/' => Some('/')
    case '\\' => Some('\\')
    case 'N' => Some('\U{85}')
    case '_' => Some('\U{A0}')
    case 'L' => Some('\U{2028}')
    case 'P' => Some('\U{2029}')
    case _ => None
  }

  /** An escape's character, after its backslash, and how much of the text it took. */
  function ReadEscape(text: string): (r: Option<Escapee>)
    ensures r.Some? ==> 1 <= r.value.used <= |text|
  {
    if text == "" then None
    else if Named(text[0]).Some? then Some(Escapee(Named(text[0]).value, 1))
    else if text[0] == 'x' then ReadHex(text, 2)
    else if text[0] == 'u' then ReadHex(text, 4)
    else if text[0] == 'U' then ReadHex(text, 8)
    else None
  }

  datatype Scalar = Scalar(value: string, rest: string)

  function Before(c: char, read: Option<Scalar>): Option<Scalar> {
    if read.None? then None else Some(Scalar([c] + read.value.value, read.value.rest))
  }

  /** A scalar's characters up to its closing quote. A scalar broken over lines is not read. */
  function ReadCharacters(text: string): (r: Option<Scalar>)
    ensures r.Some? ==> |r.value.rest| < |text|
    decreases |text|
  {
    if text == "" then None
    else if text[0] == '"' then Some(Scalar("", text[1..]))
    else if text[0] == '\\' then
      var escapee := ReadEscape(text[1..]);
      if escapee.None? then None else Before(escapee.value.c, ReadCharacters(text[1 + escapee.value.used..]))
    else if text[0] < ' ' && text[0] != '\t' then None
    else Before(text[0], ReadCharacters(text[1..]))
  }

  function ReadScalar(text: string): Option<Scalar> {
    if text == "" || text[0] != '"' then None else ReadCharacters(text[1..])
  }

  lemma PairIsNumber(high: nat, low: nat)
    requires high < 16 && low < 16
    ensures HexNumber([HexDigit(high), HexDigit(low)]) == Some(16 * high + low)
  {
    var digits := [HexDigit(high), HexDigit(low)];
    assert digits[..1] == [HexDigit(high)] && [HexDigit(high)][..0] == "";
    assert HexNumber("") == Some(0);
    HexDigitValue(high);
    HexDigitValue(low);
    assert HexNumber([HexDigit(high)]) == Some(high);
  }

  lemma HexDigitValue(n: nat)
    requires n < 16
    ensures ReadDigit(HexDigit(n)) == Some(n)
  {
  }

  lemma HexIsRead(high: char, low: char, rest: string, code: nat)
    requires HexNumber([high, low]) == Some(code) && code < 0x100
    ensures ReadEscape(['x', high, low] + rest) == Some(Escapee(code as char, 3))
  {
    var text := ['x', high, low] + rest;
    assert text[1] == high && text[2] == low;
    assert text[1..3] == [high, low];
    assert Named('x') == None;
  }

  lemma HexEscapeIsRead(c: char, rest: string)
    requires Control(c)
    ensures ReadCharacters(['\\', 'x', HexDigit(c as int / 16), HexDigit(c as int % 16)] + rest) ==
            Before(c, ReadCharacters(rest))
  {
    var code := c as int;
    var high, low := HexDigit(code / 16), HexDigit(code % 16);
    var text := ['\\', 'x', high, low] + rest;
    PairIsNumber(code / 16, code % 16);
    HexIsRead(high, low, rest, code);
    assert text[1..] == ['x', high, low] + rest;
    assert text[4..] == rest;
  }

  lemma PairIsRead(letter: char, c: char, rest: string)
    requires Named(letter) == Some(c)
    ensures ReadCharacters(['\\', letter] + rest) == Before(c, ReadCharacters(rest))
  {
    var text := ['\\', letter] + rest;
    assert text[1..][0] == letter && text[2..] == rest;
  }

  lemma EscapeIsRead(c: char, rest: string)
    ensures ReadCharacters(Escape(c) + rest) == Before(c, ReadCharacters(rest))
  {
    match c {
      case '"' => PairIsRead('"', c, rest);
      case '\\' => PairIsRead('\\', c, rest);
      case '\n' => PairIsRead('n', c, rest);
      case '\r' => PairIsRead('r', c, rest);
      case '\t' => PairIsRead('t', c, rest);
      case _ =>
        if Control(c) {
          HexEscapeIsRead(c, rest);
        } else {
          assert ([c] + rest)[1..] == rest;
        }
    }
  }

  lemma {:induction false} CharactersAreRead(s: string, rest: string)
    ensures ReadCharacters(Escaped(s) + "\"" + rest) == Some(Scalar(s, rest))
  {
    if s == "" {
      assert ("\"" + rest)[1..] == rest;
      assert Escaped(s) + "\"" + rest == "\"" + rest;
    } else {
      var tail := Escaped(s[1..]) + "\"" + rest;
      assert Escaped(s) + "\"" + rest == Escape(s[0]) + tail;
      EscapeIsRead(s[0], tail);
      CharactersAreRead(s[1..], rest);
      assert [s[0]] + s[1..] == s;
    }
  }

  /** A quoted value reads back as itself, whatever follows it. */
  lemma QuoteReadsBack(s: string, rest: string)
    ensures ReadScalar(Quoted(s) + rest) == Some(Scalar(s, rest))
  {
    assert (Quoted(s) + rest)[1..] == Escaped(s) + "\"" + rest;
    CharactersAreRead(s, rest);
  }

  /** Not one of the two ranges of Unicode's control characters. */
  predicate Shown(c: char) { 0x20 <= c as int && (c as int < 0x7F || 0x9F < c as int) }

  /** A quoted value puts no control character on its line, so it never breaks it. */
  lemma {:induction false} QuoteIsOneLine(s: string)
    ensures forall i :: 0 <= i < |Escaped(s)| ==> Shown(Escaped(s)[i])
    ensures forall i :: 0 <= i < |Quoted(s)| ==> Shown(Quoted(s)[i])
  {
    if s != "" {
      QuoteIsOneLine(s[1..]);
      assert forall i :: 0 <= i < |Escape(s[0])| ==> Shown(Escape(s[0])[i]);
    }
  }

  // ----- Lists of scalars -----

  function QuotedList(values: seq<string>): string {
    "[" + Join(Map(Quoted, values), ", ") + "]"
  }

  datatype Values = Values(values: seq<string>, rest: string)

  /** The scalars of a flow sequence, up to its closing bracket. */
  function ReadItems(text: string): Option<Values>
    decreases |text|
  {
    var first := ReadScalar(text);
    if first.None? || first.value.rest == "" then None
    else if first.value.rest[0] == ']' then Some(Values([first.value.value], first.value.rest[1..]))
    else if ", " <= first.value.rest then
      var more := ReadItems(first.value.rest[2..]);
      if more.None? then None else Some(Values([first.value.value] + more.value.values, more.value.rest))
    else None
  }

  function ReadList(text: string): Option<Values> {
    if text == "" || text[0] != '[' then None
    else if "]" <= text[1..] then Some(Values([], text[2..]))
    else ReadItems(text[1..])
  }

  lemma FirstItem(value: string, text: string)
    requires text != "" && (text[0] == ']' || ", " <= text)
    ensures ReadItems(Quoted(value) + text) ==
            if text[0] == ']' then Some(Values([value], text[1..]))
            else
              var more := ReadItems(text[2..]);
              if more.None? then None else Some(Values([value] + more.value.values, more.value.rest))
  {
    QuoteReadsBack(value, text);
  }

  lemma {:induction false} ItemsAreRead(values: seq<string>, rest: string)
    requires values != []
    ensures ReadItems(Join(Map(Quoted, values), ", ") + "]" + rest) == Some(Values(values, rest))
  {
    var quoted := Map(Quoted, values);
    var text := Join(quoted, ", ") + "]" + rest;
    if |values| == 1 {
      assert values == [values[0]];
      assert text == Quoted(values[0]) + ("]" + rest);
      FirstItem(values[0], "]" + rest);
    } else {
      var after := Join(Map(Quoted, values[1..]), ", ") + "]" + rest;
      FirstOfItems(values, rest);
      ItemsAreRead(values[1..], rest);
      OneMoreItem(values[0], after, values[1..], rest);
      assert [values[0]] + values[1..] == values;
    }
  }

  lemma FirstOfItems(values: seq<string>, rest: string)
    requires |values| > 1
    ensures Join(Map(Quoted, values), ", ") + "]" + rest ==
            Quoted(values[0]) + (", " + (Join(Map(Quoted, values[1..]), ", ") + "]" + rest))
  {
    assert Map(Quoted, values)[1..] == Map(Quoted, values[1..]);
  }

  lemma OneMoreItem(value: string, after: string, values: seq<string>, rest: string)
    requires ReadItems(after) == Some(Values(values, rest))
    ensures ReadItems(Quoted(value) + (", " + after)) == Some(Values([value] + values, rest))
  {
    assert (", " + after)[2..] == after && (", " + after)[..2] == ", ";
    FirstItem(value, ", " + after);
  }

  /** A list of quoted values reads back as those values, whatever characters they hold. */
  lemma ListReadsBack(values: seq<string>, rest: string)
    ensures ReadList(QuotedList(values) + rest) == Some(Values(values, rest))
  {
    var text := QuotedList(values) + rest;
    if values == [] {
      assert text[1..] == "]" + rest && text[2..] == rest;
    } else {
      assert text[1..] == Join(Map(Quoted, values), ", ") + "]" + rest;
      ItemsAreRead(values, rest);
      assert text[1] == '"';
    }
  }
}
