// What several of the models share: options, bytes, lower-case hexadecimal, and white space.
module Common {

  datatype Option<+T> = None | Some(value: T)

  type Byte = n: nat | n < 256

  /** What SHA-256 gives; the digest itself is not part of these models. */
  type Digest = d: seq<Byte> | |d| == 32 witness seq(32, _ => 0)

  /** Unicode's white space. */
  predicate White(c: char) {
    var n := c as int;
    9 <= n <= 13 || n in {0x20, 0x85, 0xA0, 0x1680, 0x2028, 0x2029, 0x202F, 0x205F, 0x3000} || 0x2000 <= n <= 0x200A
  }

  /** The 25 characters with the property White_Space in Unicode's PropList.txt. */
  const WHITE_SPACE: set<int> := {
    0x9, 0xA, 0xB, 0xC, 0xD, 0x20, 0x85, 0xA0, 0x1680, 0x2000, 0x2001, 0x2002, 0x2003, 0x2004, 0x2005, 0x2006, 0x2007,
    0x2008, 0x2009, 0x200A, 0x2028, 0x2029, 0x202F, 0x205F, 0x3000
  }

  lemma WhiteIsUnicodes(c: char)
    ensures White(c) <==> c as int in WHITE_SPACE
  {
  }

  // ----- Lower-case hexadecimal -----

  function HexDigit(n: nat): char
    requires n < 16
  {
    "0123456789abcdef"[n]
  }

  predicate IsHex(c: char) { '0' <= c <= '9' || 'a' <= c <= 'f' }

  function HexValue(c: char): (n: nat)
    requires IsHex(c)
    ensures n < 16
  {
    if c <= '9' then c as int - '0' as int else c as int - 'a' as int + 10
  }

  function HexPair(b: Byte): string {
    [HexDigit(b / 16), HexDigit(b % 16)]
  }

  function Hex(bytes: seq<Byte>): string {
    if bytes == [] then "" else HexPair(bytes[0]) + Hex(bytes[1..])
  }

  /** A byte's two digits in a text. */
  predicate PairIs(text: string, i: nat, byte: Byte) {
    && 2 * i + 1 < |text| && IsHex(text[2 * i]) && IsHex(text[2 * i + 1])
    && HexValue(text[2 * i]) * 16 + HexValue(text[2 * i + 1]) == byte
  }

  lemma HexDigitBack(n: nat)
    requires n < 16
    ensures IsHex(HexDigit(n)) && HexValue(HexDigit(n)) == n
  {
  }

  lemma HexValueBack(c: char)
    requires IsHex(c)
    ensures HexDigit(HexValue(c)) == c
  {
  }

  lemma {:induction false} HexAt(bytes: seq<Byte>, i: nat)
    requires i < |bytes|
    ensures |Hex(bytes)| == 2 * |bytes|
    ensures Hex(bytes)[2 * i] == HexDigit(bytes[i] / 16) && Hex(bytes)[2 * i + 1] == HexDigit(bytes[i] % 16)
  {
    if |bytes| > 1 {
      HexAt(bytes[1..], if i > 0 then i - 1 else 0);
    }
  }

  lemma {:induction false} HexIsPlain(bytes: seq<Byte>)
    ensures |Hex(bytes)| == 2 * |bytes| && forall i :: 0 <= i < |Hex(bytes)| ==> IsHex(Hex(bytes)[i])
  {
    if bytes != [] {
      HexIsPlain(bytes[1..]);
    }
  }

  lemma {:induction false} HexIsInjective(a: seq<Byte>, b: seq<Byte>)
    requires |a| == |b| && Hex(a) == Hex(b)
    ensures a == b
  {
    if a != [] {
      HexPairIsInjective(a[0], b[0], Hex(a[1..]), Hex(b[1..]));
      HexIsInjective(a[1..], b[1..]);
      assert a == [a[0]] + a[1..] && b == [b[0]] + b[1..];
    }
  }

  lemma HexPairIsInjective(a: Byte, b: Byte, s: string, t: string)
    requires HexPair(a) + s == HexPair(b) + t
    ensures a == b && s == t
  {
    assert (HexPair(a) + s)[0] == HexPair(a)[0] && (HexPair(b) + t)[0] == HexPair(b)[0];
    assert (HexPair(a) + s)[1] == HexPair(a)[1] && (HexPair(b) + t)[1] == HexPair(b)[1];
    assert (HexPair(a) + s)[2..] == s && (HexPair(b) + t)[2..] == t;
    HexDigitBack(a / 16);
    HexDigitBack(b / 16);
    HexDigitBack(a % 16);
    HexDigitBack(b % 16);
  }
}
