// The charter's base64 (pkgs/aoide/crates/client/src/charter.rs, `base64_decode`;
// pkgs/aoide/crates/server/src/a2a.rs, `base64_bytes`).
module Base64 {
  import opened Common

  type Sextet = n: nat | n < 64

  // ----- Bits -----

  function Pow2(n: nat): (p: nat)
    ensures p > 0
  {
    if n == 0 then 1 else 2 * Pow2(n - 1)
  }

  /** The low `k` bits of a number, the highest first. */
  function Low(n: nat, k: nat): (bits: seq<bool>)
    ensures |bits| == k
  {
    if k == 0 then [] else Low(n / 2, k - 1) + [n % 2 == 1]
  }

  lemma Twice(a: nat, p: nat)
    ensures a * (2 * p) == 2 * (a * p)
  {
  }

  lemma HalfOfSum(a: nat, v: nat, m: nat)
    requires m > 0
    ensures (a * Pow2(m) + v) / 2 == a * Pow2(m - 1) + v / 2 && (a * Pow2(m) + v) % 2 == v % 2
  {
    Twice(a, Pow2(m - 1));
    var q := a * Pow2(m - 1);
    assert a * Pow2(m) + v == 2 * q + v;
  }

  lemma {:induction false} LowOfSum(a: nat, v: nat, k: nat, m: nat)
    requires v < Pow2(m)
    ensures Low(a * Pow2(m) + v, k + m) == Low(a, k) + Low(v, m)
  {
    if m > 0 {
      HalfOfSum(a, v, m);
      LowOfSum(a, v / 2, k, m - 1);
    }
  }

  /** A number shifted right. */
  function Shr(n: nat, m: nat): nat {
    if m == 0 then n else Shr(n / 2, m - 1)
  }

  lemma {:induction false} LowSplits(n: nat, k: nat, m: nat)
    ensures Low(n, k + m) == Low(Shr(n, m), k) + Low(n, m)
  {
    if m > 0 {
      LowSplits(n / 2, k, m - 1);
    }
  }

  lemma {:induction false} ShrAgain(n: nat, a: nat, b: nat)
    ensures Shr(Shr(n, a), b) == Shr(n, a + b)
  {
    if a > 0 {
      ShrAgain(n / 2, a - 1, b);
    }
  }

  /** A multiple of a higher power of two leaves the low bits as they are. */
  lemma {:induction false} LowIgnoresHigh(a: nat, v: nat, k: nat, m: nat)
    requires k <= m
    ensures Low(a * Pow2(m) + v, k) == Low(v, k)
  {
    if k > 0 {
      HalfOfSum(a, v, m);
      LowIgnoresHigh(a, v / 2, k - 1, m - 1);
    }
  }

  lemma Powers()
    ensures Pow2(6) == 64 && Pow2(8) == 256 && Pow2(32) == 0x1_0000_0000
  {
    assert Pow2(12) == 4096;
    assert Pow2(18) == 262144;
    assert Pow2(24) == 16777216;
  }

  lemma LowOfSextet(n: nat)
    ensures Low(n % 64, 6) == Low(n, 6)
  {
    Powers();
    LowIgnoresHigh(n / 64, n % 64, 6, 6);
  }

  function ByteBits(bytes: seq<Byte>): (bits: seq<bool>)
    ensures |bits| == 8 * |bytes|
  {
    if bytes == [] then [] else ByteBits(bytes[..|bytes| - 1]) + Low(bytes[|bytes| - 1], 8)
  }

  function SextetBits(sextets: seq<Sextet>): (bits: seq<bool>)
    ensures |bits| == 6 * |sextets|
  {
    if sextets == [] then [] else SextetBits(sextets[..|sextets| - 1]) + Low(sextets[|sextets| - 1], 6)
  }

  lemma Regroup<T>(a: seq<T>, b: seq<T>, c: seq<T>)
    ensures a + b + c == a + (b + c)
  {
  }

  lemma SextetBitsOfMore(a: seq<Sextet>, v: Sextet)
    ensures SextetBits(a + [v]) == SextetBits(a) + Low(v, 6)
  {
    assert (a + [v])[..|a|] == a;
  }

  lemma {:induction false} SextetBitsOfBoth(a: seq<Sextet>, b: seq<Sextet>)
    ensures SextetBits(a + b) == SextetBits(a) + SextetBits(b)
  {
    if b == [] {
      assert a + b == a;
    } else {
      var before, last := b[..|b| - 1], b[|b| - 1];
      calc {
        SextetBits(a + b);
      ==  { assert a + b == (a + before) + [last]; }
        SextetBits((a + before) + [last]);
      ==  { SextetBitsOfMore(a + before, last); }
        SextetBits(a + before) + Low(last, 6);
      ==  { SextetBitsOfBoth(a, before); }
        (SextetBits(a) + SextetBits(before)) + Low(last, 6);
      ==  { Regroup(SextetBits(a), SextetBits(before), Low(last, 6)); }
        SextetBits(a) + (SextetBits(before) + Low(last, 6));
      ==
        SextetBits(a) + SextetBits(b);
      }
    }
  }

  lemma ByteBitsOfMore(a: seq<Byte>, b: Byte)
    ensures ByteBits(a + [b]) == ByteBits(a) + Low(b, 8)
  {
    assert (a + [b])[..|a|] == a;
  }

  lemma {:induction false} ByteBitsOfBoth(a: seq<Byte>, b: seq<Byte>)
    ensures ByteBits(a + b) == ByteBits(a) + ByteBits(b)
  {
    if b == [] {
      assert a + b == a;
    } else {
      var before, last := b[..|b| - 1], b[|b| - 1];
      calc {
        ByteBits(a + b);
      ==  { assert a + b == (a + before) + [last]; }
        ByteBits((a + before) + [last]);
      ==  { ByteBitsOfMore(a + before, last); }
        ByteBits(a + before) + Low(last, 8);
      ==  { ByteBitsOfBoth(a, before); }
        (ByteBits(a) + ByteBits(before)) + Low(last, 8);
      ==  { Regroup(ByteBits(a), ByteBits(before), Low(last, 8)); }
        ByteBits(a) + (ByteBits(before) + Low(last, 8));
      ==
        ByteBits(a) + ByteBits(b);
      }
    }
  }

  lemma {:induction false} LowIsInjective(a: nat, b: nat, k: nat)
    requires a < Pow2(k) && b < Pow2(k) && Low(a, k) == Low(b, k)
    ensures a == b
  {
    if k > 0 {
      assert Low(a, k)[..k - 1] == Low(a / 2, k - 1) && Low(b, k)[..k - 1] == Low(b / 2, k - 1);
      assert Low(a, k)[k - 1] == (a % 2 == 1) && Low(b, k)[k - 1] == (b % 2 == 1);
      LowIsInjective(a / 2, b / 2, k - 1);
    }
  }

  /** Bits read as whole bytes, with fewer than eight left over, are those bytes and no others. */
  lemma {:induction false} BytesAreUnique(a: seq<Byte>, b: seq<Byte>, x: seq<bool>, y: seq<bool>)
    requires ByteBits(a) + x == ByteBits(b) + y && |x| < 8 && |y| < 8
    ensures a == b && x == y
  {
    assert 8 * |a| + |x| == 8 * |b| + |y|;
    assert |a| == |b| && |x| == |y|;
    assert ByteBits(a) == (ByteBits(a) + x)[..8 * |a|] == (ByteBits(b) + y)[..8 * |b|] == ByteBits(b);
    assert x == (ByteBits(a) + x)[8 * |a|..] == (ByteBits(b) + y)[8 * |b|..] == y;
    if a != [] {
      var n := |a| - 1;
      assert ByteBits(a)[8 * n..] == Low(a[n], 8) && ByteBits(b)[8 * n..] == Low(b[n], 8);
      assert ByteBits(a)[..8 * n] == ByteBits(a[..n]) && ByteBits(b)[..8 * n] == ByteBits(b[..n]);
      assert Pow2(8) == 256;
      LowIsInjective(a[n], b[n], 8);
      BytesAreUnique(a[..n], b[..n], [], []);
      assert a == a[..n] + [a[n]] && b == b[..n] + [b[n]];
    }
  }

  // ----- The alphabet -----

  function Letter(v: Sextet): char {
    if v < 26 then ('A' as int + v) as char
    else if v < 52 then ('a' as int + v - 26) as char
    else if v < 62 then ('0' as int + v - 52) as char
    else if v == 62 then '+'
    else '/'
  }

  function Value(c: char): (v: Option<Sextet>)
    ensures v.Some? ==> Letter(v.value) == c
  {
    if 'A' <= c <= 'Z' then Some(c as int - 'A' as int)
    else if 'a' <= c <= 'z' then Some(c as int - 'a' as int + 26)
    else if '0' <= c <= '9' then Some(c as int - '0' as int + 52)
    else if c == '+' then Some(62)
    else if c == '/' then Some(63)
    else None
  }

  predicate Skipped(c: char) { c == '\n' || c == '\r' }

  /** A character that neither carries bits nor is passed over nor ends the text. */
  predicate Stray(c: char) { Value(c).None? && !Skipped(c) && c != '=' }

  const UPPER: string := "ABCDEFGHIJKLMNOPQRSTUVWXYZ"
  const LOWER: string := "abcdefghijklmnopqrstuvwxyz"
  const DIGITS: string := "0123456789"
  const ALPHABET: string := UPPER + LOWER + DIGITS + "+/"

  /** The letters of table 1 of RFC 4648, in order; any other character but a line break and `=` is a stray. */
  lemma LettersAreTheAlphabet(v: Sextet, c: char)
    ensures Letter(v) == ALPHABET[v]
    ensures Value(c) == Some(v) <==> c == ALPHABET[v]
    ensures Stray(c) <==> c !in ALPHABET && c !in "\r\n="
  {
    AlphabetAt(v);
    LetterIsRead(v);
    if Value(c).Some? {
      AlphabetAt(Value(c).value);
    }
    if i :| 0 <= i < |ALPHABET| && ALPHABET[i] == c {
      AlphabetAt(i);
      LetterIsRead(i);
    }
  }

  lemma AlphabetAt(v: Sextet)
    ensures Letter(v) == ALPHABET[v]
  {
    if v < 26 {
      UpperAt(v);
    } else if v < 52 {
      LowerAt(v - 26);
    } else if v < 62 {
      DigitAt(v - 52);
    }
  }

  lemma UpperAt(n: nat)
    requires n < 26
    ensures UPPER[n] as int == 'A' as int + n
  {
  }

  lemma LowerAt(n: nat)
    requires n < 26
    ensures LOWER[n] as int == 'a' as int + n
  {
  }

  lemma DigitAt(n: nat)
    requires n < 10
    ensures DIGITS[n] as int == '0' as int + n
  {
  }

  /** What is trimmed is white, and what is left neither begins nor ends so. */
  lemma TrimIs(s: string) returns (before: string, after: string)
    ensures s == before + Trim(s) + after
    ensures (forall c :: c in before ==> White(c)) && (forall c :: c in after ==> White(c))
    ensures Trim(s) != "" ==> !White(Trim(s)[0]) && !White(Trim(s)[|Trim(s)| - 1])
  {
    before := StartIs(s);
    after := EndIs(TrimStart(s));
    assert s == before + (Trim(s) + after);
    if Trim(s) != "" {
      assert Trim(s)[0] == TrimStart(s)[0];
    }
  }

  lemma {:induction false} StartIs(s: string) returns (before: string)
    ensures s == before + TrimStart(s) && (forall c :: c in before ==> White(c))
    ensures TrimStart(s) != "" ==> !White(TrimStart(s)[0])
  {
    before := "";
    if s != "" && White(s[0]) {
      var rest := StartIs(s[1..]);
      before := [s[0]] + rest;
      assert s == [s[0]] + s[1..];
    }
  }

  lemma {:induction false} EndIs(s: string) returns (after: string)
    ensures s == TrimEnd(s) + after && (forall c :: c in after ==> White(c))
    ensures TrimEnd(s) != "" ==> !White(TrimEnd(s)[|TrimEnd(s)| - 1])
  {
    after := "";
    if s != "" && White(s[|s| - 1]) {
      var rest := EndIs(s[..|s| - 1]);
      after := rest + [s[|s| - 1]];
      assert s == s[..|s| - 1] + [s[|s| - 1]];
    }
  }

  function TrimStart(s: string): string {
    if s != "" && White(s[0]) then TrimStart(s[1..]) else s
  }

  function TrimEnd(s: string): string {
    if s != "" && White(s[|s| - 1]) then TrimEnd(s[..|s| - 1]) else s
  }

  function Trim(s: string): string { TrimEnd(TrimStart(s)) }

  // ----- Encoding -----

  /** A chunk's byte, or zero past its end. */
  function At(chunk: seq<Byte>, i: nat): Byte {
    if i < |chunk| then chunk[i] else 0
  }

  /** The numbers a chunk stands for, as one. */
  function Packed(chunk: seq<Byte>): nat {
    At(chunk, 0) * 65536 + At(chunk, 1) * 256 + At(chunk, 2)
  }

  function SixBits(n: nat): Sextet { n % 64 }

  /** A 24-bit number's four sextets. */
  function Four(n: nat): (four: seq<Sextet>)
    ensures |four| == 4
  {
    [SixBits(Shr(n, 18)), SixBits(Shr(n, 12)), SixBits(Shr(n, 6)), SixBits(n)]
  }

  function Quad(chunk: seq<Byte>): string
    requires 1 <= |chunk| <= 3
  {
    var four := Four(Packed(chunk));
    [Letter(four[0]), Letter(four[1]),
     if |chunk| > 1 then Letter(four[2]) else '=',
     if |chunk| > 2 then Letter(four[3]) else '=']
  }

  function Encoded(bytes: seq<Byte>): string {
    if bytes == [] then ""
    else if |bytes| <= 3 then Quad(bytes)
    else Quad(bytes[..3]) + Encoded(bytes[3..])
  }

  lemma EncodedSplits(bytes: seq<Byte>, i: nat, end: nat)
    requires i < end <= |bytes| && (end == i + 3 || (end == |bytes| < i + 3))
    ensures Encoded(bytes[i..]) == Quad(bytes[i..end]) + Encoded(bytes[end..])
  {
    var rest := bytes[i..];
    assert bytes[i..end] == rest[..end - i] && bytes[end..] == rest[end - i..];
    if |rest| <= 3 {
      assert rest[..end - i] == rest;
    }
  }

  /** `base64_bytes`. */
  method Encode(bytes: seq<Byte>) returns (out: string)
    ensures out == Encoded(bytes)
  {
    out := "";
    var i := 0;
    while i < |bytes|
      invariant i <= |bytes|
      invariant out + Encoded(bytes[i..]) == Encoded(bytes)
    {
      var end := if i + 3 <= |bytes| then i + 3 else |bytes|;
      var chunk := bytes[i..end];
      EncodedSplits(bytes, i, end);
      out := out + Quad(chunk);
      i := end;
    }
    assert bytes[i..] == [];
  }

  // ----- Decoding -----

  datatype Result = Ok(bytes: seq<Byte>) | Err(at: nat)

  /** The sextets a text carries, up to its first `=`. */
  function Sextets(text: string): seq<Sextet> {
    if text == "" || text[0] == '=' then []
    else if Value(text[0]).Some? then [Value(text[0]).value] + Sextets(text[1..])
    else Sextets(text[1..])
  }

  /** Neither a stray character nor an `=` among the first of a text. */
  predicate Clean(text: string, n: nat)
    requires n <= |text|
  {
    forall k :: 0 <= k < n ==> !Stray(text[k]) && text[k] != '='
  }

  /** Where the first stray character before any `=` is, if there is one. */
  function FirstStray(text: string): (at: Option<nat>)
    ensures at.Some? ==>
              && at.value < |text| && Stray(text[at.value])
              && forall k :: 0 <= k < at.value ==> !Stray(text[k]) && text[k] != '='
    ensures at.None? ==> forall i :: 0 <= i < |text| && Stray(text[i]) ==> exists k :: 0 <= k < i && text[k] == '='
  {
    if text == "" || text[0] == '=' then None
    else if Stray(text[0]) then Some(0)
    else
      var later := FirstStray(text[1..]);
      if later.Some? then Some(later.value + 1) else None
  }

  /** What the decoder's register holds: it is 32 bits wide, and its old bits are never cleared. */
  function Shifted(acc: nat, v: Sextet): (r: nat)
    ensures r < 0x1_0000_0000
  {
    (acc * 64 + v) % 0x1_0000_0000
  }

  /** Six more bits below the pending ones, whatever the register held above them. */
  lemma ShiftedBits(acc: nat, v: Sextet, bits: nat)
    requires bits < 8
    ensures Low(Shifted(acc, v), bits + 6) == Low(acc, bits) + Low(v, 6)
  {
    LowOfSixMore(acc, v, bits);
    LowOfRegister(acc * 64 + v, bits + 6);
  }

  lemma LowOfSixMore(n: nat, v: Sextet, k: nat)
    ensures Low(n * 64 + v, k + 6) == Low(n, k) + Low(v, 6)
  {
    Powers();
    LowOfSum(n, v, k, 6);
  }

  lemma LowOfRegister(n: nat, k: nat)
    requires k <= 32
    ensures Low(n % 0x1_0000_0000, k) == Low(n, k)
  {
    Powers();
    LowIgnoresHigh(n / 0x1_0000_0000, n % 0x1_0000_0000, k, 32);
  }

  /** Taking a byte off the top of the pending bits leaves the rest of them. */
  lemma TakenBits(acc: nat, bits: nat)
    ensures Low(acc, bits + 8) == Low(Shr(acc, bits) % 256, 8) + Low(acc, bits)
  {
    var n := Shr(acc, bits);
    Powers();
    LowSplits(acc, 8, bits);
    LowIgnoresHigh(n / 256, n % 256, 8, 8);
  }

  /** The bytes given out and the pending bits are together the bits read so far. */
  predicate Holds(out: seq<Byte>, acc: nat, bits: nat, read: seq<Sextet>) {
    ByteBits(out) + Low(acc, bits) == SextetBits(read)
  }

  lemma HoldsMore(out: seq<Byte>, acc: nat, bits: nat, read: seq<Sextet>, v: Sextet)
    requires bits < 8 && Holds(out, acc, bits, read)
    ensures Holds(out, Shifted(acc, v), bits + 6, read + [v])
  {
    assert (read + [v])[..|read|] == read;
    ShiftedBits(acc, v, bits);
  }

  lemma HoldsLess(out: seq<Byte>, acc: nat, bits: nat, read: seq<Sextet>)
    requires Holds(out, acc, bits + 8, read)
    ensures Holds(out + [Shr(acc, bits) % 256], acc, bits, read)
  {
    var b: Byte := Shr(acc, bits) % 256;
    assert (out + [b])[..|out|] == out;
    TakenBits(acc, bits);
  }

  /** A text's sextets are these bytes' bits and fewer than eight more. */
  predicate Carries(text: string, bytes: seq<Byte>) {
    var bits := SextetBits(Sextets(text));
    8 * |bytes| <= |bits| < 8 * |bytes| + 8 && bits[..8 * |bytes|] == ByteBits(bytes)
  }

  lemma {:induction false} SextetsOfMore(text: string, i: nat)
    requires i < |text| && Clean(text, i) && text[i] != '='
    ensures Sextets(text[..i + 1]) ==
            if Value(text[i]).Some? then Sextets(text[..i]) + [Value(text[i]).value] else Sextets(text[..i])
  {
    if i == 0 {
      assert text[..1][1..] == "";
    } else {
      assert text[..i + 1][1..] == text[1..][..i] && text[..i][1..] == text[1..][..i - 1];
      SextetsOfMore(text[1..], i - 1);
    }
  }

  lemma {:induction false} SextetsEnd(text: string, i: nat)
    requires i < |text| && text[i] == '='
    ensures Sextets(text[..i]) == Sextets(text)
  {
    if i > 0 && text[0] != '=' {
      assert text[..i][1..] == text[1..][..i - 1];
      SextetsEnd(text[1..], i - 1);
    }
  }

  /**
   * What the decoder gives for a trimmed text: an error at the first stray character before any `=`, else the bytes
   * carried.
   */
  predicate Reads(text: string, r: Result) {
    match r
    case Err(at) => FirstStray(text) == Some(at)
    case Ok(bytes) => FirstStray(text) == None && Carries(text, bytes)
  }

  lemma ReadsToEnd(text: string, end: nat, out: seq<Byte>, acc: nat, bits: nat)
    requires end <= |text| && (end < |text| ==> text[end] == '=') && Clean(text, end)
    requires bits < 8 && Holds(out, acc, bits, Sextets(text[..end]))
    ensures Reads(text, Ok(out))
  {
    if end < |text| {
      SextetsEnd(text, end);
    } else {
      assert text[..end] == text;
    }
  }

  /** Where the decoder stands after the first characters of a text. */
  predicate Standing(text: string, n: nat, out: seq<Byte>, acc: nat, bits: nat) {
    n <= |text| && Clean(text, n) && bits < 8 && Holds(out, acc, bits, Sextets(text[..n]))
  }

  /** `base64_decode`. */
  method Decode(text: string) returns (r: Result)
    ensures Reads(Trim(text), r)
  {
    r := ReadAll(Trim(text));
  }

  method ReadAll(t: string) returns (r: Result)
    ensures Reads(t, r)
  {
    var out: seq<Byte>, acc: nat, bits: nat := [], 0, 0;
    var i := 0;
    while i < |t| && t[i] != '='
      invariant Standing(t, i, out, acc, bits)
    {
      var v := Value(t[i]);
      if v.Some? {
        out, acc, bits := TakeSextet(out, acc, bits, v.value, t, i);
      } else if !Skipped(t[i]) {
        return Err(i);
      } else {
        SkipsOne(t, i, out, acc, bits);
      }
      i := i + 1;
    }
    ReadsToEnd(t, i, out, acc, bits);
    r := Ok(out);
  }

  lemma SkipsOne(text: string, i: nat, out: seq<Byte>, acc: nat, bits: nat)
    requires i < |text| && text[i] != '=' && Value(text[i]).None? && Skipped(text[i])
    requires Standing(text, i, out, acc, bits)
    ensures Standing(text, i + 1, out, acc, bits)
  {
    SextetsOfMore(text, i);
  }

  /** One character's six bits: shifted in, and a byte given out once eight are there. */
  method TakeSextet(before: seq<Byte>, register: nat, pending: nat, v: Sextet, ghost text: string, ghost i: nat)
    returns (out: seq<Byte>, acc: nat, bits: nat)
    requires i < |text| && Value(text[i]) == Some(v) && Standing(text, i, before, register, pending)
    ensures acc < 0x1_0000_0000 && Standing(text, i + 1, out, acc, bits)
  {
    SextetsOfMore(text, i);
    HoldsNext(before, register, pending, Sextets(text[..i]), v);
    assert Clean(text, i + 1) && Sextets(text[..i + 1]) == Sextets(text[..i]) + [v];
    out, acc, bits := before, Shifted(register, v), pending + 6;
    if bits >= 8 {
      bits := bits - 8;
      out := out + [Shr(acc, bits) % 256];
    }
  }

  lemma HoldsNext(out: seq<Byte>, acc: nat, bits: nat, read: seq<Sextet>, v: Sextet)
    requires bits < 8 && Holds(out, acc, bits, read)
    ensures var next := Shifted(acc, v);
            if bits < 2 then Holds(out, next, bits + 6, read + [v])
            else Holds(out + [Shr(next, bits - 2) % 256], next, bits - 2, read + [v])
  {
    HoldsMore(out, acc, bits, read, v);
    if bits >= 2 {
      HoldsLess(out, Shifted(acc, v), bits - 2, read + [v]);
    }
  }

  /** A text carries one byte string. */
  lemma CarriesOne(text: string, a: seq<Byte>, b: seq<Byte>)
    requires Carries(text, a) && Carries(text, b)
    ensures a == b
  {
    var bits := SextetBits(Sextets(text));
    assert bits == ByteBits(a) + bits[8 * |a|..] == ByteBits(b) + bits[8 * |b|..];
    BytesAreUnique(a, b, bits[8 * |a|..], bits[8 * |b|..]);
  }

  // ----- The decoder inverts the encoder -----

  /** A text without its carriage returns and newlines. */
  function Unbroken(text: string): string {
    if text == "" then ""
    else if Skipped(text[0]) then Unbroken(text[1..])
    else [text[0]] + Unbroken(text[1..])
  }

  lemma {:induction false} SextetsOfUnbroken(text: string)
    ensures Sextets(Unbroken(text)) == Sextets(text)
    ensures FirstStray(Unbroken(text)).None? <==> FirstStray(text).None?
  {
    if text != "" && text[0] != '=' {
      SextetsOfUnbroken(text[1..]);
      if Skipped(text[0]) {
        assert Unbroken(text) == Unbroken(text[1..]);
      } else {
        assert Unbroken(text)[1..] == Unbroken(text[1..]);
      }
    }
  }

  lemma {:induction false} UnbrokenOfBoth(a: string, b: string)
    ensures Unbroken(a + b) == Unbroken(a) + Unbroken(b)
  {
    if a == "" {
      assert a + b == b;
    } else {
      assert (a + b)[1..] == a[1..] + b;
      UnbrokenOfBoth(a[1..], b);
    }
  }

  /** Trimming takes off white space at the ends and nothing else. */
  lemma {:induction false} TrimTakesWhite(s: string)
    ensures exists a, b :: s == a + Trim(s) + b && (forall c :: c in a + b ==> White(c))
  {
    var start := TrimStart(s);
    StartTakesWhite(s);
    EndTakesWhite(start);
    var a :| s == a + start && forall c :: c in a ==> White(c);
    var b :| start == Trim(s) + b && forall c :: c in b ==> White(c);
    assert s == a + Trim(s) + b;
  }

  lemma {:induction false} StartTakesWhite(s: string)
    ensures exists a :: s == a + TrimStart(s) && (forall c :: c in a ==> White(c))
  {
    if s != "" && White(s[0]) {
      StartTakesWhite(s[1..]);
      var a :| s[1..] == a + TrimStart(s[1..]) && forall c :: c in a ==> White(c);
      assert s == [s[0]] + a + TrimStart(s);
    } else {
      assert s == "" + TrimStart(s);
    }
  }

  lemma {:induction false} EndTakesWhite(s: string)
    ensures exists b :: s == TrimEnd(s) + b && (forall c :: c in b ==> White(c))
  {
    if s != "" && White(s[|s| - 1]) {
      EndTakesWhite(s[..|s| - 1]);
      var b :| s[..|s| - 1] == TrimEnd(s[..|s| - 1]) + b && forall c :: c in b ==> White(c);
      assert s == TrimEnd(s) + (b + [s[|s| - 1]]);
    } else {
      assert s == TrimEnd(s) + "";
    }
  }

  lemma {:induction false} KeptIsUnbroken(s: string)
    ensures forall c :: c in Unbroken(s) <==> c in s && !Skipped(c)
  {
    if s != "" {
      KeptIsUnbroken(s[1..]);
      assert s == [s[0]] + s[1..];
    }
  }

  lemma {:induction false} AllSkipped(s: string)
    requires forall c :: c in s ==> Skipped(c)
    ensures Unbroken(s) == ""
  {
    if s != "" {
      AllSkipped(s[1..]);
    }
  }

  lemma TrimKeepsUnbroken(s: string)
    requires forall c :: c in Unbroken(s) ==> !White(c)
    ensures Unbroken(Trim(s)) == Unbroken(s)
  {
    TrimTakesWhite(s);
    var a, b :| s == a + Trim(s) + b && forall c :: c in a + b ==> White(c);
    KeptIsUnbroken(s);
    assert forall c :: c in a ==> c in a + b && c in s;
    assert forall c :: c in b ==> c in a + b && c in s;
    AllSkipped(a);
    AllSkipped(b);
    UnbrokenOfBoth(a + Trim(s), b);
    UnbrokenOfBoth(a, Trim(s));
  }

  lemma LetterIsRead(v: Sextet)
    ensures Value(Letter(v)) == Some(v) && Letter(v) != '=' && !Skipped(Letter(v)) && !White(Letter(v))
  {
  }

  /** What a chunk's sextets are. */
  function Parts(chunk: seq<Byte>): seq<Sextet>
    requires 1 <= |chunk| <= 3
  {
    Four(Packed(chunk))[..|chunk| + 1]
  }

  lemma LowAsSextets(n: nat, k: nat)
    ensures Low(n, k + 6) == Low(Shr(n, 6), k) + Low(SixBits(n), 6)
  {
    LowSplits(n, k, 6);
    LowOfSextet(n);
  }

  lemma LowAsTwoSextets(n: nat)
    ensures Low(n, 12) == Low(SixBits(Shr(n, 6)), 6) + Low(SixBits(n), 6)
  {
    LowAsSextets(n, 6);
    LowOfSextet(Shr(n, 6));
  }

  /** A number's low bits are those of some sextets. */
  predicate IsSplit(n: nat, sextets: seq<Sextet>) { SextetBits(sextets) == Low(n, 6 * |sextets|) }

  lemma PackedAsSextets(n: nat)
    ensures IsSplit(n, Four(n))
  {
    LowSplits(n, 12, 12);
    LowAsTwoSextets(n);
    LowAsTwoSextets(Shr(n, 12));
    ShrAgain(n, 12, 6);
    SextetBitsOfFour(SixBits(Shr(n, 18)), SixBits(Shr(n, 12)), SixBits(Shr(n, 6)), SixBits(n));
  }

  lemma SextetBitsOfFour(a: Sextet, b: Sextet, c: Sextet, d: Sextet)
    ensures SextetBits([a, b, c, d]) == Low(a, 6) + Low(b, 6) + Low(c, 6) + Low(d, 6)
  {
    assert [a, b, c, d][..3] == [a, b, c] && [a, b, c][..2] == [a, b] && [a, b][..1] == [a] && [a][..0] == [];
    assert SextetBits([a, b]) == Low(a, 6) + Low(b, 6);
    assert SextetBits([a, b, c]) == Low(a, 6) + Low(b, 6) + Low(c, 6);
  }

  lemma {:induction false} SextetBitsOfFirst(sextets: seq<Sextet>, k: nat)
    requires k <= |sextets|
    ensures SextetBits(sextets[..k]) == SextetBits(sextets)[..6 * k]
  {
    SextetBitsOfBoth(sextets[..k], sextets[k..]);
    assert sextets == sextets[..k] + sextets[k..];
  }

  lemma FirstOfThree<T>(a: seq<T>, b: seq<T>, c: seq<T>)
    ensures (a + b + c)[..|a|] == a && (a + b + c)[..|a| + |b|] == a + b
  {
  }

  lemma LowOfByte(a: nat, v: Byte, k: nat)
    ensures Low(a * 256 + v, k + 8) == Low(a, k) + Low(v, 8)
  {
    Powers();
    LowOfSum(a, v, k, 8);
  }

  lemma PackedBits(a: Byte, b: Byte, c: Byte)
    ensures Low(a * 65536 + b * 256 + c, 24) == Low(a, 8) + Low(b, 8) + Low(c, 8)
  {
    LowOfByte(a * 256 + b, c, 16);
    LowOfByte(a, b, 8);
  }

  lemma BitsOfOne(a: Byte)
    ensures ByteBits([a]) == Low(a, 8)
  {
    ByteBitsOfMore([], a);
    assert [] + [a] == [a];
  }

  lemma BitsOfTwo(a: Byte, b: Byte)
    ensures ByteBits([a, b]) == Low(a, 8) + Low(b, 8)
  {
    BitsOfOne(a);
    ByteBitsOfMore([a], b);
    assert [a] + [b] == [a, b];
  }

  lemma BitsOfThree(a: Byte, b: Byte, c: Byte)
    ensures ByteBits([a, b, c]) == Low(a, 8) + Low(b, 8) + Low(c, 8)
  {
    BitsOfTwo(a, b);
    ByteBitsOfMore([a, b], c);
    assert [a, b] + [c] == [a, b, c];
  }

  /** A chunk's bytes are the first bits of its packed number. */
  predicate PacksItsBits(chunk: seq<Byte>) {
    ByteBits(chunk) <= Low(Packed(chunk), 24)
  }

  lemma PackedOne(a: Byte)
    ensures PacksItsBits([a])
  {
    assert Packed([a]) == a * 65536 + 0 * 256 + 0;
    PackedBits(a, 0, 0);
    FirstOfThree(Low(a, 8), Low(0, 8), Low(0, 8));
    BitsOfOne(a);
  }

  lemma PackedTwo(a: Byte, b: Byte)
    ensures PacksItsBits([a, b])
  {
    PackedOfTwo(a, b);
    BitsOfTwo(a, b);
    BeginsAll(ByteBits([a, b]), Low(0, 8), Low(Packed([a, b]), 24));
  }

  lemma PackedOfTwo(a: Byte, b: Byte)
    ensures Low(Packed([a, b]), 24) == Low(a, 8) + Low(b, 8) + Low(0, 8)
  {
    PackedBits(a, b, 0);
    assert Packed([a, b]) == a * 65536 + b * 256 + 0;
  }

  lemma BeginsAll<T>(first: seq<T>, rest: seq<T>, all: seq<T>)
    requires all == first + rest
    ensures first <= all
  {
  }

  lemma PackedThree(a: Byte, b: Byte, c: Byte)
    ensures PacksItsBits([a, b, c])
  {
    assert Packed([a, b, c]) == a * 65536 + b * 256 + c;
    PackedBits(a, b, c);
    BitsOfThree(a, b, c);
  }

  lemma PackedAsBytes(chunk: seq<Byte>)
    requires 1 <= |chunk| <= 3
    ensures PacksItsBits(chunk)
  {
    if |chunk| == 1 {
      PackedOne(chunk[0]);
      assert chunk == [chunk[0]];
    } else if |chunk| == 2 {
      PackedTwo(chunk[0], chunk[1]);
      assert chunk == [chunk[0], chunk[1]];
    } else {
      PackedThree(chunk[0], chunk[1], chunk[2]);
      assert chunk == [chunk[0], chunk[1], chunk[2]];
    }
  }

  /** Some sextets begin with a chunk's bits. */
  predicate BeginsWith(sextets: seq<Sextet>, chunk: seq<Byte>) {
    ByteBits(chunk) <= SextetBits(sextets)
  }

  lemma FirstBits(chunk: seq<Byte>, n: nat, four: seq<Sextet>)
    requires 1 <= |chunk| <= 3 && |four| == 4 && IsSplit(n, four) && ByteBits(chunk) <= Low(n, 24)
    ensures BeginsWith(four[..|chunk| + 1], chunk)
  {
    SextetBitsOfFirst(four, |chunk| + 1);
  }

  /** A chunk's sextets are its bytes' bits, and zeroes up to a whole sextet. */
  lemma PartsBits(chunk: seq<Byte>)
    requires 1 <= |chunk| <= 3
    ensures BeginsWith(Parts(chunk), chunk)
  {
    PackedAsBytes(chunk);
    PackedAsSextets(Packed(chunk));
    FirstBits(chunk, Packed(chunk), Four(Packed(chunk)));
  }

  lemma LetterBefore(v: Sextet, rest: string)
    ensures Sextets([Letter(v)] + rest) == [v] + Sextets(rest)
    ensures FirstStray(rest).None? ==> FirstStray([Letter(v)] + rest).None?
  {
    LetterIsRead(v);
    assert ([Letter(v)] + rest)[1..] == rest;
  }

  lemma FourApart<T>(a: T, b: T, c: T, d: T, rest: seq<T>)
    ensures [a, b, c, d] + rest == [a] + ([b] + ([c] + ([d] + rest)))
  {
  }

  lemma FourAreRead(a: Sextet, b: Sextet, c: Sextet, d: Sextet, rest: string)
    ensures Sextets([Letter(a), Letter(b), Letter(c), Letter(d)] + rest) == [a, b, c, d] + Sextets(rest)
    ensures FirstStray(rest).None? ==>
              FirstStray([Letter(a), Letter(b), Letter(c), Letter(d)] + rest).None?
  {
    FourApart(Letter(a), Letter(b), Letter(c), Letter(d), rest);
    FourApart(a, b, c, d, Sextets(rest));
    LetterBefore(d, rest);
    LetterBefore(c, [Letter(d)] + rest);
    LetterBefore(b, [Letter(c)] + ([Letter(d)] + rest));
    LetterBefore(a, [Letter(b)] + ([Letter(c)] + ([Letter(d)] + rest)));
  }

  /** Three bytes' characters, before any more. */
  lemma WholeQuadIsRead(chunk: seq<Byte>, rest: string)
    requires |chunk| == 3
    ensures Sextets(Quad(chunk) + rest) == Parts(chunk) + Sextets(rest)
    ensures FirstStray(rest).None? ==> FirstStray(Quad(chunk) + rest).None?
  {
    var four := Four(Packed(chunk));
    var a, b, c, d := four[0], four[1], four[2], four[3];
    FourAreRead(a, b, c, d, rest);
    assert Quad(chunk) == [Letter(a), Letter(b), Letter(c), Letter(d)];
    assert Parts(chunk) == [a, b, c, d];
  }

  /** The characters of a last chunk that is short. */
  lemma LastQuadIsRead(chunk: seq<Byte>)
    requires 1 <= |chunk| <= 2
    ensures Sextets(Quad(chunk)) == Parts(chunk) && FirstStray(Quad(chunk)).None?
  {
    var four := Four(Packed(chunk));
    var a, b, c := four[0], four[1], four[2];
    assert Sextets("==") == [] && Sextets("=") == [];
    var two := if |chunk| == 1 then "==" else [Letter(c)] + "=";
    LetterBefore(c, "=");
    LetterBefore(b, two);
    LetterBefore(a, [Letter(b)] + two);
    assert Quad(chunk) == [Letter(a)] + ([Letter(b)] + two);
  }

  lemma QuadIsRead(chunk: seq<Byte>, rest: string)
    requires |chunk| == 3 || (1 <= |chunk| <= 3 && rest == "")
    ensures Sextets(Quad(chunk) + rest) == Parts(chunk) + Sextets(rest)
    ensures FirstStray(rest).None? ==> FirstStray(Quad(chunk) + rest).None?
  {
    if |chunk| == 3 {
      WholeQuadIsRead(chunk, rest);
    } else {
      LastQuadIsRead(chunk);
      assert Quad(chunk) + rest == Quad(chunk) && Parts(chunk) + Sextets(rest) == Parts(chunk);
    }
  }

  lemma QuadIsPlain(chunk: seq<Byte>)
    requires 1 <= |chunk| <= 3
    ensures forall c :: c in Quad(chunk) ==> !White(c) && !Skipped(c)
  {
    var four := Four(Packed(chunk));
    LetterIsRead(four[0]);
    LetterIsRead(four[1]);
    LetterIsRead(four[2]);
    LetterIsRead(four[3]);
  }

  lemma ShortCarries(chunk: seq<Byte>)
    requires 1 <= |chunk| <= 3
    ensures FirstStray(Quad(chunk)).None? && Carries(Quad(chunk), chunk)
  {
    QuadIsRead(chunk, "");
    assert Quad(chunk) + "" == Quad(chunk) && Parts(chunk) + Sextets("") == Parts(chunk);
    PartsBits(chunk);
  }

  lemma LongCarries(chunk: seq<Byte>, more: seq<Byte>, text: string)
    requires |chunk| == 3 && Carries(text, more)
    ensures Carries(Quad(chunk) + text, chunk + more)
  {
    QuadIsRead(chunk, text);
    PartsBits(chunk);
    var first, rest := SextetBits(Parts(chunk)), SextetBits(Sextets(text));
    assert first == ByteBits(chunk);
    SextetBitsOfBoth(Parts(chunk), Sextets(text));
    ByteBitsOfBoth(chunk, more);
    assert (first + rest)[..24 + 8 * |more|] == first + rest[..8 * |more|];
  }

  lemma {:induction false} EncodedCarries(bytes: seq<Byte>)
    ensures FirstStray(Encoded(bytes)).None? && Carries(Encoded(bytes), bytes)
    ensures forall c :: c in Encoded(bytes) ==> !White(c) && !Skipped(c)
  {
    if bytes == [] {
    } else if |bytes| <= 3 {
      QuadIsPlain(bytes);
      ShortCarries(bytes);
    } else {
      var chunk, more := bytes[..3], bytes[3..];
      EncodedCarries(more);
      QuadIsPlain(chunk);
      QuadIsRead(chunk, Encoded(more));
      LongCarries(chunk, more, Encoded(more));
      assert bytes == chunk + more;
    }
  }

  /**
   * Any text that is the encoding of some bytes, with carriage returns and newlines put in anywhere, carries those
   * bytes and no stray character.
   */
  lemma EncodingIsCarried(text: string, bytes: seq<Byte>)
    requires Unbroken(text) == Encoded(bytes)
    ensures FirstStray(Trim(text)).None? && Carries(Trim(text), bytes)
  {
    EncodedCarries(bytes);
    TrimKeepsUnbroken(text);
    SextetsOfUnbroken(Trim(text));
  }

  /** The decoder gives back what the encoder was given, however the text was broken into lines. */
  method RoundTrip(bytes: seq<Byte>, text: string) returns (r: Result)
    requires Unbroken(text) == Encoded(bytes)
    ensures r == Ok(bytes)
  {
    EncodingIsCarried(text, bytes);
    r := Decode(text);
    CarriesOne(Trim(text), r.bytes, bytes);
  }

  predicate WellFormed(text: string, bytes: seq<Byte>) {
    Unbroken(Trim(text)) == Encoded(bytes)
  }

  /**
   * Whether a text the decoder takes is an encoding at all shows only when its bytes are encoded again:
   * the decoder's own test is no more than that no stray character stands before the first `=`.
   */
  lemma WellFormedIffEncodedAgain(text: string, bytes: seq<Byte>)
    requires Carries(Trim(text), bytes)
    ensures (exists b :: WellFormed(text, b)) <==> WellFormed(text, bytes)
  {
    if b :| WellFormed(text, b) {
      EncodedCarries(b);
      SextetsOfUnbroken(Trim(text));
      CarriesOne(Trim(text), b, bytes);
    }
  }

  /** Malformed texts it takes: a lone sextet, and anything at all after an `=`. */
  lemma TakesTheMalformed()
    ensures FirstStray(Trim("A")) == None && Carries(Trim("A"), []) && !WellFormed("A", [])
    ensures FirstStray(Trim("=!")) == None && Carries(Trim("=!"), []) && !WellFormed("=!", [])
  {
    assert Trim("A") == "A" && Trim("=!") == "=!";
    assert "A"[1..] == "" && Sextets("A") == [0];
    assert Unbroken("A")[0] == 'A' && Unbroken("=!")[0] == '=';
  }
}
