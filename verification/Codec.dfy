/** Bytes as text: Base64 (section 4 of RFC 4648) and Hex (section 8 of RFC 4648), as the .NET converters do them. */
module Codec {
  import opened Wrappers
  import Text

  type byte = x: int | 0 <= x < 256

  datatype FormatError = BadLength | BadCharacter | BadPadding

  // ---------- Hex ----------

  type nibble = x: int | 0 <= x < 16

  function HexDigit(n: nibble): char {
    if n < 10 then '0' + n as char else 'A' + (n - 10) as char
  }

  function HexValue(c: char): Option<nibble> {
    if '0' <= c <= '9' then Some((c - '0') as int)
    else if 'A' <= c <= 'F' then Some((c - 'A') as int + 10)
    else if 'a' <= c <= 'f' then Some((c - 'a') as int + 10)
    else None
  }

  lemma HexDigitValue(n: nibble)
    ensures HexValue(HexDigit(n)) == Some(n)
  {
  }

  lemma HexValueDigit(c: char)
    ensures HexValue(c).Some? ==> HexDigit(HexValue(c).value) == Text.ToUpperChar(c)
  {
  }

  function HexText(bs: seq<byte>): (s: string)
    ensures |s| == 2 * |bs|
  {
    if bs == [] then "" else [HexDigit(bs[0] / 16), HexDigit(bs[0] % 16)] + HexText(bs[1..])
  }

  function HexBytes(s: string): Result<seq<byte>, FormatError> {
    if s == "" then Ok([])
    else if |s| % 2 != 0 then Err(BadLength)
    else
      var hi, lo := HexValue(s[0]), HexValue(s[1]);
      if hi.None? || lo.None? then Err(BadCharacter)
      else Prepend([16 * hi.value as int + lo.value as int], HexBytes(s[2..]))
  }

  /** Decoding accepts exactly the texts that are, up to case, the encoding of the bytes it gives. */
  lemma {:induction false} HexExact(s: string, bs: seq<byte>)
    ensures HexBytes(s) == Ok(bs) <==> Text.ToUpper(s) == HexText(bs)
    decreases |s|
  {
    if s == "" {
      assert Text.ToUpper(s) == "";
      assert |HexText(bs)| == 0 ==> bs == [];
    } else if |s| % 2 != 0 {
      assert |Text.ToUpper(s)| != |HexText(bs)|;
    } else if bs == [] {
      assert |Text.ToUpper(s)| != |HexText(bs)|;
      if HexBytes(s).Ok? {
        assert HexBytes(s).value != [];
      }
    } else {
      HexExact(s[2..], bs[1..]);
      var up := Text.ToUpper(s);
      assert up == [up[0], up[1]] + Text.ToUpper(s[2..]);
      HexValueDigit(s[0]);
      HexValueDigit(s[1]);
      HexDigitValue(bs[0] / 16);
      HexDigitValue(bs[0] % 16);
      var text := HexText(bs);
      assert text[2..] == HexText(bs[1..]);
      assert bs == [bs[0]] + bs[1..];
      if up == text {
        assert up[2..] == text[2..];
        HexUpperValue(s[0]);
        HexUpperValue(s[1]);
      }
      if HexBytes(s) == Ok(bs) {
        var hi: int, lo: int := HexValue(s[0]).value, HexValue(s[1]).value;
        assert bs[0] == 16 * hi + lo;
        assert bs[0] / 16 == hi && bs[0] % 16 == lo;
        assert HexBytes(s[2..]) == Ok(bs[1..]);
      }
    }
  }

  lemma HexUpperValue(c: char)
    ensures HexValue(Text.ToUpperChar(c)) == HexValue(c)
  {
  }

  lemma {:induction false} HexTextIsUpper(bs: seq<byte>)
    ensures Text.ToUpper(HexText(bs)) == HexText(bs)
  {
    if bs != [] {
      var s, rest := HexText(bs), HexText(bs[1..]);
      HexTextIsUpper(bs[1..]);
      assert s == [HexDigit(bs[0] / 16), HexDigit(bs[0] % 16)] + rest;
      hide HexText;
      forall i | 0 <= i < |s| ensures Text.ToUpperChar(s[i]) == s[i] {
        if i >= 2 {
          assert s[i] == rest[i - 2] && Text.ToUpper(rest)[i - 2] == rest[i - 2];
        }
      }
    }
  }

  /** Two digits for each byte, the high one first. */
  ghost predicate HexOf(s: string, bs: seq<byte>) {
    |s| == 2 * |bs| && forall i :: 0 <= i < |bs| ==> HexAt(s, bs, i)
  }

  ghost predicate HexAt(s: string, bs: seq<byte>, i: nat)
    requires i < |bs| && |s| == 2 * |bs|
  {
    s[2 * i] == "0123456789ABCDEF"[bs[i] / 16] && s[2 * i + 1] == "0123456789ABCDEF"[bs[i] % 16]
  }

  lemma {:induction false} HexTextIs(bs: seq<byte>)
    ensures HexOf(HexText(bs), bs)
  {
    if bs != [] {
      HexTextIs(bs[1..]);
      DigitsAre(bs[0]);
      var s, rest := HexText(bs), HexText(bs[1..]);
      assert s[..2] == [HexDigit(bs[0] / 16), HexDigit(bs[0] % 16)] && s[2..] == rest;
      hide HexText, HexDigit;
      forall i | 0 <= i < |bs| ensures HexAt(s, bs, i) {
        if i > 0 {
          assert HexAt(rest, bs[1..], i - 1);
          assert s[2 * i] == rest[2 * i - 2] && s[2 * i + 1] == rest[2 * i - 1];
        }
      }
    }
  }

  lemma DigitsAre(b: byte)
    ensures HexDigit(b / 16) == "0123456789ABCDEF"[b / 16] && HexDigit(b % 16) == "0123456789ABCDEF"[b % 16]
  {
  }

  lemma HexStep(bs: seq<byte>, i: nat)
    requires i < |bs|
    ensures HexText(bs[i..]) == [HexDigit(bs[i] / 16), HexDigit(bs[i] % 16)] + HexText(bs[i + 1..])
  {
    assert bs[i..][1..] == bs[i + 1..];
  }

  lemma HexEnds(bs: seq<byte>)
    ensures bs[0..] == bs && HexText(bs[|bs|..]) == ""
  {
  }

  method ToHexString(bs: seq<byte>) returns (s: string)
    ensures s == HexText(bs) && HexOf(s, bs)
  {
    HexTextIs(bs);
    hide HexText, HexDigit, HexOf;
    HexEnds(bs);
    s := "";
    for i := 0 to |bs|
      invariant HexText(bs) == s + HexText(bs[i..])
    {
      HexStep(bs, i);
      s := s + [HexDigit(bs[i] / 16), HexDigit(bs[i] % 16)];
    }
  }

  lemma UnhexStep(s: string, i: nat)
    requires i + 2 <= |s| && |s| % 2 == 0 && i % 2 == 0
    ensures HexBytes(s[i..]) ==
      var hi, lo := HexValue(s[i]), HexValue(s[i + 1]);
      if hi.None? || lo.None? then Err(BadCharacter)
      else Prepend([16 * hi.value as int + lo.value as int], HexBytes(s[i + 2..]))
  {
    assert s[i..][2..] == s[i + 2..];
  }

  lemma UnhexEnds(s: string)
    ensures s[0..] == s && HexBytes(s[|s|..]) == Ok([]) && (|s| % 2 != 0 ==> HexBytes(s) == Err(BadLength))
  {
  }

  method FromHexString(s: string) returns (r: Result<seq<byte>, FormatError>)
    ensures r == HexBytes(s)
  {
    hide HexBytes, HexValue, Prepend;
    UnhexEnds(s);
    if |s| % 2 != 0 {
      return Err(BadLength);
    }
    var bs: seq<byte> := [];
    var i := 0;
    PrependNothing([], HexBytes(s));
    while i < |s|
      invariant i <= |s| && i % 2 == 0
      invariant HexBytes(s) == Prepend(bs, HexBytes(s[i..]))
    {
      UnhexStep(s, i);
      var hi, lo := HexValue(s[i]), HexValue(s[i + 1]);
      if hi.None? || lo.None? {
        PrependFailure(bs, BadCharacter);
        return Err(BadCharacter);
      }
      var b: byte := 16 * hi.value as int + lo.value as int;
      PrependTwice(bs, [b], HexBytes(s[i + 2..]));
      bs := bs + [b];
      i := i + 2;
    }
    PrependNothing(bs, Ok([]));
    return Ok(bs);
  }

  function Prepend(bs: seq<byte>, r: Result<seq<byte>, FormatError>): Result<seq<byte>, FormatError> {
    match r
    case Ok(rest) => Ok(bs + rest)
    case Err(e) => Err(e)
  }

  lemma PrependFailure(bs: seq<byte>, e: FormatError)
    ensures Prepend(bs, Err(e)) == Err(e)
  {
  }

  lemma PrependTwice(a: seq<byte>, b: seq<byte>, r: Result<seq<byte>, FormatError>)
    ensures Prepend(a, Prepend(b, r)) == Prepend(a + b, r)
  {
    if r.Ok? {
      assert a + (b + r.value) == (a + b) + r.value;
    }
  }

  lemma PrependNothing(a: seq<byte>, r: Result<seq<byte>, FormatError>)
    ensures Prepend([], r) == r && Prepend(a, Ok([])) == Ok(a)
  {
    assert a + [] == a;
    if r.Ok? {
      assert [] + r.value == r.value;
    }
  }

  // ---------- Base64 ----------

  type sextet = x: int | 0 <= x < 64

  const PAD := '='

  function Letter(n: sextet): char {
    if n < 26 then 'A' + n as char
    else if n < 52 then 'a' + (n - 26) as char
    else if n < 62 then '0' + (n - 52) as char
    else if n == 62 then '+'
    else '/'
  }

  function LetterValue(c: char): Option<sextet> {
    if 'A' <= c <= 'Z' then Some((c - 'A') as int)
    else if 'a' <= c <= 'z' then Some((c - 'a') as int + 26)
    else if '0' <= c <= '9' then Some((c - '0') as int + 52)
    else if c == '+' then Some(62)
    else if c == '/' then Some(63)
    else None
  }

  lemma LetterValueOf(n: sextet)
    ensures LetterValue(Letter(n)) == Some(n)
    ensures Letter(n) != PAD && !Blank(Letter(n))
  {
  }

  /** The characters the decoder skips. */
  predicate Blank(c: char) {
    c == ' ' || c == '\t' || c == '\n' || c == '\r'
  }

  function Squeeze(s: string): string {
    if s == "" then "" else (if Blank(s[0]) then "" else [s[0]]) + Squeeze(s[1..])
  }

  function Group1(a: byte): (g: string) ensures |g| == 4 { [Letter(a / 4), Letter(a % 4 * 16), PAD, PAD] }
  function Group2(a: byte, b: byte): (g: string) ensures |g| == 4 { [Letter(a / 4), Letter(a % 4 * 16 + b / 16), Letter(b % 16 * 4), PAD] }
  function Group3(a: byte, b: byte, c: byte): (g: string)
    ensures |g| == 4
  {
    [Letter(a / 4), Letter(a % 4 * 16 + b / 16), Letter(b % 16 * 4 + c / 64), Letter(c % 64)]
  }

  function Base64Text(bs: seq<byte>): (s: string)
    ensures |s| == (|bs| + 2) / 3 * 4
  {
    if |bs| == 0 then ""
    else if |bs| == 1 then Group1(bs[0])
    else if |bs| == 2 then Group2(bs[0], bs[1])
    else Group3(bs[0], bs[1], bs[2]) + Base64Text(bs[3..])
  }

  /** One group of four; only the last may carry padding. Surplus low bits before padding are ignored. */
  function GroupBytes(g: string, last: bool): Result<seq<byte>, FormatError>
    requires |g| == 4
  {
    var a, b, c, d := LetterValue(g[0]), LetterValue(g[1]), LetterValue(g[2]), LetterValue(g[3]);
    if a.None? || b.None? then Err(BadCharacter)
    else if g[3] == PAD then
      if !last then Err(BadPadding)
      else if g[2] == PAD then Ok([a.value * 4 + b.value / 16])
      else if c.None? then Err(BadCharacter)
      else Ok([a.value * 4 + b.value / 16, b.value % 16 * 16 + c.value / 4])
    else if c.None? || d.None? then Err(BadCharacter)
    else Ok([a.value * 4 + b.value / 16, b.value % 16 * 16 + c.value / 4, c.value % 4 * 64 + d.value])
  }

  /** The groups of a text without blanks. */
  function GroupsBytes(s: string): Result<seq<byte>, FormatError> {
    if s == "" then Ok([])
    else if |s| % 4 != 0 then Err(BadLength)
    else
      match GroupBytes(s[..4], |s| == 4)
      case Err(e) => Err(e)
      case Ok(head) => Prepend(head, GroupsBytes(s[4..]))
  }

  function Base64Bytes(s: string): Result<seq<byte>, FormatError> {
    GroupsBytes(Squeeze(s))
  }

  lemma Group1Bytes(a: byte)
    ensures GroupBytes(Group1(a), true) == Ok([a]) && NoBlanks(Group1(a))
  {
    LetterValueOf(a / 4);
    LetterValueOf(a % 4 * 16);
  }

  lemma Group2Bytes(a: byte, b: byte)
    ensures GroupBytes(Group2(a, b), true) == Ok([a, b]) && NoBlanks(Group2(a, b))
  {
    LetterValueOf(a / 4);
    LetterValueOf(a % 4 * 16 + b / 16);
    LetterValueOf(b % 16 * 4);
  }

  /** The bits of three bytes, regrouped by six and back by eight. */
  lemma Regrouped(a: byte, b: byte, c: byte)
    ensures var p, q, r, s := a / 4, a % 4 * 16 + b / 16, b % 16 * 4 + c / 64, c % 64;
      p * 4 + q / 16 == a && q % 16 * 16 + r / 4 == b && r % 4 * 64 + s == c
  {
  }

  lemma Group3Bytes(a: byte, b: byte, c: byte, last: bool)
    ensures GroupBytes(Group3(a, b, c), last) == Ok([a, b, c]) && NoBlanks(Group3(a, b, c))
  {
    LetterValueOf(a / 4);
    LetterValueOf(a % 4 * 16 + b / 16);
    LetterValueOf(b % 16 * 4 + c / 64);
    LetterValueOf(c % 64);
    Regrouped(a, b, c);
    hide Letter, LetterValue, Blank;
  }

  ghost predicate NoBlanks(s: string) {
    forall i :: 0 <= i < |s| ==> !Blank(s[i])
  }

  lemma OneGroup(g: string, bs: seq<byte>)
    requires |g| == 4 && GroupBytes(g, true) == Ok(bs)
    ensures GroupsBytes(g) == Ok(bs)
  {
    assert g[..4] == g && g[4..] == "";
    assert bs + [] == bs;
  }

  lemma {:induction false} GroupsInverse(bs: seq<byte>)
    ensures GroupsBytes(Base64Text(bs)) == Ok(bs)
    ensures NoBlanks(Base64Text(bs))
  {
    hide GroupBytes, Group1, Group2, Group3, Blank;
    if |bs| == 0 {
    } else if |bs| == 1 {
      Group1Bytes(bs[0]);
      OneGroup(Group1(bs[0]), [bs[0]]);
      assert bs == [bs[0]];
    } else if |bs| == 2 {
      Group2Bytes(bs[0], bs[1]);
      OneGroup(Group2(bs[0], bs[1]), [bs[0], bs[1]]);
      assert bs == [bs[0], bs[1]];
    } else {
      var s := Base64Text(bs);
      GroupsInverse(bs[3..]);
      var g := Group3(bs[0], bs[1], bs[2]);
      Group3Bytes(bs[0], bs[1], bs[2], |s| == 4);
      assert s[..4] == g && s[4..] == Base64Text(bs[3..]);
      assert bs == [bs[0], bs[1], bs[2]] + bs[3..];
    }
  }

  lemma {:induction false} SqueezeNothing(s: string)
    requires NoBlanks(s)
    ensures Squeeze(s) == s
  {
    if s != "" {
      SqueezeNothing(s[1..]);
    }
  }

  /** A text without its tabs, line feeds, carriage returns and spaces. */
  function Unspaced(s: string): string {
    if s == "" then "" else (if s[0] as int in {9, 10, 13, 32} then "" else [s[0]]) + Unspaced(s[1..])
  }

  lemma {:induction false} SqueezedIs(s: string)
    ensures Squeeze(s) == Unspaced(s)
  {
    if s != "" {
      SqueezedIs(s[1..]);
    }
  }

  /** The decoder inverts the encoder, whatever blanks were put inside the text since. */
  lemma Base64Inverse(bs: seq<byte>, s: string)
    requires s == Base64Text(bs) || Unspaced(s) == Base64Text(bs)
    ensures Base64Bytes(s) == Ok(bs)
  {
    GroupsInverse(bs);
    SqueezeNothing(Base64Text(bs));
    SqueezedIs(s);
  }

  /** The code point that stands for six bits: the capitals, the small letters, the digits, "+" and "/". */
  function LetterCode(n: sextet): int {
    if n < 26 then n + 65 else if n < 52 then n + 71 else if n < 62 then n - 4 else if n == 62 then 43 else 47
  }

  lemma LetterIs(n: sextet)
    ensures Letter(n) as int == LetterCode(n)
  {
  }

  /** Four characters stand for three bytes, six bits each; "=" stands where there is no byte left. */
  ghost predicate GroupOf(g: string, a: byte, b: Option<byte>, c: Option<byte>)
    requires |g| == 4
  {
    var b', c' := if b.Some? then b.value else 0, if c.Some? then c.value else 0;
    && g[0] as int == LetterCode(a / 4) && g[1] as int == LetterCode(a % 4 * 16 + b' / 16)
    && g[2] as int == (if b.Some? then LetterCode(b' % 16 * 4 + c' / 64) else 61)
    && g[3] as int == (if c.Some? then LetterCode(c' % 64) else 61)
  }

  function ByteAt(bs: seq<byte>, k: nat): Option<byte> {
    if k < |bs| then Some(bs[k]) else None
  }

  ghost predicate Base64Of(s: string, bs: seq<byte>) {
    && |s| == (|bs| + 2) / 3 * 4
    && forall g: nat :: 3 * g < |bs| ==> Base64GroupAt(s, bs, g)
  }

  ghost predicate Base64GroupAt(s: string, bs: seq<byte>, g: nat)
    requires 3 * g < |bs|
  {
    4 * g + 4 <= |s| && GroupOf(s[4 * g..4 * g + 4], bs[3 * g], ByteAt(bs, 3 * g + 1), ByteAt(bs, 3 * g + 2))
  }

  lemma Group1Is(a: byte)
    ensures GroupOf(Group1(a), a, None, None)
  {
    LetterIs(a / 4);
    LetterIs(a % 4 * 16);
    hide Letter, LetterCode;
  }

  lemma Group2Is(a: byte, b: byte)
    ensures GroupOf(Group2(a, b), a, Some(b), None)
  {
    LetterIs(a / 4);
    LetterIs(a % 4 * 16 + b / 16);
    LetterIs(b % 16 * 4);
    hide Letter, LetterCode;
  }

  lemma Group3Is(a: byte, b: byte, c: byte)
    ensures GroupOf(Group3(a, b, c), a, Some(b), Some(c))
  {
    LetterIs(a / 4);
    LetterIs(a % 4 * 16 + b / 16);
    LetterIs(b % 16 * 4 + c / 64);
    LetterIs(c % 64);
    hide Letter, LetterCode;
  }

  lemma FirstGroupIs(bs: seq<byte>)
    requires bs != []
    ensures Base64GroupAt(Base64Text(bs), bs, 0)
    ensures |bs| > 3 ==> Base64Text(bs)[4..] == Base64Text(bs[3..])
  {
    hide GroupOf, Group1, Group2, Group3;
    var s := Base64Text(bs);
    if |bs| == 1 {
      Group1Is(bs[0]);
      assert s[0..4] == Group1(bs[0]);
    } else if |bs| == 2 {
      Group2Is(bs[0], bs[1]);
      assert s[0..4] == Group2(bs[0], bs[1]);
    } else {
      Group3Is(bs[0], bs[1], bs[2]);
      assert s[0..4] == Group3(bs[0], bs[1], bs[2]) && s[4..] == Base64Text(bs[3..]);
    }
  }

  lemma GroupShifted(s: string, bs: seq<byte>, g: nat)
    requires |bs| > 3 && |s| >= 4 && 3 * g < |bs[3..]| && Base64GroupAt(s[4..], bs[3..], g)
    ensures 3 * (g + 1) < |bs| && Base64GroupAt(s, bs, g + 1)
  {
    hide GroupOf;
    assert s[4..][4 * g..4 * g + 4] == s[4 * g + 4..4 * g + 8];
    assert ByteAt(bs[3..], 3 * g + 1) == ByteAt(bs, 3 * g + 4) && ByteAt(bs[3..], 3 * g + 2) == ByteAt(bs, 3 * g + 5);
  }

  lemma {:induction false} Base64TextIs(bs: seq<byte>)
    ensures Base64Of(Base64Text(bs), bs)
  {
    hide Base64Text, Base64GroupAt;
    if bs != [] {
      FirstGroupIs(bs);
      if |bs| > 3 {
        Base64TextIs(bs[3..]);
        forall g: nat | 3 * g < |bs| ensures Base64GroupAt(Base64Text(bs), bs, g) {
          if g > 0 {
            GroupShifted(Base64Text(bs), bs, g - 1);
          }
        }
      }
    }
  }

  lemma Base64Step(bs: seq<byte>, i: nat)
    requires i + 3 <= |bs|
    ensures Base64Text(bs[i..]) == Group3(bs[i], bs[i + 1], bs[i + 2]) + Base64Text(bs[i + 3..])
  {
    assert bs[i..][3..] == bs[i + 3..];
    hide Group3;
  }

  lemma Base64Ends(bs: seq<byte>, i: nat)
    requires i <= |bs| < i + 3
    ensures bs[0..] == bs
    ensures Base64Text(bs[i..]) ==
      if i == |bs| then "" else if i + 1 == |bs| then Group1(bs[i]) else Group2(bs[i], bs[i + 1])
  {
    hide Group1, Group2;
  }

  method ToBase64String(bs: seq<byte>) returns (s: string)
    ensures s == Base64Text(bs) && Base64Of(s, bs)
  {
    Base64TextIs(bs);
    hide Base64Text, Base64Of, Group1, Group2, Group3;
    s := "";
    var i := 0;
    assert bs[0..] == bs;
    while i + 3 <= |bs|
      invariant i <= |bs|
      invariant Base64Text(bs) == s + Base64Text(bs[i..])
    {
      Base64Step(bs, i);
      s := s + Group3(bs[i], bs[i + 1], bs[i + 2]);
      i := i + 3;
    }
    Base64Ends(bs, i);
    if i + 1 == |bs| {
      s := s + Group1(bs[i]);
    } else if i + 2 == |bs| {
      s := s + Group2(bs[i], bs[i + 1]);
    }
  }

  lemma SqueezeStep(text: string, i: nat)
    requires i < |text|
    ensures Squeeze(text[i..]) == (if Blank(text[i]) then "" else [text[i]]) + Squeeze(text[i + 1..])
  {
    assert text[i..][1..] == text[i + 1..];
  }

  lemma SqueezeEnds(text: string)
    ensures text[0..] == text && Squeeze(text[|text|..]) == ""
  {
  }

  /** Drop the blanks. */
  method SqueezeText(text: string) returns (s: string)
    ensures s == Squeeze(text)
  {
    hide Squeeze, Blank;
    SqueezeEnds(text);
    s := "";
    for i := 0 to |text|
      invariant Squeeze(text) == s + Squeeze(text[i..])
    {
      SqueezeStep(text, i);
      if !Blank(text[i]) {
        s := s + [text[i]];
      }
    }
  }

  lemma GroupsStep(s: string, k: nat)
    requires k + 4 <= |s| && |s| % 4 == 0 && k % 4 == 0
    ensures GroupsBytes(s[k..]) ==
      match GroupBytes(s[k..k + 4], k + 4 == |s|)
      case Err(e) => Err(e)
      case Ok(head) => Prepend(head, GroupsBytes(s[k + 4..]))
  {
    hide GroupBytes, Prepend;
    assert s[k..][..4] == s[k..k + 4] && s[k..][4..] == s[k + 4..];
  }

  lemma GroupsEnd(s: string)
    ensures s[0..] == s && GroupsBytes(s[|s|..]) == Ok([]) && (|s| % 4 != 0 ==> GroupsBytes(s) == Err(BadLength))
  {
    hide GroupBytes;
  }

  method FromBase64String(text: string) returns (r: Result<seq<byte>, FormatError>)
    ensures r == Base64Bytes(text)
  {
    hide GroupBytes, GroupsBytes, Prepend, Squeeze;
    var s := SqueezeText(text);
    GroupsEnd(s);
    if |s| % 4 != 0 {
      return Err(BadLength);
    }
    var bs: seq<byte> := [];
    var k := 0;
    PrependNothing([], GroupsBytes(s));
    while k < |s|
      invariant k <= |s| && k % 4 == 0
      invariant GroupsBytes(s) == Prepend(bs, GroupsBytes(s[k..]))
    {
      GroupsStep(s, k);
      var group := GroupBytes(s[k..k + 4], k + 4 == |s|);
      if group.Err? {
        PrependFailure(bs, group.error);
        return group;
      }
      PrependTwice(bs, group.value, GroupsBytes(s[k + 4..]));
      bs := bs + group.value;
      k := k + 4;
    }
    PrependNothing(bs, Ok([]));
    return Ok(bs);
  }
}
