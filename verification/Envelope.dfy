/**
 * The JSON envelope around an encrypted body: what the response transform writes and the request transform reads.
 * Strings are escaped as section 7 of RFC 8259 allows and the .NET serializer does.
 */
module EnvelopeModel {
  import opened Wrappers
  import opened Text
  import opened Codec
  import opened BlockMode
  import opened CryptoServiceModel
  import opened PolicyCacheModel
  import opened Tiers
  import E = Entities

  // ---------- JSON strings ----------

  /** The serializer writes these as they are. */
  predicate Unescaped(c: char) {
    ' ' <= c <= '~' && c !in "\"&'+<>`\\"
  }

  function Hex4(n: int): string
    requires 0 <= n < 0x10000
  {
    [HexDigit(n / 16 / 16 / 16), HexDigit(n / 16 / 16 % 16), HexDigit(n / 16 % 16), HexDigit(n % 16)]
  }

  /** The letter of a two-character escape. */
  function ShortEscape(c: char): Option<char> {
    if c == '\\' then Some('\\')
    else if c == '\U{8}' then Some('b')
    else if c == '\t' then Some('t')
    else if c == '\n' then Some('n')
    else if c == '\U{C}' then Some('f')
    else if c == '\r' then Some('r')
    else None
  }

  /** A character beyond one UTF-16 unit is escaped as its two surrogates. */
  function EscapedChar(c: char): string {
    if ShortEscape(c).Some? then ['\\', ShortEscape(c).value]
    else if Unescaped(c) then [c]
    else if (c as int) < 0x10000 then EscapedUnit(c as int)
    else
      var n := c as int - 0x10000;
      EscapedUnit(0xD800 + n / 0x400) + EscapedUnit(0xDC00 + n % 0x400)
  }

  function EscapedUnit(n: int): (r: string)
    requires 0 <= n < 0x10000
    ensures |r| == 6
  {
    ['\\', 'u'] + Hex4(n)
  }

  function Escaped(s: string): string {
    if s == "" then "" else EscapedChar(s[0]) + Escaped(s[1..])
  }

  /** Six characters: a backslash, "u" and four digits of base 16, the highest first. */
  ghost predicate UnitText(s: string, n: int)
    requires 0 <= n < 0x10000
  {
    && |s| == 6 && s[0] == '\\' && s[1] == 'u'
    && s[2] == "0123456789ABCDEF"[n / 4096] && s[3] == "0123456789ABCDEF"[n / 256 % 16]
    && s[4] == "0123456789ABCDEF"[n / 16 % 16] && s[5] == "0123456789ABCDEF"[n % 16]
  }

  lemma DigitIs(n: int)
    requires 0 <= n < 16
    ensures HexDigit(n) == "0123456789ABCDEF"[n]
  {
  }

  lemma UnitTextIs(n: int)
    requires 0 <= n < 0x10000
    ensures UnitText(EscapedUnit(n), n)
  {
    DigitIs(n / 16 / 16 / 16);
    DigitIs(n / 16 / 16 % 16);
    DigitIs(n / 16 % 16);
    DigitIs(n % 16);
    assert n / 16 / 16 / 16 == n / 4096 && n / 16 / 16 == n / 256;
    hide HexDigit;
  }

  /**
   * A printable ASCII character is written as it is, except quotes, ampersand, plus, angle brackets, backslash and
   * backquote; five control characters and the backslash have a letter; any other character is written in digits, in
   * two units if it does not fit one.
   */
  ghost predicate EscapeOf(c: char, s: string) {
    var n := c as int;
    if 32 <= n <= 126 && n !in {34, 38, 39, 43, 60, 62, 92, 96} then s == [c]
    else if n == 92 then s == "\\\\"
    else if n == 8 then s == "\\b"
    else if n == 9 then s == "\\t"
    else if n == 10 then s == "\\n"
    else if n == 12 then s == "\\f"
    else if n == 13 then s == "\\r"
    else if n < 0x10000 then UnitText(s, n)
    else
      |s| == 12 && UnitText(s[..6], 0xD800 + (n - 0x10000) / 0x400) && UnitText(s[6..], 0xDC00 + (n - 0x10000) % 0x400)
  }

  lemma UnescapedIff(c: char)
    ensures Unescaped(c) <==> 32 <= c as int <= 126 && c as int !in {34, 38, 39, 43, 60, 62, 92, 96}
  {
  }

  lemma ShortEscapeIs(c: char)
    ensures ShortEscape(c) ==
      match c as int
      case 92 => Some('\\')
      case 8 => Some('b')
      case 9 => Some('t')
      case 10 => Some('n')
      case 12 => Some('f')
      case 13 => Some('r')
      case _ => None
  {
  }

  lemma EscapedCharIs(c: char)
    ensures EscapeOf(c, EscapedChar(c))
  {
    UnescapedIff(c);
    ShortEscapeIs(c);
    hide Unescaped, ShortEscape;
    if ShortEscape(c).None? && !Unescaped(c) {
      UnitsAre(c);
      hide EscapedChar, UnitText;
    } else {
      hide EscapedUnit, UnitText;
    }
  }

  lemma UnitsAre(c: char)
    requires ShortEscape(c).None? && !Unescaped(c)
    ensures var s, n := EscapedChar(c), c as int;
      if n < 0x10000 then UnitText(s, n)
      else
        |s| == 12 && UnitText(s[..6], 0xD800 + (n - 0x10000) / 0x400) && UnitText(s[6..], 0xDC00 + (n - 0x10000) % 0x400)
  {
    hide ShortEscape, Unescaped, UnitText, EscapedUnit;
    var n := c as int;
    if n < 0x10000 {
      UnitTextIs(n);
    } else {
      var high, low := 0xD800 + (n - 0x10000) / 0x400, 0xDC00 + (n - 0x10000) % 0x400;
      UnitTextIs(high);
      UnitTextIs(low);
      assert EscapedChar(c)[..6] == EscapedUnit(high) && EscapedChar(c)[6..] == EscapedUnit(low);
    }
  }

  /** A text is written character by character. */
  ghost predicate EscapeText(s: string, text: string)
    decreases |s|
  {
    if s == "" then text == ""
    else exists n: nat :: n <= |text| && EscapeOf(s[0], text[..n]) && EscapeText(s[1..], text[n..])
  }

  lemma {:induction false} EscapedIs(s: string)
    ensures EscapeText(s, Escaped(s))
  {
    if s != "" {
      EscapedCharIs(s[0]);
      EscapedIs(s[1..]);
      hide EscapedChar, EscapeOf;
      var n := |EscapedChar(s[0])|;
      assert Escaped(s)[..n] == EscapedChar(s[0]) && Escaped(s)[n..] == Escaped(s[1..]);
    }
  }

  function FromShortEscape(c: char): Option<char> {
    if c == '"' || c == '\\' || c == '/' then Some(c)
    else if c == 'b' then Some('\U{8}')
    else if c == 't' then Some('\t')
    else if c == 'n' then Some('\n')
    else if c == 'f' then Some('\U{C}')
    else if c == 'r' then Some('\r')
    else None
  }

  /** The UTF-16 unit of four hex digits. */
  function FromHex4(s: string): (r: Option<int>)
    requires |s| == 4
    ensures r.Some? ==> 0 <= r.value < 0x10000
  {
    var a, b, c, d := HexValue(s[0]), HexValue(s[1]), HexValue(s[2]), HexValue(s[3]);
    if a.None? || b.None? || c.None? || d.None? then None
    else Some(4096 * a.value as int + 256 * b.value as int + 16 * c.value as int + d.value as int)
  }

  function UnitAt(s: string): Option<int> {
    if |s| < 6 || s[0] != '\\' || s[1] != 'u' then None else FromHex4(s[2..6])
  }

  /** The character escaped at the head of a text, by one unit or by a pair of surrogates, and how long it is there. */
  function CharAt(s: string): (r: Option<(char, nat)>)
    ensures r.Some? ==> 6 <= r.value.1 <= |s|
  {
    var u := UnitAt(s);
    if u.None? then None
    else if u.value < 0xD800 || u.value >= 0xE000 then Some((u.value as char, 6))
    else
      var v := UnitAt(s[6..]);
      if u.value >= 0xDC00 || v.None? || v.value < 0xDC00 || v.value >= 0xE000 then None
      else Some(((0x10000 + (u.value - 0xD800) * 0x400 + (v.value - 0xDC00)) as char, 12))
  }

  function Before(c: char, r: Option<(string, string)>): Option<(string, string)> {
    if r.Some? then Some(([c] + r.value.0, r.value.1)) else None
  }

  /** Read a string after its opening quote: its value and what follows the closing one. */
  function ReadString(s: string): Option<(string, string)> {
    if s == "" then None
    else if s[0] == '"' then Some(("", s[1..]))
    else if s[0] == '\\' then
      if |s| < 2 then None
      else if s[1] == 'u' then
        var c := CharAt(s);
        if c.None? then None else Before(c.value.0, ReadString(s[c.value.1..]))
      else
        var c := FromShortEscape(s[1]);
        if c.None? then None else Before(c.value, ReadString(s[2..]))
    else if s[0] < ' ' then None
    else Before(s[0], ReadString(s[1..]))
  }

  lemma HexDigitsAddUp(n: int)
    requires 0 <= n < 0x10000
    ensures n == 4096 * (n / 16 / 16 / 16) + 256 * (n / 16 / 16 % 16) + 16 * (n / 16 % 16) + n % 16
  {
    var a := n / 16;
    var b := a / 16;
    assert n == 16 * a + n % 16;
    assert a == 16 * b + a % 16;
    assert b == 16 * (b / 16) + b % 16;
  }

  lemma Hex4Read(n: int)
    requires 0 <= n < 0x10000
    ensures FromHex4(Hex4(n)) == Some(n)
  {
    HexDigitsAddUp(n);
    HexDigitValue(n / 16 / 16 / 16);
    HexDigitValue(n / 16 / 16 % 16);
    HexDigitValue(n / 16 % 16);
    HexDigitValue(n % 16);
    hide HexDigit, HexValue;
  }

  lemma UnitRead(n: int, tail: string)
    requires 0 <= n < 0x10000
    ensures UnitAt(EscapedUnit(n) + tail) == Some(n) && (EscapedUnit(n) + tail)[6..] == tail
  {
    Hex4Read(n);
    hide Hex4, FromHex4;
    var s := EscapedUnit(n) + tail;
    assert s[2..6] == Hex4(n);
  }

  /** A character in the form of its units is read back as itself. */
  lemma UnitsRead(c: char, tail: string)
    requires ShortEscape(c).None? && !Unescaped(c)
    ensures CharAt(EscapedChar(c) + tail) == Some((c, |EscapedChar(c)|))
  {
    hide ShortEscape, Unescaped, EscapedUnit, UnitAt;
    if (c as int) < 0x10000 {
      UnitRead(c as int, tail);
    } else {
      var n := c as int - 0x10000;
      var high, low := 0xD800 + n / 0x400, 0xDC00 + n % 0x400;
      assert EscapedChar(c) + tail == EscapedUnit(high) + (EscapedUnit(low) + tail);
      UnitRead(high, EscapedUnit(low) + tail);
      UnitRead(low, tail);
      assert 0x10000 + (high - 0xD800) * 0x400 + (low - 0xDC00) == c as int;
    }
  }

  /** One escaped character is read back as itself. */
  lemma EscapedCharRead(c: char, tail: string)
    ensures ReadString(EscapedChar(c) + tail) == Before(c, ReadString(tail))
  {
    var s := EscapedChar(c) + tail;
    assert s[|EscapedChar(c)|..] == tail;
    if ShortEscape(c).None? && !Unescaped(c) {
      UnitsRead(c, tail);
      StartsWithUnit(c);
      hide CharAt, EscapedChar;
    }
  }

  lemma StartsWithUnit(c: char)
    requires ShortEscape(c).None? && !Unescaped(c)
    ensures |EscapedChar(c)| >= 6 && EscapedChar(c)[0] == '\\' && EscapedChar(c)[1] == 'u'
  {
  }

  lemma Regrouped(a: string, b: string, c: string, d: string)
    ensures (a + b) + c + d == a + (b + c + d)
  {
  }

  lemma {:induction false} EscapedRead(v: string, rest: string)
    ensures ReadString(Escaped(v) + "\"" + rest) == Some((v, rest))
  {
    if v == "" {
      assert (Escaped(v) + "\"" + rest)[1..] == rest;
    } else {
      hide EscapedChar, ReadString;
      var c, vs := v[0], v[1..];
      EscapedRead(vs, rest);
      EscapedCharRead(c, Escaped(vs) + "\"" + rest);
      Regrouped(EscapedChar(c), Escaped(vs), "\"", rest);
      assert [c] + vs == v;
    }
  }

  // ---------- the envelope ----------

  function WriteEnvelope(field: string, data: string): string
  {
    "{\"" + Escaped(field) + "\":\"" + Escaped(data) + "\"}"
  }

  /** Read an object of one string member, written without white space. */
  function ReadEnvelope(s: string): Option<(string, string)> {
    if |s| < 2 || s[..2] != "{\"" then None
    else
      var field := ReadString(s[2..]);
      if field.None? then None
      else
        var rest := field.value.1;
        if |rest| < 2 || rest[..2] != ":\"" then None
        else
          var data := ReadString(rest[2..]);
          if data.None? || data.value.1 != "}" then None else Some((field.value.0, data.value.0))
  }

  /** Whatever the texts contain, the envelope gives them back. */
  lemma EnvelopeRead(field: string, data: string)
    ensures ReadEnvelope(WriteEnvelope(field, data)) == Some((field, data))
  {
    hide Escaped, ReadString;
    var f, d := Escaped(field), Escaped(data);
    var rest := ":\"" + d + "\"}";
    var s := "{\"" + f + "\"" + rest;
    assert WriteEnvelope(field, data) == s;
    assert s[..2] == "{\"" && s[2..] == f + "\"" + rest;
    assert rest[..2] == ":\"" && rest[2..] == d + "\"" + "}";
    EscapedRead(field, rest);
    EscapedRead(data, "}");
  }

  /** What a JSON reader says of a member of the object in a text. */
  datatype Member = Malformed | Absent | Null | NotText | Text(value: string)

  datatype Json = Json(member: (string, string) -> Member)

  /** A reader is right at least where the text is an object of one string member. */
  ghost predicate ReadsEnvelopes(j: Json) {
    forall text, field, data ::
      ReadEnvelope(text) == Some((field, data)) ==> j.member(text, field) == Text(data)
  }

  predicate OnlySpaces(s: string) {
    forall i :: 0 <= i < |s| ==> IsSpace(s[i])
  }

  // ---------- the service, with its pass-through algorithm ----------

  /** UTF-8 in both directions. */
  datatype Utf8 = Utf8(bytes: string -> Bytes, text: Bytes -> string)

  function SchemeOf(a: E.CryptoAlgorithm): Option<Scheme> {
    match a
    case NONE => None
    case AES_128_CBC => Some(Cbc)
    case AES_256_GCM => Some(Gcm)
    case AES_256_CBC_HMAC => Some(CbcHmac)
  }

  predicate RightIv(a: E.CryptoAlgorithm, iv: Bytes) {
    SchemeOf(a).Some? ==> |iv| == IvSize(SchemeOf(a).value)
  }

  function ServiceEncrypt(p: Primitives, u: Utf8, c: E.CryptoConfig, key: string, iv: Bytes, plain: Bytes)
    : Result<string, CryptoError>
    requires Correct(p) && RightIv(c.algorithm, iv)
  {
    match SchemeOf(c.algorithm)
    case None => Ok(u.text(plain))
    case Some(s) => Encrypted(p, s, key, c.encoding, iv, plain)
  }

  function ServiceDecrypt(p: Primitives, u: Utf8, c: E.CryptoConfig, key: string, data: string): Result<Bytes, CryptoError>
    requires Correct(p)
  {
    match SchemeOf(c.algorithm)
    case None => Ok(u.bytes(data))
    case Some(s) => Decrypted(p, s, key, c.encoding, data)
  }

  /** The text a service makes of a body: by the policy's algorithm, or for "none" the body's own text. */
  ghost predicate ServiceTextOf(p: Primitives, u: Utf8, c: E.CryptoConfig, key: string, iv: Bytes, plain: Bytes, text: string) {
    match c.algorithm
    case NONE => text == u.text(plain)
    case AES_128_CBC => FramedText(p, Cbc, c.encoding, key, iv, plain, text)
    case AES_256_GCM => FramedText(p, Gcm, c.encoding, key, iv, plain, text)
    case AES_256_CBC_HMAC => FramedText(p, CbcHmac, c.encoding, key, iv, plain, text)
  }

  ghost predicate FramedText(p: Primitives, s: Scheme, e: E.Encoding, key: string, iv: Bytes, plain: Bytes, text: string) {
    exists k, wire :: Decoded(key, e) == Ok(k) && FrameOf(p, s, k, iv, plain, wire) && TextOf(text, e, wire)
  }

  lemma ServiceTextIs(p: Primitives, u: Utf8, c: E.CryptoConfig, key: string, iv: Bytes, plain: Bytes)
    requires Correct(p) && RightIv(c.algorithm, iv) && ServiceEncrypt(p, u, c, key, iv, plain).Ok?
    ensures ServiceTextOf(p, u, c, key, iv, plain, ServiceEncrypt(p, u, c, key, iv, plain).value)
  {
    if SchemeOf(c.algorithm).Some? {
      EncryptedIs(p, SchemeOf(c.algorithm).value, key, c.encoding, iv, plain);
    }
    hide Correct, FrameOf, TextOf, Encrypted;
  }

  /** The bytes a service makes of a text, by the policy's algorithm. */
  ghost predicate ServiceBytesOf(p: Primitives, u: Utf8, c: E.CryptoConfig, key: string, data: string, plain: Bytes) {
    match c.algorithm
    case NONE => plain == u.bytes(data)
    case AES_128_CBC => OpenedText(p, Cbc, c.encoding, key, data, plain)
    case AES_256_GCM => OpenedText(p, Gcm, c.encoding, key, data, plain)
    case AES_256_CBC_HMAC => OpenedText(p, CbcHmac, c.encoding, key, data, plain)
  }

  ghost predicate OpenedText(p: Primitives, s: Scheme, e: E.Encoding, key: string, data: string, plain: Bytes) {
    exists k, wire :: Decoded(key, e) == Ok(k) && Decoded(data, e) == Ok(wire) && OpenedBy(p, s, k, wire, plain)
  }

  lemma ServiceBytesIff(p: Primitives, u: Utf8, c: E.CryptoConfig, key: string, data: string, plain: Bytes)
    requires Correct(p)
    ensures ServiceDecrypt(p, u, c, key, data) == Ok(plain) <==> ServiceBytesOf(p, u, c, key, data, plain)
  {
    if SchemeOf(c.algorithm).Some? {
      var s := SchemeOf(c.algorithm).value;
      DecryptsExactly(p, s, key, c.encoding, data, plain);
    }
    hide Correct, OpenedBy, Decrypted;
  }

  // ---------- the two transforms ----------

  const FIELD := "data"

  /** What the caller of the gateway receives: the upstream's body, nothing, or an envelope. */
  datatype ResponseBody = Upstream | Suppressed | Enveloped(text: string)

  /**
   * The response transform's decision; `body` is the UTF-8 form of the text read from the upstream. The profile comes
   * from the caches alone.
   */
  function Response(p: Primitives, u: Utf8, policy: Option<E.EndpointPolicy>, upstreamOk: bool, clientId: Option<string>,
                    profile: Option<E.UserProfile>, body: Bytes, iv: Bytes): ResponseBody
    requires Correct(p) && (policy.Some? ==> RightIv(policy.value.cryptoConfig.algorithm, iv))
  {
    if policy.None? || !policy.value.encryptResponse || !upstreamOk then Upstream
    else if clientId.None? || clientId.value == "" || profile.None? then Upstream
    else if body == [] then Suppressed
    else
      match ServiceEncrypt(p, u, policy.value.cryptoConfig, profile.value.encryptionKey, iv, body)
      case Err(_) => Upstream
      case Ok(data) => Enveloped(WriteEnvelope(FIELD, data))
  }

  /** The request's body after the transform: as it was, read to its end, replaced, or read and a 400 answered. */
  datatype RequestBody = Untouched | Consumed | Replaced(bytes: Bytes) | BadRequest

  /** The request transform's decision, with any JSON reader. */
  function RequestOf(p: Primitives, u: Utf8, j: Json, policy: Option<E.EndpointPolicy>, clientId: Option<string>,
                     profile: Option<E.UserProfile>, body: string): RequestBody
    requires Correct(p)
  {
    if policy.None? || !policy.value.payloadExpectation.Decrypted? then Untouched
    else if clientId.None? || clientId.value == "" then Untouched
    else if OnlySpaces(body) then Consumed
    else
      match j.member(body, FIELD)
      case Malformed => BadRequest
      case NotText => BadRequest
      case Absent => Consumed
      case Null => Consumed
      case Text(data) =>
        if data == "" then Consumed
        else if profile.None? then BadRequest
        else
          match ServiceDecrypt(p, u, policy.value.cryptoConfig, profile.value.encryptionKey, data)
          case Err(_) => BadRequest
          case Ok(plain) => Replaced(plain)
  }

  /** A profile found in the cache, else the one given. */
  function ProfileFound(t: Tiered, k: CacheKey, now: nat, up: bool, otherwise: Option<E.UserProfile>): Option<E.UserProfile> {
    var found := Lookup(t, Render(k), now, up);
    if found.Some? && found.value.ProfileValue? then Some(found.value.profile) else otherwise
  }

  /** The cache once a profile has been looked up and, where only the database had it, filed. */
  function AfterProfile(t: Tiered, k: CacheKey, now: nat, up: bool, kept: bool, stored: Option<E.UserProfile>, file: bool)
    : Tiered
  {
    var t' := Apply(t, Get(Render(k), now, up, kept));
    if ProfileFound(t, k, now, up, None).None? && stored.Some?
    then Apply(t', Set(Render(k), ProfileValue(stored.value), now, L2_TTL, file, kept))
    else t'
  }

  predicate WantsEncryption(policy: Option<E.EndpointPolicy>, upstreamOk: bool, clientId: Option<string>) {
    policy.Some? && policy.value.encryptResponse && upstreamOk && clientId.Some? && clientId.value != ""
  }

  /** The request transform gets as far as looking for a profile. */
  predicate WantsDecryption(j: Json, policy: Option<E.EndpointPolicy>, clientId: Option<string>, body: string) {
    && policy.Some? && policy.value.payloadExpectation.Decrypted?
    && clientId.Some? && clientId.value != "" && !OnlySpaces(body)
    && j.member(body, FIELD).Text? && j.member(body, FIELD).value != ""
  }

  lemma EnvelopeIs(data: string)
    ensures WriteEnvelope(FIELD, data) == "{\"data\":\"" + Escaped(data) + "\"}" && EscapeText(data, Escaped(data))
  {
    EscapedIs(data);
    FieldUnchanged();
    hide Escaped, EscapeText;
  }

  lemma FieldUnchanged()
    ensures Escaped(FIELD) == "data"
  {
    assert "data"[1..] == "ata" && "ata"[1..] == "ta" && "ta"[1..] == "a" && "a"[1..] == "";
  }

  class Transforms {
    const cache: PolicyCache

    constructor (cache: PolicyCache)
      ensures this.cache == cache
    {
      this.cache := cache;
    }

    method EncryptResponse(p: Primitives, u: Utf8, policy: Option<E.EndpointPolicy>, upstreamOk: bool,
                           clientId: Option<string>, body: Bytes, iv: Bytes, now: nat, up: bool, kept: bool)
      returns (r: ResponseBody)
      requires Correct(p) && (policy.Some? ==> RightIv(policy.value.cryptoConfig.algorithm, iv))
      modifies cache`memory
      ensures policy.Some? && clientId.Some? ==>
        var k := ForProfile(clientId.value, Some(policy.value.service.id));
        && r == Response(p, u, policy, upstreamOk, clientId, ProfileFound(old(cache.State()), k, now, up, None), body, iv)
        && cache.State() == if WantsEncryption(policy, upstreamOk, clientId)
                            then AfterProfile(old(cache.State()), k, now, up, kept, None, false) else old(cache.State())
      ensures policy.None? || clientId.None? ==> r == Upstream && cache.State() == old(cache.State())
      ensures r.Enveloped? ==> policy.Some? && exists key, data, escaped ::
        && r.text == "{\"data\":\"" + escaped + "\"}" && EscapeText(data, escaped)
        && ServiceTextOf(p, u, policy.value.cryptoConfig, key, iv, body, data)
    {
      hide Correct, WriteEnvelope, Lookup, Apply, Render;
      if policy.None? || !policy.value.encryptResponse || !upstreamOk {
        return Upstream;
      }
      if clientId.None? || clientId.value == "" {
        return Upstream;
      }
      var profile := cache.GetProfile(clientId.value, Some(policy.value.service.id), now, up, kept);
      if profile.None? {
        return Upstream;
      }
      if body == [] {
        return Suppressed;
      }
      var data := ServiceEncrypt(p, u, policy.value.cryptoConfig, profile.value.encryptionKey, iv, body);
      if data.Ok? {
        ServiceTextIs(p, u, policy.value.cryptoConfig, profile.value.encryptionKey, iv, body);
        EnvelopeIs(data.value);
      }
      hide ServiceEncrypt, ServiceTextOf, EscapeText;
      return if data.Ok? then Enveloped(WriteEnvelope(FIELD, data.value)) else Upstream;
    }

    /** The profile comes from the cache, else from the database, and is then filed. */
    method DecryptRequest(p: Primitives, u: Utf8, j: Json, policy: Option<E.EndpointPolicy>, clientId: Option<string>,
                          body: string, stored: Option<E.UserProfile>, now: nat, look: bool, kept: bool, file: bool)
      returns (r: RequestBody)
      requires Correct(p)
      modifies cache`memory, cache.redis
      ensures policy.Some? && clientId.Some? ==>
        var k := ForProfile(clientId.value, Some(policy.value.service.id));
        && r == RequestOf(p, u, j, policy, clientId, ProfileFound(old(cache.State()), k, now, look, stored), body)
        && cache.State() == if WantsDecryption(j, policy, clientId, body)
                            then AfterProfile(old(cache.State()), k, now, look, kept, stored, file) else old(cache.State())
      ensures policy.None? || clientId.None? ==> r == Untouched && cache.State() == old(cache.State())
      ensures r.Replaced? ==> policy.Some? && exists key, data ::
        j.member(body, "data") == Text(data) && ServiceBytesOf(p, u, policy.value.cryptoConfig, key, data, r.bytes)
    {
      hide Correct, OnlySpaces, Lookup, Apply, Render, ServiceDecrypt;
      if policy.None? || !policy.value.payloadExpectation.Decrypted? {
        return Untouched;
      }
      if clientId.None? || clientId.value == "" {
        return Untouched;
      }
      if OnlySpaces(body) {
        return Consumed;
      }
      var member := j.member(body, FIELD);
      if member.Malformed? || member.NotText? {
        return BadRequest;
      }
      if member.Absent? || member.Null? || member.value == "" {
        return Consumed;
      }
      var service := policy.value.service.id;
      var profile := cache.GetProfile(clientId.value, Some(service), now, look, kept);
      if profile.None? {
        profile := stored;
        if profile.Some? {
          cache.SetProfile(clientId.value, Some(service), profile.value, now, L2_TTL, file, kept);
        }
      }
      if profile.None? {
        return BadRequest;
      }
      var plain := ServiceDecrypt(p, u, policy.value.cryptoConfig, profile.value.encryptionKey, member.value);
      if plain.Ok? {
        ServiceBytesIff(p, u, policy.value.cryptoConfig, profile.value.encryptionKey, member.value, plain.value);
      }
      hide ServiceBytesOf;
      return if plain.Ok? then Replaced(plain.value) else BadRequest;
    }
  }

  // ---------- there and back ----------

  lemma CipherTextFacts(p: Primitives, s: Scheme, key: string, e: E.Encoding, iv: Bytes, plain: Bytes)
    requires Correct(p) && |iv| == IvSize(s) && Encrypted(p, s, key, e, iv, plain).Ok?
    ensures var data := Encrypted(p, s, key, e, iv, plain).value; data != ""
  {
    var wire := Frame(p, s, Decoded(key, e).value, iv, plain).value;
    FrameHasSize(p, s, Decoded(key, e).value, iv, plain);
    assert |wire| > 0;
  }

  lemma EnvelopeUnderstood(j: Json, data: string)
    requires ReadsEnvelopes(j)
    ensures !OnlySpaces(WriteEnvelope(FIELD, data))
    ensures j.member(WriteEnvelope(FIELD, data), FIELD) == Text(data)
  {
    hide Escaped, ReadEnvelope;
    EnvelopeRead(FIELD, data);
    assert WriteEnvelope(FIELD, data)[0] == '{';
  }

  /** A text that is understood reaches the decryption, whose outcome is the answer. */
  lemma TextDecides(p: Primitives, u: Utf8, j: Json, policy: E.EndpointPolicy, clientId: string, profile: E.UserProfile,
                    text: string, data: string)
    requires Correct(p) && policy.payloadExpectation.Decrypted? && clientId != ""
    requires !OnlySpaces(text) && j.member(text, FIELD) == Text(data) && data != ""
    ensures RequestOf(p, u, j, Some(policy), Some(clientId), Some(profile), text) ==
      match ServiceDecrypt(p, u, policy.cryptoConfig, profile.encryptionKey, data)
      case Err(_) => BadRequest
      case Ok(plain) => Replaced(plain)
  {
    hide Correct, OnlySpaces, ServiceDecrypt;
  }

  /**
   * The whole way: a non-empty response put in an envelope for a client comes out of the request transform, under the
   * same policy and profile, as the very bytes, exactly if it is within the readable length of the algorithm; a
   * longer one is answered with a bad request.
   */
  lemma EnvelopeRoundTrip(p: Primitives, u: Utf8, j: Json, policy: E.EndpointPolicy, clientId: string, profile: E.UserProfile,
                          body: Bytes, iv: Bytes)
    requires Correct(p) && ReadsEnvelopes(j)
    requires SchemeOf(policy.cryptoConfig.algorithm).Some? && RightIv(policy.cryptoConfig.algorithm, iv)
    requires policy.encryptResponse && policy.payloadExpectation.Decrypted? && clientId != "" && body != []
    requires ServiceEncrypt(p, u, policy.cryptoConfig, profile.encryptionKey, iv, body).Ok?
    ensures var sent := Response(p, u, Some(policy), true, Some(clientId), Some(profile), body, iv);
      && sent.Enveloped?
      && RequestOf(p, u, j, Some(policy), Some(clientId), Some(profile), sent.text) ==
        if |body| <= LargestReadable(SchemeOf(policy.cryptoConfig.algorithm).value) then Replaced(body) else BadRequest
  {
    hide Correct, Encrypted, Decrypted, WriteEnvelope, ReadsEnvelopes, OnlySpaces, LargestReadable, RequestOf;
    var c, key := policy.cryptoConfig, profile.encryptionKey;
    var s := SchemeOf(c.algorithm).value;
    var data := ServiceEncrypt(p, u, c, key, iv, body).value;
    CipherTextFacts(p, s, key, c.encoding, iv, body);
    RoundTripIff(p, s, key, c.encoding, iv, body);
    EnvelopeUnderstood(j, data);
    TextDecides(p, u, j, policy, clientId, profile, WriteEnvelope(FIELD, data), data);
  }
}
