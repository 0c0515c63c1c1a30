/**
 * The three wire formats of the crypto service and their text encodings.
 *
 *   AES-128-CBC       iv(16) ++ ciphertext
 *   AES-256-GCM       nonce(12) ++ ciphertext ++ tag(16)
 *   AES-256-CBC-HMAC  iv(16) ++ ciphertext ++ mac(32) over iv ++ ciphertext
 */
module CryptoServiceModel {
  import opened Wrappers
  import opened Codec
  import opened BlockMode
  import Entities

  const MAX_PAYLOAD_SIZE := 10 * 1024 * 1024
  const GCM_NONCE_SIZE := 12
  const GCM_TAG_SIZE := 16
  const HMAC_SIZE := 32

  datatype Scheme = Cbc | Gcm | CbcHmac

  datatype CryptoError =
    | KeyFormat(format: FormatError)
    | DataFormat(format: FormatError)
    | PayloadTooLarge
    | BadKeySize
    | TooShort
    | MacMismatch
    | BadCiphertext
    | NotAuthentic

  /** The MAC gives 32 bytes; the authenticated cipher opens exactly what it sealed, at the same length. */
  ghost predicate Correct(p: Primitives) {
    && Permutation(p)
    && (forall k: Bytes, d: Bytes :: |p.mac(k, d)| == HMAC_SIZE)
    && (forall k: Bytes, n: Bytes, m: Bytes :: |p.seal(k, n, m).0| == |m| && |p.seal(k, n, m).1| == GCM_TAG_SIZE)
    && (forall k: Bytes, n: Bytes, m: Bytes :: p.open(k, n, p.seal(k, n, m).0, p.seal(k, n, m).1) == Some(m))
    && (forall k: Bytes, n: Bytes, c: Bytes, t: Bytes ::
      p.open(k, n, c, t).Some? ==> p.seal(k, n, p.open(k, n, c, t).value) == (c, t))
  }

  predicate AesKeySize(key: Bytes) {
    |key| == 16 || |key| == 24 || |key| == 32
  }

  function IvSize(s: Scheme): nat {
    if s.Gcm? then GCM_NONCE_SIZE else BLOCK
  }

  // ---------- the formats ----------

  function CbcFrame(p: Primitives, key: Bytes, iv: Bytes, plain: Bytes): Result<Bytes, CryptoError>
    requires Correct(p) && |iv| == BLOCK
  {
    if !AesKeySize(key) then Err(BadKeySize) else Ok(iv + CbcEncrypted(p, key, iv, plain))
  }

  function CbcUnframe(p: Primitives, key: Bytes, wire: Bytes): Result<Bytes, CryptoError>
    requires Correct(p)
  {
    if |wire| < BLOCK then Err(TooShort)
    else if !AesKeySize(key) then Err(BadKeySize)
    else
      match CbcDecrypted(p, key, wire[..BLOCK], wire[BLOCK..])
      case Some(plain) => Ok(plain)
      case None => Err(BadCiphertext)
  }

  function GcmFrame(p: Primitives, key: Bytes, nonce: Bytes, plain: Bytes): Result<Bytes, CryptoError>
    requires Correct(p) && |nonce| == GCM_NONCE_SIZE
  {
    if !AesKeySize(key) then Err(BadKeySize)
    else Ok(nonce + p.seal(key, nonce, plain).0 + p.seal(key, nonce, plain).1)
  }

  function GcmUnframe(p: Primitives, key: Bytes, wire: Bytes): Result<Bytes, CryptoError>
    requires Correct(p)
  {
    if |wire| < GCM_NONCE_SIZE + GCM_TAG_SIZE then Err(TooShort)
    else if !AesKeySize(key) then Err(BadKeySize)
    else
      var tagOffset := |wire| - GCM_TAG_SIZE;
      match p.open(key, wire[..GCM_NONCE_SIZE], wire[GCM_NONCE_SIZE..tagOffset], wire[tagOffset..])
      case Some(plain) => Ok(plain)
      case None => Err(NotAuthentic)
  }

  function HmacFrame(p: Primitives, key: Bytes, iv: Bytes, plain: Bytes): Result<Bytes, CryptoError>
    requires Correct(p) && |iv| == BLOCK
  {
    if |key| < 64 then Err(BadKeySize)
    else
      var body := iv + CbcEncrypted(p, key[..32], iv, plain);
      Ok(body + p.mac(key[32..64], body))
  }

  function HmacUnframe(p: Primitives, key: Bytes, wire: Bytes): Result<Bytes, CryptoError>
    requires Correct(p)
  {
    if |key| < 64 then Err(BadKeySize)
    else if |wire| < BLOCK + HMAC_SIZE then Err(TooShort)
    else
      var macOffset := |wire| - HMAC_SIZE;
      var iv, cipher := wire[..BLOCK], wire[BLOCK..macOffset];
      if wire[macOffset..] != p.mac(key[32..64], iv + cipher) then Err(MacMismatch)
      else
        match CbcDecrypted(p, key[..32], iv, cipher)
        case Some(plain) => Ok(plain)
        case None => Err(BadCiphertext)
  }

  function Frame(p: Primitives, s: Scheme, key: Bytes, iv: Bytes, plain: Bytes): Result<Bytes, CryptoError>
    requires Correct(p) && |iv| == IvSize(s)
  {
    match s
    case Cbc => CbcFrame(p, key, iv, plain)
    case Gcm => GcmFrame(p, key, iv, plain)
    case CbcHmac => HmacFrame(p, key, iv, plain)
  }

  function Unframe(p: Primitives, s: Scheme, key: Bytes, wire: Bytes): Result<Bytes, CryptoError>
    requires Correct(p)
  {
    match s
    case Cbc => CbcUnframe(p, key, wire)
    case Gcm => GcmUnframe(p, key, wire)
    case CbcHmac => HmacUnframe(p, key, wire)
  }

  // ---------- the frames in bytes ----------

  /** 16, 24 or 32 bytes of key; or, with a MAC, 64 bytes, half of them for the cipher and half for the MAC. */
  predicate RightKey(s: Scheme, key: Bytes) {
    if s.CbcHmac? then |key| >= 64 else |key| in {16, 24, 32}
  }

  /** The bytes of a frame, one part after the other. */
  ghost predicate FrameOf(p: Primitives, s: Scheme, key: Bytes, iv: Bytes, plain: Bytes, wire: Bytes) {
    && RightKey(s, key)
    && match s
      case Cbc => |wire| >= 16 && wire[..16] == iv && CipherOf(p, key, iv, plain, wire[16..])
      case Gcm => |iv| == 12 && wire == iv + p.seal(key, iv, plain).0 + p.seal(key, iv, plain).1
      case CbcHmac =>
        |wire| >= 48
        && var body := wire[..|wire| - 32];
          body[..16] == iv && CipherOf(p, key[..32], iv, plain, body[16..]) && wire == body + p.mac(key[32..64], body)
  }

  lemma CbcFrameIff(p: Primitives, key: Bytes, iv: Bytes, plain: Bytes, wire: Bytes)
    requires Correct(p) && |iv| == BLOCK
    ensures CbcFrame(p, key, iv, plain) == Ok(wire) <==> FrameOf(p, Cbc, key, iv, plain, wire)
  {
    hide CipherOf, CbcEncrypted;
    var made := iv + CbcEncrypted(p, key, iv, plain);
    assert made[..16] == iv && made[16..] == CbcEncrypted(p, key, iv, plain);
    if |wire| >= 16 {
      CbcEncryptedIff(p, key, iv, plain, wire[16..]);
      assert wire == wire[..16] + wire[16..];
    }
  }

  lemma GcmFrameIff(p: Primitives, key: Bytes, iv: Bytes, plain: Bytes, wire: Bytes)
    requires Correct(p) && |iv| == GCM_NONCE_SIZE
    ensures GcmFrame(p, key, iv, plain) == Ok(wire) <==> FrameOf(p, Gcm, key, iv, plain, wire)
  {
    hide Correct;
  }

  lemma HmacFrameIff(p: Primitives, key: Bytes, iv: Bytes, plain: Bytes, wire: Bytes)
    requires Correct(p) && |iv| == BLOCK
    ensures HmacFrame(p, key, iv, plain) == Ok(wire) <==> FrameOf(p, CbcHmac, key, iv, plain, wire)
  {
    hide CipherOf, CbcEncrypted, Permutation;
    if |key| >= 64 {
      var body := iv + CbcEncrypted(p, key[..32], iv, plain);
      var made := body + p.mac(key[32..64], body);
      assert body[..16] == iv && body[16..] == CbcEncrypted(p, key[..32], iv, plain);
      assert made[..|made| - 32] == body;
      if |wire| >= 48 {
        var front := wire[..|wire| - 32];
        CbcEncryptedIff(p, key[..32], iv, plain, front[16..]);
        assert front == front[..16] + front[16..];
      }
    }
  }

  /** Framing gives exactly these bytes. */
  lemma FrameIff(p: Primitives, s: Scheme, key: Bytes, iv: Bytes, plain: Bytes, wire: Bytes)
    requires Correct(p) && |iv| == IvSize(s)
    ensures Frame(p, s, key, iv, plain) == Ok(wire) <==> FrameOf(p, s, key, iv, plain, wire)
  {
    hide Correct, FrameOf, CbcFrame, GcmFrame, HmacFrame;
    match s
    case Cbc => CbcFrameIff(p, key, iv, plain, wire);
    case Gcm => GcmFrameIff(p, key, iv, plain, wire);
    case CbcHmac => HmacFrameIff(p, key, iv, plain, wire);
  }

  // ---------- decryption is the exact inverse ----------

  /** A frame around no ciphertext at all, which encryption never makes; the decryptor's own answer decides it. */
  predicate EmptyFrame(p: Primitives, s: Scheme, key: Bytes, wire: Bytes, plain: Bytes) {
    && p.emptied == Some(plain)
    && match s
      case Cbc => AesKeySize(key) && |wire| == BLOCK
      case Gcm => false
      case CbcHmac => |key| >= 64 && |wire| == BLOCK + HMAC_SIZE && wire[BLOCK..] == p.mac(key[32..64], wire[..BLOCK])
  }

  lemma CbcFrameExact(p: Primitives, key: Bytes, iv: Bytes, wire: Bytes, plain: Bytes)
    requires Correct(p) && |iv| == BLOCK
    ensures CbcFrame(p, key, iv, plain) == Ok(wire) ==> CbcUnframe(p, key, wire) == Ok(plain) && iv == wire[..BLOCK]
    ensures CbcUnframe(p, key, wire) == Ok(plain) ==>
      (iv == wire[..BLOCK] ==> CbcFrame(p, key, iv, plain) == Ok(wire)) || EmptyFrame(p, Cbc, key, wire, plain)
    ensures EmptyFrame(p, Cbc, key, wire, plain) ==> CbcUnframe(p, key, wire) == Ok(plain)
  {
    if |wire| >= BLOCK {
      CbcExact(p, key, wire[..BLOCK], wire[BLOCK..], plain);
      assert wire == wire[..BLOCK] + wire[BLOCK..];
    }
    var made := iv + CbcEncrypted(p, key, iv, plain);
    assert made[..BLOCK] == iv && made[BLOCK..] == CbcEncrypted(p, key, iv, plain);
  }

  lemma GcmFrameExact(p: Primitives, key: Bytes, nonce: Bytes, wire: Bytes, plain: Bytes)
    requires Correct(p) && |nonce| == GCM_NONCE_SIZE
    ensures GcmFrame(p, key, nonce, plain) == Ok(wire) <==>
      |wire| >= GCM_NONCE_SIZE && nonce == wire[..GCM_NONCE_SIZE] && GcmUnframe(p, key, wire) == Ok(plain)
  {
    hide Permutation;
    var (c, t) := p.seal(key, nonce, plain);
    var made := nonce + c + t;
    var off := |made| - GCM_TAG_SIZE;
    assert made[..GCM_NONCE_SIZE] == nonce && made[GCM_NONCE_SIZE..off] == c && made[off..] == t;
    assert p.open(key, nonce, c, t) == Some(plain);
    if |wire| >= GCM_NONCE_SIZE + GCM_TAG_SIZE {
      var tagOffset := |wire| - GCM_TAG_SIZE;
      assert wire == wire[..GCM_NONCE_SIZE] + wire[GCM_NONCE_SIZE..tagOffset] + wire[tagOffset..];
    }
  }

  lemma HmacFrameExact(p: Primitives, key: Bytes, iv: Bytes, wire: Bytes, plain: Bytes)
    requires Correct(p) && |iv| == BLOCK
    ensures HmacFrame(p, key, iv, plain) == Ok(wire) ==> HmacUnframe(p, key, wire) == Ok(plain) && iv == wire[..BLOCK]
    ensures HmacUnframe(p, key, wire) == Ok(plain) ==>
      (iv == wire[..BLOCK] ==> HmacFrame(p, key, iv, plain) == Ok(wire)) || EmptyFrame(p, CbcHmac, key, wire, plain)
    ensures EmptyFrame(p, CbcHmac, key, wire, plain) ==> HmacUnframe(p, key, wire) == Ok(plain)
  {
    hide CbcDecrypted, CbcEncrypted;
    if HmacFrame(p, key, iv, plain) == Ok(wire) {
      HmacFrameOpens(p, key, iv, wire, plain);
    }
    if |key| >= 64 && |wire| >= BLOCK + HMAC_SIZE {
      var macOffset := |wire| - HMAC_SIZE;
      CbcExact(p, key[..32], wire[..BLOCK], wire[BLOCK..macOffset], plain);
      hide Correct;
      assert wire == wire[..BLOCK] + wire[BLOCK..macOffset] + wire[macOffset..];
      if |wire| == BLOCK + HMAC_SIZE {
        assert wire[BLOCK..macOffset] == [];
      }
    }
  }

  lemma HmacFrameOpens(p: Primitives, key: Bytes, iv: Bytes, wire: Bytes, plain: Bytes)
    requires Correct(p) && |iv| == BLOCK && HmacFrame(p, key, iv, plain) == Ok(wire)
    ensures HmacUnframe(p, key, wire) == Ok(plain) && iv == wire[..BLOCK]
  {
    hide CbcDecrypted, CbcEncrypted, Permutation;
    var aesKey, macKey := key[..32], key[32..64];
    var c := CbcEncrypted(p, aesKey, iv, plain);
    var off := |wire| - HMAC_SIZE;
    assert wire[..BLOCK] == iv && wire[BLOCK..off] == c && wire[off..] == p.mac(macKey, iv + c);
    CbcExact(p, aesKey, iv, c, plain);
  }

  /**
   * A wire string decrypts to a plaintext exactly when it is what encrypting that plaintext under its own iv gives, the
   * frame of no ciphertext apart.
   */
  lemma UnframeExact(p: Primitives, s: Scheme, key: Bytes, wire: Bytes, plain: Bytes)
    requires Correct(p)
    ensures Unframe(p, s, key, wire) == Ok(plain) <==>
      || (|wire| >= IvSize(s) && Frame(p, s, key, wire[..IvSize(s)], plain) == Ok(wire))
      || EmptyFrame(p, s, key, wire, plain)
    ensures var n := if s.Gcm? then 12 else 16;
      Unframe(p, s, key, wire) == Ok(plain) <==>
        || (|wire| >= n && FrameOf(p, s, key, wire[..n], plain, wire))
        || EmptyFrame(p, s, key, wire, plain)
  {
    hide FrameOf, Correct, Frame;
    if |wire| >= IvSize(s) {
      FrameIff(p, s, key, wire[..IvSize(s)], plain, wire);
    }
    FramesExact(p, s, key, wire, plain);
  }

  lemma FramesExact(p: Primitives, s: Scheme, key: Bytes, wire: Bytes, plain: Bytes)
    requires Correct(p)
    ensures Unframe(p, s, key, wire) == Ok(plain) <==>
      || (|wire| >= IvSize(s) && Frame(p, s, key, wire[..IvSize(s)], plain) == Ok(wire))
      || EmptyFrame(p, s, key, wire, plain)
  {
    if |wire| >= IvSize(s) {
      match s
      case Cbc => CbcFrameExact(p, key, wire[..BLOCK], wire, plain);
      case Gcm => GcmFrameExact(p, key, wire[..GCM_NONCE_SIZE], wire, plain);
      case CbcHmac => HmacFrameExact(p, key, wire[..BLOCK], wire, plain);
    }
  }

  /** Whatever passes the MAC check carries the MAC of the rest; only the key's first 64 bytes matter. */
  lemma AcceptedHmacWire(p: Primitives, key: Bytes, wire: Bytes)
    requires Correct(p) && |key| >= 64
    ensures HmacUnframe(p, key, wire) == HmacUnframe(p, key[..64], wire)
    ensures HmacUnframe(p, key, wire).Ok? ==>
      |wire| >= 48 && wire == wire[..|wire| - HMAC_SIZE] + p.mac(key[32..64], wire[..|wire| - HMAC_SIZE])
  {
    assert key[..64][..32] == key[..32] && key[..64][32..64] == key[32..64];
    if HmacUnframe(p, key, wire).Ok? {
      var off := |wire| - HMAC_SIZE;
      assert wire[..BLOCK] + wire[BLOCK..off] == wire[..off];
      assert wire == wire[..off] + wire[off..];
    }
  }

  // ---------- the size limit ----------

  function FrameSize(s: Scheme, n: nat): nat {
    match s
    case Cbc => BLOCK + (n / BLOCK + 1) * BLOCK
    case Gcm => GCM_NONCE_SIZE + n + GCM_TAG_SIZE
    case CbcHmac => BLOCK + (n / BLOCK + 1) * BLOCK + HMAC_SIZE
  }

  /** The longest plaintext whose frame the service will read back. */
  function LargestReadable(s: Scheme): nat {
    match s
    case Cbc => 10485743
    case Gcm => 10485732
    case CbcHmac => 10485711
  }

  lemma ReadableIff(s: Scheme, n: nat)
    ensures FrameSize(s, n) <= MAX_PAYLOAD_SIZE <==> n <= LargestReadable(s)
  {
    var blocks := n / BLOCK;
    assert n == BLOCK * blocks + n % BLOCK;
  }

  lemma FrameHasSize(p: Primitives, s: Scheme, key: Bytes, iv: Bytes, plain: Bytes)
    requires Correct(p) && |iv| == IvSize(s) && Frame(p, s, key, iv, plain).Ok?
    ensures |Frame(p, s, key, iv, plain).value| == FrameSize(s, |plain|)
  {
  }

  // ---------- the text forms ----------

  function Encoded(bs: Bytes, e: Entities.Encoding): string {
    if e.Base64? then Base64Text(bs) else HexText(bs)
  }

  function Decoded(s: string, e: Entities.Encoding): Result<Bytes, FormatError> {
    if e.Base64? then Base64Bytes(s) else HexBytes(s)
  }

  lemma DecodedEncoded(bs: Bytes, e: Entities.Encoding)
    ensures Decoded(Encoded(bs, e), e) == Ok(bs)
  {
    if e.Base64? {
      Base64Inverse(bs, Base64Text(bs));
    } else {
      HexTextIsUpper(bs);
      HexExact(HexText(bs), bs);
    }
  }

  function Encrypted(p: Primitives, s: Scheme, key: string, e: Entities.Encoding, iv: Bytes, plain: Bytes)
    : Result<string, CryptoError>
    requires Correct(p) && |iv| == IvSize(s)
  {
    match Decoded(key, e)
    case Err(f) => Err(KeyFormat(f))
    case Ok(keyBytes) =>
      if |plain| > MAX_PAYLOAD_SIZE then Err(PayloadTooLarge)
      else
        match Frame(p, s, keyBytes, iv, plain)
        case Err(f) => Err(f)
        case Ok(wire) => Ok(Encoded(wire, e))
  }

  function Decrypted(p: Primitives, s: Scheme, key: string, e: Entities.Encoding, data: string)
    : Result<Bytes, CryptoError>
    requires Correct(p)
  {
    match Decoded(key, e)
    case Err(f) => Err(KeyFormat(f))
    case Ok(keyBytes) =>
      match Decoded(data, e)
      case Err(f) => Err(DataFormat(f))
      case Ok(wire) => if |wire| > MAX_PAYLOAD_SIZE then Err(PayloadTooLarge) else Unframe(p, s, keyBytes, wire)
  }

  /**
   * What was encrypted decrypts to itself exactly up to a length short of the limit encryption itself imposes; beyond
   * it, the service refuses its own output as too large.
   */
  lemma RoundTripIff(p: Primitives, s: Scheme, key: string, e: Entities.Encoding, iv: Bytes, plain: Bytes)
    requires Correct(p) && |iv| == IvSize(s)
    requires Encrypted(p, s, key, e, iv, plain).Ok?
    ensures var r := Decrypted(p, s, key, e, Encrypted(p, s, key, e, iv, plain).value);
      && (r == Ok(plain) <==> |plain| <= LargestReadable(s))
      && (r == Err(PayloadTooLarge) <==> |plain| > LargestReadable(s))
  {
    var keyBytes := Decoded(key, e).value;
    var wire := Frame(p, s, keyBytes, iv, plain).value;
    DecodedEncoded(wire, e);
    FrameHasSize(p, s, keyBytes, iv, plain);
    ReadableIff(s, |plain|);
    assert wire[..IvSize(s)] == iv;
    UnframeExact(p, s, keyBytes, wire, plain);
  }

  /** Encryption itself accepts every plaintext up to the limit, under every key of a right size. */
  lemma EncryptsIff(p: Primitives, s: Scheme, key: string, e: Entities.Encoding, iv: Bytes, plain: Bytes)
    requires Correct(p) && |iv| == IvSize(s)
    ensures Encrypted(p, s, key, e, iv, plain).Ok? <==>
      Decoded(key, e).Ok? && RightKey(s, Decoded(key, e).value) && |plain| <= 10_485_760
  {
  }

  /** Bytes within the limit are the frame of a plaintext, or an empty frame that is answered with it. */
  ghost predicate OpenedBy(p: Primitives, s: Scheme, key: Bytes, wire: Bytes, plain: Bytes) {
    var n := if s.Gcm? then 12 else 16;
    n <= |wire| <= 10_485_760 && (FrameOf(p, s, key, wire[..n], plain, wire) || EmptyFrame(p, s, key, wire, plain))
  }

  /** A text decrypts to a plaintext exactly if its bytes are that plaintext's frame, or empty, and small enough. */
  lemma DecryptsExactly(p: Primitives, s: Scheme, key: string, e: Entities.Encoding, data: string, plain: Bytes)
    requires Correct(p)
    ensures Decrypted(p, s, key, e, data) == Ok(plain) <==>
      && Decoded(key, e).Ok? && Decoded(data, e).Ok?
      && OpenedBy(p, s, Decoded(key, e).value, Decoded(data, e).value, plain)
  {
    if Decoded(key, e).Ok? && Decoded(data, e).Ok? {
      UnframeExact(p, s, Decoded(key, e).value, Decoded(data, e).value, plain);
    }
    hide FrameOf, Correct, Unframe;
  }

  /** The text of some bytes: groups of Base64 characters, or two digits a byte. */
  ghost predicate TextOf(text: string, e: Entities.Encoding, bs: Bytes) {
    if e.Base64? then Base64Of(text, bs) else HexOf(text, bs)
  }

  lemma EncodedIs(bs: Bytes, e: Entities.Encoding)
    ensures TextOf(Encoded(bs, e), e, bs)
  {
    Base64TextIs(bs);
    HexTextIs(bs);
    hide Base64Of, HexOf;
  }

  /** What encryption gives is the text of a frame. */
  lemma EncryptedIs(p: Primitives, s: Scheme, key: string, e: Entities.Encoding, iv: Bytes, plain: Bytes)
    requires Correct(p) && |iv| == IvSize(s) && Encrypted(p, s, key, e, iv, plain).Ok?
    ensures exists k, wire ::
      && Decoded(key, e) == Ok(k) && FrameOf(p, s, k, iv, plain, wire)
      && TextOf(Encrypted(p, s, key, e, iv, plain).value, e, wire)
  {
    var k := Decoded(key, e).value;
    var wire := Frame(p, s, k, iv, plain).value;
    FrameIff(p, s, k, iv, plain, wire);
    EncodedIs(wire, e);
    hide Correct, FrameOf, TextOf, Frame;
    assert Decoded(key, e) == Ok(k);
  }

  lemma OpensExactly(p: Primitives, s: Scheme, key: Bytes, wire: Bytes)
    requires Correct(p)
    ensures var n := if s.Gcm? then 12 else 16;
      forall plain :: Unframe(p, s, key, wire) == Ok(plain) <==>
        (|wire| >= n && FrameOf(p, s, key, wire[..n], plain, wire)) || EmptyFrame(p, s, key, wire, plain)
  {
    hide Correct, FrameOf, EmptyFrame, Unframe;
    forall plain {
      UnframeExact(p, s, key, wire, plain);
    }
  }

  // ---------- the array code ----------

  /** `Array.Copy`. */
  method CopyBytes(src: array<byte>, srcStart: nat, dst: array<byte>, dstStart: nat, n: nat)
    requires srcStart + n <= src.Length && dstStart + n <= dst.Length && src != dst
    modifies dst
    ensures dst[..] == old(dst[..dstStart]) + src[srcStart..srcStart + n] + old(dst[dstStart + n..])
  {
    var i := 0;
    while i < n
      invariant i <= n
      invariant forall k :: 0 <= k < dst.Length ==>
        dst[k] == if dstStart <= k < dstStart + i then src[srcStart + (k - dstStart)] else old(dst[k])
    {
      dst[dstStart + i] := src[srcStart + i];
      i := i + 1;
    }
  }

  method StoreBytes(bs: Bytes, dst: array<byte>, start: nat)
    requires start + |bs| <= dst.Length
    modifies dst
    ensures dst[..] == old(dst[..start]) + bs + old(dst[start + |bs|..])
  {
    var i := 0;
    while i < |bs|
      invariant i <= |bs|
      invariant forall k :: 0 <= k < dst.Length ==>
        dst[k] == if start <= k < start + i then bs[k - start] else old(dst[k])
    {
      dst[start + i] := bs[i];
      i := i + 1;
    }
  }

  /** A pooled buffer: at least as long as asked for, with whatever its last user left in it. */
  method Rent(size: nat) returns (buffer: array<byte>)
    ensures fresh(buffer) && buffer.Length >= size
  {
    var surplus: nat :| true;
    buffer := new byte[size + surplus];
  }

  ghost predicate Cleared(buffer: array<byte>)
    reads buffer
  {
    forall i :: 0 <= i < buffer.Length ==> buffer[i] == 0
  }

  /** Return to the pool with `clearArray`. */
  method ReturnCleared(buffer: array<byte>)
    modifies buffer
    ensures Cleared(buffer)
  {
    for i := 0 to buffer.Length
      invariant forall k :: 0 <= k < i ==> buffer[k] == 0
    {
      buffer[i] := 0;
    }
  }

  /** Encrypt through two pooled buffers of any length and contents; both go back cleared, however the call ends. */
  method EncryptAesGcm(p: Primitives, plain: array<byte>, key: Bytes, nonce: Bytes,
                       cipherBuffer: array<byte>, tagBuffer: array<byte>) returns (r: Result<Bytes, CryptoError>)
    requires Correct(p) && |nonce| == GCM_NONCE_SIZE
    requires cipherBuffer.Length >= plain.Length && tagBuffer.Length >= GCM_TAG_SIZE
    requires cipherBuffer != tagBuffer && plain != cipherBuffer && plain != tagBuffer
    modifies cipherBuffer, tagBuffer
    ensures r == GcmFrame(p, key, nonce, plain[..])
    ensures Cleared(cipherBuffer) && Cleared(tagBuffer)
  {
    if !AesKeySize(key) {
      r := Err(BadKeySize);
    } else {
      hide Permutation;
      var n := plain.Length;
      var (c, t) := p.seal(key, nonce, plain[..]);
      StoreBytes(c, cipherBuffer, 0);
      StoreBytes(t, tagBuffer, 0);
      assert cipherBuffer[0..n] == c && tagBuffer[0..GCM_TAG_SIZE] == t;
      var result := new byte[GCM_NONCE_SIZE + n + GCM_TAG_SIZE];
      StoreBytes(nonce, result, 0);
      assert result[..GCM_NONCE_SIZE] == nonce;
      CopyBytes(cipherBuffer, 0, result, GCM_NONCE_SIZE, n);
      assert result[..GCM_NONCE_SIZE + n] == nonce + c;
      CopyBytes(tagBuffer, 0, result, GCM_NONCE_SIZE + n, GCM_TAG_SIZE);
      assert result[..] == nonce + c + t;
      r := Ok(result[..]);
    }
    ReturnCleared(cipherBuffer);
    ReturnCleared(tagBuffer);
  }

  method DecryptAesGcm(p: Primitives, wire: array<byte>, key: Bytes, plainBuffer: array<byte>)
    returns (r: Result<Bytes, CryptoError>)
    requires Correct(p) && wire != plainBuffer
    requires plainBuffer.Length + GCM_NONCE_SIZE + GCM_TAG_SIZE >= wire.Length
    modifies plainBuffer
    ensures r == GcmUnframe(p, key, wire[..])
    ensures wire.Length >= GCM_NONCE_SIZE + GCM_TAG_SIZE ==> Cleared(plainBuffer)
  {
    if wire.Length < GCM_NONCE_SIZE + GCM_TAG_SIZE {
      return Err(TooShort);
    }
    var tagOffset := wire.Length - GCM_TAG_SIZE;
    var nonce, cipher, tag := wire[..GCM_NONCE_SIZE], wire[GCM_NONCE_SIZE..tagOffset], wire[tagOffset..];
    assert wire[..][..GCM_NONCE_SIZE] == nonce && wire[..][GCM_NONCE_SIZE..tagOffset] == cipher;
    assert wire[..][tagOffset..] == tag;
    if !AesKeySize(key) {
      r := Err(BadKeySize);
    } else {
      var unsealed := p.open(key, nonce, cipher, tag);
      if unsealed.None? {
        r := Err(NotAuthentic);
      } else {
        var n := |cipher|;
        StoreBytes(unsealed.value, plainBuffer, 0);
        assert plainBuffer[0..n] == unsealed.value;
        var result := new byte[n];
        CopyBytes(plainBuffer, 0, result, 0, n);
        assert result[..] == unsealed.value;
        r := Ok(result[..]);
      }
    }
    ReturnCleared(plainBuffer);
  }

  /** The iv, then the ciphertext, then whatever follows, copied into one new array. */
  method Assemble(iv: Bytes, cipher: Bytes, trailer: Bytes) returns (wire: Bytes)
    ensures wire == iv + cipher + trailer
  {
    var result := new byte[|iv| + |cipher| + |trailer|];
    StoreBytes(iv, result, 0);
    assert result[..|iv|] == iv;
    StoreBytes(cipher, result, |iv|);
    assert result[..|iv| + |cipher|] == iv + cipher;
    StoreBytes(trailer, result, |iv| + |cipher|);
    wire := result[..];
  }

  method EncryptAesCbc(p: Primitives, plain: Bytes, key: Bytes, iv: Bytes) returns (r: Result<Bytes, CryptoError>)
    requires Correct(p) && |iv| == BLOCK
    ensures r == CbcFrame(p, key, iv, plain)
    ensures forall wire :: r == Ok(wire) <==> FrameOf(p, Cbc, key, iv, plain, wire)
  {
    forall wire ensures CbcFrame(p, key, iv, plain) == Ok(wire) <==> FrameOf(p, Cbc, key, iv, plain, wire) {
      CbcFrameIff(p, key, iv, plain, wire);
    }
    hide FrameOf, Correct;
    if !AesKeySize(key) {
      return Err(BadKeySize);
    }
    var c := EncryptBlocks(p, key, iv, plain);
    var wire := Assemble(iv, c, []);
    assert iv + c + [] == iv + c;
    return Ok(wire);
  }

  method DecryptAesCbc(p: Primitives, wire: Bytes, key: Bytes) returns (r: Result<Bytes, CryptoError>)
    requires Correct(p)
    ensures r == CbcUnframe(p, key, wire)
    ensures forall plain :: r == Ok(plain) <==>
      (|wire| >= 16 && FrameOf(p, Cbc, key, wire[..16], plain, wire)) || EmptyFrame(p, Cbc, key, wire, plain)
  {
    OpensExactly(p, Cbc, key, wire);
    hide FrameOf, EmptyFrame;
    if |wire| < BLOCK {
      return Err(TooShort);
    }
    if !AesKeySize(key) {
      return Err(BadKeySize);
    }
    var plain := DecryptBlocks(p, key, wire[..BLOCK], wire[BLOCK..]);
    return if plain.Some? then Ok(plain.value) else Err(BadCiphertext);
  }

  method EncryptAesCbcHmac(p: Primitives, plain: Bytes, key: Bytes, iv: Bytes) returns (r: Result<Bytes, CryptoError>)
    requires Correct(p) && |iv| == BLOCK
    ensures r == HmacFrame(p, key, iv, plain)
    ensures forall wire :: r == Ok(wire) <==> FrameOf(p, CbcHmac, key, iv, plain, wire)
  {
    forall wire ensures HmacFrame(p, key, iv, plain) == Ok(wire) <==> FrameOf(p, CbcHmac, key, iv, plain, wire) {
      HmacFrameIff(p, key, iv, plain, wire);
    }
    hide FrameOf;
    if |key| < 64 {
      return Err(BadKeySize);
    }
    var c := EncryptBlocks(p, key[..32], iv, plain);
    var wire := Assemble(iv, c, p.mac(key[32..64], iv + c));
    return Ok(wire);
  }

  method DecryptAesCbcHmac(p: Primitives, wire: Bytes, key: Bytes) returns (r: Result<Bytes, CryptoError>)
    requires Correct(p)
    ensures r == HmacUnframe(p, key, wire)
    ensures forall plain :: r == Ok(plain) <==>
      (|wire| >= 16 && FrameOf(p, CbcHmac, key, wire[..16], plain, wire)) || EmptyFrame(p, CbcHmac, key, wire, plain)
  {
    OpensExactly(p, CbcHmac, key, wire);
    hide FrameOf, EmptyFrame;
    if |key| < 64 {
      return Err(BadKeySize);
    }
    if |wire| < BLOCK + HMAC_SIZE {
      return Err(TooShort);
    }
    var macOffset := |wire| - HMAC_SIZE;
    var iv, cipher := wire[..BLOCK], wire[BLOCK..macOffset];
    if wire[macOffset..] != p.mac(key[32..64], iv + cipher) {
      return Err(MacMismatch);
    }
    var plain := DecryptBlocks(p, key[..32], iv, cipher);
    return if plain.Some? then Ok(plain.value) else Err(BadCiphertext);
  }

  method Decode(s: string, e: Entities.Encoding) returns (r: Result<Bytes, FormatError>)
    ensures r == Decoded(s, e)
  {
    if e.Base64? {
      r := FromBase64String(s);
    } else {
      r := FromHexString(s);
    }
  }

  method Encrypt(p: Primitives, plain: array<byte>, s: Scheme, key: string, e: Entities.Encoding, iv: Bytes)
    returns (r: Result<string, CryptoError>)
    requires Correct(p) && |iv| == IvSize(s)
    ensures r == Encrypted(p, s, key, e, iv, plain[..])
    ensures r.Ok? ==> exists k, wire ::
      Decoded(key, e) == Ok(k) && FrameOf(p, s, k, iv, plain[..], wire) && TextOf(r.value, e, wire)
  {
    if Encrypted(p, s, key, e, iv, plain[..]).Ok? {
      EncryptedIs(p, s, key, e, iv, plain[..]);
    }
    hide FrameOf, TextOf, Correct;
    var keyBytes := Decode(key, e);
    if keyBytes.Err? {
      return Err(KeyFormat(keyBytes.error));
    }
    if plain.Length > MAX_PAYLOAD_SIZE {
      return Err(PayloadTooLarge);
    }
    var wire;
    match s {
      case Cbc => wire := EncryptAesCbc(p, plain[..], keyBytes.value, iv);
      case CbcHmac => wire := EncryptAesCbcHmac(p, plain[..], keyBytes.value, iv);
      case Gcm =>
        var cipherBuffer := Rent(plain.Length);
        var tagBuffer := Rent(GCM_TAG_SIZE);
        wire := EncryptAesGcm(p, plain, keyBytes.value, iv, cipherBuffer, tagBuffer);
    }
    if wire.Err? {
      return Err(wire.error);
    }
    var text;
    if e.Base64? {
      text := ToBase64String(wire.value);
    } else {
      text := ToHexString(wire.value);
    }
    return Ok(text);
  }

  method Decrypt(p: Primitives, data: string, s: Scheme, key: string, e: Entities.Encoding)
    returns (r: Result<Bytes, CryptoError>)
    requires Correct(p)
    ensures r == Decrypted(p, s, key, e, data)
    ensures forall k, wire, plain :: Decoded(key, e) == Ok(k) && Decoded(data, e) == Ok(wire) ==>
      (r == Ok(plain) <==> OpenedBy(p, s, k, wire, plain))
  {
    forall k, wire, plain | Decoded(key, e) == Ok(k) && Decoded(data, e) == Ok(wire)
      ensures Decrypted(p, s, key, e, data) == Ok(plain) <==> OpenedBy(p, s, k, wire, plain)
    {
      DecryptsExactly(p, s, key, e, data, plain);
    }
    hide OpenedBy;
    var keyBytes := Decode(key, e);
    if keyBytes.Err? {
      return Err(KeyFormat(keyBytes.error));
    }
    var wire := Decode(data, e);
    if wire.Err? {
      return Err(DataFormat(wire.error));
    }
    if |wire.value| > MAX_PAYLOAD_SIZE {
      return Err(PayloadTooLarge);
    }
    match s {
      case Cbc => r := DecryptAesCbc(p, wire.value, keyBytes.value);
      case CbcHmac => r := DecryptAesCbcHmac(p, wire.value, keyBytes.value);
      case Gcm =>
        var wireArray := new byte[|wire.value|];
        StoreBytes(wire.value, wireArray, 0);
        assert wireArray[..] == wire.value;
        var overhead := GCM_NONCE_SIZE + GCM_TAG_SIZE;
        var plainBuffer := Rent(if |wire.value| < overhead then 0 else |wire.value| - overhead);
        r := DecryptAesGcm(p, wireArray, keyBytes.value, plainBuffer);
    }
  }
}
