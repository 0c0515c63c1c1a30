/**
 * PKCS#7 padding (section 6.3 of RFC 5652) and cipher block chaining (section 6.2 of NIST SP 800-38A), over any
 * block cipher, with the ciphers and the MAC taken as parameters.
 */
module BlockMode {
  import opened Wrappers
  import opened Codec

  type Bytes = seq<byte>

  const BLOCK := 16

  /**
   * The cryptographic functions the service calls, as functions of their inputs; `emptied` is what a decryptor answers
   * when it is given no ciphertext at all.
   */
  datatype Primitives = Primitives(
    enc: (Bytes, Bytes) -> Bytes,                          // key, block
    dec: (Bytes, Bytes) -> Bytes,
    emptied: Option<Bytes>,
    mac: (Bytes, Bytes) -> Bytes,                          // key, data
    seal: (Bytes, Bytes, Bytes) -> (Bytes, Bytes),         // key, nonce, plaintext to ciphertext, tag
    open: (Bytes, Bytes, Bytes, Bytes) -> Option<Bytes>)   // key, nonce, ciphertext, tag

  /** The block cipher is a permutation of blocks under every key. */
  ghost predicate Permutation(p: Primitives) {
    forall k: Bytes, b: Bytes :: |b| == BLOCK ==>
      && |p.enc(k, b)| == BLOCK && |p.dec(k, b)| == BLOCK
      && p.dec(k, p.enc(k, b)) == b && p.enc(k, p.dec(k, b)) == b
  }

  // ---------- exclusive or ----------

  /** Exclusive or, bit by bit. */
  function XorBits(a: nat, b: nat): nat
    decreases a + b
  {
    if a == 0 && b == 0 then 0 else (a + b) % 2 + 2 * XorBits(a / 2, b / 2)
  }

  lemma {:induction false} XorBelow(a: nat, b: nat, width: nat)
    requires a < Power2(width) && b < Power2(width)
    ensures XorBits(a, b) < Power2(width)
    decreases width
  {
    if width > 0 && (a != 0 || b != 0) {
      XorBelow(a / 2, b / 2, width - 1);
    }
  }

  function Power2(n: nat): nat {
    if n == 0 then 1 else 2 * Power2(n - 1)
  }

  lemma XorStep(a: nat, b: nat)
    ensures XorBits(a, b) == (a + b) % 2 + 2 * XorBits(a / 2, b / 2)
  {
  }

  lemma Halves(a: nat)
    ensures a == a % 2 + 2 * (a / 2)
  {
  }

  lemma LowBit(a: nat, b: nat, high: nat)
    ensures var x := (a + b) % 2 + 2 * high;
      x % 2 == (a + b) % 2 && x / 2 == high && (x + b) % 2 == a % 2
  {
  }

  lemma {:induction false} XorUndone(a: nat, b: nat)
    ensures XorBits(XorBits(a, b), b) == a
    decreases a + b
  {
    if a != 0 || b != 0 {
      XorUndone(a / 2, b / 2);
      var high := XorBits(a / 2, b / 2);
      var x := XorBits(a, b);
      XorStep(a, b);
      XorStep(x, b);
      LowBit(a, b, high);
      hide XorBits;
      Halves(a);
    }
  }

  function XorByte(a: byte, b: byte): byte {
    assert Power2(8) == 256;
    XorBelow(a, b, 8);
    XorBits(a, b)
  }

  function Xor(a: Bytes, b: Bytes): (r: Bytes)
    requires |a| == |b|
    ensures |r| == |a|
  {
    seq(|a|, i requires 0 <= i < |a| => XorByte(a[i], b[i]))
  }

  lemma XorTwice(a: Bytes, b: Bytes)
    requires |a| == |b|
    ensures Xor(Xor(a, b), b) == a
  {
    forall i | 0 <= i < |a| ensures Xor(Xor(a, b), b)[i] == a[i] {
      XorUndone(a[i], b[i]);
    }
  }

  /** The k-th bit of a number. */
  function Bit(n: nat, k: nat): (r: nat)
    ensures r <= 1
  {
    if k == 0 then n % 2 else Bit(n / 2, k - 1)
  }

  /** What is left of a number without its lowest four bits. */
  function High(n: nat): nat {
    n / 2 / 2 / 2 / 2
  }

  /** A byte is made of its eight bits. */
  lemma ByteOfBits(b: byte)
    ensures b == Bit(b, 0) + 2 * Bit(b, 1) + 4 * Bit(b, 2) + 8 * Bit(b, 3) + 16 * Bit(b, 4) + 32 * Bit(b, 5)
      + 64 * Bit(b, 6) + 128 * Bit(b, 7)
  {
    hide *;
    var h := High(b);
    FourBits(b);
    FourBits(h);
    FourShifts(b);
    assert b - 16 * h < 16 && h < 16 && High(h) == 0;
  }

  lemma FourBits(n: nat)
    ensures n == Bit(n, 0) + 2 * Bit(n, 1) + 4 * Bit(n, 2) + 8 * Bit(n, 3) + 16 * High(n)
  {
    assert Bit(n, 0) == n % 2 && Bit(n, 1) == n / 2 % 2 && Bit(n, 2) == n / 2 / 2 % 2 && Bit(n, 3) == n / 2 / 2 / 2 % 2;
    hide Bit;
  }

  lemma FourShifts(n: nat)
    ensures Bit(n, 4) == Bit(High(n), 0) && Bit(n, 5) == Bit(High(n), 1)
    ensures Bit(n, 6) == Bit(High(n), 2) && Bit(n, 7) == Bit(High(n), 3)
  {
    Shifted(n, 0);
    Shifted(n, 1);
    Shifted(n, 2);
    Shifted(n, 3);
  }

  lemma Shifted(n: nat, k: nat)
    ensures Bit(n, k + 4) == Bit(High(n), k)
  {
    assert Bit(n, k + 4) == Bit(n / 2, k + 3) == Bit(n / 2 / 2, k + 2);
    assert Bit(n / 2 / 2, k + 2) == Bit(n / 2 / 2 / 2, k + 1) == Bit(n / 2 / 2 / 2 / 2, k);
  }

  lemma {:induction false} XorBit(a: nat, b: nat, k: nat)
    ensures Bit(XorBits(a, b), k) == 1 <==> Bit(a, k) != Bit(b, k)
    decreases k
  {
    var high := XorBits(a / 2, b / 2);
    XorStep(a, b);
    LowBit(a, b, high);
    BitStep(XorBits(a, b), k);
    BitStep(a, k);
    BitStep(b, k);
    hide *;
    if k > 0 {
      XorBit(a / 2, b / 2, k - 1);
    } else {
      Parity(a, b);
    }
  }

  lemma BitStep(n: nat, k: nat)
    ensures Bit(n, k) == if k == 0 then n % 2 else Bit(n / 2, k - 1)
  {
  }

  lemma Parity(a: nat, b: nat)
    ensures (a + b) % 2 == 1 <==> a % 2 != b % 2
  {
  }

  /** Bit for bit, a text of bytes is the exclusive or of two others. */
  ghost predicate XorOf(r: Bytes, a: Bytes, b: Bytes) {
    && |r| == |a| == |b|
    && forall i, k: nat :: 0 <= i < |r| && k < 8 ==> (Bit(r[i], k) == 1 <==> Bit(a[i], k) != Bit(b[i], k))
  }

  lemma XorIff(r: Bytes, a: Bytes, b: Bytes)
    requires |a| == |b|
    ensures r == Xor(a, b) <==> XorOf(r, a, b)
  {
    var x := Xor(a, b);
    forall i, k: nat | 0 <= i < |x| && k < 8 ensures Bit(x[i], k) == 1 <==> Bit(a[i], k) != Bit(b[i], k) {
      XorBit(a[i], b[i], k);
    }
    hide XorBits, Xor;
    if XorOf(r, a, b) {
      forall i | 0 <= i < |r| ensures r[i] == x[i] {
        SameBits(r[i], x[i]);
      }
    }
  }

  lemma SameBits(a: byte, b: byte)
    requires forall k: nat :: k < 8 ==> (Bit(a, k) == 1 <==> Bit(b, k) == 1)
    ensures a == b
  {
    ByteOfBits(a);
    ByteOfBits(b);
    hide Bit;
    assert forall k: nat :: k < 8 ==> Bit(a, k) == Bit(b, k);
  }

  // ---------- padding ----------

  function Pad(p: Bytes): (r: Bytes)
    ensures |r| == (|p| / BLOCK + 1) * BLOCK
  {
    var n := BLOCK - |p| % BLOCK;
    p + seq(n, _ => n)
  }

  function Unpad(x: Bytes): Option<Bytes> {
    if |x| == 0 || |x| % BLOCK != 0 then None
    else
      var n := x[|x| - 1];
      if 1 <= n <= BLOCK && forall i :: |x| - n <= i < |x| ==> x[i] == n
      then Some(x[..|x| - n])
      else None
  }

  /** Unpadding accepts exactly the padded texts. */
  lemma UnpadExact(x: Bytes, p: Bytes)
    ensures Unpad(x) == Some(p) <==> x == Pad(p)
  {
    var padded := Pad(p);
    var m := BLOCK - |p| % BLOCK;
    assert Unpad(padded) == Some(p) by {
      assert padded[|padded| - 1] == m;
      assert padded[..|padded| - m] == p;
    }
    if Unpad(x) == Some(p) {
      var n := x[|x| - 1];
      assert p == x[..|x| - n];
      assert |p| % BLOCK == (BLOCK - n) % BLOCK;
      assert n == m;
      assert x == p + x[|x| - n..];
      assert x[|x| - n..] == seq(n, _ => n);
    }
  }

  /** A text followed by as many bytes as fill its last block, a whole block if it is full, each of them that number. */
  ghost predicate PaddedOf(x: Bytes, p: Bytes) {
    var n := 16 - |p| % 16;
    |x| == |p| + n && x[..|p|] == p && forall i :: |p| <= i < |x| ==> x[i] == n
  }

  lemma PaddedIff(x: Bytes, p: Bytes)
    ensures x == Pad(p) <==> PaddedOf(x, p)
  {
    if PaddedOf(x, p) {
      assert x == x[..|p|] + x[|p|..];
    }
  }

  // ---------- chaining ----------

  function Chain(p: Primitives, key: Bytes, prev: Bytes, x: Bytes): (c: Bytes)
    requires Permutation(p) && |prev| == BLOCK && |x| % BLOCK == 0
    ensures |c| == |x|
    decreases |x|
  {
    if x == [] then []
    else
      var block := p.enc(key, Xor(x[..BLOCK], prev));
      block + Chain(p, key, block, x[BLOCK..])
  }

  function Unchain(p: Primitives, key: Bytes, prev: Bytes, c: Bytes): (x: Bytes)
    requires Permutation(p) && |prev| == BLOCK && |c| % BLOCK == 0
    ensures |x| == |c|
    decreases |c|
  {
    if c == [] then []
    else Xor(p.dec(key, c[..BLOCK]), prev) + Unchain(p, key, c[..BLOCK], c[BLOCK..])
  }

  lemma {:induction false} ChainThenUnchain(p: Primitives, key: Bytes, prev: Bytes, x: Bytes)
    requires Permutation(p) && |prev| == BLOCK && |x| % BLOCK == 0
    ensures Unchain(p, key, prev, Chain(p, key, prev, x)) == x
    decreases |x|
  {
    if x != [] {
      var head := x[..BLOCK];
      var block := p.enc(key, Xor(head, prev));
      var c := Chain(p, key, prev, x);
      assert c[..BLOCK] == block && c[BLOCK..] == Chain(p, key, block, x[BLOCK..]);
      ChainThenUnchain(p, key, block, x[BLOCK..]);
      XorTwice(head, prev);
      assert x == head + x[BLOCK..];
    }
  }

  lemma {:induction false} UnchainThenChain(p: Primitives, key: Bytes, prev: Bytes, c: Bytes)
    requires Permutation(p) && |prev| == BLOCK && |c| % BLOCK == 0
    ensures Chain(p, key, prev, Unchain(p, key, prev, c)) == c
    decreases |c|
  {
    if c != [] {
      var head := c[..BLOCK];
      var x := Unchain(p, key, prev, c);
      var plain := Xor(p.dec(key, head), prev);
      assert x[..BLOCK] == plain && x[BLOCK..] == Unchain(p, key, head, c[BLOCK..]);
      XorTwice(p.dec(key, head), prev);
      UnchainThenChain(p, key, head, c[BLOCK..]);
      assert c == head + c[BLOCK..];
    }
  }

  /** Each block is the cipher of the text's block, exclusive-or'ed with the block before: with the first, the iv. */
  ghost predicate CbcOf(p: Primitives, key: Bytes, iv: Bytes, x: Bytes, c: Bytes) {
    && |iv| == 16 && |x| == |c| && |c| % 16 == 0
    && forall i: nat :: i % 16 == 0 && i < |c| ==> CbcBlock(p, key, iv, x, c, i)
  }

  ghost predicate CbcBlock(p: Primitives, key: Bytes, iv: Bytes, x: Bytes, c: Bytes, i: nat)
    requires |x| == |c| && i + 16 <= |c|
  {
    var prev := if i < 16 then iv else c[i - 16..i];
    exists m :: XorOf(m, x[i..i + 16], prev) && c[i..i + 16] == p.enc(key, m)
  }

  lemma {:induction false} ChainIff(p: Primitives, key: Bytes, iv: Bytes, x: Bytes, c: Bytes)
    requires Permutation(p) && |iv| == BLOCK && |x| == |c| && |x| % BLOCK == 0
    ensures c == Chain(p, key, iv, x) <==> CbcOf(p, key, iv, x, c)
    decreases |x|
  {
    hide Permutation, XorOf, Xor, Chain;
    if x == [] {
      assert Chain(p, key, iv, x) == [];
    } else {
      var head, block := Xor(x[..BLOCK], iv), c[..BLOCK];
      var xs, cs := x[BLOCK..], c[BLOCK..];
      ChainParts(p, key, iv, x, c);
      ChainIff(p, key, block, xs, cs);
      FirstBlock(p, key, iv, x, c);
      RestBlocks(p, key, iv, x, c);
    }
  }

  lemma ChainParts(p: Primitives, key: Bytes, iv: Bytes, x: Bytes, c: Bytes)
    requires Permutation(p) && |iv| == BLOCK && |x| == |c| && |x| % BLOCK == 0 && x != []
    ensures c == Chain(p, key, iv, x) <==>
      c[..BLOCK] == p.enc(key, Xor(x[..BLOCK], iv)) && c[BLOCK..] == Chain(p, key, c[..BLOCK], x[BLOCK..])
  {
    var block := p.enc(key, Xor(x[..BLOCK], iv));
    assert |block| == BLOCK;
    assert Chain(p, key, iv, x) == block + Chain(p, key, block, x[BLOCK..]);
    hide Chain, Xor, Permutation;
    assert c == c[..BLOCK] + c[BLOCK..];
    if c == Chain(p, key, iv, x) {
      assert c[..BLOCK] == block;
    }
  }

  lemma FirstBlock(p: Primitives, key: Bytes, iv: Bytes, x: Bytes, c: Bytes)
    requires |iv| == 16 && |x| == |c| && |c| >= 16
    ensures CbcBlock(p, key, iv, x, c, 0) <==> c[..BLOCK] == p.enc(key, Xor(x[..BLOCK], iv))
  {
    forall m ensures m == Xor(x[..BLOCK], iv) <==> XorOf(m, x[..BLOCK], iv) {
      XorIff(m, x[..BLOCK], iv);
    }
    hide XorOf, Xor;
    assert x[0..16] == x[..BLOCK] && c[0..16] == c[..BLOCK];
  }

  lemma RestBlocks(p: Primitives, key: Bytes, iv: Bytes, x: Bytes, c: Bytes)
    requires |iv| == 16 && |x| == |c| && |c| % 16 == 0 && c != []
    ensures CbcOf(p, key, iv, x, c) <==>
      CbcBlock(p, key, iv, x, c, 0) && CbcOf(p, key, c[..BLOCK], x[BLOCK..], c[BLOCK..])
  {
    var xs, cs, block := x[BLOCK..], c[BLOCK..], c[..BLOCK];
    forall i: nat | i % 16 == 0 && i < |cs|
      ensures CbcBlock(p, key, block, xs, cs, i) <==> CbcBlock(p, key, iv, x, c, i + 16)
    {
      BlockShifts(p, key, iv, x, c, i);
    }
    hide CbcBlock;
    if CbcBlock(p, key, iv, x, c, 0) && CbcOf(p, key, block, xs, cs) {
      forall i: nat | i % 16 == 0 && i < |c| ensures CbcBlock(p, key, iv, x, c, i) {
        if i > 0 {
          assert CbcBlock(p, key, block, xs, cs, i - 16);
        }
      }
    }
  }

  lemma BlockShifts(p: Primitives, key: Bytes, iv: Bytes, x: Bytes, c: Bytes, i: nat)
    requires |x| == |c| && |c| % 16 == 0 && i % 16 == 0 && i + 16 < |c|
    ensures i + 32 <= |c|
    ensures CbcBlock(p, key, c[..BLOCK], x[BLOCK..], c[BLOCK..], i) <==> CbcBlock(p, key, iv, x, c, i + 16)
  {
    hide XorOf;
    var xs, cs := x[BLOCK..], c[BLOCK..];
    assert xs[i..i + 16] == x[i + 16..i + 32] && cs[i..i + 16] == c[i + 16..i + 32];
    if i < 16 {
      assert c[..BLOCK] == c[i..i + 16];
    } else {
      assert cs[i - 16..i] == c[i..i + 16];
    }
  }

  function CbcEncrypted(p: Primitives, key: Bytes, iv: Bytes, plain: Bytes): (c: Bytes)
    requires Permutation(p) && |iv| == BLOCK
    ensures |c| == (|plain| / BLOCK + 1) * BLOCK
  {
    Chain(p, key, iv, Pad(plain))
  }

  /** `None`: a partial block, or bad padding. */
  function CbcDecrypted(p: Primitives, key: Bytes, iv: Bytes, c: Bytes): Option<Bytes>
    requires Permutation(p) && |iv| == BLOCK
  {
    if |c| % BLOCK != 0 then None else if c == [] then p.emptied else Unpad(Unchain(p, key, iv, c))
  }

  /** Of any ciphertext at all, decryption gives a plaintext exactly when it is that plaintext's encryption. */
  lemma CbcExact(p: Primitives, key: Bytes, iv: Bytes, c: Bytes, plain: Bytes)
    requires Permutation(p) && |iv| == BLOCK
    ensures CbcDecrypted(p, key, iv, c) == Some(plain) <==>
      c == CbcEncrypted(p, key, iv, plain) || (c == [] && p.emptied == Some(plain))
  {
    hide Chain, Unchain, Pad, Unpad, Permutation;
    if |c| % BLOCK == 0 {
      var x := Unchain(p, key, iv, c);
      UnpadExact(x, plain);
      UnchainThenChain(p, key, iv, c);
      ChainThenUnchain(p, key, iv, Pad(plain));
    }
  }

  /** The padded text under chaining, in bits and blocks. */
  ghost predicate CipherOf(p: Primitives, key: Bytes, iv: Bytes, plain: Bytes, c: Bytes) {
    exists x :: PaddedOf(x, plain) && CbcOf(p, key, iv, x, c)
  }

  lemma CbcEncryptedIff(p: Primitives, key: Bytes, iv: Bytes, plain: Bytes, c: Bytes)
    requires Permutation(p) && |iv| == BLOCK
    ensures c == CbcEncrypted(p, key, iv, plain) <==> CipherOf(p, key, iv, plain, c)
  {
    var x := Pad(plain);
    forall y ensures y == x <==> PaddedOf(y, plain) {
      PaddedIff(y, plain);
    }
    if |c| == |x| {
      ChainIff(p, key, iv, x, c);
    }
    hide Pad, PaddedOf, Chain, Permutation;
  }

  /** The answer is a text exactly if the input is that text's cipher, or nothing and the decryptor answers that with it. */
  ghost predicate PlainOf(p: Primitives, key: Bytes, iv: Bytes, c: Bytes, answer: Option<Bytes>) {
    forall q :: answer == Some(q) <==> CipherOf(p, key, iv, q, c) || (c == [] && p.emptied == Some(q))
  }

  lemma DecryptedIff(p: Primitives, key: Bytes, iv: Bytes, c: Bytes)
    requires Permutation(p) && |iv| == BLOCK
    ensures PlainOf(p, key, iv, c, CbcDecrypted(p, key, iv, c))
  {
    hide CbcDecrypted, CbcEncrypted, CipherOf, Permutation;
    forall q ensures CbcDecrypted(p, key, iv, c) == Some(q) <==>
      CipherOf(p, key, iv, q, c) || (c == [] && p.emptied == Some(q))
    {
      CbcExact(p, key, iv, c, q);
      CbcEncryptedIff(p, key, iv, q, c);
    }
  }

  // ---------- the loops ----------

  lemma ChainStep(p: Primitives, key: Bytes, prev: Bytes, x: Bytes, i: nat)
    requires Permutation(p) && |prev| == BLOCK && |x| % BLOCK == 0 && i < |x| && i % BLOCK == 0
    ensures i + BLOCK <= |x|
    ensures var block := p.enc(key, Xor(x[i..i + BLOCK], prev));
      Chain(p, key, prev, x[i..]) == block + Chain(p, key, block, x[i + BLOCK..])
  {
    assert x[i..][..BLOCK] == x[i..i + BLOCK] && x[i..][BLOCK..] == x[i + BLOCK..];
  }

  lemma UnchainStep(p: Primitives, key: Bytes, prev: Bytes, c: Bytes, i: nat)
    requires Permutation(p) && |prev| == BLOCK && |c| % BLOCK == 0 && i < |c| && i % BLOCK == 0
    ensures i + BLOCK <= |c|
    ensures var block := c[i..i + BLOCK];
      Unchain(p, key, prev, c[i..]) == Xor(p.dec(key, block), prev) + Unchain(p, key, block, c[i + BLOCK..])
  {
    assert c[i..][..BLOCK] == c[i..i + BLOCK] && c[i..][BLOCK..] == c[i + BLOCK..];
  }

  /** `TransformFinalBlock` of an encryptor: pad, then block by block. */
  method EncryptBlocks(p: Primitives, key: Bytes, iv: Bytes, plain: Bytes) returns (c: Bytes)
    requires Permutation(p) && |iv| == BLOCK
    ensures c == CbcEncrypted(p, key, iv, plain)
    ensures CipherOf(p, key, iv, plain, c)
  {
    hide Pad, Xor, Chain, CipherOf;
    var x := Pad(plain);
    var prev := iv;
    var i := 0;
    c := [];
    while i < |x|
      invariant i <= |x| && i % BLOCK == 0 && |prev| == BLOCK
      invariant Chain(p, key, iv, x) == c + Chain(p, key, prev, x[i..])
    {
      ChainStep(p, key, prev, x, i);
      prev := p.enc(key, Xor(x[i..i + BLOCK], prev));
      c := c + prev;
      i := i + BLOCK;
    }
    CbcEncryptedIff(p, key, iv, plain, c);
  }

  /** The block loop of a decryptor, before unpadding. */
  method UnchainBlocks(p: Primitives, key: Bytes, iv: Bytes, c: Bytes) returns (x: Bytes)
    requires Permutation(p) && |iv| == BLOCK && |c| % BLOCK == 0
    ensures x == Unchain(p, key, iv, c)
  {
    hide Xor, Unchain;
    x := [];
    var prev := iv;
    var i := 0;
    while i < |c|
      invariant i <= |c| && i % BLOCK == 0 && |prev| == BLOCK
      invariant Unchain(p, key, iv, c) == x + Unchain(p, key, prev, c[i..])
    {
      UnchainStep(p, key, prev, c, i);
      var plainBlock := Xor(p.dec(key, c[i..i + BLOCK]), prev);
      prev := c[i..i + BLOCK];
      x := x + plainBlock;
      i := i + BLOCK;
    }
    assert c[i..] == [] && Unchain(p, key, iv, c) == x;
  }

  /** `TransformFinalBlock` of a decryptor: block by block, then unpad. */
  method DecryptBlocks(p: Primitives, key: Bytes, iv: Bytes, c: Bytes) returns (plain: Option<Bytes>)
    requires Permutation(p) && |iv| == BLOCK
    ensures plain == CbcDecrypted(p, key, iv, c)
    ensures PlainOf(p, key, iv, c, plain)
  {
    DecryptedIff(p, key, iv, c);
    hide PlainOf, Permutation, Unchain, Unpad;
    if |c| % BLOCK != 0 {
      return None;
    }
    if c == [] {
      return p.emptied;
    }
    var x := UnchainBlocks(p, key, iv, c);
    return Unpad(x);
  }
}
