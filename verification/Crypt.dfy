/**
  The encryption of private keys: AES-256-GCM in an envelope for what is written, and for what older
  versions wrote AES-256-CBC with PKCS#7 padding.  The ciphers themselves are parameters.
 */
module Crypt {
  import opened Prelude

  type Byte = x: nat | x < 256

  type Bytes = seq<Byte>

  const BLOCK_SIZE := 16
  const KEY_SIZE := 32
  const NONCE_SIZE := 12
  const TAG_SIZE := 16

  /** "TAS3G1" */
  const MAGIC: Bytes := [0x54, 0x41, 0x53, 0x33, 0x47, 0x31]

  type Block = b: Bytes | |b| == BLOCK_SIZE witness seq(BLOCK_SIZE, _ => 0)

  datatype Suite = Suite(
    enc: (Bytes, Block) -> Block, dec: (Bytes, Block) -> Block,
    seal: (Bytes, Bytes, Bytes) -> Bytes, open: (Bytes, Bytes, Bytes) -> Option<Bytes>)

  /** Under one key decryption undoes encryption; what opens is exactly what was sealed, with its tag. */
  ghost predicate Sound(suite: Suite, key: Bytes) {
    && (forall b: Block :: suite.dec(key, suite.enc(key, b)) == b)
    && (forall nonce, p :: |nonce| == NONCE_SIZE ==> suite.open(key, nonce, suite.seal(key, nonce, p)) == Some(p))
    && (forall nonce, c :: |nonce| == NONCE_SIZE && suite.open(key, nonce, c).Some? ==>
          c == suite.seal(key, nonce, suite.open(key, nonce, c).value))
    && (forall nonce, p :: |nonce| == NONCE_SIZE ==> |suite.seal(key, nonce, p)| == |p| + TAG_SIZE)
  }

  // ---------------------------------------------------------------- padding

  function PadLength(length: nat, blockSize: nat): nat
    requires blockSize > 0
  {
    blockSize - length % blockSize
  }

  /** A byte takes the padding's length modulo 256. */
  function Pad(data: Bytes, blockSize: nat): Bytes
    requires blockSize > 0
  {
    var n := PadLength(|data|, blockSize);
    data + seq(n, _ => n % 256)
  }

  /** Only the last byte is looked at. */
  function Unpad(data: Bytes): Option<Bytes> {
    if data == [] then None
    else
      var n := data[|data| - 1];
      if n <= 0 || n > |data| then None else Some(data[..|data| - n])
  }

  lemma PaddingOf(data: Bytes, n: nat)
    requires n > 0
    ensures Unpad(data + seq(n, _ => n % 256)) == Some(data) <==> n < 256
  {
    var padded := data + seq(n, _ => n % 256);
    var stripped := n % 256;
    assert padded[|padded| - 1] == stripped;
    if n < 256 {
      assert padded[..|padded| - n] == data;
    } else if stripped > 0 {
      assert |padded[..|padded| - stripped]| > |data|;
    }
  }

  /** Padding can be undone exactly if its length fits into a byte; for AES it always does. */
  lemma PaddingRoundTripIff(data: Bytes, blockSize: nat)
    requires blockSize > 0
    ensures Unpad(Pad(data, blockSize)) == Some(data) <==> PadLength(|data|, blockSize) < 256
    ensures blockSize < 256 ==> PadLength(|data|, blockSize) < 256
  {
    PaddingOf(data, PadLength(|data|, blockSize));
  }

  /** What was padded for AES can be undone, and fills whole blocks. */
  lemma PaddingRoundTrip(data: Bytes)
    ensures Unpad(Pad(data, BLOCK_SIZE)) == Some(data)
    ensures |Pad(data, BLOCK_SIZE)| % 16 == 0 && |data| < |Pad(data, BLOCK_SIZE)| <= |data| + BLOCK_SIZE
  {
    PaddingRoundTripIff(data, BLOCK_SIZE);
  }

  /** What unpadding gives: a text that is shorter by as many bytes as the last byte says. */
  lemma UnpadGives(data: Bytes, p: Bytes)
    ensures Unpad(data) == Some(p) <==> p <= data && |p| < |data| && data[|data| - 1] == |data| - |p|
  {
    if p <= data && |p| < |data| { assert data[..|p|] == p; }
  }

  /** The bytes of the padding before the last go unchecked: any others do as well, but only one choice is padding. */
  lemma UnpadIsLax(data: Bytes, filler: Bytes)
    requires |filler| + 1 == PadLength(|data|, BLOCK_SIZE)
    ensures Unpad(data + filler + [|filler| + 1]) == Some(data)
    ensures data + filler + [|filler| + 1] == Pad(data, BLOCK_SIZE) <==>
              forall i :: 0 <= i < |filler| ==> filler[i] == |filler| + 1
  {
    var text, padded, n := data + filler + [|filler| + 1], Pad(data, BLOCK_SIZE), |filler| + 1;
    assert text[..|text| - n] == data;
    assert forall i :: 0 <= i < |filler| ==> text[|data| + i] == filler[i] && padded[|data| + i] == n;
    if forall i :: 0 <= i < |filler| ==> filler[i] == n {
      assert text == padded;
    }
  }

  // ---------------------------------------------------------------- cipher block chaining

  function Pow2(n: nat): (r: nat)
    ensures r >= 1
  {
    if n == 0 then 1 else 2 * Pow2(n - 1)
  }

  /** Exclusive or of the lowest n bits. */
  function XorBits(a: nat, b: nat, n: nat): (r: nat)
    ensures r < Pow2(n)
  {
    if n == 0 then 0 else (if a % 2 == b % 2 then 0 else 1) + 2 * XorBits(a / 2, b / 2, n - 1)
  }

  lemma {:induction false} XorBitsTwice(a: nat, b: nat, n: nat)
    requires a < Pow2(n)
    ensures XorBits(XorBits(a, b, n), b, n) == a
  {
    if n > 0 {
      var x := XorBits(a, b, n);
      XorBitsTwice(a / 2, b / 2, n - 1);
      assert x / 2 == XorBits(a / 2, b / 2, n - 1);
      assert a == a % 2 + 2 * (a / 2);
    }
  }

  predicate Bit(a: nat, i: nat) {
    a / Pow2(i) % 2 == 1
  }

  /** A bit of the result is set exactly where the two differ. */
  lemma {:induction false} XorBitsDiffer(a: nat, b: nat, n: nat, i: nat)
    requires i < n
    ensures Bit(XorBits(a, b, n), i) <==> Bit(a, i) != Bit(b, i)
  {
    var x := XorBits(a, b, n);
    if i > 0 {
      XorBitsDiffer(a / 2, b / 2, n - 1, i - 1);
      assert x / 2 == XorBits(a / 2, b / 2, n - 1);
      BitOfHalf(a, i);
      BitOfHalf(b, i);
      BitOfHalf(x, i);
    }
  }

  lemma BitOfHalf(a: nat, i: nat)
    requires i > 0
    ensures Bit(a, i) <==> Bit(a / 2, i - 1)
  {
    var p := Pow2(i - 1);
    QuotientOfQuotient(a, p);
  }

  lemma QuotientOfQuotient(a: nat, p: nat)
    requires p > 0
    ensures a / (2 * p) == a / 2 / p
  {
    var q := a / 2 / p;
    var r := a / 2 - q * p;
    assert 0 <= r < p;
    assert a == 2 * (q * p + r) + a % 2;
    assert a == q * (2 * p) + (2 * r + a % 2);
    QuotientIs(a, 2 * p, q, 2 * r + a % 2);
  }

  lemma QuotientIs(a: nat, d: nat, q: nat, r: nat)
    requires a == q * d + r && r < d
    ensures a / d == q
  {
    var p := a / d;
    assert a == p * d + a % d;
    if p < q { MulMonotone(p + 1, q, d); }
    if p > q { MulMonotone(q + 1, p, d); }
  }

  function XorByte(a: Byte, b: Byte): Byte {
    assert Pow2(8) == 256;
    XorBits(a, b, 8)
  }

  /** Bit by bit, the exclusive or of two bytes; none with zero, and zero with itself. */
  lemma XorByteIs(a: Byte, b: Byte)
    ensures forall i: nat :: i < 8 ==> (Bit(XorByte(a, b), i) <==> Bit(a, i) != Bit(b, i))
    ensures XorByte(a, 0) == a && XorByte(a, a) == 0
  {
    forall i: nat | i < 8
      ensures Bit(XorByte(a, b), i) <==> Bit(a, i) != Bit(b, i)
    {
      XorBitsDiffer(a, b, 8, i);
    }
    assert Pow2(8) == 256;
    XorZero(a, 8);
    XorSelf(a, 8);
  }

  lemma {:induction false} XorZero(a: nat, n: nat)
    requires a < Pow2(n)
    ensures XorBits(a, 0, n) == a
  {
    if n > 0 { XorZero(a / 2, n - 1); }
  }

  lemma {:induction false} XorSelf(a: nat, n: nat)
    ensures XorBits(a, a, n) == 0
  {
    if n > 0 { XorSelf(a / 2, n - 1); }
  }

  function Xor(a: Block, b: Block): Block {
    seq(BLOCK_SIZE, i requires 0 <= i < BLOCK_SIZE => XorByte(a[i], b[i]))
  }

  lemma XorTwice(a: Block, b: Block)
    ensures Xor(Xor(a, b), b) == a
  {
    assert Pow2(8) == 256;
    forall i | 0 <= i < BLOCK_SIZE
      ensures Xor(Xor(a, b), b)[i] == a[i]
    {
      XorBitsTwice(a[i], b[i], 8);
    }
  }

  function CbcEncrypted(suite: Suite, key: Bytes, iv: Block, text: Bytes): (r: Bytes)
    requires |text| % BLOCK_SIZE == 0
    ensures |r| == |text|
    decreases |text|
  {
    if text == [] then []
    else
      var c: Block := suite.enc(key, Xor(text[..BLOCK_SIZE], iv));
      c + CbcEncrypted(suite, key, c, text[BLOCK_SIZE..])
  }

  function CbcDecrypted(suite: Suite, key: Bytes, iv: Block, text: Bytes): (r: Bytes)
    requires |text| % BLOCK_SIZE == 0
    ensures |r| == |text|
    decreases |text|
  {
    if text == [] then []
    else
      var c: Block := text[..BLOCK_SIZE];
      Xor(suite.dec(key, c), iv) + CbcDecrypted(suite, key, c, text[BLOCK_SIZE..])
  }

  /** One block alone decrypts to the cipher's own answer, exclusive-or the initialization vector. */
  lemma OneBlockDecrypts(suite: Suite, key: Bytes, iv: Block, c: Block)
    ensures |CbcDecrypted(suite, key, iv, c)| == BLOCK_SIZE
    ensures forall i :: 0 <= i < BLOCK_SIZE ==>
              CbcDecrypted(suite, key, iv, c)[i] == XorByte(suite.dec(key, c)[i], iv[i])
    ensures (forall i :: 0 <= i < BLOCK_SIZE ==> iv[i] == 0) ==> CbcDecrypted(suite, key, iv, c) == suite.dec(key, c)
  {
    var plain := suite.dec(key, c);
    assert c[..BLOCK_SIZE] == c && c[BLOCK_SIZE..] == [];
    assert CbcDecrypted(suite, key, iv, c) == Xor(plain, iv);
    forall i | 0 <= i < BLOCK_SIZE
      ensures XorByte(plain[i], 0) == plain[i]
    {
      XorByteIs(plain[i], 0);
    }
  }

  lemma {:induction false} CbcRoundTrip(suite: Suite, key: Bytes, iv: Block, text: Bytes)
    requires Sound(suite, key) && |text| % BLOCK_SIZE == 0
    ensures CbcDecrypted(suite, key, iv, CbcEncrypted(suite, key, iv, text)) == text
    decreases |text|
  {
    if text != [] {
      var b: Block := text[..BLOCK_SIZE];
      var c: Block := suite.enc(key, Xor(b, iv));
      var all := CbcEncrypted(suite, key, iv, text);
      assert all[..BLOCK_SIZE] == c && all[BLOCK_SIZE..] == CbcEncrypted(suite, key, c, text[BLOCK_SIZE..]);
      CbcRoundTrip(suite, key, c, text[BLOCK_SIZE..]);
      XorTwice(b, iv);
    }
  }

  /** Block k of the text, after the initialization vector. */
  function BlockAt(text: Bytes, k: nat): Block
    requires (k + 1) * BLOCK_SIZE <= |text|
  {
    text[k * BLOCK_SIZE..(k + 1) * BLOCK_SIZE]
  }

  lemma BlockOfPrefix(text: Bytes, n: nat, k: nat)
    requires (k + 1) * BLOCK_SIZE <= n <= |text|
    ensures BlockAt(text[..n], k) == BlockAt(text, k)
  {
  }

  lemma CbcStep(suite: Suite, key: Bytes, text: Bytes, k: nat)
    requires 0 < k && (k + 1) * BLOCK_SIZE <= |text| && |text| % BLOCK_SIZE == 0
    ensures CbcDecrypted(suite, key, BlockAt(text, k - 1), text[k * BLOCK_SIZE..])
         == Xor(suite.dec(key, BlockAt(text, k)), BlockAt(text, k - 1))
            + CbcDecrypted(suite, key, BlockAt(text, k), text[(k + 1) * BLOCK_SIZE..])
  {
    var rest := text[k * BLOCK_SIZE..];
    assert rest[..BLOCK_SIZE] == BlockAt(text, k) && rest[BLOCK_SIZE..] == text[(k + 1) * BLOCK_SIZE..];
  }

  /**
    Decrypts what follows the initialization vector in place, from the last block to the first, so
    that the block before the current one is still encrypted.
   */
  method DecryptBlocks(suite: Suite, key: Bytes, text: array<Byte>)
    requires text.Length >= BLOCK_SIZE && text.Length % BLOCK_SIZE == 0
    modifies text
    ensures text[..BLOCK_SIZE] == old(text[..BLOCK_SIZE])
    ensures text[BLOCK_SIZE..] == CbcDecrypted(suite, key, old(text[..BLOCK_SIZE]), old(text[BLOCK_SIZE..]))
  {
    ghost var was := text[..];
    var k := text.Length / BLOCK_SIZE - 1;
    while k > 0
      invariant 0 <= k && (k + 1) * BLOCK_SIZE <= text.Length
      invariant text[..(k + 1) * BLOCK_SIZE] == was[..(k + 1) * BLOCK_SIZE]
      invariant text[(k + 1) * BLOCK_SIZE..] == CbcDecrypted(suite, key, BlockAt(was, k), was[(k + 1) * BLOCK_SIZE..])
    {
      ghost var done := text[(k + 1) * BLOCK_SIZE..];
      DecryptBlock(suite, key, text, k);
      CbcStep(suite, key, was, k);
      BlockOfPrefix(was, (k + 1) * BLOCK_SIZE, k);
      BlockOfPrefix(was, (k + 1) * BLOCK_SIZE, k - 1);
      assert text[k * BLOCK_SIZE..] == text[k * BLOCK_SIZE..(k + 1) * BLOCK_SIZE] + done;
      k := k - 1;
    }
  }

  method DecryptBlock(suite: Suite, key: Bytes, text: array<Byte>, k: nat)
    requires 0 < k && (k + 1) * BLOCK_SIZE <= text.Length
    modifies text
    ensures text[..k * BLOCK_SIZE] == old(text[..k * BLOCK_SIZE])
    ensures text[k * BLOCK_SIZE..(k + 1) * BLOCK_SIZE]
         == Xor(suite.dec(key, BlockAt(old(text[..]), k)), BlockAt(old(text[..]), k - 1))
    ensures text[(k + 1) * BLOCK_SIZE..] == old(text[(k + 1) * BLOCK_SIZE..])
  {
    var plain := Xor(suite.dec(key, BlockAt(text[..], k)), BlockAt(text[..], k - 1));
    var i := 0;
    while i < BLOCK_SIZE
      invariant 0 <= i <= BLOCK_SIZE
      invariant forall j :: 0 <= j < text.Length ==>
                  text[j] == if k * BLOCK_SIZE <= j < k * BLOCK_SIZE + i then plain[j - k * BLOCK_SIZE]
                             else old(text[j])
    {
      text[k * BLOCK_SIZE + i] := plain[i];
      i := i + 1;
    }
  }

  // ---------------------------------------------------------------- envelopes

  datatype Result = Ok(text: Bytes) | Failed

  function Opened(suite: Suite, key: Bytes, payload: Bytes): Result {
    if |payload| < NONCE_SIZE then Failed
    else
      match suite.open(key, payload[..NONCE_SIZE], payload[NONCE_SIZE..])
      case Some(p) => Ok(p)
      case None => Failed
  }

  function LegacyDecrypted(suite: Suite, key: Bytes, text: Bytes): Result {
    if |text| < BLOCK_SIZE || |text| % BLOCK_SIZE != 0 then Failed
    else
      match Unpad(CbcDecrypted(suite, key, text[..BLOCK_SIZE], text[BLOCK_SIZE..]))
      case Some(p) => Ok(p)
      case None => Failed
  }

  function Decrypted(suite: Suite, key: Bytes, text: Bytes): Result {
    if |key| != KEY_SIZE then Failed
    else if MAGIC <= text then Opened(suite, key, text[|MAGIC|..])
    else LegacyDecrypted(suite, key, text)
  }

  /** What older versions stored. */
  function LegacyEncrypted(suite: Suite, key: Bytes, iv: Block, p: Bytes): Bytes {
    PaddingRoundTrip(p);
    iv + CbcEncrypted(suite, key, iv, Pad(p, BLOCK_SIZE))
  }

  /** The nonce is drawn at random, which may fail. */
  method EncryptAES(suite: Suite, key: Bytes, text: Bytes, nonce: Option<Bytes>) returns (r: Result)
    requires nonce.Some? ==> |nonce.value| == NONCE_SIZE
    ensures r.Failed? <==> |key| != 32 || nonce.None?
    ensures r.Ok? ==> |r.text| >= 18 && r.text[..6] == [0x54, 0x41, 0x53, 0x33, 0x47, 0x31]
    ensures r.Ok? ==> r.text[6..18] == nonce.value
    ensures Sound(suite, key) && r.Ok? ==>
              Decrypted(suite, key, r.text) == Ok(text) && |r.text| == |text| + 34
  {
    if |key| != KEY_SIZE || nonce.None? { return Failed; }
    var ciphertext := suite.seal(key, nonce.value, text);
    var out := [];
    out := out + MAGIC;
    out := out + nonce.value;
    out := out + ciphertext;
    EnvelopeRoundTrip(suite, key, nonce.value, text, out);
    r := Ok(out);
  }

  /** Every envelope that was written can be read. */
  lemma EnvelopeRoundTrip(suite: Suite, key: Bytes, nonce: Bytes, p: Bytes, text: Bytes)
    requires |nonce| == NONCE_SIZE && |key| == KEY_SIZE && text == MAGIC + nonce + suite.seal(key, nonce, p)
    ensures Sound(suite, key) ==> Decrypted(suite, key, text) == Ok(p)
  {
    var payload := text[|MAGIC|..];
    assert MAGIC <= text;
    assert payload[..NONCE_SIZE] == nonce && payload[NONCE_SIZE..] == suite.seal(key, nonce, p);
  }

  /** A legacy text can be read back exactly if its initialization vector does not look like an envelope. */
  lemma LegacyRoundTripIff(suite: Suite, key: Bytes, iv: Block, p: Bytes)
    requires Sound(suite, key) && |key| == KEY_SIZE
    ensures Decrypted(suite, key, LegacyEncrypted(suite, key, iv, p)) == Ok(p) <==> !(MAGIC <= iv)
  {
    PaddingRoundTrip(p);
    var text := LegacyEncrypted(suite, key, iv, p);
    assert text[..|MAGIC|] == iv[..|MAGIC|];
    if MAGIC <= iv {
      LookalikeFails(suite, key, text, p);
    } else {
      LegacyRoundTrip(suite, key, iv, p);
    }
  }

  lemma LegacyRoundTrip(suite: Suite, key: Bytes, iv: Block, p: Bytes)
    requires Sound(suite, key)
    ensures LegacyDecrypted(suite, key, LegacyEncrypted(suite, key, iv, p)) == Ok(p)
  {
    PaddingRoundTrip(p);
    var text := LegacyEncrypted(suite, key, iv, p);
    CbcRoundTrip(suite, key, iv, Pad(p, BLOCK_SIZE));
    assert text[..BLOCK_SIZE] == iv && text[BLOCK_SIZE..] == CbcEncrypted(suite, key, iv, Pad(p, BLOCK_SIZE));
  }

  /** An envelope is longer than its content by more than any legacy text is. */
  lemma LookalikeFails(suite: Suite, key: Bytes, text: Bytes, p: Bytes)
    requires Sound(suite, key) && |key| == KEY_SIZE && MAGIC <= text && |text| <= |p| + 2 * BLOCK_SIZE
    ensures Decrypted(suite, key, text) != Ok(p)
  {
    var payload := text[|MAGIC|..];
    if |payload| >= NONCE_SIZE {
      assert |suite.seal(key, payload[..NONCE_SIZE], p)| == |p| + TAG_SIZE > |payload[NONCE_SIZE..]|;
    }
  }

  /** The legacy text is decrypted where it is stored; an envelope is left as it is. */
  method DecryptAES(suite: Suite, key: Bytes, text: array<Byte>) returns (r: Result)
    modifies text
    ensures r == Decrypted(suite, key, old(text[..]))
    ensures |key| != KEY_SIZE || MAGIC <= old(text[..]) ==> text[..] == old(text[..])
  {
    if |key| != KEY_SIZE { return Failed; }
    if text.Length >= |MAGIC| && text[..|MAGIC|] == MAGIC {
      r := DecryptAESGCM(suite, key, text[|MAGIC|..]);
    } else {
      r := DecryptAESLegacyCBC(suite, key, text);
    }
  }

  method DecryptAESGCM(suite: Suite, key: Bytes, payload: Bytes) returns (r: Result)
    ensures r == Opened(suite, key, payload)
    ensures Sound(suite, key) ==>
              (r.Ok? <==>
                 && |payload| >= NONCE_SIZE
                 && exists p :: payload[NONCE_SIZE..] == suite.seal(key, payload[..NONCE_SIZE], p))
  {
    if |payload| < NONCE_SIZE { return Failed; }
    var nonce, ciphertext := payload[..NONCE_SIZE], payload[NONCE_SIZE..];
    var plain := suite.open(key, nonce, ciphertext);
    r := match plain case Some(p) => Ok(p) case None => Failed;
  }

  method DecryptAESLegacyCBC(suite: Suite, key: Bytes, text: array<Byte>) returns (r: Result)
    modifies text
    ensures r == LegacyDecrypted(suite, key, old(text[..]))
    ensures text.Length < BLOCK_SIZE || text.Length % BLOCK_SIZE != 0 ==> text[..] == old(text[..])
  {
    if text.Length < BLOCK_SIZE { return Failed; }
    if (text.Length - BLOCK_SIZE) % BLOCK_SIZE != 0 { return Failed; }
    ghost var was := text[..];
    assert was[..BLOCK_SIZE] == text[..BLOCK_SIZE] && was[BLOCK_SIZE..] == text[BLOCK_SIZE..];
    DecryptBlocks(suite, key, text);
    var plain := Unpad(text[BLOCK_SIZE..]);
    r := match plain case Some(p) => Ok(p) case None => Failed;
  }
}
