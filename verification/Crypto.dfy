/** crypto.rs: the frame, its padding, block chaining and base64, around a block permutation that is not part of
    this model (the cipher under one key), and the exact set of texts that decrypt. */
module Crypto {
  import opened Wrappers
  import opened Bytes
  import Utf8
  import Base64

  const BLOCK := 16

  // ----- exclusive or, bit by bit

  function XorBits(a: nat, b: nat, n: nat): (r: nat)
    ensures r < Power2(n)
  {
    if n == 0 then 0 else 2 * XorBits(a / 2, b / 2, n - 1) + (if a % 2 == b % 2 then 0 else 1)
  }

  function Power2(n: nat): nat {
    if n == 0 then 1 else 2 * Power2(n - 1)
  }

  lemma {:induction false} XorTwice(a: nat, b: nat, n: nat)
    requires a < Power2(n)
    ensures XorBits(XorBits(a, b, n), b, n) == a
  {
    if n > 0 {
      XorTwice(a / 2, b / 2, n - 1);
      var r := XorBits(a, b, n);
      assert r / 2 == XorBits(a / 2, b / 2, n - 1);
    }
  }

  /** Bit `k`, counted from the least significant one. */
  predicate Bit(a: nat, k: nat) {
    Halved(a, k) % 2 == 1
  }

  function Halved(a: nat, k: nat): nat {
    if k == 0 then a else Halved(a / 2, k - 1)
  }

  /** Exclusive or: a bit is set exactly where the two differ. */
  lemma {:induction false} XorIsExclusiveOr(a: nat, b: nat, n: nat, k: nat)
    requires k < n
    ensures Bit(XorBits(a, b, n), k) <==> Bit(a, k) != Bit(b, k)
  {
    var r := XorBits(a, b, n);
    assert r / 2 == XorBits(a / 2, b / 2, n - 1);
    if k > 0 {
      XorIsExclusiveOr(a / 2, b / 2, n - 1, k - 1);
    }
  }

  /** A number below a power of two is its bits. */
  lemma {:induction false} BitsDetermine(a: nat, b: nat, n: nat)
    requires a < Power2(n) && b < Power2(n) && forall k: nat :: k < n ==> (Bit(a, k) <==> Bit(b, k))
    ensures a == b
  {
    if n > 0 {
      forall k: nat | k < n - 1 ensures Bit(a / 2, k) <==> Bit(b / 2, k) {
        assert Bit(a, k + 1) <==> Bit(b, k + 1);
      }
      BitsDetermine(a / 2, b / 2, n - 1);
      assert Bit(a, 0) <==> Bit(b, 0);
    }
  }

  lemma Power8()
    ensures Power2(8) == 256
  {
    assert Power2(4) == 16;
  }

  function Xor(a: seq<byte>, b: seq<byte>): (r: seq<byte>)
    requires |a| == |b|
    ensures |r| == |a|
  {
    Power8();
    seq(|a|, i requires 0 <= i < |a| => XorBits(a[i], b[i], 8))
  }

  /** Bit by bit, byte by byte. */
  lemma XorIsBitwise(a: seq<byte>, b: seq<byte>)
    requires |a| == |b|
    ensures forall i, k: nat :: 0 <= i < |a| && k < 8 ==> (Bit(Xor(a, b)[i], k) <==> Bit(a[i], k) != Bit(b[i], k))
  {
    forall i, k: nat | 0 <= i < |a| && k < 8 ensures Bit(Xor(a, b)[i], k) <==> Bit(a[i], k) != Bit(b[i], k) {
      XorIsExclusiveOr(a[i], b[i], 8, k);
    }
  }

  lemma XorUndoes(a: seq<byte>, b: seq<byte>)
    requires |a| == |b|
    ensures Xor(Xor(a, b), b) == a
  {
    Power8();
    forall i | 0 <= i < |a| ensures Xor(Xor(a, b), b)[i] == a[i] {
      XorTwice(a[i], b[i], 8);
    }
  }

  // ----- cipher block chaining, section 6.2 of NIST SP 800-38A

  type Block = b: seq<byte> | |b| == BLOCK witness seq(16, _ => 0)

  type BlockMap = Block -> Block

  ghost predicate Undoes(g: BlockMap, f: BlockMap) {
    forall b: Block :: g(f(b)) == b
  }

  /** Two block maps that are each other's inverse: the cipher under one key, and its inverse. */
  ghost predicate IsCipher(enc: BlockMap, dec: BlockMap) {
    Undoes(dec, enc) && Undoes(enc, dec)
  }

  function CbcEncrypt(enc: BlockMap, iv: Block, p: seq<byte>): (r: seq<byte>)
    requires |p| % BLOCK == 0
    ensures |r| == |p|
    decreases |p|
  {
    if p == [] then []
    else
      var c: Block := enc(Xor(p[..BLOCK], iv));
      c + CbcEncrypt(enc, c, p[BLOCK..])
  }

  function CbcDecrypt(dec: BlockMap, iv: Block, c: seq<byte>): (r: seq<byte>)
    requires |c| % BLOCK == 0
    ensures |r| == |c|
    decreases |c|
  {
    if c == [] then [] else Xor(dec(c[..BLOCK]), iv) + CbcDecrypt(dec, c[..BLOCK], c[BLOCK..])
  }

  lemma {:induction false} DecryptUndoesEncrypt(enc: BlockMap, dec: BlockMap, iv: Block, p: seq<byte>)
    requires IsCipher(enc, dec) && |p| % BLOCK == 0
    ensures CbcDecrypt(dec, iv, CbcEncrypt(enc, iv, p)) == p
    decreases |p|
  {
    if p != [] {
      var x: Block := Xor(p[..BLOCK], iv);
      var y: Block := enc(x);
      var c := CbcEncrypt(enc, iv, p);
      assert c[..BLOCK] == y && c[BLOCK..] == CbcEncrypt(enc, y, p[BLOCK..]);
      assert dec(y) == x;
      XorUndoes(p[..BLOCK], iv);
      DecryptUndoesEncrypt(enc, dec, y, p[BLOCK..]);
      assert p == p[..BLOCK] + p[BLOCK..];
    }
  }

  lemma {:induction false} EncryptUndoesDecrypt(enc: BlockMap, dec: BlockMap, iv: Block, c: seq<byte>)
    requires IsCipher(enc, dec) && |c| % BLOCK == 0
    ensures CbcEncrypt(enc, iv, CbcDecrypt(dec, iv, c)) == c
    decreases |c|
  {
    if c != [] {
      var y: Block := c[..BLOCK];
      var x: Block := dec(y);
      var p := CbcDecrypt(dec, iv, c);
      assert p[..BLOCK] == Xor(x, iv) && p[BLOCK..] == CbcDecrypt(dec, y, c[BLOCK..]);
      assert enc(x) == y;
      XorUndoes(x, iv);
      EncryptUndoesDecrypt(enc, dec, y, c[BLOCK..]);
      assert c == c[..BLOCK] + c[BLOCK..];
    }
  }

  /** Block `i` of a text. */
  function BlockOf(p: seq<byte>, i: nat): Block
    requires BLOCK * (i + 1) <= |p|
  {
    p[BLOCK * i..BLOCK * (i + 1)]
  }

  /** What a block is chained to: the ciphertext block before it, and the first one to the initialization vector. */
  function ChainedTo(iv: Block, c: seq<byte>, i: nat): Block
    requires BLOCK * i <= |c|
  {
    if i == 0 then iv else BlockOf(c, i - 1)
  }

  /** Ciphertext block `i` is the cipher of plaintext block `i`, exclusive or what it is chained to. */
  predicate Chained(enc: BlockMap, iv: Block, p: seq<byte>, c: seq<byte>, i: nat)
    requires BLOCK * (i + 1) <= |c| == |p|
  {
    BlockOf(c, i) == enc(Xor(BlockOf(p, i), ChainedTo(iv, c, i)))
  }

  lemma RestOf(p: seq<byte>, i: nat)
    requires i > 0 && BLOCK * (i + 1) <= |p|
    ensures BlockOf(p, i) == BlockOf(p[BLOCK..], i - 1)
  {
    assert BLOCK * i == BLOCK * (i - 1) + BLOCK;
    SliceOfRest(p, BLOCK, BLOCK * i, BLOCK * i + BLOCK);
  }

  lemma SliceOfRest(p: seq<byte>, n: nat, i: nat, j: nat)
    requires n <= i <= j <= |p|
    ensures p[i..j] == p[n..][i - n..j - n]
  {
  }

  /** The equations of CBC encryption: every ciphertext block is the cipher of the plaintext block, exclusive or the
      ciphertext block before it. */
  lemma {:induction false} EveryBlockEncrypted(enc: BlockMap, iv: Block, p: seq<byte>, i: nat)
    requires |p| % BLOCK == 0 && BLOCK * (i + 1) <= |p|
    ensures Chained(enc, iv, p, CbcEncrypt(enc, iv, p), i)
    decreases i
  {
    var c := CbcEncrypt(enc, iv, p);
    var first: Block := enc(Xor(p[..BLOCK], iv));
    assert c[..BLOCK] == first && c[BLOCK..] == CbcEncrypt(enc, first, p[BLOCK..]);
    if i > 0 {
      EveryBlockEncrypted(enc, first, p[BLOCK..], i - 1);
      hide CbcEncrypt;
      RestOf(p, i);
      RestOf(c, i);
      if i > 1 {
        RestOf(c, i - 1);
      }
    }
  }

  /** And those of CBC decryption. */
  lemma {:induction false} EveryBlockDecrypted(dec: BlockMap, iv: Block, c: seq<byte>, i: nat)
    requires |c| % BLOCK == 0 && BLOCK * (i + 1) <= |c|
    ensures BlockOf(CbcDecrypt(dec, iv, c), i) == Xor(dec(BlockOf(c, i)), ChainedTo(iv, c, i))
    decreases i
  {
    var p := CbcDecrypt(dec, iv, c);
    var first: Block := c[..BLOCK];
    assert p[..BLOCK] == Xor(dec(first), iv) && p[BLOCK..] == CbcDecrypt(dec, first, c[BLOCK..]);
    if i > 0 {
      EveryBlockDecrypted(dec, first, c[BLOCK..], i - 1);
      hide CbcDecrypt;
      RestOf(p, i);
      RestOf(c, i);
      if i > 1 {
        RestOf(c, i - 1);
      }
    }
  }

  // ----- padding, section 6.3 of RFC 5652

  function Pad(p: seq<byte>): (r: seq<byte>)
    ensures |r| % BLOCK == 0 && |r| > |p|
  {
    var n := BLOCK - |p| % BLOCK;
    PadLength(|p|);
    p + seq(n, _ => n as byte)
  }

  lemma PadLength(n: nat)
    ensures (n + (BLOCK - n % BLOCK)) % BLOCK == 0
  {
  }

  predicate Padded(p: seq<byte>) {
    p != [] && 1 <= p[|p| - 1] <= BLOCK && p[|p| - 1] <= |p|
    && forall i :: |p| - p[|p| - 1] <= i < |p| ==> p[i] == p[|p| - 1]
  }

  function Unpad(p: seq<byte>): Option<seq<byte>> {
    if Padded(p) then Some(p[..|p| - p[|p| - 1]]) else None
  }

  lemma UnpadPad(p: seq<byte>)
    ensures Unpad(Pad(p)) == Some(p)
  {
    var r := Pad(p);
    assert r[|r| - 1] == BLOCK - |p| % BLOCK;
    assert r[..|p|] == p;
  }

  lemma PadUnpad(r: seq<byte>)
    requires |r| % BLOCK == 0 && Unpad(r).Some?
    ensures Pad(Unpad(r).value) == r
  {
    var n := r[|r| - 1];
    var p := Unpad(r).value;
    assert |p| == |r| - n;
    assert BLOCK - |p| % BLOCK == n;
  }

  // ----- the frame

  const U32_MODULUS := 0x1_0000_0000

  function BigEndian(n: nat): (r: seq<byte>)
    requires n < U32_MODULUS
    ensures |r| == 4
  {
    [n / 0x100_0000, n / 0x1_0000 % 256, n / 256 % 256, n % 256]
  }

  function FromBigEndian(b: seq<byte>): nat
    requires |b| == 4
  {
    var (b0: int, b1: int, b2: int, b3: int) := (b[0], b[1], b[2], b[3]);
    ((b0 * 256 + b1) * 256 + b2) * 256 + b3
  }

  lemma DigitsOf(n: nat)
    ensures n / 256 * 256 + n % 256 == n
    ensures n / 0x1_0000 == n / 256 / 256 && n / 0x100_0000 == n / 256 / 256 / 256
  {
  }

  lemma Digit(high: nat, low: nat)
    requires low < 256
    ensures (high * 256 + low) / 256 == high && (high * 256 + low) % 256 == low
  {
  }

  lemma BigEndianRoundTrip(n: nat)
    requires n < U32_MODULUS
    ensures FromBigEndian(BigEndian(n)) == n
  {
    DigitsOf(n);
    DigitsOf(n / 256);
    DigitsOf(n / 256 / 256);
  }

  /** The most significant byte comes first. */
  lemma BigEndianIs(n: nat)
    requires n < U32_MODULUS
    ensures var b := BigEndian(n);
            b[0] as int * 0x100_0000 + b[1] as int * 0x1_0000 + b[2] as int * 0x100 + b[3] as int == n
  {
    DigitsOf(n);
    DigitsOf(n / 256);
    DigitsOf(n / 256 / 256);
  }

  lemma BigEndianCanonical(b: seq<byte>)
    requires |b| == 4
    ensures FromBigEndian(b) < U32_MODULUS && BigEndian(FromBigEndian(b)) == b
  {
    var (b0: int, b1: int, b2: int, b3: int) := (b[0], b[1], b[2], b[3]);
    Digit((b0 * 256 + b1) * 256 + b2, b3);
    Digit(b0 * 256 + b1, b2);
    Digit(b0, b1);
    DigitsOf(FromBigEndian(b));
  }

  /** 16 random bytes, the length cut to 32 bits, the message, the application id. */
  function Frame(prefix: seq<byte>, xml: string, appId: string): seq<byte> {
    prefix + (BigEndian(|Utf8.Encode(xml)| % U32_MODULUS) + (Utf8.Encode(xml) + Utf8.Encode(appId)))
  }

  datatype Failure = BadBase64 | BadLength | BadPadding | TooShort | BadMessageLength | BadUtf8 | AppIdMismatch

  /** What the plaintext of a frame says. */
  function Opened(plain: seq<byte>, appId: string): Result<string, Failure> {
    if |plain| < 20 then Err(TooShort)
    else
      var end := 20 + FromBigEndian(plain[16..20]);
      if end > |plain| then Err(BadMessageLength)
      else
        var xml := Utf8.Decode(plain[20..end]);
        var app := Utf8.Decode(plain[end..]);
        if xml == None || app == None then Err(BadUtf8)
        else if app.value != appId then Err(AppIdMismatch)
        else Ok(xml.value)
  }

  function Encrypt(enc: BlockMap, iv: Block, prefix: seq<byte>, xml: string, appId: string): string
  {
    Base64.Encode(CbcEncrypt(enc, iv, Pad(Frame(prefix, xml, appId))))
  }

  function Decrypt(dec: BlockMap, iv: Block, b64: string, appId: string): Result<string, Failure>
  {
    match Base64.Decode(b64)
    case None => Err(BadBase64)
    case Some(cipher) =>
      if |cipher| % BLOCK != 0 || cipher == [] then Err(BadLength)
      else
        match Unpad(CbcDecrypt(dec, iv, cipher))
        case None => Err(BadPadding)
        case Some(plain) => Opened(plain, appId)
  }

  /** The frame grows piece by piece. */
  method BuildFrame(prefix: seq<byte>, xml: string, appId: string) returns (plain: seq<byte>)
    ensures plain == Frame(prefix, xml, appId)
    ensures |prefix| == 16 ==> (Opened(plain, appId) == Ok(xml) <==> |Utf8.Encode(xml)| < U32_MODULUS)
  {
    hide Opened;
    hide BigEndian;
    hide Utf8.Encode;
    var bytes := Utf8.Encode(xml);
    plain := prefix;
    plain := plain + BigEndian(|bytes| % U32_MODULUS);
    plain := plain + bytes;
    plain := plain + Utf8.Encode(appId);
    if |prefix| == 16 {
      OpenedFrame(prefix, xml, appId);
    }
  }

  method WriteBlock(buf: array<byte>, i: nat, block: seq<byte>)
    requires |block| == BLOCK && i + BLOCK <= buf.Length
    modifies buf
    ensures buf[..] == old(buf[..i]) + block + old(buf[i + BLOCK..])
  {
    forall j | 0 <= j < BLOCK {
      buf[i + j] := block[j];
    }
  }

  lemma CbcStep(dec: BlockMap, previous: Block, c: seq<byte>)
    requires |c| >= BLOCK && |c| % BLOCK == 0
    ensures CbcDecrypt(dec, previous, c) == Xor(dec(c[..BLOCK]), previous) + CbcDecrypt(dec, c[..BLOCK], c[BLOCK..])
  {
  }

  /** What the buffer of `DecryptInPlace` holds: blocks that are done, then blocks as they came. */
  ghost predicate Halfway(dec: BlockMap, iv: Block, c: seq<byte>, previous: Block, buf: seq<byte>, i: nat)
  {
    i <= |buf| == |c| && |c| % BLOCK == 0 && |buf[i..]| % BLOCK == 0
    && buf[..i] + CbcDecrypt(dec, previous, buf[i..]) == CbcDecrypt(dec, iv, c)
  }

  lemma FewerBlocks(n: nat)
    requires n > 0 && n % BLOCK == 0
    ensures n >= BLOCK && (n - BLOCK) % BLOCK == 0
  {
  }

  /** One block moves from what is left to what is done. */
  lemma OneBlockMore(dec: BlockMap, iv: Block, c: seq<byte>, previous: Block, old': seq<byte>, i: nat, new': seq<byte>)
    requires Halfway(dec, iv, c, previous, old', i) && i < |old'|
    requires i + BLOCK <= |old'|
    requires new' == old'[..i] + Xor(dec(old'[i..i + BLOCK]), previous) + old'[i + BLOCK..]
    ensures Halfway(dec, iv, c, old'[i..i + BLOCK], new', i + BLOCK)
  {
    var rest := old'[i..];
    FewerBlocks(|rest|);
    assert rest[..BLOCK] == old'[i..i + BLOCK];
    assert rest[BLOCK..] == old'[i + BLOCK..];
    CbcStep(dec, previous, rest);
    hide CbcDecrypt;
    hide Xor;
    assert new'[i + BLOCK..] == rest[BLOCK..];
    assert new'[..i + BLOCK] == old'[..i] + Xor(dec(rest[..BLOCK]), previous);
  }

  /** The buffer is decrypted where it is, block by block. */
  method DecryptInPlace(dec: BlockMap, iv: Block, buf: array<byte>)
    requires buf.Length % BLOCK == 0
    modifies buf
    ensures buf[..] == CbcDecrypt(dec, iv, old(buf[..]))
  {
    ghost var c := buf[..];
    var previous: Block := iv;
    var i := 0;
    assert c[..0] + CbcDecrypt(dec, iv, c[0..]) == CbcDecrypt(dec, iv, c);
    while i < buf.Length
      invariant Halfway(dec, iv, c, previous, buf[..], i)
    {
      hide CbcDecrypt;
      hide Xor;
      FewerBlocks(|buf[..][i..]|);
      hide Halfway;
      ghost var before := buf[..];
      var block: Block := buf[i..i + BLOCK];
      assert block == before[i..i + BLOCK];
      WriteBlock(buf, i, Xor(dec(block), previous));
      OneBlockMore(dec, iv, c, previous, before, i, buf[..]);
      previous := block;
      i := i + BLOCK;
    }
    CbcEmpty(dec, previous);
    assert buf[..][..i] == buf[..] && buf[..][i..] == [];
  }

  lemma CbcEmpty(dec: BlockMap, previous: Block)
    ensures CbcDecrypt(dec, previous, []) == []
  {
  }

  // ----- round trip and exactness

  lemma Parts(p: seq<byte>, q: seq<byte>, m: seq<byte>, a: seq<byte>)
    ensures var f := p + (q + (m + a));
            |f| == |p| + |q| + |m| + |a| && f[..|p|] == p && f[|p|..|p| + |q|] == q
            && f[|p| + |q|..|p| + |q| + |m|] == m && f[|p| + |q| + |m|..] == a
  {
    var f := p + (q + (m + a));
    var (i, j) := (|p| + |q|, |p| + |q| + |m|);
    assert f == (p + q) + (m + a) == (p + q + m) + a;
    assert f[i..j] == m by {
      assert |f[i..j]| == |m|;
      assert forall k :: 0 <= k < |m| ==> f[i..j][k] == f[i + k] == m[k];
    }
  }

  lemma FrameParts(prefix: seq<byte>, xml: string, appId: string)
    requires |prefix| == 16
    ensures var f, m := Frame(prefix, xml, appId), Utf8.Encode(xml);
            |f| == 20 + |m| + |Utf8.Encode(appId)| && f[..16] == prefix
            && FromBigEndian(f[16..20]) == |m| % U32_MODULUS
            && f[20..20 + |m|] == m && f[20 + |m|..] == Utf8.Encode(appId)
  {
    var m := Utf8.Encode(xml);
    BigEndianRoundTrip(|m| % U32_MODULUS);
    hide BigEndian;
    hide FromBigEndian;
    hide Utf8.Encode;
    Parts(prefix, BigEndian(|m| % U32_MODULUS), m, Utf8.Encode(appId));
  }

  lemma OpenedFrame(prefix: seq<byte>, xml: string, appId: string)
    requires |prefix| == 16
    ensures Opened(Frame(prefix, xml, appId), appId) == Ok(xml) <==> |Utf8.Encode(xml)| < U32_MODULUS
  {
    var f, m := Frame(prefix, xml, appId), Utf8.Encode(xml);
    hide Frame;
    hide FromBigEndian;
    hide Utf8.Encode;
    hide Utf8.Decode;
    FrameParts(prefix, xml, appId);
    if |m| < U32_MODULUS {
      Utf8.DecodeEncode(xml);
      Utf8.DecodeEncode(appId);
    } else {
      var end := 20 + |m| % U32_MODULUS;
      assert end - 20 < |m|;
      if Utf8.Decode(f[20..end]).Some? {
        Utf8.EncodeDecode(f[20..end]);
      }
    }
  }

  lemma OpenedParts(plain: seq<byte>, appId: string)
    requires Opened(plain, appId).Ok?
    ensures |plain| >= 20
    ensures var end := 20 + FromBigEndian(plain[16..20]);
            end <= |plain| && Utf8.Decode(plain[20..end]) == Some(Opened(plain, appId).value)
            && Utf8.Decode(plain[end..]) == Some(appId)
  {
  }

  lemma FrameOf(prefix: seq<byte>, field: seq<byte>, m: seq<byte>, app: seq<byte>, xml: string, appId: string)
    requires |field| == 4 && FromBigEndian(field) == |m| && m == Utf8.Encode(xml) && app == Utf8.Encode(appId)
    ensures |m| < U32_MODULUS && prefix + (field + (m + app)) == Frame(prefix, xml, appId)
  {
    BigEndianCanonical(field);
    hide FromBigEndian;
    hide BigEndian;
    assert |m| % U32_MODULUS == |m|;
  }

  /** A frame that opens is built from what it opens to. */
  lemma OpenedIsFrame(plain: seq<byte>, appId: string)
    requires Opened(plain, appId).Ok?
    ensures var xml := Opened(plain, appId).value;
            |plain| >= 20 && |Utf8.Encode(xml)| < U32_MODULUS && plain == Frame(plain[..16], xml, appId)
  {
    hide *;
    OpenedParts(plain, appId);
    var xml := Opened(plain, appId).value;
    var end := 20 + FromBigEndian(plain[16..20]);
    Utf8.EncodeDecode(plain[20..end]);
    Utf8.EncodeDecode(plain[end..]);
    assert |plain[20..end]| == end - 20;
    FrameOf(plain[..16], plain[16..20], plain[20..end], plain[end..], xml, appId);
    assert plain == plain[..16] + (plain[16..20] + (plain[20..end] + plain[end..]));
  }

  lemma DecryptIsOpened(enc: BlockMap, dec: BlockMap, iv: Block, plain: seq<byte>, appId: string)
    requires IsCipher(enc, dec)
    ensures Decrypt(dec, iv, Base64.Encode(CbcEncrypt(enc, iv, Pad(plain))), appId) == Opened(plain, appId)
  {
    Base64.DecodeEncode(CbcEncrypt(enc, iv, Pad(plain)));
    DecryptUndoesEncrypt(enc, dec, iv, Pad(plain));
    UnpadPad(plain);
  }

  /** Decrypting what was encrypted gives the message back exactly when its length fits the 32-bit field. */
  lemma RoundTrip(enc: BlockMap, dec: BlockMap, iv: Block, prefix: seq<byte>, xml: string, appId: string)
    requires IsCipher(enc, dec) && |prefix| == 16
    ensures Decrypt(dec, iv, Encrypt(enc, iv, prefix, xml, appId), appId) == Ok(xml)
            <==> |Utf8.Encode(xml)| < U32_MODULUS
  {
    DecryptIsOpened(enc, dec, iv, Frame(prefix, xml, appId), appId);
    OpenedFrame(prefix, xml, appId);
  }

  /** A text that decrypts is the encryption of what it decrypts to. */
  lemma DecryptedWasEncrypted(enc: BlockMap, dec: BlockMap, iv: Block, b64: string, appId: string)
      returns (prefix: seq<byte>)
    requires IsCipher(enc, dec) && Decrypt(dec, iv, b64, appId).Ok?
    ensures var xml := Decrypt(dec, iv, b64, appId).value;
            |prefix| == 16 && |Utf8.Encode(xml)| < U32_MODULUS && b64 == Encrypt(enc, iv, prefix, xml, appId)
  {
    var cipher := Base64.Decode(b64).value;
    var padded := CbcDecrypt(dec, iv, cipher);
    var plain := Unpad(padded).value;
    assert Opened(plain, appId) == Decrypt(dec, iv, b64, appId);
    Base64.EncodeDecode(b64);
    PadUnpad(padded);
    EncryptUndoesDecrypt(enc, dec, iv, cipher);
    hide *;
    OpenedIsFrame(plain, appId);
    prefix := plain[..16];
    EncryptIs(enc, iv, prefix, Opened(plain, appId).value, appId);
  }

  lemma EncryptIs(enc: BlockMap, iv: Block, prefix: seq<byte>, xml: string, appId: string)
    ensures Encrypt(enc, iv, prefix, xml, appId) == Base64.Encode(CbcEncrypt(enc, iv, Pad(Frame(prefix, xml, appId))))
  {
  }

  /** The texts that decrypt to a message are exactly its encryptions, one for each random prefix. */
  lemma DecryptsExactly(enc: BlockMap, dec: BlockMap, iv: Block, b64: string, xml: string, appId: string)
    requires IsCipher(enc, dec)
    ensures Decrypt(dec, iv, b64, appId) == Ok(xml)
            <==> |Utf8.Encode(xml)| < U32_MODULUS
                 && exists prefix: seq<byte> :: |prefix| == 16 && b64 == Encrypt(enc, iv, prefix, xml, appId)
  {
    hide Encrypt;
    hide Decrypt;
    if Decrypt(dec, iv, b64, appId) == Ok(xml) {
      var prefix := DecryptedWasEncrypted(enc, dec, iv, b64, appId);
    }
    if |Utf8.Encode(xml)| < U32_MODULUS
       && exists prefix: seq<byte> :: |prefix| == 16 && b64 == Encrypt(enc, iv, prefix, xml, appId) {
      var prefix: seq<byte> :| |prefix| == 16 && b64 == Encrypt(enc, iv, prefix, xml, appId);
      RoundTrip(enc, dec, iv, prefix, xml, appId);
    }
  }

  // ----- under a key

  type Key = k: seq<byte> | |k| == 32 witness seq(32, _ => 0)

  /** The chaining starts from the first half of the key. */
  function InitialBlock(key: Key): Block {
    key[..BLOCK]
  }

  function EncryptUnder(aes: Key -> BlockMap, key: Key, prefix: seq<byte>, xml: string, appId: string): string {
    Encrypt(aes(key), InitialBlock(key), prefix, xml, appId)
  }

  function DecryptUnder(undo: Key -> BlockMap, key: Key, b64: string, appId: string): Result<string, Failure> {
    Decrypt(undo(key), InitialBlock(key), b64, appId)
  }

  /** What goes out: base64 of blocks, each of them the cipher of a block of the padded frame, exclusive or the block
      before it, and for the first one the first half of the key. */
  lemma CiphertextUnderKey(aes: Key -> BlockMap, key: Key, prefix: seq<byte>, xml: string, appId: string)
      returns (c: seq<byte>)
    ensures Base64.Decode(EncryptUnder(aes, key, prefix, xml, appId)) == Some(c)
    ensures |c| == |Pad(Frame(prefix, xml, appId))|
    ensures forall i: nat | BLOCK * (i + 1) <= |c| :: Chained(aes(key), key[..16], Pad(Frame(prefix, xml, appId)), c, i)
  {
    var p := Pad(Frame(prefix, xml, appId));
    c := CbcEncrypt(aes(key), InitialBlock(key), p);
    Base64.DecodeEncode(c);
    hide Pad;
    hide Frame;
    hide Base64.Encode;
    hide Base64.Decode;
    hide CbcEncrypt;
    forall i: nat | BLOCK * (i + 1) <= |c| ensures Chained(aes(key), key[..16], p, c, i) {
      EveryBlockEncrypted(aes(key), InitialBlock(key), p, i);
    }
  }

  /** A message sealed under a key opens under that key exactly when its length fits the field. */
  lemma RoundTripUnderKey(aes: Key -> BlockMap, undo: Key -> BlockMap, key: Key, prefix: seq<byte>, xml: string,
                          appId: string)
    requires IsCipher(aes(key), undo(key)) && |prefix| == 16
    ensures DecryptUnder(undo, key, EncryptUnder(aes, key, prefix, xml, appId), appId) == Ok(xml)
            <==> |Utf8.Encode(xml)| < U32_MODULUS
  {
    RoundTrip(aes(key), undo(key), InitialBlock(key), prefix, xml, appId);
  }

  // ----- the configured key

  /** The key of 43 characters is base64 without its last `=`. */
  function DecodeAesKey(key: string): Option<seq<byte>> {
    if |Utf8.Encode(key)| != 43 then None
    else
      var bytes := Base64.Decode(key + "=");
      if bytes.Some? && |bytes.value| == 32 then bytes else None
  }

  lemma KeyOf(key: string, bytes: seq<byte>)
    requires |bytes| == 32 && key + "=" == Base64.Encode(bytes)
    ensures |Utf8.Encode(key)| == 43
  {
    Base64.EncodedLength(bytes, 10);
    Base64.EncodeUsesSymbols(bytes);
    hide *;
    forall i | 0 <= i < |key| ensures key[i] as int < 0x80 {
      assert (key + "=")[i] == key[i];
      SymbolIsAscii(key[i]);
    }
    Utf8.AsciiIsOneByteEach(key);
  }

  lemma SymbolIsAscii(c: char)
    requires Base64.IsSymbol(c)
    ensures c as int < 0x80
  {
  }

  /** The accepted keys are exactly the base64 forms of 32 bytes, one for each. */
  lemma AesKeysExactly(key: string, bytes: seq<byte>)
    ensures DecodeAesKey(key) == Some(bytes) <==> |bytes| == 32 && key + "=" == Base64.Encode(bytes)
  {
    hide Base64.Encode;
    hide Base64.Decode;
    hide Utf8.Encode;
    if DecodeAesKey(key) == Some(bytes) {
      Base64.EncodeDecode(key + "=");
    }
    if |bytes| == 32 && key + "=" == Base64.Encode(bytes) {
      Base64.DecodeEncode(bytes);
      KeyOf(key, bytes);
    }
  }
}
