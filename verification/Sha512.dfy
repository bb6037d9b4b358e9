/** The streaming SHA-512 of libs/sha512: a context that absorbs input piece by piece.

    The compression function and the final encoding are parameters. What is proved is that the
    buffering, the length counter and the padding compute the one-shot digest of FIPS 180-4,
    sections 5.1.2 and 6.4, for every way of cutting the message into pieces. */
module Sha512 {
  import opened Common

  const BLOCK_BYTES := 128
  const LENGTH_FIELD_OFFSET := 120
  const MAX_BIT_COUNT := 0xFFFF_FFFF_FFFF_FFFF

  type Chain = seq<bv64>
  type Digest = seq<Byte>

  datatype Compression = Compression(
    init: Chain,
    compress: (Chain, seq<Byte>) -> Chain,
    encode: Chain -> Digest)

  /** `length` counts the bits already compressed; `buf` holds the `curlen` bytes still waiting. */
  datatype Context = Context(length: nat, state: Chain, buf: seq<Byte>)

  // ----- One-shot reference -----

  function Fold(c: Compression, s: Chain, m: seq<Byte>): Chain
    requires |m| % BLOCK_BYTES == 0
    decreases |m|
  {
    if m == [] then s else Fold(c, c.compress(s, m[..BLOCK_BYTES]), m[BLOCK_BYTES..])
  }

  function Zeros(n: nat): (z: seq<Byte>)
    ensures |z| == n && forall i :: 0 <= i < n ==> z[i] == 0
  {
    seq(n, _ => 0)
  }

  function BigEndian(x: nat, width: nat): (b: seq<Byte>)
    ensures |b| == width
  {
    if width == 0 then [] else BigEndian(x / 256, width - 1) + [x % 256]
  }

  /** The smallest number of zero bytes that brings message, marker and zeros to 112 modulo 128. */
  function PadZeros(n: nat): nat {
    (111 - n) % BLOCK_BYTES
  }

  /** The padded message of FIPS 180-4: a one bit, zeros, and the length as 128 bits. */
  function Padded(m: seq<Byte>): (p: seq<Byte>)
    ensures |p| % BLOCK_BYTES == 0
  {
    m + [0x80] + Zeros(PadZeros(|m|)) + BigEndian(8 * |m|, 16)
  }

  /** A big-endian number. */
  function Number(b: seq<Byte>): nat {
    if b == [] then 0 else 256 * Number(b[..|b| - 1]) + b[|b| - 1]
  }

  function Power(n: nat): nat {
    if n == 0 then 1 else 256 * Power(n - 1)
  }

  lemma {:induction false} NumberOfBigEndian(x: nat, width: nat)
    requires x < Power(width)
    ensures Number(BigEndian(x, width)) == x
  {
    if width > 0 {
      NumberOfBigEndian(x / 256, width - 1);
      assert BigEndian(x, width)[..width - 1] == BigEndian(x / 256, width - 1);
    }
  }

  lemma Wide(x: nat)
    requires x <= MAX_BIT_COUNT
    ensures x < Power(16)
  {
    assert Power(8) == MAX_BIT_COUNT + 1;
    assert Power(12) == 0x1_0000_0000 * Power(8) && Power(16) == 0x1_0000_0000 * Power(12);
  }

  /** The padding: the message, a one bit, as few zero bits as fill whole blocks, and in the last sixteen bytes
      the number of bits of the message, most significant byte first. */
  lemma PaddedShape(m: seq<Byte>)
    requires Fits(|m|)
    ensures var p := Padded(m);
      && |p| % 128 == 0 && |m| + 17 <= |p| < |m| + 17 + 128
      && p[..|m|] == m && p[|m|] == 0x80
      && (forall i :: |m| < i < |p| - 16 ==> p[i] == 0)
      && Number(p[|p| - 16..]) == 8 * |m|
  {
    hide BigEndian, Number, Power;
    var p, n := Padded(m), |m|;
    var z := PadZeros(n);
    assert p[n + 1 + z..] == BigEndian(8 * n, 16);
    assert p[n + 1..n + 1 + z] == Zeros(z);
    forall i | n < i < |p| - 16 ensures p[i] == 0 {
      assert p[i] == p[n + 1..n + 1 + z][i - n - 1];
    }
    Wide(8 * n);
    NumberOfBigEndian(8 * n, 16);
  }

  function DigestOf(c: Compression, m: seq<Byte>): Digest {
    c.encode(Fold(c, c.init, Padded(m)))
  }

  // ----- The context that a message leaves behind -----

  function Whole(n: nat): (w: nat)
    ensures w % BLOCK_BYTES == 0 && w <= n < w + BLOCK_BYTES
  {
    n / BLOCK_BYTES * BLOCK_BYTES
  }

  function ContextOf(c: Compression, m: seq<Byte>): Context {
    var w := Whole(|m|);
    Context(8 * w, Fold(c, c.init, m[..w]), m[w..])
  }

  predicate Fits(n: nat) {
    8 * n <= MAX_BIT_COUNT
  }

  lemma {:induction false} FoldAppend(c: Compression, s: Chain, a: seq<Byte>, b: seq<Byte>)
    requires |a| % BLOCK_BYTES == 0 && |b| % BLOCK_BYTES == 0
    ensures |a + b| % BLOCK_BYTES == 0
    ensures Fold(c, s, a + b) == Fold(c, Fold(c, s, a), b)
    decreases |a|
  {
    if a == [] {
      assert a + b == b;
    } else {
      assert (a + b)[..BLOCK_BYTES] == a[..BLOCK_BYTES];
      assert (a + b)[BLOCK_BYTES..] == a[BLOCK_BYTES..] + b;
      FoldAppend(c, c.compress(s, a[..BLOCK_BYTES]), a[BLOCK_BYTES..], b);
    }
  }

  /** Bytes that do not complete the pending block only lengthen the buffer. */
  lemma {:induction false} BufferGrows(c: Compression, m: seq<Byte>, x: seq<Byte>)
    requires |m| - Whole(|m|) + |x| < BLOCK_BYTES
    ensures ContextOf(c, m + x) == ContextOf(c, m).(buf := ContextOf(c, m).buf + x)
  {
    var w := Whole(|m|);
    assert Whole(|m + x|) == w;
    assert (m + x)[..w] == m[..w];
    assert (m + x)[w..] == m[w..] + x;
  }

  /** Bytes that complete the pending block are compressed with it. */
  lemma {:induction false} BlockCompletes(c: Compression, m: seq<Byte>, x: seq<Byte>)
    requires |m| - Whole(|m|) + |x| == BLOCK_BYTES
    ensures
      var old' := ContextOf(c, m);
      ContextOf(c, m + x)
      == Context(old'.length + 8 * BLOCK_BYTES, c.compress(old'.state, old'.buf + x), [])
  {
    var w := Whole(|m|);
    var block := m[w..] + x;
    assert Whole(|m + x|) == w + BLOCK_BYTES == |m + x|;
    assert (m + x)[..|m + x|] == m[..w] + block;
    FoldAppend(c, c.init, m[..w], block);
    assert block[..BLOCK_BYTES] == block && block[BLOCK_BYTES..] == [];
  }

  // ----- The operations -----

  function Init(c: Compression): (ctx: Context)
    ensures ctx == ContextOf(c, [])
  {
    Context(0, c.init, [])
  }

  /** `sha512_check_available_bytes`: a damaged buffer or an overflowing bit counter is refused. */
  predicate Accepts(ctx: Context, more: nat) {
    && |ctx.buf| < BLOCK_BYTES
    && ctx.length <= MAX_BIT_COUNT
    && |ctx.buf| + more <= (MAX_BIT_COUNT - ctx.length) / 8
  }

  /** Any context is accepted as input. `m` names the message behind it, when there is one. */
  method Update(c: Compression, ctx: Context, input: seq<Byte>, ghost m: seq<Byte>)
    returns (ok: bool, next: Context)
    ensures ok == Accepts(ctx, |input|)
    ensures !ok ==> next == ctx
    ensures ok && ctx == ContextOf(c, m) ==> next == ContextOf(c, m + input)
  {
    next := ctx;
    ok := Accepts(ctx, |input|);
    if !ok {
      return;
    }
    var i := 0;
    assert m + input[..0] == m;
    while i < |input|
      invariant 0 <= i <= |input|
      invariant |next.buf| < BLOCK_BYTES
      invariant ctx == ContextOf(c, m) ==> next == ContextOf(c, m + input[..i])
    {
      var n := if |input| - i < BLOCK_BYTES - |next.buf| then |input| - i else BLOCK_BYTES - |next.buf|;
      var piece := input[i..i + n];
      ghost var before := m + input[..i];
      assert m + input[..i + n] == before + piece;
      if next.buf == [] && |input| - i >= BLOCK_BYTES {
        // A whole block is compressed straight from the input.
        assert next.buf + piece == piece;
        next := Context(next.length + 8 * BLOCK_BYTES, c.compress(next.state, piece), []);
        if ctx == ContextOf(c, m) { BlockCompletes(c, before, piece); }
      } else {
        next := next.(buf := next.buf + piece);
        if |next.buf| == BLOCK_BYTES {
          next := Context(next.length + 8 * BLOCK_BYTES, c.compress(next.state, next.buf), []);
          if ctx == ContextOf(c, m) { BlockCompletes(c, before, piece); }
        } else {
          if ctx == ContextOf(c, m) { BufferGrows(c, before, piece); }
        }
      }
      i := i + n;
    }
    assert input[..i] == input;
  }

  lemma AcceptsContextOf(c: Compression, m: seq<Byte>, more: nat)
    requires Fits(|m|)
    ensures Accepts(ContextOf(c, m), more) <==> Fits(|m| + more)
  {
  }

  /** `sha512_final`, with its two padding loops. */
  method Final(c: Compression, ctx: Context, ghost m: seq<Byte>) returns (ok: bool, digest: Digest)
    ensures ok == Accepts(ctx, 0)
    ensures ok && ctx == ContextOf(c, m) ==> digest == DigestOf(c, m)
  {
    digest := [];
    ok := Accepts(ctx, 0);
    if !ok {
      return;
    }
    var length := ctx.length + 8 * |ctx.buf|;
    var state := ctx.state;
    var buf: seq<Byte> := ctx.buf + [0x80];
    ghost var pad: seq<Byte> := [];  // all zero bytes appended so far
    ghost var flushed: seq<Byte> := [];  // the extra block, when there is one
    if |buf| > 112 {
      while |buf| < BLOCK_BYTES
        invariant |buf| <= BLOCK_BYTES
        invariant buf == ctx.buf + [0x80] + pad && pad == Zeros(|pad|)
      {
        buf, pad := buf + [0], pad + [0];
      }
      state := c.compress(state, buf);
      flushed := buf;
      buf := [];
    }
    while |buf| < LENGTH_FIELD_OFFSET
      invariant |buf| <= LENGTH_FIELD_OFFSET
      invariant flushed + buf == ctx.buf + [0x80] + pad && pad == Zeros(|pad|)
    {
      assert flushed + (buf + [0]) == (flushed + buf) + [0] == ctx.buf + [0x80] + (pad + [0]);
      buf, pad := buf + [0], pad + [0];
    }
    var size := BigEndian(length, 8);
    state := c.compress(state, buf + size);
    digest := c.encode(state);
    if ctx == ContextOf(c, m) {
      PaddedFold(c, m, flushed, buf, pad, size);
    }
  }

  /** The zeros appended by the two loops are the padding zeros and the unused half of the length. */
  lemma PadLength(n: nat, flushed: nat, pad: nat)
    requires flushed == if n - Whole(n) < 112 then 0 else BLOCK_BYTES
    requires flushed + LENGTH_FIELD_OFFSET == n - Whole(n) + 1 + pad
    ensures pad == PadZeros(n) + 8
  {
    var r := n - Whole(n);
    assert 111 - n == (111 - r) + BLOCK_BYTES * -(n / BLOCK_BYTES);
  }

  lemma Regroup(a: seq<Byte>, b: seq<Byte>, one: seq<Byte>, z: seq<Byte>, high: seq<Byte>, low: seq<Byte>)
    ensures (a + b) + one + z + (high + low) == a + (b + one + (z + high) + low)
  {
  }

  lemma PaddedTail(m: seq<Byte>, tail: seq<Byte>, pad: seq<Byte>, size: seq<Byte>)
    requires Fits(|m|) && |pad| == PadZeros(|m|) + 8 && pad == Zeros(|pad|)
    requires size == BigEndian(8 * |m|, 8)
    requires tail == m[Whole(|m|)..] + [0x80] + pad + size
    ensures Padded(m) == m[..Whole(|m|)] + tail
  {
    var w, z := Whole(|m|), Zeros(PadZeros(|m|));
    BigEndianNarrow(8 * |m|);
    assert pad == z + Zeros(8);
    assert m == m[..w] + m[w..];
    Regroup(m[..w], m[w..], [0x80], z, Zeros(8), size);
  }

  /** The blocks compressed by the finaliser are the tail of the padded message. */
  lemma PaddedFold(
    c: Compression, m: seq<Byte>, flushed: seq<Byte>, unsized: seq<Byte>, pad: seq<Byte>, size: seq<Byte>)
    requires Fits(|m|) && |unsized| == LENGTH_FIELD_OFFSET && pad == Zeros(|pad|)
    requires size == BigEndian(8 * |m|, 8)
    requires flushed + unsized == m[Whole(|m|)..] + [0x80] + pad
    requires |flushed| == if |m| - Whole(|m|) < 112 then 0 else BLOCK_BYTES
    ensures DigestOf(c, m) == c.encode(FoldTail(c, Fold(c, c.init, m[..Whole(|m|)]), flushed, unsized + size))
  {
    hide BigEndian, Fold;
    var w := Whole(|m|);
    assert |flushed| + |unsized| == |m[w..] + [0x80] + pad|;
    PadLength(|m|, |flushed|, |pad|);
    assert flushed + (unsized + size) == (flushed + unsized) + size;
    PaddedTail(m, flushed + (unsized + size), pad, size);
    FoldTwo(c, m[..w], flushed, unsized + size);
  }

  function FoldTail(c: Compression, s: Chain, flushed: seq<Byte>, last: seq<Byte>): Chain {
    c.compress(if flushed == [] then s else c.compress(s, flushed), last)
  }

  lemma FoldTwo(c: Compression, front: seq<Byte>, flushed: seq<Byte>, last: seq<Byte>)
    requires |front| % BLOCK_BYTES == 0 && |last| == BLOCK_BYTES
    requires flushed == [] || |flushed| == BLOCK_BYTES
    ensures |front + (flushed + last)| % BLOCK_BYTES == 0
    ensures Fold(c, c.init, front + (flushed + last)) == FoldTail(c, Fold(c, c.init, front), flushed, last)
  {
    var s := Fold(c, c.init, front);
    FoldAppend(c, c.init, front, flushed + last);
    FoldAppend(c, s, flushed, last);
    FoldOne(c, Fold(c, s, flushed), last);
    if flushed != [] {
      FoldOne(c, s, flushed);
    }
  }

  lemma FoldOne(c: Compression, s: Chain, block: seq<Byte>)
    requires |block| == BLOCK_BYTES
    ensures Fold(c, s, block) == c.compress(s, block)
  {
    assert block[..BLOCK_BYTES] == block && block[BLOCK_BYTES..] == [];
  }

  lemma {:induction false} BigEndianZero(width: nat)
    ensures BigEndian(0, width) == Zeros(width)
  {
    if width > 0 {
      BigEndianZero(width - 1);
    }
  }

  /** A length below 2^64 needs only the low eight bytes of the 128-bit field. */
  lemma {:induction false} BigEndianNarrow(x: nat)
    requires x <= MAX_BIT_COUNT
    ensures BigEndian(x, 16) == Zeros(8) + BigEndian(x, 8)
  {
    var x1 := x / 256;
    var x2 := x1 / 256;
    var x3 := x2 / 256;
    var x4 := x3 / 256;
    var x5 := x4 / 256;
    var x6 := x5 / 256;
    var x7 := x6 / 256;
    assert x7 / 256 == 0;
    BigEndianZero(8);
    assert BigEndian(x7, 9) == Zeros(8) + BigEndian(x7, 1);
    assert BigEndian(x6, 10) == Zeros(8) + BigEndian(x6, 2);
    assert BigEndian(x5, 11) == Zeros(8) + BigEndian(x5, 3);
    assert BigEndian(x4, 12) == Zeros(8) + BigEndian(x4, 4);
    assert BigEndian(x3, 13) == Zeros(8) + BigEndian(x3, 5);
    assert BigEndian(x2, 14) == Zeros(8) + BigEndian(x2, 6);
    assert BigEndian(x1, 15) == Zeros(8) + BigEndian(x1, 7);
  }
}
