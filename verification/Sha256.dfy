/** Streaming SHA-256 over any compression function, and HMAC on top of it: the buffer
    of one block, the 64-bit count of octets, the padding of FIPS 180-4, section 5.1.1,
    and the two nested hashes of section 2 of RFC 2104. */
module Sha256 {
  import opened Bytes

  const BLOCK: nat := 64
  const LEN_AT: nat := 56

  type Word = x: int | 0 <= x < U32

  type State = s: seq<Word> | |s| == 8 witness [0, 0, 0, 0, 0, 0, 0, 0]

  type Compress = (State, Text) -> State

  const IV: State := [
    0x6a09e667, 0xbb67ae85, 0x3c6ef372, 0xa54ff53a, 0x510e527f, 0x9b05688c, 0x1f83d9ab, 0x5be0cd19]

  // ---------------------------------------------------------------------
  // FIPS 180-4
  // ---------------------------------------------------------------------

  /** The low `width` octets of n, most significant first. */
  function Be(n: nat, width: nat): (r: Text)
    ensures |r| == width
  {
    if width == 0 then [] else Be(n / 256, width - 1) + [n % 256]
  }

  function Zeros(n: nat): (z: Text)
    ensures |z| == n && forall i :: 0 <= i < n ==> z[i] == 0
  {
    if n == 0 then [] else Zeros(n - 1) + [0]
  }

  /** The hash value after n whole blocks. */
  function Fold(c: Compress, data: Text, n: nat): State
    requires |data| == BLOCK * n
  {
    if n == 0 then IV
    else c(Fold(c, data[..BLOCK * (n - 1)], n - 1), data[BLOCK * (n - 1)..])
  }

  /** Zero octets after the marker, so that the length field ends a block. */
  function Gap(len: nat): nat {
    if len >= BLOCK then Gap(len - BLOCK) else if len < LEN_AT then LEN_AT - 1 - len else LEN_AT - 1 - len + BLOCK
  }

  /** Blocks of the padded message. */
  function Blocks(len: nat): nat {
    if len >= BLOCK then 1 + Blocks(len - BLOCK) else if len < LEN_AT then 1 else 2
  }

  /** The length in bits as the 64-bit counter has it. */
  function Bits(len: nat): nat {
    8 * len % U64
  }

  /** The padding of section 5.1.1, its length field taken modulo 2^64. */
  function Padded(m: Text): Text {
    m + [0x80] + Zeros(Gap(|m|)) + Be(Bits(|m|), 8)
  }

  lemma {:induction false} PaddedLength(len: nat)
    ensures len + 1 + Gap(len) + 8 == BLOCK * Blocks(len) && Gap(len) < BLOCK && Blocks(len) > 0
  {
    if len >= BLOCK {
      PaddedLength(len - BLOCK);
    }
  }

  lemma {:induction false} GapOf(n: nat, u: nat)
    requires u < BLOCK
    ensures Gap(BLOCK * n + u) == if u < LEN_AT then LEN_AT - 1 - u else LEN_AT - 1 - u + BLOCK
    ensures Blocks(BLOCK * n + u) == if u < LEN_AT then n + 1 else n + 2
    decreases n
  {
    if n > 0 {
      GapOf(n - 1, u);
    }
  }

  lemma {:induction false} Congruent(n: nat)
    ensures (512 * n + 448) % 512 == 448
  {
  }

  /** Counting the marker's seven zero bits, the gap is the one non-negative k below
      512 with l + 1 + k = 448 modulo 512, and under 2^61 octets the field holds l. */
  lemma {:induction false} PaddingIsFips(m: Text)
    ensures var l, k := 8 * |m|, 7 + 8 * Gap(|m|);
            k < 512 && (l + 1 + k) % 512 == 448 && (l < U64 ==> Bits(|m|) == l)
  {
    PaddedLength(|m|);
    Congruent(Blocks(|m|) - 1);
    assert 8 * |m| + 1 + (7 + 8 * Gap(|m|)) == 512 * (Blocks(|m|) - 1) + 448;
  }

  function EmitFrom(h: State, i: nat): (r: Text)
    requires i <= 8
    ensures |r| == 4 * (8 - i)
    decreases 8 - i
  {
    if i == 8 then [] else Be(h[i], 4) + EmitFrom(h, i + 1)
  }

  function Digest(c: Compress, m: Text): (d: Text)
    ensures |d| == 32
  {
    PaddedLength(|m|);
    EmitFrom(Fold(c, Padded(m), Blocks(|m|)), 0)
  }

  lemma {:induction false} DigestOf(c: Compress, m: Text, data: Text, n: nat)
    requires data == m + [0x80] + Zeros(Gap(|m|)) + Be(Bits(|m|), 8) && n == Blocks(|m|)
    ensures |data| == BLOCK * n && EmitFrom(Fold(c, data, n), 0) == Digest(c, m)
  {
    PaddedLength(|m|);
  }

  lemma {:induction false} FoldAppend(c: Compress, data: Text, n: nat, block: Text)
    requires |data| == BLOCK * n && |block| == BLOCK
    ensures |data + block| == BLOCK * (n + 1)
    ensures Fold(c, data + block, n + 1) == c(Fold(c, data, n), block)
  {
    assert (data + block)[..BLOCK * n] == data && (data + block)[BLOCK * n..] == block;
  }

  lemma ZerosAdd(a: nat, b: nat)
    ensures Zeros(a) + Zeros(b) == Zeros(a + b)
  {
  }

  // ---------------------------------------------------------------------
  // The context object
  // ---------------------------------------------------------------------

  class Context {
    const compress: Compress
    const block: array<byte>
    var h: State
    var bytes: nat
    var used: nat
    ghost var done: Text
    ghost var n: nat
    ghost var wraps: nat

    /** `done` is what the hash value has taken in, n blocks of it; the counter has
        passed 2^64 `wraps` times. */
    ghost predicate Valid()
      reads this, block
    {
      && block.Length == BLOCK && used < BLOCK
      && |done| == BLOCK * n && h == Fold(compress, done, n)
      && bytes < U64 && bytes + U64 * wraps == |done| + used
    }

    /** Everything fed so far. */
    ghost function Message(): Text
      reads this, block
      requires block.Length == BLOCK && used <= BLOCK
    {
      done + block[..used]
    }

    /** `sha256_init`. */
    constructor (compress: Compress)
      ensures Valid() && fresh(block) && this.compress == compress && Message() == []
    {
      this.compress := compress;
      block := new byte[BLOCK](i => 0);
      h, bytes, used, done, n, wraps := IV, 0, 0, [], 0, 0;
    }

    /** `memcpy` into the block. */
    method Copy(data: Text)
      requires block.Length == BLOCK && used + |data| <= BLOCK
      modifies block, this`used
      ensures used == old(used) + |data|
      ensures block[..used] == old(block[..used]) + data
    {
      var i := 0;
      while i < |data|
        invariant i <= |data| && used == old(used)
        invariant block[..used + i] == old(block[..used]) + data[..i]
      {
        block[used + i] := data[i];
        assert block[..used + i + 1] == block[..used + i] + [data[i]];
        assert data[..i + 1] == data[..i] + [data[i]];
        i := i + 1;
      }
      used := used + |data|;
      assert data[..i] == data;
    }

    /** A full block goes into the hash value. */
    method Flush()
      requires block.Length == BLOCK && used == BLOCK
      requires |done| == BLOCK * n && h == Fold(compress, done, n)
      modifies this`h, this`used, this`done, this`n
      ensures used == 0 && |done| == BLOCK * n && h == Fold(compress, done, n)
      ensures done == old(Message()) && n == old(n) + 1
    {
      assert block[..used] == block[..];
      FoldAppend(compress, done, n, block[..]);
      h := compress(h, block[..]);
      used := 0;
      done, n := done + block[..], n + 1;
    }

    /** One turn of `sha256_update`: some octets that fit, then a flush when they
        fill the block. */
    method Feed(piece: Text)
      requires block.Length == BLOCK && used < BLOCK && |piece| <= BLOCK - used
      requires |done| == BLOCK * n && h == Fold(compress, done, n)
      modifies block, this`h, this`used, this`done, this`n
      ensures used < BLOCK && |done| == BLOCK * n && h == Fold(compress, done, n)
      ensures Message() == old(Message()) + piece
    {
      Associate(done, block[..used], piece);
      Copy(piece);
      if used == BLOCK {
        Flush();
        assert done + block[..0] == done;
      }
    }

    /** The octet counter, in 64 bits. */
    static method Advance(bytes: nat, len: nat, ghost wraps: nat) returns (r: nat, ghost w: nat)
      ensures r < U64 && r + U64 * w == bytes + U64 * wraps + len
    {
      r := (bytes + len) % U64;
      w := wraps + (bytes + len) / U64;
    }

    /** The bit count from the octet counter. */
    static method CountBits(bytes: nat, ghost wraps: nat) returns (bits: nat)
      ensures bits == Bits(bytes + U64 * wraps) && bits < U64
    {
      bits := bytes * 8 % U64;
      assert 8 * (bytes + U64 * wraps) == bytes * 8 + U64 * (8 * wraps);
    }

    /** The loop of `sha256_update`. */
    method Absorb(data: Text)
      requires block.Length == BLOCK && used < BLOCK
      requires |done| == BLOCK * n && h == Fold(compress, done, n)
      modifies block, this`h, this`used, this`done, this`n
      ensures used < BLOCK && |done| == BLOCK * n && h == Fold(compress, done, n)
      ensures Message() == old(Message()) + data
    {
      ghost var was := Message();
      var i := 0;
      assert was + data[..0] == was;
      while i < |data|
        invariant i <= |data| && used < BLOCK
        invariant |done| == BLOCK * n && h == Fold(compress, done, n)
        invariant Message() == was + data[..i]
      {
        var take := if |data| - i > BLOCK - used then BLOCK - used else |data| - i;
        ghost var piece := data[i..i + take];
        Feed(data[i..i + take]);
        Associate(was, data[..i], piece);
        assert data[..i + take] == data[..i] + piece;
        i := i + take;
      }
      assert data[..i] == data;
    }

    /** `sha256_update`: however a message is split into updates, the context ends
        up with all of it. */
    method Update(data: Text)
      requires Valid()
      modifies this, block
      ensures Valid() && Message() == old(Message()) + data
    {
      ghost var was := |Message()|;
      bytes, wraps := Advance(bytes, |data|, wraps);
      Absorb(data);
      assert |Message()| == was + |data|;
    }

    /** Zero octets up to a position. */
    method Fill(to: nat)
      requires block.Length == BLOCK && used <= to <= BLOCK
      modifies block, this`used
      ensures used == to
      ensures block[..used] == old(block[..used]) + Zeros(to - old(used))
    {
      ghost var was, start := block[..used], used;
      assert was + Zeros(0) == was;
      while used < to
        invariant start <= used <= to
        invariant block[..used] == was + Zeros(used - start)
      {
        block[used] := 0;
        assert block[..used + 1] == block[..used] + [0];
        Associate(was, Zeros(used - start), [0]);
        used := used + 1;
      }
    }

    /** The length octets at the end of the block. */
    method PutLength(bits: nat)
      requires block.Length == BLOCK && used == LEN_AT && bits < U64
      modifies block, this`used
      ensures used == BLOCK && block[..used] == old(block[..used]) + Be(bits, 8)
    {
      ghost var was := block[..used];
      Copy(Be(bits, 8));
    }

    /** The marker and the zeros of `sha256_final`, with a block of their own when
        the length no longer fits. */
    method PadOut()
      requires Valid()
      modifies block, this`h, this`used, this`done, this`n
      ensures used == LEN_AT && |done| == BLOCK * n && h == Fold(compress, done, n)
      ensures Message() == old(Message()) + [0x80] + Zeros(Gap(|old(Message())|))
      ensures n + 1 == Blocks(|old(Message())|)
    {
      ghost var u := used;
      GapOf(n, u);
      Associate(done, block[..used], [0x80]);
      Copy([0x80]);
      ghost var marked := Message();
      if used > LEN_AT {
        Associate(done, block[..used], Zeros(BLOCK - used));
        Fill(BLOCK);
        Flush();
        assert Message() == marked + Zeros(BLOCK - 1 - u) by {
          assert done + block[..0] == done;
        }
        ZerosAdd(BLOCK - 1 - u, LEN_AT);
        Associate(marked, Zeros(BLOCK - 1 - u), Zeros(LEN_AT));
      }
      Associate(done, block[..used], Zeros(LEN_AT - used));
      Fill(LEN_AT);
    }

    /** The length, and the last block. */
    method Close(bits: nat)
      requires block.Length == BLOCK && used == LEN_AT && bits < U64
      requires |done| == BLOCK * n && h == Fold(compress, done, n)
      modifies block, this`h, this`used, this`done, this`n
      ensures |done| == BLOCK * n && h == Fold(compress, done, n) && n == old(n) + 1
      ensures done == old(Message()) + Be(bits, 8)
    {
      Associate(done, block[..used], Be(bits, 8));
      PutLength(bits);
      Flush();
    }

    /** `sha256_final`: the digest of everything fed. */
    method Final() returns (out: Text)
      requires Valid()
      modifies this, block
      ensures out == Digest(compress, old(Message()))
    {
      ghost var m := Message();
      var bits := CountBits(bytes, wraps);
      PadOut();
      Close(bits);
      DigestOf(compress, m, done, n);
      out := EmitFrom(h, 0);
    }
  }

  /** `sha256`. */
  method Hash(compress: Compress, data: Text) returns (out: Text)
    ensures out == Digest(compress, data)
  {
    var ctx := new Context(compress);
    ctx.Update(data);
    assert [] + data == data;
    out := ctx.Final();
  }

  // ---------------------------------------------------------------------
  // HMAC
  // ---------------------------------------------------------------------

  function Xor(a: byte, b: byte): byte {
    ((a as bv8) ^ (b as bv8)) as int
  }

  function Masked(k: Text, mask: byte): (r: Text)
    ensures |r| == |k|
  {
    if k == [] then [] else Masked(k[..|k| - 1], mask) + [Xor(k[|k| - 1], mask)]
  }

  /** Section 2 of RFC 2104: a key longer than a block is hashed first, and then
      filled up with zeros. */
  function BlockKey(c: Compress, key: Text): (k: Text)
    ensures |k| == BLOCK
  {
    var short := if |key| <= BLOCK then key else Digest(c, key);
    short + Zeros(BLOCK - |short|)
  }

  function Hmac(c: Compress, key: Text, msg: Text): Text {
    var k := BlockKey(c, key);
    Digest(c, Masked(k, 0x5c) + Digest(c, Masked(k, 0x36) + msg))
  }

  /** The mask loop of `hmac_sha256`. */
  method Mask(k: Text, mask: byte) returns (r: Text)
    ensures r == Masked(k, mask)
  {
    r := [];
    var i := 0;
    assert k[..0] == [];
    while i < |k|
      invariant i <= |k| && r == Masked(k[..i], mask)
    {
      assert k[..i + 1][..i] == k[..i];
      r := r + [Xor(k[i], mask)];
      i := i + 1;
    }
    assert k[..i] == k;
  }

  /** Two updates and a final, as both halves of `hmac_sha256` do. */
  method HashTwo(compress: Compress, a: Text, b: Text) returns (out: Text)
    ensures out == Digest(compress, a + b)
  {
    var ctx := new Context(compress);
    ctx.Update(a);
    assert [] + a == a;
    ctx.Update(b);
    out := ctx.Final();
  }

  /** `hmac_sha256`, for every key and message. */
  method HmacSha256(compress: Compress, key: Text, msg: Text) returns (mac: Text)
    ensures mac == Hmac(compress, key, msg) && |mac| == 32
  {
    var k := key;
    if |key| > BLOCK {
      k := Hash(compress, key);
    }
    k := k + Zeros(BLOCK - |k|);
    assert k == BlockKey(compress, key);
    var ipad := Mask(k, 0x36);
    var opad := Mask(k, 0x5c);
    var inner := HashTwo(compress, ipad, msg);
    mac := HashTwo(compress, opad, inner);
  }

  /** Trailing zeros in a short key, and hashing a long one beforehand, change
      nothing. */
  lemma {:induction false} BlockKeyPadded(c: Compress, key: Text, n: nat)
    requires |key| + n <= BLOCK
    ensures BlockKey(c, key + Zeros(n)) == BlockKey(c, key)
  {
    ZerosAdd(n, BLOCK - |key| - n);
    Associate(key, Zeros(n), Zeros(BLOCK - |key| - n));
  }

  lemma {:induction false} KeyForms(c: Compress, key: Text, n: nat, msg: Text)
    ensures |key| + n <= BLOCK ==> Hmac(c, key + Zeros(n), msg) == Hmac(c, key, msg)
    ensures |key| > BLOCK ==> Hmac(c, Digest(c, key), msg) == Hmac(c, key, msg)
  {
    if |key| + n <= BLOCK {
      BlockKeyPadded(c, key, n);
    } else if |key| > BLOCK {
      assert BlockKey(c, Digest(c, key)) == BlockKey(c, key);
    }
  }
}
