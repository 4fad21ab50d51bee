/** The Huffman code of section 5.2 of RFC 7541. */
module HpackHuffman {
  // The decode trie of `hp_huff_build` and the bit walk inside `hp_string`, over any
  // table of 257 prefix-free codes whose last one (EOS) is all ones and longer than 7
  // bits.

  import opened Bytes

  type Bits = seq<bool>

  const EOS: nat := 256

  ghost predicate PrefixFree(codes: seq<Bits>) {
    forall i, j :: 0 <= i < |codes| && 0 <= j < |codes| && codes[i] <= codes[j] ==> i == j
  }

  ghost predicate Good(codes: seq<Bits>) {
    && |codes| == 257
    && PrefixFree(codes)
    && |codes[EOS]| > 7
    && forall k :: 0 <= k < |codes[EOS]| ==> codes[EOS][k]
  }

  // ---------------------------------------------------------------------
  // The trie
  // ---------------------------------------------------------------------

  /** `Nil` is an absent child; an inner node has symbol -1. */
  datatype Trie = Nil | Node(symbol: int, zero: Trie, one: Trie)

  const Blank: Trie := Node(-1, Nil, Nil)

  function Child(t: Trie, bit: bool): Trie {
    if t.Nil? then Nil else if bit then t.one else t.zero
  }

  function Insert(t: Trie, code: Bits, sym: nat): (r: Trie)
    ensures r.Node?
    decreases |code|
  {
    var n := if t.Nil? then Blank else t;
    if code == [] then n.(symbol := sym)
    else if code[0] then n.(one := Insert(n.one, code[1..], sym))
    else n.(zero := Insert(n.zero, code[1..], sym))
  }

  function Build(codes: seq<Bits>, m: nat): (r: Trie)
    requires m <= |codes|
    ensures r.Node?
  {
    if m == 0 then Blank else Insert(Build(codes, m - 1), codes[m - 1], m - 1)
  }

  ghost function Sub(t: Trie, path: Bits): Trie
    decreases |path|
  {
    if path == [] then t else Sub(Child(t, path[0]), path[1..])
  }

  ghost function SymbolAt(t: Trie, path: Bits): int {
    if Sub(t, path).Nil? then -1 else Sub(t, path).symbol
  }

  lemma {:induction false} SubOfNil(path: Bits)
    ensures Sub(Nil, path) == Nil
    decreases |path|
  {
    if path != [] {
      SubOfNil(path[1..]);
    }
  }

  lemma {:induction false} SubStep(t: Trie, path: Bits, bit: bool)
    ensures Sub(t, path + [bit]) == Child(Sub(t, path), bit)
    decreases |path|
  {
    if path == [] {
      assert path + [bit] == [bit];
    } else {
      assert (path + [bit])[1..] == path[1..] + [bit];
      SubStep(Child(t, path[0]), path[1..], bit);
    }
  }

  /** Inserting a code adds its prefixes as nodes and changes one symbol. */
  lemma {:induction false} SubInsert(t: Trie, code: Bits, sym: nat, path: Bits)
    ensures Sub(Insert(t, code, sym), path).Node? <==> Sub(t, path).Node? || path <= code
    ensures SymbolAt(Insert(t, code, sym), path) == if path == code then sym else SymbolAt(t, path)
    decreases |code|
  {
    if path != [] {
      if t.Nil? {
        SubOfNil(path);
        SubOfNil(path[1..]);
      }
      if code != [] {
        if path[0] == code[0] {
          var n := if t.Nil? then Blank else t;
          SubInsert(Child(n, code[0]), code[1..], sym, path[1..]);
          assert path <= code <==> path[1..] <= code[1..];
          assert path == code <==> path[1..] == code[1..];
        }
      }
    }
  }

  /** The trie of a prefix-free table: its nodes are the prefixes of codes, and
      the symbols sit exactly at the ends of their codes. */
  lemma {:induction false} BuildSub(codes: seq<Bits>, m: nat, path: Bits)
    requires m <= |codes| && PrefixFree(codes)
    ensures Sub(Build(codes, m), path).Node? ==> path == [] || exists i :: 0 <= i < m && path <= codes[i]
    ensures forall i :: 0 <= i < m && path <= codes[i] ==> Sub(Build(codes, m), path).Node?
    ensures forall i :: 0 <= i < m && path == codes[i] ==> SymbolAt(Build(codes, m), path) == i
    ensures var s := SymbolAt(Build(codes, m), path); s == -1 || (0 <= s < m && codes[s] == path)
  {
    if m == 0 {
      if path != [] {
        SubOfNil(path[1..]);
      }
    } else {
      BuildSub(codes, m - 1, path);
      SubInsert(Build(codes, m - 1), codes[m - 1], m - 1, path);
      forall i | 0 <= i < m && path == codes[i]
        ensures SymbolAt(Build(codes, m), path) == i
      {
        assert codes[m - 1] == path ==> codes[i] <= codes[m - 1];
      }
    }
  }

  // ---------------------------------------------------------------------
  // The bit walk
  // ---------------------------------------------------------------------

  function Prepend(out: Text, r: Option<Text>): Option<Text> {
    if r.None? then None else Some(out + r.value)
  }

  /** `at` is the current node, reached by `pending` bits since the last symbol,
      all of them ones when `ones` holds; the root is where `pending` is 0. */
  function Walk(root: Trie, at: Trie, pending: nat, ones: bool, bits: Bits): Option<Text>
    decreases |bits|
  {
    if bits == [] then
      if pending == 0 || (pending <= 7 && ones) then Some([]) else None
    else
      var n := Child(at, bits[0]);
      if n.Nil? || n.symbol >= 256 then None
      else if n.symbol >= 0 then Prepend([n.symbol], Walk(root, root, 0, true, bits[1..]))
      else Walk(root, n, pending + 1, ones && bits[0], bits[1..])
  }

  function Code(codes: seq<Bits>, text: Text): Bits
    requires |codes| == 257
  {
    if text == [] then [] else codes[text[0]] + Code(codes, text[1..])
  }

  function Ones(k: nat): (r: Bits)
    ensures |r| == k && forall i :: 0 <= i < k ==> r[i]
  {
    seq(k, i => true)
  }

  /** The walk has read `path` since the last symbol and stands inside a code. */
  ghost predicate Midway(codes: seq<Bits>, path: Bits, at: Trie, pending: nat, ones: bool) {
    && |codes| == 257
    && at == Sub(Build(codes, 257), path)
    && at.Node?
    && pending == |path|
    && (ones <==> forall i :: 0 <= i < |path| ==> path[i])
    && forall i :: 0 <= i < |codes| ==> codes[i] != path
  }

  ghost predicate Splits(codes: seq<Bits>, whole: Bits, out: Text, k: nat)
    requires |codes| == 257
  {
    k <= 7 && whole == Code(codes, out) + Ones(k)
  }

  lemma NoEmptyCode(codes: seq<Bits>)
    requires Good(codes)
    ensures forall i :: 0 <= i < |codes| ==> codes[i] != []
  {
    forall i | 0 <= i < |codes|
      ensures codes[i] != []
    {
      var j := if i == 0 then 1 else 0;
      assert !(codes[i] <= codes[j]);
    }
  }

  /** Two prefixes of one string are comparable. */
  lemma PrefixesCompare(a: Bits, b: Bits, whole: Bits)
    requires a <= whole && b <= whole && |a| <= |b|
    ensures a <= b
  {
    assert a == whole[..|a|] && b == whole[..|b|];
  }

  /** Inside a code no complete code has been passed. */
  lemma NothingPassed(codes: seq<Bits>, path: Bits, at: Trie, pending: nat, ones: bool, i: nat)
    requires Good(codes) && Midway(codes, path, at, pending, ones) && i < 257
    ensures !(codes[i] <= path)
  {
    BuildSub(codes, 257, path);
    NoEmptyCode(codes);
    if path != [] {
      var j :| 0 <= j < 257 && path <= codes[j];
      assert i != j ==> !(codes[i] <= codes[j]);
    }
  }

  /** At the end of the bits nothing is left to decode. */
  lemma {:induction false} WalkEnds(codes: seq<Bits>, path: Bits, at: Trie, pending: nat, ones: bool, out: Text, k: nat)
    requires Good(codes) && Midway(codes, path, at, pending, ones) && Splits(codes, path, out, k)
    ensures out == [] && path == Ones(k)
    ensures Walk(Build(codes, 257), at, pending, ones, []) == Some(out)
  {
    if out != [] {
      assert codes[out[0]] <= path;
      NothingPassed(codes, path, at, pending, ones, out[0]);
    }
  }

  /** A code that is complete leaves the codes behind it. */
  lemma {:induction false} CodeDone(codes: seq<Bits>, path: Bits, bits: Bits, out: Text, k: nat)
    requires |codes| == 257 && bits != [] && out != [] && Splits(codes, path + bits, out, k)
    requires path + [bits[0]] == codes[out[0]]
    ensures Splits(codes, bits[1..], out[1..], k)
  {
    var next := path + [bits[0]];
    var whole := path + bits;
    assert whole == next + bits[1..];
    assert whole == next + (Code(codes, out[1..]) + Ones(k));
    assert bits[1..] == whole[|next|..] == Code(codes, out[1..]) + Ones(k);
  }

  /** Every coded string followed by up to seven ones is accepted, as itself. */
  lemma {:induction false} WalkComplete(codes: seq<Bits>, path: Bits, at: Trie, pending: nat, ones: bool,
                                        bits: Bits, out: Text, k: nat)
    requires Good(codes) && Midway(codes, path, at, pending, ones)
    requires Splits(codes, path + bits, out, k)
    ensures Walk(Build(codes, 257), at, pending, ones, bits) == Some(out)
    decreases |bits|
  {
    var root := Build(codes, 257);
    if bits == [] {
      assert path + bits == path;
      WalkEnds(codes, path, at, pending, ones, out, k);
    } else {
      NextNode(codes, path, at, pending, ones, bits, out, k);
      if out != [] && path + [bits[0]] == codes[out[0]] {
        CodeDone(codes, path, bits, out, k);
        AtRoot(codes);
        assert [] + bits[1..] == bits[1..];
        WalkComplete(codes, [], root, 0, true, bits[1..], out[1..], k);
        assert [out[0]] + out[1..] == out;
      } else {
        StillMidway(codes, path, at, pending, ones, bits[0]);
        assert path + [bits[0]] + bits[1..] == path + bits;
        WalkComplete(codes, path + [bits[0]], Child(at, bits[0]), pending + 1, ones && bits[0], bits[1..], out, k);
      }
    }
  }

  lemma AtRoot(codes: seq<Bits>)
    requires Good(codes)
    ensures Midway(codes, [], Build(codes, 257), 0, true)
  {
    NoEmptyCode(codes);
  }

  lemma StillMidway(codes: seq<Bits>, path: Bits, at: Trie, pending: nat, ones: bool, bit: bool)
    requires Good(codes) && Midway(codes, path, at, pending, ones)
    requires Child(at, bit).Node? && Child(at, bit).symbol < 0
    ensures Midway(codes, path + [bit], Child(at, bit), pending + 1, ones && bit)
  {
    SubStep(Build(codes, 257), path, bit);
    BuildSub(codes, 257, path + [bit]);
    assert (path + [bit])[|path|] == bit;
    assert forall i :: 0 <= i < |path| ==> (path + [bit])[i] == path[i];
  }

  /** On a coded string the next node exists, and carries the next symbol when
      the code is complete. */
  lemma NextNode(codes: seq<Bits>, path: Bits, at: Trie, pending: nat, ones: bool, bits: Bits, out: Text, k: nat)
    requires Good(codes) && Midway(codes, path, at, pending, ones) && bits != []
    requires Splits(codes, path + bits, out, k)
    ensures var n := Child(at, bits[0]);
            && n.Node?
            && (out != [] && path + [bits[0]] == codes[out[0]] ==> n.symbol == out[0])
            && (!(out != [] && path + [bits[0]] == codes[out[0]]) ==> n.symbol < 0)
  {
    var root := Build(codes, 257);
    var whole := path + bits;
    var next := path + [bits[0]];
    assert next <= whole;
    SubStep(root, path, bits[0]);
    BuildSub(codes, 257, next);
    if out == [] {
      assert whole == Ones(k);
      assert next == Ones(|next|) && next <= codes[EOS];
      UnfinishedCode(codes, next, EOS);
    } else {
      var c := codes[out[0]];
      assert c <= whole;
      NothingPassed(codes, path, at, pending, ones, out[0]);
      assert |c| > |path| by {
        if |c| <= |path| {
          PrefixesCompare(c, path, whole);
        }
      }
      PrefixesCompare(next, c, whole);
      if next != c {
        UnfinishedCode(codes, next, out[0]);
      }
    }
  }

  /** A proper prefix of a code is an inner node. */
  lemma UnfinishedCode(codes: seq<Bits>, path: Bits, i: nat)
    requires Good(codes) && i < 257 && path < codes[i]
    ensures Sub(Build(codes, 257), path).Node? && Sub(Build(codes, 257), path).symbol < 0
  {
    BuildSub(codes, 257, path);
    forall s | 0 <= s < 257
      ensures codes[s] != path
    {
      assert s != i ==> !(codes[s] <= codes[i]);
    }
  }

  /** A node with a symbol is the end of its code. */
  lemma {:induction false} SymbolEnds(codes: seq<Bits>, path: Bits, at: Trie, pending: nat, ones: bool, bit: bool)
    requires Good(codes) && Midway(codes, path, at, pending, ones)
    requires Child(at, bit).Node? && 0 <= Child(at, bit).symbol < 256
    ensures path + [bit] == codes[Child(at, bit).symbol]
  {
    SubStep(Build(codes, 257), path, bit);
    BuildSub(codes, 257, path + [bit]);
  }

  /** One more code in front. */
  lemma {:induction false} CodeBefore(codes: seq<Bits>, symbol: byte, bits: Bits, tail: Text, k: nat)
    requires |codes| == 257 && Splits(codes, bits, tail, k)
    ensures Splits(codes, codes[symbol] + bits, [symbol] + tail, k)
  {
    assert ([symbol] + tail)[1..] == tail;
    Associate(codes[symbol], Code(codes, tail), Ones(k));
  }

  /** Whatever is accepted is the code of the result, then up to seven ones. */
  lemma {:induction false} WalkSound(codes: seq<Bits>, path: Bits, at: Trie, pending: nat, ones: bool,
                                     bits: Bits) returns (k: nat)
    requires Good(codes) && Midway(codes, path, at, pending, ones)
    requires Walk(Build(codes, 257), at, pending, ones, bits).Some?
    ensures Splits(codes, path + bits, Walk(Build(codes, 257), at, pending, ones, bits).value, k)
    decreases |bits|
  {
    var root := Build(codes, 257);
    if bits == [] {
      k := |path|;
      assert path + bits == Code(codes, []) + Ones(k);
    } else {
      var n := Child(at, bits[0]);
      assert path + bits == path + [bits[0]] + bits[1..];
      if n.symbol >= 0 {
        SymbolEnds(codes, path, at, pending, ones, bits[0]);
        AtRoot(codes);
        k := WalkSound(codes, [], root, 0, true, bits[1..]);
        assert [] + bits[1..] == bits[1..];
        CodeBefore(codes, n.symbol, bits[1..], Walk(root, root, 0, true, bits[1..]).value, k);
      } else {
        StillMidway(codes, path, at, pending, ones, bits[0]);
        k := WalkSound(codes, path + [bits[0]], n, pending + 1, ones && bits[0], bits[1..]);
      }
    }
  }

  // ---------------------------------------------------------------------
  // Octets and bits, most significant bit first
  // ---------------------------------------------------------------------

  /** The low n bits of v; bit i is `(v >> (n - 1 - i)) & 1`. */
  function LowBits(v: nat, n: nat): (r: Bits)
    ensures |r| == n
  {
    if n == 0 then [] else LowBits(v / 2, n - 1) + [v % 2 == 1]
  }

  function Number(r: Bits): nat {
    if r == [] then 0 else 2 * Number(r[..|r| - 1]) + (if r[|r| - 1] then 1 else 0)
  }

  function Span(n: nat): nat { if n == 0 then 1 else 2 * Span(n - 1) }

  lemma {:induction false} LowBitsInverse(v: nat, n: nat)
    requires v < Span(n)
    ensures Number(LowBits(v, n)) == v
  {
    if n > 0 {
      LowBitsInverse(v / 2, n - 1);
      assert LowBits(v, n)[..n - 1] == LowBits(v / 2, n - 1);
    }
  }

  lemma {:induction false} NumberInverse(r: Bits)
    ensures Number(r) < Span(|r|) && LowBits(Number(r), |r|) == r
  {
    if r != [] {
      var front := r[..|r| - 1];
      NumberInverse(front);
      assert Number(r) / 2 == Number(front);
      assert r == front + [r[|r| - 1]];
    }
  }

  function ByteBits(b: byte): (r: Bits)
    ensures |r| == 8
  {
    LowBits(b, 8)
  }

  function ByteOf(r: Bits): byte
    requires |r| == 8
  {
    NumberInverse(r);
    assert Span(8) == 256;
    Number(r)
  }

  function BitsOf(raw: Text): (r: Bits)
    ensures |r| == 8 * |raw|
  {
    if raw == [] then [] else ByteBits(raw[0]) + BitsOf(raw[1..])
  }

  function Pack(bits: Bits): Text
    requires |bits| % 8 == 0
  {
    if bits == [] then [] else [ByteOf(bits[..8])] + Pack(bits[8..])
  }

  lemma {:induction false} PackInverse(bits: Bits)
    requires |bits| % 8 == 0
    ensures BitsOf(Pack(bits)) == bits
  {
    if bits != [] {
      NumberInverse(bits[..8]);
      PackInverse(bits[8..]);
      assert bits == bits[..8] + bits[8..];
      assert Pack(bits)[1..] == Pack(bits[8..]);
    }
  }

  lemma {:induction false} BitsOfInverse(raw: Text)
    ensures Pack(BitsOf(raw)) == raw
  {
    if raw != [] {
      assert Span(8) == 256;
      LowBitsInverse(raw[0], 8);
      BitsOfInverse(raw[1..]);
      var bits := BitsOf(raw);
      assert bits[..8] == ByteBits(raw[0]) && bits[8..] == BitsOf(raw[1..]);
    }
  }

  // ---------------------------------------------------------------------
  // Coded strings
  // ---------------------------------------------------------------------

  function Padding(n: nat): nat { (8 - n % 8) % 8 }

  lemma PaddingUnique(n: nat, k: nat, octets: nat)
    requires k <= 7 && n + k == 8 * octets
    ensures k == Padding(n)
  {
  }

  lemma Padded(n: nat)
    ensures (n + Padding(n)) % 8 == 0 && Padding(n) <= 7
  {
  }

  function Encode(codes: seq<Bits>, text: Text): Text
    requires |codes| == 257
  {
    var bits := Code(codes, text);
    Padded(|bits|);
    Pack(bits + Ones(Padding(|bits|)))
  }

  function Decode(codes: seq<Bits>, raw: Text): Option<Text>
    requires |codes| == 257
  {
    var root := Build(codes, 257);
    Walk(root, root, 0, true, BitsOf(raw))
  }

  /** A coded string is accepted as `text` exactly when it is the one coding of
      `text`: codes in order, padded with ones to the octet boundary. */
  lemma DecodeIffEncoded(codes: seq<Bits>, raw: Text, text: Text)
    requires Good(codes)
    ensures Decode(codes, raw) == Some(text) <==> raw == Encode(codes, text)
  {
    var root := Build(codes, 257);
    AtRoot(codes);
    if raw == Encode(codes, text) {
      var bits := Code(codes, text);
      Padded(|bits|);
      PackInverse(bits + Ones(Padding(|bits|)));
      assert [] + BitsOf(raw) == BitsOf(raw);
      WalkComplete(codes, [], root, 0, true, BitsOf(raw), text, Padding(|bits|));
    }
    if Decode(codes, raw) == Some(text) {
      var k := WalkSound(codes, [], root, 0, true, BitsOf(raw));
      assert [] + BitsOf(raw) == BitsOf(raw);
      assert |BitsOf(raw)| == |Code(codes, text)| + k;
      PaddingUnique(|Code(codes, text)|, k, |raw|);
      BitsOfInverse(raw);
    }
  }

  // ---------------------------------------------------------------------
  // The loops of hp_string
  // ---------------------------------------------------------------------

  /** Where the walk stands between two bits. */
  datatype Cursor = Cursor(ok: bool, at: Trie, pending: nat, ones: bool, out: Text)

  /** The result of finishing the walk from `c` over `bits`. */
  function Finish(root: Trie, c: Cursor, bits: Bits): Option<Text> {
    if c.ok then Prepend(c.out, Walk(root, c.at, c.pending, c.ones, bits)) else None
  }

  lemma PrependTwice(a: Text, b: Text, r: Option<Text>)
    ensures Prepend(a, Prepend(b, r)) == Prepend(a + b, r)
  {
    if r.Some? {
      assert a + (b + r.value) == a + b + r.value;
    }
  }

  method WalkByte(root: Trie, start: Cursor, b: byte, ghost rest: Bits) returns (c: Cursor)
    requires start.ok
    ensures Finish(root, start, ByteBits(b) + rest) == Finish(root, c, rest)
  {
    c := start;
    var bits := ByteBits(b);
    var i := 0;
    assert bits[0..] == bits;
    while i < 8 && c.ok
      invariant i <= 8
      invariant Finish(root, start, bits + rest) == Finish(root, c, bits[i..] + rest)
    {
      ghost var left := bits[i..] + rest;
      assert left[0] == bits[i] && left[1..] == bits[i + 1..] + rest;
      var n := Child(c.at, bits[i]);
      if n.Nil? || n.symbol >= 256 {
        c := c.(ok := false);
      } else if n.symbol >= 0 {
        PrependTwice(c.out, [n.symbol], Walk(root, root, 0, true, left[1..]));
        c := Cursor(true, root, 0, true, c.out + [n.symbol]);
      } else {
        c := Cursor(true, n, c.pending + 1, c.ones && bits[i], c.out);
      }
      i := i + 1;
    }
    assert c.ok ==> bits[8..] + rest == rest;
  }

  /** The inflating loop of `hp_string`. */
  method Inflate(codes: seq<Bits>, raw: Text) returns (r: Option<Text>)
    requires |codes| == 257
    ensures r == Decode(codes, raw)
  {
    var root := Build(codes, 257);
    var c := Cursor(true, root, 0, true, []);
    var i := 0;
    assert raw[0..] == raw;
    assert Decode(codes, raw) == Finish(root, c, BitsOf(raw)) by {
      var all := Walk(root, root, 0, true, BitsOf(raw));
      assert all.Some? ==> [] + all.value == all.value;
    }
    while i < |raw| && c.ok
      invariant i <= |raw|
      invariant Decode(codes, raw) == Finish(root, c, BitsOf(raw[i..]))
    {
      assert raw[i..][1..] == raw[i + 1..];
      c := WalkByte(root, c, raw[i], BitsOf(raw[i + 1..]));
      i := i + 1;
    }
    assert c.ok ==> raw[i..] == [] && c.out + [] == c.out;
    if c.ok && (c.pending == 0 || (c.pending <= 7 && c.ones)) {
      r := Some(c.out);
    } else {
      r := None;
    }
  }
}
