/** Octets, octet strings and the two result shapes every decoder here uses: a value
    that may be missing, and a value with the input behind it. Also the few facts about
    sequences that the other modules share, and removal by moving the last element into
    the gap, which is how the source's tables forget an entry. */
module Bytes {

  type byte = x: int | 0 <= x < 256

  type Text = seq<byte>

  /** A value, or the source's null pointer. */
  datatype Option<+T> = None | Some(value: T)

  /** What a decoder that advances a cursor gives back: the value and the input
      that is left, or the source's `-1`. */
  datatype Parsed<+T> = Bad | Got(value: T, rest: Text)

  const U32: nat := 0x1_0000_0000
  const U64: nat := 0x1_0000_0000_0000_0000

  /** The octets of an ASCII literal. */
  function Ascii(s: string): (t: Text)
    ensures |t| == |s|
  {
    seq(|s|, i requires 0 <= i < |s| => s[i] as int % 256)
  }

  /** C strings: what a NUL-terminated copy can hold. */
  type CStr = s: Text | 0 !in s

  /** A cursor-moving reader did what the decoding function says. */
  ghost predicate Agrees<T>(r: Parsed<T>, ok: bool, value: T, rest: Text) {
    (ok <==> r.Got?) && (ok ==> r == Got(value, rest))
  }

  /** Concatenation is associative. */
  lemma Associate<T>(a: seq<T>, b: seq<T>, c: seq<T>)
    ensures a + b + c == a + (b + c)
  {
  }

  lemma FrontAndLast<T>(s: seq<T>)
    requires s != []
    ensures s[..|s| - 1] + [s[|s| - 1]] == s
  {
  }

  function Flatten(parts: seq<Text>): Text {
    if parts == [] then [] else parts[0] + Flatten(parts[1..])
  }

  /** Removal by moving the last element into the gap. */
  function SwapRemove<T>(xs: seq<T>, i: nat): (r: seq<T>)
    requires i < |xs|
    ensures |r| == |xs| - 1
    ensures forall j :: 0 <= j < |r| ==> r[j] == xs[if j == i then |xs| - 1 else j]
  {
    if i + 1 < |xs| then xs[i := xs[|xs| - 1]][..|xs| - 1] else xs[..|xs| - 1]
  }
}
