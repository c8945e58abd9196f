/**
 * Bytes, the 32-bit little-endian length field of a data frame, JavaScript's
 * clamping `slice`, and the concatenation of a sequence of byte blocks
 * (what `new Blob(chunks)` assembles).
 */
module Bytes {

  type byte = x: int | 0 <= x < 256

  const TWO_31: int := 0x8000_0000
  const TWO_32: int := 0x1_0000_0000

  /** `DataView.setInt32(0, n, true)`: n modulo 2^32, least significant byte first. */
  function Int32LE(n: int): (r: seq<byte>)
    ensures |r| == 4
  {
    var u := n % TWO_32;
    var q1 := u / 256;
    var q2 := q1 / 256;
    var q3 := q2 / 256;
    [u % 256, q1 % 256, q2 % 256, q3]
  }

  /** `DataView.getInt32(0, true)`: the first four bytes read as a two's-complement little-endian integer. */
  function ReadInt32LE(b: seq<byte>): (n: int)
    requires |b| >= 4
    ensures -TWO_31 <= n < TWO_31
  {
    var u: int := b[0] as int + 256 * (b[1] as int + 256 * (b[2] as int + 256 * b[3] as int));
    if u >= TWO_31 then u - TWO_32 else u
  }

  /** Writing a 32-bit signed value and reading it back gives the value. */
  lemma Int32RoundTrip(n: int)
    requires -TWO_31 <= n < TWO_31
    ensures ReadInt32LE(Int32LE(n) + []) == n
    ensures forall tail: seq<byte> {:trigger Int32LE(n) + tail} :: ReadInt32LE(Int32LE(n) + tail) == n
  {
    var u := n % TWO_32;
    var q1 := u / 256;
    var q2 := q1 / 256;
    var q3 := q2 / 256;
    assert u == u % 256 + 256 * q1;
    assert q1 == q1 % 256 + 256 * q2;
    assert q2 == q2 % 256 + 256 * q3;
    assert u == u % 256 + 256 * (q1 % 256 + 256 * (q2 % 256 + 256 * q3));
  }

  /** Relative index of `TypedArray.prototype.slice`: negative values count from the end; the result is clamped to [0, len]. */
  function RelativeIndex(i: int, len: nat): (r: nat)
    ensures r <= len
    ensures 0 <= i <= len ==> r == i
    ensures -(len as int) <= i < 0 ==> r == len + i
    ensures i > len ==> r == len
    ensures i < -(len as int) ==> r == 0
  {
    if i < 0 then (if len + i < 0 then 0 else len + i)
    else if i > len then len
    else i
  }

  /** `s.slice(start, end)` in JavaScript: empty when the clamped end precedes the clamped start. */
  function Slice<T>(s: seq<T>, start: int, end: int): (r: seq<T>)
    ensures 0 <= start <= end <= |s| ==> r == s[start..end]
    ensures |r| <= |s|
  {
    var a := RelativeIndex(start, |s|);
    var b := RelativeIndex(end, |s|);
    if a <= b then s[a..b] else []
  }

  /** `s.slice(start)` in JavaScript. */
  function SliceFrom<T>(s: seq<T>, start: int): (r: seq<T>)
    ensures 0 <= start <= |s| ==> r == s[start..]
    ensures |r| <= |s|
  {
    s[RelativeIndex(start, |s|)..]
  }

  /** The blocks laid end to end. */
  function Concat<T>(blocks: seq<seq<T>>): (r: seq<T>)
    ensures |r| == TotalLength(blocks)
  {
    if blocks == [] then [] else blocks[0] + Concat(blocks[1..])
  }

  /** The sum of the blocks' lengths. */
  function TotalLength<T>(blocks: seq<seq<T>>): nat
  {
    if blocks == [] then 0 else |blocks[0]| + TotalLength(blocks[1..])
  }

  /** Concatenation distributes over appending blocks. */
  lemma {:induction false} ConcatAppend<T>(a: seq<seq<T>>, b: seq<seq<T>>)
    ensures Concat(a + b) == Concat(a) + Concat(b)
    ensures TotalLength(a + b) == TotalLength(a) + TotalLength(b)
  {
    if a == [] {
      assert a + b == b;
    } else {
      assert (a + b)[1..] == a[1..] + b;
      ConcatAppend(a[1..], b);
    }
  }
}
