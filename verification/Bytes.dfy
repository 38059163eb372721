/** Little-endian numbers in byte buffers. */
module Bytes {
  import opened Words

  type byte = x: int | 0 <= x < 256

  function Zeros(n: nat): (r: seq<byte>)
    ensures |r| == n
  {
    seq(n, i => 0)
  }

  function Get32(m: seq<byte>, at: nat): (r: int)
    requires at + 4 <= |m|
    ensures 0 <= r < 0x1_0000_0000
  {
    var b0: int, b1: int, b2: int, b3: int := m[at], m[at + 1], m[at + 2], m[at + 3];
    b0 + 0x100 * b1 + 0x1_0000 * b2 + 0x100_0000 * b3
  }

  function Put32(m: seq<byte>, at: nat, t: int): (r: seq<byte>)
    requires at + 4 <= |m| && 0 <= t < 0x1_0000_0000
    ensures |r| == |m| && forall k :: 0 <= k < |m| && !(at <= k < at + 4) ==> r[k] == m[k]
  {
    m[at := t % 0x100][at + 1 := (t / 0x100) % 0x100][at + 2 := (t / 0x1_0000) % 0x100][at + 3 := t / 0x100_0000]
  }

  lemma PutGet(m: seq<byte>, at: nat, t: int)
    requires at + 4 <= |m| && 0 <= t < 0x1_0000_0000
    ensures Get32(Put32(m, at, t), at) == t
  {
    Bytes4(t);
    var b0, b1, b2, b3 := t % 0x100, (t / 0x100) % 0x100, (t / 0x1_0000) % 0x100, t / 0x100_0000;
    var r := Put32(m, at, t);
    assert r[at] == b0 && r[at + 1] == b1 && r[at + 2] == b2 && r[at + 3] == b3;
  }

  lemma Bytes4(t: int)
    requires 0 <= t < 0x1_0000_0000
    ensures t % 0x100 + 0x100 * ((t / 0x100) % 0x100) + 0x1_0000 * ((t / 0x1_0000) % 0x100) + 0x100_0000 * (t / 0x100_0000) == t
  {
    var q1, q2, q3 := t / 0x100, t / 0x1_0000, t / 0x100_0000;
    DivUnique(t, 0x1_0000, q1 / 0x100, (q1 % 0x100) * 0x100 + t % 0x100);
    DivUnique(t, 0x100_0000, q2 / 0x100, (q2 % 0x100) * 0x1_0000 + t % 0x1_0000);
  }

  /** The four bytes of t. */
  function Le32(t: int): (r: seq<byte>)
    requires 0 <= t < 0x1_0000_0000
    ensures |r| == 4
  {
    [t % 0x100, (t / 0x100) % 0x100, (t / 0x1_0000) % 0x100, t / 0x100_0000]
  }

  lemma Le32Get(t: int, m: seq<byte>, at: nat)
    requires 0 <= t < 0x1_0000_0000 && at + 4 <= |m| && m[at..at + 4] == Le32(t)
    ensures Get32(m, at) == t
  {
    Bytes4(t);
    var b := m[at..at + 4];
    assert b[0] == m[at] && b[1] == m[at + 1] && b[2] == m[at + 2] && b[3] == m[at + 3];
  }

  /** The lowest byte comes first, in what is read and in what is written. */
  lemma LowestFirst(m: seq<byte>, at: nat, t: int)
    requires at + 4 <= |m| && 0 <= t < 0x1_0000_0000
    ensures var r := Get32(m, at); m[at] == r % 0x100 && m[at + 1] == r / 0x100 % 0x100 && m[at + 2] == r / 0x1_0000 % 0x100 && m[at + 3] == r / 0x100_0000
    ensures var b := Le32(t); b[0] == t % 0x100 && b[1] == t / 0x100 % 0x100 && b[2] == t / 0x1_0000 % 0x100 && b[3] == t / 0x100_0000
  {
    var b0: int, b1: int, b2: int, b3: int := m[at], m[at + 1], m[at + 2], m[at + 3];
    var r := Get32(m, at);
    DivUnique(r, 0x100, b1 + 0x100 * b2 + 0x1_0000 * b3, b0);
    DivUnique(r, 0x1_0000, b2 + 0x100 * b3, b0 + 0x100 * b1);
    DivUnique(r, 0x100_0000, b3, b0 + 0x100 * b1 + 0x1_0000 * b2);
    DivUnique(b1 + 0x100 * b2 + 0x1_0000 * b3, 0x100, b2 + 0x100 * b3, b1);
    DivUnique(b2 + 0x100 * b3, 0x100, b3, b2);
  }

  /** A slice of a slice. */
  lemma SubSlice<T>(b: seq<T>, lo: nat, hi: nat, i: nat, j: nat)
    requires lo <= hi <= |b| && i <= j <= hi - lo
    ensures b[lo..hi][i..j] == b[lo + i..lo + j]
  {
    var x, y := b[lo..hi][i..j], b[lo + i..lo + j];
    forall k | 0 <= k < j - i
      ensures x[k] == y[k]
    {
      assert x[k] == b[lo..hi][i + k] == b[lo + (i + k)];
    }
  }
}
