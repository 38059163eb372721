/** Growing the heap by one object, and what a header says about its object. */
module Tiling {
  import opened Words
  import opened Heap

  /** The header word the allocators write (web/mvm.js:556, 1306):
      `((count << 8) | subtag) | 0` and `Math.floor(count / 16777216) | 0`. */
  function Header(count: int, subtag: nat): Word
    requires subtag < 256
  {
    Word(ToInt32(count * 256 + subtag), ToInt32(count / 0x100_0000))
  }

  /** A header is count * 256 + subtag, in two halves. */
  lemma HeaderIs(count: nat, subtag: nat)
    requires subtag < 256 && count < 0x20_0000_0000_0000
    ensures U32(Header(count, subtag).lo) + Header(count, subtag).hi * 0x1_0000_0000 == count * 256 + subtag
  {
    var q, x := count / 0x100_0000, count * 256 + subtag;
    assert x == q * 0x1_0000_0000 + ((count % 0x100_0000) * 256 + subtag);
    var low := (count % 0x100_0000) * 256 + subtag;
    LowHalf(x, low, q);
    RoundTrip(low);
    hide ToInt32, U32;
    assert q < 0x2000_0000;
    ToInt32Small(q);
  }

  lemma ToInt32Small(q: int)
    requires 0 <= q < 0x8000_0000
    ensures ToInt32(q) == q
  {
  }

  predicate Quarters(q: seq<int>) {
    |q| == 4 && forall i :: 0 <= i < 4 ==> 0 <= q[i] < 0x1_0000
  }

  /** The k-th word of a float box (web/mvm.js:567-575). */
  function FloatWord(subtag: nat, q: seq<int>, k: int): Word
    requires subtag < 256 && Quarters(q) && 0 <= k < 6
  {
    if k == 0 then Header(4, subtag) else if k == 1 then Word(0, 0) else Word(2 * q[k - 2], 0)
  }

  /** An object size that 32-bit rounding does not disturb. */
  predicate SmallCount(count: int) {
    0 <= count < 0x0FFF_FFFC
  }

  /** `copy` reads back the size the allocator reserved. */
  lemma HeaderSize(count: nat, subtag: nat)
    requires SmallCount(count) && subtag < 256
    ensures SizeOf(Header(count, subtag)) == if subtag == 0x11 then Align16(16 + count) else Align16((count + 2) * 8)
    ensures Header(count, subtag).lo % 16 == subtag % 16
  {
    var q, r := count / 0x100_0000, count % 0x100_0000;
    assert q < 16;
    var low := r * 256 + subtag;
    var lo := ToInt32(low);
    RoundTrip(low);
    LowHalf(count * 256 + subtag, low, q);
    assert ToInt32(q) == q;
    Digits256(low, r, subtag);
    Digits256(lo, if lo < 0 then r - 0x100_0000 else r, subtag);
    assert U32(lo) == low;
    hide Align16, ToInt32, U32;
    assert count == low / 256 + q * 0x100_0000;
  }

  lemma Digits256(x: int, r: int, subtag: nat)
    requires x == r * 256 + subtag && subtag < 256
    ensures x / 256 == r && x % 256 == subtag && x % 16 == subtag % 16
  {
  }

  lemma {:induction false} LowHalf(x: nat, low: nat, q: nat)
    requires low < 0x1_0000_0000 && x == low + q * 0x1_0000_0000
    ensures ToInt32(x) == ToInt32(low)
    decreases q
  {
    if q > 0 {
      LowHalf(x - 0x1_0000_0000, low, q - 1);
    }
  }

  lemma AlignedSize(n: int)
    ensures On16(Align16(n)) && Align16(n) == 8 * (Align16(n) / 8) && (Align16(n) / 8) % 2 == 0
  {
    Truncated(ToInt32(n + 15));
    Eighths(Align16(n));
  }

  lemma Rounded(n: int)
    requires 0 <= n < 0x7FFF_FFF0
    ensures On16(Align16(n)) && n <= Align16(n) < n + 16
    ensures Align16(n) == 8 * (Align16(n) / 8) && (Align16(n) / 8) % 2 == 0
  {
    Truncated(ToInt32(n + 15));
    Eighths(Align16(n));
  }

  /** A header can be mistaken for a pointer only if its low nibble is a
      pointer tag and count * 256 is an address in the heap. */
  lemma SmallHeaderSafe(count: nat, subtag: nat)
    requires subtag < 256
    requires count < 0x13_C004 || (SmallCount(count) && subtag % 16 != 1 && subtag % 16 != 9)
    ensures Snap.HeaderSafe(Header(count, subtag))
  {
    if count < 0x13_C004 {
      assert count * 256 + subtag < 0x13C0_0400;
    } else {
      HeaderSize(count, subtag);
    }
  }

  /** A header of 2^23 elements or more has a negative low half or a high half. */
  lemma LargeHeader(count: int, subtag: nat)
    requires 0x80_0000 <= count < 0x20_0000_0000_0000 && subtag < 256
    ensures Header(count, subtag).hi != 0 || Header(count, subtag).lo < 0
  {
    if count >= 0x100_0000 {
      assert 1 <= count / 0x100_0000 < 0x2000_0000;
    } else {
      RoundTrip(count * 256 + subtag);
    }
  }

  /** Exactly when the collector takes the header of an object for a pointer:
      byte vectors (0x11) and strings (0x31) carry the cons tag, so a count of
      0x13C004 or more aliases a heap address, and a cons there is enough. */
  lemma HeaderMistaken(s: Snap, count: nat, subtag: nat)
    requires s.Sized() && count < 0x20_0000_0000_0000 && (subtag == 0x11 || subtag == 0x31)
    ensures var i := Ix(count * 256 + subtag - 1);
      && (s.IsRef(Header(count, subtag)) <==> s.ObjAt(i) && s.ConsAt(i))
      && (s.IsRef(Header(count, subtag)) ==> count >= 0x13_C004)
  {
    var h := Header(count, subtag);
    if count < 0x80_0000 {
      assert h == Word(count * 256 + subtag, 0);
      assert h.lo % 16 == 1;
      assert Target(h) == Ix(count * 256 + subtag - 1);
    } else {
      assert !s.ObjAt(Ix(count * 256 + subtag - 1));
      LargeHeader(count, subtag);
    }
  }

  /** State t is state s with one more object, of n words, at end. */
  ghost predicate Grown(s: Snap, t: Snap, end: int, n: int) {
    && s.Sized() && t.Sized() && |t.m| == |s.m| && s.len == Lengths(s.m) && t.len == Lengths(t.m)
    && t.fs == s.fs && t.fe == s.fe && t.ts == s.ts && t.te == s.te
    && s.fs <= end && 2 <= n && end + n <= s.fe
    && (forall i :: s.fs <= i < end ==> t.m[i] == s.m[i])
    && (forall i :: 0 <= i < |s.m| ==> t.st[i] == (s.st[i] || i == end))
    && (forall i :: 0 <= i < |s.m| && i != end ==> t.co[i] == s.co[i])
    && t.ObjWords(end) == n && t.m[end].lo % 16 != 15
    && (t.ConsAt(end) || Snap.HeaderSafe(t.m[end]))
  }

  lemma PlacedGrown(s: Snap, t: Snap, end: int, n: int, isCons: bool)
    requires s.HeapOk(end) && t.Sized() && |t.m| == |s.m| && s.len == Lengths(s.m) && t.len == Lengths(t.m)
    requires t.fs == s.fs && t.fe == s.fe && t.ts == s.ts && t.te == s.te
    requires 2 <= n && end + n <= s.fe && (isCons ==> n == 2)
    requires forall i :: 0 <= i < end ==> t.m[i] == s.m[i]
    requires t.st == s.st[end := true] && t.co == if isCons then s.co[end := true] else s.co
    requires t.m[end].lo % 16 != 15
    requires !isCons ==> Snap.HeaderSafe(t.m[end]) && SizeOf(t.m[end]) == 8 * n
    ensures Grown(s, t, end, n)
  {
    hide Snap.Tiles;
    assert t.len[end] == SizeOf(t.m[end]) / 8;
    hide SizeOf;
  }

  lemma {:induction false} TilesGrow(s: Snap, t: Snap, i: int, end: int, n: int)
    requires Grown(s, t, end, n) && s.fs <= i <= end && s.Tiles(i, end)
    requires forall k :: end <= k < s.fe ==> !s.st[k] && !s.co[k]
    ensures t.Tiles(i, end + n)
    decreases end - i
  {
    if i == end {
      assert t.GoodObj(end, end + n);
      assert t.Tiles(end + n, end + n);
    } else {
      GoodGrow(s, t, i, end, n);
      TilesGrow(s, t, i + s.ObjWords(i), end, n);
    }
  }

  lemma GoodGrow(s: Snap, t: Snap, i: int, end: int, n: int)
    requires Grown(s, t, end, n) && s.fs <= i < end && s.GoodObj(i, end)
    ensures t.GoodObj(i, end + n) && t.ObjWords(i) == s.ObjWords(i)
  {
  }

  /** Allocation keeps the heap invariant. */
  lemma HeapGrows(s: Snap, t: Snap, end: int, n: int)
    requires s.HeapOk(end) && Grown(s, t, end, n)
    ensures t.HeapOk(end + n)
  {
    TilesGrow(s, t, s.fs, end, n);
  }

  /** Storing into a field keeps the heap invariant: any word that is not a
      header, and in the car of a cons no word with the forwarding nibble. */
  lemma StoreKeeps(s: Snap, t: Snap, end: int, x: int, w: Word)
    requires s.HeapOk(end) && s.len == Lengths(s.m) && t.len == Lengths(t.m)
    requires 0 <= x < |s.m| && t == s.(m := s.m[x := w], len := t.len)
    requires s.InFrom(x) && s.st[x] ==> s.co[x] && w.lo % 16 != 15
    ensures t.HeapOk(end)
  {
    TilesStore(s, t, s.fs, end, x, w);
  }

  lemma GoodStore(s: Snap, t: Snap, i: int, end: int, x: int, w: Word)
    requires s.Sized() && t.Sized() && s.fs <= i && end <= s.fe && s.GoodObj(i, end)
    requires s.len == Lengths(s.m) && t.len == Lengths(t.m)
    requires 0 <= x < |s.m| && t == s.(m := s.m[x := w], len := t.len)
    requires s.InFrom(x) && s.st[x] ==> s.co[x] && w.lo % 16 != 15
    ensures t.GoodObj(i, end) && t.ObjWords(i) == s.ObjWords(i)
  {
    hide SizeOf;
  }

  lemma {:induction false} TilesStore(s: Snap, t: Snap, i: int, end: int, x: int, w: Word)
    requires s.Sized() && t.Sized() && s.fs <= i && end <= s.fe && s.Tiles(i, end)
    requires s.len == Lengths(s.m) && t.len == Lengths(t.m)
    requires 0 <= x < |s.m| && t == s.(m := s.m[x := w], len := t.len)
    requires s.InFrom(x) && s.st[x] ==> s.co[x] && w.lo % 16 != 15
    ensures t.Tiles(i, end)
    decreases end - i
  {
    if i < end {
      GoodStore(s, t, i, end, x, w);
      hide Snap.GoodObj, Lengths;
      TilesStore(s, t, i + s.ObjWords(i), end, x, w);
    }
  }

  // ---- the size-aware checks (web/mvm.js:1171-1184) ------------------------------

  /** Bytes tested by opcode 0x8D: c is the low half of the count register.
      Kind 0 counts words and is untagged; kind 1 counts bytes and is tagged. */
  function TestedBytes(kind: int, c: int): int {
    (if kind == 0 then c * 8 else c / 2) + 32
  }

  /** What a check that tests n bytes guarantees: VA and VL are 16-aligned, so
      exactly the objects of at most n bytes, rounded up past n to whole
      granules, end at or below VL behind every check that passes. */
  lemma CheckExact(n: int, va: int, vl: int)
    requires On16(va) && On16(vl)
    ensures va + n < vl <==> va + (n - n % 16 + 16) <= vl
  {
  }

  /** The operand the compiler gives opcode 0x8C (mvm/compiler.lisp:2227-2231). */
  function CompiledBytes(count: int): int {
    ((count + 2) * 8 + 15) / 16 * 16
  }

  /** It is exactly what the object takes, for every count an operand can hold. */
  lemma ConstCheckCovers(count: int)
    requires 0 <= count < 0x1_0000
    ensures CompiledBytes(count) == Align16((count + 2) * 8)
  {
  }

  /** `align16` of a size that may have left 32-bit range. */
  lemma RoundedWraps(n: int) returns (k: int)
    ensures Align16(n) == (n + 15 - k * 0x1_0000_0000) - (n + 15) % 16
    ensures -0x8000_0000 <= n + 15 - k * 0x1_0000_0000 < 0x8000_0000
  {
    k := ToInt32Multiple(n + 15);
    var x := ToInt32(n + 15);
    assert x % 16 == (n + 15) % 16 by {
      assert n + 15 == x + 16 * (k * 0x1000_0000);
      SameMod16(x, n + 15, k * 0x1000_0000);
    }
  }

  lemma SameMod16(x: int, y: int, k: int)
    requires y == x + 16 * k
    ensures x % 16 == y % 16
  {
  }

  /** Word counts: the bytes tested bound the bytes `bump` is given exactly
      when the count register's low half is at least -(2^28 + 3); below that,
      `align16` wraps upwards. */
  lemma WordCheckCovers(c: int32)
    ensures Align16((c + 2) * 8) <= TestedBytes(0, c) <==> c >= -0x1000_0003
  {
    var k := RoundedWraps((c + 2) * 8);
  }

  /** Byte counts: c is the low half of the tagged count 2n.  The bytes tested
      bound the bytes bumped exactly unless the low 32 bits of n are from 2^30
      to 2^31 - 32; from 2^31 - 31 on the bytes bumped no longer hold the vector. */
  lemma ByteCheckCovers(n: nat)
    ensures Align16(16 + n) <= TestedBytes(1, ToInt32(2 * n)) <==> !(0x4000_0000 <= n % 0x1_0000_0000 < 0x7FFF_FFE1)
    ensures 16 + n <= Align16(16 + n) <==> n < 0x7FFF_FFE1
  {
    hide Align16, ToInt32;
    var k := RoundedWraps(16 + n);
    var j := ToInt32Multiple(2 * n);
    ByteBounds(n, k, j);
    ByteWhole(n, k);
  }

  /** k and j count the wraps of the two sizes. */
  lemma ByteBounds(n: nat, k: int, j: int)
    requires -0x8000_0000 <= n + 31 - k * 0x1_0000_0000 < 0x8000_0000 && -0x8000_0000 <= 2 * n - j * 0x1_0000_0000 < 0x8000_0000
    ensures (2 * n - j * 0x1_0000_0000) / 2 == n - j * 0x8000_0000
    ensures (n + 31 - k * 0x1_0000_0000) - (n + 31) % 16 <= n - j * 0x8000_0000 + 32 <==> !(0x4000_0000 <= n % 0x1_0000_0000 < 0x7FFF_FFE1)
  {
    var q, l := n / 0x1_0000_0000, n % 0x1_0000_0000;
    assert n == q * 0x1_0000_0000 + l;
    assert k - q == if l < 0x7FFF_FFE1 then 0 else 1;
    assert j - 2 * q == if l < 0x4000_0000 then 0 else if l < 0xC000_0000 then 1 else 2;
  }

  lemma ByteWhole(n: nat, k: int)
    requires -0x8000_0000 <= n + 31 - k * 0x1_0000_0000 < 0x8000_0000
    ensures 16 + n <= (n + 31 - k * 0x1_0000_0000) - (n + 31) % 16 <==> n < 0x7FFF_FFE1
  {
    assert k == 0 <==> n < 0x7FFF_FFE1;
  }
}
