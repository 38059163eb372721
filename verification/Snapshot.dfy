/** Snapshots of the running machine (web/mvm.js:311-338, 1683-1717), taken
    after a collection and restored into a machine of the same semispace size.
    Memory is in words here, so ranges begin and end on 8 bytes. */
module Snapshot {
  import opened Bytes
  import opened Cores
  import opened Heap
  import opened JsonText
  import opened Results
  import opened Words
  import Collector

  const POOL := 0x4000               // POOL_ADDR
  const CODE := 0x8_0000             // CODE_ADDR
  const JIT := 0x48_0000             // JIT_ADDR
  const STACK_END := 0x78_0000       // STACK_ADDR + STACK_SIZE

  // ---- words and bits as bytes --------------------------------------------------------

  function WordBytes(w: Word): (r: seq<byte>)
    ensures |r| == 8
  {
    Le32(U32(w.lo)) + Le32(U32(w.hi))
  }

  function ToBytes(ws: seq<Word>): (r: seq<byte>)
    ensures |r| == 8 * |ws|
  {
    if ws == [] then [] else WordBytes(ws[0]) + ToBytes(ws[1..])
  }

  function WordAt(b: seq<byte>): Word
    requires |b| >= 8
  {
    Word(ToInt32(Get32(b, 0)), ToInt32(Get32(b, 4)))
  }

  function FromBytes(b: seq<byte>): (r: seq<Word>)
    requires |b| % 8 == 0
    ensures |r| == |b| / 8
    decreases |b|
  {
    if b == [] then [] else [WordAt(b)] + FromBytes(b[8..])
  }

  lemma HalfAgain(x: int32)
    ensures ToInt32(U32(x)) == x
  {
    Unsigned(x);
    RoundTrip(U32(x));
  }

  lemma {:induction false} WordsAgain(ws: seq<Word>)
    ensures FromBytes(ToBytes(ws)) == ws
  {
    if ws != [] {
      var w, b := ws[0], ToBytes(ws);
      var rest := ToBytes(ws[1..]);
      assert b == WordBytes(w) + rest && b[8..] == rest;
      assert b[0..4] == Le32(U32(w.lo)) && b[4..8] == Le32(U32(w.hi));
      Le32Get(U32(w.lo), b, 0);
      Le32Get(U32(w.hi), b, 4);
      HalfAgain(w.lo);
      HalfAgain(w.hi);
      WordsAgain(ws[1..]);
    }
  }

  /** Bits as a number, the first in the lowest place, and back. */
  function PackBits(b: seq<bool>): (r: nat)
    ensures r < Pow2(|b|)
  {
    if b == [] then 0 else (if b[0] then 1 else 0) + 2 * PackBits(b[1..])
  }

  function UnpackBits(x: nat, n: nat): (r: seq<bool>)
    ensures |r| == n
  {
    if n == 0 then [] else [x % 2 == 1] + UnpackBits(x / 2, n - 1)
  }

  lemma {:induction false} BitsBack(b: seq<bool>)
    ensures UnpackBits(PackBits(b), |b|) == b
  {
    if b != [] {
      BitsBack(b[1..]);
    }
  }

  lemma EightBits()
    ensures Pow2(8) == 256
  {
    assert Pow2(4) == 16;
  }

  /** One byte of a bitmap. */
  function PackByte(b: seq<bool>): (r: byte)
    requires |b| == 8
  {
    EightBits();
    PackBits(b)
  }

  function Pack(b: seq<bool>): (r: seq<byte>)
    requires |b| % 8 == 0
    ensures |r| == |b| / 8
    decreases |b|
  {
    if b == [] then [] else [PackByte(b[..8])] + Pack(b[8..])
  }

  function Unpack(x: seq<byte>): (r: seq<bool>)
    ensures |r| == 8 * |x|
  {
    if x == [] then [] else UnpackBits(x[0], 8) + Unpack(x[1..])
  }

  /** Bit k of a bitmap is bit k % 8 of its byte k / 8, counted from the lowest. */
  lemma {:induction false} BitIn(b: seq<bool>, k: nat)
    requires k < |b|
    ensures (PackBits(b) / Pow2(k)) % 2 == if b[k] then 1 else 0
    decreases |b|
  {
    hide Pow2;
    var x, d := PackBits(b[1..]), if b[0] then 1 else 0;
    assert PackBits(b) == d + 2 * x;
    if k == 0 {
      PowOne();
      FirstBit(x, d);
    } else {
      BitIn(b[1..], k - 1);
      hide PackBits;
      PowNext(k);
      Halves(x, d, Pow2(k - 1));
    }
  }

  lemma FirstBit(x: nat, d: nat)
    requires d < 2
    ensures (d + 2 * x) / 1 % 2 == d
  {
  }

  lemma PowOne()
    ensures Pow2(0) == 1
  {
  }

  lemma PowNext(k: nat)
    requires k > 0
    ensures Pow2(k) == 2 * Pow2(k - 1)
  {
  }

  lemma Halves(x: nat, d: nat, p: nat)
    requires d < 2 && p > 0
    ensures (d + 2 * x) / (2 * p) == x / p
  {
    var q, r := x / p, x % p;
    assert x == p * q + r;
    MulAssoc(2, p, q);
    DivUnique(d + 2 * x, 2 * p, q, d + 2 * r);
  }

  lemma {:induction false} BitOfByte(b: seq<bool>, k: nat)
    requires |b| % 8 == 0 && k < |b|
    ensures (Pack(b)[k / 8] / Pow2(k % 8)) % 2 == if b[k] then 1 else 0
    decreases |b|
  {
    hide Pow2, PackBits;
    if k < 8 {
      BitIn(b[..8], k);
    } else {
      BitOfByte(b[8..], k - 8);
      assert (k - 8) / 8 == k / 8 - 1 && (k - 8) % 8 == k % 8;
    }
  }

  lemma {:induction false} BitsAgain(b: seq<bool>)
    requires |b| % 8 == 0
    ensures Unpack(Pack(b)) == b
    decreases |b|
  {
    hide PackBits, UnpackBits;
    if b != [] {
      BitsBack(b[..8]);
      BitsAgain(b[8..]);
      assert Pack(b)[1..] == Pack(b[8..]);
      assert b == b[..8] + b[8..];
    }
  }

  // ---- taking a snapshot ------------------------------------------------------------------

  /** The word indices of the five saved ranges (1686-1692). */
  function Spans(esp: int, from: int, va: int, pool: nat, mmapNext: int): seq<(int, int)> {
    [(0, BSS_WORDS), (POOL, POOL + pool), (Ix(esp), STACK_END), (Ix(from), Ix(va)), (JIT, Ix(mmapNext))]
  }

  predicate InBounds(s: (int, int), n: nat) {
    0 <= s.0 <= s.1 <= n
  }

  function RangeOf(mem: seq<Word>, s: (int, int)): Range
    requires InBounds(s, |mem|)
  {
    Range(Addr(s.0), ToBytes(mem[s.0..s.1]))
  }

  /** Whole bytes of a bitmap, from that of granule g0 to that of g1. */
  predicate Sliceable(n: int, g0: int, g1: int) {
    0 <= g0 <= g1 && 8 * (g1 / 8 + 1) <= n
  }

  function BitsOf(bits: seq<bool>, g0: int, g1: int): seq<bool>
    requires Sliceable(|bits|, g0, g1)
  {
    bits[8 * (g0 / 8)..8 * (g1 / 8 + 1)]
  }

  /** What snapshot() may assume of its registers: the executable pages end
      below the stack. */
  predicate RestOk(rest: Rest) {
    rest.mmapNext % 8 == 0 && Addr(JIT) <= rest.mmapNext <= Addr(STACK_LOW)
  }

  /** Where the spaces are, in words and granules. */
  lemma Places(m: Collector.Machine)
    requires m.HeapInv()
    ensures var f, h := Ix(m.mem[IX_GC_FROM].lo), m.blocks;
      && 8 < h && m.mem.Length == PAGE_BASE + 0x1F_FF80 + 32 * h && m.startBmp.Length == m.consBmp.Length == 0x10_0000 + 16 * h
      && (f == PAGE_BASE || f == PAGE_BASE + 16 * (h - 8)) && f <= Ix(m.va) <= f + 16 * (h - 8)
    ensures STACK_LOW <= Ix(m.esp) <= STACK_TOP
  {
    hide Spread, Lengths, Ix, Snap.Tiles;
    m.Geometry();
    Collector.Machine.LowerSpace(m.blocks);
    Collector.Machine.UpperSpace(m.blocks);
  }

  lemma SpansFit(m: Collector.Machine, pool: nat, rest: Rest)
    requires m.HeapInv() && POOL + pool <= CODE && RestOk(rest)
    ensures forall s :: s in Spans(m.esp, m.mem[IX_GC_FROM].lo, m.va, pool, rest.mmapNext) ==> InBounds(s, m.mem.Length)
    ensures var f := m.mem[IX_GC_FROM].lo; var g0, g1 := Granule(Ix(f)), Granule(Ix(m.va));
      g0 % 8 == 0 && Sliceable(m.startBmp.Length, g0, g1) && Sliceable(m.consBmp.Length, g0, g1)
  {
    Places(m);
    hide Collector.Machine.HeapInv;
    assert JIT <= Ix(rest.mmapNext) <= STACK_LOW;
    hide Ix;
    GranulesFit(m.blocks, Ix(m.mem[IX_GC_FROM].lo), Ix(m.va));
  }

  lemma GranuleIs(k: int, r: int)
    requires 0 <= r < 2
    ensures Granule(PAGE_BASE + 2 * k + r) == k
  {
  }

  lemma EighthsFit(g: int)
    ensures 8 * (g / 8 + 1) <= g + 8 && (8 * g) % 8 == 0
  {
  }

  lemma GranulesFit(h: int, f: int, v: int)
    requires 8 < h && (f == PAGE_BASE || f == PAGE_BASE + 16 * (h - 8)) && f <= v <= f + 16 * (h - 8)
    ensures Granule(f) % 8 == 0 && Sliceable(0x10_0000 + 16 * h, Granule(f), Granule(v))
  {
    var k, r := (v - PAGE_BASE) / 2, (v - PAGE_BASE) % 2;
    GranuleIs(k, r);
    GranuleIs(0, 0);
    GranuleIs(8 * (h - 8), 0);
    EighthsFit(0);
    EighthsFit(h - 8);
    EighthsFit(k);
    hide Granule;
  }

  /** The core of a machine as it is. */
  ghost function CoreOf(m: Collector.Machine, pool: nat, rest: Rest): Core
    requires m.HeapInv() && POOL + pool <= CODE && RestOk(rest)
    reads m, m.mem, m.startBmp, m.consBmp
  {
    SpansFit(m, pool, rest);
    var f := m.mem[IX_GC_FROM].lo;
    var g0, g1 := Granule(Ix(f)), Granule(Ix(m.va));
    var s := Spans(m.esp, f, m.va, pool, rest.mmapNext);
    CoreFrom(m.Semi(), Regs(m.vrl, m.vrh, m.va, m.vl, m.esp, m.gcCount, rest), m.mem[..], s, g0, g1, m.startBmp[..], m.consBmp[..])
  }

  function CoreFrom(semi: int, regs: Regs, mem: seq<Word>, s: seq<(int, int)>, g0: int, g1: int, st: seq<bool>, co: seq<bool>): Core
    requires (forall x :: x in s ==> InBounds(x, |mem|)) && Sliceable(|st|, g0, g1) && Sliceable(|co|, g0, g1)
  {
    Core(2, semi, regs, seq(|s|, i requires 0 <= i < |s| => RangeOf(mem, s[i])), g0, PackedBits(st, g0, g1), PackedBits(co, g0, g1))
  }

  function PackedBits(bits: seq<bool>, g0: int, g1: int): seq<byte>
    requires Sliceable(|bits|, g0, g1)
  {
    Eightfold(g0, g1);
    Pack(BitsOf(bits, g0, g1))
  }

  lemma Eightfold(g0: int, g1: int)
    ensures (8 * (g1 / 8 + 1) - 8 * (g0 / 8)) % 8 == 0
  {
    var k := g1 / 8 + 1 - g0 / 8;
    assert (8 * k) % 8 == 0;
  }

  /** What a core says of its machine: version 2, the registers, the BSS, the
      pool, the stack from esp, the used heap and the executable pages at their
      addresses, and the granule at which its bits begin. */
  lemma CoreIs(m: Collector.Machine, pool: nat, rest: Rest)
    requires m.HeapInv() && POOL + pool <= CODE && RestOk(rest)
    ensures var c, from := CoreOf(m, pool, rest), m.mem[8].lo;
      && c.version == 2 && c.semi == 128 * m.blocks && c.regs == Regs(m.vrl, m.vrh, m.va, m.vl, m.esp, m.gcCount, rest)
      && |c.ranges| == 5 && c.g0 == (from - 0x13C0_0400) / 16
      && c.ranges[0].addr == 0x1000_0000 && |c.ranges[0].bytes| == 0x2_0000
      && c.ranges[1].addr == 0x1002_0000 && |c.ranges[1].bytes| == 8 * pool
      && c.ranges[2].addr == m.esp && |c.ranges[2].bytes| == 0x13C0_0000 - m.esp
      && c.ranges[3].addr == from && |c.ranges[3].bytes| == m.va - from
      && c.ranges[4].addr == 0x1240_0000 && |c.ranges[4].bytes| == rest.mmapNext - 0x1240_0000
  {
    hide ToBytes, Pack, Snap.Tiles, Spread, Lengths;
    SpansFit(m, pool, rest);
    m.Geometry();
    Collector.Machine.Whole16(m.va);
  }

  /** snapshot(): collect, then copy. */
  method Take(m: Collector.Machine, pool: nat, rest: Rest) returns (core: Core)
    requires m.HeapInv() && POOL + pool <= CODE && RestOk(rest)
    modifies m`free, m`plan, m`vrl, m`va, m`vl, m`gcCount, m.mem, m.startBmp, m.consBmp
    ensures m.HeapInv() && Collected(old(m.Now()), m.Now(), m.plan)
    ensures core == CoreOf(m, pool, rest)
  {
    hide Collector.Machine.HeapInv, Collected, Snap.Tiles, ToBytes, Pack, BitsOf, Collector.Machine.Now;
    m.Gc();
    Places(m);
    SpansFit(m, pool, rest);
    var fromStart := m.mem[IX_GC_FROM].lo;
    var s := Spans(m.esp, fromStart, m.va, pool, rest.mmapNext);
    var g0, g1 := Granule(Ix(fromStart)), Granule(Ix(m.va));
    core := CoreFrom(m.Semi(), Regs(m.vrl, m.vrh, m.va, m.vl, m.esp, m.gcCount, rest), m.mem[..], s, g0, g1, m.startBmp[..], m.consBmp[..]);
  }

  // ---- restoring --------------------------------------------------------------------------

  /** `m8.set(words, at)`, in bounds */
  function Put<T>(m: seq<T>, at: int, ws: seq<T>): (r: seq<T>)
    ensures |r| == |m|
  {
    if 0 <= at && at + |ws| <= |m| then m[..at] + ws + m[at + |ws|..] else m
  }

  predicate Whole(rs: seq<Range>) {
    forall i :: 0 <= i < |rs| ==> |rs[i].bytes| % 8 == 0
  }

  predicate Fits(m: nat, r: Range) {
    |r.bytes| % 8 == 0 && 0 <= Ix(r.addr) && Ix(r.addr) + |r.bytes| / 8 <= m
  }

  function PutRange(m: seq<Word>, r: Range): (q: seq<Word>)
    requires |r.bytes| % 8 == 0
    ensures |q| == |m|
  {
    Put(m, Ix(r.addr), FromBytes(r.bytes))
  }

  function PutAll(m: seq<Word>, rs: seq<Range>): (q: seq<Word>)
    requires Whole(rs)
    ensures |q| == |m|
    decreases |rs|
  {
    if rs == [] then m else PutAll(PutRange(m, rs[0]), rs[1..])
  }

  /** Where stageArgv() writes (311-338): argc, the argv words, the stack base
      and the area above the stack. */
  predicate Staged(i: int) {
    i == 64 || 65 <= i < 81 || i == 11 || STACK_TOP <= i < STACK_END
  }

  /** The words that argv and the environment leave there. */
  type Staging = s: seq<(int, Word)> | forall x :: x in s ==> Staged(x.0)

  function Stage(m: seq<Word>, s: Staging): (q: seq<Word>)
    ensures |q| == |m|
    decreases |s|
  {
    if s == [] then m else Stage(Put(m, s[0].0, [s[0].1]), s[1..])
  }

  /** The memory that restore() leaves. */
  function Restored(n: nat, core: Core, pool: seq<Word>, code: seq<Word>, staged: Staging): (q: seq<Word>)
    requires Whole(core.ranges)
    ensures |q| == n
  {
    Stage(PutAll(Fresh(n, pool, code), core.ranges), staged)
  }

  // ---- what restore() leaves, word by word --------------------------------------------------

  predicate InRange(r: Range, i: int) {
    Ix(r.addr) <= i < Ix(r.addr) + |r.bytes| / 8
  }

  /** Four bytes, the lowest first. */
  function HalfAt(b: seq<byte>, k: nat): int32
    requires k + 4 <= |b|
  {
    var b0: int, b1: int, b2: int, b3: int := b[k], b[k + 1], b[k + 2], b[k + 3];
    ToInt32(b0 + 0x100 * b1 + 0x1_0000 * b2 + 0x100_0000 * b3)
  }

  /** The word for place i in a range: its low half first. */
  function WordIn(r: Range, i: int): Word
    requires |r.bytes| % 8 == 0 && InRange(r, i)
  {
    var k := 8 * (i - Ix(r.addr));
    Word(HalfAt(r.bytes, k), HalfAt(r.bytes, k + 4))
  }

  /** The k-th range is the last over place i. */
  ghost predicate LastRange(rs: seq<Range>, i: int, k: int) {
    0 <= k < |rs| && InRange(rs[k], i) && forall l :: k < l < |rs| ==> !InRange(rs[l], i)
  }

  /** The k-th staged word is the last for place i. */
  ghost predicate LastStaged(s: Staging, i: int, k: int) {
    0 <= k < |s| && s[k].0 == i && forall l :: k < l < |s| ==> s[l].0 != i
  }

  /** Place i, below argv and the environment: the last range over it, or the
      module's pool or code, or nothing. */
  ghost predicate Below(core: Core, pool: seq<Word>, code: seq<Word>, i: int, w: Word)
    requires Whole(core.ranges)
  {
    && (forall k :: LastRange(core.ranges, i, k) ==> w == WordIn(core.ranges[k], i))
    && ((forall k :: 0 <= k < |core.ranges| ==> !InRange(core.ranges[k], i)) ==>
          w == if 0x4000 <= i < 0x4000 + |pool| then pool[i - 0x4000] else if 0x8_0000 <= i < 0x8_0000 + |code| then code[i - 0x8_0000] else Word(0, 0))
  }

  /** Place i: the last word staged for it, or what is below. */
  ghost predicate Left(core: Core, pool: seq<Word>, code: seq<Word>, staged: Staging, i: int, w: Word)
    requires Whole(core.ranges)
  {
    && (forall k :: LastStaged(staged, i, k) ==> w == staged[k].1)
    && ((forall k :: 0 <= k < |staged| ==> staged[k].0 != i) ==> Below(core, pool, code, i, w))
  }

  lemma {:induction false} FromBytesAt(b: seq<byte>, k: nat)
    requires |b| % 8 == 0 && k < |b| / 8
    ensures FromBytes(b)[k] == Word(HalfAt(b, 8 * k), HalfAt(b, 8 * k + 4))
    decreases |b|
  {
    hide HalfAt, WordAt;
    if k == 0 {
      FirstWord(b);
    } else {
      FromBytesAt(b[8..], k - 1);
      HalfBehind(b, 8 * (k - 1));
      HalfBehind(b, 8 * (k - 1) + 4);
    }
  }

  lemma FirstWord(b: seq<byte>)
    requires |b| >= 8
    ensures WordAt(b) == Word(HalfAt(b, 0), HalfAt(b, 4))
  {
    hide ToInt32;
  }

  lemma HalfBehind(b: seq<byte>, k: nat)
    requires k + 12 <= |b|
    ensures HalfAt(b[8..], k) == HalfAt(b, k + 8)
  {
    hide ToInt32;
  }

  lemma PutRangeAt(m: seq<Word>, r: Range, i: nat)
    requires Fits(|m|, r) && i < |m|
    ensures PutRange(m, r)[i] == if InRange(r, i) then WordIn(r, i) else m[i]
  {
    if InRange(r, i) { FromBytesAt(r.bytes, i - Ix(r.addr)); }
    hide FromBytes, HalfAt;
  }

  lemma {:induction false} PutAllNone(m: seq<Word>, rs: seq<Range>, i: nat)
    requires i < |m| && Whole(rs) && forall k :: 0 <= k < |rs| ==> Fits(|m|, rs[k]) && !InRange(rs[k], i)
    ensures PutAll(m, rs)[i] == m[i]
    decreases |rs|
  {
    hide PutRange, InRange, Fits;
    if rs != [] {
      PutRangeAt(m, rs[0], i);
      PutAllNone(PutRange(m, rs[0]), rs[1..], i);
    }
  }

  lemma {:induction false} PutAllLast(m: seq<Word>, rs: seq<Range>, i: nat, k: nat)
    requires i < |m| && Whole(rs) && forall j :: 0 <= j < |rs| ==> Fits(|m|, rs[j])
    requires LastRange(rs, i, k)
    ensures PutAll(m, rs)[i] == WordIn(rs[k], i)
    decreases |rs|
  {
    hide PutRange, InRange, Fits, WordIn;
    PutRangeAt(m, rs[0], i);
    assert forall l :: k < l < |rs| ==> !InRange(rs[l], i);
    if k == 0 {
      PutAllNone(PutRange(m, rs[0]), rs[1..], i);
    } else {
      PutAllLast(PutRange(m, rs[0]), rs[1..], i, k - 1);
    }
  }

  lemma {:induction false} StageNone(m: seq<Word>, s: Staging, i: nat)
    requires i < |m| && forall k :: 0 <= k < |s| ==> s[k].0 != i
    ensures Stage(m, s)[i] == m[i]
    decreases |s|
  {
    if s != [] {
      StageNone(Put(m, s[0].0, [s[0].1]), s[1..], i);
    }
  }

  lemma {:induction false} StageLast(m: seq<Word>, s: Staging, i: nat, k: nat)
    requires i < |m| && LastStaged(s, i, k)
    ensures Stage(m, s)[i] == s[k].1
    decreases |s|
  {
    var m1 := Put(m, s[0].0, [s[0].1]);
    if k == 0 {
      StageNone(m1, s[1..], i);
    } else {
      StageLast(m1, s[1..], i, k - 1);
    }
  }

  /** A fresh memory with the module in it. */
  function Fresh(n: nat, pool: seq<Word>, code: seq<Word>): (m: seq<Word>)
    ensures |m| == n
  {
    Put(Put(seq(n, i => Word(0, 0)), POOL, pool), CODE, code)
  }

  lemma FreshAt(n: nat, pool: seq<Word>, code: seq<Word>, i: nat)
    requires i < n && n >= STACK_END && POOL + |pool| <= CODE && CODE + |code| <= JIT
    ensures Fresh(n, pool, code)[i] == if 0x4000 <= i < 0x4000 + |pool| then pool[i - 0x4000] else if 0x8_0000 <= i < 0x8_0000 + |code| then code[i - 0x8_0000] else Word(0, 0)
  {
  }

  lemma BelowIs(n: nat, core: Core, pool: seq<Word>, code: seq<Word>, i: nat)
    requires Whole(core.ranges) && i < n && n >= STACK_END && POOL + |pool| <= CODE && CODE + |code| <= JIT
    requires forall k :: 0 <= k < |core.ranges| ==> Fits(n, core.ranges[k])
    ensures Below(core, pool, code, i, PutAll(Fresh(n, pool, code), core.ranges)[i])
  {
    hide PutAll, InRange, WordIn, Fits, Fresh;
    assert forall k :: LastRange(core.ranges, i, k) ==> 0 <= k < |core.ranges| && InRange(core.ranges[k], i);
    hide LastRange;
    var m, rs := Fresh(n, pool, code), core.ranges;
    FreshAt(n, pool, code, i);
    if forall k :: 0 <= k < |rs| ==> !InRange(rs[k], i) { PutAllNone(m, rs, i); }
    forall k | LastRange(rs, i, k)
      ensures PutAll(m, rs)[i] == WordIn(rs[k], i)
    {
      PutAllLast(m, rs, i, k);
    }
  }

  lemma StageIs(core: Core, pool: seq<Word>, code: seq<Word>, staged: Staging, m: seq<Word>, i: nat)
    requires Whole(core.ranges) && i < |m| && Below(core, pool, code, i, m[i])
    ensures Left(core, pool, code, staged, i, Stage(m, staged)[i])
  {
    assert forall k :: LastStaged(staged, i, k) ==> 0 <= k < |staged|;
    hide Stage, Whole, Below, LastStaged;
    if forall k :: 0 <= k < |staged| ==> staged[k].0 != i { StageNone(m, staged, i); }
    forall k | LastStaged(staged, i, k)
      ensures Stage(m, staged)[i] == staged[k].1
    {
      StageLast(m, staged, i, k);
    }
  }

  /** Place i of the restored memory, without saying how it got there. */
  lemma RestoredIs(n: nat, core: Core, pool: seq<Word>, code: seq<Word>, staged: Staging, i: nat)
    requires Whole(core.ranges) && i < n && n >= STACK_END && POOL + |pool| <= CODE && CODE + |code| <= JIT
    requires forall k :: 0 <= k < |core.ranges| ==> Fits(n, core.ranges[k])
    ensures Left(core, pool, code, staged, i, Restored(n, core, pool, code, staged)[i])
  {
    hide PutAll, Stage, Fits, Whole, Fresh, Below, Left;
    BelowIs(n, core, pool, code, i);
    StageIs(core, pool, code, staged, PutAll(Fresh(n, pool, code), core.ranges), i);
  }

  method FillZero<T>(a: array<T>, zero: T)
    modifies a
    ensures a[..] == seq(a.Length, i => zero)
  {
    for i := 0 to a.Length
      invariant forall k :: 0 <= k < i ==> a[k] == zero
    {
      a[i] := zero;
    }
  }

  method PutInto<T>(a: array<T>, at: nat, ws: seq<T>)
    requires at + |ws| <= a.Length
    modifies a
    ensures a[..] == Put(old(a[..]), at, ws)
  {
    for i := 0 to |ws|
      invariant forall k :: 0 <= k < a.Length ==> a[k] == if at <= k < at + i then ws[k - at] else old(a[k])
    {
      a[at + i] := ws[i];
    }
  }

  method PutRanges(mem: array<Word>, rs: seq<Range>)
    requires Whole(rs) && forall i :: 0 <= i < |rs| ==> Fits(mem.Length, rs[i])
    modifies mem
    ensures mem[..] == PutAll(old(mem[..]), rs)
  {
    hide Ix, FromBytes, Put;
    ghost var was := mem[..];
    assert rs[0..] == rs;
    for i := 0 to |rs|
      invariant PutAll(mem[..], rs[i..]) == PutAll(was, rs)
    {
      assert rs[i..][0] == rs[i] && rs[i..][1..] == rs[i + 1..];
      PutInto(mem, Ix(rs[i].addr), FromBytes(rs[i].bytes));
    }
  }

  method StageArgv(mem: array<Word>, s: Staging)
    requires mem.Length >= STACK_END
    modifies mem
    ensures mem[..] == Stage(old(mem[..]), s)
  {
    hide Put;
    ghost var was := mem[..];
    assert s[0..] == s;
    for i := 0 to |s|
      invariant forall x :: x in s[i..] ==> Staged(x.0)
      invariant Stage(mem[..], s[i..]) == Stage(was, s)
    {
      assert s[i] in s && s[i..][0] == s[i] && s[i..][1..] == s[i + 1..];
      PutInto(mem, s[i].0, [s[i].1]);
    }
  }

  /** The bitmaps that restore() leaves. */
  function Placed(n: nat, g0: int, packed: seq<byte>): seq<bool> {
    Put(seq(n, i => false), 8 * (g0 / 8), Unpack(packed))
  }

  predicate Loadable(m: Collector.Machine, core: Core) {
    && Whole(core.ranges) && (forall i :: 0 <= i < |core.ranges| ==> Fits(m.mem.Length, core.ranges[i]))
    && 0 <= core.g0 && 8 * (core.g0 / 8) + 8 * |core.start| <= m.startBmp.Length && 8 * (core.g0 / 8) + 8 * |core.cons| <= m.consBmp.Length
  }

  /** restore().  The core must be word-aligned and in bounds, or the copies throw. */
  method Restore(m: Collector.Machine, core: Core, pool: seq<Word>, code: seq<Word>, staged: Staging) returns (r: Result<Rest>)
    requires m.Shape() && Loadable(m, core) && POOL + |pool| <= CODE && CODE + |code| <= JIT
    modifies m, m.mem, m.startBmp, m.consBmp
    ensures r.Ok? <==> core.version == 2 && core.semi == m.Semi()
    ensures r.Ok? ==>
      && r.value == core.regs.rest
      && m.mem[..] == Restored(m.mem.Length, core, pool, code, staged)
      && (forall i :: 0 <= i < m.mem.Length ==> Left(core, pool, code, staged, i, m.mem[i]))
      && m.startBmp[..] == Placed(m.startBmp.Length, core.g0, core.start)
      && m.consBmp[..] == Placed(m.consBmp.Length, core.g0, core.cons)
      && Regs(m.vrl, m.vrh, m.va, m.vl, m.esp, m.gcCount, core.regs.rest) == core.regs
  {
    if core.version != 2 { return Err("core version mismatch"); }
    if core.semi != m.Semi() { return Err("core was made with another semispace"); }
    hide Placed, Restored, Fits, Whole, Left;
    LoadBitmap(m.startBmp, core.g0, core.start);
    LoadBitmap(m.consBmp, core.g0, core.cons);
    LoadMemory(m.mem, core, pool, code, staged);
    forall i | 0 <= i < m.mem.Length
      ensures Left(core, pool, code, staged, i, m.mem[i])
    {
      RestoredIs(m.mem.Length, core, pool, code, staged, i);
      assert m.mem[..][i] == m.mem[i];
    }
    var g := core.regs;
    m.vrl, m.vrh, m.va, m.vl, m.esp, m.gcCount := g.vrl, g.vrh, g.va, g.vl, g.esp, g.gcCount;
    r := Ok(g.rest);
  }

  method LoadMemory(mem: array<Word>, core: Core, pool: seq<Word>, code: seq<Word>, staged: Staging)
    requires Whole(core.ranges) && (forall i :: 0 <= i < |core.ranges| ==> Fits(mem.Length, core.ranges[i]))
    requires POOL + |pool| <= CODE && CODE + |code| <= JIT && mem.Length >= STACK_END
    modifies mem
    ensures mem[..] == Restored(mem.Length, core, pool, code, staged)
  {
    hide Put, PutAll, Stage, Ix, Whole;
    FillZero(mem, Word(0, 0));
    PutInto(mem, POOL, pool);
    PutInto(mem, CODE, code);
    PutRanges(mem, core.ranges);
    StageArgv(mem, staged);
  }

  method LoadBitmap(bits: array<bool>, g0: int, packed: seq<byte>)
    requires 0 <= g0 && 8 * (g0 / 8) + 8 * |packed| <= bits.Length
    modifies bits
    ensures bits[..] == Placed(bits.Length, g0, packed)
  {
    hide Put, Unpack;
    FillZero(bits, false);
    PutInto(bits, 8 * (g0 / 8), Unpack(packed));
  }

  // ---- the round trip ------------------------------------------------------------------------

  predicate Covered(s: seq<(int, int)>, i: int) {
    exists k :: 0 <= k < |s| && s[k].0 <= i < s[k].1
  }

  /** Ranges that all come from one memory put its words back, in any order. */
  lemma {:induction false} PutAllAt(m: seq<Word>, s: seq<(int, int)>, was: seq<Word>, i: nat)
    requires |m| == |was| && i < |m| && forall k :: 0 <= k < |s| ==> InBounds(s[k], |was|)
    ensures var rs := seq(|s|, k requires 0 <= k < |s| => RangeOf(was, s[k]));
      Whole(rs) && PutAll(m, rs)[i] == if Covered(s, i) then was[i] else m[i]
    decreases |s|
  {
    hide ToBytes, FromBytes;
    var rs := seq(|s|, k requires 0 <= k < |s| => RangeOf(was, s[k]));
    if s != [] {
      var m1 := PutRange(m, rs[0]);
      RangeBack(was, s[0]);
      PutAllAt(m1, s[1..], was, i);
      assert rs[1..] == seq(|s[1..]|, k requires 0 <= k < |s[1..]| => RangeOf(was, s[1..][k]));
      assert m1[i] == if s[0].0 <= i < s[0].1 then was[i] else m[i];
      CoveredHead(s, i);
    }
  }

  lemma CoveredHead(s: seq<(int, int)>, i: int)
    requires s != []
    ensures Covered(s, i) <==> s[0].0 <= i < s[0].1 || Covered(s[1..], i)
  {
    if Covered(s, i) && !(s[0].0 <= i < s[0].1) {
      var k :| 0 <= k < |s| && s[k].0 <= i < s[k].1;
      assert s[1..][k - 1] == s[k];
    } else if Covered(s[1..], i) {
      var k :| 0 <= k < |s[1..]| && s[1..][k].0 <= i < s[1..][k].1;
      assert s[k + 1] == s[1..][k];
    }
  }

  lemma RangeBack(was: seq<Word>, s: (int, int))
    requires InBounds(s, |was|)
    ensures var r := RangeOf(was, s);
      |r.bytes| % 8 == 0 && Ix(r.addr) == s.0 && FromBytes(r.bytes) == was[s.0..s.1] && Fits(|was|, r)
  {
    WordsAgain(was[s.0..s.1]);
    Collector.Machine.IxAddr(s.0);
  }

  lemma {:induction false} StageAt(m: seq<Word>, s: Staging, i: nat)
    requires i < |m| && !Staged(i)
    ensures Stage(m, s)[i] == m[i]
    decreases |s|
  {
    if s != [] {
      assert s[0] in s;
      StageAt(Put(m, s[0].0, [s[0].1]), s[1..], i);
    }
  }

  /** Restoring the core of a memory brings every saved word back, outside
      argv and the environment. */
  lemma RestoredAt(was: seq<Word>, s: seq<(int, int)>, core: Core, pool: seq<Word>, code: seq<Word>, staged: Staging, i: nat)
    requires forall k :: 0 <= k < |s| ==> InBounds(s[k], |was|)
    requires core.ranges == seq(|s|, k requires 0 <= k < |s| => RangeOf(was, s[k])) && i < |was|
    ensures Whole(core.ranges)
    ensures Covered(s, i) && !Staged(i) ==> Restored(|was|, core, pool, code, staged)[i] == was[i]
  {
    hide PutAll, Stage, Covered, Put, Staged, Fresh;
    var m := Fresh(|was|, pool, code);
    PutAllAt(m, s, was, i);
    if !Staged(i) { StageAt(PutAll(m, core.ranges), staged, i); }
  }

  /** The restored bitmaps: the saved bits, and nothing else. */
  lemma PlacedAt(bits: seq<bool>, g0: int, g1: int, g: nat)
    requires Sliceable(|bits|, g0, g1) && g < |bits|
    ensures Placed(|bits|, g0, PackedBits(bits, g0, g1))[g] == (8 * (g0 / 8) <= g < 8 * (g1 / 8 + 1) && bits[g])
  {
    Eightfold(g0, g1);
    BitsAgain(BitsOf(bits, g0, g1));
    hide Pack, Unpack;
  }

  /** Snapshots that agree on the words and bits of from-space tile alike. */
  lemma {:induction false} TilesSame(s: Snap, t: Snap, i: int, end: int)
    requires s.Sized() && t.Sized() && s.fs == t.fs && s.fe == t.fe && s.fs <= i && end <= s.fe && s.Tiles(i, end)
    requires forall k :: s.fs <= k < end ==> t.m[k] == s.m[k] && t.len[k] == s.len[k] && t.st[k] == s.st[k] && t.co[k] == s.co[k]
    ensures t.Tiles(i, end)
    decreases end - i
  {
    if i < end {
      TilesSame(s, t, i + s.ObjWords(i), end);
    }
  }

  lemma HeapOkSame(s: Snap, t: Snap, end: int)
    requires s.HeapOk(end) && t.Sized() && s.fs == t.fs && s.fe == t.fe && s.ts == t.ts && s.te == t.te
    requires forall k :: s.fs <= k < end ==> t.m[k] == s.m[k] && t.len[k] == s.len[k] && t.st[k] == s.st[k] && t.co[k] == s.co[k]
    requires forall k :: end <= k < t.fe || t.ts <= k < t.te ==> !t.st[k] && !t.co[k]
    ensures t.HeapOk(end)
  {
    TilesSame(s, t, s.fs, end);
  }

  /** The saved words: the BSS, the pool, the stack from esp to its end, the
      used heap and the executable pages. */
  ghost predicate Saved(m: Collector.Machine, pool: nat, rest: Rest, i: int)
    reads m, m.mem
    requires m.mem.Length > 8
  {
    || 0 <= i < 0x4000 || 0x4000 <= i < 0x4000 + pool
    || Ix(m.esp) <= i < 0x78_0000 || Ix(m.mem[8].lo) <= i < Ix(m.va) || 0x48_0000 <= i < Ix(rest.mmapNext)
  }

  lemma SavedCovered(m: Collector.Machine, pool: nat, rest: Rest, i: int)
    requires m.mem.Length > 8
    ensures Saved(m, pool, rest, i) <==> Covered(Spans(m.esp, m.mem[IX_GC_FROM].lo, m.va, pool, rest.mmapNext), i)
  {
    hide Ix;
    var s := Spans(m.esp, m.mem[IX_GC_FROM].lo, m.va, pool, rest.mmapNext);
    assert s[0] == (0, 0x4000) && s[1] == (0x4000, 0x4000 + pool) && s[2] == (Ix(m.esp), 0x78_0000)
           && s[3] == (Ix(m.mem[8].lo), Ix(m.va)) && s[4] == (0x48_0000, Ix(rest.mmapNext));
  }

  lemma StagedIs(i: int)
    ensures Staged(i) <==> i == 11 || 64 <= i < 81 || 0x77_E000 <= i < 0x78_0000
  {
  }

  /** What a restored machine shares with the one that was saved. */
  ghost predicate Resumed(m: Collector.Machine, n: Collector.Machine, pool: nat, rest: Rest)
    reads m, n, m.mem, n.mem, m.startBmp, n.startBmp, m.consBmp, n.consBmp
  {
    && m.HeapInv() && n.HeapInv() && n.blocks == m.blocks
    && n.vrl == m.vrl && n.vrh == m.vrh && n.va == m.va && n.vl == m.vl && n.esp == m.esp && n.gcCount == m.gcCount
    && (forall i :: 0 <= i < m.mem.Length && !Staged(i) && Saved(m, pool, rest, i) ==> n.mem[i] == m.mem[i])
    && (forall i :: m.Now().fs <= i < m.Now().fe || m.Now().ts <= i < m.Now().te
          ==> n.Starts()[i] == m.Starts()[i] && n.Conses()[i] == m.Conses()[i])
  }

  /** What restore() has left in n. */
  ghost predicate Loaded(m: Collector.Machine, n: Collector.Machine, core: Core, pool: seq<Word>, code: seq<Word>, staged: Staging)
    requires Whole(core.ranges)
    reads m, n, n.mem, n.startBmp, n.consBmp
  {
    && n.Shape() && n.blocks == m.blocks
    && n.mem[..] == Restored(n.mem.Length, core, pool, code, staged)
    && n.startBmp[..] == Placed(n.startBmp.Length, core.g0, core.start)
    && n.consBmp[..] == Placed(n.consBmp.Length, core.g0, core.cons)
    && Regs(n.vrl, n.vrh, n.va, n.vl, n.esp, n.gcCount, core.regs.rest) == core.regs
  }

  lemma CoreLoadable(m: Collector.Machine, n: Collector.Machine, pool: nat, rest: Rest)
    requires m.HeapInv() && POOL + pool <= CODE && RestOk(rest) && n.Shape() && n.blocks == m.blocks
    ensures Loadable(n, CoreOf(m, pool, rest))
  {
    hide ToBytes, Pack, Ix, Granule, Snap.Tiles, Spread;
    SpansFit(m, pool, rest);
    var s := Spans(m.esp, m.mem[IX_GC_FROM].lo, m.va, pool, rest.mmapNext);
    forall i | 0 <= i < |s|
      ensures Fits(n.mem.Length, RangeOf(m.mem[..], s[i]))
    {
      assert s[i] in s;
      RangeBack(m.mem[..], s[i]);
    }
    var g0, g1 := Granule(Ix(m.mem[IX_GC_FROM].lo)), Granule(Ix(m.va));
    Eightfold(g0, g1);
    PackedSize(m.startBmp[..], g0, g1);
    PackedSize(m.consBmp[..], g0, g1);
  }

  lemma PackedSize(bits: seq<bool>, g0: int, g1: int)
    requires Sliceable(|bits|, g0, g1)
    ensures 8 * (g0 / 8) + 8 * |PackedBits(bits, g0, g1)| == 8 * (g1 / 8 + 1)
  {
    Eightfold(g0, g1);
    var a, b := g0 / 8, g1 / 8 + 1;
    assert (8 * b - 8 * a) / 8 == b - a;
  }

  /** Every word of the five ranges is back. */
  lemma WordsBack(m: Collector.Machine, n: Collector.Machine, pool: seq<Word>, rest: Rest, code: seq<Word>, staged: Staging, i: nat)
    requires m.HeapInv() && POOL + |pool| <= CODE && RestOk(rest)
    requires Whole(CoreOf(m, |pool|, rest).ranges) && Loaded(m, n, CoreOf(m, |pool|, rest), pool, code, staged)
    requires i < m.mem.Length && !Staged(i) && Covered(Spans(m.esp, m.mem[IX_GC_FROM].lo, m.va, |pool|, rest.mmapNext), i)
    ensures n.mem.Length == m.mem.Length && n.mem[i] == m.mem[i]
  {
    hide Restored, Covered, Placed, ToBytes, Pack, Snap.Tiles, Spread, PackedBits, Whole;
    SpansFit(m, |pool|, rest);
    var s := Spans(m.esp, m.mem[IX_GC_FROM].lo, m.va, |pool|, rest.mmapNext);
    assert forall k :: 0 <= k < |s| ==> s[k] in s;
    RestoredAt(m.mem[..], s, CoreOf(m, |pool|, rest), pool, code, staged, i);
    assert n.mem[..][i] == n.mem[i] && m.mem[..][i] == m.mem[i];
  }

  /** The bits of both spaces are back. */
  lemma BitsBackAt(m: Collector.Machine, n: Collector.Machine, pool: nat, rest: Rest, i: int)
    requires m.HeapInv() && POOL + pool <= CODE && RestOk(rest) && n.Shape() && n.blocks == m.blocks
    requires var core := CoreOf(m, pool, rest);
      n.startBmp[..] == Placed(n.startBmp.Length, core.g0, core.start) && n.consBmp[..] == Placed(n.consBmp.Length, core.g0, core.cons)
    requires var s := m.Now(); s.fs <= i < s.fe || s.ts <= i < s.te
    ensures 0 <= i < n.mem.Length == m.mem.Length && n.Starts()[i] == m.Starts()[i] && n.Conses()[i] == m.Conses()[i]
  {
    hide Snap.Tiles, Placed, PackedBits, Pack, ToBytes, Ix, Granule, Lengths;
    SpansFit(m, pool, rest);
    var s := m.Now();
    m.Geometry();
    var g0, g1 := Granule(s.fs), Granule(Ix(m.va));
    m.GranuleBound(i);
    n.GranuleBound(i);
    PlacedAt(m.startBmp[..], g0, g1, Granule(i));
    PlacedAt(m.consBmp[..], g0, g1, Granule(i));
    OutsideClear(m, i);
  }

  /** A granule of either space whose bits were not saved has none. */
  lemma OutsideClear(m: Collector.Machine, i: int)
    requires m.HeapInv() && var s := m.Now(); s.fs <= i < s.fe || s.ts <= i < s.te
    ensures var g0, g1 := Granule(m.Now().fs), Granule(Ix(m.va));
      !(8 * (g0 / 8) <= Granule(i) < 8 * (g1 / 8 + 1)) ==> !m.Starts()[i] && !m.Conses()[i]
  {
    hide Snap.Tiles, Lengths, Spread, Ix;
    m.Geometry();
    var s := m.Now();
    var g0, g1 := Granule(s.fs), Granule(Ix(m.va));
    if s.fs <= i < Ix(m.va) {
      GranuleOrder(s.fs, i, Ix(m.va));
    }
  }

  lemma GranuleOrder(f: int, i: int, v: int)
    requires f <= i < v && (f - PAGE_BASE) % 16 == 0
    ensures 8 * (Granule(f) / 8) <= Granule(i) < 8 * (Granule(v) / 8 + 1)
  {
  }

  /** The restored machine has the saved one's registers, bitmaps and ranges,
      and the heap invariant. */
  lemma ResumedBy(m: Collector.Machine, n: Collector.Machine, pool: seq<Word>, rest: Rest, code: seq<Word>, staged: Staging)
    requires m.HeapInv() && POOL + |pool| <= CODE && RestOk(rest)
    requires Whole(CoreOf(m, |pool|, rest).ranges) && Loaded(m, n, CoreOf(m, |pool|, rest), pool, code, staged)
    ensures Resumed(m, n, |pool|, rest)
  {
    hide Snap.Tiles, Lengths, Spread, Ix, Granule, Restored, Placed, PackedBits, Covered, CoreFrom, Staged, Whole;
    RegsBack(m, n, pool, rest, code, staged);
    forall i | 0 <= i < m.mem.Length && !Staged(i) && Saved(m, |pool|, rest, i)
      ensures n.mem[i] == m.mem[i]
    {
      SavedCovered(m, |pool|, rest, i);
      WordsBack(m, n, pool, rest, code, staged, i);
    }
    hide Saved;
    var s := m.Now();
    forall i | s.fs <= i < s.fe || s.ts <= i < s.te
      ensures n.Starts()[i] == m.Starts()[i] && n.Conses()[i] == m.Conses()[i]
    {
      BitsBackAt(m, n, |pool|, rest, i);
    }
    SpacesBack(m, n, |pool|, rest);
    HeapBack(m, n, |pool|, rest);
  }

  lemma RegsBack(m: Collector.Machine, n: Collector.Machine, pool: seq<Word>, rest: Rest, code: seq<Word>, staged: Staging)
    requires m.HeapInv() && POOL + |pool| <= CODE && RestOk(rest)
    requires Whole(CoreOf(m, |pool|, rest).ranges) && Loaded(m, n, CoreOf(m, |pool|, rest), pool, code, staged)
    ensures n.Shape() && n.blocks == m.blocks && n.mem.Length == m.mem.Length
    ensures n.vrl == m.vrl && n.vrh == m.vrh && n.va == m.va && n.vl == m.vl && n.esp == m.esp && n.gcCount == m.gcCount
    ensures var core := CoreOf(m, |pool|, rest);
      n.startBmp[..] == Placed(n.startBmp.Length, core.g0, core.start) && n.consBmp[..] == Placed(n.consBmp.Length, core.g0, core.cons)
  {
    hide Snap.Tiles, Lengths, Spread, Ix, Granule, Restored, Placed, PackedBits;
  }

  /** The space registers are in the BSS, outside the restaged words. */
  lemma SpacesBack(m: Collector.Machine, n: Collector.Machine, pool: nat, rest: Rest)
    requires m.HeapInv() && n.Shape() && n.blocks == m.blocks
    requires forall i :: 0 <= i < m.mem.Length && !Staged(i) && Saved(m, pool, rest, i) ==> n.mem[i] == m.mem[i]
    ensures n.Spaces() && n.mem[IX_GC_FROM] == m.mem[IX_GC_FROM] && n.mem[IX_GC_TO] == m.mem[IX_GC_TO]
  {
    hide Snap.Tiles, Lengths, Spread, Ix;
    assert Saved(m, pool, rest, 8) && Saved(m, pool, rest, 9) && Saved(m, pool, rest, 10);
  }

  lemma HeapBack(m: Collector.Machine, n: Collector.Machine, pool: nat, rest: Rest)
    requires m.HeapInv() && n.Spaces() && n.blocks == m.blocks && n.mem[IX_GC_FROM] == m.mem[IX_GC_FROM] && n.mem[IX_GC_TO] == m.mem[IX_GC_TO]
    requires n.va == m.va && n.vl == m.vl && n.esp == m.esp
    requires forall i :: 0 <= i < m.mem.Length && !Staged(i) && Saved(m, pool, rest, i) ==> n.mem[i] == m.mem[i]
    requires var s := m.Now(); forall i :: s.fs <= i < s.fe || s.ts <= i < s.te ==> n.Starts()[i] == m.Starts()[i] && n.Conses()[i] == m.Conses()[i]
    ensures n.HeapInv()
  {
    hide Snap.Tiles, Spread, Ix, Granule, Saved, SizeOf;
    m.Geometry();
    n.Geometry();
    var s, t, end := m.Now(), n.Now(), Ix(m.va);
    forall k | s.fs <= k < end
      ensures t.m[k] == s.m[k] && t.len[k] == s.len[k] && t.st[k] == s.st[k] && t.co[k] == s.co[k]
    {
      HeapCovered(m, pool, rest, k);
    }
    HeapOkSame(s, t, end);
  }

  lemma HeapCovered(m: Collector.Machine, pool: nat, rest: Rest, k: int)
    requires m.HeapInv() && m.Now().fs <= k < Ix(m.va)
    ensures Saved(m, pool, rest, k) && !Staged(k)
  {
    hide Snap.Tiles, Spread, Lengths;
    m.Geometry();
  }

  /** A snapshot, written to a file, read back and restored into a machine of
      the same size: nothing is lost, and the heap is in order again.  There is
      no file exactly when the header's text is too long for its length field. */
  method SaveAndResume(j: Json, m: Collector.Machine, n: Collector.Machine, pool: seq<Word>, rest: Rest, code: seq<Word>, staged: Staging)
      returns (r: Result<Rest>)
    requires Inverse(j) && m.HeapInv() && n.Shape() && n.blocks == m.blocks && RestOk(rest)
    requires POOL + |pool| <= CODE && CODE + |code| <= JIT
    requires m != n && {m.mem as object, m.startBmp, m.consBmp} !! {n.mem as object, n.startBmp, n.consBmp}
    modifies m`free, m`plan, m`vrl, m`va, m`vl, m`gcCount, m.mem, m.startBmp, m.consBmp
    modifies n, n.mem, n.startBmp, n.consBmp
    ensures m.HeapInv() && Collected(old(m.Now()), m.Now(), m.plan)
    ensures Short(j, HeaderOf(CoreOf(m, |pool|, rest))) ==> r == Ok(rest) && Resumed(m, n, |pool|, rest) && Installed(n.mem[..], code, staged)
    ensures !Short(j, HeaderOf(CoreOf(m, |pool|, rest))) ==> r.Err? && n.mem[..] == old(n.mem[..])
    ensures j == Text() && Safe(m.gcCount) && SafeRest(rest) ==> r.Ok?
  {
    hide Collector.Machine.HeapInv, Collected, Snap.Tiles, CoreOf, Loaded, Resumed, Loadable, Encoded, Decoded, Inverse, Short, HeaderOf, Text, Safe, SafeRest, Restored, Placed, Left, Whole, Installed;
    var core := Take(m, |pool|, rest);
    if j == Text() && Safe(m.gcCount) && SafeRest(rest) { CoreShort(m, |pool|, rest); }
    if !IsShort(j, core) { return Err("RangeError: Invalid string length"); }
    ShortReads(j, core);
    var file := EncodeCore(j, core);
    CoreRoundTrip(j, core);
    var read := DecodeCore(j, file[..]);
    CoreLoadable(m, n, |pool|, rest);
    r := Restore(n, read.value, pool, code, staged);
    CoreFixed(m, |pool|, rest);
    LoadedBy(m, n, core, pool, code, staged);
    assert forall i :: 0 <= i < n.mem.Length ==> n.mem[..][i] == n.mem[i];
    InstalledBy(m, |pool|, rest, pool, code, staged, core, n.mem[..]);
    ResumedBy(m, n, pool, rest, code, staged);
  }

  predicate IsShort(j: Json, c: Core) {
    Short(j, HeaderOf(c))
  }

  lemma ShortReads(j: Json, c: Core)
    requires Inverse(j) && Short(j, HeaderOf(c))
    ensures j.parse(j.stringify(HeaderOf(c))) == Some(HeaderOf(c))
  {
    hide Short;
  }

  predicate SafeRest(rest: Rest) {
    Safe(rest.ebp) && Safe(rest.pc) && Safe(rest.cmp) && Safe(rest.steps)
  }

  /** As JSON text the header is always short enough. */
  lemma CoreShort(m: Collector.Machine, pool: nat, rest: Rest)
    requires m.HeapInv() && POOL + pool <= CODE && RestOk(rest) && Safe(m.gcCount) && SafeRest(rest)
    ensures Short(Text(), HeaderOf(CoreOf(m, pool, rest)))
  {
    CoreNumbers(m, pool, rest);
    hide Collector.Machine.HeapInv, CoreOf;
    TextShort(HeaderOf(CoreOf(m, pool, rest)));
    hide Stringify, Plain;
  }

  /** Its numbers are addresses, sizes and counts. */
  lemma CoreNumbers(m: Collector.Machine, pool: nat, rest: Rest)
    requires m.HeapInv() && POOL + pool <= CODE && RestOk(rest) && Safe(m.gcCount) && SafeRest(rest)
    ensures Plain(HeaderOf(CoreOf(m, pool, rest))) && |HeaderOf(CoreOf(m, pool, rest)).ranges| == 5
  {
    hide Snap.Tiles, Spread, ToBytes, Pack;
    Places(m);
    SpansFit(m, pool, rest);
    m.Geometry();
    var f := m.mem[IX_GC_FROM].lo;
    var s := Spans(m.esp, f, m.va, pool, rest.mmapNext);
    forall i | 0 <= i < 5
      ensures Safe(Addr(s[i].0)) && Safe(8 * (s[i].1 - s[i].0))
    {
      assert InBounds(s[i], m.mem.Length);
    }
  }

  /** The module's code is in its place, and the words last staged in theirs. */
  ghost predicate Installed(mem: seq<Word>, code: seq<Word>, staged: Staging) {
    && |mem| >= 0x78_0000 && |code| <= 0x40_0000 && (forall i :: 0 <= i < |code| ==> mem[0x8_0000 + i] == code[i])
    && forall i, k :: LastStaged(staged, i, k) ==> 0 <= k < |staged| && 0 <= i < |mem| && mem[i] == staged[k].1
  }

  /** No range touches the code, and the staged words are on top of all. */
  lemma InstalledBy(m: Collector.Machine, n: nat, rest: Rest, pool: seq<Word>, code: seq<Word>, staged: Staging, core: Core, mem: seq<Word>)
    requires m.HeapInv() && POOL + n <= CODE && RestOk(rest) && CODE + |code| <= JIT && POOL + |pool| <= CODE && |mem| >= STACK_END
    requires core == CoreOf(m, n, rest) && Whole(core.ranges) && forall i :: 0 <= i < |mem| ==> Left(core, pool, code, staged, i, mem[i])
    ensures Installed(mem, code, staged)
  {
    hide Left, Below, Whole, CoreOf, Collector.Machine.HeapInv, RestOk, LastStaged;
    forall i | 0 <= i < |code|
      ensures mem[0x8_0000 + i] == code[i]
    {
      LeftCode(core, pool, code, staged, 0x8_0000 + i, mem[0x8_0000 + i]);
      CodeUncovered(m, n, rest, pool, code, core, 0x8_0000 + i, mem[0x8_0000 + i]);
    }
    StagedOnTop(core, pool, code, staged, mem);
  }

  lemma StagedOnTop(core: Core, pool: seq<Word>, code: seq<Word>, staged: Staging, mem: seq<Word>)
    requires Whole(core.ranges) && |mem| >= STACK_END && forall i :: 0 <= i < |mem| ==> Left(core, pool, code, staged, i, mem[i])
    ensures forall i, k :: LastStaged(staged, i, k) ==> 0 <= k < |staged| && 0 <= i < |mem| && mem[i] == staged[k].1
  {
    StagedPlaces(staged);
    hide Left, Whole, LastStaged;
    forall i, k | LastStaged(staged, i, k)
      ensures mem[i] == staged[k].1
    {
      LeftStaged(core, pool, code, staged, i, k, mem[i]);
    }
  }

  lemma StagedPlaces(s: Staging)
    ensures forall i, k :: LastStaged(s, i, k) ==> 0 <= k < |s| && 0 <= i < STACK_END
  {
    forall i, k | LastStaged(s, i, k)
      ensures 0 <= k < |s| && 0 <= i < STACK_END
    {
      assert s[k] in s;
    }
  }

  lemma LeftCode(core: Core, pool: seq<Word>, code: seq<Word>, staged: Staging, i: int, w: Word)
    requires Whole(core.ranges) && Left(core, pool, code, staged, i, w) && CODE <= i < JIT
    ensures Below(core, pool, code, i, w)
  {
    hide Below;
    forall k | 0 <= k < |staged|
      ensures staged[k].0 != i
    {
      assert staged[k] in staged;
    }
  }

  lemma LeftStaged(core: Core, pool: seq<Word>, code: seq<Word>, staged: Staging, i: int, k: int, w: Word)
    requires Whole(core.ranges) && LastStaged(staged, i, k) && Left(core, pool, code, staged, i, w)
    ensures w == staged[k].1
  {
    hide Below;
  }

  lemma CodeUncovered(m: Collector.Machine, n: nat, rest: Rest, pool: seq<Word>, code: seq<Word>, core: Core, i: int, w: Word)
    requires m.HeapInv() && POOL + n <= CODE && RestOk(rest) && CODE + |code| <= JIT && POOL + |pool| <= CODE && CODE <= i < CODE + |code|
    requires core == CoreOf(m, n, rest) && Whole(core.ranges) && Below(core, pool, code, i, w)
    ensures w == code[i - CODE]
  {
    hide ToBytes, Pack, Snap.Tiles, Spread, Ix, PackedBits;
    Places(m);
    SpansFit(m, n, rest);
    var s := Spans(m.esp, m.mem[IX_GC_FROM].lo, m.va, n, rest.mmapNext);
    forall k | 0 <= k < 5
      ensures !InRange(core.ranges[k], i)
    {
      assert s[k] in s;
      RangeBack(m.mem[..], s[k]);
    }
  }

  lemma CoreFixed(m: Collector.Machine, pool: nat, rest: Rest)
    requires m.HeapInv() && POOL + pool <= CODE && RestOk(rest)
    ensures var c := CoreOf(m, pool, rest); c.version == 2 && c.semi == m.Semi() && c.regs.rest == rest
  {
    hide Snap.Tiles;
  }

  lemma LoadedBy(m: Collector.Machine, n: Collector.Machine, core: Core, pool: seq<Word>, code: seq<Word>, staged: Staging)
    requires n.Shape() && n.blocks == m.blocks && Loadable(n, core)
    requires n.mem[..] == Restored(n.mem.Length, core, pool, code, staged)
    requires n.startBmp[..] == Placed(n.startBmp.Length, core.g0, core.start) && n.consBmp[..] == Placed(n.consBmp.Length, core.g0, core.cons)
    requires Regs(n.vrl, n.vrh, n.va, n.vl, n.esp, n.gcCount, core.regs.rest) == core.regs
    ensures Whole(core.ranges) && Loaded(m, n, core, pool, code, staged)
  {
    hide Restored, Placed;
  }
}
