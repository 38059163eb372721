/** The tagged heap of web/mvm.js as values: word memory with a start bitmap and
    a cons bitmap, what the collector takes for a pointer, how large an object
    is, and what it means for objects to tile a semispace.
    Memory is indexed in 8-byte words from VBASE, the bitmaps in 16-byte
    granules from the page base (web/mvm.js:20-38, 222-225, 542-545). */
module Heap {
  import opened Words

  const BSS_WORDS := 0x4000              // [VBASE, BSS_END)
  const STACK_LOW := 0x68_0000           // STACK_ADDR
  const STACK_TOP := 0x77_E000           // stackTop: argv and envp sit above
  const PAGE_BASE := 0x78_0080           // heapBase + ALLOC_START_OFF
  const IX_GC_FROM := 8                  // A_GC_FROM, A_GC_TO, A_GC_SIZE, A_GC_COUNT
  const IX_GC_TO := 9
  const IX_GC_SIZE := 10
  const IX_GC_COUNT := 12

  /** A word index whose byte address is below 2^31. */
  type Slot = i: int | 0 <= i <= 0xDFF_FFFE witness 0

  function Ix(a: int): int { (a - 0x1000_0000) / 8 }
  function Addr(i: int): int { 0x1000_0000 + 8 * i }
  predicate On16(a: int) { a % 16 == 0 }
  function Granule(i: int): int { (i - PAGE_BASE) / 2 }

  /** Where things are, in bytes. */
  lemma Addresses()
    ensures Addr(0) == 0x1000_0000 && Addr(BSS_WORDS) == 0x1002_0000 && Addr(STACK_LOW) == 0x1340_0000 && Addr(STACK_TOP) == 0x13C0_0000 - 0x1_0000
    ensures Addr(PAGE_BASE) == 0x13C0_0400 && Addr(IX_GC_FROM) == 0x1000_0040 && Addr(IX_GC_TO) == 0x1000_0048 && Addr(IX_GC_SIZE) == 0x1000_0050 && Addr(IX_GC_COUNT) == 0x1000_0060
  {
  }

  /** `(n + 15) & ~15`, on 32-bit numbers */
  function Align16(n: int): int {
    ToInt32(n + 15) - ToInt32(n + 15) % 16
  }

  /** The byte size `copy` derives from an object's header (web/mvm.js:604-606). */
  function SizeOf(h: Word): int {
    var subtag := h.lo % 256;
    var count := U32(h.lo) / 256 + h.hi * 0x100_0000;
    if subtag == 0x11 then Align16(16 + count) else Align16((count + 2) * 8)
  }

  lemma On16Sum(a: int, b: int)
    requires On16(a) && On16(b)
    ensures On16(a + b)
  {
  }

  /** `x & ~15` */
  lemma Truncated(x: int)
    ensures On16(x - x % 16)
  {
    var q := x / 16;
    assert x - x % 16 == 16 * q;
  }

  lemma Eighths(x: int)
    requires On16(x)
    ensures x == 8 * (x / 8) && (x / 8) % 2 == 0
  {
    var q := x / 16;
    assert x == 16 * q;
    assert x / 8 == 2 * q;
  }

  lemma SizeMultiple(h: Word)
    ensures On16(SizeOf(h)) && SizeOf(h) == 8 * (SizeOf(h) / 8)
  {
    var subtag := h.lo % 256;
    var count := U32(h.lo) / 256 + h.hi * 0x100_0000;
    var n := if subtag == 0x11 then 16 + count else (count + 2) * 8;
    assert SizeOf(h) == Align16(n);
    hide SizeOf, U32;
    Truncated(ToInt32(n + 15));
    hide ToInt32, On16;
    Eighths(Align16(n));
  }

  /** The address in a reference, and its word. */
  lemma TargetAddr(v: int32)
    ensures Addr(Target(Word(v, 0))) == v - v % 16 && On16(v - v % 16)
  {
    Truncated(v);
    Eighths(v - v % 16);
  }

  /** The sizes, in words, that all of memory would have if read as headers. */
  function Lengths(m: seq<Word>): (r: seq<int>)
    ensures |r| == |m|
  {
    seq(|m|, i requires 0 <= i < |m| => SizeOf(m[i]) / 8)
  }

  /** A bitmap spread out over words: the bit of a granule at its first word. */
  function Spread(bits: seq<bool>, n: nat): (r: seq<bool>)
    ensures |r| == n
  {
    seq(n, i requires 0 <= i < n => IsFirst(i) && Granule(i) < |bits| && bits[Granule(i)])
  }

  /** Word i is the first of a granule of the heap. */
  predicate IsFirst(i: int) {
    PAGE_BASE <= i && i % 2 == 0
  }

  /** Everything the collector can see.  st[i] and co[i] are the start and cons
      bits of an object at word i; [fs, fe) is from-space, [ts, te) is to-space,
      sp is the word index of the stack pointer, and len caches Lengths(m). */
  datatype Snap = Snap(m: seq<Word>, len: seq<int>, st: seq<bool>, co: seq<bool>, vr: Word, sp: int,
                       fs: int, fe: int, ts: int, te: int)
  {
    predicate Sized() {
      && PAGE_BASE <= fs < fe <= |m| == |len| <= 0xE00_0000
      && PAGE_BASE <= ts < te <= |m|
      && fe - fs == te - ts
      && (fe <= ts || te <= fs)
      && STACK_LOW <= sp <= STACK_TOP
      && |st| == |co| == |m|
    }

    predicate InFrom(i: int) { fs <= i < fe }
    predicate InTo(i: int) { ts <= i < te }

    /** An object starts at word i of from-space. */
    predicate ObjAt(i: int)
      requires Sized()
    {
      InFrom(i) && st[i]
    }

    predicate ConsAt(i: int)
      requires Sized() && InFrom(i)
    {
      co[i]
    }

    /** The number of words of the object at i. */
    function ObjWords(i: int): int
      requires Sized() && InFrom(i)
    {
      if ConsAt(i) then 2 else len[i]
    }

    /** `copy` moves the object at i: its size is sane and it ends in from-space.
        (A cons always does: from-space ends on a 16-byte boundary.) */
    predicate Fits(i: int)
      requires Sized() && InFrom(i)
    {
      2 <= ObjWords(i) && i + ObjWords(i) <= fe
    }

    predicate Movable(i: int)
      requires Sized()
    {
      ObjAt(i) && Fits(i)
    }

    /** scanWord's own tests (web/mvm.js:616-626). */
    predicate IsRef(w: Word)
      requires Sized()
    {
      && w.hi == 0
      && (w.lo % 16 == 1 || w.lo % 16 == 9)
      && ObjAt(Target(w))
      && (co[Target(w)] <==> w.lo % 16 == 1)
    }

    /** A word the collector redirects. */
    predicate Moves(w: Word)
      requires Sized()
    {
      IsRef(w) && Fits(Target(w))
    }

    /** The words scanned as roots, apart from VR. */
    predicate IsRoot(i: int) {
      sp <= i < STACK_TOP || 0 <= i < BSS_WORDS
    }

    /** R holds every object a root refers to, and whatever its members refer to. */
    ghost predicate Closed(R: set<int>)
      requires Sized()
    {
      && (forall i :: IsRoot(i) && Moves(m[i]) ==> Target(m[i]) in R)
      && (Moves(vr) ==> Target(vr) in R)
      && (forall o :: o in R && Movable(o) ==> MembersIn(o, R))
    }

    ghost predicate MembersIn(o: int, R: set<int>)
      requires Sized() && Movable(o)
    {
      forall i :: o <= i < o + ObjWords(o) && Moves(m[i]) ==> Target(m[i]) in R
    }

    /** Whatever set of objects the roots hold, the word's object is in it. */
    ghost predicate Forced(w: Word)
      requires Sized()
    {
      forall R: set<int> :: Closed(R) && Moves(w) ==> Target(w) in R
    }

    /** Distinct objects occupy distinct words, only objects are marked as
        conses, and no first word looks forwarded. */
    ghost predicate Collectable()
      requires Sized()
    {
      && (forall o, p :: Movable(o) && ObjAt(p) && o < p ==> o + ObjWords(o) <= p)
      && (forall o :: ObjAt(o) ==> m[o].lo % 16 != 15)
      && (forall i :: InFrom(i) && co[i] ==> st[i])
    }

    // ---- the heap invariant ---------------------------------------------------

    /** A header word that no pointer test can ever accept. */
    static predicate HeaderSafe(h: Word) {
      h.hi != 0 || (h.lo % 16 != 1 && h.lo % 16 != 9) || !(Addr(PAGE_BASE) <= h.lo)
    }

    /** The object at i: bits at its start only, and a first word that is
        neither a forwarding mark nor, in a header, a possible pointer. */
    ghost predicate GoodObj(i: int, end: int)
      requires Sized()
    {
      && ObjAt(i)
      && 2 <= ObjWords(i) && i + ObjWords(i) <= end <= fe
      && (forall j :: i < j < i + ObjWords(i) ==> !st[j] && !co[j])
      && m[i].lo % 16 != 15
      && (!ConsAt(i) ==> HeaderSafe(m[i]))
    }

    /** Objects tile [i, end) exactly by their header-derived sizes. */
    ghost predicate Tiles(i: int, end: int)
      requires Sized() && end <= fe
      decreases end - i
    {
      i == end || (i < end && GoodObj(i, end) && Tiles(i + ObjWords(i), end))
    }

    /** Objects tile the used part of from-space; no other bit of either
        space is set. */
    ghost predicate HeapOk(end: int) {
      && Sized()
      && fs <= end <= fe
      && Tiles(fs, end)
      && (forall i :: end <= i < fe ==> !st[i] && !co[i])
      && (forall i :: InTo(i) ==> !st[i] && !co[i])
    }
  }

  function Target(w: Word): int {
    Ix(w.lo - w.lo % 16)
  }

  /** What the collector has decided so far: where each moved object went, and
      for each word of to-space in use, which from-space word and object it
      was copied from. */
  datatype Plan = Plan(fwd: map<int, Slot>, origin: seq<int>, owner: seq<int>)
  {
    /** A word as it reads after the move. */
    function Rename(s: Snap, w: Word): Word
      requires s.Sized()
    {
      if s.Moves(w) && Target(w) in fwd then Word(Addr(fwd[Target(w)]) + w.lo % 16, 0) else w
    }

    /** The word's object, if it has one, has been moved. */
    predicate Resolved(s: Snap, w: Word)
      requires s.Sized()
    {
      s.Moves(w) ==> Target(w) in fwd
    }

    /** The moved objects' images tile [ts, ts + |origin|). */
    ghost predicate Ok(s: Snap)
      requires s.Sized()
    {
      && |owner| == |origin| && s.ts + |origin| <= s.te
      && (forall o :: o in fwd ==> s.Movable(o) && ImageOk(s, o))
      && (forall j :: 0 <= j < |origin| ==> OwnerOk(s, j))
      && (forall o, j :: o in fwd && fwd[o] <= s.ts + j < fwd[o] + s.ObjWords(o) ==> owner[j] == o)
      && (|origin| > 0 ==> StartsAt(s, s.ts))
    }

    ghost predicate ImageOk(s: Snap, o: int)
      requires s.Sized() && s.InFrom(o) && o in fwd && |owner| == |origin|
    {
      var e := fwd[o] + s.ObjWords(o);
      && s.ts <= fwd[o] && e <= s.ts + |origin|
      && (e < s.ts + |origin| ==> StartsAt(s, e))
    }

    /** Images start on 16-byte boundaries, so a tag can be added to their addresses. */
    ghost predicate Even() {
      forall o :: o in fwd ==> On16(Addr(fwd[o]))
    }

    /** The image of some moved object starts at to-space word i. */
    ghost predicate StartsAt(s: Snap, i: int)
      requires |owner| == |origin|
    {
      s.ts <= i < s.ts + |origin| && owner[i - s.ts] in fwd && fwd[owner[i - s.ts]] == i
    }

    ghost predicate OwnerOk(s: Snap, j: int)
      requires s.Sized() && 0 <= j < |origin| == |owner|
    {
      var o := owner[j];
      && o in fwd && s.InFrom(o)
      && fwd[o] <= s.ts + j < fwd[o] + s.ObjWords(o)
      && origin[j] == o + (s.ts + j - fwd[o])
      && s.InFrom(origin[j])
    }

    /** Every moved object is forced to move by the roots. */
    ghost predicate Least(s: Snap)
      requires s.Sized()
    {
      forall R: set<int> :: s.Closed(R) ==> fwd.Keys <= R
    }

    /** The plan after moving one more object. */
    ghost function Extend(s: Snap, o: int): Plan
      requires s.Sized() && s.Movable(o) && 0 <= s.ts + |origin| <= 0xDFF_FFFE
    {
      var n := s.ObjWords(o);
      Plan(fwd[o := s.ts + |origin|], origin + seq(if n >= 0 then n else 0, k => o + k), owner + seq(if n >= 0 then n else 0, k => o))
    }

    /** From-space during the collection: moved objects carry the forwarding mark. */
    ghost predicate MemOk(s: Snap, m: seq<Word>)
      requires s.Sized()
    {
      |m| == |s.m| && forall i :: s.InFrom(i) ==> m[i] == FromWord(s, i)
    }

    ghost function FromWord(s: Snap, i: int): Word
      requires s.Sized() && s.InFrom(i)
    {
      if i in fwd then Word(Addr(fwd[i]) + 15, s.m[i].hi) else s.m[i]
    }

    /** A bitmap during the collection: images carry the bits of their originals. */
    ghost predicate BitsOk(s: Snap, was: seq<bool>, bits: seq<bool>)
      requires s.Sized() && |was| == |s.m|
    {
      |bits| == |was| && forall i :: 0 <= i < |was| ==> bits[i] == BitNow(s, was, i)
    }

    ghost function BitNow(s: Snap, was: seq<bool>, i: int): bool
      requires s.Sized() && |was| == |s.m| && 0 <= i < |was|
    {
      if s.InTo(i) then
        i - s.ts < |origin| && 0 <= origin[i - s.ts] < |was| && was[origin[i - s.ts]]
      else was[i]
    }

    /** This plan only added to p. */
    ghost predicate Extends(p: Plan) {
      && (forall o :: o in p.fwd ==> o in fwd && fwd[o] == p.fwd[o])
      && p.origin <= origin && p.owner <= owner
    }

    /** Memory m1 is m0 after o's words were copied behind the images of p. */
    static ghost predicate CopiedOne(s: Snap, p: Plan, o: int, m0: seq<Word>, m1: seq<Word>)
      requires s.Sized()
    {
      && |m0| == |m1| == |s.m| && |p.owner| == |p.origin| && s.Movable(o) && o !in p.fwd
      && s.ts + |p.origin| + s.ObjWords(o) <= s.te
      && (forall i :: 0 <= i < |m0| && !s.InFrom(i) && !(s.ts + |p.origin| <= i < s.ts + |p.origin| + s.ObjWords(o)) ==> m1[i] == m0[i])
      && (forall i :: s.ts + |p.origin| <= i < s.ts + |p.origin| + s.ObjWords(o) ==> m1[i] == s.m[o + (i - s.ts - |p.origin|)])
    }

    /** The effect of one call of `copy` for the word w. */
    ghost predicate CopyStep(s: Snap, p: Plan, w: Word, m0: seq<Word>, m1: seq<Word>)
      requires s.Sized()
    {
      || (this == p && m1 == m0 && Resolved(s, w))
      || (s.Moves(w) && CopiedOne(s, p, Target(w), m0, m1) && this == p.Extend(s, Target(w)))
    }

    /** The copied words of to-space: the first j0 have been scanned. */
    ghost predicate ToOk(s: Snap, m: seq<Word>, j0: int)
      requires s.Sized() && |m| == |s.m|
    {
      && s.ts + |origin| <= s.te && 0 <= j0 <= |origin|
      && forall j :: 0 <= j < |origin| ==> 0 <= origin[j] < |s.m| && ScanOk(s, s.m[origin[j]], m[s.ts + j], j < j0)
    }

    /** Outside the semispaces: the roots in [sp, stk) and [0, bss) have been
        scanned, and nothing else has changed, from word low on. */
    ghost predicate OutsideOk(s: Snap, m: seq<Word>, stk: int, bss: int, low: int)
      requires s.Sized() && |m| == |s.m| && 0 <= low
    {
      forall i :: low <= i < |m| && !s.InFrom(i) && !s.InTo(i) ==> ScanOk(s, s.m[i], m[i], s.sp <= i < stk || i < bss)
    }

    /** What scanning makes of the word was. */
    ghost predicate ScanOk(s: Snap, was: Word, now: Word, scanned: bool)
      requires s.Sized()
    {
      if scanned then now == Rename(s, was) && Resolved(s, was) else now == was
    }
  }

  /** A word tagged like a pointer: the tests gc makes on VR before scanning it. */
  predicate Tagged(w: Word) {
    w.hi == 0 && (w.lo % 16 == 1 || w.lo % 16 == 9)
  }

  /** State t is state s after a collection that moved objects by plan p:
      - p.fwd is injective, with images that tile the new space (p.Ok), and
        moves exactly the least set of objects the roots force;
      - every root and every word of a moved object is renamed by p.fwd, and
        every other word of memory is as it was, save four BSS words: the two
        space registers and the count the collector keeps there, and word 0,
        which serves as scratch for VR and is left zero when VR is tagged. */
  ghost predicate Collected(s: Snap, t: Snap, p: Plan)
    requires s.Sized()
  {
    && t.Sized() && |t.m| == |s.m| && t.sp == s.sp && t.len == Lengths(t.m)
    && t.fs == s.ts && t.fe == s.te && t.ts == s.fs && t.te == s.fe
    && p.Ok(s) && p.Even() && p.Least(s) && s.Closed(p.fwd.Keys)
    && RootsRenamed(s, t, p)
    && ImagesRenamed(s, t, p)
    && RestKept(s, t)
  }

  ghost predicate RootsRenamed(s: Snap, t: Snap, p: Plan)
    requires s.Sized() && |t.m| == |s.m|
  {
    && (forall i :: s.IsRoot(i) && !Register(i) ==> t.m[i] == p.Rename(s, s.m[i]))
    && t.m[0] == (if Tagged(s.vr) then Word(0, 0) else p.Rename(s, s.m[0]))
    && t.vr == p.Rename(s, s.vr)
  }

  ghost predicate ImagesRenamed(s: Snap, t: Snap, p: Plan)
    requires s.Sized() && |t.m| == |t.st| == |t.co| == |s.m| && p.Ok(s)
  {
    && (forall j :: 0 <= j < |p.origin| ==> ImageRenamed(s, t, p, j))
    && (forall i :: s.ts + |p.origin| <= i < s.te ==> !t.st[i] && !t.co[i])
  }

  ghost predicate ImageRenamed(s: Snap, t: Snap, p: Plan, j: int)
    requires s.Sized() && |t.m| == |t.st| == |t.co| == |s.m| && p.Ok(s) && 0 <= j < |p.origin|
  {
    && p.OwnerOk(s, j)
    && t.m[s.ts + j] == p.Rename(s, s.m[p.origin[j]])
    && t.st[s.ts + j] == s.st[p.origin[j]] && t.co[s.ts + j] == s.co[p.origin[j]]
  }

  ghost predicate RestKept(s: Snap, t: Snap)
    requires s.Sized() && |t.m| == |t.st| == |t.co| == |s.m|
  {
    && (forall i :: 0 <= i < |s.m| && !s.IsRoot(i) && !s.InFrom(i) && !s.InTo(i) ==> t.m[i] == s.m[i])
    && (forall i :: s.InFrom(i) ==> !t.st[i] && !t.co[i])
  }

  predicate Register(i: int) {
    i == 0 || i == IX_GC_FROM || i == IX_GC_TO || i == IX_GC_COUNT
  }
}
