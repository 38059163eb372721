/** The Cheney collector of web/mvm.js:583-642, in place on the machine's
    memory and bitmaps. */
module Collector {
  import opened Words
  import opened Heap
  import opened PlanFacts
  import opened Tiling
  import opened HeapRuns

  class Machine {
    const blocks: int      // the semispace size, in units of 128 bytes
    const mem: array<Word>
    const startBmp: array<bool>
    const consBmp: array<bool>
    var esp: int
    var va: int
    var vl: int
    var vrl: int32
    var vrh: int32
    var gcCount: int
    var free: int          // gc's to-space cursor
    ghost var plan: Plan

    function Semi(): int { 128 * blocks }

    /** The array sizes the constructor chooses (web/mvm.js:212-224): memory
        from VBASE to heapEnd, and a bit for every 16 bytes of the heap. */
    predicate Shape() {
      && 8 < blocks < 0x6B_4000
      && mem.Length == 0x98_0000 + 32 * blocks
      && startBmp.Length == consBmp.Length == 0x10_0000 + 16 * blocks
      && startBmp != consBmp
    }

    /** initMemory (378-398): an empty lower semispace, and zeroed bitmaps. */
    constructor (blocks: int)
      requires 8 < blocks < 0x6B_4000
      ensures HeapInv()
    {
      this.blocks := blocks;
      mem := new Word[0x98_0000 + 32 * blocks](_ => Word(0, 0));
      startBmp := new bool[0x10_0000 + 16 * blocks](_ => false);
      consBmp := new bool[0x10_0000 + 16 * blocks](_ => false);
      esp := Addr(STACK_TOP) - 16;
      va := 0x13C0_0400;
      vl := 0x13C0_0400 + (128 * blocks - 0x400);
      vrl, vrh, gcCount, free := 0, 0, 0, 0;
      plan := Plan(map[], [], []);
      new;
      mem[IX_GC_FROM] := Word(Lower(), 0);
      mem[IX_GC_TO] := Word(Upper(), 0);
      mem[IX_GC_SIZE] := Word(SpaceSize(), 0);
      EmptyHeap();
    }

    lemma EmptyHeap()
      requires Spaces() && mem[IX_GC_FROM] == Word(Lower(), 0) && esp == Addr(STACK_TOP) - 16 && va == Lower() && vl == Lower() + SpaceSize()
      requires forall g :: 0 <= g < startBmp.Length ==> !startBmp[g] && !consBmp[g]
      ensures HeapInv()
    {
      Geometry();
      LowerSpace(blocks);
      hide Lengths, Granule, Ix, On16;
    }

    predicate IsStart(raw: int)
      reads startBmp
      requires 0 <= Granule(Ix(raw)) < startBmp.Length
    {
      startBmp[Granule(Ix(raw))]
    }

    predicate IsCons(raw: int)
      reads consBmp
      requires 0 <= Granule(Ix(raw)) < consBmp.Length
    {
      consBmp[Granule(Ix(raw))]
    }

    ghost function Starts(): (r: seq<bool>)
      reads startBmp
      ensures |r| == mem.Length
    {
      Spread(startBmp[..], mem.Length)
    }

    ghost function Conses(): (r: seq<bool>)
      reads consBmp
      ensures |r| == mem.Length
    {
      Spread(consBmp[..], mem.Length)
    }

    /** Both semispaces begin and end on a byte boundary of the bitmaps. */
    static ghost predicate Aligned(s: Snap) {
      && (s.fs - PAGE_BASE) % 16 == 0 && (s.fe - PAGE_BASE) % 16 == 0
      && (s.ts - PAGE_BASE) % 16 == 0 && (s.te - PAGE_BASE) % 16 == 0
    }

    /** Memory and bitmaps midway through a collection that began in state s. */
    ghost predicate Midway(s: Snap)
      reads this, mem, startBmp, consBmp
    {
      && Shape() && s.Sized() && mem.Length == |s.m| && Aligned(s) && s.Collectable() && s.len == Lengths(s.m)
      && plan.Ok(s) && plan.Even()
      && free == Addr(s.ts + |plan.origin|) && On16(free) && On16(Addr(s.fe))
      && plan.MemOk(s, mem[..])
      && plan.BitsOk(s, s.st, Starts()) && plan.BitsOk(s, s.co, Conses())
    }

    method MarkStart(raw: int)
      requires Shape() && On16(raw) && PAGE_BASE <= Ix(raw) < mem.Length
      modifies startBmp
      ensures Starts() == old(Starts())[Ix(raw) := true]
    {
      GranuleBound(Ix(raw));
      startBmp[Granule(Ix(raw))] := true;
    }

    method MarkCons(raw: int)
      requires Shape() && On16(raw) && PAGE_BASE <= Ix(raw) < mem.Length
      modifies consBmp
      ensures Conses() == old(Conses())[Ix(raw) := true]
    {
      GranuleBound(Ix(raw));
      consBmp[Granule(Ix(raw))] := true;
    }

    /** A bit read at an address is the bit spread out at its word. */
    lemma BitAt(i: int)
      requires Shape() && PAGE_BASE <= i < mem.Length && On16(Addr(i))
      ensures 0 <= Granule(Ix(Addr(i))) < startBmp.Length
      ensures IsStart(Addr(i)) == Starts()[i] && IsCons(Addr(i)) == Conses()[i]
    {
      assert Ix(Addr(i)) == i;
      GranuleBound(i);
      assert IsFirst(i);
    }

    lemma GranuleBound(i: int)
      requires Shape() && PAGE_BASE <= i < mem.Length
      ensures 0 <= Granule(i) < startBmp.Length
    {
    }

    /** copyWithin, for ranges that do not meet */
    method CopyWithin(dst: int, src: int, n: int)
      requires 0 <= n && 0 <= dst && dst + n <= mem.Length && 0 <= src && src + n <= mem.Length
      requires dst + n <= src || src + n <= dst
      modifies mem
      ensures forall i :: 0 <= i < mem.Length ==> mem[i] == old(if dst <= i < dst + n then mem[src + (i - dst)] else mem[i])
    {
      forall k | 0 <= k < n {
        mem[dst + k] := mem[src + k];
      }
    }

    /** `copy`, first part (web/mvm.js:595-607): the reference to a moved object,
        or else the size to move, or else v itself when the size is not sane. */
    method Examine(v: int32, fromEnd: int, ghost s: Snap) returns (done: bool, r: int32, size: int)
      requires Midway(s) && s.IsRef(Word(v, 0)) && fromEnd == Addr(s.fe)
      ensures done ==> Word(r, 0) == plan.Rename(s, Word(v, 0)) && plan.Resolved(s, Word(v, 0))
      ensures !done ==> s.Movable(Target(Word(v, 0))) && Target(Word(v, 0)) !in plan.fwd
      ensures !done ==> size == 8 * s.ObjWords(Target(Word(v, 0))) && On16(size)
      ensures Addr(Target(Word(v, 0))) == v - v % 16 && On16(v - v % 16)
    {
      hide Spread, Granule, Snap.Collectable, Aligned, Plan.Ok, SizeOf;
      var tag := v % 16;
      var raw := v - tag;
      var hi := Ix(raw);
      ghost var o := Target(Word(v, 0));
      TargetAddr(v);
      IxAddr(o);
      assert hi == o && raw == Addr(o);
      var hdr := mem[hi];
      assert hdr == mem[..][o] == plan.FromWord(s, o);
      Unmarked(s, o);
      OkParts(s, plan, o);
      if hdr.lo % 16 == 15 {
        assert o in plan.fwd && On16(Addr(plan.fwd[o]));
        return true, hdr.lo - hdr.lo % 16 + tag, 0;
      }
      assert o !in plan.fwd;
      BitAt(o);
      assert Conses()[o] == plan.BitNow(s, s.co, o);
      if IsCons(raw) {
        return false, v, 16;
      }
      size := SizeOf(hdr);
      SizeMultiple(hdr);
      assert s.ObjWords(o) == size / 8;
      return size < 16 || raw + size > fromEnd, v, size;
    }

    /** `copy`, second part (608-614): move an object to the to-space cursor. */
    method Evacuate(raw: int, size: int, ghost s: Snap, ghost o: int)
      requires Midway(s) && s.Movable(o) && o !in plan.fwd && raw == Addr(o)
      requires size == 8 * s.ObjWords(o) && On16(size) && On16(raw)
      modifies this`free, this`plan, mem, startBmp, consBmp
      ensures Midway(s) && plan == old(plan).Extend(s, o)
      ensures Plan.CopiedOne(s, old(plan), o, old(mem[..]), mem[..])
    {
      hide Spread, Granule, Snap.Collectable, Aligned, Plan.Ok, Plan.Extend, Lengths, On16, Ix;
      ExtendOk(s, plan, o);
      var dst := free;
      var hi, di, n := Ix(raw), Ix(dst), size / 8;
      IxAddr(o);
      IxAddr(s.ts + |plan.origin|);
      On16Sum(free, size);
      assert hi == o && di == s.ts + |plan.origin| && n == s.ObjWords(o);
      ghost var m0, st0, co0 := mem[..], Starts(), Conses();
      assert Conses()[o] == plan.BitNow(s, s.co, o);
      BitAt(o);
      var cons := IsCons(raw);
      CopyWithin(di, hi, n);
      free := free + size;
      MarkStart(dst);
      if cons {
        MarkCons(dst);
      }
      mem[hi] := Word(dst + 15, mem[hi].hi);
      FinishMove(s, o, m0, st0, co0);
    }

    static lemma OkSizes(s: Snap, p: Plan, m0: seq<Word>, st0: seq<bool>, co0: seq<bool>)
      requires s.Sized() && p.MemOk(s, m0) && p.BitsOk(s, s.st, st0) && p.BitsOk(s, s.co, co0)
      ensures |m0| == |s.m| == |st0| == |co0|
    {
    }

    static lemma BitNowAt(s: Snap, p: Plan, bits: seq<bool>, now: seq<bool>, i: int)
      requires s.Sized() && |bits| == |s.m| && p.BitsOk(s, bits, now) && 0 <= i < |now|
      ensures now[i] == p.BitNow(s, bits, i)
    {
    }

    ghost method FinishMove(s: Snap, o: int, m0: seq<Word>, st0: seq<bool>, co0: seq<bool>)
      requires Shape() && s.Sized() && Aligned(s) && s.Collectable() && On16(Addr(s.fe)) && s.len == Lengths(s.m)
      requires plan.Ok(s) && plan.Even()
      requires s.Movable(o) && o !in plan.fwd
      requires free == Addr(s.ts + |plan.origin| + s.ObjWords(o)) && On16(free) && On16(Addr(s.ts + |plan.origin|))
      requires plan.MemOk(s, m0) && plan.BitsOk(s, s.st, st0) && plan.BitsOk(s, s.co, co0)
      requires s.ObjWords(o) >= 2 && s.ts + |plan.origin| + s.ObjWords(o) <= s.te
      requires mem.Length == |m0| && mem[o] == Word(Addr(s.ts + |plan.origin|) + 15, s.m[o].hi)
      requires forall i :: 0 <= i < |m0| && !(s.ts + |plan.origin| <= i < s.ts + |plan.origin| + s.ObjWords(o)) && i != o ==> mem[i] == m0[i]
      requires forall i :: s.ts + |plan.origin| <= i < s.ts + |plan.origin| + s.ObjWords(o) ==> mem[i] == m0[o + (i - s.ts - |plan.origin|)]
      requires Starts() == st0[s.ts + |plan.origin| := true]
      requires Conses() == if s.co[o] then co0[s.ts + |plan.origin| := true] else co0
      modifies this`plan
      ensures Midway(s) && plan == old(plan).Extend(s, o)
      ensures Plan.CopiedOne(s, old(plan), o, m0, mem[..])
    {
      hide Snap.Collectable, Aligned, Plan.Ok, Plan.Extend, Spread, Lengths, Granule, On16, Plan.MemOk, Plan.BitsOk;
      OkSizes(s, plan, m0, st0, co0);
      OkParts(s, plan, o);
      ObjIntact(s, plan, o, m0);
      assert Plan.CopiedOne(s, plan, o, m0, mem[..]);
      MoveMem(s, plan, o, m0, mem[..]);
      MoveBits(s, plan, o, s.st, st0, Starts());
      BitNowAt(s, plan, s.co, co0, s.ts + |plan.origin|);
      MoveBits(s, plan, o, s.co, co0, Conses());
      ExtendOk(s, plan, o);
      ExtendEntries(s, plan, o);
      plan := plan.Extend(s, o);
    }

    /** `copy` (web/mvm.js:595-615): move the object v refers to unless it has
        moved already or its size is not sane, and return the new reference. */
    method Copy(v: int32, fromEnd: int, ghost s: Snap) returns (r: int32)
      requires Midway(s) && s.IsRef(Word(v, 0)) && fromEnd == Addr(s.fe)
      modifies this`free, this`plan, mem, startBmp, consBmp
      ensures Midway(s)
      ensures plan.CopyStep(s, old(plan), Word(v, 0), old(mem[..]), mem[..])
      ensures Word(r, 0) == plan.Rename(s, Word(v, 0))
    {
      hide Snap.Collectable, Plan.Ok, Plan.MemOk, Plan.BitsOk, Spread, Lengths, On16, Ix, Target, Aligned;
      var done, ref, size := Examine(v, fromEnd, s);
      if done {
        return ref;
      }
      var tag := v % 16;
      var dst := free;
      Evacuate(v - tag, size, s, Target(Word(v, 0)));
      return dst + tag;
    }

    /** The tests of `scanWord` read the bits the collection began with. */
    lemma TestsAt(v: int32, s: Snap)
      requires Midway(s)
      ensures Addr(s.fs) <= v - v % 16 < Addr(s.fe) <==> s.InFrom(Target(Word(v, 0)))
      ensures s.InFrom(Target(Word(v, 0))) ==>
        && 0 <= Granule(Ix(v - v % 16)) < startBmp.Length
        && IsStart(v - v % 16) == s.st[Target(Word(v, 0))]
        && IsCons(v - v % 16) == s.co[Target(Word(v, 0))]
    {
      hide Snap.Collectable, Plan.Ok, Plan.MemOk, Spread, Lengths;
      var o := Target(Word(v, 0));
      TargetAddr(v);
      hide Ix, On16, Target, Granule;
      if s.InFrom(o) {
        BitAt(o);
        assert Starts()[o] == plan.BitNow(s, s.st, o);
        assert Conses()[o] == plan.BitNow(s, s.co, o);
      }
    }

    /** `scanWord` (616-626) on memory word i.  mid is memory after the object
        has moved and before the word is written. */
    method ScanWord(i: int, fromStart: int, fromEnd: int, ghost s: Snap) returns (ghost mid: seq<Word>)
      requires Midway(s) && fromStart == Addr(s.fs) && fromEnd == Addr(s.fe)
      requires 0 <= i < mem.Length && !s.InFrom(i) && (s.InTo(i) ==> i < s.ts + |plan.origin|)
      modifies this`free, this`plan, mem, startBmp, consBmp
      ensures Midway(s)
      ensures plan.CopyStep(s, old(plan), old(mem[i]), old(mem[..]), mid)
      ensures |mid| == mem.Length && mem[..] == mid[i := plan.Rename(s, old(mem[i]))]
    {
      hide Snap.Collectable, Plan.Ok, Plan.BitsOk, Plan.MemOk, Spread, Lengths, Granule;
      mid := mem[..];
      if mem[i].hi != 0 { return; }
      var v := mem[i].lo;
      var tag := v % 16;
      if tag != 1 && tag != 9 { return; }
      var raw := v - tag;
      TestsAt(v, s);
      if raw < fromStart || raw >= fromEnd { return; }
      if !IsStart(raw) { return; }
      if IsCons(raw) != (tag == 1) { return; }
      var r := Copy(v, fromEnd, s);
      mid := mem[..];
      WriteOutside(s, plan, mid, i, Word(r, 0));
      mem[i] := Word(r, 0);
      assert mem[..] == mid[i := Word(r, 0)];
    }

    // ---- one whole collection -----------------------------------------------------

    function Lower(): int { 0x13C0_0400 }
    function Upper(): int { 0x13C0_0000 + Semi() }
    function SpaceSize(): int { Semi() - 0x400 }

    /** The space registers in the BSS name the two semispaces. */
    predicate Spaces()
      reads mem
    {
      && Shape()
      && mem[IX_GC_SIZE] == Word(SpaceSize(), 0)
      && ((mem[IX_GC_FROM] == Word(Lower(), 0) && mem[IX_GC_TO] == Word(Upper(), 0))
       || (mem[IX_GC_FROM] == Word(Upper(), 0) && mem[IX_GC_TO] == Word(Lower(), 0)))
    }

    ghost function Now(): Snap
      reads this, mem, startBmp, consBmp
      requires Spaces()
    {
      var f, t := mem[IX_GC_FROM].lo, mem[IX_GC_TO].lo;
      Snap(mem[..], Lengths(mem[..]), Starts(), Conses(), Word(vrl, vrh), Ix(esp),
           Ix(f), Ix(f + SpaceSize()), Ix(t), Ix(t + SpaceSize()))
    }

    /** What the collector sees: memory, VR, the stack from esp, the spaces its
        registers name, and a bit for every granule of them. */
    lemma NowIs(i: int)
      requires Spaces() && 0 <= i < mem.Length
      ensures var s := Now();
        && s.m == mem[..] && s.vr == Word(vrl, vrh) && s.sp == (esp - 0x1000_0000) / 8
        && s.fs == (mem[8].lo - 0x1000_0000) / 8 && s.ts == (mem[9].lo - 0x1000_0000) / 8
        && s.fe == (mem[8].lo + mem[10].lo - 0x1000_0000) / 8 && s.te == (mem[9].lo + mem[10].lo - 0x1000_0000) / 8
        && mem[10].lo == 128 * blocks - 0x400 && mem[8].lo in {0x13C0_0400, 0x13C0_0000 + 128 * blocks}
        && (s.st[i] <==> 0x78_0080 <= i && i % 2 == 0 && (i - 0x78_0080) / 2 < startBmp.Length && startBmp[(i - 0x78_0080) / 2])
        && (s.co[i] <==> 0x78_0080 <= i && i % 2 == 0 && (i - 0x78_0080) / 2 < consBmp.Length && consBmp[(i - 0x78_0080) / 2])
    {
      hide Lengths;
    }

    /** What every allocation and every collection keeps. */
    ghost predicate HeapInv()
      reads this, mem, startBmp, consBmp
    {
      && Spaces()
      && Addr(STACK_LOW) <= esp <= Addr(STACK_TOP) && esp % 8 == 0
      && On16(va) && Now().HeapOk(Ix(va))
      && vl == mem[IX_GC_FROM].lo + SpaceSize()
    }

    /** Everything a collection in progress has established. */
    ghost predicate Scanning(s: Snap, j0: int, stk: int, bss: int, low: int)
      reads this, mem, startBmp, consBmp
    {
      && Midway(s) && plan.Least(s) && 0 <= low
      && plan.ToOk(s, mem[..], j0) && plan.OutsideOk(s, mem[..], stk, bss, low)
    }

    /** scanWord on the next root: stack word stk or BSS word bss. */
    method ScanRoot(i: int, fromStart: int, fromEnd: int, ghost s: Snap, ghost stk: int, ghost bss: int)
      requires Scanning(s, 0, stk, bss, 0)
      requires fromStart == Addr(s.fs) && fromEnd == Addr(s.fe)
      requires s.sp <= stk <= STACK_TOP
      requires (i == stk && stk < STACK_TOP) || (i == bss && 0 <= bss < BSS_WORDS)
      requires !(s.sp <= i < stk) && !(0 <= i < bss)
      modifies this`free, this`plan, mem, startBmp, consBmp
      ensures Scanning(s, 0, if i == stk then stk + 1 else stk, if i == stk then bss else bss + 1, 0)
      ensures plan.Resolved(s, s.m[i]) && mem[i] == plan.Rename(s, s.m[i])
    {
      hide Plan.Ok, Snap.Collectable, Plan.MemOk, Plan.BitsOk, Spread, Lengths, Plan.ToOk, Plan.OutsideOk, Plan.Least, Snap.Forced, Plan.CopyStep, Aligned;
      ghost var p, m0 := plan, mem[..];
      RootUntouched(s, p, m0, i, stk, bss);
      ghost var mid := ScanWord(i, fromStart, fromEnd, s);
      ForcedRoot(s, i);
      StepKeeps(s, p, plan, s.m[i], m0, mid, 0, stk, bss, 0);
      RootWritten(s, plan, mid, i, 0, stk, bss, 0, if i == stk then stk + 1 else stk, if i == stk then bss else bss + 1);
    }

    /** scanWord on VR, through BSS word 0 (web/mvm.js:629-630). */
    method ScanVr(fromStart: int, fromEnd: int, ghost s: Snap)
      requires Scanning(s, 0, STACK_TOP, BSS_WORDS, 0)
      requires fromStart == Addr(s.fs) && fromEnd == Addr(s.fe) && s.vr == Word(vrl, vrh)
      requires plan.Resolved(s, s.m[0]) && mem[0] == plan.Rename(s, s.m[0])
      modifies this`free, this`plan, this`vrl, mem, startBmp, consBmp
      ensures Scanning(s, 0, STACK_TOP, BSS_WORDS, 1)
      ensures plan.Resolved(s, s.m[0]) && plan.Resolved(s, s.vr)
      ensures Word(vrl, vrh) == plan.Rename(s, s.vr)
      ensures mem[0] == if Tagged(s.vr) then Word(0, 0) else plan.Rename(s, s.m[0])
    {
      hide Plan.Ok, Snap.Collectable, Plan.MemOk, Plan.BitsOk, Spread, Lengths, Plan.ToOk, Plan.OutsideOk,
           Plan.Least, Snap.Forced, Plan.CopyStep, Aligned;
      WeakenLow(s, plan, mem[..], 0);
      if vrh == 0 {
        var t := vrl % 16;
        if t == 1 || t == 9 {
          ghost var p, m0 := plan, mem[..];
          ZeroFree(s, p, m0, Word(vrl, 0), 0);
          WriteOutside(s, p, m0, 0, Word(vrl, 0));
          mem[0] := Word(vrl, 0);
          assert mem[..] == m0[0 := Word(vrl, 0)];
          ghost var mid := ScanWord(0, fromStart, fromEnd, s);
          ForcedVr(s);
          StepKeeps(s, p, plan, s.vr, m0[0 := Word(vrl, 0)], mid, 0, STACK_TOP, BSS_WORDS, 1);
          ScanStable(s, p, plan, s.m[0], p.Rename(s, s.m[0]), true);
          vrl := mem[0].lo;
          ZeroFree(s, plan, mid, Word(0, 0), 0);
          WriteOutside(s, plan, mem[..], 0, Word(0, 0));
          mem[0] := Word(0, mem[0].hi);
          assert mem[..] == mid[0 := Word(0, 0)];
        }
      }
    }

    /** The stack and the BSS (web/mvm.js:627-628). */
    method ScanRoots(fromStart: int, fromEnd: int, ghost s: Snap)
      requires s.Sized() && Scanning(s, 0, s.sp, 0, 0) && s.sp == Ix(esp) && esp % 8 == 0
      requires fromStart == Addr(s.fs) && fromEnd == Addr(s.fe)
      modifies this`free, this`plan, mem, startBmp, consBmp
      ensures Scanning(s, 0, STACK_TOP, BSS_WORDS, 0)
    {
      hide Midway, Plan.Least, Plan.ToOk, Plan.OutsideOk;
      var a := esp;
      while a < Addr(STACK_TOP)
        invariant a % 8 == 0 && s.sp <= Ix(a) <= STACK_TOP
        invariant Scanning(s, 0, Ix(a), 0, 0)
      {
        ScanRoot(Ix(a), fromStart, fromEnd, s, Ix(a), 0);
        a := a + 8;
      }
      a := Addr(0);
      while a < Addr(BSS_WORDS)
        invariant a % 8 == 0 && 0 <= Ix(a) <= BSS_WORDS
        invariant Scanning(s, 0, STACK_TOP, Ix(a), 0)
      {
        ScanRoot(Ix(a), fromStart, fromEnd, s, STACK_TOP, Ix(a));
        a := a + 8;
      }
    }

    /** The words of the objects moved so far, and of those they move (631).
        The loop ends because the cursor cannot pass the end of to-space. */
    method ScanMoved(toStart: int, fromStart: int, fromEnd: int, ghost s: Snap)
      requires Scanning(s, 0, STACK_TOP, BSS_WORDS, 1) && toStart == Addr(s.ts)
      requires fromStart == Addr(s.fs) && fromEnd == Addr(s.fe)
      modifies this`free, this`plan, mem, startBmp, consBmp
      ensures Scanning(s, |plan.origin|, STACK_TOP, BSS_WORDS, 1)
      ensures plan.Extends(old(plan)) && mem[0] == old(mem[0])
    {
      hide Plan.Ok, Snap.Collectable, Plan.MemOk, Plan.BitsOk, Spread, Lengths, Plan.ToOk, Plan.OutsideOk,
           Plan.Least, Snap.Forced, Plan.CopyStep, Aligned, Plan.Rename, Snap.Moves;
      OkParts(s, plan, 0);
      var a := toStart;
      ghost var j := 0;
      while a < free
        invariant a == Addr(s.ts + j) && 0 <= j <= |plan.origin| <= s.te - s.ts
        invariant Scanning(s, j, STACK_TOP, BSS_WORDS, 1)
        invariant plan.Extends(old(plan)) && mem[0] == old(mem[0])
        decreases Addr(s.te) - a
      {
        ScanMember(Ix(a), fromStart, fromEnd, s, j);
        OkParts(s, plan, 0);
        a := a + 8;
        j := j + 1;
      }
    }

    method ScanMember(i: int, fromStart: int, fromEnd: int, ghost s: Snap, ghost j: int)
      requires Scanning(s, j, STACK_TOP, BSS_WORDS, 1)
      requires 0 <= j < |plan.origin| && i == s.ts + j
      requires fromStart == Addr(s.fs) && fromEnd == Addr(s.fe)
      modifies this`free, this`plan, mem, startBmp, consBmp
      ensures Scanning(s, j + 1, STACK_TOP, BSS_WORDS, 1) && j < |plan.origin|
      ensures plan.Extends(old(plan)) && mem[0] == old(mem[0])
    {
      hide Plan.Ok, Snap.Collectable, Plan.MemOk, Plan.BitsOk, Spread, Lengths, Plan.ToOk, Plan.OutsideOk,
           Plan.Least, Snap.Forced, Aligned, Plan.Resolved;
      ghost var p, m0 := plan, mem[..];
      MemberUntouched(s, p, m0, j);
      ForcedMember(s, p, j);
      OkParts(s, p, 0);
      ghost var mid := ScanWord(i, fromStart, fromEnd, s);
      StepKeeps(s, p, plan, s.m[p.origin[j]], m0, mid, j, STACK_TOP, BSS_WORDS, 1);
      MemberWritten(s, plan, mid, j, STACK_TOP, BSS_WORDS, 1);
    }

    /** bitmap.fill(0, g0 >> 3, g1 >> 3) (web/mvm.js:636-638) */
    method Fill(bmp: array<bool>, lo: int, hi: int)
      requires Shape() && PAGE_BASE <= lo <= hi <= mem.Length && bmp.Length == startBmp.Length
      requires (lo - PAGE_BASE) % 16 == 0 && (hi - PAGE_BASE) % 16 == 0
      modifies bmp
      ensures forall i :: 0 <= i < mem.Length ==>
                Spread(bmp[..], mem.Length)[i] == (old(Spread(bmp[..], mem.Length))[i] && !(lo <= i < hi))
    {
      var b0, b1 := Granule(lo) / 8, Granule(hi) / 8;
      ByteEdge(lo);
      ByteEdge(hi);
      assert 8 * b1 <= bmp.Length by { HeapBits(); }
      forall g | 8 * b0 <= g < 8 * b1 {
        bmp[g] := false;
      }
      forall i | 0 <= i < mem.Length
        ensures Spread(bmp[..], mem.Length)[i] == (old(Spread(bmp[..], mem.Length))[i] && !(lo <= i < hi))
      {
        if IsFirst(i) {
          InBytes(lo, hi, i);
        }
      }
    }

    method ClearBits(lo: int, hi: int)
      requires Shape() && PAGE_BASE <= lo <= hi <= mem.Length
      requires (lo - PAGE_BASE) % 16 == 0 && (hi - PAGE_BASE) % 16 == 0
      modifies startBmp, consBmp
      ensures forall i :: 0 <= i < mem.Length ==> Starts()[i] == (old(Starts())[i] && !(lo <= i < hi))
      ensures forall i :: 0 <= i < mem.Length ==> Conses()[i] == (old(Conses())[i] && !(lo <= i < hi))
    {
      hide Spread;
      Fill(startBmp, lo, hi);
      Fill(consBmp, lo, hi);
    }

    static lemma ByteEdge(i: int)
      requires PAGE_BASE <= i && (i - PAGE_BASE) % 16 == 0
      ensures 8 * (Granule(i) / 8) == Granule(i) && i == PAGE_BASE + 2 * Granule(i) && 0 <= Granule(i)
    {
    }

    static lemma InBytes(lo: int, hi: int, i: int)
      requires lo == PAGE_BASE + 2 * Granule(lo) && hi == PAGE_BASE + 2 * Granule(hi) && IsFirst(i)
      ensures Granule(lo) <= Granule(i) < Granule(hi) <==> lo <= i < hi
    {
    }

    lemma HeapBits()
      requires Shape()
      ensures mem.Length - PAGE_BASE <= 2 * startBmp.Length
    {
    }

    /** The word indices behind the space registers. */
    lemma Geometry()
      requires Spaces() && Addr(STACK_LOW) <= esp <= Addr(STACK_TOP) && esp % 8 == 0
      ensures Now().Sized() && Aligned(Now()) && On16(Addr(Now().fe)) && Addr(Now().sp) == esp
      ensures Addr(Now().fs) == mem[IX_GC_FROM].lo && Addr(Now().ts) == mem[IX_GC_TO].lo
      ensures Addr(Now().fe) == mem[IX_GC_FROM].lo + SpaceSize() && Addr(Now().te) == mem[IX_GC_TO].lo + SpaceSize()
      ensures On16(mem[IX_GC_FROM].lo) && On16(mem[IX_GC_TO].lo) && On16(SpaceSize())
    {
      hide Spread, Lengths, Ix;
      LowerSpace(blocks);
      UpperSpace(blocks);
      WholeWord(esp);
    }

    /** Word indices of the edges of the two semispaces. */
    static lemma LowerSpace(h: int)
      ensures Ix(0x13C0_0400) == PAGE_BASE && Ix(0x13C0_0400 + (128 * h - 0x400)) == PAGE_BASE + 16 * (h - 8)
      ensures On16(128 * h - 0x400) && On16(0x13C0_0400)
      ensures (PAGE_BASE + 16 * (h - 8) - PAGE_BASE) % 16 == 0
    {
      IxAddr(PAGE_BASE);
      IxAddr(PAGE_BASE + 16 * (h - 8));
      Multiple16(8 * (h - 8));
      Multiple16(h - 8);
    }

    static lemma UpperSpace(h: int)
      ensures Ix(0x13C0_0000 + 128 * h) == PAGE_BASE + 16 * (h - 8)
      ensures Ix(0x13C0_0000 + 128 * h + (128 * h - 0x400)) == PAGE_BASE + 32 * (h - 8)
      ensures On16(0x13C0_0000 + 128 * h)
      ensures (PAGE_BASE + 32 * (h - 8) - PAGE_BASE) % 16 == 0
    {
      IxAddr(PAGE_BASE + 16 * (h - 8));
      IxAddr(PAGE_BASE + 32 * (h - 8));
      Multiple16(0x13C_0000 + 8 * h);
      Multiple16(2 * (h - 8));
    }

    static lemma Multiple16(k: int)
      ensures (16 * k) % 16 == 0
    {
    }

    static lemma IxAddr(i: int)
      ensures Ix(Addr(i)) == i
    {
    }

    static lemma Whole16(a: int)
      requires On16(a)
      ensures Addr(Ix(a)) == a
    {
      Eighths(a);
    }

    static lemma WholeWord(a: int)
      requires a % 8 == 0
      ensures Addr(Ix(a)) == a
    {
    }

    /** The whole collector.  It keeps the heap invariant, never grows the
        heap, and renames the words it should and no others (Collected). */
    method Gc()
      requires HeapInv()
      modifies this`free, this`plan, this`vrl, this`va, this`vl, this`gcCount, mem, startBmp, consBmp
      ensures HeapInv() && Collected(old(Now()), Now(), plan)
      ensures va - mem[IX_GC_FROM].lo <= old(va - mem[IX_GC_FROM].lo)
      ensures gcCount == old(gcCount) + 1 && mem[IX_GC_COUNT] == Word(ToInt32(gcCount), 0)
    {
      hide Spread, Lengths, Snap.Tiles, Snap.Collectable, Plan.Ok, Plan.MemOk, Plan.BitsOk, Plan.ToOk, Plan.OutsideOk,
           Plan.Least, Plan.Even, Aligned, Collected, Wrapped, ToInt32, Plan.Rename, Plan.Resolved, Register, Plan.Extends, Tagged, Ix,
           Starts, Conses, Snap.GoodObj, Addr;
      var fromStart := mem[IX_GC_FROM].lo;
      var spaceSize := mem[IX_GC_SIZE].lo;
      var fromEnd := fromStart + spaceSize;
      var toStart := mem[IX_GC_TO].lo;
      ghost var s, end := Now(), Ix(va);
      Geometry();
      Whole16(va);
      Begin(s, end, toStart);
      ScanAll(toStart, fromStart, fromEnd, s);
      ghost var m, st, co := mem[..], Starts(), Conses();
      IxAddr(s.fs);
      IxAddr(s.fe);
      Flip(fromStart, toStart, spaceSize);
      FlippedState(s, plan, m, st, co, fromStart, toStart, ToInt32(gcCount));
      Finished(s, Now(), plan, m, st, co);
      CollectedHeapOk(s, Now(), plan, end);
      IxAddr(s.ts + |plan.origin|);
      NoLarger(s.fs, end, s.ts, |plan.origin|);
    }

    /** Fewer words are fewer bytes. */
    static lemma NoLarger(from: int, end: int, to: int, n: nat)
      requires n <= end - from
      ensures Addr(to + n) - Addr(to) <= Addr(end) - Addr(from)
    {
    }

    /** All of the scanning: roots, VR, moved objects (web/mvm.js:627-631). */
    method ScanAll(toStart: int, fromStart: int, fromEnd: int, ghost s: Snap)
      requires s.Sized() && Scanning(s, 0, s.sp, 0, 0) && s.sp == Ix(esp) && esp % 8 == 0
      requires toStart == Addr(s.ts) && fromStart == Addr(s.fs) && fromEnd == Addr(s.fe) && s.vr == Word(vrl, vrh)
      modifies this`free, this`plan, this`vrl, mem, startBmp, consBmp
      ensures Scanning(s, |plan.origin|, STACK_TOP, BSS_WORDS, 1)
      ensures plan.Resolved(s, s.m[0]) && plan.Resolved(s, s.vr)
      ensures mem[0] == if Tagged(s.vr) then Word(0, 0) else plan.Rename(s, s.m[0])
      ensures Word(vrl, vrh) == plan.Rename(s, s.vr)
    {
      hide Plan.Ok, Snap.Collectable, Plan.MemOk, Plan.BitsOk, Spread, Lengths, Plan.ToOk, Plan.OutsideOk,
           Plan.Least, Aligned, Plan.Rename, Plan.Resolved, Plan.Extends, Tagged;
      ScanRoots(fromStart, fromEnd, s);
      ZeroScanned(s, plan, mem[..]);
      ScanVr(fromStart, fromEnd, s);
      ghost var p := plan;
      ScanMoved(toStart, fromStart, fromEnd, s);
      RenameStable(s, p, plan, s.m[0]);
      RenameStable(s, p, plan, s.vr);
    }

    method Begin(ghost s: Snap, ghost end: int, toStart: int)
      requires HeapInv() && s == Now() && end == Ix(va) && toStart == mem[IX_GC_TO].lo
      modifies this`free, this`plan
      ensures Scanning(s, 0, s.sp, 0, 0)
    {
      hide Spread, Lengths, Snap.Tiles, SizeOf, Snap.Collectable, Plan.Ok, Plan.MemOk, Plan.BitsOk, Plan.ToOk,
           Plan.OutsideOk, Plan.Least, Aligned;
      Geometry();
      EmptyPlan(s, end);
      HeapCollectable(s, end);
      free := toStart;
      plan := Plan(map[], [], []);
    }

    /** The registers and the old space's bits (web/mvm.js:632-640). */
    method Flip(fromStart: int, toStart: int, spaceSize: int)
      requires Shape() && spaceSize == SpaceSize()
      requires (fromStart == Lower() && toStart == Upper()) || (fromStart == Upper() && toStart == Lower())
      modifies this`va, this`vl, this`gcCount, mem, startBmp, consBmp
      ensures mem[..] == old(mem[..])[IX_GC_FROM := Word(toStart, 0)][IX_GC_TO := Word(fromStart, 0)][IX_GC_COUNT := Word(ToInt32(gcCount), 0)]
      ensures forall i :: 0 <= i < mem.Length ==> Starts()[i] == (old(Starts())[i] && !(Ix(fromStart) <= i < Ix(fromStart + spaceSize)))
      ensures forall i :: 0 <= i < mem.Length ==> Conses()[i] == (old(Conses())[i] && !(Ix(fromStart) <= i < Ix(fromStart + spaceSize)))
      ensures va == free && vl == toStart + spaceSize && gcCount == old(gcCount) + 1
    {
      hide Spread, ToInt32, Ix;
      LowerSpace(blocks);
      UpperSpace(blocks);
      mem[IX_GC_FROM] := Word(toStart, 0);
      mem[IX_GC_TO] := Word(fromStart, 0);
      va := free;
      vl := toStart + spaceSize;
      ClearBits(Ix(fromStart), Ix(fromStart + spaceSize));
      gcCount := gcCount + 1;
      mem[IX_GC_COUNT] := Word(ToInt32(gcCount), 0);
    }

    /** The flipped state, seen as a whole. */
    lemma FlippedState(s: Snap, p: Plan, m: seq<Word>, st: seq<bool>, co: seq<bool>, fromStart: int32, toStart: int32, count: int32)
      requires Shape() && s.Sized() && mem.Length == |m| == |st| == |co| == |s.m|
      requires (fromStart == Lower() && toStart == Upper()) || (fromStart == Upper() && toStart == Lower())
      requires p.OutsideOk(s, m, STACK_TOP, BSS_WORDS, 1) && s.m[IX_GC_SIZE] == Word(SpaceSize(), 0) && On16(SpaceSize())
      requires Addr(s.fs) == fromStart && Addr(s.fe) == fromStart + SpaceSize()
      requires Addr(s.ts) == toStart && Addr(s.te) == toStart + SpaceSize() && Addr(s.sp) == esp
      requires mem[..] == m[IX_GC_FROM := Word(toStart, 0)][IX_GC_TO := Word(fromStart, 0)][IX_GC_COUNT := Word(count, 0)]
      requires forall i :: 0 <= i < mem.Length ==> Starts()[i] == (st[i] && !(s.fs <= i < s.fe))
      requires forall i :: 0 <= i < mem.Length ==> Conses()[i] == (co[i] && !(s.fs <= i < s.fe))
      ensures Spaces() && Wrapped(s, Now(), m, st, co)
      ensures Now().vr == Word(vrl, vrh) && mem[IX_GC_FROM].lo == toStart && mem[IX_GC_COUNT] == Word(count, 0)
    {
      hide Spread, Lengths, Ix, Plan.OutsideOk;
      IxAddr(s.fs); IxAddr(s.fe); IxAddr(s.ts); IxAddr(s.te); IxAddr(s.sp);
      SizeRegister(s, p, m);
      assert mem[IX_GC_FROM] == mem[..][IX_GC_FROM] && mem[IX_GC_TO] == mem[..][IX_GC_TO];
      assert mem[IX_GC_SIZE] == mem[..][IX_GC_SIZE] && mem[IX_GC_COUNT] == mem[..][IX_GC_COUNT];
    }

    // ---- allocation (web/mvm.js:546-575) ---------------------------------------------

    function HeapEnd(): int { 0x13C0_0000 + 2 * Semi() + 0x0100_0000 }

    /** `bump`: ok is false when the machine faults with `heap exhausted`. */
    method Bump(total: int) returns (ok: bool, base: int)
      modifies this`va
      ensures base == old(va) && ok == (base + total <= HeapEnd())
      ensures va == if ok then base + total else base
    {
      base := va;
      ok := base + total <= HeapEnd();
      if ok {
        va := base + total;
      }
    }

    /** One object of n words now stands where the heap ended. */
    ghost predicate Placed(s: Snap, base: int, n: int, isCons: bool)
      reads this, mem, startBmp, consBmp
      requires Shape() && s.Sized() && mem.Length == |s.m|
    {
      && PAGE_BASE <= Ix(base) < mem.Length
      && On16(base) && va == base + 8 * n && On16(va) && 2 <= n && va <= vl
      && (forall i :: 0 <= i < Ix(base) ==> mem[i] == s.m[i])
      && Starts() == s.st[Ix(base) := true]
      && Conses() == (if isCons then s.co[Ix(base) := true] else s.co)
      && mem[Ix(base)].lo % 16 != 15
      && (isCons ==> n == 2)
      && (!isCons ==> Snap.HeaderSafe(mem[Ix(base)]) && SizeOf(mem[Ix(base)]) == 8 * n)
    }

    /** s is a state of this machine in which the heap ends at va = base. */
    ghost predicate Before(s: Snap, base: int)
      reads this`esp, this`vl
    {
      && Shape() && mem.Length == |s.m| && s.HeapOk(Ix(base)) && s.len == Lengths(s.m)
      && Addr(s.fs) == s.m[IX_GC_FROM].lo && Addr(s.fe) == s.m[IX_GC_FROM].lo + SpaceSize()
      && Addr(s.ts) == s.m[IX_GC_TO].lo && Addr(s.te) == s.m[IX_GC_TO].lo + SpaceSize()
      && Addr(STACK_LOW) <= esp <= Addr(STACK_TOP) && esp % 8 == 0 && vl == Addr(s.fe)
      && s.m[IX_GC_SIZE] == Word(SpaceSize(), 0)
      && ((s.m[IX_GC_FROM] == Word(Lower(), 0) && s.m[IX_GC_TO] == Word(Upper(), 0))
       || (s.m[IX_GC_FROM] == Word(Upper(), 0) && s.m[IX_GC_TO] == Word(Lower(), 0)))
    }

    lemma BeforeNow()
      requires HeapInv()
      ensures Before(Now(), va)
      ensures PAGE_BASE <= Ix(va) && Addr(Ix(va)) == va && On16(va) && va <= vl < HeapEnd()
      ensures forall i :: Ix(va) <= i < Now().fe ==> !Starts()[i] && !Conses()[i]
    {
      hide Snap.Tiles, Spread, Lengths, SizeOf, Ix, Aligned;
      Geometry();
      Whole16(va);
    }

    /** VA and VL are always 16-aligned, and inside the heap. */
    lemma Limits()
      requires HeapInv()
      ensures On16(va) && On16(vl) && va <= vl < HeapEnd()
    {
      hide Snap.HeapOk, Spread, Lengths;
      BeforeNow();
      Geometry();
    }

    lemma PlacedKeeps(s: Snap, base: int, n: int, isCons: bool)
      requires Before(s, base) && Placed(s, base, n, isCons)
      ensures HeapInv()
    {
      hide Spread, Ix, Snap.Tiles, SizeOf, Lengths, Granule, Aligned, Snap.HeaderSafe, On16;
      var end := Ix(base);
      Whole16(base);
      IxAddr(s.fs); IxAddr(s.fe); IxAddr(s.ts); IxAddr(s.te); IxAddr(end + n);
      assert mem[IX_GC_FROM] == s.m[IX_GC_FROM] && mem[IX_GC_TO] == s.m[IX_GC_TO] && mem[IX_GC_SIZE] == s.m[IX_GC_SIZE];
      Geometry();
      hide Lengths, Snap.HeaderSafe, Snap.Sized, Snap.HeapOk, Aligned, Granule;
      PlacedGrown(s, Now(), end, n, isCons);
      HeapGrows(s, Now(), end, n);
    }

    /** What an allocator knows of the state it starts in. */
    lemma Opening() returns (s: Snap)
      requires HeapInv()
      ensures Before(s, va) && Shape() && s.m == mem[..] && s.st == Starts() && s.co == Conses()
      ensures PAGE_BASE <= Ix(va) && Addr(Ix(va)) == va && On16(va) && va <= vl < HeapEnd()
    {
      hide Snap.HeapOk, Spread, Lengths, Ix;
      BeforeNow();
      s := Now();
    }

    /** An object of n words at base, header or car h, keeps the heap invariant. */
    lemma Closing(s: Snap, base: int, n: int, h: Word, isCons: bool)
      requires Before(s, base) && On16(base) && PAGE_BASE <= Ix(base) && Ix(base) + n <= mem.Length
      requires va == base + 8 * n && 2 <= n && n % 2 == 0 && va <= vl && |s.m| == mem.Length
      requires forall i :: 0 <= i < Ix(base) ==> mem[i] == s.m[i]
      requires mem[Ix(base)] == h && h.lo % 16 != 15
      requires Starts() == s.st[Ix(base) := true] && Conses() == if isCons then s.co[Ix(base) := true] else s.co
      requires if isCons then n == 2 else Snap.HeaderSafe(h) && SizeOf(h) == 8 * n
      ensures HeapInv()
    {
      hide Snap.Tiles, Spread, Lengths, SizeOf, Ix, Aligned, Snap.HeaderSafe, HeapInv;
      EvenBlock(base, n);
      PlacedKeeps(s, base, n, isCons);
    }

    static lemma EvenBlock(base: int, n: int)
      requires On16(base) && n % 2 == 0
      ensures On16(base + 8 * n)
    {
    }

    /** allocCons (560-566) */
    method AllocCons(car: Word, cdr: Word) returns (ok: bool, r: int)
      requires HeapInv()
      modifies this`va, mem, startBmp, consBmp
      ensures ok == (old(va) + 16 <= HeapEnd())
      ensures !ok ==> HeapInv() && va == old(va) && mem[..] == old(mem[..])
      ensures ok ==> va == old(va) + 16 && r == old(va) + 1
      ensures ok ==> Starts() == old(Starts())[Ix(old(va)) := true] && Conses() == old(Conses())[Ix(old(va)) := true]
      ensures ok ==> 0 <= Ix(old(va)) && Ix(old(va)) + 2 <= mem.Length
      ensures ok ==> mem[..] == old(mem[..])[Ix(old(va)) := car][Ix(old(va)) + 1 := cdr]
      ensures ok && va <= vl && car.lo % 16 != 15 ==> HeapInv()
    {
      hide HeapInv, Now, Before, Starts, Conses, Ix;
      ghost var s := Opening();
      var base;
      ok, base := Bump(16);
      if !ok { return false, 0; }
      EndRoom(base, 2);
      var i := Ix(base);
      mem[i], mem[i + 1] := car, cdr;
      MarkStart(base);
      MarkCons(base);
      r := base + 1;
      if va <= vl && car.lo % 16 != 15 { Closing(s, base, 2, car, true); }
    }

    /** Where `fill(0, lo, hi)` on memory ends: a negative end counts from the back. */
    function End(hi: int): int {
      if hi >= 0 then hi else if mem.Length + hi >= 0 then mem.Length + hi else 0
    }

    method Zero(lo: int, hi: int)
      requires 0 <= lo && hi <= mem.Length
      modifies mem
      ensures forall i :: 0 <= i < mem.Length ==> mem[i] == if lo <= i < End(hi) then Word(0, 0) else old(mem[i])
    {
      var end := End(hi);
      forall i | lo <= i < end {
        mem[i] := Word(0, 0);
      }
    }

    lemma EndRoom(base: int, n: int)
      requires Shape() && Addr(Ix(base)) == base
      ensures base + 8 * n <= HeapEnd() ==> Ix(base) + n <= mem.Length
      ensures base < HeapEnd() ==> Ix(base) < mem.Length
    {
      hide Ix;
    }

    /** The header and the cleared fields of an object of n words, and its start bit. */
    method PutObject(base: int, n: int, h: Word, fill: bool)
      requires Shape() && On16(base) && PAGE_BASE <= Ix(base) < mem.Length && Ix(base) + n <= mem.Length
      modifies mem, startBmp
      ensures Starts() == old(Starts())[Ix(base) := true] && mem[Ix(base)] == h
      ensures forall i :: 0 <= i < mem.Length && i != Ix(base) ==>
                mem[i] == if fill && Ix(base) < i < End(Ix(base) + n) then Word(0, 0) else old(mem[i])
    {
      hide Ix, Spread;
      var i := Ix(base);
      if fill {
        Zero(i + 1, i + n);
      }
      mem[i] := h;
      MarkStart(base);
    }

    /** What the object allocators share: reserve n words, clear the fields if
        asked to, write the header, mark the start.  A size that 32-bit
        rounding made negative moves VA down. */
    method AllocWords(n: int, h: Word, fill: bool) returns (ok: bool, r: int)
      requires HeapInv() && n % 2 == 0
      modifies this`va, mem, startBmp
      ensures ok == (old(va) + 8 * n <= HeapEnd())
      ensures !ok ==> HeapInv() && va == old(va) && mem[..] == old(mem[..])
      ensures ok ==> va == old(va) + 8 * n && r == old(va) + 9 && Starts() == old(Starts())[Ix(old(va)) := true]
      ensures ok ==> PAGE_BASE <= Ix(old(va)) < mem.Length && Ix(old(va)) + n <= mem.Length && mem[Ix(old(va))] == h
      ensures ok ==> forall i :: 0 <= i < mem.Length && i != Ix(old(va)) ==>
                mem[i] == if fill && Ix(old(va)) < i < End(Ix(old(va)) + n) then Word(0, 0) else old(mem[i])
      ensures ok && va <= vl && n >= 2 && SizeOf(h) == 8 * n && h.lo % 16 != 15 && Snap.HeaderSafe(h) ==> HeapInv()
    {
      hide HeapInv, Now, Before, Starts, Conses, Ix, SizeOf, Snap.HeaderSafe;
      ghost var s := Opening();
      var base;
      ok, base := Bump(8 * n);
      if !ok { return false, 0; }
      EndRoom(base, n);
      PutObject(base, n, h, fill);
      r := base + 9;
      if va <= vl && n >= 2 && SizeOf(h) == 8 * n && h.lo % 16 != 15 && Snap.HeaderSafe(h) { Closing(s, base, n, h, false); }
    }

    /** allocObj (552-559).  The heap invariant asks of the subtag what the
        collector assumes: not the byte vectors' (whose size `copy` derives
        differently), not the forwarding nibble, and no pointer-like header;
        and of the count that the size is not wrapped. */
    method AllocObj(count: int, subtag: int, fill: bool) returns (ok: bool, r: int)
      requires HeapInv() && 0 <= subtag < 256
      modifies this`va, mem, startBmp
      ensures !ok ==> HeapInv() && va == old(va) && mem[..] == old(mem[..])
      ensures ok == (old(va) + Align16((count + 2) * 8) <= HeapEnd())
      ensures ok ==> va == old(va) + Align16((count + 2) * 8) && r == old(va) + 9
      ensures ok ==> PAGE_BASE <= Ix(old(va)) < mem.Length && Ix(old(va)) + Align16((count + 2) * 8) / 8 <= mem.Length
      ensures ok ==> mem[Ix(old(va))] == Header(count, subtag) && Starts() == old(Starts())[Ix(old(va)) := true]
      ensures ok ==> forall i :: 0 <= i < mem.Length && i != Ix(old(va)) ==>
                mem[i] == if fill && Ix(old(va)) < i < End(Ix(old(va)) + Align16((count + 2) * 8) / 8) then Word(0, 0) else old(mem[i])
      ensures ok && va <= vl && SmallCount(count) && subtag != 0x11 && subtag % 16 != 15 && Snap.HeaderSafe(Header(count, subtag)) ==> HeapInv()
    {
      hide Align16, Header, SizeOf, Ix, HeapInv, Starts;
      AlignedSize((count + 2) * 8);
      if SmallCount(count) {
        HeaderSize(count, subtag);
        Rounded((count + 2) * 8);
      }
      ok, r := AllocWords(Align16((count + 2) * 8) / 8, Header(count, subtag), fill);
    }

    /** alloc-u8 (1303-1308), for an untagged count */
    method AllocU8(n: int) returns (ok: bool, r: int)
      requires HeapInv()
      modifies this`va, mem, startBmp
      ensures !ok ==> HeapInv() && va == old(va) && mem[..] == old(mem[..])
      ensures ok == (old(va) + Align16(16 + n) <= HeapEnd())
      ensures ok ==> va == old(va) + Align16(16 + n) && r == old(va) + 9
      ensures ok ==> PAGE_BASE <= Ix(old(va)) < mem.Length && Ix(old(va)) + Align16(16 + n) / 8 <= mem.Length
      ensures ok ==> mem[Ix(old(va))] == Header(n, 0x11) && Starts() == old(Starts())[Ix(old(va)) := true]
      ensures ok ==> forall i :: 0 <= i < mem.Length && i != Ix(old(va)) ==>
                mem[i] == if Ix(old(va)) < i < End(Ix(old(va)) + Align16(16 + n) / 8) then Word(0, 0) else old(mem[i])
      ensures ok && va <= vl && SmallCount(n) && Snap.HeaderSafe(Header(n, 0x11)) ==> HeapInv()
    {
      hide Align16, Header, SizeOf, Ix, HeapInv, Starts;
      AlignedSize(16 + n);
      if SmallCount(n) {
        HeaderSize(n, 0x11);
        Rounded(16 + n);
      }
      ok, r := AllocWords(Align16(16 + n) / 8, Header(n, 0x11), true);
    }

    static lemma FloatSize(subtag: nat)
      requires subtag == 0x60 || subtag == 0x64
      ensures SizeOf(Header(4, subtag)) == 48 && Header(4, subtag).lo % 16 != 15
    {
      HeaderSize(4, subtag);
      assert Align16(48) == 48;
    }

    method PutQuarters(i: int, q: seq<int>)
      requires 0 <= i && i + 4 <= mem.Length && Quarters(q)
      modifies mem
      ensures forall k :: 0 <= k < mem.Length ==> mem[k] == if i <= k < i + 4 then Word(2 * q[k - i], 0) else old(mem[k])
    {
      mem[i], mem[i + 1], mem[i + 2], mem[i + 3] := Word(2 * q[0], 0), Word(2 * q[1], 0), Word(2 * q[2], 0), Word(2 * q[3], 0);
    }

    /** allocFloat (567-575): a header of count 4, a padding word, and the four
        16-bit quarters of the double, tagged. */
    method AllocFloat(subtag: int, quarters: seq<int>) returns (ok: bool, r: int)
      requires HeapInv() && (subtag == 0x60 || subtag == 0x64) && Quarters(quarters)
      modifies this`va, mem, startBmp
      ensures !ok ==> HeapInv() && va == old(va) && mem[..] == old(mem[..])
      ensures ok == (old(va) + 48 <= HeapEnd())
      ensures ok ==> va == old(va) + 48 && r == old(va) + 9 && Starts() == old(Starts())[Ix(old(va)) := true]
      ensures ok ==> PAGE_BASE <= Ix(old(va)) && Ix(old(va)) + 6 <= mem.Length
      ensures ok ==> forall i :: 0 <= i < mem.Length ==>
                mem[i] == if Ix(old(va)) <= i < Ix(old(va)) + 6 then FloatWord(subtag, quarters, i - Ix(old(va))) else old(mem[i])
      ensures ok && va <= vl ==> HeapInv()
    {
      hide HeapInv, Now, Before, Starts, Conses, Ix, SizeOf, Snap.HeaderSafe, Header;
      FloatSize(subtag);
      SmallHeaderSafe(4, subtag);
      ghost var s := Opening();
      var base;
      ok, base := Bump(48);
      if !ok { return false, 0; }
      EndRoom(base, 6);
      PutObject(base, 6, Header(4, subtag), true);
      PutQuarters(Ix(base) + 2, quarters);
      r := base + 9;
      if va <= vl { Closing(s, base, 6, Header(4, subtag), false); }
    }

    /** The GC checks: opcode 0x89 tests 0 bytes, 0x8C its operand, 0x8D a
        size computed from the count register (1170-1184). */
    method Check(nbytes: int) returns (collected: bool)
      requires HeapInv()
      modifies this`free, this`plan, this`vrl, this`va, this`vl, this`gcCount, mem, startBmp, consBmp
      ensures HeapInv()
      ensures collected <==> old(va + nbytes >= vl)
      ensures !collected ==> va == old(va) && vl == old(vl) && gcCount == old(gcCount) && Now() == old(Now())
      ensures collected ==> Collected(old(Now()), Now(), plan) && gcCount == old(gcCount) + 1
    {
      collected := va + nbytes >= vl;
      if collected {
        Gc();
      }
    }

    /** This moment of a run. */
    ghost function Here(): Moment
      reads this, mem, startBmp, consBmp
      requires Spaces()
    {
      Moment(Now(), va, vl, gcCount)
    }

    /** The same, with the heap in order. */
    ghost function InvHere(): (x: Moment)
      reads this, mem, startBmp, consBmp
      requires HeapInv()
      ensures x == Here() && x.Good() && x.s == Now() && x.s.Sized() && x.va == va && x.vl == vl && x.gcs == gcCount
    {
      HereGood();
      Here()
    }

    lemma HereGood()
      requires HeapInv()
      ensures Here().Good() && Here().s.Sized()
    {
      hide Snap.HeapOk, Spread, Lengths, Ix;
      BeforeNow();
      Limits();
      Geometry();
    }

    /** What a register holds. */
    function Read(o: Operand): Word
      reads this, mem
      requires mem.Length >= STACK_TOP && (o.Home? ==> 0 <= o.i < STACK_TOP)
    {
      if o.Home? then mem[o.i] else Word(vrl, vrh)
    }

    /** HeapOp.Sane, on the machine's own bitmaps. */
    predicate SaneHere(op: HeapOp)
      reads this, mem, startBmp, consBmp
      requires Shape()
    {
      match op
      case MakeCons(a, d) => a.In(Ix(esp)) && d.In(Ix(esp)) && (a.Home? ==> 0 <= a.i) && (d.Home? ==> 0 <= d.i) && Read(a).lo % 16 != 15
      case MakeEmpty => true
      case MakeObject(c, t) => 0 <= c < 0x1_0000 && 0 <= t < 256 && t != 0x11 && t % 16 != 15
      case MakeArray(c) => SmallCount(c)
      case MakeString(c) => SmallCount(c) && Snap.HeaderSafe(Header(c, 0x31))
      case MakeBytes(k) => SmallCount(k) && Snap.HeaderSafe(Header(k, 0x11))
      case MakeFloat(t, q) => (t == 0x60 || t == 0x64) && Quarters(q)
      case StoreWord(x, w) => Storable(x, w)
    }

    lemma SaneAgrees(op: HeapOp)
      requires HeapInv()
      ensures Shape() && (SaneHere(op) <==> op.Sane(Now()))
    {
      hide Snap.Tiles, Lengths, Ix, Header, Snap.HeaderSafe;
      Geometry();
    }

    /** What a store leaves alone: the collector's registers and the headers,
        and no car may come to look like a forwarding word. */
    predicate Storable(x: int, w: Word)
      reads startBmp, consBmp
    {
      && 0 <= x < mem.Length && !(IX_GC_FROM <= x <= IX_GC_SIZE)
      && (IsFirst(x) && Granule(x) < startBmp.Length && startBmp[Granule(x)] ==>
            Granule(x) < consBmp.Length && consBmp[Granule(x)] && w.lo % 16 != 15)
    }

    /** set-car, set-cdr, obj-set and stores into frames: one word of memory. */
    method Store(x: int, w: Word)
      requires HeapInv() && Storable(x, w)
      modifies mem
      ensures HeapInv() && mem[..] == old(mem[..])[x := w]
    {
      ghost var s := Now();
      mem[x] := w;
      hide Snap.HeapOk, Spread, Ix, Lengths;
      StoreKeeps(s, Now(), Ix(va), x, w);
    }

    /** An allocating instruction, behind its check.  Registers are read now. */
    method Make(op: HeapOp) returns (ok: bool, r: int)
      requires HeapInv() && SaneHere(op) && !op.StoreWord?
      modifies this`va, mem, startBmp, consBmp
      ensures old(op.Sane(Now())) && Allocated(op, old(Now()), old(va), ok)
      ensures ok ==> r == old(va) + (if op.IsCons() then 1 else 9)
    {
      hide HeapInv, Now, Starts, Conses, Ix, Start, Snap.HeaderSafe, HeapOp.Sane, HeapOp.Size, Allocated, SaneHere;
      ghost var s := MakeStart(op);
      if op.IsCons() {
        ok, r := MakePair(op, s);
      } else if op.MakeFloat? {
        ok, r := MakeFloat(op, s);
      } else if op.MakeBytes? {
        ok, r := MakeU8(op, s);
      } else {
        ok, r := MakeWords(op, s);
      }
    }

    method MakeFloat(op: HeapOp, ghost s: Snap) returns (ok: bool, r: int)
      requires HeapInv() && Start(op, s) && op.MakeFloat?
      modifies this`va, mem, startBmp
      ensures s.Sized() && op.Sane(s) && Allocated(op, s, old(va), ok) && (ok ==> r == old(va) + 9)
    {
      hide HeapInv, Now, Starts, Conses, Ix, Snap.Sized, HeapOp.Fresh, Contents, HeapEnd, FloatWord;
      ok, r := AllocFloat(op.kind, op.quarters);
      if ok { FloatContents(op, s, old(va), mem[..]); }
    }

    method MakePair(op: HeapOp, ghost s: Snap) returns (ok: bool, r: int)
      requires HeapInv() && SaneHere(op) && op.IsCons() && Start(op, s)
      modifies this`va, mem, startBmp, consBmp
      ensures s.Sized() && op.Sane(s) && Allocated(op, s, old(va), ok) && (ok ==> r == old(va) + 1)
    {
      hide HeapInv, Now, Starts, Conses, Ix, Snap.Sized, HeapOp.Fresh, Contents;
      var car, cdr := Word(0, 0), Word(0, 0);
      if op.MakeCons? {
        car, cdr := Read(op.car), Read(op.cdr);
      }
      ok, r := AllocCons(car, cdr);
      if ok { ConsContents(op, s, old(va), mem[..], car, cdr); }
    }

    /** s is the state in front of op. */
    ghost predicate Start(op: HeapOp, s: Snap)
      reads this, mem, startBmp, consBmp
    {
      && s.Sized() && op.Sane(s) && s.m == mem[..] && s.st == Starts() && s.co == Conses()
      && s.vr == Word(vrl, vrh) && s.sp == Ix(esp) && 0 <= s.sp && Shape()
    }

    /** What op has made of s, whose VA was base. */
    ghost predicate Allocated(op: HeapOp, s: Snap, base: int, ok: bool)
      reads this, mem, startBmp, consBmp
      requires s.Sized() && op.Sane(s)
    {
      && (ok <==> base + op.Size() <= HeapEnd()) && va == base + (if ok then op.Size() else 0)
      && (ok && va <= vl ==> HeapInv()) && (!ok ==> HeapInv())
      && (ok ==> Contents(op, s, base, mem[..]) && Bits(op, s, base, Starts(), Conses()))
    }

    lemma MakeStart(op: HeapOp) returns (s: Snap)
      requires HeapInv() && SaneHere(op)
      ensures s == Now() && s.Sized() && op.Sane(s) && Start(op, s)
    {
      hide Snap.HeapOk, Lengths, Ix, Header, Snap.HeaderSafe;
      SaneAgrees(op);
      Geometry();
      s := Now();
    }

    method MakeU8(op: HeapOp, ghost s: Snap) returns (ok: bool, r: int)
      requires HeapInv() && Start(op, s) && op.MakeBytes?
      modifies this`va, mem, startBmp
      ensures s.Sized() && op.Sane(s) && Allocated(op, s, old(va), ok) && (ok ==> r == old(va) + 9)
    {
      hide HeapInv, Now, Starts, Conses, Ix, Header, Snap.HeaderSafe, Snap.Sized, Align16, HeapOp.Fresh, Contents, SizeOf, HeapOp.Sane, HeapOp.HeaderOf, HeapOp.Size, SmallCount, HeapEnd;
      SaneSize(op, s);
      SaneHeader(op, s);
      ok, r := AllocU8(op.n);
      if ok { WordsContents(op, s, old(va), mem[..]); }
    }

    /** Arrays, strings and objects: the count, subtag and filling of allocObj. */
    method MakeWords(op: HeapOp, ghost s: Snap) returns (ok: bool, r: int)
      requires HeapInv() && Start(op, s) && (op.MakeObject? || op.MakeArray? || op.MakeString?)
      modifies this`va, mem, startBmp
      ensures s.Sized() && op.Sane(s) && Allocated(op, s, old(va), ok) && (ok ==> r == old(va) + 9)
    {
      hide HeapInv, Now, Starts, Conses, Ix, Header, Snap.HeaderSafe, Snap.Sized, Align16, HeapOp.Fresh, Contents, SizeOf, HeapOp.Sane, HeapOp.HeaderOf, HeapOp.Size, SmallCount, HeapEnd;
      SaneSize(op, s);
      SaneHeader(op, s);
      var subtag := if op.MakeObject? then op.subtag else if op.MakeArray? then 0x32 else 0x31;
      ok, r := AllocObj(op.count, subtag, !op.MakeString?);
      if ok { WordsContents(op, s, old(va), mem[..]); }
    }

    /** Any run of checked allocations and stores.  Every instruction that is
        done is a check, if it has one, and the allocation or store, and leaves
        the heap in order; the run stops short only at an instruction that
        cannot leave it in order.  trace holds the moments between them. */
    method Run(ops: seq<HeapOp>) returns (done: nat, ghost trace: seq<Moment>)
      requires HeapInv()
      modifies this`free, this`plan, this`vrl, this`va, this`vl, this`gcCount, mem, startBmp, consBmp
      ensures done <= |ops| && |trace| == done + 1 && trace[0] == old(InvHere())
      ensures (forall k :: 0 <= k <= done ==> trace[k].Good()) && forall k :: 0 <= k < done ==> Next(ops[k], trace[k], trace[k + 1])
      ensures done == |ops| ==> HeapInv() && trace[done] == InvHere()
      ensures done < |ops| ==> Stuck(ops[done], trace[done])
    {
      hide HeapInv, Here, Next, Stuck, Moment.Good;
      done, trace := 0, [InvHere()];
      while done < |ops|
        invariant done <= |ops| && HeapInv() && |trace| == done + 1 && trace[0] == old(InvHere()) && trace[done] == InvHere()
        invariant forall k :: 0 <= k <= done ==> trace[k].Good()
        invariant forall k :: 0 <= k < done ==> Next(ops[k], trace[k], trace[k + 1])
      {
        var fits := Perform(ops[done]);
        if !fits { return; }
        trace, done := trace + [InvHere()], done + 1;
      }
    }

    /** The check in front of op. */
    method CheckFor(op: HeapOp)
      requires HeapInv()
      modifies this`free, this`plan, this`vrl, this`va, this`vl, this`gcCount, mem, startBmp, consBmp
      ensures HeapInv() && Checked(op, old(InvHere()), InvHere())
    {
      hide HeapInv, Here, Now, Snap.Sized, Moment.Good, HeapOp.Tested, Collected;
      ghost var x := InvHere();
      if !op.StoreWord? {
        var collected := Check(op.Tested());
        ghost var y := InvHere();
        if collected { assert Collected(x.s, y.s, plan); }
      }
    }

    /** One instruction with its check.  False when it cannot leave the heap in order. */
    method Perform(op: HeapOp) returns (fits: bool)
      requires HeapInv()
      modifies this`free, this`plan, this`vrl, this`va, this`vl, this`gcCount, mem, startBmp, consBmp
      ensures fits ==> HeapInv() && Next(op, old(InvHere()), InvHere())
      ensures !fits ==> old(Stuck(op, InvHere()))
    {
      hide HeapInv, Here, Now, Snap.Sized, Moment.Good, HeapOp.Tested, HeapOp.Size, HeapOp.Sane, SaneHere, Checked, Made;
      CheckFor(op);
      ghost var y := InvHere();
      SaneAgrees(op);
      if !SaneHere(op) { return false; }
      fits := Execute(op);
    }

    /** The instruction itself. */
    method Execute(op: HeapOp) returns (fits: bool)
      requires HeapInv() && SaneHere(op)
      modifies this`va, mem, startBmp, consBmp
      ensures old(InvHere().s.Sized() && op.Sane(InvHere().s))
      ensures fits <==> old(va) + op.Size() <= vl
      ensures fits ==> HeapInv() && Made(op, old(InvHere()), InvHere())
    {
      hide Snap.HeapOk, Spread, Lengths, Ix, Moment.Good, HeapOp.Size, HeapOp.Sane, Contents, SaneHere;
      ghost var x := InvHere();
      SaneAgrees(op);
      Limits();
      if op.StoreWord? {
        SaneStore(op);
        Store(op.x, op.w);
        fits := true;
        StoreContents(op, x.s, va, mem[..]);
      } else {
        var ok, _ := Make(op);
        fits := ok && va <= vl;
      }
    }

    lemma SaneStore(op: HeapOp)
      requires Shape() && SaneHere(op) && op.StoreWord?
      ensures Storable(op.x, op.w) && op.Size() == 0
    {
    }
  }
}
