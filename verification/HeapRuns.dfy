/** Runs of the heap: what one checked allocation or store does to it, as a
    relation between moments, and when a run cannot go on with the heap
    invariant (web/mvm.js:546-575, 1070-1082, 1130, 1169-1183, 1270, 1303-1308). */
module HeapRuns {
  import opened Words
  import opened Heap
  import opened Tiling

  /** The heap between two instructions; gcs counts collections. */
  datatype Moment = Moment(s: Snap, va: int, vl: int, gcs: int) {
    ghost predicate Good() {
      && s.HeapOk(Ix(va)) && s.len == Lengths(s.m) && vl == Addr(s.fe)
      && On16(va) && On16(vl) && Addr(Ix(va)) == va && PAGE_BASE <= Ix(va) && va <= vl
    }
  }

  /** Where an instruction finds an operand: in a register's home, or in VR. */
  datatype Operand = Home(i: int) | InVR {
    predicate In(sp: int) {
      Home? ==> sp <= i < STACK_TOP
    }

    function Read(s: Snap): Word
      requires s.Sized() && In(s.sp)
    {
      if Home? then s.m[i] else s.vr
    }
  }

  /** The allocating instructions with the check in front of them, and stores. */
  datatype HeapOp =
    | MakeCons(car: Operand, cdr: Operand)             // 0x89, 0x52
    | MakeEmpty                                        // 0x89, 0x88
    | MakeObject(count: int, subtag: int)              // 0x8C, 0x60
    | MakeArray(count: int)                            // 0x8D, 0x68
    | MakeString(count: int)                           // 0x8D, 0xB9
    | MakeBytes(n: int)                                // 0x8D, 0xC8
    | MakeFloat(kind: int, quarters: seq<int>)         // 0x89, allocFloat
    | StoreWord(x: int, w: Word)
  {
    /** The bytes its check adds to VA. */
    function Tested(): int {
      match this
      case MakeObject(c, _) => CompiledBytes(c)
      case MakeArray(c) => TestedBytes(0, ToInt32(c))
      case MakeString(c) => TestedBytes(0, ToInt32(c))
      case MakeBytes(k) => TestedBytes(1, ToInt32(2 * k))
      case _ => 0
    }

    /** The bytes it allocates. */
    function Size(): int {
      match this
      case MakeCons(_, _) | MakeEmpty => 16
      case MakeObject(c, _) => Align16((c + 2) * 8)
      case MakeArray(c) => Align16((c + 2) * 8)
      case MakeString(c) => Align16((c + 2) * 8)
      case MakeBytes(k) => Align16(16 + k)
      case MakeFloat(_, _) => 48
      case StoreWord(_, _) => 0
    }

    predicate IsCons() { MakeCons? || MakeEmpty? }

    function HeaderOf(): Word
      requires !IsCons() && !StoreWord? && (MakeObject? ==> 0 <= subtag < 256) && (MakeFloat? ==> 0 <= kind < 256)
    {
      match this
      case MakeObject(c, t) => Header(c, t)
      case MakeArray(c) => Header(c, 0x32)
      case MakeString(c) => Header(c, 0x31)
      case MakeBytes(k) => Header(k, 0x11)
      case MakeFloat(t, _) => Header(4, t)
    }

    /** What the collector takes for granted of new words: sizes that do not
        wrap, headers that are neither pointers nor forwarding marks, no
        forwarding nibble in a car, no store into a header or a register of
        the collector. */
    predicate Sane(s: Snap)
      requires s.Sized()
    {
      match this
      case MakeCons(a, d) => a.In(s.sp) && d.In(s.sp) && a.Read(s).lo % 16 != 15
      case MakeEmpty => true
      case MakeObject(c, t) => 0 <= c < 0x1_0000 && 0 <= t < 256 && t != 0x11 && t % 16 != 15
      case MakeArray(c) => SmallCount(c)
      case MakeString(c) => SmallCount(c) && Snap.HeaderSafe(Header(c, 0x31))
      case MakeBytes(k) => SmallCount(k) && Snap.HeaderSafe(Header(k, 0x11))
      case MakeFloat(t, q) => (t == 0x60 || t == 0x64) && Quarters(q)
      case StoreWord(x, w) => 0 <= x < |s.m| && !(IX_GC_FROM <= x <= IX_GC_SIZE) && (s.st[x] ==> s.co[x] && w.lo % 16 != 15)
    }

    /** The k-th word of the new object, whose memory held `was`. */
    function Fresh(s: Snap, k: nat, was: Word): Word
      requires s.Sized() && Sane(s)
    {
      match this
      case MakeCons(a, d) => if k == 0 then a.Read(s) else d.Read(s)
      case MakeFloat(t, q) => if k < 6 then FloatWord(t, q, k) else was
      case MakeString(_) => if k == 0 then HeaderOf() else was
      case MakeEmpty => Word(0, 0)
      case StoreWord(_, w) => w
      case _ => if k == 0 then HeaderOf() else Word(0, 0)
    }
  }

  /** Which are sane: counts below 2^28 - 4; of strings and byte vectors, all
      below 0x13C004, and others whose header is below the heap, negative or
      has a high half; floats of either kind; conses whose car does not end in
      15; stores of anything outside the collector's registers, but for a
      forwarding nibble in a car, and none into headers. */
  lemma SaneIs(op: HeapOp, s: Snap)
    requires s.Sized()
    ensures op.MakeEmpty? ==> op.Sane(s)
    ensures op.MakeCons? && op.car.In(s.sp) && op.cdr.In(s.sp) ==> (op.Sane(s) <==> op.car.Read(s).lo % 16 != 15)
    ensures op.MakeObject? && 0 <= op.count < 0x1_0000 && 0 <= op.subtag < 256 && op.subtag != 0x11 && op.subtag % 16 != 15 ==> op.Sane(s)
    ensures op.MakeArray? ==> (op.Sane(s) <==> 0 <= op.count < 0x0FFF_FFFC)
    ensures op.MakeString? && 0 <= op.count < 0x13_C004 ==> op.Sane(s)
    ensures op.MakeBytes? && 0 <= op.n < 0x13_C004 ==> op.Sane(s)
    ensures op.MakeFloat? && (op.kind == 0x60 || op.kind == 0x64) && Quarters(op.quarters) ==> op.Sane(s)
    ensures op.StoreWord? && 0 <= op.x < |s.m| && !(8 <= op.x <= 10) && !s.st[op.x] ==> op.Sane(s)
    ensures op.StoreWord? && 0 <= op.x < |s.m| && !(8 <= op.x <= 10) && s.st[op.x] ==> (op.Sane(s) <==> s.co[op.x] && op.w.lo % 16 != 15)
  {
    hide Header, Snap.HeaderSafe;
    if op.MakeString? && 0 <= op.count < 0x13_C004 { SmallHeaderSafe(op.count, 0x31); }
    if op.MakeBytes? && 0 <= op.n < 0x13_C004 { SmallHeaderSafe(op.n, 0x11); }
  }

  /** Operands are the stack's words from the stack pointer up to argv, and VR. */
  lemma OperandIs(i: int, s: Snap)
    requires s.Sized()
    ensures Home(i).In(s.sp) <==> s.sp <= i < 0x77_E000
    ensures s.sp <= i < 0x77_E000 ==> Home(i).Read(s) == s.m[i]
    ensures InVR.In(s.sp) && InVR.Read(s) == s.vr
  {
  }

  // ---- steps ------------------------------------------------------------------------

  /** The check in front of op: nothing, or a collection. */
  ghost predicate Checked(op: HeapOp, x: Moment, y: Moment) {
    if op.StoreWord? || x.va + op.Tested() < x.vl then y == x
    else x.s.Sized() && y.Good() && y.gcs == x.gcs + 1 && exists p: Plan :: Collected(x.s, y.s, p)
  }

  /** When it collects: conses and float boxes at VL, the others if what they
      take, or 32 bytes more than their contents, reaches VL. */
  lemma CollectsWhen(op: HeapOp, x: Moment, y: Moment)
    requires Checked(op, x, y) && (op.MakeObject? ==> 0 <= op.count < 0x1_0000)
    requires (op.MakeArray? || op.MakeString? ==> 0 <= op.count < 0x0FFF_FFFC) && (op.MakeBytes? ==> 0 <= op.n < 0x0FFF_FFFC)
    ensures var at := match op
        case MakeObject(c, _) => x.va + 8 * (c + 2 + c % 2)
        case MakeArray(c) => x.va + 8 * c + 32
        case MakeString(c) => x.va + 8 * c + 32
        case MakeBytes(k) => x.va + k + 32
        case _ => x.va;
      if op.StoreWord? || at < x.vl then y == x else y.gcs == x.gcs + 1
  {
    hide Collected, Moment.Good;
    if op.MakeArray? || op.MakeString? { RoundTrip(op.count); }
    if op.MakeBytes? { RoundTrip(2 * op.n); }
    hide ToInt32;
  }

  /** op itself: one object more, or one word changed. */
  ghost predicate Made(op: HeapOp, y: Moment, z: Moment)
    requires y.s.Sized() && op.Sane(y.s)
  {
    && z.va == y.va + op.Size() && z.vl == y.vl && z.gcs == y.gcs
    && z.s.vr == y.s.vr && z.s.sp == y.s.sp && z.s.fs == y.s.fs && z.s.fe == y.s.fe && z.s.ts == y.s.ts && z.s.te == y.s.te
    && Contents(op, y.s, y.va, z.s.m) && Bits(op, y.s, y.va, z.s.st, z.s.co)
  }

  /** The words of memory behind op. */
  ghost predicate Contents(op: HeapOp, s: Snap, va: int, m: seq<Word>)
    requires s.Sized() && op.Sane(s)
  {
    var base, n := if op.StoreWord? then op.x else Ix(va), if op.StoreWord? then 1 else op.Size() / 8;
    |m| == |s.m| && forall i :: 0 <= i < |m| ==> m[i] == if base <= i < base + n then op.Fresh(s, i - base, s.m[i]) else s.m[i]
  }

  ghost predicate Bits(op: HeapOp, s: Snap, va: int, st: seq<bool>, co: seq<bool>)
    requires s.Sized()
  {
    && (op.StoreWord? || 0 <= Ix(va) < |s.m|)
    && st == (if op.StoreWord? then s.st else s.st[Ix(va) := true])
    && co == (if op.IsCons() then s.co[Ix(va) := true] else s.co)
  }

  lemma StoreContents(op: HeapOp, s: Snap, va: int, m: seq<Word>)
    requires s.Sized() && op.Sane(s) && op.StoreWord? && m == s.m[op.x := op.w]
    ensures Contents(op, s, va, m)
  {
    hide Snap.Sized;
  }

  lemma ConsContents(op: HeapOp, s: Snap, va: int, m: seq<Word>, car: Word, cdr: Word)
    requires s.Sized() && op.Sane(s) && op.IsCons() && 0 <= Ix(va) && Ix(va) + 2 <= |s.m|
    requires m == s.m[Ix(va) := car][Ix(va) + 1 := cdr]
    requires if op.MakeCons? then car == op.car.Read(s) && cdr == op.cdr.Read(s) else car == cdr == Word(0, 0)
    ensures Contents(op, s, va, m)
  {
    hide Snap.Sized, Ix;
  }

  lemma WordsContents(op: HeapOp, s: Snap, va: int, m: seq<Word>)
    requires s.Sized() && op.Sane(s) && (op.MakeObject? || op.MakeArray? || op.MakeString? || op.MakeBytes?)
    requires var n := op.Size() / 8; 2 <= n && 0 <= Ix(va) && Ix(va) + n <= |s.m|
    requires |m| == |s.m| && m[Ix(va)] == op.HeaderOf()
    requires forall i :: 0 <= i < |m| && i != Ix(va) ==> m[i] == if !op.MakeString? && Ix(va) < i < Ix(va) + op.Size() / 8 then Word(0, 0) else s.m[i]
    ensures Contents(op, s, va, m)
  {
    hide Snap.Sized, Ix, HeapOp.Size, Header;
  }

  lemma FloatContents(op: HeapOp, s: Snap, va: int, m: seq<Word>)
    requires s.Sized() && op.Sane(s) && op.MakeFloat? && 0 <= Ix(va) && Ix(va) + 6 <= |s.m| == |m|
    requires forall i :: 0 <= i < |m| ==> m[i] == if Ix(va) <= i < Ix(va) + 6 then FloatWord(op.kind, op.quarters, i - Ix(va)) else s.m[i]
    ensures Contents(op, s, va, m)
  {
    hide Snap.Sized, Ix, FloatWord;
  }

  /** The object an instruction makes, word by word: its header's count and
      subtag, and zeros, but that a string keeps what was there; a cons its two
      operands, or zeros; a float box its quarters, tagged, behind a padding
      word.  A cons has both bits, another object a start bit. */
  lemma MadeIs(op: HeapOp, y: Moment, z: Moment)
    requires y.s.Sized() && op.Sane(y.s) && Made(op, y, z) && !op.StoreWord? && 0 <= Ix(y.va) && Ix(z.va) <= |z.s.m| && On16(y.va)
    ensures var b, n := Ix(y.va), (z.va - y.va) / 8;
      && |z.s.m| == |y.s.m| && b + n <= |z.s.m| && z.s.st == y.s.st[b := true] && z.s.co == (if op.MakeCons? || op.MakeEmpty? then y.s.co[b := true] else y.s.co)
      && (forall i :: 0 <= i < |z.s.m| && !(b <= i < b + n) ==> z.s.m[i] == y.s.m[i])
      && match op
         case MakeCons(p, q) => n == 2 && z.s.m[b] == p.Read(y.s) && z.s.m[b + 1] == q.Read(y.s)
         case MakeEmpty => n == 2 && z.s.m[b] == z.s.m[b + 1] == Word(0, 0)
         case MakeObject(c, t) => 8 * n == Align16((c + 2) * 8) && z.s.m[b] == Header(c, t) && Cleared(z.s.m, b + 1, b + n)
         case MakeArray(c) => 8 * n == Align16((c + 2) * 8) && z.s.m[b] == Header(c, 0x32) && Cleared(z.s.m, b + 1, b + n)
         case MakeString(c) => 8 * n == Align16((c + 2) * 8) && z.s.m[b] == Header(c, 0x31) && z.s.m[b + 1..b + n] == y.s.m[b + 1..b + n]
         case MakeBytes(k) => 8 * n == Align16(16 + k) && z.s.m[b] == Header(k, 0x11) && Cleared(z.s.m, b + 1, b + n)
         case MakeFloat(t, q) => n == 6 && z.s.m[b] == Header(4, t) && z.s.m[b + 1] == Word(0, 0)
                                 && forall k :: 0 <= k < 4 ==> z.s.m[b + 2 + k] == Word(2 * q[k], 0)
  {
    SaneSize(op, y.s);
    hide Snap.Sized, Header, Align16, Snap.HeaderSafe, SmallCount;
    Eighths(y.va);
  }

  predicate Cleared(m: seq<Word>, from: int, to: int) {
    0 <= from <= to <= |m| && forall i :: from <= i < to ==> m[i] == Word(0, 0)
  }

  /** Sane sizes are whole granules, and at least one. */
  lemma SaneSize(op: HeapOp, s: Snap)
    requires s.Sized() && op.Sane(s) && !op.StoreWord?
    ensures op.Size() >= 16 && op.Size() == 8 * (op.Size() / 8) && (op.Size() / 8) % 2 == 0
  {
    hide Snap.Sized, Header, Snap.HeaderSafe, Align16;
    match op
    case MakeObject(c, _) => Rounded((c + 2) * 8); AtLeast((c + 2) * 8);
    case MakeArray(c) => Rounded((c + 2) * 8); AtLeast((c + 2) * 8);
    case MakeString(c) => Rounded((c + 2) * 8); AtLeast((c + 2) * 8);
    case MakeBytes(k) => Rounded(16 + k); AtLeast(16 + k);
    case _ =>
  }

  /** Sane objects have headers that give their sizes. */
  lemma SaneHeader(op: HeapOp, s: Snap)
    requires s.Sized() && op.Sane(s) && (op.MakeObject? || op.MakeArray? || op.MakeString? || op.MakeBytes?)
    ensures match op
      case MakeObject(c, t) => SmallCount(c) && 0 <= t < 256 && t != 0x11 && t % 16 != 15 && op.HeaderOf() == Header(c, t) && op.Size() == Align16((c + 2) * 8)
      case MakeArray(c) => SmallCount(c) && op.HeaderOf() == Header(c, 0x32) && op.Size() == Align16((c + 2) * 8)
      case MakeString(c) => SmallCount(c) && op.HeaderOf() == Header(c, 0x31) && op.Size() == Align16((c + 2) * 8)
      case MakeBytes(k) => SmallCount(k) && op.HeaderOf() == Header(k, 0x11) && op.Size() == Align16(16 + k)
      case _ => true
    ensures Snap.HeaderSafe(op.HeaderOf())
  {
    hide Snap.Sized, Header, Snap.HeaderSafe, Align16;
    if op.MakeObject? { SmallHeaderSafe(op.count, op.subtag); }
    if op.MakeArray? { SmallHeaderSafe(op.count, 0x32); }
  }

  lemma AtLeast(n: int)
    requires 16 <= n < 0x7FFF_FFF0
    ensures Align16(n) >= 16
  {
    Rounded(n);
  }

  /** op is done and the heap is in order behind it. */
  ghost predicate Next(op: HeapOp, x: Moment, z: Moment) {
    exists y: Moment :: Checked(op, x, y) && y.s.Sized() && op.Sane(y.s) && y.va + op.Size() <= y.vl && Made(op, y, z) && z.Good()
  }

  /** op breaks the heap invariant: its new words are not what the collector
      takes for granted, or behind its check there is too little room. */
  ghost predicate Stuck(op: HeapOp, x: Moment) {
    exists y: Moment :: Checked(op, x, y) && y.s.Sized() && !(op.Sane(y.s) && y.va + op.Size() <= y.vl)
  }

  // ---- checks suffice ------------------------------------------------------------------

  /** A check that passed covers the object behind it, unless it is a float
      box: its 48 bytes are behind a check that tests none. */
  lemma CheckSuffices(op: HeapOp, x: Moment)
    requires x.Good() && op.Sane(x.s) && !op.MakeFloat? && x.va + op.Tested() < x.vl
    ensures x.va + op.Size() <= x.vl
  {
    hide Snap.HeapOk, Snap.HeaderSafe, Align16, Lengths, Ix;
    CheckExact(op.Tested(), x.va, x.vl);
    match op
    case MakeObject(c, _) => ConstCheckCovers(c);
    case MakeArray(c) => SmallWord(c); WordCheckCovers(c);
    case MakeString(c) => SmallWord(c); WordCheckCovers(c);
    case MakeBytes(k) => ByteCheckCovers(k);
    case _ =>
  }

  lemma SmallWord(c: int)
    requires SmallCount(c)
    ensures ToInt32(c) == c && c >= -0x1000_0003
  {
  }

  /** Float boxes: a passing check leaves room exactly when VA is three
      granules below VL. */
  lemma FloatRoom(x: Moment)
    requires x.Good() && x.va < x.vl
    ensures x.va + 48 <= x.vl <==> x.va != x.vl - 16 && x.va != x.vl - 32
  {
    hide Snap.HeapOk, Lengths, Ix;
    Granules(x.va, x.vl);
  }

  lemma Granules(va: int, vl: int)
    requires On16(va) && On16(vl) && va < vl
    ensures va + 48 <= vl <==> va != vl - 16 && va != vl - 32
  {
    assert (vl - va) % 16 == 0;
  }

  /** So only a run that has collected, or a float box, can be stuck for room. */
  lemma StuckForRoom(op: HeapOp, x: Moment, y: Moment)
    requires x.Good() && Checked(op, x, y) && op.Sane(y.s) && y.va + op.Size() > y.vl
    ensures op.MakeFloat? || (y.gcs == x.gcs + 1 && x.va + op.Tested() >= x.vl)
  {
    hide Snap.HeapOk, Snap.HeaderSafe, Align16, Lengths, Ix, HeapOp.Sane, Collected;
    if !op.StoreWord? && !op.MakeFloat? && x.va + op.Tested() < x.vl {
      CheckSuffices(op, x);
    }
  }

  /** Registers are read behind the check: a collection has renamed them. */
  lemma OperandRenamed(o: Operand, x: Snap, y: Snap, p: Plan)
    requires x.Sized() && Collected(x, y, p) && o.In(x.sp)
    ensures o.In(y.sp) && o.Read(y) == p.Rename(x, o.Read(x))
  {
    hide Plan.Rename, ImagesRenamed, RestKept, Plan.Ok, Plan.Even, Plan.Least, Snap.Closed, Lengths;
    if o.Home? {
      assert x.IsRoot(o.i) && !Register(o.i);
    }
  }

  /** So the words of a new cons are the renamed ones when its check collected. */
  lemma ConsRenamed(op: HeapOp, x: Moment, y: Moment, z: Moment, p: Plan)
    requires x.s.Sized() && y.s.Sized() && Collected(x.s, y.s, p) && op.MakeCons? && op.Sane(y.s) && Made(op, y, z)
    requires 0 <= Ix(y.va) && Ix(y.va) + 2 <= |z.s.m|
    ensures op.car.In(x.s.sp) && op.cdr.In(x.s.sp)
    ensures z.s.m[Ix(y.va)] == p.Rename(x.s, op.car.Read(x.s)) && z.s.m[Ix(y.va) + 1] == p.Rename(x.s, op.cdr.Read(x.s))
  {
    hide Collected, Plan.Rename, Snap.Sized, Ix;
    SamePointer(x.s, y.s, p);
    OperandRenamed(op.car, x.s, y.s, p);
    OperandRenamed(op.cdr, x.s, y.s, p);
  }

  lemma SamePointer(x: Snap, y: Snap, p: Plan)
    requires x.Sized() && Collected(x, y, p)
    ensures y.sp == x.sp
  {
  }
}
