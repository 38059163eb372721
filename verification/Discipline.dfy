/** The calling convention the translator relies on, as a static certificate:
    for every pc, the registers, slots and flags that hold meaningful values
    there.  After a call, and where a longjmp may resume, only V4, V9-V15 and
    the frame slots do (comment at web/mvm.js:1493-1494); flags never reach
    the start of a block; a function is entered with V0-V4. */
module Discipline {
  import opened Words
  import opened Isa
  import opened Results
  import opened Translate
  import opened Tiers

  /** Registers, slots and flags; order says that the flags are looked at for
      more than equality, resume that a longjmp may come here. */
  datatype Live = Live(regs: set<nat>, slots: set<nat>, flags: bool, order: bool, resume: bool) {
    predicate Below(x: Live) {
      regs <= x.regs && slots <= x.slots && (flags ==> x.flags && (order ==> x.order))
    }

    predicate Has(v: nat) {
      v == VR || v in regs
    }

    function With(v: nat): Live {
      this.(regs := regs + {v})
    }

    /** A word that need not be live is put into v. */
    function Moved(v: nat, live: bool): Live {
      if live then With(v) else this.(regs := regs - {v})
    }

    /** What a call leaves: callee-saved V4, the memory-resident registers, the slots. */
    function Saved(): Live {
      Live((set v | v in regs && (v == 4 || v >= 9)), slots, false, false, false)
    }

    function Unflagged(): Live {
      this.(flags := false)
    }

    /** Only what a frame's memory keeps while its locals are elsewhere. */
    predicate Resident() {
      !flags && forall v :: v in regs ==> v == 4 || v >= 9
    }
  }

  type Cert = map<int, Live>

  /** The instruction reads only what is live. */
  predicate Reads(x: Live, insn: Insn) {
    match insn
    case Mov(d, s) => x.Has(s) || d != VR
    case Alu(_, _, a, b) => x.Has(a) && x.Has(b)
    case Delegate(_, _, a, b) => x.Has(a) && x.Has(b)
    case Push(s) => x.Has(s)
    case Cmp(a, b) => x.Has(a) && x.Has(b)
    case SlotRef(_, idx) => idx in x.slots
    case BranchIf(c, _) => x.flags && (x.order || c.EQ? || c.NE?)
    case BranchNil(s, _, _) => x.Has(s)
    case CallInd(s) => x.Has(s)
    case Setjmp => x.Has(4)
    case _ => true
  }

  /** What is live behind a local instruction; order says what a comparison is for. */
  function After(x: Live, insn: Insn, order: bool): Live {
    match insn
    case Mov(d, s) => x.Moved(d, x.Has(s))
    case Li(d, _) => x.With(d)
    case Alu(_, d, _, _) => x.With(d)
    case Delegate(_, d, _, _) => x.With(d)
    case Pop(d) => x.With(d)
    case SlotRef(d, _) => x.With(d)
    case SlotSet(idx, s) => x.(slots := if x.Has(s) then x.slots + {idx} else x.slots - {idx})
    case Cmp(_, _) => x.(flags := true, order := order)
    case Setjmp => x.Saved()
    case _ => x
  }

  /** Behind pc, a comparison is used for its order. */
  predicate Ordered(d: Cert, pc: int) {
    pc in d && d[pc].order
  }

  /** A longjmp may resume where this register, or slot, is live. */
  predicate Relied(d: Cert, v: nat) {
    exists q :: q in d && d[q].resume && v in d[q].regs
  }

  predicate SlotRelied(d: Cert, i: nat) {
    exists q :: q in d && d[q].resume && i in d[q].slots
  }

  /** A word that is not live does not go where a longjmp relies on the old one. */
  predicate Buries(d: Cert, x: Live, insn: Insn) {
    match insn
    case Mov(v, s) => x.Has(s) || v < 9 || !Relied(d, v)
    case SlotSet(i, s) => x.Has(s) || !SlotRelied(d, i)
    case _ => true
  }

  /** The certificate is consistent at pc. */
  predicate Rule(w: World, d: Cert, pc: int)
    requires pc in w.code && pc in d
  {
    var x, insn, next := d[pc], w.code[pc].insn, pc + w.code[pc].len;
    && Regs(insn) && Reads(x, insn) && Buries(d, x, insn)
    && match insn
       case Branch(t) => Arrives(d, t, x.Unflagged())
       case BranchIf(_, t) => Arrives(d, t, x.Unflagged()) && Arrives(d, next, x.Unflagged())
       case BranchNil(_, _, t) => Arrives(d, t, x.Unflagged()) && Arrives(d, next, x.Unflagged())
       case Call(t) => Passes(w, d, t, x) && Arrives(d, next, x.Saved())
       case CallInd(_) => Arrives(d, next, x.Saved())
       case Tail(t) => Passes(w, d, t, x)
       case Ret | Longjmp => true
       case Setjmp => next in d && d[next].resume && d[next].Below(x.Saved())
       case _ => Arrives(d, next, After(x, insn, Ordered(d, next)))
  }

  predicate Arrives(d: Cert, pc: int, x: Live) {
    pc in d ==> d[pc].Below(x)
  }

  /** A callee finds its arguments. */
  predicate Passes(w: World, d: Cert, t: int, x: Live) {
    t in w.entries && t in d ==> d[t].regs <= x.regs
  }

  predicate EntryOk(x: Live) {
    x.slots == {} && !x.flags && forall v :: v in x.regs ==> v <= 4
  }

  ghost predicate Disciplined(w: World, d: Cert) {
    && d.Keys == w.code.Keys
    && (forall pc :: pc in w.code ==> 0 <= pc && Rule(w, d, pc))
    && (forall t :: t in w.entries ==> t in d && EntryOk(d[t]))
  }

  /** A function whose translation the driver may use: entered at its least
      pc, and without overlapping instructions. */
  ghost predicate Usable(w: World, t: int, f: TFun) {
    && Translated(w.code, t, f) && t == f.order[0]
    && forall k :: 0 <= k < |f.order| && !Ends(w.code[f.order[k]].insn) ==> NextInOrder(w.code, f, k)
  }

  predicate NextInOrder(code: Code, f: TFun, k: nat)
    requires k < |f.order| && f.order[k] in code
  {
    k + 1 < |f.order| && f.order[k + 1] == f.order[k] + code[f.order[k]].len
  }

  lemma BlocksUnflagged(w: World, d: Cert, q: int, pc: int)
    requires q in w.code && q in d && Rule(w, d, q) && pc in Blocks(w.code, q) && pc in d
    ensures !d[pc].flags
  {
  }

  /** Flags are dead wherever a block starts. */
  lemma LabelsUnflagged(w: World, d: Cert, t: int, f: TFun, pc: int)
    requires Disciplined(w, d) && t in w.entries && Translated(w.code, t, f) && pc in f.labels
    ensures pc in w.code && !d[pc].flags
  {
    hide Rule, Blocks, Leads;
    assert pc in f.order && (pc == t || BlockOf(w.code, f.order, pc));
    var k :| 0 <= k < |f.order| && f.order[k] == pc;
    assert f.order[k] in w.code;
    if pc != t {
      var j :| 0 <= j < |f.order| && f.order[j] in w.code && pc in Blocks(w.code, f.order[j]);
      BlocksUnflagged(w, d, f.order[j], pc);
    }
  }

  // ---- agreement -------------------------------------------------------------------------

  /** Which word of the interpreter and which word of the other machine stand
      for the same thing.  Each machine collects for itself: their stacks hold
      different leftovers, so they move different objects to different places. */
  type Same = (Word, Word) -> bool

  ghost predicate SameSeq(e: Same, s: seq<Word>, t: seq<Word>) {
    |s| == |t| && forall i :: 0 <= i < |s| ==> e(s[i], t[i])
  }

  /** Two frames of one activation, one per tier. */
  ghost predicate Alike(e: Same, f: Frame, g: Frame) {
    f.Valid() && g.Valid() && SameSeq(e, f.stk, g.stk) && f.fn == g.fn && f.id == g.id
  }

  /** They hold the same live values. */
  ghost predicate Agree(e: Same, x: Live, f: Frame, g: Frame)
    requires f.Valid() && g.Valid()
  {
    && (forall v :: v in x.regs && v < 16 ==> e(f.home[v], g.home[v]))
    && (forall i :: i in x.slots && i < SLOTS ==> e(f.slot[i], g.slot[i]))
  }

  lemma AgreeBelow(e: Same, x: Live, y: Live, f: Frame, g: Frame)
    requires f.Valid() && g.Valid() && Agree(e, x, f, g) && y.regs <= x.regs && y.slots <= x.slots
    ensures Agree(e, y, f, g)
  {
  }

  /** Two jump buffers: V4 is the only word in them. */
  ghost predicate HandlerAlike(e: Same, o: Option<Handler>, o': Option<Handler>) {
    match o
    case None => o' == None
    case Some(h) => o'.Some? && o'.value == h.(v4 := o'.value.v4) && e(h.v4, o'.value.v4)
  }

  ghost predicate HandlersAlike(e: Same, hs: Handlers<Handler>, hs': Handlers<Handler>) {
    && hs'.over == hs.over && |hs'.saved| == |hs.saved| && HandlerAlike(e, hs.cur, hs'.cur)
    && forall i :: 0 <= i < |hs.saved| ==> HandlerAlike(e, hs.saved[i], hs'.saved[i])
  }

  lemma PushAlike(e: Same, hs: Handlers<Handler>, hs': Handlers<Handler>, h: Handler, h': Handler)
    requires HandlersAlike(e, hs, hs') && HandlerAlike(e, Some(h), Some(h'))
    ensures HandlersAlike(e, hs.Push(h), hs'.Push(h'))
  {
  }

  lemma DropAlike(e: Same, hs: Handlers<Handler>, hs': Handlers<Handler>)
    requires HandlersAlike(e, hs, hs')
    ensures HandlersAlike(e, hs.Drop(), hs'.Drop())
  {
  }

  /** The state outside the frames. */
  ghost predicate SameRest(e: Same, a: Core, b: Core) {
    && e(a.vr, b.vr) && HandlersAlike(e, a.hs, b.hs)
    && a.calls == b.calls && a.checks == b.checks && |a.frames| == |b.frames|
  }

  /** Comparisons of corresponding words: the same for equality, and for order
      where that is looked at. */
  predicate FlagsAlike(order: bool, s: int, t: int) {
    (s == 0 <==> t == 0) && (order ==> (s < 0 <==> t < 0))
  }

  ghost predicate SameTop(e: Same, x: Live, a: Core, b: Core) {
    && SameRest(e, a, b) && a.frames != [] && Alike(e, a.Top(), b.Top())
    && Agree(e, x, a.Top(), b.Top()) && (x.flags ==> FlagsAlike(x.order, a.cmp, b.cmp))
  }

  /** Reading a live register gives corresponding words. */
  lemma GetSame(e: Same, x: Live, a: Core, b: Core, v: nat)
    requires SameTop(e, x, a, b) && x.Has(v) && v <= VR
    ensures e(a.Get(v), b.Get(v))
  {
  }

  lemma SetSame(e: Same, x: Live, a: Core, b: Core, v: nat, w: Word, w': Word)
    requires SameTop(e, x, a, b) && v <= VR && e(w, w')
    ensures SameTop(e, x.With(v), a.Set(v, w), b.Set(v, w'))
  {
    hide HandlersAlike, SameSeq;
  }

  /** The instruction, on what the interpreter holds, does not tell
      corresponding words apart. */
  ghost predicate Blind(w: World, w': World, e: Same, order: bool, a: Core, insn: Insn)
    requires a.frames != [] && a.Top().Valid() && Regs(insn)
  {
    match insn
    case Li(_, k) => e(k, k)
    case Alu(op, _, p, q) => BlindAlu(w, w', e, op, a.Get(p), a.Get(q))
    case Delegate(op, _, p, q) => BlindAlu(w, w', e, op, a.Get(p), a.Get(q))
    case Cmp(p, q) => BlindCmp(e, order, a.Get(p), a.Get(q))
    case BranchNil(s, _, _) => forall y :: e(a.Get(s), y) ==> (y == Nil() <==> a.Get(s) == Nil())
    case CallInd(s) => e(Tee(), Tee()) && forall y :: e(a.Get(s), y) ==> FnTarget(y) == FnTarget(a.Get(s))
    case Setjmp => e(Nil(), Nil())
    case Longjmp => e(Tee(), Tee())
    case _ => true
  }

  ghost predicate BlindAlu(w: World, w': World, e: Same, op: int, x: Word, y: Word) {
    forall x', y' :: e(x, x') && e(y, y') ==> e(w.alu(op, x, y), w'.alu(op, x', y'))
  }

  ghost predicate BlindCmp(e: Same, order: bool, x: Word, y: Word) {
    forall x', y' :: e(x, x') && e(y, y') ==> FlagsAlike(order, Cmp64(x, y), Cmp64(x', y'))
  }

  lemma LocalMoves(w: World, w': World, e: Same, x: Live, order: bool, a: Core, b: Core, insn: Insn, next: int)
    requires SameTop(e, x, a, b) && Regs(insn) && IsLocal(insn) && Reads(x, insn) && insn != GcCheck
    requires Blind(w, w', e, order, a, insn) && (insn.Mov? || insn.Li? || insn.SlotRef?)
    ensures var r, s := ExecLocal(w, a, insn, next), ExecLocal(w', b, insn, next);
      (r.Some? <==> s.Some?) && (r.Some? ==> SameTop(e, After(x, insn, order), r.value, s.value))
  {
    TopsValid(e, x, a, b);
    hide HandlersAlike, BlindAlu, BlindCmp, SameTop, Cmp64;
    match insn
    case Mov(d, s) => MovSame(e, x, a, b, d, s);
    case Li(d, c) => SetSame(e, x, a, b, d, c, c);
    case SlotRef(d, idx) => SlotSame(e, x, a, b, idx); SetSame(e, x, a, b, d, a.Top().slot[idx], b.Top().slot[idx]);
  }

  lemma LocalAlus(w: World, w': World, e: Same, x: Live, order: bool, a: Core, b: Core, insn: Insn, next: int)
    requires SameTop(e, x, a, b) && Regs(insn) && IsLocal(insn) && Reads(x, insn) && insn != GcCheck
    requires Blind(w, w', e, order, a, insn) && (insn.Alu? || insn.Delegate? || insn.Cmp?)
    ensures var r, s := ExecLocal(w, a, insn, next), ExecLocal(w', b, insn, next);
      (r.Some? <==> s.Some?) && (r.Some? ==> SameTop(e, After(x, insn, order), r.value, s.value))
  {
    TopsValid(e, x, a, b);
    hide HandlersAlike, BlindAlu, BlindCmp, SameTop, Cmp64;
    match insn
    case Alu(op, d, p, q) => AluSame(w, w', e, x, a, b, op, d, p, q);
    case Delegate(op, d, p, q) => AluSame(w, w', e, x, a, b, op, d, p, q);
    case Cmp(p, q) => CmpSame(e, x, order, a, b, p, q);
  }

  lemma LocalStores(w: World, w': World, e: Same, x: Live, order: bool, a: Core, b: Core, insn: Insn, next: int)
    requires SameTop(e, x, a, b) && Regs(insn) && IsLocal(insn) && Reads(x, insn) && insn != GcCheck
    requires Blind(w, w', e, order, a, insn) && (insn.Push? || insn.SlotSet?)
    ensures var r, s := ExecLocal(w, a, insn, next), ExecLocal(w', b, insn, next);
      (r.Some? <==> s.Some?) && (r.Some? ==> SameTop(e, After(x, insn, order), r.value, s.value))
  {
    TopsValid(e, x, a, b);
    hide HandlersAlike, BlindAlu, BlindCmp, SameTop, Cmp64;
    match insn
    case Push(s) => PushSame(e, x, a, b, s);
    case SlotSet(idx, s) => SlotSetSame(e, x, a, b, idx, s);
  }

  lemma LocalPop(w: World, w': World, e: Same, x: Live, order: bool, a: Core, b: Core, d: nat, next: int)
    requires SameTop(e, x, a, b) && Regs(Pop(d))
    ensures a.frames != [] && a.Top().Valid() && b.frames != [] && b.Top().Valid()
    ensures var r, s := ExecLocal(w, a, Pop(d), next), ExecLocal(w', b, Pop(d), next);
      (r.Some? <==> s.Some?) && (r.Some? ==> SameTop(e, After(x, Pop(d), order), r.value, s.value))
  {
    TopsValid(e, x, a, b);
    if a.Top().stk != [] { PopSame(e, x, a, b, d); }
    hide SameTop;
  }

  lemma LocalHandlers(w: World, w': World, e: Same, x: Live, order: bool, a: Core, b: Core, insn: Insn, next: int)
    requires SameTop(e, x, a, b) && Regs(insn) && IsLocal(insn) && Reads(x, insn) && insn != GcCheck
    requires Blind(w, w', e, order, a, insn) && (insn == Nop || insn == Setjmp || insn == PopHandler)
    ensures var r, s := ExecLocal(w, a, insn, next), ExecLocal(w', b, insn, next);
      (r.Some? <==> s.Some?) && (r.Some? ==> SameTop(e, After(x, insn, order), r.value, s.value))
  {
    TopsValid(e, x, a, b);
    hide HandlersAlike, BlindAlu, BlindCmp, SameTop, Cmp64;
    match insn
    case Nop =>
    case Setjmp => SetjmpSame(e, x, a, b, next);
    case PopHandler => DropSame(e, x, a, b);
  }

  lemma MovSame(e: Same, x: Live, a: Core, b: Core, d: nat, s: nat)
    requires SameTop(e, x, a, b) && d <= VR && s <= VR && (x.Has(s) || d != VR)
    ensures a.frames != [] && a.Top().Valid() && b.frames != [] && b.Top().Valid()
    ensures SameTop(e, x.Moved(d, x.Has(s)), a.Set(d, a.Get(s)), b.Set(d, b.Get(s)))
  {
    TopsValid(e, x, a, b);
    if x.Has(s) {
      GetSame(e, x, a, b, s);
      SetSame(e, x, a, b, d, a.Get(s), b.Get(s));
    } else {
      SetDead(e, x, a, b, d, a.Get(s), b.Get(s));
    }
  }

  lemma SetDead(e: Same, x: Live, a: Core, b: Core, v: nat, w: Word, w': Word)
    requires SameTop(e, x, a, b) && v < VR
    ensures SameTop(e, x.Moved(v, false), a.Set(v, w), b.Set(v, w'))
  {
    hide HandlersAlike, SameSeq;
  }

  /** Local instructions other than a collection keep live agreement. */
  lemma LocalSame(w: World, w': World, e: Same, x: Live, order: bool, a: Core, b: Core, insn: Insn, next: int)
    requires SameTop(e, x, a, b) && Regs(insn) && IsLocal(insn) && Reads(x, insn) && insn != GcCheck
    requires Blind(w, w', e, order, a, insn)
    ensures var r, s := ExecLocal(w, a, insn, next), ExecLocal(w', b, insn, next);
      (r.Some? <==> s.Some?) && (r.Some? ==> SameTop(e, After(x, insn, order), r.value, s.value))
  {
    hide ExecLocal, Blind, After, Reads, Regs, SameTop;
    if insn.Mov? || insn.Li? || insn.SlotRef? {
      LocalMoves(w, w', e, x, order, a, b, insn, next);
    } else if insn.Alu? || insn.Delegate? || insn.Cmp? {
      LocalAlus(w, w', e, x, order, a, b, insn, next);
    } else if insn.Push? || insn.SlotSet? {
      LocalStores(w, w', e, x, order, a, b, insn, next);
    } else if insn.Pop? {
      LocalPop(w, w', e, x, order, a, b, insn.d, next);
    } else {
      LocalHandlers(w, w', e, x, order, a, b, insn, next);
    }
  }

  lemma TopsValid(e: Same, x: Live, a: Core, b: Core)
    requires SameTop(e, x, a, b)
    ensures a.frames != [] && a.Top().Valid() && b.frames != [] && b.Top().Valid() && |a.Top().stk| == |b.Top().stk|
  {
    hide HandlersAlike;
  }

  lemma SlotSame(e: Same, x: Live, a: Core, b: Core, idx: nat)
    requires SameTop(e, x, a, b) && idx in x.slots && idx < SLOTS
    ensures e(a.Top().slot[idx], b.Top().slot[idx])
  {
    hide HandlersAlike;
  }

  lemma PushSame(e: Same, x: Live, a: Core, b: Core, s: nat)
    requires SameTop(e, x, a, b) && x.Has(s) && s <= VR
    ensures SameTop(e, x, a.WithTop(a.Top().(stk := a.Top().stk + [a.Get(s)])), b.WithTop(b.Top().(stk := b.Top().stk + [b.Get(s)])))
  {
    hide HandlersAlike;
    GetSame(e, x, a, b, s);
  }

  lemma SlotSetSame(e: Same, x: Live, a: Core, b: Core, idx: nat, s: nat)
    requires SameTop(e, x, a, b) && s <= VR && idx < SLOTS
    ensures SameTop(e, x.(slots := if x.Has(s) then x.slots + {idx} else x.slots - {idx}), a.WithTop(a.Top().(slot := a.Top().slot[idx := a.Get(s)])), b.WithTop(b.Top().(slot := b.Top().slot[idx := b.Get(s)])))
  {
    hide HandlersAlike, SameSeq;
    if x.Has(s) { GetSame(e, x, a, b, s); }
  }

  lemma DropSame(e: Same, x: Live, a: Core, b: Core)
    requires SameTop(e, x, a, b)
    ensures SameTop(e, x, a.(hs := a.hs.Drop()), b.(hs := b.hs.Drop()))
  {
    DropAlike(e, a.hs, b.hs);
    hide HandlersAlike, SameSeq, Agree;
  }

  lemma AluSame(w: World, w': World, e: Same, x: Live, a: Core, b: Core, op: int, d: nat, p: nat, q: nat)
    requires SameTop(e, x, a, b) && x.Has(p) && x.Has(q) && d <= VR && p <= VR && q <= VR
    requires BlindAlu(w, w', e, op, a.Get(p), a.Get(q))
    ensures SameTop(e, x.With(d), a.Set(d, w.alu(op, a.Get(p), a.Get(q))), b.Set(d, w'.alu(op, b.Get(p), b.Get(q))))
  {
    GetSame(e, x, a, b, p);
    GetSame(e, x, a, b, q);
    SetSame(e, x, a, b, d, w.alu(op, a.Get(p), a.Get(q)), w'.alu(op, b.Get(p), b.Get(q)));
  }

  lemma CmpSame(e: Same, x: Live, order: bool, a: Core, b: Core, p: nat, q: nat)
    requires SameTop(e, x, a, b) && x.Has(p) && x.Has(q) && p <= VR && q <= VR
    requires BlindCmp(e, order, a.Get(p), a.Get(q))
    ensures SameTop(e, x.(flags := true, order := order), a.(cmp := Cmp64(a.Get(p), a.Get(q))), b.(cmp := Cmp64(b.Get(p), b.Get(q))))
  {
    hide HandlersAlike;
    GetSame(e, x, a, b, p);
    GetSame(e, x, a, b, q);
  }

  lemma PopSame(e: Same, x: Live, a: Core, b: Core, d: nat)
    requires SameTop(e, x, a, b) && d <= VR && a.Top().stk != []
    ensures var k, k' := a.Top().stk, b.Top().stk;
      && k' != []
      && SameTop(e, x.With(d), a.WithTop(a.Top().(stk := k[..|k| - 1])).Set(d, k[|k| - 1]), b.WithTop(b.Top().(stk := k'[..|k'| - 1])).Set(d, k'[|k'| - 1]))
  {
    hide HandlersAlike;
    var k, k' := a.Top().stk, b.Top().stk;
    var a1, b1 := a.WithTop(a.Top().(stk := k[..|k| - 1])), b.WithTop(b.Top().(stk := k'[..|k'| - 1]));
    assert SameTop(e, x, a1, b1);
    SetSame(e, x, a1, b1, d, k[|k| - 1], k'[|k'| - 1]);
  }

  lemma SetjmpSame(e: Same, x: Live, a: Core, b: Core, next: int)
    requires SameTop(e, x, a, b) && x.Has(4) && e(Nil(), Nil())
    ensures var f, g := a.Top(), b.Top();
      var h, h' := Handler(|a.frames|, |f.stk|, next, f.home[4], f.fn, f.id), Handler(|b.frames|, |g.stk|, next, g.home[4], g.fn, g.id);
      && HandlerAlike(e, Some(h), Some(h'))
      && SameTop(e, x.Saved(), a.(hs := a.hs.Push(h), vr := Nil()), b.(hs := b.hs.Push(h'), vr := Nil()))
  {
    var f, g := a.Top(), b.Top();
    var h, h' := Handler(|a.frames|, |f.stk|, next, f.home[4], f.fn, f.id), Handler(|b.frames|, |g.stk|, next, g.home[4], g.fn, g.id);
    GetSame(e, x, a, b, 4);
    PushAlike(e, a.hs, b.hs, h, h');
    hide HandlersAlike;
  }

  // ---- locals ------------------------------------------------------------------------------

  /** The frame a translated activation would have if its locals were spilled,
      with its flag variable. */
  ghost function View(c: Core, loc: seq<Word>, cmp: int): Core
    requires c.frames != [] && c.Top().Valid() && |loc| == 9
  {
    Spill(c, loc).(cmp := cmp)
  }

  lemma ViewGet(c: Core, loc: seq<Word>, cmp: int, v: nat)
    requires c.frames != [] && c.Top().Valid() && |loc| == 9 && v <= VR
    ensures View(c, loc, cmp).Get(v) == TGet(c, loc, v)
  {
  }

  lemma ViewSet(c: Core, loc: seq<Word>, cmp: int, d: nat, x: Word)
    requires c.frames != [] && c.Top().Valid() && |loc| == 9 && d <= VR
    ensures var r := TSet(c, loc, cmp, d, x).value;
      View(r.0, r.1, r.2) == View(c, loc, cmp).Set(d, x)
  {
    var r := TSet(c, loc, cmp, d, x).value;
    var f := c.Top();
    if d < 9 {
      assert loc[d := x] + f.home[9..] == (loc + f.home[9..])[d := x];
    } else if d < 16 {
      assert loc + f.home[d := x][9..] == (loc + f.home[9..])[d := x];
    }
  }

  predicate OpenCoded(insn: Insn) {
    match insn
    case Nop | Mov(_, _) | Li(_, _) | Alu(_, _, _, _) | Push(_) | Pop(_) | Cmp(_, _) | SlotRef(_, _) | SlotSet(_, _) => true
    case _ => false
  }

  lemma ViewTop(c: Core, loc: seq<Word>, cmp: int)
    requires c.frames != [] && c.Top().Valid() && |loc| == 9
    ensures var v := View(c, loc, cmp); v.frames != [] && v.Top().Valid() && v.Top().stk == c.Top().stk && v.Top().slot == c.Top().slot
  {
  }

  lemma OpenPop(c: Core, loc: seq<Word>, cmp: int, d: nat)
    requires c.frames != [] && c.Top().Valid() && |loc| == 9 && d <= VR && c.Top().stk != []
    ensures var k, v := c.Top().stk, View(c, loc, cmp);
      var r := TSet(c.WithTop(c.Top().(stk := k[..|k| - 1])), loc, cmp, d, k[|k| - 1]).value;
      View(r.0, r.1, r.2) == v.WithTop(v.Top().(stk := k[..|k| - 1])).Set(d, k[|k| - 1])
  {
    var k := c.Top().stk;
    var c1 := c.WithTop(c.Top().(stk := k[..|k| - 1]));
    ViewSet(c1, loc, cmp, d, k[|k| - 1]);
    assert View(c1, loc, cmp) == View(c, loc, cmp).WithTop(View(c, loc, cmp).Top().(stk := k[..|k| - 1]));
    hide View, TSet;
  }

  /** An open-coded instruction does to the locals what the interpreter's does
      to the spilled frame. */
  lemma OpenIsLocal(w: World, c: Core, loc: seq<Word>, cmp: int, insn: Insn, next: int)
    requires c.frames != [] && c.Top().Valid() && |loc| == 9 && Regs(insn) && OpenCoded(insn)
    ensures var r, s := ExecOpen(w, c, loc, cmp, insn), ExecLocal(w, View(c, loc, cmp), insn, next);
      (r.Some? <==> s.Some?) && (r.Some? ==> View(r.value.0, r.value.1, r.value.2) == s.value)
  {
    ViewTop(c, loc, cmp);
    hide Cmp64;
    match insn
    case Nop =>
    case Mov(d, s) => ViewGet(c, loc, cmp, s); ViewSet(c, loc, cmp, d, TGet(c, loc, s));
    case Li(d, x) => ViewSet(c, loc, cmp, d, x);
    case Alu(op, d, a, b) => ViewGet(c, loc, cmp, a); ViewGet(c, loc, cmp, b); ViewSet(c, loc, cmp, d, w.alu(op, TGet(c, loc, a), TGet(c, loc, b)));
    case Push(s) => ViewGet(c, loc, cmp, s);
    case Pop(d) =>
      var k := c.Top().stk;
      if k != [] { OpenPop(c, loc, cmp, d); }
    case Cmp(a, b) => ViewGet(c, loc, cmp, a); ViewGet(c, loc, cmp, b);
    case SlotRef(d, idx) => ViewSet(c, loc, cmp, d, c.Top().slot[idx]);
    case SlotSet(idx, s) => ViewGet(c, loc, cmp, s);
  }

  // ---- what the convention asks ---------------------------------------------------------------

  /** Only what a call leaves is looked at there. */
  predicate Behind(d: Cert, q: int) {
    q in d ==> !d[q].flags && d[q].regs <= {4, 9, 10, 11, 12, 13, 14, 15}
  }

  predicate NoFlags(d: Cert, q: int) {
    q in d ==> !d[q].flags
  }

  /** Where every register and slot holds something meaningful, it asks this of
      an instruction and no more. */
  lemma Asks(w: World, d: Cert, pc: int)
    requires pc in w.code && pc in d && (forall v: nat :: v in d[pc].regs <==> v < 16) && forall i: nat :: i in d[pc].slots <==> i < 128
    requires forall q :: q in d ==> d[q].regs <= d[pc].regs && d[q].slots <= d[pc].slots
    ensures var x, insn, next := d[pc], w.code[pc].insn, pc + w.code[pc].len;
      Rule(w, d, pc) <==> (Regs(insn) && (
        if insn.Call? || insn.CallInd? then Behind(d, next)
        else if insn.Setjmp? then next in d && d[next].resume && Behind(d, next)
        else if insn.Branch? then NoFlags(d, insn.t)
        else if insn.BranchNil? then NoFlags(d, insn.t) && NoFlags(d, next)
        else if insn.BranchIf? then x.flags && (x.order || insn.c == EQ || insn.c == NE) && NoFlags(d, insn.t) && NoFlags(d, next)
        else insn.Tail? || insn.Ret? || insn.Longjmp? || insn.Cmp? || (next in d && d[next].flags ==> x.flags && (d[next].order ==> x.order))))
  {
  }
}
