/** The state relation between the interpreter and the mixed machine, and what
    keeps it apart from control: local instructions, collections, spills,
    frames pushed, replaced, popped and restored. */
module Pairing {
  import opened Words
  import opened Isa
  import opened Results
  import opened Tiers
  import opened Discipline
  import opened Control

  /** A saved jump buffer whose activation is live: wherever it resumes, both
      tiers' memory agrees on what is live there (V4 comes from the buffer). */
  ghost predicate SavedOk(e: Same, d: Cert, p: Policy, h: Handler, f: Frame, g: Frame)
    requires f.Valid() && g.Valid()
  {
    && f.fn == h.fn && h.ip in d && d[h.ip].Resident() && d[h.ip].resume
    && Agree(e, d[h.ip].(regs := d[h.ip].regs - {4}), f, g)
    && (h.fn in p.funs ==> Tiers.Resumes(p.funs[h.fn], h.ip) && h.ip in p.funs[h.fn].order)
  }

  ghost predicate HandlerOk(e: Same, d: Cert, p: Policy, F: seq<Frame>, G: seq<Frame>, calls: nat, o: Option<Handler>)
    requires |F| == |G| && forall k :: 0 <= k < |F| ==> Alike(e, F[k], G[k])
  {
    o.Some? ==>
      var h := o.value;
      h.id <= calls && (0 < h.depth <= |F| && F[h.depth - 1].id == h.id ==> Alike(e, F[h.depth - 1], G[h.depth - 1]) && SavedOk(e, d, p, h, F[h.depth - 1], G[h.depth - 1]))
  }

  ghost predicate AllAlike(e: Same, F: seq<Frame>, G: seq<Frame>) {
    |F| == |G| && forall k :: 0 <= k < |F| ==> Alike(e, F[k], G[k])
  }

  ghost predicate HandlersOk(e: Same, d: Cert, p: Policy, F: seq<Frame>, G: seq<Frame>, calls: nat, hs: Handlers<Handler>)
    requires AllAlike(e, F, G)
  {
    && HandlerOk(e, d, p, F, G, calls, hs.cur)
    && forall i :: 0 <= i < |hs.saved| ==> HandlerOk(e, d, p, F, G, calls, hs.saved[i])
  }

  ghost predicate Paired(e: Same, d: Cert, p: Policy, a: Core, b: Core) {
    && SameRest(e, a, b) && AllAlike(e, a.frames, b.frames)
    && (forall k :: 0 <= k < |a.frames| ==> a.frames[k].id <= a.calls)
    && HandlersOk(e, d, p, a.frames, b.frames, a.calls, a.hs)
  }

  // ---- changes of the top frames ---------------------------------------------------------

  /** Registers V9-V15 and slots either did not change, or changed alike, or no
      longjmp relies on them. */
  ghost predicate Kept(e: Same, d: Cert, f: Frame, f': Frame, g: Frame, g': Frame)
    requires f.Valid() && f'.Valid() && g.Valid() && g'.Valid()
  {
    && f'.fn == f.fn && f'.id == f.id && Alike(e, f', g')
    && (forall v :: 9 <= v < 16 ==> e(f'.home[v], g'.home[v]) || (f'.home[v] == f.home[v] && g'.home[v] == g.home[v]) || !Relied(d, v))
    && (forall i :: 0 <= i < SLOTS ==> e(f'.slot[i], g'.slot[i]) || (f'.slot[i] == f.slot[i] && g'.slot[i] == g.slot[i]) || !SlotRelied(d, i))
  }

  lemma SavedKept(e: Same, d: Cert, p: Policy, h: Handler, f: Frame, g: Frame, f': Frame, g': Frame)
    requires f.Valid() && f'.Valid() && g.Valid() && g'.Valid() && SavedOk(e, d, p, h, f, g) && Kept(e, d, f, f', g, g')
    ensures SavedOk(e, d, p, h, f', g')
  {
    var y := d[h.ip].(regs := d[h.ip].regs - {4});
    forall v | v in y.regs && v < 16
      ensures e(f'.home[v], g'.home[v])
    {
      assert v >= 9 && Relied(d, v);
    }
    forall i | i in y.slots && i < SLOTS
      ensures e(f'.slot[i], g'.slot[i])
    {
      assert SlotRelied(d, i);
    }
  }

  lemma HandlerTop(e: Same, d: Cert, p: Policy, F: seq<Frame>, G: seq<Frame>, f': Frame, g': Frame, calls: nat, o: Option<Handler>)
    requires AllAlike(e, F, G) && |F| > 0 && f'.Valid() && g'.Valid() && HandlerOk(e, d, p, F, G, calls, o)
    requires Kept(e, d, F[|F| - 1], f', G[|G| - 1], g')
    requires AllAlike(e, F[..|F| - 1] + [f'], G[..|G| - 1] + [g'])
    ensures HandlerOk(e, d, p, F[..|F| - 1] + [f'], G[..|G| - 1] + [g'], calls, o)
  {
    if o.Some? && o.value.depth == |F| && F[|F| - 1].id == o.value.id {
      SavedKept(e, d, p, o.value, F[|F| - 1], G[|G| - 1], f', g');
    }
  }

  /** New top frames, same handlers. */
  lemma PairedTop(e: Same, d: Cert, p: Policy, a: Core, b: Core, a': Core, b': Core)
    requires Paired(e, d, p, a, b) && a.frames != [] && a'.frames != [] && |b'.frames| == |a'.frames|
    requires a'.Top().Valid() && b'.Top().Valid() && Kept(e, d, a.Top(), a'.Top(), b.Top(), b'.Top())
    requires a'.frames == a.frames[..|a.frames| - 1] + [a'.Top()] && b'.frames == b.frames[..|b.frames| - 1] + [b'.Top()]
    requires a'.hs == a.hs && b'.hs == b.hs && a'.calls == a.calls == b'.calls && e(a'.vr, b'.vr) && a'.checks == b'.checks
    ensures Paired(e, d, p, a', b')
  {
    var F, G, f', g' := a.frames, b.frames, a'.Top(), b'.Top();
    assert AllAlike(e, a'.frames, b'.frames);
    HandlerTop(e, d, p, F, G, f', g', a.calls, a.hs.cur);
    forall i | 0 <= i < |a.hs.saved|
      ensures HandlerOk(e, d, p, a'.frames, b'.frames, a.calls, a.hs.saved[i])
    {
      HandlerTop(e, d, p, F, G, f', g', a.calls, a.hs.saved[i]);
    }
  }

  lemma PairedPush(e: Same, d: Cert, p: Policy, a: Core, b: Core, h: Handler, h': Handler, x: Word, x': Word)
    requires Paired(e, d, p, a, b) && HandlerOk(e, d, p, a.frames, b.frames, a.calls, Some(h))
    requires HandlerAlike(e, Some(h), Some(h')) && e(x, x')
    ensures Paired(e, d, p, a.(hs := a.hs.Push(h), vr := x), b.(hs := b.hs.Push(h'), vr := x'))
  {
    hide HandlerOk;
    PushAlike(e, a.hs, b.hs, h, h');
  }

  lemma PairedDrop(e: Same, d: Cert, p: Policy, a: Core, b: Core)
    requires Paired(e, d, p, a, b)
    ensures Paired(e, d, p, a.(hs := a.hs.Drop()), b.(hs := b.hs.Drop()))
  {
    hide SavedOk;
    DropAlike(e, a.hs, b.hs);
  }

  // ---- local instructions ---------------------------------------------------------------

  predicate WritesReg(insn: Insn, v: nat) {
    match insn
    case Mov(d, _) => v == d
    case Li(d, _) => v == d
    case Alu(_, d, _, _) => v == d
    case Delegate(_, d, _, _) => v == d
    case Pop(d) => v == d
    case SlotRef(d, _) => v == d
    case _ => false
  }

  predicate WritesSlot(insn: Insn, i: nat) {
    insn.SlotSet? && insn.idx == i
  }

  /** What a local instruction leaves alone. */
  lemma LocalShape(w: World, c: Core, insn: Insn, next: int)
    requires c.frames != [] && c.Top().Valid() && Regs(insn) && IsLocal(insn) && insn != GcCheck
    ensures var r := ExecLocal(w, c, insn, next);
      r.Some? ==>
        var e := r.value;
        && e.frames == c.frames[..|c.frames| - 1] + [e.Top()]
        && e.Top().ret == c.Top().ret && e.Top().fn == c.Top().fn && e.Top().id == c.Top().id
        && e.calls == c.calls && e.checks == c.checks
        && (insn != Setjmp && insn != PopHandler ==> e.hs == c.hs)
        && (forall v :: 0 <= v < 16 && !WritesReg(insn, v) ==> e.Top().home[v] == c.Top().home[v])
        && (forall i :: 0 <= i < SLOTS && !WritesSlot(insn, i) ==> e.Top().slot[i] == c.Top().slot[i])
  {
    assert c.frames == c.frames[..|c.frames| - 1] + [c.Top()];
  }

  /** Two runs of a local instruction keep the tops Kept. */
  lemma LocalKept(w: World, w': World, e: Same, d: Cert, x: Live, order: bool, a: Core, b: Core, insn: Insn, next: int)
    requires SameTop(e, x, a, b) && Regs(insn) && IsLocal(insn) && Reads(x, insn) && insn != GcCheck
    requires Blind(w, w', e, order, a, insn) && Buries(d, x, insn) && ExecLocal(w, a, insn, next).Some?
    ensures ExecLocal(w', b, insn, next).Some?
    ensures Kept(e, d, a.Top(), ExecLocal(w, a, insn, next).value.Top(), b.Top(), ExecLocal(w', b, insn, next).value.Top())
    ensures SameTop(e, After(x, insn, order), ExecLocal(w, a, insn, next).value, ExecLocal(w', b, insn, next).value)
  {
    hide ExecLocal, Reads, Buries, Blind, HandlersAlike, SameSeq, After, WritesReg, WritesSlot, Regs, IsLocal, Relied, SlotRelied;
    LocalSame(w, w', e, x, order, a, b, insn, next);
    LocalShape(w, a, insn, next);
    LocalShape(w', b, insn, next);
    WrittenLive(d, x, insn, order);
  }

  lemma WrittenLive(d: Cert, x: Live, insn: Insn, order: bool)
    requires Buries(d, x, insn)
    ensures forall v: nat :: 9 <= v < 16 && WritesReg(insn, v) ==> v in After(x, insn, order).regs || !Relied(d, v)
    ensures forall i: nat :: WritesSlot(insn, i) ==> i in After(x, insn, order).slots || !SlotRelied(d, i)
  {
  }

  /** A local instruction that is not a collection keeps the pairing. */
  lemma PairedLocal(w: World, w': World, e: Same, d: Cert, p: Policy, x: Live, order: bool, a: Core, b: Core, insn: Insn, next: int)
    requires Paired(e, d, p, a, b) && SameTop(e, x, a, b) && Regs(insn) && IsLocal(insn) && Reads(x, insn) && insn != GcCheck
    requires Blind(w, w', e, order, a, insn) && Buries(d, x, insn) && ExecLocal(w, a, insn, next).Some?
    requires insn == Setjmp ==> SetjmpOk(d, p, x, a.Top().fn, next)
    ensures ExecLocal(w', b, insn, next).Some?
    ensures Paired(e, d, p, ExecLocal(w, a, insn, next).value, ExecLocal(w', b, insn, next).value)
    ensures SameTop(e, After(x, insn, order), ExecLocal(w, a, insn, next).value, ExecLocal(w', b, insn, next).value)
  {
    hide HandlersAlike, SameSeq, HandlerOk, SavedOk, Blind;
    LocalKept(w, w', e, d, x, order, a, b, insn, next);
    LocalShape(w, a, insn, next);
    LocalShape(w', b, insn, next);
    if insn == Setjmp {
      PairedSetjmp(w, w', e, d, p, x, order, a, b, next);
    } else if insn == PopHandler {
      PairedDrop(e, d, p, a, b);
    } else {
      var c, c' := ExecLocal(w, a, insn, next).value, ExecLocal(w', b, insn, next).value;
      hide ExecLocal;
      PairedTop(e, d, p, a, b, c, c');
    }
  }

  lemma PairedSetjmp(w: World, w': World, e: Same, d: Cert, p: Policy, x: Live, order: bool, a: Core, b: Core, next: int)
    requires Paired(e, d, p, a, b) && SameTop(e, x, a, b) && Reads(x, Setjmp) && Blind(w, w', e, order, a, Setjmp) && SetjmpOk(d, p, x, a.Top().fn, next)
    ensures Paired(e, d, p, ExecLocal(w, a, Setjmp, next).value, ExecLocal(w', b, Setjmp, next).value)
  {
    hide HandlersAlike, SameSeq;
    SetjmpSame(e, x, a, b, next);
    var f, g := a.Top(), b.Top();
    var h, h' := Handler(|a.frames|, |f.stk|, next, f.home[4], f.fn, f.id), Handler(|b.frames|, |g.stk|, next, g.home[4], g.fn, g.id);
    assert SavedOk(e, d, p, h, f, b.Top());
    PairedPush(e, d, p, a, b, h, h', Nil(), Nil());
  }

  /** What the certificate and the translation promise about a setjmp. */
  ghost predicate SetjmpOk(d: Cert, p: Policy, x: Live, fn: int, next: int) {
    && next in d && d[next].resume && d[next].Below(x.Saved())
    && (fn in p.funs ==> Tiers.Resumes(p.funs[fn], next) && next in p.funs[fn].order)
  }

  // ---- collections ------------------------------------------------------------------------

  /** What the n-th check does to every word of a machine: the collection's
      renaming, or nothing. */
  function Mover(w: World): (nat, Word) -> Word {
    (n: nat, x: Word) => if w.full(n) then w.move(n, x) else x
  }

  /** Words of the interpreter, the live ones among them. */
  type Alive = Word -> bool

  ghost predicate FrameLives(l: Alive, x: Live, f: Frame) {
    && (forall i :: 0 <= i < |f.stk| ==> l(f.stk[i]))
    && (forall v :: v in x.regs && v < |f.home| ==> l(f.home[v]))
    && (forall i :: i in x.slots && i < |f.slot| ==> l(f.slot[i]))
  }

  /** What a longjmp through this buffer brings back. */
  ghost predicate HandlerLives(l: Alive, d: Cert, F: seq<Frame>, o: Option<Handler>) {
    o.Some? ==>
      var h := o.value;
      l(h.v4) && (0 < h.depth <= |F| && F[h.depth - 1].id == h.id && h.ip in d ==> FrameLives(l, d[h.ip].(regs := d[h.ip].regs - {4}), F[h.depth - 1]))
  }

  ghost predicate HandlersLive(l: Alive, d: Cert, F: seq<Frame>, hs: Handlers<Handler>) {
    HandlerLives(l, d, F, hs.cur) && forall i :: 0 <= i < |hs.saved| ==> HandlerLives(l, d, F, hs.saved[i])
  }

  function Nothing(): Live { Live({}, {}, false, false, false) }

  /** Operands, and what is live at the return pcs. */
  ghost predicate FramesLive(l: Alive, d: Cert, F: seq<Frame>) {
    && (forall k :: 0 <= k < |F| ==> FrameLives(l, Nothing(), F[k]))
    && forall k :: 0 < k < |F| && F[k].ret in d ==> FrameLives(l, d[F[k].ret], F[k - 1])
  }

  /** Every word that is live at pc is among l. */
  ghost predicate Lives(l: Alive, d: Cert, pc: int, a: Core) {
    && l(a.vr) && FramesLive(l, d, a.frames) && HandlersLive(l, d, a.frames, a.hs)
    && (pc in d && a.frames != [] ==> FrameLives(l, d[pc], a.Top()))
  }

  /** The two machines' n-th checks carry correspondence e, on live words, to e'. */
  ghost predicate Carries(w: World, w': World, n: nat, l: Alive, e: Same, e': Same) {
    forall x, y :: l(x) && e(x, y) ==> e'(Mover(w)(n, x), Mover(w')(n, y))
  }

  /** A check that does not collect is a collection that moves nothing. */
  lemma CollectNone(w: World, c: Core)
    requires !w.full(c.checks)
    ensures Collect(Mover(w), c) == c
  {
    var r := Collect(Mover(w), c);
    forall k | 0 <= k < |c.frames|
      ensures r.frames[k] == c.frames[k]
    {
      MoveNothing(w, c.checks, c.frames[k].home);
      MoveNothing(w, c.checks, c.frames[k].slot);
      MoveNothing(w, c.checks, c.frames[k].stk);
    }
    assert r.frames == c.frames;
    assert r.hs.saved == c.hs.saved;
  }

  lemma MoveNothing(w: World, n: nat, ws: seq<Word>)
    requires !w.full(n)
    ensures MoveSeq(Mover(w), n, ws) == ws
  {
  }

  lemma CollectSome(w: World, c: Core)
    requires w.full(c.checks)
    ensures Collect(Mover(w), c) == Collect(w.move, c)
  {
    var r, s := Collect(Mover(w), c), Collect(w.move, c);
    forall k | 0 <= k < |c.frames|
      ensures r.frames[k] == s.frames[k]
    {
      MoveWhole(w, c.checks, c.frames[k].home);
      MoveWhole(w, c.checks, c.frames[k].slot);
      MoveWhole(w, c.checks, c.frames[k].stk);
    }
    assert r.frames == s.frames;
    assert r.hs.saved == s.hs.saved;
  }

  lemma MoveWhole(w: World, n: nat, ws: seq<Word>)
    requires w.full(n)
    ensures MoveSeq(Mover(w), n, ws) == MoveSeq(w.move, n, ws)
  {
  }

  /** The GC check, in one form. */
  lemma CheckCollects(w: World, c: Core, next: int)
    requires c.frames != [] && c.Top().Valid()
    ensures ExecLocal(w, c, GcCheck, next) == Some(Collect(Mover(w), c).(checks := c.checks + 1))
  {
    if w.full(c.checks) { CollectSome(w, c); } else { CollectNone(w, c); }
  }

  lemma MoveAlike(w: World, w': World, n: nat, l: Alive, e: Same, e': Same, x: Live, f: Frame, g: Frame)
    requires Carries(w, w', n, l, e, e') && Alike(e, f, g) && Agree(e, x, f, g) && FrameLives(l, x, f)
    ensures Alike(e', MoveFrame(Mover(w), n, f), MoveFrame(Mover(w'), n, g)) && Agree(e', x, MoveFrame(Mover(w), n, f), MoveFrame(Mover(w'), n, g))
  {
  }

  ghost function MoveFrames(w: World, n: nat, F: seq<Frame>): (r: seq<Frame>)
    ensures |r| == |F|
  {
    seq(|F|, i requires 0 <= i < |F| => MoveFrame(Mover(w), n, F[i]))
  }

  lemma MoveHandlerOk(w: World, w': World, n: nat, l: Alive, e: Same, e': Same, d: Cert, p: Policy, F: seq<Frame>, G: seq<Frame>, calls: nat, o: Option<Handler>)
    requires Carries(w, w', n, l, e, e') && AllAlike(e, F, G) && HandlerOk(e, d, p, F, G, calls, o) && HandlerLives(l, d, F, o)
    requires AllAlike(e', MoveFrames(w, n, F), MoveFrames(w', n, G))
    ensures HandlerOk(e', d, p, MoveFrames(w, n, F), MoveFrames(w', n, G), calls, MoveHandler(Mover(w), n, o))
  {
    hide Carries, SameSeq;
    if o.Some? {
      var h := o.value;
      if 0 < h.depth <= |F| && F[h.depth - 1].id == h.id {
        MoveAlike(w, w', n, l, e, e', d[h.ip].(regs := d[h.ip].regs - {4}), F[h.depth - 1], G[h.depth - 1]);
      }
    }
  }

  lemma MoveAllAlike(w: World, w': World, n: nat, l: Alive, e: Same, e': Same, d: Cert, F: seq<Frame>, G: seq<Frame>)
    requires Carries(w, w', n, l, e, e') && AllAlike(e, F, G) && FramesLive(l, d, F)
    ensures AllAlike(e', MoveFrames(w, n, F), MoveFrames(w', n, G))
  {
    forall k | 0 <= k < |F|
      ensures Alike(e', MoveFrame(Mover(w), n, F[k]), MoveFrame(Mover(w'), n, G[k]))
    {
      MoveAlike(w, w', n, l, e, e', Nothing(), F[k], G[k]);
    }
  }

  lemma MoveHandlersAlike(w: World, w': World, a: Core, b: Core, l: Alive, d: Cert, e: Same, e': Same)
    requires Carries(w, w', a.checks, l, e, e') && a.checks == b.checks && HandlersAlike(e, a.hs, b.hs)
    requires HandlersLive(l, d, a.frames, a.hs)
    ensures HandlersAlike(e', Collect(Mover(w), a).hs, Collect(Mover(w'), b).hs)
  {
  }

  /** The frames behind both machines' check. */
  lemma CollectedFrames(w: World, c: Core)
    ensures Collect(Mover(w), c).frames == MoveFrames(w, c.checks, c.frames)
  {
  }

  /** Both machines' checks keep the pairing, under the carried correspondence. */
  lemma PairedCollect(w: World, w': World, l: Alive, e: Same, e': Same, d: Cert, p: Policy, pc: int, a: Core, b: Core)
    requires Carries(w, w', a.checks, l, e, e') && Paired(e, d, p, a, b) && Lives(l, d, pc, a)
    ensures Paired(e', d, p, Collect(Mover(w), a), Collect(Mover(w'), b))
  {
    hide HandlerOk, HandlersAlike;
    var F, G, n := a.frames, b.frames, a.checks;
    var F', G' := Collect(Mover(w), a).frames, Collect(Mover(w'), b).frames;
    CollectedFrames(w, a);
    CollectedFrames(w', b);
    MoveAllAlike(w, w', n, l, e, e', d, F, G);
    MoveHandlersAlike(w, w', a, b, l, d, e, e');
    MoveHandlerOk(w, w', n, l, e, e', d, p, F, G, a.calls, a.hs.cur);
    forall i | 0 <= i < |a.hs.saved|
      ensures HandlerOk(e', d, p, F', G', a.calls, Collect(Mover(w), a).hs.saved[i])
    {
      MoveHandlerOk(w, w', n, l, e, e', d, p, F, G, a.calls, a.hs.saved[i]);
    }
  }

  lemma SameTopCollect(w: World, w': World, l: Alive, e: Same, e': Same, d: Cert, pc: int, a: Core, b: Core)
    requires Carries(w, w', a.checks, l, e, e') && pc in d && SameTop(e, d[pc], a, b) && Lives(l, d, pc, a)
    ensures SameTop(e', d[pc], Collect(Mover(w), a), Collect(Mover(w'), b))
  {
    MoveHandlersAlike(w, w', a, b, l, d, e, e');
    MoveAlike(w, w', a.checks, l, e, e', d[pc], a.Top(), b.Top());
    CollectedRest(w, a);
    CollectedRest(w', b);
    assert e'(Mover(w)(a.checks, a.vr), Mover(w')(a.checks, b.vr));
    hide HandlersAlike, SameSeq, Collect, MoveFrame, Carries, Mover;
  }

  lemma CollectedRest(w: World, c: Core)
    ensures var r := Collect(Mover(w), c);
      && r.vr == Mover(w)(c.checks, c.vr) && r.cmp == c.cmp && r.calls == c.calls && r.checks == c.checks && |r.frames| == |c.frames|
      && (c.frames != [] ==> r.Top() == MoveFrame(Mover(w), c.checks, c.Top()))
  {
  }

  lemma FramesPrefix(l: Alive, d: Cert, F: seq<Frame>)
    requires FramesLive(l, d, F) && |F| > 1
    ensures var k := |F|;
      && FramesLive(l, d, F[..k - 1]) && FrameLives(l, Nothing(), F[k - 2])
      && (F[k - 1].ret in d ==> FrameLives(l, d[F[k - 1].ret], F[k - 2]))
  {
    hide FrameLives;
  }

  lemma {:induction false} MatchCollect(w: World, w': World, n: nat, l: Alive, e: Same, e': Same, d: Cert, p: Policy, F: seq<Frame>, G: seq<Frame>, trans: bool, pend: seq<Item>)
    requires Carries(w, w', n, l, e, e') && Match(e, d, p, F, G, trans, pend)
    requires FramesLive(l, d, F)
    ensures Match(e', d, p, MoveFrames(w, n, F), MoveFrames(w', n, G), trans, pend)
    decreases |F|, |pend|
  {
    hide Carries, FramesLive, FrameLives, Suspended, MoveSeq, Mover;
    var k := |F|;
    var F', G' := MoveFrames(w, n, F), MoveFrames(w', n, G);
    if k > 1 {
      FramesPrefix(l, d, F);
      assert F'[..k - 1] == MoveFrames(w, n, F[..k - 1]) && G'[..k - 1] == MoveFrames(w', n, G[..k - 1]);
      if Suspended(e, d, p, F[k - 1].ret, F[k - 2], G[k - 2]) {
        SuspendedCollect(w, w', n, l, e, e', d, p, F[k - 1].ret, F[k - 2], G[k - 2]);
      }
    }
    if pend == [] {
      if F[k - 1].ret != SENTINEL {
        MatchCollect(w, w', n, l, e, e', d, p, F[..k - 1], G[..k - 1], false, pend);
      }
    } else {
      var rest := pend[..|pend| - 1];
      match pend[|pend| - 1]
      case Cont(_, _, _) => MatchCollect(w, w', n, l, e, e', d, p, F[..k - 1], G[..k - 1], true, rest);
      case DriveCall(_) => MatchCollect(w, w', n, l, e, e', d, p, F[..k - 1], G[..k - 1], false, rest);
      case DriveTail => MatchCollect(w, w', n, l, e, e', d, p, F, G, false, rest);
      case Nested(base) =>
        if k > base {
          MatchCollect(w, w', n, l, e, e', d, p, F[..k - 1], G[..k - 1], false, pend);
        } else if k == base {
          MatchCollect(w, w', n, l, e, e', d, p, F, G, true, rest);
        } else {
          MatchCollect(w, w', n, l, e, e', d, p, F, G, false, rest[..|rest| - 1]);
        }
    }
  }

  lemma SuspendedCollect(w: World, w': World, n: nat, l: Alive, e: Same, e': Same, d: Cert, p: Policy, ret: int, f: Frame, g: Frame)
    requires Carries(w, w', n, l, e, e') && Suspended(e, d, p, ret, f, g)
    requires FrameLives(l, Nothing(), f) && (ret in d ==> FrameLives(l, d[ret], f))
    ensures Suspended(e', d, p, ret, MoveFrame(Mover(w), n, f), MoveFrame(Mover(w'), n, g))
  {
    hide Carries, SameSeq;
    MoveAlike(w, w', n, l, e, e', if ret in d then d[ret] else Nothing(), f, g);
  }

  // ---- spills -------------------------------------------------------------------------------

  /** Writing the homes of V0-V8 leaves the rest of the frame alone. */
  lemma SpillKept(b: Core, home: seq<Word>)
    requires b.frames != [] && b.Top().Valid() && |home| == 16 && home[9..] == b.Top().home[9..]
    ensures forall v :: 9 <= v < 16 ==> home[v] == b.Top().home[v]
  {
    forall v | 9 <= v < 16
      ensures home[v] == b.Top().home[v]
    {
      assert home[9..][v - 9] == b.Top().home[9..][v - 9];
    }
  }

  lemma PairedRehome(e: Same, d: Cert, p: Policy, a: Core, b: Core, home: seq<Word>)
    requires Paired(e, d, p, a, b) && a.frames != [] && |home| == 16 && home[9..] == b.Top().home[9..]
    ensures Paired(e, d, p, a, b.WithTop(b.Top().(home := home)))
  {
    SpillKept(b, home);
    var b' := b.WithTop(b.Top().(home := home));
    assert a.frames == a.frames[..|a.frames| - 1] + [a.Top()];
    assert Alike(e, a.Top(), b.Top());
    PairedTop(e, d, p, a, b, a, b');
  }

  lemma PairedSpill(e: Same, d: Cert, p: Policy, a: Core, b: Core, loc: seq<Word>)
    requires Paired(e, d, p, a, b) && a.frames != [] && |loc| == 9
    ensures b.Top().Valid() && Paired(e, d, p, a, Spill(b, loc)) && Paired(e, d, p, a, Spill5(b, loc))
  {
    assert Alike(e, a.Top(), b.Top());
    var f := b.Top();
    assert (loc + f.home[9..])[9..] == f.home[9..];
    PairedRehome(e, d, p, a, b, loc + f.home[9..]);
    assert (loc[..5] + f.home[5..])[9..] == f.home[9..];
    PairedRehome(e, d, p, a, b, loc[..5] + f.home[5..]);
  }

  // ---- frames ---------------------------------------------------------------------------------

  lemma HandlerPushFrame(e: Same, d: Cert, p: Policy, F: seq<Frame>, G: seq<Frame>, f: Frame, g: Frame, calls: nat, o: Option<Handler>)
    requires AllAlike(e, F, G) && Alike(e, f, g) && f.id > calls && HandlerOk(e, d, p, F, G, calls, o)
    requires AllAlike(e, F + [f], G + [g])
    ensures HandlerOk(e, d, p, F + [f], G + [g], f.id, o)
  {
  }

  /** A new activation in both tiers. */
  lemma PairedEnter(e: Same, d: Cert, p: Policy, a: Core, b: Core, f: Frame, g: Frame)
    requires Paired(e, d, p, a, b) && Alike(e, f, g) && f.id == a.calls + 1
    ensures Paired(e, d, p, a.(frames := a.frames + [f], calls := a.calls + 1), b.(frames := b.frames + [g], calls := b.calls + 1))
  {
    assert AllAlike(e, a.frames + [f], b.frames + [g]);
    HandlerPushFrame(e, d, p, a.frames, b.frames, f, g, a.calls, a.hs.cur);
    forall i | 0 <= i < |a.hs.saved|
      ensures HandlerOk(e, d, p, a.frames + [f], b.frames + [g], a.calls + 1, a.hs.saved[i])
    {
      HandlerPushFrame(e, d, p, a.frames, b.frames, f, g, a.calls, a.hs.saved[i]);
    }
  }

  lemma HandlerPrefix(e: Same, d: Cert, p: Policy, F: seq<Frame>, G: seq<Frame>, n: nat, calls: nat, o: Option<Handler>)
    requires AllAlike(e, F, G) && n <= |F| && HandlerOk(e, d, p, F, G, calls, o) && AllAlike(e, F[..n], G[..n])
    ensures HandlerOk(e, d, p, F[..n], G[..n], calls, o)
  {
  }

  /** Dropping activations from the top. */
  lemma PairedPrefix(e: Same, d: Cert, p: Policy, a: Core, b: Core, n: nat)
    requires Paired(e, d, p, a, b) && n <= |a.frames|
    ensures Paired(e, d, p, a.(frames := a.frames[..n]), b.(frames := b.frames[..n]))
  {
    assert AllAlike(e, a.frames[..n], b.frames[..n]);
    HandlerPrefix(e, d, p, a.frames, b.frames, n, a.calls, a.hs.cur);
    forall i | 0 <= i < |a.hs.saved|
      ensures HandlerOk(e, d, p, a.frames[..n], b.frames[..n], a.calls, a.hs.saved[i])
    {
      HandlerPrefix(e, d, p, a.frames, b.frames, n, a.calls, a.hs.saved[i]);
    }
  }

  /** A tail call: the top activation is replaced by a new one. */
  lemma PairedReplace(e: Same, d: Cert, p: Policy, a: Core, b: Core, f: Frame, g: Frame)
    requires Paired(e, d, p, a, b) && a.frames != [] && Alike(e, f, g) && f.id == a.calls + 1
    ensures Paired(e, d, p, a.WithTop(f).(calls := a.calls + 1), b.WithTop(g).(calls := b.calls + 1))
  {
    PairedPrefix(e, d, p, a, b, |a.frames| - 1);
    var a1, b1 := a.(frames := a.frames[..|a.frames| - 1]), b.(frames := b.frames[..|b.frames| - 1]);
    PairedEnter(e, d, p, a1, b1, f, g);
  }

  /** A longjmp restores both tiers alike, and what is live at its resume pc
      agrees in the restored frames. */
  lemma PairedRestore(e: Same, d: Cert, p: Policy, a: Core, b: Core)
    requires Paired(e, d, p, a, b) && Armed(a) && e(Tee(), Tee())
    ensures Armed(b) && Paired(e, d, p, Restore(a), Restore(b))
    ensures var h := a.hs.cur.value;
      && SavedOk(e, d, p, h, a.frames[h.depth - 1], b.frames[h.depth - 1])
      && SameTop(e, d[h.ip], Restore(a), Restore(b)) && Restore(a).Top().fn == h.fn
      && Restore(a).Top().ret == a.frames[h.depth - 1].ret && Restore(b).Top().ret == b.frames[h.depth - 1].ret
      && Restore(a).frames[..h.depth - 1] == a.frames[..h.depth - 1] && Restore(b).frames[..h.depth - 1] == b.frames[..h.depth - 1]
  {
    hide HandlersAlike, SavedOk;
    var h := a.hs.cur.value;
    CurAlike(e, a.hs, b.hs);
    var h' := b.hs.cur.value;
    assert Alike(e, a.frames[h.depth - 1], b.frames[h.depth - 1]);
    assert HandlerOk(e, d, p, a.frames, b.frames, a.calls, a.hs.cur);
    PairedPrefix(e, d, p, a, b, h.depth);
    var a1, b1 := a.(frames := a.frames[..h.depth]), b.(frames := b.frames[..h.depth]);
    var f, g := a1.Top(), b1.Top();
    var f' := f.(home := f.home[4 := h.v4], stk := f.stk[..h.height]);
    var g' := g.(home := g.home[4 := h'.v4], stk := g.stk[..h.height]);
    var a2, b2 := a1.WithTop(f').(vr := Tee()), b1.WithTop(g').(vr := Tee());
    assert Kept(e, d, f, f', g, g');
    PairedTop(e, d, p, a1, b1, a2, b2);
    PairedUncounted(e, d, p, a2, b2);
    var a3, b3 := a2.(hs := a2.hs.(over := 0)), b2.(hs := b2.hs.(over := 0));
    PairedDrop(e, d, p, a3, b3);
    assert Restore(a) == a3.(hs := a3.hs.Drop());
    assert Restore(b).frames == b3.frames;
    RestoredPairing(e, d, p, a3, b3, Restore(b));
    RestoredTop(e, d, p, h, f, g, f', g');
  }

  lemma RestoredTop(e: Same, d: Cert, p: Policy, h: Handler, f: Frame, g: Frame, f': Frame, g': Frame)
    requires Alike(e, f, g) && SavedOk(e, d, p, h, f, g) && f'.Valid() && g'.Valid() && e(f'.home[4], g'.home[4])
    requires f'.slot == f.slot && g'.slot == g.slot && f'.home == f.home[4 := f'.home[4]] && g'.home == g.home[4 := g'.home[4]]
    ensures Agree(e, d[h.ip], f', g') && !d[h.ip].flags
  {
  }

  lemma CurAlike(e: Same, hs: Handlers<Handler>, hs': Handlers<Handler>)
    requires HandlersAlike(e, hs, hs')
    ensures HandlerAlike(e, hs.cur, hs'.cur)
  {
  }

  lemma PairedUncounted(e: Same, d: Cert, p: Policy, a: Core, b: Core)
    requires Paired(e, d, p, a, b)
    ensures Paired(e, d, p, a.(hs := a.hs.(over := 0)), b.(hs := b.hs.(over := 0)))
  {
    hide HandlerOk;
  }

  /** Flags play no part in the pairing. */
  lemma RestoredPairing(e: Same, d: Cert, p: Policy, a: Core, b: Core, b': Core)
    requires Paired(e, d, p, a.(hs := a.hs.Drop()), b.(hs := b.hs.Drop()))
    requires b' == b.(hs := b.hs.Drop(), cmp := b'.cmp)
    ensures Paired(e, d, p, a.(hs := a.hs.Drop()), b')
  {
  }
}
