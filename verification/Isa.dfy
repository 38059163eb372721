/** A reduced instruction set of the bytecode machine, the state both execution
    tiers share, and the effect of the instructions that stay inside one
    activation (web/mvm.js:974-1319).  Frames are structured: the 16 register
    homes, the 128 frame slots and the operand stack of an activation are
    separate sequences, which is faithful for standard-size frames
    (Frames.dfy shows the flat layout keeps them apart). */
module Isa {
  import opened Results
  import opened Words

  const VR := 16
  const SENTINEL := -1               // RET_SENTINEL
  const SLOTS := 128
  const HMAX := 64

  function Nil(): Word { Word(-0x2152_FFFF, 0) }      // 0xDEAD0001 | 0
  function Tee(): Word { Word(-0x2152_EFF7, 0) }      // 0xDEAD1009 | 0

  datatype Cond = EQ | NE | LT | GE | LE | GT {
    predicate Holds(cmp: int) {
      match this
      case EQ => cmp == 0
      case NE => cmp != 0
      case LT => cmp < 0
      case GE => cmp >= 0
      case LE => cmp <= 0
      case GT => cmp > 0
    }
  }

  /** Branch targets are absolute: pc + len + offset, already added. */
  datatype Insn =
    | Nop
    | Mov(d: nat, s: nat)
    | Li(d: nat, w: Word)
    | Alu(op: int, d: nat, a: nat, b: nat)          // open-coded in both tiers
    | Delegate(op: int, d: nat, a: nat, b: nat)     // translated as a call of execInsn
    | Push(s: nat)
    | Pop(d: nat)
    | Cmp(a: nat, b: nat)
    | SlotRef(d: nat, idx: nat)
    | SlotSet(idx: nat, s: nat)
    | Branch(t: int)
    | BranchIf(c: Cond, t: int)
    | BranchNil(s: nat, sense: bool, t: int)
    | Call(t: int)
    | CallInd(s: nat)
    | Tail(t: int)
    | Ret
    | GcCheck
    | Setjmp
    | Longjmp
    | PopHandler

  datatype Decoded = Decoded(insn: Insn, len: nat)
  type Code = map<int, Decoded>

  /** One activation.  fn is the entry of the function it runs and id tells it
      apart from every other activation of the run; neither is machine state. */
  datatype Frame = Frame(home: seq<Word>, slot: seq<Word>, stk: seq<Word>, ret: int, fn: int, id: nat) {
    predicate Valid() {
      |home| == 16 && |slot| == SLOTS
    }
  }

  /** A jump buffer: the frame (its depth in the stack of frames), the height
      of its operand stack, the resume pc and V4. */
  datatype Handler = Handler(depth: nat, height: nat, ip: int, v4: Word, fn: int, id: nat)

  /** The jump buffer, the saved buffers below it, and the count of pushes
      that found the stack full (web/mvm.js:713-743). */
  datatype Handlers<B> = Handlers(cur: Option<B>, saved: seq<Option<B>>, over: nat) {
    function Push(h: B): Handlers<B> {
      if |saved| >= HMAX then this.(over := over + 1)
      else Handlers(Some(h), saved + [cur], over)
    }

    function Drop(): Handlers<B> {
      if over != 0 then this.(over := over - 1)
      else if saved == [] then this.(cur := None)
      else this.(cur := saved[|saved| - 1], saved := saved[..|saved| - 1])
    }
  }

  /** What the machine computes with and what its environment decides: the
      arithmetic, whether the n-th GC check collects and how that collection
      renames words, and what a fresh frame happens to contain. */
  datatype World = World(code: Code, entries: set<int>, alu: (int, Word, Word) -> Word,
                         full: nat -> bool, move: (nat, Word) -> Word)

  /** The state both tiers share: frames, VR, flags, handlers, event counts. */
  datatype Core = Core(frames: seq<Frame>, vr: Word, cmp: int, hs: Handlers<Handler>, calls: nat, checks: nat) {
    function Top(): Frame
      requires frames != []
    {
      frames[|frames| - 1]
    }

    function WithTop(f: Frame): Core
      requires frames != []
    {
      this.(frames := frames[..|frames| - 1] + [f])
    }

    /** Read and write a register; the caller's frame holds V0-V15. */
    function Get(v: nat): Word
      requires frames != [] && Top().Valid() && v <= VR
    {
      if v == VR then vr else Top().home[v]
    }

    function Set(v: nat, w: Word): Core
      requires frames != [] && Top().Valid() && v <= VR
    {
      if v == VR then this.(vr := w) else WithTop(Top().(home := Top().home[v := w]))
    }
  }

  function MoveSeq(move: (nat, Word) -> Word, n: nat, ws: seq<Word>): (r: seq<Word>)
    ensures |r| == |ws|
  {
    seq(|ws|, i requires 0 <= i < |ws| => move(n, ws[i]))
  }

  function MoveFrame(move: (nat, Word) -> Word, n: nat, f: Frame): Frame {
    f.(home := MoveSeq(move, n, f.home), slot := MoveSeq(move, n, f.slot), stk := MoveSeq(move, n, f.stk))
  }

  function MoveHandler(move: (nat, Word) -> Word, n: nat, h: Option<Handler>): Option<Handler> {
    match h
    case None => None
    case Some(b) => Some(b.(v4 := move(n, b.v4)))
  }

  /** A collection, as the frames, VR and the jump buffers see it. */
  function Collect(move: (nat, Word) -> Word, c: Core): (r: Core)
    ensures |r.frames| == |c.frames|
  {
    c.(frames := seq(|c.frames|, i requires 0 <= i < |c.frames| => MoveFrame(move, c.checks, c.frames[i])),
       vr := move(c.checks, c.vr),
       hs := c.hs.(cur := MoveHandler(move, c.checks, c.hs.cur),
                   saved := seq(|c.hs.saved|, i requires 0 <= i < |c.hs.saved| => MoveHandler(move, c.checks, c.hs.saved[i]))))
  }

  predicate Regs(insn: Insn) {
    match insn
    case Mov(d, s) => d <= VR && s <= VR
    case Li(d, _) => d <= VR
    case Alu(_, d, a, b) => d <= VR && a <= VR && b <= VR
    case Delegate(_, d, a, b) => d <= VR && a <= VR && b <= VR
    case Push(s) => s <= VR
    case Pop(d) => d <= VR
    case Cmp(a, b) => a <= VR && b <= VR
    case SlotRef(d, idx) => d <= VR && idx < SLOTS
    case SlotSet(idx, s) => s <= VR && idx < SLOTS
    case BranchNil(s, _, _) => s <= VR
    case CallInd(s) => s <= VR
    case _ => true
  }

  /** Instructions that stay in their activation and go on at the next pc. */
  predicate IsLocal(insn: Insn) {
    match insn
    case Branch(_) | BranchIf(_, _) | BranchNil(_, _, _) | Call(_) | CallInd(_) | Tail(_) | Ret | Longjmp => false
    case _ => true
  }

  /** The effect of a local instruction on the memory-resident registers;
      None when it is not defined (an empty operand stack). */
  function ExecLocal(w: World, c: Core, insn: Insn, next: int): (r: Option<Core>)
    requires c.frames != [] && c.Top().Valid() && Regs(insn) && IsLocal(insn)
    ensures r.Some? ==> |r.value.frames| == |c.frames| && r.value.Top().Valid()
  {
    match insn
    case Nop => Some(c)
    case Mov(d, s) => Some(c.Set(d, c.Get(s)))
    case Li(d, x) => Some(c.Set(d, x))
    case Alu(op, d, a, b) => Some(c.Set(d, w.alu(op, c.Get(a), c.Get(b))))
    case Delegate(op, d, a, b) => Some(c.Set(d, w.alu(op, c.Get(a), c.Get(b))))
    case Push(s) => Some(c.WithTop(c.Top().(stk := c.Top().stk + [c.Get(s)])))
    case Pop(d) =>
      var k := c.Top().stk;
      if k == [] then None
      else Some(c.WithTop(c.Top().(stk := k[..|k| - 1])).Set(d, k[|k| - 1]))
    case Cmp(a, b) => Some(c.(cmp := Cmp64(c.Get(a), c.Get(b))))
    case SlotRef(d, idx) => Some(c.Set(d, c.Top().slot[idx]))
    case SlotSet(idx, s) => Some(c.WithTop(c.Top().(slot := c.Top().slot[idx := c.Get(s)])))
    case GcCheck =>
      var d := if w.full(c.checks) then Collect(w.move, c) else c;
      Some(d.(checks := c.checks + 1))
    case Setjmp =>
      var f := c.Top();
      var h := Handler(|c.frames|, |f.stk|, next, f.home[4], f.fn, f.id);
      Some(c.(hs := c.hs.Push(h), vr := Nil()))
    case PopHandler => Some(c.(hs := c.hs.Drop()))
  }

  /** fnAddrToOffset (web/mvm.js:692-695): None is a memory fault. */
  function FnTarget(x: Word): Option<int> {
    if x.lo % 16 != 3 || x.hi != 0 then None else Some(U32(x.lo - 3) / 16)
  }

  /** A fresh activation of t above the caller's frame f: V0-V4 are handed
      over, everything else is what the stack happened to hold. */
  function NewFrame(junk: Frame, f: Frame, t: int, ret: int, id: nat): (r: Frame)
    requires f.Valid() && junk.Valid()
    ensures r.Valid()
  {
    Frame(f.home[..5] + junk.home[5..], junk.slot, [], ret, t, id)
  }

  /** The handler a longjmp will take is for an activation that is still live,
      and whose operand stack has not been popped below the saved height. */
  predicate Armed(c: Core) {
    && c.hs.cur.Some?
    && var h := c.hs.cur.value;
       0 < h.depth <= |c.frames| && c.frames[h.depth - 1].id == h.id && c.frames[h.depth - 1].fn == h.fn
       && h.height <= |c.frames[h.depth - 1].stk| && c.frames[h.depth - 1].Valid()
  }

  /** longjmp (web/mvm.js:744-755) up to the throw: the state is restored, the
      handler popped, VR is T. */
  function Restore(c: Core): (r: Core)
    requires Armed(c)
    ensures |r.frames| == c.hs.cur.value.depth && r.Top().Valid()
  {
    var h := c.hs.cur.value;
    var f := c.frames[h.depth - 1];
    Core(c.frames[..h.depth - 1] + [f.(home := f.home[4 := h.v4], stk := f.stk[..h.height])],
         Tee(), c.cmp, c.hs.(over := 0).Drop(), c.calls, c.checks)
  }
}
