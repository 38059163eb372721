/** The interpreter: registers live in the frame, calls push the return pc
    (web/mvm.js:645-691, 945-1319). */
module Interp {
  import opened Isa
  import opened Results

  datatype IState = IState(core: Core, pc: int)

  /** Whether a conditional branch is taken. */
  predicate Taken(c: Core, insn: Insn)
    requires c.frames != [] && c.Top().Valid() && Regs(insn)
  {
    match insn
    case Branch(_) => true
    case BranchIf(cond, _) => cond.Holds(c.cmp)
    case BranchNil(s, sense, _) => (c.Get(s) == Nil()) == sense
    case _ => false
  }

  function Goal(insn: Insn): int {
    match insn
    case Branch(t) => t
    case BranchIf(_, t) => t
    case BranchNil(_, _, t) => t
    case _ => 0
  }

  function Enter(junk: Frame, c: Core, t: int, ret: int): Core
    requires c.frames != [] && c.Top().Valid() && junk.Valid()
  {
    c.(frames := c.frames + [NewFrame(junk, c.Top(), t, ret, c.calls + 1)], calls := c.calls + 1)
  }

  function Replace(junk: Frame, c: Core, t: int): Core
    requires c.frames != [] && c.Top().Valid() && junk.Valid()
  {
    c.WithTop(NewFrame(junk, c.Top(), t, c.Top().ret, c.calls + 1)).(calls := c.calls + 1)
  }

  function PopFrame(c: Core): Core
    requires c.frames != []
  {
    c.(frames := c.frames[..|c.frames| - 1])
  }

  /** What fresh frames happen to contain. */
  ghost predicate Junk(j: nat -> Frame) {
    forall n: nat :: j(n).Valid()
  }

  /** One interpreted instruction; None when the machine faults or leaves the
      code it was given. */
  function Step(w: World, junk: nat -> Frame, s: IState): Option<IState>
    requires forall n: nat :: junk(n).Valid()
  {
    var c := s.core;
    if c.frames == [] || !c.Top().Valid() || s.pc !in w.code || !Regs(w.code[s.pc].insn) then None
    else
      var insn := w.code[s.pc].insn;
      var next := s.pc + w.code[s.pc].len;
      if IsLocal(insn) then
        match ExecLocal(w, c, insn, next)
        case None => None
        case Some(d) => Some(IState(d, next))
      else
        match insn
        case Call(t) => if t in w.entries then Some(IState(Enter(junk(c.calls), c, t, next), t)) else None
        case CallInd(r) => (
          match FnTarget(c.Get(r))
          case None => Jump(c)
          case Some(t) => if t in w.entries then Some(IState(Enter(junk(c.calls), c, t, next), t)) else None
        )
        case Tail(t) => if t in w.entries then Some(IState(Replace(junk(c.calls), c, t), t)) else None
        case Ret => Some(IState(PopFrame(c), c.Top().ret))
        case Longjmp => Jump(c)
        case _ => Some(IState(c, if Taken(c, insn) then Goal(insn) else next))
  }

  function Jump(c: Core): Option<IState> {
    if Armed(c) then Some(IState(Restore(c), c.hs.cur.value.ip)) else None
  }

  function Run(w: World, junk: nat -> Frame, s: IState, n: nat): Option<IState>
    requires forall k: nat :: junk(k).Valid()
    decreases n
  {
    if n == 0 then Some(s)
    else match Step(w, junk, s)
      case None => None
      case Some(t) => Run(w, junk, t, n - 1)
  }
}
