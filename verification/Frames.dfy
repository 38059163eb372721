/** Activations on the flat stack: calls, tail calls and returns, and the layout
    of a frame (web/mvm.js:71-93, 421-422, 645-691).  Stack positions are word
    indices from VBASE; what the machine stores are byte addresses. */
module Frames {
  import opened Words

  const BOTTOM := 0x68_0000          // STACK_ADDR
  const FLOOR := 0x68_0200           // STACK_ADDR + 4096
  const TOP := 0x78_0000             // STACK_ADDR + STACK_SIZE
  const FRAME := 146                 // FRAME_SIZE in words
  const FRAME_MAX := 522

  function AddressOf(i: int): int { 0x1000_0000 + 8 * i }

  function IndexOf(a: int): int { (a - 0x1000_0000) / 8 }

  /** Where the stack is: calls fail within 4096 bytes of its end. */
  lemma Addresses()
    ensures AddressOf(BOTTOM) == 0x1340_0000 && AddressOf(FLOOR) == 0x1340_0000 + 4096 && AddressOf(TOP) == 0x13C0_0000 && 8 * FRAME == 1168
  {
  }

  // ---- the layout of a frame --------------------------------------------------------

  /** How many words below ebp the home of Vv lies (ROFF). */
  function Home(v: nat): (r: nat)
    requires v < 16
    ensures 1 <= r < FRAME
  {
    if v == 4 then 1 else if v == 0 then 2 else if v == 1 then 3 else if v == 2 then 4
    else if v == 3 then 141 else if v <= 8 then 137 + v else v - 4
  }

  /** The same for frame slot n (SLOT_BASE - 8n). */
  function Slot(n: nat): nat { 12 + n }

  type octet = x: int | 0 <= x < 256

  /** frameBytes, in words. */
  function FrameWords(code: seq<octet>, t: nat): (r: nat)
    ensures FRAME <= r <= FRAME_MAX
  {
    if t + 2 >= |code| || code[t] != 2 then FRAME
    else
      var lo: int, hi: int := code[t + 1], code[t + 2];
      var c := lo + 256 * hi;
      if c < 0x8000 then FRAME
      else
        var slots := ((c / 256) % 64) * 8;
        if slots > 128 then FRAME + (slots - 128) else FRAME
  }

  /** ROFF: the home of Vv is 8 * Home(v) below ebp. */
  lemma Homes()
    ensures forall v :: 0 <= v < 16 ==> 8 * Home(v) == [16, 24, 32, 1128, 8, 1136, 1144, 1152, 1160, 40, 48, 56, 64, 72, 80, 88][v]
  {
  }

  /** The slots a frame-enter at t names: at least the 128 of a standard frame. */
  function Slots(code: seq<octet>, t: nat): nat {
    if t + 2 < |code| && code[t] == 0x02 && code[t + 2] >= 0x80 then
      var hi: int := code[t + 2];
      8 * (hi % 64)
    else
      0
  }

  /** They are all in the frame, and so are the homes; a frame is no larger
      than that takes. */
  lemma FrameHolds(code: seq<octet>, t: nat, n: nat, v: nat)
    requires v < 16
    ensures n < 128 || n < Slots(code, t) ==> Slot(n) < FrameWords(code, t)
    ensures Home(v) < FrameWords(code, t)
    ensures FrameWords(code, t) == 146 + if Slots(code, t) > 128 then Slots(code, t) - 128 else 0
  {
  }

  /** Registers have homes of their own, and the 128 slots of a standard frame
      do not meet them. */
  lemma LayoutApart(v: nat, u: nat, n: nat)
    requires v < 16 && u < 16
    ensures v != u ==> Home(v) != Home(u)
    ensures n < 128 ==> Home(v) != Slot(n) && Slot(n) < FRAME
  {
  }

  /** Slots 129 to 133 of a larger frame are the homes of V3 and V5-V8. */
  lemma LayoutMeets(n: nat)
    ensures (exists v :: 0 <= v < 16 && Home(v) == Slot(n)) <==> 129 <= n <= 133
  {
    if 129 <= n <= 133 {
      assert Home(if n == 129 then 3 else n - 125) == Slot(n);
    }
  }

  // ---- calls ------------------------------------------------------------------------

  class Machine {
    const mem: array<Word>
    const code: seq<octet>
    var esp: int
    var ebp: int
    var pc: int32

    ghost predicate Valid()
      reads this
    {
      && mem.Length >= TOP
      && BOTTOM - 1 <= esp <= ebp + 2 <= TOP && FLOOR + FRAME <= ebp + 2
    }

    /** The frame of an activation: below what its caller has on the stack. */
    ghost predicate Framed()
      reads this, mem
    {
      && Valid() && BOTTOM <= esp <= ebp - FRAME && FLOOR + FRAME <= ebp
      && mem[ebp].hi == 0 && mem[ebp + 1].hi == 0
    }

    method Push(w: Word)
      requires mem.Length >= TOP && 0 < esp <= TOP
      modifies mem, `esp
      ensures esp == old(esp) - 1 && mem[..] == old(mem[..])[esp := w]
    {
      esp := esp - 1;
      mem[esp] := w;
    }

    method Pop() returns (w: Word)
      requires mem.Length >= TOP && 0 <= esp < TOP
      modifies `esp
      ensures esp == old(esp) + 1 && w == mem[old(esp)]
    {
      w := mem[esp];
      esp := esp + 1;
    }

    /** The words of V0-V4, V0 first. */
    function Args(fp: int): (r: seq<Word>)
      requires FRAME <= fp <= mem.Length
      reads mem
      ensures |r| == 5
    {
      [mem[fp - 2], mem[fp - 3], mem[fp - 4], mem[fp - 141], mem[fp - 1]]
    }

    method SetArgs(fp: int, r: seq<Word>)
      requires FRAME <= fp <= mem.Length && |r| == 5
      modifies mem
      ensures Args(fp) == r
      ensures forall k :: 0 <= k < mem.Length && (forall v :: 0 <= v < 5 ==> k != fp - Home(v)) ==> mem[k] == old(mem[k])
    {
      mem[fp - 2], mem[fp - 3], mem[fp - 4], mem[fp - 141], mem[fp - 1] := r[0], r[1], r[2], r[3], r[4];
      assert Home(0) == 2 && Home(1) == 3 && Home(2) == 4 && Home(3) == 141 && Home(4) == 1;
    }

    /** enter(), with the return pc just pushed.  False when the stack is full:
        the frame and the return pc are gone again. */
    method Enter(target: int32) returns (ok: bool)
      requires Valid() && target >= 0 && ebp >= FRAME && esp < TOP
      modifies this, mem
      ensures ok ==>
        && Framed0(target) && ebp == old(esp) - 1 && mem[ebp] == Word(ToInt32(AddressOf(old(ebp))), 0)
        && Args(ebp) == old(Args(ebp)) && pc == target
      ensures !ok ==> esp == old(esp) + 1 && ebp == old(ebp) && pc == old(pc)
      ensures ok <==> old(esp) - 1 - FrameWords(code, target) >= FLOOR
      ensures forall k :: old(esp) <= k < mem.Length ==> mem[k] == old(mem[k])
    {
      var a := Args(ebp);
      var fp := ebp;
      Push(Word(ToInt32(AddressOf(ebp)), 0));
      ebp := esp;
      esp := esp - FrameWords(code, target);
      if esp < FLOOR {
        esp := ebp;
        var e := Pop();
        ebp := IndexOf(e.lo);
        var _ := Pop();
        return false;
      }
      SetArgs(ebp, a);
      pc := target;
      ok := true;
    }

    ghost predicate Framed0(target: int32)
      reads this
    {
      Valid() && target >= 0 && FLOOR + FRAME <= ebp && esp == ebp - FrameWords(code, target) && FLOOR <= esp
    }

    /** A call: the callee's frame lies below everything its caller has on the
        stack, holds the return pc and the caller's ebp, and starts with its V0-V4. */
    method DoCall(target: int32, retpc: int32) returns (ok: bool)
      requires Framed() && target >= 0
      modifies this, mem
      ensures ok ==>
        && Framed() && ebp == old(esp) - 2 && esp == ebp - FrameWords(code, target) && pc == target
        && mem[ebp + 1] == Word(retpc, 0) && mem[ebp] == Word(ToInt32(AddressOf(old(ebp))), 0)
        && Args(ebp) == old(Args(ebp))
      ensures !ok ==> esp == old(esp) && ebp == old(ebp) && pc == old(pc)
      ensures ok <==> old(esp) - 2 - FrameWords(code, target) >= FLOOR
      ensures forall k :: old(esp) <= k < mem.Length ==> mem[k] == old(mem[k])
    {
      Push(Word(retpc, 0));
      assert Args(ebp) == old(Args(ebp));
      ok := Enter(target);
    }

    /** A tail call: the callee takes over the frame, wherever it is, with the
        same return pc, saved ebp and V0-V4.  There is no check for room. */
    method DoTailcall(target: int32)
      requires Framed() && target >= 0
      modifies this, mem
      ensures Framed() && ebp == old(ebp) && esp == ebp - FrameWords(code, target) && pc == target
      ensures mem[..] == old(mem[..])
    {
      ghost var m0 := mem[..];
      var a := Args(ebp);
      esp := ebp;
      var e := Pop();
      var ret := Pop();
      Push(Word(ret.lo, 0));
      Push(Word(e.lo, 0));
      assert mem[..] == m0;
      hide FrameWords;
      ebp := esp;
      esp := esp - FrameWords(code, target);
      SetArgs(ebp, a);
      pc := target;
      assert forall k :: 0 <= k < mem.Length ==> mem[k] == m0[k];
    }

    method DoRet()
      requires Framed()
      modifies this
      ensures esp == old(ebp) + 2 && ebp == IndexOf(old(mem[ebp].lo)) && pc == old(mem[ebp + 1].lo)
    {
      esp := ebp;
      var e := Pop();
      ebp := IndexOf(e.lo);
      var r := Pop();
      pc := r.lo;
    }

    // ---- any nesting -------------------------------------------------------------------

    /** Run an activation whose frame is in place, to its return.  Whatever it
        and its callees do in frames of their own, it returns to its return pc
        with its caller's ebp and esp, and has not touched the stack above its
        frame.  False exactly when some call finds the stack full. */
    method Perform(a: Act) returns (ok: bool)
      requires Framed() && Inside(code, ebp, esp, a)
      modifies this, mem
      ensures ok <==> Room(code, old(ebp), old(esp), a)
      ensures ok ==> esp == old(ebp) + 2 && ebp == IndexOf(old(mem[ebp].lo)) && pc == old(mem[ebp + 1].lo)
      ensures forall k :: old(ebp) + 2 <= k < mem.Length ==> mem[k] == old(mem[k])
      decreases a, 1
    {
      ok := PerformSteps(a, 0, esp);
      if !ok { return false; }
      match a.last {
        case Return => DoRet();
        case TailTo(t, body) =>
          DoTailcall(t);
          ok := Perform(body);
      }
    }

    /** A move inside the frame and its operands. */
    method Stir(m: Move, base: int)
      requires Framed() && !m.Call? && esp <= base <= ebp - FRAME
      requires (m.PushWord? ==> esp > BOTTOM) && (m.PopWord? ==> esp < base)
      modifies mem, `esp
      ensures Framed() && esp == Below(old(esp), m) && mem[esp..base] == Moved(old(mem[esp..base]), m)
      ensures forall k :: old(ebp) <= k < mem.Length ==> mem[k] == old(mem[k])
    {
      match m {
        case Put(at, w) => mem[ebp - 1 - at] := w;
        case PushWord(w) => Push(w);
        case PopWord => var _ := Pop();
      }
    }

    /** The moves of a from the i-th on; base is where its operands begin.  They
        are on the stack in the order they were pushed, whatever was called since. */
    method PerformSteps(a: Act, i: nat, base: int) returns (ok: bool)
      requires Framed() && i <= |a.steps| && esp <= base <= ebp - FRAME && StepsInside(code, base, esp, a, i)
      modifies this, mem
      ensures ok <==> StepsRoom(code, old(esp), a, i)
      ensures ok ==> Framed() && ebp == old(ebp) && esp <= base && mem[esp..base] == Operands(old(mem[esp..base]), a.steps[i..])
      ensures forall k :: old(ebp) <= k < mem.Length ==> mem[k] == old(mem[k])
      decreases a, 0, |a.steps| - i
    {
      hide StepsInside, StepsRoom, Operands, Inside, Room, HasRoom, FrameWords, Moved;
      NextMove(code, base, esp, a, i, mem[esp..base]);
      if i == |a.steps| { return true; }
      if a.steps[i].Call? {
        ok := Invoke(a.steps[i].t, a.steps[i].ret, a.steps[i].body, a.steps[i]);
        if !ok { return false; }
        assert mem[esp..base] == old(mem[esp..base]);
      } else {
        Stir(a.steps[i], base);
      }
      ok := PerformSteps(a, i + 1, base);
    }

    /** A call, from the push of its return pc to its return: the caller is back
        at its return pc, with its frame, its stack and what is on it. */
    method Invoke(t: target, ret: int32, body: Act, ghost m: Move) returns (ok: bool)
      requires Framed() && m == Call(t, ret, body)
      requires HasRoom(code, esp, t) ==> Inside(code, esp - 2, esp - 2 - FrameWords(code, t), body)
      modifies this, mem
      ensures ok <==> HasRoom(code, old(esp), t) && Room(code, old(esp) - 2, old(esp) - 2 - FrameWords(code, t), body)
      ensures ok ==> Framed() && esp == old(esp) && ebp == old(ebp) && pc == ret
      ensures forall k :: old(esp) <= k < mem.Length ==> mem[k] == old(mem[k])
      decreases m, 2
    {
      ghost var fp := ebp;
      ok := DoCall(t, ret);
      if !ok { return false; }
      ok := Perform(body);
      if !ok { return false; }
      SavedEbp(fp);
    }
  }

  lemma SavedEbp(i: int)
    requires 0 <= i < TOP
    ensures IndexOf(ToInt32(AddressOf(i))) == i
  {
  }

  // ---- activations ----------------------------------------------------------------------

  type target = x: int32 | x >= 0
  type offset = x: nat | x < FRAME

  /** What an activation does: stores into its frame, operands pushed and
      popped, and calls, and at its end a return or a tail call. */
  datatype Act = Act(steps: seq<Move>, last: Last)
  datatype Move = Put(at: offset, w: Word) | PushWord(w: Word) | PopWord | Call(t: target, ret: int32, body: Act)
  datatype Last = Return | TailTo(t: target, body: Act)

  /** The operands, last first, behind a move and behind a sequence of moves. */
  function Moved(ops: seq<Word>, m: Move): seq<Word> {
    match m
    case PushWord(w) => [w] + ops
    case PopWord => if ops == [] then [] else ops[1..]
    case _ => ops
  }

  function Operands(ops: seq<Word>, steps: seq<Move>): seq<Word>
    decreases |steps|
  {
    if steps == [] then ops else Operands(Moved(ops, steps[0]), steps[1..])
  }

  function Below(sp: int, m: Move): int {
    match m
    case PushWord(_) => sp - 1
    case PopWord => sp + 1
    case _ => sp
  }

  /** A call to t from sp does not find the stack full. */
  predicate HasRoom(code: seq<octet>, sp: int, t: target) {
    sp - 2 - FrameWords(code, t) >= FLOOR
  }

  /** No call finds the stack full: fp and sp are where the activation's frame is. */
  predicate Room(code: seq<octet>, fp: int, sp: int, a: Act)
    decreases a, |a.steps| + 1
  {
    && StepsRoom(code, sp, a, 0)
    && (a.last.TailTo? ==> Room(code, fp, fp - FrameWords(code, a.last.t), a.last.body))
  }

  predicate StepsRoom(code: seq<octet>, sp: int, a: Act, i: nat)
    requires i <= |a.steps|
    decreases a, |a.steps| - i
  {
    i == |a.steps| ||
    var m := a.steps[i];
    && (m.Call? ==> HasRoom(code, sp, m.t) && Room(code, sp - 2, sp - 2 - FrameWords(code, m.t), m.body))
    && StepsRoom(code, Below(sp, m), a, i + 1)
  }

  /** Pushes, which nothing checks, stay inside the stack, and an activation
      pops only what it has pushed, as far as it gets. */
  predicate Inside(code: seq<octet>, fp: int, sp: int, a: Act)
    decreases a, |a.steps| + 1
  {
    && StepsInside(code, sp, sp, a, 0)
    && (a.last.TailTo? ==> Inside(code, fp, fp - FrameWords(code, a.last.t), a.last.body))
  }

  predicate StepsInside(code: seq<octet>, base: int, sp: int, a: Act, i: nat)
    requires i <= |a.steps|
    decreases a, |a.steps| - i
  {
    i == |a.steps| ||
    var m := a.steps[i];
    && (m.PushWord? ==> sp > BOTTOM)
    && (m.PopWord? ==> sp < base)
    && (m.Call? && HasRoom(code, sp, m.t) ==> Inside(code, sp - 2, sp - 2 - FrameWords(code, m.t), m.body))
    && StepsInside(code, base, Below(sp, m), a, i + 1)
  }

  /** The move at i, if there is one, and those behind it. */
  lemma NextMove(code: seq<octet>, base: int, sp: int, a: Act, i: nat, ops: seq<Word>)
    requires i <= |a.steps|
    ensures i == |a.steps| ==> StepsInside(code, base, sp, a, i) && StepsRoom(code, sp, a, i) && Operands(ops, a.steps[i..]) == ops
    ensures i < |a.steps| ==>
      var m := a.steps[i];
      && Operands(ops, a.steps[i..]) == Operands(Moved(ops, m), a.steps[i + 1..])
      && (StepsInside(code, base, sp, a, i) <==>
           && (m.PushWord? ==> sp > BOTTOM) && (m.PopWord? ==> sp < base)
           && (m.Call? && HasRoom(code, sp, m.t) ==> Inside(code, sp - 2, sp - 2 - FrameWords(code, m.t), m.body))
           && StepsInside(code, base, Below(sp, m), a, i + 1))
      && (StepsRoom(code, sp, a, i) <==>
           && (m.Call? ==> HasRoom(code, sp, m.t) && Room(code, sp - 2, sp - 2 - FrameWords(code, m.t), m.body))
           && StepsRoom(code, Below(sp, m), a, i + 1))
      && (m.Call? ==> Moved(ops, m) == ops && Below(sp, m) == sp)
  {
    hide Inside, Room, HasRoom, FrameWords;
    if i < |a.steps| { assert a.steps[i..][1..] == a.steps[i + 1..]; }
  }

  /** Activations that neither push nor pop. */
  predicate NoOperands(a: Act) {
    && (forall i :: 0 <= i < |a.steps| ==> !a.steps[i].PushWord? && !a.steps[i].PopWord? && (a.steps[i].Call? ==> NoOperands(a.steps[i].body)))
    && (a.last.TailTo? ==> NoOperands(a.last.body))
  }

  /** They are inside the stack wherever they are, and one push and its pop
      around them are, short of its end. */
  lemma {:induction false} InsideAlways(code: seq<octet>, fp: int, sp: int, a: Act)
    requires NoOperands(a)
    ensures Inside(code, fp, sp, a)
    decreases a, |a.steps| + 1
  {
    StepsInsideAlways(code, sp, sp, a, 0);
    if a.last.TailTo? { InsideAlways(code, fp, fp - FrameWords(code, a.last.t), a.last.body); }
  }

  lemma {:induction false} StepsInsideAlways(code: seq<octet>, base: int, sp: int, a: Act, i: nat)
    requires NoOperands(a) && i <= |a.steps|
    ensures StepsInside(code, base, sp, a, i)
    decreases a, |a.steps| - i
  {
    if i < |a.steps| {
      var m := a.steps[i];
      if m.Call? { InsideAlways(code, sp - 2, sp - 2 - FrameWords(code, m.t), m.body); }
      StepsInsideAlways(code, base, Below(sp, m), a, i + 1);
    }
  }

  lemma OperandInside(code: seq<octet>, fp: int, sp: int, w: Word)
    requires sp > 0x68_0000
    ensures Inside(code, fp, sp, Act([PushWord(w), PopWord], Return))
  {
    var a := Act([PushWord(w), PopWord], Return);
    assert StepsInside(code, sp, sp, a, 2);
    assert StepsInside(code, sp, sp - 1, a, 1);
    assert StepsInside(code, sp, sp, a, 0);
  }

  /** Activations that call nothing but their successors in tail position. */
  predicate OnlyTails(a: Act) {
    && (forall i :: 0 <= i < |a.steps| ==> !a.steps[i].Call?)
    && (a.last.TailTo? ==> OnlyTails(a.last.body))
  }

  lemma {:induction false} StepsHaveRoom(code: seq<octet>, sp: int, a: Act, i: nat)
    requires OnlyTails(a) && i <= |a.steps|
    ensures StepsRoom(code, sp, a, i)
    decreases |a.steps| - i
  {
    if i < |a.steps| {
      StepsHaveRoom(code, Below(sp, a.steps[i]), a, i + 1);
    }
  }

  /** A chain of tail calls, however long, always has room: it uses one frame. */
  lemma {:induction false} TailsHaveRoom(code: seq<octet>, fp: int, sp: int, a: Act)
    requires OnlyTails(a)
    ensures Room(code, fp, sp, a)
    decreases a
  {
    StepsHaveRoom(code, sp, a, 0);
    if a.last.TailTo? {
      TailsHaveRoom(code, fp, fp - FrameWords(code, a.last.t), a.last.body);
    }
  }
}
