/** The real effects of mov, li and add (web/mvm.js:989-991, 1004), and code
    that runs in step wherever it is moved, though it makes a number that looks
    like a function value. */
module PlainCode {
  import opened Bytes
  import opened Isa
  import opened Relocate
  import opened Results
  import opened Words

  function Read(ws: seq<Word>, r: nat): Word {
    if r < |ws| then ws[r] else Word(0, 0)
  }

  /** add64 */
  function Sum(a: Word, b: Word): Word {
    var lo := U32(a.lo) + U32(b.lo);
    Word(ToInt32(lo), ToInt32(a.hi + b.hi + if lo > 0xFFFF_FFFF then 1 else 0))
  }

  /** It is addition modulo 2^64. */
  lemma SumIs(a: Word, b: Word)
    ensures Val(Sum(a, b)) == Wrap64(Val(a) + Val(b))
  {
    var lo := U32(a.lo) + U32(b.lo);
    var c := if lo > 0xFFFF_FFFF then 1 else 0;
    var k := ToInt32Multiple(a.hi + b.hi + c);
    RoundTrip(lo - c * 0x1_0000_0000);
    ToInt32Wraps(lo, c);
    hide U32, ToInt32, Wrap64;
    WrapUnique(Val(a) + Val(b), Val(Sum(a, b)), k);
  }

  lemma ToInt32Wraps(lo: int, c: int)
    requires 0 <= lo - c * 0x1_0000_0000 < 0x1_0000_0000 && (c == 0 || c == 1)
    ensures ToInt32(lo) == ToInt32(lo - c * 0x1_0000_0000)
  {
    var k := ToInt32Multiple(lo - c * 0x1_0000_0000);
    ToInt32Unique(lo, ToInt32(lo - c * 0x1_0000_0000), k + c);
  }

  function Straight(b: seq<byte>, ws: seq<Word>): Effect {
    if |b| == 3 && b[0] == 0x10 then Goes(Put(ws, b[1], Read(ws, b[2])))
    else if |b| == 10 && b[0] == 0x11 then Goes(Put(ws, b[1], Word(ToInt32(Get32(b, 2)), ToInt32(Get32(b, 6)))))
    else if |b| == 4 && b[0] == 0x20 then Goes(Put(ws, b[1], Sum(Read(ws, b[2]), Read(ws, b[3]))))
    else Goes(ws)
  }

  /** A machine of these instructions, calls and returns; its registers are the words. */
  function Plain(): Effects {
    Effects(Straight, (jit: bool, b: seq<byte>, ws: seq<Word>) => Goes(ws), (b: seq<byte>, ws: seq<Word>) => false, (k: Switch, ws: seq<Word>) => ws)
  }

  /** mov carries a function value along; li and add make numbers. */
  function Behind(k: Kinds, b: seq<byte>): Kinds
    requires |b| >= 3
  {
    k.(fns := if b[0] == 0x10 && b[2] in k.fns then k.fns + {b[1]} else k.fns - {b[1]})
  }

  /** They are onward on any words, numbers that look like functions among
      them, as long as no function value is added to. */
  lemma PlainOnward(m: seq<byte>, base: nat, k: Kinds, s: Run)
    requires 0 <= s.pc && s.pc + 10 <= |m| && (m[s.pc] == 0x10 || m[s.pc] == 0x11 || m[s.pc] == 0x20)
    requires m[s.pc] == 0x20 ==> m[s.pc + 2] !in k.fns && m[s.pc + 3] !in k.fns
    ensures Onward(Plain(), m, base, k, Behind(k, m[s.pc..s.pc + Len(m[s.pc])]), s)
  {
    PlainLengths();
    hide Len, Behind, Straight, Follows, Onward, MovedAll;
    PlainFollows(base, k, s, m[s.pc..s.pc + Len(m[s.pc])]);
    PlainIsOnward(Plain(), m, base, k, Behind(k, m[s.pc..s.pc + Len(m[s.pc])]), s);
  }

  lemma PlainLengths()
    ensures Len(0x10) == 3 && Len(0x11) == 10 && Len(0x20) == 4
  {
  }

  lemma PlainFollows(base: nat, k: Kinds, s: Run, b: seq<byte>)
    requires |b| >= 3 && |b| == (if b[0] == 0x10 then 3 else if b[0] == 0x11 then 10 else 4) && (b[0] == 0x10 || b[0] == 0x11 || b[0] == 0x20)
    requires b[0] == 0x20 ==> b[2] !in k.fns && b[3] !in k.fns
    ensures Follows(Plain(), base, k, Behind(k, b), s, Straight(b, s.ws), Straight(b, MovedAll(base, k.fns, s.ws)))
  {
    hide Get32, Sum, ToInt32, Moved, Put, MovedAll, Read;
    var ws := s.ws;
    var d, r: nat := b[1], b[2];
    ReadMoved(base, k.fns, ws, r);
    if b[0] == 0x10 {
      PutMoved(base, k.fns, ws, d, r in k.fns, Read(ws, r));
    } else if b[0] == 0x11 {
      PutMoved(base, k.fns, ws, d, false, Word(ToInt32(Get32(b, 2)), ToInt32(Get32(b, 6))));
    } else {
      ReadMoved(base, k.fns, ws, b[3]);
      PutMoved(base, k.fns, ws, d, false, Sum(Read(ws, r), Read(ws, b[3])));
    }
  }

  lemma ReadMoved(base: nat, fns: set<nat>, ws: seq<Word>, r: nat)
    ensures Read(MovedAll(base, fns, ws), r) == MovedIf(base, r in fns, Read(ws, r))
  {
  }

  // ---- an example ---------------------------------------------------------------------

  function LiOne(): seq<byte> { [0x11, 0, 1, 0, 0, 0, 0, 0, 0, 0] }
  function LiTwo(): seq<byte> { [0x11, 1, 2, 0, 0, 0, 0, 0, 0, 0] }
  function AddThem(): seq<byte> { [0x20, 0, 0, 1] }

  /** 0: li V0 1.  10: li V1 2.  20: add V0 V0 V1.  24: fn-addr V2 33.
      30: call-ind V2.  32: ret.  33: ret. */
  function Sample(): (r: seq<byte>)
    ensures |r| == 44
  {
    LiOne() + LiTwo() + AddThem() + [0xA7, 2, 33, 0, 0, 0, 0x81, 2, 0x82, 0x82] + Zeros(10)
  }

  function Numbers(i: nat, ws: seq<Word>): seq<Word>
    requires |ws| == 3
  {
    [if i == 0 then ws[0] else if i < 3 then Word(1, 0) else Word(3, 0), if i < 2 then ws[1] else Word(2, 0), if i < 4 then ws[2] else FnWord(33)]
  }

  /** The state behind i instructions. */
  function At(i: nat, ws: seq<Word>): Run
    requires |ws| == 3 && i <= 6
  {
    Run(if i == 0 then 0 else if i == 1 then 10 else if i == 2 then 20 else if i == 3 then 24 else if i == 4 then 30 else if i == 5 then 33 else 32,
        if i == 5 then [32] else [], Numbers(i, ws), Handlers(None, [], 0))
  }

  function Known(i: nat): Kinds {
    Kinds(if i < 4 then {} else {2}, Handlers(None, [], 0))
  }

  lemma Lengths()
    ensures Len(0x11) == 10 && Len(0x20) == 4 && Len(0xA7) == 6 && Len(0x81) == 2 && Len(0x82) == 1
  {
  }

  lemma Opcodes()
    ensures var m := Sample(); m[0] == 0x11 == m[10] && m[20] == 0x20 && m[24] == 0xA7 && m[30] == 0x81 && m[32] == 0x82 == m[33]
    ensures var m := Sample(); m[22] == 0 && m[23] == 1 && m[25] == 2 && m[31] == 2 && Get32(m, 26) == 33
  {
  }

  lemma Slices()
    ensures var m := Sample();
      m[0..10] == LiOne() && m[10..20] == LiTwo() && m[20..24] == AddThem()
  {
  }

  lemma Effects0(ws: seq<Word>)
    requires |ws| == 3
    ensures Straight(LiOne(), ws) == Goes([Word(1, 0), ws[1], ws[2]])
    ensures Straight(LiTwo(), [Word(1, 0), ws[1], ws[2]]) == Goes([Word(1, 0), Word(2, 0), ws[2]])
    ensures Straight(AddThem(), [Word(1, 0), Word(2, 0), ws[2]]) == Goes([Word(3, 0), Word(2, 0), ws[2]])
  {
  }

  lemma Boundaries(q: nat)
    requires q in {0, 10, 20, 24, 30, 32, 33}
    ensures Boundary(Sample(), 0, 34, q)
  {
    var m := Sample();
    Lengths();
    Opcodes();
    hide Len, Sample;
    assert q == 33 ==> Boundary(m, 32, 34, q);
    assert q >= 32 ==> Boundary(m, 30, 34, q);
    assert q >= 30 ==> Boundary(m, 24, 34, q);
    assert q >= 24 ==> Boundary(m, 20, 34, q);
    assert q >= 20 ==> Boundary(m, 10, 34, q);
  }

  lemma StraightAt(s: Run, b: seq<byte>, x: seq<Word>, base: nat, k: Kinds)
    requires 0 <= s.pc < 34 && Len(Sample()[s.pc]) == |b| >= 3 && Sample()[s.pc..s.pc + |b|] == b && Straight(b, s.ws) == Goes(x)
    requires Sample()[s.pc] in {0x11, 0x20} && k.fns == {}
    ensures Step(Plain(), Sample(), 0, 34, s) == Some(s.(pc := s.pc + |b|, ws := x)) && Onward(Plain(), Sample(), base, k, k, s)
  {
    hide Len, Sample, Straight, Onward, Step;
    StepControl(Plain(), Sample(), 0, 34, s);
    PlainOnward(Sample(), base, k, s);
    assert b[0] == Sample()[s.pc];
    assert Behind(k, b) == k;
  }

  /** The three straight-line instructions. */
  lemma SampleNumbers(i: nat, ws: seq<Word>, base: nat)
    requires |ws| == 3 && i < 3
    ensures Step(Plain(), Sample(), 0, 34, At(i, ws)) == Some(At(i + 1, ws))
    ensures Onward(Plain(), Sample(), base, Known(i), Known(i + 1), At(i, ws))
  {
    Lengths();
    Opcodes();
    Slices();
    Effects0(ws);
    hide Len, Sample, Straight, Onward, Step;
    assert Numbers(0, ws) == ws;
    StraightAt(At(i, ws), if i == 0 then LiOne() else if i == 1 then LiTwo() else AddThem(), Numbers(i + 1, ws), base, Known(i));
    hide LiOne, LiTwo, AddThem;
  }

  /** fn-addr, call-ind, ret. */
  lemma SampleFn(ws: seq<Word>, base: nat)
    requires |ws| == 3
    ensures Step(Plain(), Sample(), 0, 34, At(3, ws)) == Some(At(4, ws))
    ensures Onward(Plain(), Sample(), base, Known(3), Known(4), At(3, ws))
  {
    Lengths();
    Opcodes();
    hide Len, Sample, Onward, Step, Get32, FnWord;
    StepControl(Plain(), Sample(), 0, 34, At(3, ws));
    CallIsOnward(Plain(), Sample(), base, Known(3), Known(4), At(3, ws));
    assert Numbers(3, ws)[2 := FnWord(33)] == Numbers(4, ws);
  }

  lemma SampleCall(ws: seq<Word>, base: nat)
    requires |ws| == 3
    ensures Step(Plain(), Sample(), 0, 34, At(4, ws)) == Some(At(5, ws))
    ensures Onward(Plain(), Sample(), base, Known(4), Known(5), At(4, ws)) && Below(34, At(4, ws).ws, 2)
  {
    Lengths();
    Opcodes();
    FnRoundTrip(33);
    hide Len, Sample, Onward, Step, Get32, FnWord, FnTarget, MovedAll;
    StepControl(Plain(), Sample(), 0, 34, At(4, ws));
    CallIsOnward(Plain(), Sample(), base, Known(4), Known(5), At(4, ws));
    assert At(4, ws).rets + [32] == [32] && Numbers(4, ws) == Numbers(5, ws);
  }

  lemma SampleRet(ws: seq<Word>, base: nat)
    requires |ws| == 3
    ensures Step(Plain(), Sample(), 0, 34, At(5, ws)) == Some(At(6, ws))
    ensures Onward(Plain(), Sample(), base, Known(5), Known(6), At(5, ws))
  {
    Lengths();
    Opcodes();
    hide Len, Sample, Onward, Step, Get32, FnWord, FnTarget, MovedAll;
    StepControl(Plain(), Sample(), 0, 34, At(5, ws));
    CallIsOnward(Plain(), Sample(), base, Known(5), Known(6), At(5, ws));
    assert At(5, ws).rets[..0] == [] && Numbers(5, ws) == Numbers(6, ws);
  }

  lemma SampleInside(i: nat, ws: seq<Word>, base: nat)
    requires |ws| == 3 && i < 6 && (i == 4 ==> Below(34, At(4, ws).ws, 2))
    ensures Inside(Sample(), 34, base, 34, At(i, ws))
  {
    Opcodes();
    Boundaries(At(i, ws).pc);
    hide Sample, Get32, FnWord, Boundary, Below;
  }

  lemma SampleSteps(i: nat, ws: seq<Word>, base: nat)
    requires |ws| == 3 && i < 6
    ensures Step(Plain(), Sample(), 0, 34, At(i, ws)) == Some(At(i + 1, ws))
    ensures Keeps(Plain(), Sample(), 34, base, 34, Known(i), Known(i + 1), At(i, ws))
  {
    hide Step, Onward, Inside, At, Known, Sample, Below;
    if i < 3 {
      SampleNumbers(i, ws, base);
    } else if i == 3 {
      SampleFn(ws, base);
    } else if i == 4 {
      SampleCall(ws, base);
    } else {
      SampleRet(ws, base);
    }
    SampleInside(i, ws, base);
  }

  lemma {:induction false} SampleRun(i: nat, n: nat, ws: seq<Word>)
    requires |ws| == 3 && i + n <= 6
    ensures Steps(Plain(), Sample(), 0, 34, At(i, ws), n) == Some(At(i + n, ws))
    decreases n
  {
    hide Step, At, Sample;
    if n > 0 {
      SampleSteps(i, ws, 0);
      SampleRun(i + 1, n - 1, ws);
    }
  }

  lemma SampleShifted(base: nat, ws: seq<Word>)
    requires |ws| == 3 && base + 34 <= 0x1000_0000
    ensures Known(0).Fits(At(0, ws)) && Shifted(base, Known(0), At(0, ws)) == Run(base, [], ws, Handlers(None, [], 0))
    ensures Shifted(base, Known(5), At(5, ws)) == Run(base + 33, [base + 32], [Word(3, 0), Word(2, 0), FnWord(base + 33)], Handlers(None, [], 0))
    ensures Shifted(base, Known(6), At(6, ws)) == Run(base + 32, [], [Word(3, 0), Word(2, 0), FnWord(base + 33)], Handlers(None, [], 0))
  {
    MovedFn(base, 33);
    hide FnWord, Moved;
  }

  lemma WalkPast(m: seq<byte>, p: nat, n: nat, end: nat, base: nat)
    requires end + 10 <= |m| && p < end && base < SYNTHETIC && Len(m[p]) == n > 0 && !HasTarget(m[p])
    ensures Walk(m, p, end, base, None) == Walk(m, p + n, end, base, None)
  {
    hide Len;
  }

  lemma WalkSample(m: seq<byte>, m': seq<byte>, base: nat)
    requires base + 34 <= 0x1000_0000 && |m| == |m'| == base + 44
    requires m[base] == 0x11 == m[base + 10] && m[base + 20] == 0x20 && m[base + 24] == 0xA7 && Get32(m, base + 26) == 33
    requires m' == Put32(m, base + 26, base + 33) && m'[base + 30] == 0x81 && m'[base + 32] == 0x82 == m'[base + 33]
    ensures Walk(m, base, base + 34, base, None) == Some(m')
  {
    Lengths();
    hide Len, Get32, Put32, Walk;
    var end := base + 34;
    WalkPast(m, base, 10, end, base);
    WalkPast(m, base + 10, 10, end, base);
    WalkPast(m, base + 20, 4, end, base);
    WalkFn(m, base + 24, end, base);
    WalkPast(m', base + 30, 2, end, base);
    WalkPast(m', base + 32, 1, end, base);
    WalkPast(m', base + 33, 1, end, base);
    WalkEnd(m', end, base);
  }

  lemma WalkFn(m: seq<byte>, p: nat, end: nat, base: nat)
    requires end + 10 <= |m| && p < end && base + 34 <= 0x1000_0000 && m[p] == 0xA7 && Get32(m, p + 2) == 33
    ensures Walk(m, p, end, base, None) == Walk(Put32(m, p + 2, base + 33), p + 6, end, base, None)
  {
    Lengths();
    hide Len, Get32, Put32;
  }

  lemma WalkEnd(m: seq<byte>, end: nat, base: nat)
    requires end + 10 <= |m| && base < SYNTHETIC
    ensures Walk(m, end, end, base, None) == Some(m)
  {
  }

  /** A copy of it, relocated. */
  lemma SampleCopied(base: nat) returns (m0: seq<byte>, m': seq<byte>)
    requires base + 34 <= 0x1000_0000
    ensures Copied(Sample(), m0, m', 34, base, None)
  {
    Opcodes();
    hide Sample, Get32, Put32, Walk;
    m0 := Zeros(base) + Sample();
    assert m0[base..base + 44] == Sample()[0..44];
    SameOperand(Sample(), m0, base, 0, 44, 26);
    m' := Put32(m0, base + 26, base + 33);
    WalkSample(m0, m', base);
  }

  /** Wherever it is moved, it has 3 in V0, calls its function at its new place,
      and comes back. */
  lemma SampleMoved(m0: seq<byte>, m': seq<byte>, base: nat, table: Table, ws: seq<Word>)
    requires Copied(Sample(), m0, m', 34, base, table) && base + 34 <= 0x1000_0000 && |ws| == 3
    ensures var s := Run(base, [], ws, Handlers(None, [], 0));
      && base + 44 <= |m'|
      && Steps(Plain(), m', base, 34, s, 5) == Some(Run(base + 33, [base + 32], [Word(3, 0), Word(2, 0), FnWord(base + 33)], s.hs))
      && Steps(Plain(), m', base, 34, s, 6) == Some(Run(base + 32, [], [Word(3, 0), Word(2, 0), FnWord(base + 33)], s.hs))
  {
    hide Copied, Keeps, Steps, Sample, At, Known, Shifted, FnWord, Plain;
    CopiedSize(Sample(), m0, m', 34, base, table);
    forall i: nat | i < 6
      ensures Steps(Plain(), Sample(), 0, 34, At(0, ws), i) == Some(At(i, ws))
      ensures Keeps(Plain(), Sample(), 34, base, 34, Known(i), Known(i + 1), At(i, ws))
    {
      SampleRun(0, i, ws);
      SampleSteps(i, ws, base);
    }
    SampleRun(0, 5, ws);
    SampleRun(0, 6, ws);
    SampleShifted(base, ws);
    RunsInStep(Plain(), Sample(), m0, m', 34, base, table, 34, Known, At(0, ws), 5);
    RunsInStep(Plain(), Sample(), m0, m', 34, base, table, 34, Known, At(0, ws), 6);
  }
}
