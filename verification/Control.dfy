/** The pending work of the mixed machine matches the interpreter's stack:
    every activation, when it returns, resumes its caller where the
    interpreter would, and a longjmp finds its target exactly when no nested
    run() stands between a translated target and the driver that runs it. */
module Control {
  import opened Isa
  import opened Tiers
  import opened Discipline

  /** A suspended pair of frames agrees on what is live at the return pc. */
  ghost predicate Suspended(e: Same, d: Cert, p: Policy, ret: int, f: Frame, g: Frame) {
    && Alike(e, f, g) && InFn(p, f.fn, ret)
    && (ret in d ==> d[ret].Resident() && Agree(e, d[ret], f, g))
  }

  /** pc belongs to the translated function fn, if it is translated. */
  predicate InFn(p: Policy, fn: int, pc: int) {
    fn in p.funs ==> pc in p.funs[fn].order
  }

  /** The interpreter's frames F and the mixed machine's frames G, whose top is
      running translated or interpreted, over the pending work pend. */
  ghost predicate Match(e: Same, d: Cert, p: Policy, F: seq<Frame>, G: seq<Frame>, trans: bool, pend: seq<Item>)
    decreases |F|, |pend|, 1
  {
    && |F| == |G| > 0
    && var n, ret, got := |F|, F[|F| - 1].ret, G[|G| - 1].ret;
       if pend == [] then
         got == ret && (if ret == SENTINEL then n == 1 else !trans && Deeper(e, d, p, F, G, false, pend))
       else
         var rest := pend[..|pend| - 1];
         match pend[|pend| - 1]
         case Nested(base) =>
           && !trans
           && if n > base then got == ret != SENTINEL && Deeper(e, d, p, F, G, false, pend)
              else if n == base then Match(e, d, p, F, G, true, rest)
              else rest != [] && rest[|rest| - 1].DriveTail? && Match(e, d, p, F, G, false, rest[..|rest| - 1])
         case DriveTail => trans && Match(e, d, p, F, G, false, rest)
         case DriveCall(next) => trans && got == SENTINEL && next == ret != SENTINEL && Deeper(e, d, p, F, G, false, rest)
         case Cont(f, l, depth) =>
           && trans && got == SENTINEL && ret != SENTINEL && Deeper(e, d, p, F, G, true, rest) && depth == n - 1
           && F[n - 2].fn in p.funs && f == p.funs[F[n - 2].fn] && ret in f.labels && l == f.labels[ret]
  }

  /** The caller is suspended at the top frame's return pc, and matches. */
  ghost predicate Deeper(e: Same, d: Cert, p: Policy, F: seq<Frame>, G: seq<Frame>, trans: bool, pend: seq<Item>)
    requires |F| == |G| > 0
    decreases |F|, 0, 0
  {
    var n := |F|;
    && n > 1 && Suspended(e, d, p, F[n - 1].ret, F[n - 2], G[n - 2])
    && Match(e, d, p, F[..n - 1], G[..n - 1], trans, pend)
  }

  /** Match looks at the top frames only through their return pcs. */
  lemma {:induction false} MatchTop(e: Same, d: Cert, p: Policy, F: seq<Frame>, G: seq<Frame>, f: Frame, g: Frame, trans: bool, pend: seq<Item>)
    requires Match(e, d, p, F, G, trans, pend)
    requires f.ret == F[|F| - 1].ret && g.ret == G[|G| - 1].ret
    ensures Match(e, d, p, F[..|F| - 1] + [f], G[..|G| - 1] + [g], trans, pend)
    decreases |pend|
  {
    hide Suspended;
    var F', G' := F[..|F| - 1] + [f], G[..|G| - 1] + [g];
    assert F'[..|F'| - 1] == F[..|F| - 1] && G'[..|G'| - 1] == G[..|G| - 1];
    if pend != [] {
      var rest := pend[..|pend| - 1];
      if pend[|pend| - 1].DriveTail? {
        MatchTop(e, d, p, F, G, f, g, false, rest);
      } else if pend[|pend| - 1].Nested? {
        if |F| == pend[|pend| - 1].base {
          MatchTop(e, d, p, F, G, f, g, true, rest);
        } else if |F| < pend[|pend| - 1].base {
          MatchTop(e, d, p, F, G, f, g, false, rest[..|rest| - 1]);
        }
      }
    }
  }

  // ---- returning ------------------------------------------------------------------------

  function Returning(got: int, trans: bool, pend: seq<Item>): Landing {
    if trans then ReturnDriver(got, pend) else ReturnInterp(got, pend)
  }

  /** A landing resumes the caller of the top frames as the interpreter does. */
  ghost predicate Resumes(e: Same, d: Cert, p: Policy, F: seq<Frame>, G: seq<Frame>, to: Landing)
    requires |F| == |G| > 0
  {
    var n, ret := |F|, F[|F| - 1].ret;
    match to
    case ToEnd => n == 1 && ret == SENTINEL
    case ToInterp(pc, q) => pc == ret && Deeper(e, d, p, F, G, false, q)
    case ToTrans(f, l, q) =>
      && Deeper(e, d, p, F, G, true, q)
      && F[n - 2].fn in p.funs && f == p.funs[F[n - 2].fn] && ret in f.labels && l == f.labels[ret]
    case ToNowhere => false
  }

  /** Returns go where the interpreter's do, through any nesting of tiers. */
  lemma {:induction false} ReturnMatches(e: Same, d: Cert, p: Policy, F: seq<Frame>, G: seq<Frame>, trans: bool, pend: seq<Item>)
    requires Match(e, d, p, F, G, trans, pend)
    ensures Resumes(e, d, p, F, G, Returning(G[|G| - 1].ret, trans, pend))
    decreases |pend|
  {
    if pend != [] {
      var rest := pend[..|pend| - 1];
      var got := G[|G| - 1].ret;
      match pend[|pend| - 1]
      case Cont(_, _, _) =>
      case DriveCall(_) =>
      case DriveTail => ReturnMatches(e, d, p, F, G, false, rest);
      case Nested(base) =>
        if |F| == base {
          ReturnMatches(e, d, p, F, G, true, rest);
          if got != SENTINEL {
            assert rest == rest[..|rest| - 1] + [DriveTail];
            ReturnPast(rest[..|rest| - 1], base);
          }
        } else if |F| < base {
          ReturnMatches(e, d, p, F, G, false, rest[..|rest| - 1]);
          ReturnPast(rest[..|rest| - 1], base);
          assert pend == rest[..|rest| - 1] + [DriveTail] + [Nested(base)];
        }
    }
  }

  /** A nested run() that has run on past a tail call ends where its driver,
      and the interpreter below that, end too. */
  lemma ReturnPast(pend: seq<Item>, base: nat)
    ensures ReturnInterp(SENTINEL, pend + [DriveTail] + [Nested(base)]) == ReturnInterp(SENTINEL, pend)
    ensures forall ret :: ReturnDriver(ret, pend + [DriveTail]) == ReturnInterp(ret, pend)
  {
    var q := pend + [DriveTail];
    var r := q + [Nested(base)];
    assert r[..|r| - 1] == q && q[..|q| - 1] == pend;
  }

  // ---- calling --------------------------------------------------------------------------

  /** An interpreted call of an interpreted callee. */
  lemma {:induction false} MatchCall(e: Same, d: Cert, p: Policy, F: seq<Frame>, G: seq<Frame>, f: Frame, g: Frame, pend: seq<Item>)
    requires Match(e, d, p, F, G, false, pend)
    requires f.ret == g.ret != SENTINEL && Suspended(e, d, p, f.ret, F[|F| - 1], G[|G| - 1])
    ensures Match(e, d, p, F + [f], G + [g], false, pend)
    decreases |pend|
  {
    var F', G' := F + [f], G + [g];
    assert F'[..|F|] == F && G'[..|G|] == G;
    if pend != [] {
      var rest := pend[..|pend| - 1];
      if |F'| <= pend[|pend| - 1].base {
        MatchCall(e, d, p, F, G, f, g, rest[..|rest| - 1]);
      }
    }
  }

  /** A call that crosses or stays in the translated tier. */
  lemma MatchCallTrans(e: Same, d: Cert, p: Policy, F: seq<Frame>, G: seq<Frame>, f: Frame, g: Frame, trans: bool, pend: seq<Item>, mark: Item)
    requires Match(e, d, p, F, G, trans, pend)
    requires g.ret == SENTINEL != f.ret && Suspended(e, d, p, f.ret, F[|F| - 1], G[|G| - 1])
    requires if trans then
               F[|F| - 1].fn in p.funs && f.ret in p.funs[F[|F| - 1].fn].labels
               && mark == Cont(p.funs[F[|F| - 1].fn], p.funs[F[|F| - 1].fn].labels[f.ret], |F|)
             else mark == DriveCall(f.ret)
    ensures Match(e, d, p, F + [f], G + [g], true, pend + [mark])
    ensures Match(e, d, p, F + [f], G + [g], false, pend + [mark] + [Nested(|F| + 1)])
  {
    var F', G' := F + [f], G + [g];
    assert F'[..|F|] == F && G'[..|G|] == G;
    var q := pend + [mark];
    assert q[..|q| - 1] == pend;
    var r := q + [Nested(|F| + 1)];
    assert r[..|r| - 1] == q;
  }

  /** A tail call into the other tier. */
  lemma MatchTail(e: Same, d: Cert, p: Policy, F: seq<Frame>, G: seq<Frame>, trans: bool, pend: seq<Item>)
    requires Match(e, d, p, F, G, trans, pend)
    ensures !trans ==> Match(e, d, p, F, G, true, pend + [DriveTail])
    ensures trans ==> Match(e, d, p, F, G, false, pend + [Nested(|F|)])
  {
    var q, r := pend + [DriveTail], pend + [Nested(|F|)];
    assert q[..|q| - 1] == pend && r[..|r| - 1] == pend;
  }

  // ---- longjmp ----------------------------------------------------------------------------

  /** Whether the interpreter can resume the activation at depth t: it is, or
      its callee's return leads to, an interpreted activation, or a translated
      one that an interpreted one tail-called. */
  function InterpAt(G: seq<Frame>, trans: bool, pend: seq<Item>, t: nat): bool
    decreases |G|
  {
    if t >= |G| || |G| == 0 then !trans || (pend != [] && pend[|pend| - 1].DriveTail?)
    else match Returning(G[|G| - 1].ret, trans, pend)
      case ToInterp(_, q) => InterpAt(G[..|G| - 1], false, q, t)
      case ToTrans(_, _, q) => InterpAt(G[..|G| - 1], true, q, t)
      case _ => false
  }

  /** The activation at depth t is the running one or a continuation of the
      driver that runs it. */
  predicate InSegment(n: nat, pend: seq<Item>, t: nat)
    decreases n
  {
    t == n || (t < n && pend != [] && pend[|pend| - 1].Cont? && InSegment(n - 1, pend[..|pend| - 1], t))
  }

  /** Whether the target of a longjmp is found: the interpreter can resume it,
      or it is translated and in the raising driver's own segment. */
  predicate Reachable(G: seq<Frame>, trans: bool, pend: seq<Item>, t: nat) {
    InterpAt(G, trans, pend, t) || (trans && InSegment(|G|, pend, t))
  }

  /** A nested run() that has run on past a tail call changes no tier. */
  lemma {:induction false} InterpPadded(G: seq<Frame>, pend: seq<Item>, base: nat, t: nat)
    ensures InterpAt(G, false, pend + [DriveTail] + [Nested(base)], t) == InterpAt(G, false, pend, t)
    decreases |G|
  {
    ReturnPast(pend, base);
    if 0 < |G| && t < |G| && G[|G| - 1].ret != SENTINEL {
      InterpPadded(G[..|G| - 1], pend, base, t);
    }
  }

  /** An interpreted activation and the translated one it tail-called return alike. */
  lemma InterpTailed(G: seq<Frame>, pend: seq<Item>, t: nat)
    ensures InterpAt(G, true, pend + [DriveTail], t) == InterpAt(G, false, pend, t)
  {
    var q := pend + [DriveTail];
    assert q[..|q| - 1] == pend;
  }

  /** The landing of a longjmp that the interpreter catches. */
  ghost predicate CaughtInterp(e: Same, d: Cert, p: Policy, F: seq<Frame>, G: seq<Frame>, h: Handler, to: Landing)
    requires |F| == |G| && h.depth <= |F|
  {
    to.ToInterp? && to.pc == h.ip && Match(e, d, p, F[..h.depth], G[..h.depth], false, to.pend)
  }

  /** Where an exception goes that crosses the running activation. */
  function Crossing(h: Handler, trans: bool, pend: seq<Item>): Landing {
    if trans then DropSegment(h, pend) else ThrowRun(h, pend)
  }

  /** A nested run() that has run on past a tail call is left as if it were not there. */
  lemma ThrowPast(h: Handler, q: seq<Item>, base: nat)
    requires h.depth < base
    ensures ThrowRun(h, q + [DriveTail] + [Nested(base)]) == ThrowRun(h, q)
  {
    var r := q + [DriveTail];
    var s := r + [Nested(base)];
    assert s[..|s| - 1] == r && r[..|r| - 1] == q;
  }

  /** Wherever it is raised, a longjmp that the interpreter can resume is caught there. */
  lemma {:induction false} InterpCaught(e: Same, d: Cert, p: Policy, F: seq<Frame>, G: seq<Frame>, trans: bool, pend: seq<Item>, h: Handler)
    requires Match(e, d, p, F, G, trans, pend) && 0 < h.depth <= |F|
    requires InterpAt(G, trans, pend, h.depth)
    ensures CaughtInterp(e, d, p, F, G, h, Crossing(h, trans, pend))
    decreases |F|, |pend|, 1
  {
    hide Suspended;
    var n, t := |F|, h.depth;
    ReturnMatches(e, d, p, F, G, trans, pend);
    if t < n {
      assert F[..n - 1][..t] == F[..t] && G[..n - 1][..t] == G[..t];
    } else {
      assert F[..t] == F && G[..t] == G;
    }
    if pend == [] {
      if t < n {
        InterpCaught(e, d, p, F[..n - 1], G[..n - 1], false, pend, h);
      }
    } else {
      var rest := pend[..|pend| - 1];
      match pend[|pend| - 1]
      case Cont(_, _, _) => InterpCaught(e, d, p, F[..n - 1], G[..n - 1], true, rest, h);
      case DriveCall(_) => InterpCaught(e, d, p, F[..n - 1], G[..n - 1], false, rest, h);
      case DriveTail =>
        assert pend == rest + [DriveTail];
        InterpTailed(G, rest, t);
        InterpCaught(e, d, p, F, G, false, rest, h);
      case Nested(_) => NestedCaught(e, d, p, F, G, pend, h);
    }
  }

  lemma {:induction false} NestedCaught(e: Same, d: Cert, p: Policy, F: seq<Frame>, G: seq<Frame>, pend: seq<Item>, h: Handler)
    requires Match(e, d, p, F, G, false, pend) && 0 < h.depth <= |F| && pend != [] && pend[|pend| - 1].Nested?
    requires InterpAt(G, false, pend, h.depth)
    ensures CaughtInterp(e, d, p, F, G, h, ThrowRun(h, pend))
    decreases |F|, |pend|, 0
  {
    hide Suspended;
    var n, t, base, rest := |F|, h.depth, pend[|pend| - 1].base, pend[..|pend| - 1];
    ReturnMatches(e, d, p, F, G, false, pend);
    if t < n {
      assert F[..n - 1][..t] == F[..t] && G[..n - 1][..t] == G[..t];
    } else {
      assert F[..t] == F && G[..t] == G;
    }
    if n > base {
      if t < n {
        InterpCaught(e, d, p, F[..n - 1], G[..n - 1], false, pend, h);
      }
    } else if n == base {
      if t < n {
        InterpAtBase(e, d, p, F, G, pend, t);
        InterpCaught(e, d, p, F, G, true, rest, h);
      }
    } else {
      var q := rest[..|rest| - 1];
      assert pend == q + [DriveTail] + [Nested(base)];
      InterpPadded(G, q, base, t);
      ThrowPast(h, q, base);
      InterpCaught(e, d, p, F, G, false, q, h);
    }
  }

  /** The base frame of a nested run() returns as its driver's callee. */
  lemma InterpAtBase(e: Same, d: Cert, p: Policy, F: seq<Frame>, G: seq<Frame>, pend: seq<Item>, t: nat)
    requires Match(e, d, p, F, G, false, pend) && pend != [] && pend[|pend| - 1].Nested? && |F| == pend[|pend| - 1].base && t < |F|
    ensures InterpAt(G, false, pend, t) == InterpAt(G, true, pend[..|pend| - 1], t)
  {
    var rest := pend[..|pend| - 1];
    var got := G[|G| - 1].ret;
    if got != SENTINEL {
      assert rest[|rest| - 1].DriveTail?;
      var q := rest[..|rest| - 1];
      assert pend == q + [DriveTail] + [Nested(|F|)] && rest == q + [DriveTail];
      ReturnPast(q, |F|);
      InterpPadded(G[..|G| - 1], q, |F|, t);
    }
  }

  /** A longjmp raised by translated code reaches a translated activation of
      the same driver. */
  lemma {:induction false} SegmentCaught(e: Same, d: Cert, p: Policy, F: seq<Frame>, G: seq<Frame>, pend: seq<Item>, h: Handler)
    requires Match(e, d, p, F, G, true, pend) && 0 < h.depth < |F| && InSegment(|F|, pend, h.depth)
    requires F[h.depth - 1].fn in p.funs ==> Tiers.Resumes(p.funs[F[h.depth - 1].fn], h.ip)
    ensures F[h.depth - 1].fn in p.funs
    ensures var f, to := p.funs[F[h.depth - 1].fn], ThrowDriver(h, pend);
      to.ToTrans? && to.f == f && to.l == f.labels[h.ip] && Match(e, d, p, F[..h.depth], G[..h.depth], true, to.pend)
    decreases |F|
  {
    hide Suspended;
    var n, t := |F|, h.depth;
    var rest := pend[..|pend| - 1];
    assert F[..n - 1][..t] == F[..t] && G[..n - 1][..t] == G[..t];
    if t < n - 1 {
      SegmentCaught(e, d, p, F[..n - 1], G[..n - 1], rest, h);
    }
  }

  /** A driver that does not find the target drops its whole segment. */
  lemma {:induction false} SegmentDropped(e: Same, d: Cert, p: Policy, F: seq<Frame>, G: seq<Frame>, pend: seq<Item>, h: Handler)
    requires Match(e, d, p, F, G, true, pend) && 0 < h.depth < |F| && !InSegment(|F|, pend, h.depth)
    ensures ThrowDriver(h, pend) == DropSegment(h, pend)
    decreases |F|
  {
    if pend != [] && pend[|pend| - 1].Cont? {
      SegmentDropped(e, d, p, F[..|F| - 1], G[..|G| - 1], pend[..|pend| - 1], h);
    }
  }

  // ---- a longjmp that is not caught ---------------------------------------------------------

  /** An exception that has crossed a run() is caught by an enclosing run() or
      lost; a run() catches it in the pending work it had when it started. */
  lemma {:induction false} CrossingLands(h: Handler, trans: bool, pend: seq<Item>)
    ensures var to := Crossing(h, trans, pend);
      !to.ToTrans? && !to.ToEnd?
      && (to.ToInterp? ==> |to.pend| <= |pend| && to.pend == pend[..|to.pend|]
                           && (to.pend != [] ==> to.pend[|to.pend| - 1].Nested? && to.pend[|to.pend| - 1].base <= h.depth))
    decreases |pend|
  {
    if pend != [] {
      var rest := pend[..|pend| - 1];
      CrossingLands(h, true, rest);
      CrossingLands(h, false, rest);
    }
  }

  /** A run() whose base is above the running frame was started by a tail call. */
  predicate Shallow(n: nat, pend: seq<Item>) {
    forall i :: 0 <= i < |pend| && pend[i].Nested? && pend[i].base > n ==> i > 0 && pend[i - 1].DriveTail?
  }

  lemma {:induction false} MatchShallow(e: Same, d: Cert, p: Policy, F: seq<Frame>, G: seq<Frame>, trans: bool, pend: seq<Item>)
    requires Match(e, d, p, F, G, trans, pend)
    ensures Shallow(|F|, pend)
    decreases |pend|, |F|
  {
    hide Suspended;
    if pend != [] {
      var n, rest := |F|, pend[..|pend| - 1];
      match pend[|pend| - 1]
      case Cont(_, _, _) => MatchShallow(e, d, p, F[..n - 1], G[..n - 1], true, rest);
      case DriveCall(_) => MatchShallow(e, d, p, F[..n - 1], G[..n - 1], false, rest);
      case DriveTail => MatchShallow(e, d, p, F, G, false, rest);
      case Nested(base) =>
        if n > base {
          MatchShallow(e, d, p, F[..n - 1], G[..n - 1], false, pend);
        } else if n == base {
          MatchShallow(e, d, p, F, G, true, rest);
        } else {
          MatchShallow(e, d, p, F, G, false, rest[..|rest| - 1]);
          assert pend[|pend| - 2] == DriveTail;
          assert forall i :: 0 <= i < |pend| - 2 ==> rest[..|rest| - 1][i] == pend[i];
        }
    }
  }

  /** An activation entered from the other tier cannot be resumed by an
      interpreter below its caller. */
  lemma {:induction false} NotAbove(e: Same, d: Cert, p: Policy, F: seq<Frame>, G: seq<Frame>, q: seq<Item>)
    requires |F| == |G| > 0 && G[|G| - 1].ret == SENTINEL != F[|F| - 1].ret && Shallow(|F| - 1, q)
    ensures !Match(e, d, p, F, G, false, q)
    decreases |q|
  {
    if q != [] && q[|q| - 1].Nested? && q[|q| - 1].base >= |F| {
      var rest := q[..|q| - 1];
      assert q[|q| - 2].DriveTail?;
      NotAbove(e, d, p, F, G, rest[..|rest| - 1]);
    }
  }

  /** The converse of InterpCaught. */
  lemma {:induction false} InterpOnly(e: Same, d: Cert, p: Policy, F: seq<Frame>, G: seq<Frame>, trans: bool, pend: seq<Item>, h: Handler)
    requires Match(e, d, p, F, G, trans, pend) && 0 < h.depth <= |F|
    requires CaughtInterp(e, d, p, F, G, h, Crossing(h, trans, pend))
    ensures InterpAt(G, trans, pend, h.depth)
    decreases |F|, |pend|
  {
    hide Suspended;
    var n, t := |F|, h.depth;
    ReturnMatches(e, d, p, F, G, trans, pend);
    if t < n {
      assert F[..n - 1][..t] == F[..t] && G[..n - 1][..t] == G[..t];
    } else {
      assert F[..t] == F && G[..t] == G;
    }
    if pend == [] {
      if t < n {
        InterpOnly(e, d, p, F[..n - 1], G[..n - 1], false, pend, h);
      }
    } else {
      var rest := pend[..|pend| - 1];
      match pend[|pend| - 1]
      case Cont(_, _, _) =>
        if t < n { InterpOnly(e, d, p, F[..n - 1], G[..n - 1], true, rest, h); } else { NotCaughtAbove(e, d, p, F, G, true, rest, h); }
      case DriveCall(_) =>
        if t < n { InterpOnly(e, d, p, F[..n - 1], G[..n - 1], false, rest, h); } else { NotCaughtAbove(e, d, p, F, G, false, rest, h); }
      case DriveTail =>
        assert pend == rest + [DriveTail];
        InterpTailed(G, rest, t);
        if t < n { InterpOnly(e, d, p, F, G, false, rest, h); }
      case Nested(base) =>
        if n > base {
          if t < n {
            InterpOnly(e, d, p, F[..n - 1], G[..n - 1], false, pend, h);
          }
        } else if n == base {
          if t < n {
            InterpAtBase(e, d, p, F, G, pend, t);
            InterpOnly(e, d, p, F, G, true, rest, h);
          }
        } else {
          var q := rest[..|rest| - 1];
          assert pend == q + [DriveTail] + [Nested(base)];
          InterpPadded(G, q, base, t);
          ThrowPast(h, q, base);
          InterpOnly(e, d, p, F, G, false, q, h);
        }
    }
  }

  lemma NotCaughtAbove(e: Same, d: Cert, p: Policy, F: seq<Frame>, G: seq<Frame>, trans: bool, rest: seq<Item>, h: Handler)
    requires |F| == |G| > 1 && h.depth == |F| && G[|G| - 1].ret == SENTINEL != F[|F| - 1].ret
    requires Match(e, d, p, F[..|F| - 1], G[..|G| - 1], trans, rest)
    ensures !CaughtInterp(e, d, p, F, G, h, Crossing(h, trans, rest))
  {
    var to := Crossing(h, trans, rest);
    assert F[..h.depth] == F && G[..h.depth] == G;
    if to.ToInterp? {
      CrossingLands(h, trans, rest);
      MatchShallow(e, d, p, F[..|F| - 1], G[..|G| - 1], trans, rest);
      NotAbove(e, d, p, F, G, to.pend);
    }
  }
}
