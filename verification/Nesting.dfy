/** What nested activations, calls and runs of the driver come to
    (web/mvm.js:696-712, 945-954, 1336-1392). */
module Nesting {
  import opened Results
  import opened Driver

  // ---- a nested activation is a call ----------------------------------------------------

  /** A nested activation of a translated function, as a call of it. */
  function AsCall<S>(p: Program<S>, o: Outcome<S>): Outcome<S> {
    if o.Inside? && o.callee.Some? && o.on.Some? && p.compiled(o.callee.value, o.s) then Called(o.s, o.callee.value, o.on.value) else o
  }

  function AsCalls<S>(p: Program<S>): Program<S> {
    p.(step := (f: int, l: nat, s: S) => AsCall(p, p.step(f, l, s)))
  }

  /** Two results but for the number of continuations. */
  predicate Same<S(==)>(r: Driver.Result<S>, r': Driver.Result<S>) {
    r.out == r'.out && r.left == r'.left
  }

  /** No longjmp leaves an interpreted callee of the driver. */
  ghost predicate NeverEscapes<S(!new)>(p: Program<S>) {
    forall t: int, s: S, n: nat, k: nat :: !Enter(p, t, s, n, k).out.Escaped?
  }

  /** Calling in the middle and going on comes to what a call comes to that
      resumes there, whatever else the program does, longjmps included. */
  lemma {:induction false} InsideIsCall<S(!new)>(p: Program<S>, f: int, l: nat, e: int, s: S, n: nat, k: nat, k': nat)
    requires NeverEscapes(p)
    ensures Same(Eval(p, f, l, e, s, n, k), Eval(AsCalls(p), f, l, e, s, n, k'))
    decreases n, 1
  {
    hide Eval, Enter, After, Catch, Nested, Resume, Whole, NeverEscapes, AsCall;
    var q := AsCalls(p);
    EvalStep(p, f, l, e, s, n, k);
    EvalStep(q, f, l, e, s, n, k');
    if n > 0 {
      AsCallIs(p, f, l, s);
      match p.step(f, l, s)
      case Returned(_) =>
      case Called(s1, t, l1) =>
        EnterSame(p, t, s1, n - 1, k + 1, k' + 1);
        AfterSame(p, f, l1, e, k, k', Enter(p, t, s1, n - 1, k + 1), Enter(q, t, s1, n - 1, k' + 1));
      case Tailed(s1, t) => EnterSame(p, t, s1, n - 1, k, k');
      case Threw(s1, ip) => CatchSame(p, f, e, s1, ip, n - 1, k, k');
      case Inside(s1, t, on) =>
        if t.Some? && on.Some? && p.compiled(t.value, s1) {
          EnterSame(p, t.value, s1, n - 1, k, k' + 1);
          CalledInside(p, f, e, k, k', t.value, on.value, s1, n - 1);
        } else {
          WholeSame(p, t, s1, n - 1);
          ResumeSame(p, f, e, k, k', on, Whole(p, t, s1, n - 1), Whole(q, t, s1, n - 1));
        }
    }
  }

  lemma AsCallIs<S>(p: Program<S>, f: int, l: nat, s: S)
    ensures AsCalls(p).step(f, l, s) ==
      match p.step(f, l, s)
      case Inside(s1, t, on) => if t.Some? && on.Some? && p.compiled(t.value, s1) then Called(s1, t.value, on.value) else Inside(s1, t, on)
      case _ => p.step(f, l, s)
    ensures AsCalls(p).interp == p.interp && AsCalls(p).compiled == p.compiled && AsCalls(p).resume == p.resume && AsCalls(p).ebp == p.ebp && AsCalls(p).esp == p.esp
  {
  }

  /** The nested driver's segment is empty, the call's is not: all the same. */
  lemma {:induction false} CalledInside<S(!new)>(p: Program<S>, f: int, e: int, k: nat, k': nat, t: int, l: nat, s: S, n: nat)
    requires NeverEscapes(p) && p.compiled(t, s)
    requires Same(Enter(p, t, s, n, k), Enter(AsCalls(p), t, s, n, k' + 1))
    ensures Same(Resume(p, f, e, k, Some(l), Whole(p, Some(t), s, n)), After(AsCalls(p), f, l, e, k', Enter(AsCalls(p), t, s, n, k' + 1)))
    decreases n, 4
  {
    hide Eval, Enter, Catch, Nested, NeverEscapes;
    var q := AsCalls(p);
    AsCallIs(p, f, l, s);
    EnterStep(p, t, s, n, 0);
    EnterStep(q, t, s, n, k' + 1);
    InsideIsCall(p, t, 0, p.ebp(s), s, n, 0, k' + 1);
    Stays(p, t, s, n, 0);
    var r := Whole(p, Some(t), s, n);
    match r.out
    case Done(s1) => InsideIsCall(p, f, l, e, s1, r.left, k, k');
    case Thrown(s1, ip) => CatchSame(p, f, e, s1, ip, r.left, k, k');
    case _ =>
  }

  lemma Stays<S(!new)>(p: Program<S>, t: int, s: S, n: nat, k: nat)
    requires NeverEscapes(p)
    ensures !Enter(p, t, s, n, k).out.Escaped?
  {
    hide Enter;
  }

  lemma {:induction false} EnterSame<S(!new)>(p: Program<S>, t: int, s: S, n: nat, k: nat, k': nat)
    requires NeverEscapes(p)
    ensures Same(Enter(p, t, s, n, k), Enter(AsCalls(p), t, s, n, k'))
    decreases n, 2
  {
    hide Eval, Enter, Catch, Nested, NeverEscapes, AsCall;
    AsCallIs(p, 0, 0, s);
    EnterStep(p, t, s, n, k);
    EnterStep(AsCalls(p), t, s, n, k');
    if p.compiled(t, s) { InsideIsCall(p, t, 0, p.ebp(s), s, n, k, k'); } else { NestedSame(p, p.esp(s), s, n); }
  }

  lemma {:induction false} AfterSame<S(!new)>(p: Program<S>, f: int, l: nat, e: int, k: nat, k': nat, r: Driver.Result<S>, r': Driver.Result<S>)
    requires NeverEscapes(p) && Same(r, r')
    ensures Same(After(p, f, l, e, k, r), After(AsCalls(p), f, l, e, k', r'))
    decreases r.left, 3
  {
    hide Eval, Enter, Catch, Nested, NeverEscapes, AsCalls;
    match r.out
    case Done(s) => InsideIsCall(p, f, l, e, s, r.left, k, k');
    case Thrown(s, ip) => CatchSame(p, f, e, s, ip, r.left, k, k');
    case _ =>
  }

  lemma {:induction false} CatchSame<S(!new)>(p: Program<S>, f: int, e: int, s: S, ip: int, n: nat, k: nat, k': nat)
    requires NeverEscapes(p)
    ensures Same(Catch(p, f, e, s, ip, n, k), Catch(AsCalls(p), f, e, s, ip, n, k'))
    decreases n, 2
  {
    hide Eval, Catch, NeverEscapes, AsCall;
    AsCallIs(p, 0, 0, s);
    CatchStep(p, f, e, s, ip, n, k);
    CatchStep(AsCalls(p), f, e, s, ip, n, k');
    if p.ebp(s) == e && p.resume(f, ip).Some? { InsideIsCall(p, f, p.resume(f, ip).value, e, s, n, k, k'); }
  }

  lemma {:induction false} WholeSame<S(!new)>(p: Program<S>, t: Option<int>, s: S, n: nat)
    requires NeverEscapes(p)
    ensures Same(Whole(p, t, s, n), Whole(AsCalls(p), t, s, n))
    decreases n, 2
  {
    hide Eval, Nested, NeverEscapes, AsCall;
    AsCallIs(p, 0, 0, s);
    if t.Some? && p.compiled(t.value, s) { InsideIsCall(p, t.value, 0, p.ebp(s), s, n, 0, 0); } else { NestedSame(p, p.esp(s), s, n); }
  }

  lemma {:induction false} ResumeSame<S(!new)>(p: Program<S>, f: int, e: int, k: nat, k': nat, on: Option<nat>, r: Driver.Result<S>, r': Driver.Result<S>)
    requires NeverEscapes(p) && Same(r, r')
    ensures Same(Resume(p, f, e, k, on, r), Resume(AsCalls(p), f, e, k', on, r'))
    decreases r.left, 3
  {
    hide Eval, Catch, NeverEscapes, AsCalls;
    match r.out
    case Done(s) => if on.Some? { InsideIsCall(p, f, on.value, e, s, r.left, k, k'); }
    case Thrown(s, ip) => CatchSame(p, f, e, s, ip, r.left, k, k');
    case _ =>
  }

  lemma {:induction false} NestedSame<S(!new)>(p: Program<S>, base: int, s: S, n: nat)
    requires NeverEscapes(p)
    ensures Same(Nested(p, base, s, n), Nested(AsCalls(p), base, s, n))
    decreases n, 0
  {
    hide Eval, Nested, NeverEscapes, AsCall;
    AsCallIs(p, 0, 0, s);
    NestedStep(p, base, s, n);
    NestedStep(AsCalls(p), base, s, n);
    if n > 0 {
      match p.interp(s)
      case Ended(_) =>
      case Jumped(s1, ip) => if p.esp(s1) <= base { NestedSame(p, base, s1, n - 1); }
      case Drives(s1, t) =>
        InsideIsCall(p, t, 0, p.ebp(s1), s1, n - 1, 0, 0);
        var r := Eval(p, t, 0, p.ebp(s1), s1, n - 1, 0);
        if !r.out.Timeout? { NestedSame(p, base, r.out.s, r.left); }
    }
  }

  // ---- when no longjmp escapes ------------------------------------------------------------

  /** Where everything is translated, longjmps or not. */
  lemma TranslatedStays<S(!new)>(p: Program<S>)
    requires forall t: int, s: S :: p.compiled(t, s)
    ensures NeverEscapes(p)
  {
    hide Eval, Enter;
    forall t: int, s: S, n: nat, k: nat
      ensures !Enter(p, t, s, n, k).out.Escaped?
    {
      EnterStep(p, t, s, n, k);
      EvalStays(p, t, 0, p.ebp(s), s, n, k);
    }
  }

  lemma {:induction false} EvalStays<S(!new)>(p: Program<S>, f: int, l: nat, e: int, s: S, n: nat, k: nat)
    requires forall t: int, s: S :: p.compiled(t, s)
    ensures !Eval(p, f, l, e, s, n, k).out.Escaped?
    decreases n, 0
  {
    hide Eval, Enter, Catch, Nested, Whole;
    EvalStep(p, f, l, e, s, n, k);
    if n > 0 {
      match p.step(f, l, s)
      case Returned(_) =>
      case Called(s1, t, l1) =>
        EnterStep(p, t, s1, n - 1, k + 1);
        EvalStays(p, t, 0, p.ebp(s1), s1, n - 1, k + 1);
        var r := Enter(p, t, s1, n - 1, k + 1);
        if r.out.Done? { EvalStays(p, f, l1, e, r.out.s, r.left, k); }
        if r.out.Thrown? { CatchStays(p, f, e, r.out.s, r.out.ip, r.left, k); }
      case Tailed(s1, t) =>
        EnterStep(p, t, s1, n - 1, k);
        EvalStays(p, t, 0, p.ebp(s1), s1, n - 1, k);
      case Threw(s1, ip) => CatchStays(p, f, e, s1, ip, n - 1, k);
      case Inside(s1, t, on) =>
        var r := Whole(p, t, s1, n - 1);
        if r.out.Done? && on.Some? { EvalStays(p, f, on.value, e, r.out.s, r.left, k); }
        if r.out.Thrown? { CatchStays(p, f, e, r.out.s, r.out.ip, r.left, k); }
    }
  }

  lemma {:induction false} CatchStays<S(!new)>(p: Program<S>, f: int, e: int, s: S, ip: int, n: nat, k: nat)
    requires forall t: int, s: S :: p.compiled(t, s)
    ensures !Catch(p, f, e, s, ip, n, k).out.Escaped?
    decreases n, 1
  {
    hide Eval;
    CatchStep(p, f, e, s, ip, n, k);
    if p.resume(f, ip).Some? { EvalStays(p, f, p.resume(f, ip).value, e, s, n, k); }
  }

  /** Or where there are none. */
  ghost predicate Jumpless<S(!new)>(p: Program<S>) {
    (forall f: int, l: nat, s: S :: !p.step(f, l, s).Threw?) && forall s: S :: !p.interp(s).Jumped?
  }

  lemma JumplessStays<S(!new)>(p: Program<S>)
    requires Jumpless(p)
    ensures NeverEscapes(p)
  {
    hide Eval, Enter, Jumpless;
    forall t: int, s: S, n: nat, k: nat
      ensures !Enter(p, t, s, n, k).out.Escaped?
    {
      EnterCalm(p, t, s, n, k);
    }
  }

  predicate Calm<S>(o: Out<S>) { o.Done? || o.Timeout? }

  lemma {:induction false} EnterCalm<S(!new)>(p: Program<S>, t: int, s: S, n: nat, k: nat)
    requires Jumpless(p)
    ensures Calm(Enter(p, t, s, n, k).out)
    decreases n, 2
  {
    hide Eval, Nested, Jumpless;
    EnterStep(p, t, s, n, k);
    if p.compiled(t, s) { EvalCalm(p, t, 0, p.ebp(s), s, n, k); } else { NestedCalm(p, p.esp(s), s, n); }
  }

  lemma {:induction false} EvalCalm<S(!new)>(p: Program<S>, f: int, l: nat, e: int, s: S, n: nat, k: nat)
    requires Jumpless(p)
    ensures Calm(Eval(p, f, l, e, s, n, k).out)
    decreases n, 1
  {
    hide Eval, Enter, Catch, Nested;
    EvalStep(p, f, l, e, s, n, k);
    if n > 0 {
      match p.step(f, l, s)
      case Returned(_) =>
      case Threw(_, _) =>
      case Called(s1, t, l1) =>
        EnterCalm(p, t, s1, n - 1, k + 1);
        var r := Enter(p, t, s1, n - 1, k + 1);
        if r.out.Done? { EvalCalm(p, f, l1, e, r.out.s, r.left, k); }
      case Tailed(s1, t) => EnterCalm(p, t, s1, n - 1, k);
      case Inside(s1, t, on) =>
        if t.Some? && p.compiled(t.value, s1) { EvalCalm(p, t.value, 0, p.ebp(s1), s1, n - 1, 0); } else { NestedCalm(p, p.esp(s1), s1, n - 1); }
        var r := Whole(p, t, s1, n - 1);
        if r.out.Done? && on.Some? { EvalCalm(p, f, on.value, e, r.out.s, r.left, k); }
    }
  }

  lemma {:induction false} NestedCalm<S(!new)>(p: Program<S>, base: int, s: S, n: nat)
    requires Jumpless(p)
    ensures Calm(Nested(p, base, s, n).out)
    decreases n, 0
  {
    hide Eval, Nested;
    NestedStep(p, base, s, n);
    if n > 0 {
      match p.interp(s)
      case Drives(s1, t) =>
        EvalCalm(p, t, 0, p.ebp(s1), s1, n - 1, 0);
        var r := Eval(p, t, 0, p.ebp(s1), s1, n - 1, 0);
        if r.out.Done? { NestedCalm(p, base, r.out.s, r.left); }
      case _ =>
    }
  }

  // ---- what each way of calling comes to --------------------------------------------------

  /** A callee, translated or not, that ends in s': its caller goes on at l. */
  ghost predicate Ends<S>(p: Program<S>, t: int, s: S, s': S) {
    if p.compiled(t, s) then p.step(t, 0, s) == Returned(s') else p.interp(s) == Ended(s')
  }

  lemma EntersEnding<S>(p: Program<S>, t: int, s: S, s': S, n: nat, k: nat)
    requires Ends(p, t, s, s') && n > 0
    ensures Enter(p, t, s, n, k).out == Done(s') && Enter(p, t, s, n, k).left == n - 1
  {
    hide Eval, Enter, Nested;
    EnterStep(p, t, s, n, k);
    EvalStep(p, t, 0, p.ebp(s), s, n, k);
    NestedStep(p, p.esp(s), s, n);
  }

  /** A call, and what is behind it. */
  lemma CallGoesOn<S>(p: Program<S>, f: int, l: nat, e: int, s: S, n: nat, k: nat, s1: S, t: int, l1: nat, s2: S)
    requires p.step(f, l, s) == Called(s1, t, l1) && Ends(p, t, s1, s2) && n > 1
    ensures Same(Eval(p, f, l, e, s, n, k), Eval(p, f, l1, e, s2, n - 2, k))
  {
    hide Eval, Enter, Catch;
    EvalStep(p, f, l, e, s, n, k);
    EntersEnding(p, t, s1, s2, n - 1, k + 1);
  }

  /** A tail call: the callee's result is the caller's. */
  lemma TailEnds<S>(p: Program<S>, f: int, l: nat, e: int, s: S, n: nat, k: nat, s1: S, t: int, s2: S)
    requires p.step(f, l, s) == Tailed(s1, t) && Ends(p, t, s1, s2) && n > 1
    ensures Eval(p, f, l, e, s, n, k).out == Done(s2)
  {
    hide Eval, Enter, Catch;
    EvalStep(p, f, l, e, s, n, k);
    EntersEnding(p, t, s1, s2, n - 1, k);
  }

  /** A nested activation in the middle of f, and what is behind it. */
  ghost predicate EndsInside<S>(p: Program<S>, c: Option<int>, s: S, s': S) {
    if c.Some? then Ends(p, c.value, s, s') else p.interp(s) == Ended(s')
  }

  lemma InsideGoesOn<S>(p: Program<S>, f: int, l: nat, e: int, s: S, n: nat, k: nat, s1: S, c: Option<int>, on: Option<nat>, s2: S)
    requires p.step(f, l, s) == Inside(s1, c, on) && EndsInside(p, c, s1, s2) && n > 1
    ensures on.Some? ==> Same(Eval(p, f, l, e, s, n, k), Eval(p, f, on.value, e, s2, n - 2, k))
    ensures on.None? ==> Eval(p, f, l, e, s, n, k).out == Done(s2)
  {
    hide Eval, Nested, Catch;
    EvalStep(p, f, l, e, s, n, k);
    NestedStep(p, p.esp(s1), s1, n - 1);
    if c.Some? && p.compiled(c.value, s1) { EvalStep(p, c.value, 0, p.ebp(s1), s1, n - 1, 0); }
  }

  /** Without a place to go on, f ends as what is inside of it does. */
  lemma InsideReturns<S>(p: Program<S>, f: int, l: nat, e: int, s: S, n: nat, k: nat, s1: S, t: int)
    requires n > 0 && p.step(f, l, s) == Inside(s1, Some(t), None) && p.compiled(t, s1)
    ensures var o := Eval(p, t, 0, p.ebp(s1), s1, n - 1, 0).out; o.Done? || o.Timeout? ==> Eval(p, f, l, e, s, n, k).out == o
  {
    hide Eval, Catch;
    EvalStep(p, f, l, e, s, n, k);
  }

  /** A longjmp leaves what is inside: translated code that does not catch it
      itself, or a run() whose base is below the frame it restores. */
  ghost predicate JumpsOut<S>(p: Program<S>, c: Option<int>, s: S, s': S, ip: int) {
    if c.Some? && p.compiled(c.value, s) then
      p.step(c.value, 0, s) == Threw(s', ip) && (p.ebp(s') != p.ebp(s) || p.resume(c.value, ip).None?)
    else p.interp(s) == Jumped(s', ip) && p.esp(s') > p.esp(s)
  }

  /** It is f's if it restores f's frame and f has its place; otherwise it goes
      to f's callers. */
  lemma InsideThrows<S>(p: Program<S>, f: int, l: nat, e: int, s: S, n: nat, k: nat, s1: S, c: Option<int>, on: Option<nat>, s2: S, ip: int)
    requires p.step(f, l, s) == Inside(s1, c, on) && JumpsOut(p, c, s1, s2, ip) && n > 1
    ensures p.ebp(s2) == e && p.resume(f, ip).Some? ==> Same(Eval(p, f, l, e, s, n, k), Eval(p, f, p.resume(f, ip).value, e, s2, n - 2, k))
    ensures !(p.ebp(s2) == e && p.resume(f, ip).Some?) ==> Eval(p, f, l, e, s, n, k).out == Thrown(s2, ip)
  {
    hide Eval, Nested, Catch;
    EvalStep(p, f, l, e, s, n, k);
    CatchStep(p, f, e, s2, ip, n - 2, k);
    NestedStep(p, p.esp(s1), s1, n - 1);
    if c.Some? && p.compiled(c.value, s1) {
      EvalStep(p, c.value, 0, p.ebp(s1), s1, n - 1, 0);
      CatchStep(p, c.value, p.ebp(s1), s2, ip, n - 2, 0);
    }
  }

  /** One that leaves an interpreted callee is nobody's in this driver. */
  lemma CallLoses<S>(p: Program<S>, f: int, l: nat, e: int, s: S, n: nat, k: nat, s1: S, t: int, l1: nat, s2: S, ip: int)
    requires p.step(f, l, s) == Called(s1, t, l1) && !p.compiled(t, s1) && p.interp(s1) == Jumped(s2, ip) && p.esp(s2) > p.esp(s1) && n > 1
    ensures Eval(p, f, l, e, s, n, k).out == Escaped(s2, ip)
  {
    hide Eval, Nested, Enter;
    EvalStep(p, f, l, e, s, n, k);
    EnterStep(p, t, s1, n - 1, k + 1);
    NestedStep(p, p.esp(s1), s1, n - 1);
  }

  /** One out of a called function that does not catch it: its caller's, if it
      restores the caller's frame and the caller has its place. */
  lemma CallThrows<S>(p: Program<S>, f: int, l: nat, e: int, s: S, n: nat, k: nat, s1: S, t: int, l1: nat, s2: S, ip: int)
    requires p.step(f, l, s) == Called(s1, t, l1) && p.compiled(t, s1) && JumpsOut(p, Some(t), s1, s2, ip) && n > 1
    ensures p.ebp(s2) == e && p.resume(f, ip).Some? ==> Same(Eval(p, f, l, e, s, n, k), Eval(p, f, p.resume(f, ip).value, e, s2, n - 2, k))
    ensures !(p.ebp(s2) == e && p.resume(f, ip).Some?) ==> Eval(p, f, l, e, s, n, k).out == Thrown(s2, ip)
  {
    hide Eval, Enter, Catch;
    EvalStep(p, f, l, e, s, n, k);
    EnterStep(p, t, s1, n - 1, k + 1);
    EvalStep(p, t, 0, p.ebp(s1), s1, n - 1, k + 1);
    CatchStep(p, t, p.ebp(s1), s2, ip, n - 2, k + 1);
    CatchStep(p, f, e, s2, ip, n - 2, k);
  }

  /** After a tail call the caller is gone: it catches nothing. */
  lemma TailThrows<S>(p: Program<S>, f: int, l: nat, e: int, s: S, n: nat, k: nat, s1: S, t: int, s2: S, ip: int)
    requires p.step(f, l, s) == Tailed(s1, t) && p.compiled(t, s1) && JumpsOut(p, Some(t), s1, s2, ip) && n > 1
    ensures Eval(p, f, l, e, s, n, k).out == Thrown(s2, ip)
  {
    hide Eval, Enter, Catch;
    EvalStep(p, f, l, e, s, n, k);
    EnterStep(p, t, s1, n - 1, k);
    EvalStep(p, t, 0, p.ebp(s1), s1, n - 1, k);
    CatchStep(p, t, p.ebp(s1), s2, ip, n - 2, k);
  }

  /** A translated function that calls an interpreted one, out of which a
      longjmp goes: the driver that runs them is left. */
  ghost predicate LeavesDriver<S>(p: Program<S>, t: int, s: S, s': S, ip: int) {
    p.step(t, 0, s).Called?
    && var c := p.step(t, 0, s);
      !p.compiled(c.t, c.s) && p.interp(c.s) == Jumped(s', ip) && p.esp(s') > p.esp(c.s)
  }

  lemma LeavesWith<S>(p: Program<S>, t: int, s: S, n: nat, k: nat, s': S, ip: int)
    requires LeavesDriver(p, t, s, s', ip) && n > 1
    ensures Eval(p, t, 0, p.ebp(s), s, n, k).out == Escaped(s', ip) && Eval(p, t, 0, p.ebp(s), s, n, k).left == n - 2
  {
    hide Eval, Enter, Nested;
    var c := p.step(t, 0, s);
    EvalStep(p, t, 0, p.ebp(s), s, n, k);
    EnterStep(p, c.t, c.s, n - 1, k + 1);
    NestedStep(p, p.esp(c.s), c.s, n - 1);
  }

  /** What the driver was started from may catch it: translated code with a
      nested activation, or run(). */
  lemma DriverLeft<S>(p: Program<S>, f: int, l: nat, e: int, s: S, n: nat, k: nat, base: int, t: int, on: Option<nat>, s1: S, s2: S, ip: int)
    requires LeavesDriver(p, t, s1, s2, ip) && n > 2
    ensures p.step(f, l, s) == Inside(s1, Some(t), on) && p.compiled(t, s1) ==>
      if p.ebp(s2) == e && p.resume(f, ip).Some? then Same(Eval(p, f, l, e, s, n, k), Eval(p, f, p.resume(f, ip).value, e, s2, n - 3, k))
      else Eval(p, f, l, e, s, n, k).out == Thrown(s2, ip)
    ensures p.interp(s) == Drives(s1, t) ==>
      if p.esp(s2) <= base then Same(Nested(p, base, s, n), Nested(p, base, s2, n - 3)) else Nested(p, base, s, n).out == Thrown(s2, ip)
  {
    hide Eval, Nested, Catch;
    LeavesWith(p, t, s1, n - 1, 0, s2, ip);
    EvalStep(p, f, l, e, s, n, k);
    CatchStep(p, f, e, s2, ip, n - 3, k);
    NestedStep(p, base, s, n);
  }

  /** One out of translated code is its own, if it restores its frame. */
  lemma ThrowsItself<S>(p: Program<S>, f: int, l: nat, e: int, s: S, n: nat, k: nat, s1: S, ip: int)
    requires p.step(f, l, s) == Threw(s1, ip) && n > 0
    ensures p.ebp(s1) == e && p.resume(f, ip).Some? ==> Eval(p, f, l, e, s, n, k) == Eval(p, f, p.resume(f, ip).value, e, s1, n - 1, k)
    ensures !(p.ebp(s1) == e && p.resume(f, ip).Some?) ==> Eval(p, f, l, e, s, n, k).out == Thrown(s1, ip)
  {
    hide Eval, Catch;
    EvalStep(p, f, l, e, s, n, k);
    CatchStep(p, f, e, s1, ip, n - 1, k);
  }

  /** run() goes on behind a longjmp to a frame not above its base, and behind
      the translated functions it drives. */
  lemma RunGoesOn<S>(p: Program<S>, base: int, s: S, n: nat, s1: S, ip: int, t: int, s2: S)
    requires n > 1
    ensures p.interp(s) == Jumped(s1, ip) ==>
      if p.esp(s1) <= base then Same(Nested(p, base, s, n), Nested(p, base, s1, n - 1)) else Nested(p, base, s, n).out == Thrown(s1, ip)
    ensures p.interp(s) == Drives(s1, t) && p.step(t, 0, s1) == Returned(s2) ==> Same(Nested(p, base, s, n), Nested(p, base, s2, n - 2))
    ensures p.interp(s) == Drives(s1, t) && p.step(t, 0, s1) == Threw(s2, ip) && (p.ebp(s2) != p.ebp(s1) || p.resume(t, ip).None?) ==>
      if p.esp(s2) <= base then Same(Nested(p, base, s, n), Nested(p, base, s2, n - 2)) else Nested(p, base, s, n).out == Thrown(s2, ip)
    ensures p.interp(s) == Ended(s1) ==> Nested(p, base, s, n).out == Done(s1)
  {
    hide Eval, Nested, Catch;
    NestedStep(p, base, s, n);
    EvalStep(p, t, 0, p.ebp(s1), s1, n - 1, 0);
    CatchStep(p, t, p.ebp(s1), s2, ip, n - 2, 0);
  }
}
