/** drive() (web/mvm.js:1349-1392): translated functions run without recursion,
    their continuations in three parallel arrays that nested drivers share.
    It computes what plain recursive calling computes, with as many
    continuations as there are pending callers, and leaves the arrays of the
    drivers below it alone, however it ends. */
module Driver {
  import opened Results

  /** What a call f(vm, L) of a translated function comes back with.  The
      callee's frame is already in place when it wants a call.  In the middle
      of it, it may run another function to completion: by callFn, which drives
      t if it is translated (checkedSlow, callLisp, 696-712, 1336-1342), or by a
      plain run() (a stand-in).  Then it goes on at the place `on`, or returns. */
  datatype Outcome<S> =
    | Returned(s: S)                       // -1
    | Called(s: S, t: int, l: nat)         // t * 2, resumeL = l
    | Tailed(s: S, t: int)                 // t * 2 + 1
    | Threw(s: S, ip: int)                 // LongJmp
    | Inside(s: S, callee: Option<int>, on: Option<nat>)    // a nested activation

  /** A stretch of interpreted code, up to the next call of a translated function. */
  datatype Stretch<S> = Ended(s: S) | Drives(s: S, t: int) | Jumped(s: S, ip: int)

  /** The translated functions, the interpreter between their calls, which
      functions are translated, RES, and the frame and stack pointers. */
  datatype Program<!S> = Program(step: (int, nat, S) -> Outcome<S>, interp: S -> Stretch<S>, compiled: (int, S) -> bool,
                                 resume: (int, int) -> Option<nat>, ebp: S -> int, esp: S -> int)

  datatype Out<S> =
    | Done(s: S)
    | Thrown(s: S, ip: int)                // a LongJmp that a caller may catch
    | Escaped(s: S, ip: int)               // one out of an unguarded run(): no caller in this driver sees it
    | Timeout

  /** The result, the fuel left, and the most continuations that were pending. */
  datatype Result<S> = Result(out: Out<S>, left: nat, high: nat) {
    function Raise(h: nat): Result<S> {
      this.(high := if h > high then h else high)
    }
  }

  // ---- recursive calling ------------------------------------------------------------

  /** Run f from label l in the frame e, k callers pending. */
  function Eval<S>(p: Program<S>, f: int, l: nat, e: int, s: S, n: nat, k: nat): (r: Result<S>)
    ensures r.left <= n && r.high >= k
    decreases n, 1
  {
    if n == 0 then Result(Timeout, 0, k)
    else
      match p.step(f, l, s)
      case Returned(s1) => Result(Done(s1), n - 1, k)
      case Called(s1, t, l1) => After(p, f, l1, e, k, Enter(p, t, s1, n - 1, k + 1))
      case Tailed(s1, t) => Enter(p, t, s1, n - 1, k)
      case Threw(s1, ip) => Catch(p, f, e, s1, ip, n - 1, k)
      case Inside(s1, t, on) => Resume(p, f, e, k, on, Whole(p, t, s1, n - 1))
  }

  /** callFn, or run(): a nested activation, driven or interpreted.  Whatever
      exception leaves it, the function it is inside of may catch. */
  function Whole<S>(p: Program<S>, t: Option<int>, s: S, n: nat): (r: Result<S>)
    ensures r.left <= n && !r.out.Escaped?
    decreases n, 2
  {
    if t.Some? && p.compiled(t.value, s) then
      var r := Eval(p, t.value, 0, p.ebp(s), s, n, 0);
      r.(out := match r.out case Escaped(s1, ip) => Thrown(s1, ip) case _ => r.out)
    else Nested(p, p.esp(s), s, n)
  }

  /** The nested activation has come back with r. */
  function Resume<S>(p: Program<S>, f: int, e: int, k: nat, on: Option<nat>, r: Result<S>): (r': Result<S>)
    ensures r'.left <= r.left && r'.high >= k
    decreases r.left, 3
  {
    match r.out
    case Done(s) => (
      match on
      case None => Result(Done(s), r.left, k)
      case Some(l) => Eval(p, f, l, e, s, r.left, k)
    )
    case Thrown(s, ip) => Catch(p, f, e, s, ip, r.left, k)
    case _ => Result(Timeout, r.left, k)
  }

  /** Call t, whose frame is in place. */
  function Enter<S>(p: Program<S>, t: int, s: S, n: nat, k: nat): (r: Result<S>)
    ensures r.left <= n && r.high >= k
    decreases n, 2
  {
    if p.compiled(t, s) then Eval(p, t, 0, p.ebp(s), s, n, k)
    else
      var r := Nested(p, p.esp(s), s, n);
      Result(match r.out case Thrown(s1, ip) => Escaped(s1, ip) case _ => r.out, r.left, k)
  }

  /** A call has come back with r: go on, or see whether its exception is for here. */
  function After<S>(p: Program<S>, f: int, l: nat, e: int, k: nat, r: Result<S>): (r': Result<S>)
    ensures r'.left <= r.left && r'.high >= r.high
    decreases r.left, 3
  {
    match r.out
    case Done(s) => Eval(p, f, l, e, s, r.left, k).Raise(r.high)
    case Thrown(s, ip) => Catch(p, f, e, s, ip, r.left, k).Raise(r.high)
    case _ => r
  }

  /** catch (e): resume here if the longjmp restored this frame. */
  function Catch<S>(p: Program<S>, f: int, e: int, s: S, ip: int, n: nat, k: nat): (r: Result<S>)
    ensures r.left <= n && r.high >= k
    decreases n, 2
  {
    if p.ebp(s) == e && p.resume(f, ip).Some? then Eval(p, f, p.resume(f, ip).value, e, s, n, k)
    else Result(Thrown(s, ip), n, k)
  }

  /** run(): interpreted code, driving the translated functions it calls. */
  function Nested<S>(p: Program<S>, base: int, s: S, n: nat): (r: Result<S>)
    ensures r.left <= n && !r.out.Escaped?
    decreases n, 0
  {
    if n == 0 then Result(Timeout, 0, 0)
    else
      match p.interp(s)
      case Ended(s1) => Result(Done(s1), n - 1, 0)
      case Jumped(s1, ip) => if p.esp(s1) <= base then Nested(p, base, s1, n - 1) else Result(Thrown(s1, ip), n - 1, 0)
      case Drives(s1, t) =>
        var r := Eval(p, t, 0, p.ebp(s1), s1, n - 1, 0);
        match r.out
        case Done(s2) => Nested(p, base, s2, r.left)
        case Timeout => Result(Timeout, r.left, 0)
        case _ => if p.esp(r.out.s) <= base then Nested(p, base, r.out.s, r.left) else Result(Thrown(r.out.s, r.out.ip), r.left, 0)
  }

  /** What f(vm, L) came back with: a result or a call. */
  datatype Reply<S> = Back(out: Out<S>) | Wants(s: S, t: int, l: Option<nat>)

  function Replied<S>(p: Program<S>, f: int, e: int, k: nat, r: Reply<S>, n: nat): Result<S> {
    match r
    case Wants(s, t, None) => Enter(p, t, s, n, k)
    case Wants(s, t, Some(l)) => After(p, f, l, e, k, Enter(p, t, s, n, k + 1))
    case Back(Thrown(s, ip)) => Catch(p, f, e, s, ip, n, k)
    case Back(out) => Result(out, n, k)
  }

  /** However long a chain of tail calls is, nothing is ever pending. */
  lemma {:induction false} TailsKeepNothing<S(!new)>(p: Program<S>, f: int, l: nat, e: int, s: S, n: nat, k: nat)
    requires forall g, m, t :: !p.step(g, m, t).Called?
    ensures Eval(p, f, l, e, s, n, k).high == k
    decreases n
  {
    hide Eval, Enter, Catch, Nested, Whole;
    EvalStep(p, f, l, e, s, n, k);
    if n > 0 {
      match p.step(f, l, s)
      case Tailed(s1, t) =>
        EnterStep(p, t, s1, n - 1, k);
        if p.compiled(t, s1) { TailsKeepNothing(p, t, 0, p.ebp(s1), s1, n - 1, k); }
      case Threw(s1, ip) =>
        CatchStep(p, f, e, s1, ip, n - 1, k);
        if p.resume(f, ip).Some? { TailsKeepNothing(p, f, p.resume(f, ip).value, e, s1, n - 1, k); }
      case Inside(s1, t, on) =>
        var r := Whole(p, t, s1, n - 1);
        if r.out.Thrown? {
          CatchStep(p, f, e, r.out.s, r.out.ip, r.left, k);
          if p.resume(f, r.out.ip).Some? { TailsKeepNothing(p, f, p.resume(f, r.out.ip).value, e, r.out.s, r.left, k); }
        } else if r.out.Done? && on.Some? {
          TailsKeepNothing(p, f, on.value, e, r.out.s, r.left, k);
        }
      case _ =>
    }
  }

  // ---- pending callers ----------------------------------------------------------------

  datatype Pending = Pending(f: int, l: nat, e: int)

  /** What becomes of r when it comes back to the pending callers. */
  function Unwind<S>(p: Program<S>, c: seq<Pending>, r: Result<S>): Result<S>
    decreases |c|
  {
    if c == [] then r
    else
      var top := c[|c| - 1];
      Unwind(p, c[..|c| - 1], After(p, top.f, top.l, top.e, |c| - 1, r))
  }

  /** Out of an unguarded run(), or out of fuel: no caller is resumed. */
  lemma {:induction false} UnwindStops<S>(p: Program<S>, c: seq<Pending>, r: Result<S>)
    requires r.out.Escaped? || r.out.Timeout?
    ensures Unwind(p, c, r) == r
    decreases |c|
  {
    if c != [] {
      UnwindStops(p, c[..|c| - 1], r);
    }
  }

  /** A pending caller that the exception is for. */
  predicate Matches<S>(p: Program<S>, c: Pending, s: S, ip: int) {
    p.ebp(s) == c.e && p.resume(c.f, ip).Some?
  }

  /** A longjmp resumes exactly the innermost pending caller whose frame it
      restored, at the label recorded for its ip, and drops those above it. */
  lemma {:induction false} UnwindFinds<S>(p: Program<S>, c: seq<Pending>, s: S, ip: int, n: nat, h: nat, i: nat)
    requires h >= |c| && i < |c| && Matches(p, c[i], s, ip) && forall j :: i < j < |c| ==> !Matches(p, c[j], s, ip)
    ensures Unwind(p, c, Result(Thrown(s, ip), n, h)) ==
            Unwind(p, c[..i], Eval(p, c[i].f, p.resume(c[i].f, ip).value, c[i].e, s, n, i).Raise(h))
    decreases |c|
  {
    var top := c[|c| - 1];
    if i < |c| - 1 {
      assert c[..|c| - 1][..i] == c[..i];
      assert After(p, top.f, top.l, top.e, |c| - 1, Result(Thrown(s, ip), n, h)) == Result(Thrown(s, ip), n, h);
      UnwindFinds(p, c[..|c| - 1], s, ip, n, h, i);
    } else {
      CatchStep(p, top.f, top.e, s, ip, n, i);
      assert After(p, top.f, top.l, top.e, i, Result(Thrown(s, ip), n, h)) == Catch(p, top.f, top.e, s, ip, n, i).Raise(h);
    }
  }

  /** Without one, it leaves the driver with all of them dropped. */
  lemma {:induction false} UnwindRethrows<S>(p: Program<S>, c: seq<Pending>, s: S, ip: int, n: nat, h: nat)
    requires h >= |c| && forall j :: 0 <= j < |c| ==> !Matches(p, c[j], s, ip)
    ensures Unwind(p, c, Result(Thrown(s, ip), n, h)) == Result(Thrown(s, ip), n, h)
    decreases |c|
  {
    if c != [] {
      var top := c[|c| - 1];
      assert After(p, top.f, top.l, top.e, |c| - 1, Result(Thrown(s, ip), n, h)) == Result(Thrown(s, ip), n, h);
      UnwindRethrows(p, c[..|c| - 1], s, ip, n, h);
    }
  }

  /** A caller that gets a value goes on with it. */
  lemma UnwindPop<S>(p: Program<S>, c: seq<Pending>, s: S, n: nat, h: nat)
    requires c != [] && h >= |c|
    ensures var top := c[|c| - 1];
      Unwind(p, c, Result(Done(s), n, h)) == Unwind(p, c[..|c| - 1], Eval(p, top.f, top.l, top.e, s, n, |c| - 1).Raise(h))
  {
    hide Eval;
  }

  /** A call adds its caller. */
  lemma UnwindPush<S>(p: Program<S>, c: seq<Pending>, top: Pending, r: Result<S>, h: nat)
    requires r.high >= |c| + 1
    ensures Unwind(p, c, After(p, top.f, top.l, top.e, |c|, r).Raise(h)) == Unwind(p, c + [top], r.Raise(h))
    ensures h <= |c| + 1 ==> r.Raise(h) == r.Raise(|c| + 1)
  {
    var c1 := c + [top];
    assert c1[..|c1| - 1] == c;
    hide Eval, Catch;
    assert After(p, top.f, top.l, top.e, |c|, r).Raise(h) == After(p, top.f, top.l, top.e, |c|, r.Raise(h));
  }

  /** One call of f(vm, L), spelled out. */
  lemma EvalStep<S>(p: Program<S>, f: int, l: nat, e: int, s: S, n: nat, k: nat)
    ensures n == 0 ==> Eval(p, f, l, e, s, n, k) == Result(Timeout, 0, k)
    ensures n > 0 ==>
      Eval(p, f, l, e, s, n, k) ==
        match p.step(f, l, s)
        case Returned(s1) => Result(Done(s1), n - 1, k)
        case Called(s1, t, l1) => After(p, f, l1, e, k, Enter(p, t, s1, n - 1, k + 1))
        case Tailed(s1, t) => Enter(p, t, s1, n - 1, k)
        case Threw(s1, ip) => Catch(p, f, e, s1, ip, n - 1, k)
        case Inside(s1, t, on) => Resume(p, f, e, k, on, Whole(p, t, s1, n - 1))
  {
    hide Enter, After, Catch, Nested, Whole, Resume;
  }

  // ---- the driver ------------------------------------------------------------------------

  class Machine<!S> {
    var conts: seq<Pending>            // contF, contL, contE, index by index
    var contDepth: nat

    ghost predicate Valid()
      reads this
    {
      contDepth <= |conts|
    }

    /** Below depth b nothing has changed. */
    ghost predicate Kept(b: nat, was: seq<Pending>)
      reads this`conts
    {
      b <= |was| <= |conts| && conts[..b] == was[..b]
    }

    lemma KeptAll(b: nat)
      requires b <= |conts|
      ensures Kept(b, conts)
    {
    }

    lemma KeptParts(b: nat, was: seq<Pending>)
      requires Kept(b, was)
      ensures b <= |was| <= |conts| && conts[..b] == was[..b]
    {
    }

    lemma KeptAgain(b: nat, n: nat, was: seq<Pending>, first: seq<Pending>)
      requires Kept(n, was) && b <= n && b <= |first| <= |was| && was[..b] == first[..b]
      ensures Kept(b, first)
    {
      PrefixKept(conts, was, first, b, n);
    }

    method PushCont(d: nat, c: Pending)
      requires d <= |conts|
      modifies `conts
      ensures d < |conts| && |conts| >= old(|conts|) && conts[..d + 1] == old(conts[..d]) + [c]
    {
      if d >= |conts| { conts := conts + [Pending(0, 0, 0)]; }
      conts := conts[d := c];
    }

    /** The innermost continuation that an exception is for. */
    method Search(p: Program<S>, base: nat, top: nat, s: S, ip: int) returns (found: bool, d: nat)
      requires base <= top <= |conts|
      ensures base <= d <= top && (!found ==> d == base)
      ensures found ==> d < top && Matches(p, conts[d], s, ip)
      ensures forall j :: (if found then d + 1 else base) <= j < top ==> !Matches(p, conts[j], s, ip)
    {
      found, d := false, top;
      while !found && d > base
        invariant base <= d <= top && (found ==> d < top && Matches(p, conts[d], s, ip))
        invariant forall j :: (if found then d + 1 else d) <= j < top ==> !Matches(p, conts[j], s, ip)
      {
        d := d - 1;
        if conts[d].e == p.ebp(s) && p.resume(conts[d].f, ip).Some? { found := true; }
      }
    }

    /** Call f(vm, L). */
    method Invoke(p: Program<S>, f: int, l: nat, s: S, fuel: nat) returns (r: Reply<S>, n: nat)
      requires Valid() && fuel > 0
      modifies this
      ensures n < fuel && (r.Back? ==> !r.out.Escaped?)
      ensures forall e, k: nat :: Eval(p, f, l, e, s, fuel, k) == Replied(p, f, e, k, r, n)
      ensures Valid() && contDepth == old(contDepth) && Kept(contDepth, old(conts))
      decreases fuel, 0
    {
      hide Eval, Enter, Catch, After, Nested, Whole, Kept;
      KeptAll(contDepth);
      n := fuel - 1;
      match p.step(f, l, s) {
        case Returned(s1) => r := Back(Done(s1));
        case Threw(s1, ip) => r := Back(Thrown(s1, ip));
        case Tailed(s1, t) => r := Wants(s1, t, None);
        case Called(s1, t, l1) => r := Wants(s1, t, Some(l1));
        case Inside(s1, t, on) =>
          var out;
          out, n := CallFn(p, t, s1, n);
          r := Back(out);
          if out.Done? && on.Some? {
            ghost var was := conts;
            KeptParts(contDepth, old(conts));
            r, n := GoOn(p, f, on.value, out.s, n);
            KeptAgain(contDepth, contDepth, was, old(conts));
          }
      }
      forall e, k: nat
        ensures Eval(p, f, l, e, s, fuel, k) == Replied(p, f, e, k, r, n)
      {
        EvalStep(p, f, l, e, s, fuel, k);
      }
    }

    /** The rest of f, from the place where it goes on. */
    method GoOn(p: Program<S>, f: int, l: nat, s: S, fuel: nat) returns (r: Reply<S>, n: nat)
      requires Valid()
      modifies this
      ensures n <= fuel && (r.Back? ==> !r.out.Escaped?)
      ensures forall e, k: nat :: Eval(p, f, l, e, s, fuel, k) == Replied(p, f, e, k, r, n)
      ensures Valid() && contDepth == old(contDepth) && Kept(contDepth, old(conts))
      decreases fuel, 1
    {
      hide Eval, Enter, Catch, After, Nested, Whole, Kept;
      if fuel == 0 {
        KeptAll(contDepth);
        forall e, k: nat
          ensures Eval(p, f, l, e, s, 0, k) == Result(Timeout, 0, k)
        {
          EvalStep(p, f, l, e, s, 0, k);
        }
        return Back(Timeout), 0;
      }
      r, n := Invoke(p, f, l, s, fuel);
    }

    /** callFn(t), or run() (1336-1342). */
    method CallFn(p: Program<S>, t: Option<int>, s: S, fuel: nat) returns (out: Out<S>, left: nat)
      requires Valid()
      modifies this
      ensures out == Whole(p, t, s, fuel).out && left == Whole(p, t, s, fuel).left && left <= fuel && !out.Escaped?
      ensures Valid() && contDepth == old(contDepth) && Kept(contDepth, old(conts))
      decreases fuel, 5
    {
      hide Eval, Nested, Kept;
      if t.Some? && p.compiled(t.value, s) {
        ghost var high;
        out, left, high := Drive(p, t.value, s, fuel);
        if out.Escaped? { out := Thrown(out.s, out.ip); }
      } else {
        out, left := RunNested(p, s, fuel);
      }
    }

    /** Results of the pending callers above base, with r coming back to them. */
    ghost function Ahead(p: Program<S>, base: nat, d: nat, r: Result<S>, high: nat): Result<S>
      requires base <= d <= |conts|
      reads this`conts
    {
      Unwind(p, conts[base..d], r.Raise(high))
    }

    /** The running function wants a call of t: keep its continuation, unless
        the call is a tail call, and start t; an interpreted callee is run. */
    method Request(p: Program<S>, base: nat, d0: nat, f: int, e: int, r: Reply<S>, n0: nat, ghost high0: nat)
        returns (out: Option<Out<S>>, d: nat, n: nat, ghost high: nat)
      requires Valid() && base <= d0 <= contDepth && d0 - base <= high0 && r.Wants?
      modifies this
      ensures Valid() && base <= d <= contDepth && d - base <= high && Kept(base, old(conts)) && n <= n0
      ensures out.None? ==>
        p.compiled(r.t, r.s) && n == n0
        && Ahead(p, base, d, Eval(p, r.t, 0, p.ebp(r.s), r.s, n, d - base), high) == old(Ahead(p, base, d0, Replied(p, f, e, d0 - base, r, n0), high0))
      ensures out.Some? ==>
        var back := Result(out.value, n, high);
        (if out.value.Done? then Unwind(p, conts[base..d], back) else back) == old(Ahead(p, base, d0, Replied(p, f, e, d0 - base, r, n0), high0))
      decreases n0, 3
    {
      hide Unwind, Eval, Enter, Catch, After, Nested;
      ghost var c, was := conts[base..d0], conts;
      d, n, high := d0, n0, high0;
      if r.l.Some? {
        var top := Pending(f, r.l.value, e);
        PushCont(d, top);
        SlicePush(conts, was, base, d, top);
        UnwindPush(p, c, top, Enter(p, r.t, r.s, n, |c| + 1), high);
        d, c := d + 1, c + [top];
        if high < |c| { high := |c|; }
      }
      contDepth := d;
      EnterStep(p, r.t, r.s, n, |c|);
      if p.compiled(r.t, r.s) { return None, d, n, high; }
      ghost var mid := conts;
      var o;
      o, n := RunNested(p, r.s, n0);
      SliceKept(conts, mid, base, d, d);
      PrefixKept(conts, mid, was, base, d);
      if o.Thrown? { o := Escaped(o.s, o.ip); }
      out := Some(o);
      if !o.Done? { UnwindStops(p, c, Result(o, n, high)); }
    }

    /** A longjmp has left the running function: who resumes? */
    method Rethrow(p: Program<S>, base: nat, d0: nat, f0: int, e0: int, s: S, ip: int, n: nat, ghost high: nat)
        returns (found: bool, d: nat, f: int, l: nat, e: int)
      requires Valid() && base <= d0 <= contDepth && d0 - base <= high
      ensures base <= d <= d0
      ensures found ==> Ahead(p, base, d, Eval(p, f, l, e, s, n, d - base), high) == Ahead(p, base, d0, Catch(p, f0, e0, s, ip, n, d0 - base), high)
      ensures !found ==> Result(Thrown(s, ip), n, high) == Ahead(p, base, d0, Catch(p, f0, e0, s, ip, n, d0 - base), high)
    {
      hide Unwind, Eval, Enter, After, Nested, Catch;
      ghost var c := conts[base..d0];
      CatchStep(p, f0, e0, s, ip, n, |c|);
      d, f, l, e := d0, f0, 0, e0;
      if e == p.ebp(s) && p.resume(f, ip).Some? {
        return true, d, f, p.resume(f, ip).value, e;
      }
      found, d := Search(p, base, d0, s, ip);
      assert forall j :: 0 <= j < |c| ==> c[j] == conts[base + j];
      if found {
        f, l, e := conts[d].f, p.resume(conts[d].f, ip).value, conts[d].e;
        UnwindFinds(p, c, s, ip, n, high, d - base);
        SliceTake(conts, base, d0, d);
      } else {
        UnwindRethrows(p, c, s, ip, n, high);
      }
    }

    /** A value comes back: the driver is done, or the caller goes on. */
    method Return(p: Program<S>, base: nat, d0: nat, s: S, n: nat, ghost high: nat) returns (done: bool, d: nat, f: int, l: nat, e: int)
      requires Valid() && base <= d0 <= contDepth && d0 - base <= high
      ensures base <= d <= d0 && (done <==> d0 == base)
      ensures done ==> Ahead(p, base, d0, Result(Done(s), n, high), high) == Result(Done(s), n, high)
      ensures !done ==> Ahead(p, base, d, Eval(p, f, l, e, s, n, d - base), high) == Ahead(p, base, d0, Result(Done(s), n, high), high)
    {
      hide Unwind, Eval, Enter, Catch, After, Nested;
      if d0 == base {
        assert conts[base..d0] == [];
        UnwindNone(p, Result(Done(s), n, high));
        return true, d0, 0, 0, 0;
      }
      UnwindPop(p, conts[base..d0], s, n, high);
      SliceTake(conts, base, d0, d0 - 1);
      d := d0 - 1;
      done, f, l, e := false, conts[d].f, conts[d].l, conts[d].e;
    }

    /** One call f(vm, L) and what becomes of it. */
    method Round(p: Program<S>, base: nat, d0: nat, f0: int, l0: nat, e0: int, s0: S, n0: nat, ghost high0: nat, ghost goal: Result<S>)
        returns (out: Option<Out<S>>, d: nat, f: int, l: nat, e: int, s: S, n: nat, ghost high: nat)
      requires Valid() && base <= d0 <= contDepth && d0 - base <= high0 && n0 > 0
      requires Ahead(p, base, d0, Eval(p, f0, l0, e0, s0, n0, d0 - base), high0) == goal
      modifies this
      ensures Valid() && base <= d <= contDepth && d - base <= high && n < n0 && Kept(base, old(conts))
      ensures out.None? ==> Ahead(p, base, d, Eval(p, f, l, e, s, n, d - base), high) == goal
      ensures out.Some? ==> Result(out.value, n, high) == goal
      decreases n0, 2
    {
      hide Unwind, Eval, Enter, Catch, After, Nested, Kept, Whole, Resume, Matches;
      ghost var was := conts;
      var r;
      d, f, l, e, s, high := d0, f0, l0, e0, s0, high0;
      r, n := Invoke(p, f, l, s, n0);
      KeptParts(contDepth, was);
      SliceKept(conts, was, base, d, contDepth);
      KeptAgain(base, contDepth, was, was);
      KeptParts(base, was);
      if r.Wants? {
        ghost var mid := conts;
        out, d, n, high := Request(p, base, d, f, e, r, n, high);
        KeptAgain(base, base, mid, was);
        f, l, e, s := r.t, 0, p.ebp(r.s), r.s;
        if out.None? || !out.value.Done? { return; }
        r := Back(out.value);
      } else if r.out.Thrown? {
        var found;
        s := r.out.s;
        found, d, f, l, e := Rethrow(p, base, d, f, e, s, r.out.ip, n, high);
        out := if found then None else Some(r.out);
        return;
      } else if r.out.Timeout? {
        UnwindStops(p, conts[base..d], Result(Timeout, n, high));
        out := Some(Timeout);
        return;
      }
      var done;
      s := r.out.s;
      done, d, f, l, e := Return(p, base, d, s, n, high);
      out := if done then Some(Done(s)) else None;
    }

    method Drive(p: Program<S>, f0: int, s0: S, fuel: nat) returns (out: Out<S>, left: nat, ghost high: nat)
      requires Valid()
      modifies this
      ensures Result(out, left, high) == Eval(p, f0, 0, p.ebp(s0), s0, fuel, 0)
      ensures Valid() && contDepth == old(contDepth) && Kept(contDepth, old(conts))
      decreases fuel, 4
    {
      hide Unwind, Eval, Enter, Catch, After, Nested, Kept, Whole, Resume, Matches;
      var base := contDepth;
      var d: nat, f, l: nat, e, s, n: nat := base, f0, 0, p.ebp(s0), s0, fuel;
      high := 0;
      ghost var goal := Eval(p, f0, 0, p.ebp(s0), s0, fuel, 0);
      UnwindNone(p, goal);
      assert conts[base..d] == [];
      KeptAll(base);
      while n > 0
        invariant Valid() && base <= d <= contDepth && n <= fuel && Kept(base, old(conts)) && d - base <= high
        invariant Ahead(p, base, d, Eval(p, f, l, e, s, n, d - base), high) == goal
      {
        ghost var was := conts;
        KeptParts(base, old(conts));
        var o;
        o, d, f, l, e, s, n, high := Round(p, base, d, f, l, e, s, n, high, goal);
        KeptAgain(base, base, was, old(conts));
        if o.Some? {
          contDepth := base;
          return o.value, n, high;
        }
      }
      EvalStep(p, f, l, e, s, 0, d - base);
      UnwindStops(p, conts[base..d], Result(Timeout, 0, high));
      contDepth := base;
      out, left := Timeout, 0;
    }

    /** run(), nested in a driver: its own drivers work above contDepth. */
    method RunNested(p: Program<S>, s0: S, fuel: nat) returns (out: Out<S>, left: nat)
      requires Valid()
      modifies this
      ensures out == Nested(p, p.esp(s0), s0, fuel).out && left == Nested(p, p.esp(s0), s0, fuel).left && left <= fuel
      ensures Valid() && contDepth == old(contDepth) && Kept(contDepth, old(conts))
      decreases fuel, 2
    {
      hide Eval, Enter, Catch, After, Nested;
      var base, s, n: nat := p.esp(s0), s0, fuel;
      ghost var goal := Nested(p, base, s0, fuel);
      while true
        invariant n <= fuel && Valid() && contDepth == old(contDepth) && Kept(contDepth, old(conts))
        invariant Nested(p, base, s, n) == goal
        decreases n
      {
        NestedStep(p, base, s, n);
        if n == 0 { return Timeout, 0; }
        n := n - 1;
        match p.interp(s) {
          case Ended(s1) => return Done(s1), n;
          case Jumped(s1, ip) =>
            if p.esp(s1) > base { return Thrown(s1, ip), n; }
            s := s1;
          case Drives(s1, t) =>
            ghost var high;
            out, n, high := Drive(p, t, s1, n);
            match out {
              case Done(s2) => s := s2;
              case Timeout => return Timeout, n;
              case _ =>
                if p.esp(out.s) > base { return Thrown(out.s, out.ip), n; }
                s := out.s;
            }
        }
      }
    }
  }

  lemma SliceKept<T>(a: seq<T>, b: seq<T>, lo: nat, hi: nat, n: nat)
    requires lo <= hi <= n <= |a| && n <= |b| && a[..n] == b[..n]
    ensures a[lo..hi] == b[lo..hi]
  {
    assert a[lo..hi] == a[..n][lo..hi] && b[lo..hi] == b[..n][lo..hi];
  }

  lemma PrefixKept<T>(a: seq<T>, b: seq<T>, c: seq<T>, lo: nat, n: nat)
    requires lo <= n <= |a| && n <= |b| && lo <= |c| && a[..n] == b[..n] && b[..lo] == c[..lo]
    ensures a[..lo] == c[..lo]
  {
    assert a[..lo] == a[..n][..lo] && b[..lo] == b[..n][..lo];
  }

  lemma SliceTake<T>(a: seq<T>, lo: nat, hi: nat, m: nat)
    requires lo <= m <= hi <= |a|
    ensures a[lo..m] == a[lo..hi][..m - lo]
  {
  }

  lemma SlicePush<T>(a: seq<T>, b: seq<T>, lo: nat, hi: nat, x: T)
    requires lo <= hi < |a| && hi <= |b| && a[..hi + 1] == b[..hi] + [x]
    ensures a[lo..hi + 1] == b[lo..hi] + [x] && a[..hi] == b[..hi]
  {
    assert a[lo..hi + 1] == a[..hi + 1][lo..];
    assert a[..hi] == a[..hi + 1][..hi];
  }

  lemma UnwindNone<S>(p: Program<S>, r: Result<S>)
    ensures Unwind(p, [], r) == r
  {
  }

  lemma EnterStep<S>(p: Program<S>, t: int, s: S, n: nat, k: nat)
    ensures Enter(p, t, s, n, k) ==
      if p.compiled(t, s) then Eval(p, t, 0, p.ebp(s), s, n, k)
      else var r := Nested(p, p.esp(s), s, n); Result(match r.out case Thrown(s1, ip) => Escaped(s1, ip) case _ => r.out, r.left, k)
  {
    hide Eval, Nested;
  }

  lemma CatchStep<S>(p: Program<S>, f: int, e: int, s: S, ip: int, n: nat, k: nat)
    ensures Catch(p, f, e, s, ip, n, k) ==
      if p.ebp(s) == e && p.resume(f, ip).Some? then Eval(p, f, p.resume(f, ip).value, e, s, n, k) else Result(Thrown(s, ip), n, k)
  {
    hide Eval;
  }

  lemma NestedStep<S>(p: Program<S>, base: int, s: S, n: nat)
    ensures n == 0 ==> Nested(p, base, s, n) == Result(Timeout, 0, 0)
    ensures n > 0 ==>
      Nested(p, base, s, n) ==
        match p.interp(s)
        case Ended(s1) => Result(Done(s1), n - 1, 0)
        case Jumped(s1, ip) => if p.esp(s1) <= base then Nested(p, base, s1, n - 1) else Result(Thrown(s1, ip), n - 1, 0)
        case Drives(s1, t) =>
          var r := Eval(p, t, 0, p.ebp(s1), s1, n - 1, 0);
          match r.out
          case Done(s2) => Nested(p, base, s2, r.left)
          case Timeout => Result(Timeout, r.left, 0)
          case _ => if p.esp(r.out.s) <= base then Nested(p, base, r.out.s, r.left) else Result(Thrown(r.out.s, r.out.ip), r.left, 0)
  {
    hide Eval;
  }
}
