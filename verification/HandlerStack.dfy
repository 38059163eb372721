/** The handler stack of setjmp and longjmp in BSS memory: one jump buffer, 64
    saved buffers below it, a depth and a count of pushes that found it full
    (web/mvm.js:65-68, 713-755).  It stands for a stack of handlers without a
    bound. */
module HandlerStack {
  import opened Words
  import opened Isa
  import opened Results
  import Frames

  // Word indices into memory from VBASE.
  const JMPBUF := 48                 // A_JMPBUF, 4 words
  const DEPTH := 128                 // A_HDEPTH
  const SAVED := 129                 // A_HSTACK, 64 buffers of 4 words
  const OVER := 420                  // A_HOVF
  const BSS := 16384                 // BSS_END

  datatype Buf = Buf(esp: int32, ebp: int32, ip: int32, v4: Word)

  function BufAt(m: seq<Word>, k: nat): Buf
    requires k + 4 <= |m|
  {
    Buf(m[k].lo, m[k + 1].lo, m[k + 2].lo, m[k + 3])
  }

  /** A buffer is armed when its stack pointer is not 0. */
  function Loaded(b: Buf): Option<Buf> {
    if b.esp == 0 then None else Some(b)
  }

  predicate Valid(m: seq<Word>) {
    |m| >= BSS && 0 <= m[DEPTH].lo <= HMAX
  }

  /** What the memory words stand for. */
  function View(m: seq<Word>): (r: Handlers<Buf>)
    requires Valid(m)
    ensures |r.saved| == m[DEPTH].lo && r.over == U32(m[OVER].lo)
  {
    Handlers(Loaded(BufAt(m, JMPBUF)),
             seq(m[DEPTH].lo, i requires 0 <= i < m[DEPTH].lo => Loaded(BufAt(m, SAVED + 4 * i))), U32(m[OVER].lo))
  }

  /** The home of V4 in the frame at ebp: a word of the stack region. */
  function HomeOfV4(ebp: int): int {
    (ebp - 0x1000_0008) / 8
  }

  /** It is the home of V4: the first word below ebp. */
  lemma HomeIs(fp: int)
    ensures HomeOfV4(Frames.AddressOf(fp)) == fp - Frames.Home(4) == fp - 1
  {
  }

  /** Where the words are. */
  lemma Addresses()
    ensures 0x1000_0000 + 8 * JMPBUF == 0x1000_0180 && 0x1000_0000 + 8 * DEPTH == 0x1000_0400
    ensures 0x1000_0000 + 8 * SAVED == 0x1000_0408 && 0x1000_0000 + 8 * OVER == 0x1000_0D20 && HMAX == 64
  {
  }

  /** The count of pushes that found the stack full is a 32-bit word. */
  function Wrapped<B>(s: Handlers<B>): Handlers<B> {
    s.(over := if s.over == 0x1_0000_0000 then 0 else s.over)
  }

  lemma CountUp(n: int32)
    ensures U32(ToInt32(n + 1)) == if U32(n) + 1 == 0x1_0000_0000 then 0 else U32(n) + 1
  {
  }

  lemma CountDown(n: int32)
    requires n != 0
    ensures U32(n) != 0 && U32(ToInt32(n - 1)) == U32(n) - 1
  {
  }

  predicate Outside(m: seq<Word>, m': seq<Word>) {
    |m| == |m'| && forall k :: 0 <= k < |m| && !(JMPBUF <= k < JMPBUF + 4) && !(DEPTH <= k < SAVED + 4 * HMAX) && k != OVER ==> m'[k] == m[k]
  }

  class Machine {
    const mem: array<Word>
    var esp: int32
    var ebp: int32
    var pc: int32
    var vr: Word

    ghost predicate Ok()
      reads this, mem
    {
      Valid(mem[..])
    }

    ghost function Stack(): Handlers<Buf>
      requires Ok()
      reads this, mem
    {
      View(mem[..])
    }

    /** The loop that copies the words of a buffer. */
    method CopyBuf(src: nat, dst: nat)
      requires src + 4 <= mem.Length && dst + 4 <= mem.Length && (src + 4 <= dst || dst + 4 <= src)
      modifies mem
      ensures forall k :: 0 <= k < mem.Length ==> mem[k] == if dst <= k < dst + 4 then old(mem[k - dst + src]) else old(mem[k])
    {
      for i := 0 to 4
        invariant forall k :: 0 <= k < mem.Length ==> mem[k] == if dst <= k < dst + i then old(mem[k - dst + src]) else old(mem[k])
      {
        mem[dst + i] := mem[src + i];
      }
    }

    method ClearBuf(dst: nat)
      requires dst + 4 <= mem.Length
      modifies mem
      ensures forall k :: 0 <= k < mem.Length ==> mem[k] == if dst <= k < dst + 4 then Word(0, 0) else old(mem[k])
    {
      for i := 0 to 4
        invariant forall k :: 0 <= k < mem.Length ==> mem[k] == if dst <= k < dst + i then Word(0, 0) else old(mem[k])
      {
        mem[dst + i] := Word(0, 0);
      }
    }

    /** True when the stack was full and the push was only counted. */
    method HandlerPush() returns (capped: bool)
      requires Ok()
      modifies mem
      ensures Ok() && Outside(old(mem[..]), mem[..])
      ensures capped <==> |old(Stack()).saved| == HMAX
      ensures Stack() == if capped then Wrapped(old(Stack()).(over := old(Stack()).over + 1))
                         else old(Stack()).(saved := old(Stack()).saved + [old(Stack()).cur])
      ensures BufAt(mem[..], JMPBUF) == old(BufAt(mem[..], JMPBUF))
      ensures !capped ==> mem[128].lo == old(mem[128].lo) + 1 && mem[129 + 4 * old(mem[128].lo)..133 + 4 * old(mem[128].lo)] == old(mem[48..52])
    {
      hide View, Outside, BufAt, ToInt32, Wrapped;
      var depth := mem[DEPTH].lo;
      ghost var m0 := mem[..];
      if depth >= HMAX {
        mem[OVER] := Word(ToInt32(mem[OVER].lo + 1), mem[OVER].hi);
        capped := true;
        Counted(m0, mem[..]);
      } else {
        CopyBuf(JMPBUF, SAVED + 4 * depth);
        mem[DEPTH] := Word(depth + 1, 0);
        capped := false;
        SameBuf(m0, JMPBUF, mem[..], SAVED + 4 * depth);
        Kept(m0, mem[..]);
      }
    }

    method HandlerPop()
      requires Ok()
      modifies mem
      ensures Ok() && Outside(old(mem[..]), mem[..]) && Stack() == old(Stack()).Drop()
    {
      ghost var m0 := mem[..];
      var depth := mem[DEPTH].lo;
      if mem[OVER].lo != 0 {
        CountDown(mem[OVER].lo);
        mem[OVER] := Word(ToInt32(mem[OVER].lo - 1), mem[OVER].hi);
        ViewKept(m0, mem[..], depth);
      } else if depth == 0 {
        ClearBuf(JMPBUF);
        ViewKept(m0, mem[..], depth);
      } else {
        mem[DEPTH] := Word(depth - 1, 0);
        CopyBuf(SAVED + 4 * (depth - 1), JMPBUF);
        ViewPopped(m0, mem[..], depth - 1);
      }
    }

    method Setjmp(resumePc: int32)
      requires Ok() && BSS <= HomeOfV4(ebp) < mem.Length && esp != 0
      modifies mem, `vr
      ensures Ok() && Outside(old(mem[..]), mem[..]) && vr == Nil()
      ensures Stack() == Wrapped(old(Stack()).Push(Buf(esp, ebp, resumePc, mem[HomeOfV4(ebp)])))
      ensures old(mem[128].lo) < 64 ==> mem[48] == Word(esp, 0) && mem[49] == Word(ebp, 0) && mem[50] == Word(resumePc, 0) && mem[51] == mem[HomeOfV4(ebp)]
      ensures old(mem[128].lo) < 64 ==> mem[128].lo == old(mem[128].lo) + 1 && mem[129 + 4 * old(mem[128].lo)..133 + 4 * old(mem[128].lo)] == old(mem[48..52])
    {
      var capped := HandlerPush();
      ghost var m1 := mem[..];
      if !capped {
        mem[JMPBUF] := Word(esp, 0);
        mem[JMPBUF + 1] := Word(ebp, 0);
        mem[JMPBUF + 2] := Word(resumePc, 0);
        mem[JMPBUF + 3] := mem[HomeOfV4(ebp)];
        ViewKept(m1, mem[..], mem[DEPTH].lo);
      }
      vr := Nil();
    }

    method ClearCount()
      requires Ok()
      modifies mem
      ensures Ok() && Outside(old(mem[..]), mem[..]) && Stack() == old(Stack()).(over := 0)
      ensures forall k :: JMPBUF <= k < JMPBUF + 4 ==> mem[k] == old(mem[k])
    {
      ghost var m0 := mem[..];
      mem[OVER] := Word(0, mem[OVER].hi);
      ViewKept(m0, mem[..], mem[DEPTH].lo);
    }

    /** False when no handler is armed; otherwise the throw is left to the caller. */
    method Longjmp() returns (ok: bool)
      requires Ok()
      requires Stack().cur.Some? ==> BSS <= HomeOfV4(Stack().cur.value.ebp) < mem.Length
      modifies this, mem
      ensures Ok() && (ok <==> old(Stack()).cur.Some?)
      ensures !ok ==> Outside(old(mem[..]), mem[..]) && Stack() == old(Stack()).(over := 0)
                      && esp == old(esp) && ebp == old(ebp) && pc == old(pc) && vr == old(vr)
      ensures ok ==>
        var h := old(Stack()).cur.value;
        && Stack() == old(Stack()).(over := 0).Drop() && vr == Tee()
        && esp == h.esp && ebp == h.ebp && pc == h.ip && mem[HomeOfV4(ebp)] == h.v4
        && Outside(old(mem[..])[HomeOfV4(ebp) := h.v4], mem[..])
    {
      ClearCount();
      var e, b, ip, v4 := mem[JMPBUF].lo, mem[JMPBUF + 1].lo, mem[JMPBUF + 2].lo, mem[JMPBUF + 3];
      if e == 0 { return false; }
      HandlerPop();
      ebp, esp, pc := b, e, ip;
      ghost var m1 := mem[..];
      mem[HomeOfV4(ebp)] := v4;
      ViewKept(m1, mem[..], mem[DEPTH].lo);
      vr := Tee();
      ok := true;
    }
  }

  /** Saved buffers whose words are the same are the same. */
  lemma ViewKept(m: seq<Word>, m': seq<Word>, n: nat)
    requires Valid(m) && Valid(m') && n <= m[DEPTH].lo && n <= m'[DEPTH].lo
    requires forall k :: SAVED <= k < SAVED + 4 * n ==> m'[k] == m[k]
    ensures View(m').saved[..n] == View(m).saved[..n]
    ensures m'[DEPTH].lo == n == m[DEPTH].lo ==> View(m').saved == View(m).saved
  {
    forall i | 0 <= i < n
      ensures BufAt(m', SAVED + 4 * i) == BufAt(m, SAVED + 4 * i)
    {
      assert forall k :: SAVED + 4 * i <= k < SAVED + 4 * i + 4 ==> m'[k] == m[k];
    }
  }

  lemma SameBuf(m: seq<Word>, k: nat, m': seq<Word>, k': nat)
    requires k + 4 <= |m| && k' + 4 <= |m'| && forall i :: k' <= i < k' + 4 ==> m'[i] == m[i - k' + k]
    ensures BufAt(m', k') == BufAt(m, k)
  {
  }

  lemma Counted(m: seq<Word>, m': seq<Word>)
    requires Valid(m) && m' == m[OVER := Word(ToInt32(m[OVER].lo + 1), m[OVER].hi)]
    ensures Valid(m') && Outside(m, m') && View(m') == Wrapped(View(m).(over := View(m).over + 1))
    ensures BufAt(m', JMPBUF) == BufAt(m, JMPBUF)
  {
    hide U32, ToInt32;
    CountUp(m[OVER].lo);
    ViewKept(m, m', m[DEPTH].lo);
  }

  lemma Kept(m: seq<Word>, m': seq<Word>)
    requires Valid(m) && m[DEPTH].lo < HMAX && |m'| == |m| && m'[DEPTH] == Word(m[DEPTH].lo + 1, 0)
    requires forall k :: 0 <= k < |m| && k != DEPTH && !(0 <= k - SAVED - 4 * m[DEPTH].lo < 4) ==> m'[k] == m[k]
    requires BufAt(m', SAVED + 4 * m[DEPTH].lo) == BufAt(m, JMPBUF)
    ensures Valid(m') && Outside(m, m') && BufAt(m', JMPBUF) == BufAt(m, JMPBUF)
    ensures View(m') == View(m).(saved := View(m).saved + [View(m).cur])
  {
    hide U32;
    var d := m[DEPTH].lo;
    ViewKept(m, m', d);
    ViewGrown(m', d);
    assert View(m).saved[..d] == View(m).saved;
  }

  lemma ViewGrown(m: seq<Word>, n: nat)
    requires Valid(m) && m[DEPTH].lo == n + 1
    ensures View(m).saved == View(m).saved[..n] + [Loaded(BufAt(m, SAVED + 4 * n))]
  {
  }

  /** The top saved buffer is in the jump buffer. */
  lemma ViewPopped(m: seq<Word>, m': seq<Word>, n: nat)
    requires Valid(m) && Valid(m') && m[DEPTH].lo == n + 1 && m'[DEPTH].lo == n && m[OVER].lo == 0 == m'[OVER].lo
    requires forall k :: SAVED <= k < SAVED + 4 * n ==> m'[k] == m[k]
    requires BufAt(m', JMPBUF) == BufAt(m, SAVED + 4 * n)
    ensures View(m') == View(m).Drop()
  {
    ViewKept(m, m', n);
    ViewGrown(m, n);
  }

  // ---- the unbounded stack -----------------------------------------------------------

  function Min(a: int, b: int): int { if a < b then a else b }

  /** What a stack of handlers looks like when only 64 are kept. */
  function Capped<B>(h: seq<B>): Handlers<B> {
    var n := Min(|h|, HMAX);
    Handlers(if n == 0 then None else Some(h[n - 1]),
             seq(n, i requires 0 <= i < n => if i == 0 then None else Some(h[i - 1])), |h| - n)
  }

  lemma CappedPush<B>(h: seq<B>, b: B)
    ensures Capped(h).Push(b) == Capped(h + [b])
  {
    assert Capped(h).Push(b).saved == Capped(h + [b]).saved;
  }

  lemma CappedDrop<B>(h: seq<B>)
    ensures Capped(h).Drop() == Capped(if h == [] then h else h[..|h| - 1])
  {
    if h != [] {
      assert Capped(h).Drop().saved == Capped(h[..|h| - 1]).saved;
    }
  }

  /** A longjmp takes the innermost handler that was kept and leaves the stack
      that was there before its setjmp. */
  lemma CappedJump<B>(h: seq<B>)
    ensures Capped(h).cur.Some? <==> h != []
    ensures h != [] ==>
      var n := Min(|h|, HMAX);
      Capped(h).cur == Some(h[n - 1]) && Capped(h).(over := 0).Drop() == Capped(h[..n - 1])
  {
    if h != [] {
      var n := Min(|h|, HMAX);
      assert Capped(h[..n]) == Capped(h).(over := 0);
      assert h[..n][..n - 1] == h[..n - 1];
      CappedDrop(h[..n]);
    }
  }

  /** The abstraction is exact: the bounded stack knows how many handlers there
      are, and the first 64 of them, and nothing else. */
  lemma CappedExact<B>(g: seq<B>, h: seq<B>)
    ensures Capped(g) == Capped(h) <==> |g| == |h| && g[..Min(|g|, HMAX)] == h[..Min(|h|, HMAX)]
  {
    var n := Min(|g|, HMAX);
    if |g| == |h| && g[..n] == h[..n] {
      assert forall i :: 0 <= i < n ==> g[i] == g[..n][i] == h[..n][i] == h[i];
      assert Capped(g).saved == Capped(h).saved;
    }
    if Capped(g) == Capped(h) {
      assert |Capped(g).saved| == n && |Capped(h).saved| == Min(|h|, HMAX);
      forall i | 0 <= i < n
        ensures g[i] == h[i]
      {
        if i < n - 1 {
          assert Capped(g).saved[i + 1] == Capped(h).saved[i + 1];
        }
      }
    }
  }

  /** The counter loses track of the stack it stands for only at the setjmp
      that has 2^32 handlers below it which were not kept. */
  lemma WrapExact<B>(h: seq<B>, b: B)
    requires |h| - HMAX < 0x1_0000_0000
    ensures Wrapped(Capped(h).Push(b)) == Capped(h + [b]) <==> |h| != HMAX + 0xFFFF_FFFF
  {
    CappedPush(h, b);
  }

  // ---- well-nested code ----------------------------------------------------------------

  /** Code that pops every handler it sets: nothing, or a setjmp, its body, the
      pop, and what follows. */
  datatype Nest<B> = Done | Guarded(h: B, body: Nest<B>, rest: Nest<B>)

  datatype Op<B> = Arm(h: B) | Disarm

  function Flatten<B>(n: Nest<B>): seq<Op<B>> {
    match n
    case Done => []
    case Guarded(h, body, rest) => [Arm(h)] + Flatten(body) + [Disarm] + Flatten(rest)
  }

  function Play<B>(s: Handlers<B>, ops: seq<Op<B>>): Handlers<B>
    decreases ops
  {
    if ops == [] then s
    else Play(match ops[0] case Arm(h) => s.Push(h) case Disarm => s.Drop(), ops[1..])
  }

  lemma {:induction false} PlayAppend<B>(s: Handlers<B>, a: seq<Op<B>>, b: seq<Op<B>>)
    ensures Play(s, a + b) == Play(Play(s, a), b)
    decreases a
  {
    if a == [] {
      assert a + b == b;
    } else {
      assert (a + b)[1..] == a[1..] + b;
      PlayAppend(match a[0] case Arm(h) => s.Push(h) case Disarm => s.Drop(), a[1..], b);
    }
  }

  /** Popping what was just pushed gives the state back, full or not. */
  lemma PushDrop<B>(s: Handlers<B>, h: B)
    requires |s.saved| < HMAX ==> s.over == 0
    ensures s.Push(h).Drop() == s && (|s.Push(h).saved| < HMAX ==> s.Push(h).over == 0)
  {
  }

  /** Well-nested code of any depth leaves the handlers as it found them. */
  lemma {:induction false} NestRestores<B>(s: Handlers<B>, n: Nest<B>)
    requires |s.saved| < HMAX ==> s.over == 0
    ensures Play(s, Flatten(n)) == s
    decreases n
  {
    match n
    case Done =>
    case Guarded(h, body, rest) =>
      PushDrop(s, h);
      NestRestores(s.Push(h), body);
      NestRestores(s, rest);
      var a := [Arm(h)] + Flatten(body);
      PlayAppend(s, a + [Disarm], Flatten(rest));
      PlayAppend(s, a, [Disarm]);
      PlayAppend(s, [Arm(h)], Flatten(body));
      assert Play(s, [Arm(h)]) == s.Push(h);
      assert Play(s.Push(h), [Disarm]) == s;
  }

  /** A longjmp in the middle of well-nested code, under handlers k set since,
      returns to the state before the setjmp of the innermost handler kept. */
  lemma JumpRestores<B>(h: seq<B>, b: B, k: seq<B>)
    requires |h| < HMAX && (k != [] ==> |h| + 1 == HMAX)
    ensures Capped(h + [b] + k).cur == Some(b) && Capped(h + [b] + k).(over := 0).Drop() == Capped(h)
  {
    var g := h + [b] + k;
    CappedJump(g);
    assert g[..|h|] == h;
  }
}
