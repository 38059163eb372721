/** Facts about the collector's plan that hold on values: images never overlap,
    to-space cannot run out, and two words are renamed alike exactly when they
    were alike. */
module PlanFacts {
  import opened Words
  import opened Heap

  function Range(lo: int, hi: int): set<int>
    decreases hi - lo
  {
    if lo >= hi then {} else Range(lo, hi - 1) + {hi - 1}
  }

  lemma {:induction false} RangeSize(lo: int, hi: int)
    requires lo <= hi
    ensures |Range(lo, hi)| == hi - lo
    ensures forall x :: lo <= x < hi <==> x in Range(lo, hi)
    decreases hi - lo
  {
    if lo < hi {
      RangeSize(lo, hi - 1);
    }
  }

  lemma {:induction false} DistinctSize(s: seq<int>)
    requires forall i, j :: 0 <= i < j < |s| ==> s[i] != s[j]
    ensures |set x | x in s| == |s|
  {
    if |s| > 0 {
      var t := s[..|s| - 1];
      DistinctSize(t);
      assert (set x | x in s) == (set x | x in t) + {s[|s| - 1]};
    }
  }

  lemma SubsetSize(a: set<int>, b: set<int>)
    requires a <= b
    ensures |a| <= |b|
  {
    assert b == a + (b - a);
  }

  /** Distinct numbers from a range are no more than the range is long. */
  lemma Pigeonhole(s: seq<int>, lo: int, hi: int)
    requires lo <= hi
    requires forall i :: 0 <= i < |s| ==> lo <= s[i] < hi
    requires forall i, j :: 0 <= i < j < |s| ==> s[i] != s[j]
    ensures |s| <= hi - lo
  {
    RangeSize(lo, hi);
    DistinctSize(s);
    SubsetSize((set x | x in s), Range(lo, hi));
  }

  /** No two words of to-space were copied from the same word. */
  lemma OriginsDistinct(s: Snap, p: Plan, i: int, j: int)
    requires s.Sized() && s.Collectable() && p.Ok(s)
    requires 0 <= i < j < |p.origin|
    ensures p.origin[i] != p.origin[j]
  {
    assert p.OwnerOk(s, i) && p.OwnerOk(s, j);
    var a, b := p.owner[i], p.owner[j];
    if a < b {
      assert a + s.ObjWords(a) <= b;
    } else if b < a {
      assert b + s.ObjWords(b) <= a;
    }
  }

  /** A word of an object that has not moved was not copied. */
  lemma OriginFresh(s: Snap, p: Plan, o: int, j: int)
    requires s.Sized() && s.Collectable() && p.Ok(s)
    requires s.Movable(o) && o !in p.fwd && 0 <= j < |p.origin|
    ensures !(o <= p.origin[j] < o + s.ObjWords(o))
  {
    assert p.OwnerOk(s, j);
    var a := p.owner[j];
    if a < o {
      assert a + s.ObjWords(a) <= o;
    } else {
      assert o + s.ObjWords(o) <= a;
    }
  }

  /** What has been copied plus one more object still fits in to-space. */
  lemma RoomForOne(s: Snap, p: Plan, o: int)
    requires s.Sized() && s.Collectable() && p.Ok(s)
    requires s.Movable(o) && o !in p.fwd
    ensures s.ts + |p.origin| + s.ObjWords(o) <= s.te
    ensures s.ObjWords(o) >= 2
  {
    var n := s.ObjWords(o);
    var all := p.origin + seq(n, k => o + k);
    forall i, j | 0 <= i < j < |all|
      ensures all[i] != all[j]
    {
      if j < |p.origin| {
        OriginsDistinct(s, p, i, j);
      } else if i < |p.origin| {
        OriginFresh(s, p, o, i);
      }
    }
    forall i | 0 <= i < |all|
      ensures s.fs <= all[i] < s.fe
    {
      if i < |p.origin| {
        assert p.OwnerOk(s, i);
      }
    }
    Pigeonhole(all, s.fs, s.fe);
  }

  /** The new plan's entries: the old ones, then the words of o. */
  lemma ExtendEntries(s: Snap, p: Plan, o: int)
    requires s.Sized() && |p.owner| == |p.origin| && s.Movable(o) && s.ObjWords(o) >= 2
    requires s.ts >= 0 && s.ts + |p.origin| + s.ObjWords(o) <= s.te
    ensures var q, n := p.Extend(s, o), |p.origin|;
      && |q.origin| == |q.owner| == n + s.ObjWords(o)
      && (forall j :: 0 <= j < n ==> q.origin[j] == p.origin[j] && q.owner[j] == p.owner[j])
      && (forall j :: n <= j < n + s.ObjWords(o) ==> q.origin[j] == o + (j - n) && q.owner[j] == o)
      && q.fwd == p.fwd[o := s.ts + n]
  {
  }

  lemma ExtendImage(s: Snap, p: Plan, o: int, x: int)
    requires s.Sized() && |p.owner| == |p.origin|
    requires s.Movable(o) && o !in p.fwd && s.ObjWords(o) >= 2 && s.ts + |p.origin| + s.ObjWords(o) <= s.te
    requires x == o || (x in p.fwd && s.Movable(x) && p.ImageOk(s, x))
    ensures p.Extend(s, o).ImageOk(s, x)
  {
    ExtendEntries(s, p, o);
  }

  lemma ExtendOwner(s: Snap, p: Plan, o: int, j: int)
    requires s.Sized() && p.Ok(s) && s.Movable(o) && o !in p.fwd
    requires s.ObjWords(o) >= 2 && s.ts + |p.origin| + s.ObjWords(o) <= s.te
    requires 0 <= j < |p.origin| + s.ObjWords(o)
    ensures |p.Extend(s, o).origin| == |p.Extend(s, o).owner| == |p.origin| + s.ObjWords(o)
    ensures p.Extend(s, o).OwnerOk(s, j)
  {
    ExtendEntries(s, p, o);
    if j < |p.origin| {
      assert p.OwnerOk(s, j);
    } else {
      assert s.Fits(o);
    }
  }

  lemma ExtendOwned(s: Snap, p: Plan, o: int, x: int, j: int)
    requires s.Sized() && p.Ok(s) && s.Movable(o) && o !in p.fwd
    requires s.ObjWords(o) >= 2 && s.ts + |p.origin| + s.ObjWords(o) <= s.te
    requires x in p.Extend(s, o).fwd && s.InFrom(x)
    requires p.Extend(s, o).fwd[x] <= s.ts + j < p.Extend(s, o).fwd[x] + s.ObjWords(x)
    ensures 0 <= j < |p.Extend(s, o).owner| && p.Extend(s, o).owner[j] == x
  {
    ExtendEntries(s, p, o);
    if x != o {
      assert p.ImageOk(s, x);
    }
  }

  ghost predicate Extensible(s: Snap, p: Plan, o: int) {
    && s.Sized() && p.Ok(s) && s.Movable(o) && o !in p.fwd
    && s.ObjWords(o) >= 2 && s.ts + |p.origin| + s.ObjWords(o) <= s.te
  }

  lemma ExtendImages(s: Snap, p: Plan, o: int)
    requires Extensible(s, p, o)
    ensures |p.Extend(s, o).origin| == |p.Extend(s, o).owner| == |p.origin| + s.ObjWords(o)
    ensures forall x :: x in p.Extend(s, o).fwd ==> s.Movable(x) && p.Extend(s, o).ImageOk(s, x)
  {
    ExtendEntries(s, p, o);
    forall x | x in p.Extend(s, o).fwd
      ensures s.Movable(x) && p.Extend(s, o).ImageOk(s, x)
    {
      assert x == o || x in p.fwd;
      ExtendImage(s, p, o, x);
    }
  }

  lemma ExtendOwners(s: Snap, p: Plan, o: int)
    requires Extensible(s, p, o)
    ensures |p.Extend(s, o).origin| == |p.Extend(s, o).owner|
    ensures forall j :: 0 <= j < |p.Extend(s, o).origin| ==> p.Extend(s, o).OwnerOk(s, j)
  {
    ExtendEntries(s, p, o);
    forall j | 0 <= j < |p.Extend(s, o).origin|
      ensures p.Extend(s, o).OwnerOk(s, j)
    {
      ExtendOwner(s, p, o, j);
    }
  }

  /** Moving one more object to the end of the images keeps the plan. */
  lemma ExtendOk(s: Snap, p: Plan, o: int)
    requires s.Sized() && s.Collectable() && p.Ok(s)
    requires s.Movable(o) && o !in p.fwd
    ensures s.ts + |p.origin| + s.ObjWords(o) <= s.te
    ensures s.ObjWords(o) >= 2
    ensures p.Extend(s, o).Ok(s)
  {
    hide Plan.Extend;
    RoomForOne(s, p, o);
    ExtendEntries(s, p, o);
    ExtendImages(s, p, o);
    ExtendOwners(s, p, o);
    var q := p.Extend(s, o);
    forall x, j | x in q.fwd && q.fwd[x] <= s.ts + j < q.fwd[x] + s.ObjWords(x)
      ensures q.owner[j] == x
    {
      ExtendOwned(s, p, o, x, j);
    }
  }

  /** Copying o's words to the end of the images and marking o. */
  lemma MoveMem(s: Snap, p: Plan, o: int, m0: seq<Word>, m1: seq<Word>)
    requires s.Sized() && |p.owner| == |p.origin| && s.Movable(o)
    requires s.ObjWords(o) >= 2 && s.ts + |p.origin| + s.ObjWords(o) <= s.te
    requires p.MemOk(s, m0) && |m1| == |m0|
    requires forall i :: 0 <= i < |m0| && !(s.ts + |p.origin| <= i < s.ts + |p.origin| + s.ObjWords(o)) && i != o ==> m1[i] == m0[i]
    requires m1[o] == Word(Addr(s.ts + |p.origin|) + 15, s.m[o].hi)
    ensures p.Extend(s, o).MemOk(s, m1)
  {
    ExtendEntries(s, p, o);
  }

  /** Marking the image of o with one of o's bits. */
  lemma MoveBits(s: Snap, p: Plan, o: int, was: seq<bool>, b0: seq<bool>, b1: seq<bool>)
    requires s.Sized() && s.Collectable() && |p.owner| == |p.origin| && s.Movable(o)
    requires s.ObjWords(o) >= 2 && s.ts + |p.origin| + s.ObjWords(o) <= s.te
    requires was == s.st || was == s.co
    requires p.BitsOk(s, was, b0) && |b1| == |b0|
    requires forall i :: 0 <= i < |b0| ==> b1[i] == (if i == s.ts + |p.origin| then was[o] else b0[i])
    ensures p.Extend(s, o).BitsOk(s, was, b1)
  {
    var q := p.Extend(s, o);
    forall i | 0 <= i < |was|
      ensures b1[i] == q.BitNow(s, was, i)
    {
      assert b0[i] == p.BitNow(s, was, i);
      MoveBit(s, p, o, was, i);
    }
  }

  lemma MoveBit(s: Snap, p: Plan, o: int, was: seq<bool>, i: int)
    requires s.Sized() && s.Collectable() && |p.owner| == |p.origin| && s.Movable(o)
    requires s.ObjWords(o) >= 2 && s.ts + |p.origin| + s.ObjWords(o) <= s.te
    requires (was == s.st || was == s.co) && 0 <= i < |was|
    ensures p.Extend(s, o).BitNow(s, was, i)
         == if i == s.ts + |p.origin| then was[o] else p.BitNow(s, was, i)
  {
    ExtendEntries(s, p, o);
    var n := |p.origin|;
    if s.ts + n < i < s.ts + n + s.ObjWords(o) {
      InteriorClear(s, o, o + (i - s.ts - n));
    }
  }

  lemma InteriorClear(s: Snap, o: int, i: int)
    requires s.Sized() && s.Collectable() && s.Movable(o)
    requires o < i < o + s.ObjWords(o)
    ensures s.InFrom(i) && !s.st[i] && !s.co[i]
  {
    if s.st[i] {
      assert s.ObjAt(i);
    }
  }

  lemma Unmarked(s: Snap, o: int)
    requires s.Sized() && s.Collectable() && s.ObjAt(o)
    ensures s.m[o].lo % 16 != 15
  {
  }

  lemma OkParts(s: Snap, p: Plan, o: int)
    requires s.Sized() && p.Ok(s)
    ensures |p.owner| == |p.origin| && s.ts + |p.origin| <= s.te
    ensures o in p.fwd ==> s.Movable(o)
  {
  }

  lemma ScanStable(s: Snap, p: Plan, q: Plan, was: Word, now: Word, scanned: bool)
    requires s.Sized() && q.Extends(p) && p.ScanOk(s, was, now, scanned)
    ensures q.ScanOk(s, was, now, scanned)
  {
  }

  lemma ExtendExtends(s: Snap, p: Plan, o: int)
    requires s.Sized() && |p.owner| == |p.origin| && s.Movable(o) && o !in p.fwd
    requires s.ts + |p.origin| + s.ObjWords(o) <= s.te
    ensures p.Extend(s, o).Extends(p)
  {
  }

  /** A call of `copy` keeps what has been established about all other words. */
  lemma StepKeeps(s: Snap, p: Plan, q: Plan, w: Word, m0: seq<Word>, m1: seq<Word>, j0: int, stk: int, bss: int, low: int)
    requires s.Sized() && |m0| == |m1| == |s.m| && q.CopyStep(s, p, w, m0, m1) && 0 <= low
    requires p.ToOk(s, m0, j0) && p.OutsideOk(s, m0, stk, bss, low)
    requires p.Least(s) && s.Forced(w)
    ensures q.ToOk(s, m1, j0) && q.OutsideOk(s, m1, stk, bss, low)
    ensures q.Extends(p) && q.Resolved(s, w) && q.Least(s)
  {
    if q != p || m1 != m0 {
      var o := Target(w);
      ExtendExtends(s, p, o);
      ToStable(s, p, o, m0, m1, j0);
      OutsideStable(s, p, q, m0, m1, stk, bss, low);
      LeastExtend(s, p, o);
    }
  }

  lemma OutsideStable(s: Snap, p: Plan, q: Plan, m0: seq<Word>, m1: seq<Word>, stk: int, bss: int, low: int)
    requires s.Sized() && |m0| == |m1| == |s.m| && q.Extends(p) && 0 <= low && p.OutsideOk(s, m0, stk, bss, low)
    requires forall i :: 0 <= i < |m0| && !s.InFrom(i) && !s.InTo(i) ==> m1[i] == m0[i]
    ensures q.OutsideOk(s, m1, stk, bss, low)
  {
    forall i | low <= i < |m1| && !s.InFrom(i) && !s.InTo(i)
      ensures q.ScanOk(s, s.m[i], m1[i], s.sp <= i < stk || i < bss)
    {
      assert p.ScanOk(s, s.m[i], m0[i], s.sp <= i < stk || i < bss);
      ScanStable(s, p, q, s.m[i], m0[i], s.sp <= i < stk || i < bss);
    }
  }

  /** Copying an object appends its unscanned words. */
  lemma ToStable(s: Snap, p: Plan, o: int, m0: seq<Word>, m1: seq<Word>, j0: int)
    requires s.Sized() && Plan.CopiedOne(s, p, o, m0, m1)
    requires p.ToOk(s, m0, j0)
    ensures p.Extend(s, o).ToOk(s, m1, j0)
  {
    ExtendEntries(s, p, o);
    ExtendExtends(s, p, o);
    var q, n := p.Extend(s, o), |p.origin|;
    forall j | 0 <= j < |q.origin|
      ensures 0 <= q.origin[j] < |s.m| && q.ScanOk(s, s.m[q.origin[j]], m1[s.ts + j], j < j0)
    {
      if j < n {
        assert p.ScanOk(s, s.m[p.origin[j]], m0[s.ts + j], j < j0);
        assert m1[s.ts + j] == m0[s.ts + j];
        ScanStable(s, p, q, s.m[p.origin[j]], m0[s.ts + j], j < j0);
      } else {
        assert m1[s.ts + j] == s.m[o + (j - n)];
      }
    }
  }

  lemma LeastExtend(s: Snap, p: Plan, o: int)
    requires s.Sized() && s.Movable(o) && 0 <= s.ts + |p.origin| <= 0xDFF_FFFE
    requires p.Least(s)
    requires forall R: set<int> :: s.Closed(R) ==> o in R
    ensures p.Extend(s, o).Least(s)
  {
    forall R: set<int> | s.Closed(R)
      ensures p.Extend(s, o).fwd.Keys <= R
    {
      assert p.fwd.Keys <= R;
    }
  }

  /** Until it moves, an object's words are what they were. */
  lemma ObjIntact(s: Snap, p: Plan, o: int, m: seq<Word>)
    requires s.Sized() && s.Collectable() && p.Ok(s) && p.MemOk(s, m)
    requires s.Movable(o) && o !in p.fwd
    ensures forall i :: o <= i < o + s.ObjWords(o) ==> m[i] == s.m[i]
  {
    forall i | o <= i < o + s.ObjWords(o)
      ensures m[i] == s.m[i]
    {
      assert m[i] == p.FromWord(s, i);
      if o < i {
        InteriorClear(s, o, i);
      }
    }
  }

  lemma WriteOutside(s: Snap, p: Plan, m: seq<Word>, i: int, w: Word)
    requires s.Sized() && p.MemOk(s, m) && 0 <= i < |m| && !s.InFrom(i)
    ensures p.MemOk(s, m[i := w])
  {
  }

  // ---- which words are forced --------------------------------------------------

  lemma ForcedRoot(s: Snap, i: int)
    requires s.Sized() && s.IsRoot(i)
    ensures s.Forced(s.m[i])
  {
  }

  lemma ForcedMember(s: Snap, p: Plan, j: int)
    requires s.Sized() && p.Ok(s) && p.Least(s) && 0 <= j < |p.origin|
    ensures 0 <= p.origin[j] < |s.m| && s.Forced(s.m[p.origin[j]])
  {
    assert p.OwnerOk(s, j);
    var o := p.owner[j];
    forall R: set<int> | s.Closed(R) && s.Moves(s.m[p.origin[j]])
      ensures Target(s.m[p.origin[j]]) in R
    {
      assert p.fwd.Keys <= R;
      assert o in R && s.Movable(o);
      assert s.MembersIn(o, R);
    }
  }

  /** Writing back a scanned root. */
  lemma RootWritten(s: Snap, q: Plan, mid: seq<Word>, i: int, j0: int, stk: int, bss: int, low: int, stk1: int, bss1: int)
    requires s.Sized() && |mid| == |s.m| && 0 <= low
    requires q.ToOk(s, mid, j0) && q.OutsideOk(s, mid, stk, bss, low)
    requires 0 <= i < |mid| && !s.InFrom(i) && !s.InTo(i) && q.Resolved(s, s.m[i])
    requires (i == stk && s.sp <= i && stk1 == stk + 1 && bss1 == bss) || (i == bss && stk1 == stk && bss1 == bss + 1)
    ensures q.ToOk(s, mid[i := q.Rename(s, s.m[i])], j0)
    ensures q.OutsideOk(s, mid[i := q.Rename(s, s.m[i])], stk1, bss1, low)
  {
    var m1 := mid[i := q.Rename(s, s.m[i])];
    forall k | low <= k < |m1| && !s.InFrom(k) && !s.InTo(k)
      ensures q.ScanOk(s, s.m[k], m1[k], s.sp <= k < stk1 || k < bss1)
    {
      if k != i {
        assert q.ScanOk(s, s.m[k], mid[k], s.sp <= k < stk || k < bss);
      }
    }
    forall j | 0 <= j < |q.origin|
      ensures 0 <= q.origin[j] < |s.m| && q.ScanOk(s, s.m[q.origin[j]], m1[s.ts + j], j < j0)
    {
      assert q.ScanOk(s, s.m[q.origin[j]], mid[s.ts + j], j < j0);
    }
  }

  /** Writing back a scanned word of to-space. */
  lemma MemberWritten(s: Snap, q: Plan, mid: seq<Word>, j0: int, stk: int, bss: int, low: int)
    requires s.Sized() && |mid| == |s.m| && 0 <= low
    requires q.ToOk(s, mid, j0) && q.OutsideOk(s, mid, stk, bss, low)
    requires 0 <= j0 < |q.origin| && q.Resolved(s, s.m[q.origin[j0]])
    ensures q.ToOk(s, mid[s.ts + j0 := q.Rename(s, s.m[q.origin[j0]])], j0 + 1)
    ensures q.OutsideOk(s, mid[s.ts + j0 := q.Rename(s, s.m[q.origin[j0]])], stk, bss, low)
  {
    var m1 := mid[s.ts + j0 := q.Rename(s, s.m[q.origin[j0]])];
    forall j | 0 <= j < |q.origin|
      ensures 0 <= q.origin[j] < |s.m| && q.ScanOk(s, s.m[q.origin[j]], m1[s.ts + j], j < j0 + 1)
    {
      assert q.ScanOk(s, s.m[q.origin[j]], mid[s.ts + j], j < j0);
    }
    forall k | low <= k < |m1| && !s.InFrom(k) && !s.InTo(k)
      ensures q.ScanOk(s, s.m[k], m1[k], s.sp <= k < stk || k < bss)
    {
      assert q.ScanOk(s, s.m[k], mid[k], s.sp <= k < stk || k < bss);
    }
  }

  // ---- the heap invariant ---------------------------------------------------------

  /** Objects that tile are apart from one another. */
  lemma {:induction false} TilesApart(s: Snap, i: int, end: int, o: int)
    requires s.Sized() && end <= s.fe && s.fs <= i && s.Tiles(i, end) && s.ObjAt(o) && i <= o < end
    ensures s.GoodObj(o, end)
    ensures forall p :: s.ObjAt(p) && o < p ==> o + s.ObjWords(o) <= p
    decreases end - i
  {
    if i != o {
      assert i + s.ObjWords(i) <= o;
      TilesApart(s, i + s.ObjWords(i), end, o);
    } else {
      forall p | s.ObjAt(p) && o < p
        ensures o + s.ObjWords(o) <= p
      {
      }
    }
  }

  lemma {:induction false} TilesCons(s: Snap, i: int, end: int, o: int)
    requires s.Sized() && end <= s.fe && s.fs <= i && s.Tiles(i, end) && i <= o < end && s.co[o]
    ensures s.st[o]
    decreases end - i
  {
    if i != o {
      assert i + s.ObjWords(i) <= o;
      TilesCons(s, i + s.ObjWords(i), end, o);
    }
  }

  lemma HeapCollectable(s: Snap, end: int)
    requires s.HeapOk(end)
    ensures s.Collectable()
    ensures forall o :: s.ObjAt(o) ==> s.Fits(o) && s.GoodObj(o, end)
  {
    forall o | s.ObjAt(o)
      ensures s.Fits(o) && s.GoodObj(o, end)
      ensures forall p :: s.ObjAt(p) && o < p ==> o + s.ObjWords(o) <= p
    {
      TilesApart(s, s.fs, end, o);
    }
    forall i | s.InFrom(i) && s.co[i]
      ensures s.st[i]
    {
      TilesCons(s, s.fs, end, i);
    }
  }

  lemma RootUntouched(s: Snap, p: Plan, m: seq<Word>, i: int, stk: int, bss: int)
    requires s.Sized() && |m| == |s.m| && p.OutsideOk(s, m, stk, bss, 0)
    requires s.IsRoot(i) && !(s.sp <= i < stk) && !(0 <= i < bss)
    ensures m[i] == s.m[i] && !s.InFrom(i) && !s.InTo(i)
  {
    assert p.ScanOk(s, s.m[i], m[i], s.sp <= i < stk || i < bss);
  }

  lemma ForcedVr(s: Snap)
    requires s.Sized()
    ensures s.Forced(s.vr)
  {
  }

  lemma WeakenLow(s: Snap, p: Plan, m: seq<Word>, j0: int)
    requires s.Sized() && |m| == |s.m| && p.OutsideOk(s, m, STACK_TOP, BSS_WORDS, 0)
    ensures p.OutsideOk(s, m, STACK_TOP, BSS_WORDS, 1)
  {
  }

  /** Word 0 is free to serve as scratch once it has been scanned. */
  lemma ZeroFree(s: Snap, p: Plan, m: seq<Word>, w: Word, j0: int)
    requires s.Sized() && |m| == |s.m|
    requires p.ToOk(s, m, j0) && p.OutsideOk(s, m, STACK_TOP, BSS_WORDS, 1)
    ensures p.ToOk(s, m[0 := w], j0) && p.OutsideOk(s, m[0 := w], STACK_TOP, BSS_WORDS, 1)
  {
    var m1 := m[0 := w];
    forall j | 0 <= j < |p.origin|
      ensures 0 <= p.origin[j] < |s.m| && p.ScanOk(s, s.m[p.origin[j]], m1[s.ts + j], j < j0)
    {
      assert p.ScanOk(s, s.m[p.origin[j]], m[s.ts + j], j < j0);
    }
    forall k | 1 <= k < |m1| && !s.InFrom(k) && !s.InTo(k)
      ensures p.ScanOk(s, s.m[k], m1[k], s.sp <= k < STACK_TOP || k < BSS_WORDS)
    {
      assert p.ScanOk(s, s.m[k], m[k], s.sp <= k < STACK_TOP || k < BSS_WORDS);
    }
  }

  /** Before anything has moved. */
  lemma EmptyPlan(s: Snap, end: int)
    requires s.HeapOk(end)
    ensures var p := Plan(map[], [], []);
      && p.Ok(s) && p.MemOk(s, s.m) && p.BitsOk(s, s.st, s.st) && p.BitsOk(s, s.co, s.co)
      && p.Least(s) && p.ToOk(s, s.m, 0) && p.OutsideOk(s, s.m, s.sp, 0, 0)
  {
  }

  lemma ZeroScanned(s: Snap, p: Plan, m: seq<Word>)
    requires s.Sized() && |m| == |s.m| && p.OutsideOk(s, m, STACK_TOP, BSS_WORDS, 0)
    ensures p.Resolved(s, s.m[0]) && m[0] == p.Rename(s, s.m[0])
  {
    assert p.ScanOk(s, s.m[0], m[0], s.sp <= 0 < STACK_TOP || 0 < BSS_WORDS);
  }

  lemma MemberUntouched(s: Snap, p: Plan, m: seq<Word>, j0: int)
    requires s.Sized() && |m| == |s.m| && p.ToOk(s, m, j0) && j0 < |p.origin|
    ensures 0 <= p.origin[j0] < |s.m| && m[s.ts + j0] == s.m[p.origin[j0]]
  {
    assert p.ScanOk(s, s.m[p.origin[j0]], m[s.ts + j0], j0 < j0);
  }

  // ---- the end of a collection -----------------------------------------------------

  /** The new space's tiles: the images of the moved objects. */
  lemma {:induction false} ImagesTile(s: Snap, t: Snap, p: Plan, i: int)
    requires s.Sized() && Collected(s, t, p) && s.len == Lengths(s.m)
    requires forall o :: s.ObjAt(o) ==> s.GoodObj(o, s.fe)
    requires i == s.ts + |p.origin| || p.StartsAt(s, i)
    ensures t.Tiles(i, s.ts + |p.origin|)
    decreases s.ts + |p.origin| - i
  {
    hide Collected, Plan.Ok, Plan.OwnerOk, Snap.GoodObj, Snap.ObjWords;
    CollectedParts(s, t, p);
    if i < s.ts + |p.origin| {
      var o := p.owner[i - s.ts];
      ImageWords(s, t, p, o);
      ImageGood(s, t, p, o);
      ObjWordsPositive(t, i, s.ts + |p.origin|);
      ImagesTile(s, t, p, i + s.ObjWords(o));
    }
  }

  lemma CollectedParts(s: Snap, t: Snap, p: Plan)
    requires s.Sized() && Collected(s, t, p)
    ensures t.Sized() && t.fs == s.ts && t.fe == s.te && t.ts == s.fs && t.te == s.fe && |t.m| == |s.m|
    ensures p.Ok(s) && |p.owner| == |p.origin| && s.ts + |p.origin| <= s.te
    ensures |p.origin| > 0 ==> p.StartsAt(s, s.ts)
    ensures forall i :: s.ts + |p.origin| <= i < s.te ==> !t.st[i] && !t.co[i]
    ensures forall i :: s.fs <= i < s.fe ==> !t.st[i] && !t.co[i]
  {
    hide Plan.Least, Snap.Closed, Plan.Rename;
  }

  lemma ObjWordsPositive(s: Snap, i: int, end: int)
    requires s.Sized() && s.GoodObj(i, end)
    ensures s.InFrom(i) && 2 <= s.ObjWords(i) && i + s.ObjWords(i) <= end <= s.fe
  {
  }

  /** The image of o holds o's words, renamed, under o's bits. */
  lemma ImageWords(s: Snap, t: Snap, p: Plan, o: int)
    requires s.Sized() && Collected(s, t, p) && o in p.fwd
    ensures s.Movable(o) && p.ImageOk(s, o) && t.Sized() && t.fs == s.ts && t.fe == s.te
    ensures s.ts <= p.fwd[o] && p.fwd[o] + s.ObjWords(o) <= s.ts + |p.origin| <= s.te
    ensures forall i :: p.fwd[o] <= i < p.fwd[o] + s.ObjWords(o) ==> ImageWord(s, t, p, o, i)
  {
    hide Plan.Least, Snap.Closed, Plan.Rename;
    assert s.Movable(o) && p.ImageOk(s, o);
    forall i | p.fwd[o] <= i < p.fwd[o] + s.ObjWords(o)
      ensures ImageWord(s, t, p, o, i)
    {
      var j := i - s.ts;
      assert p.owner[j] == o && ImageRenamed(s, t, p, j);
    }
  }

  ghost predicate ImageWord(s: Snap, t: Snap, p: Plan, o: int, i: int)
    requires s.Sized() && o in p.fwd && |t.m| == |t.st| == |t.co|
  {
    var k := o + (i - p.fwd[o]);
    && s.InFrom(k) && 0 <= i < |t.m|
    && t.m[i] == p.Rename(s, s.m[k]) && t.st[i] == s.st[k] && t.co[i] == s.co[k]
  }

  lemma ImageGood(s: Snap, t: Snap, p: Plan, o: int)
    requires s.Sized() && Collected(s, t, p) && s.len == Lengths(s.m)
    requires o in p.fwd && s.GoodObj(o, s.fe)
    ensures t.Sized() && s.ts + |p.origin| <= t.fe && t.InFrom(p.fwd[o])
    ensures t.GoodObj(p.fwd[o], s.ts + |p.origin|) && t.ObjWords(p.fwd[o]) == s.ObjWords(o)
  {
    ImageWords(s, t, p, o);
    FirstWordKept(s, p, o);
    assert t.len == Lengths(t.m);
    hide Collected, Plan.Ok, Plan.Rename, SizeOf;
    var i := p.fwd[o];
    assert ImageWord(s, t, p, o, i);
    forall k | i < k < i + s.ObjWords(o)
      ensures !t.st[k] && !t.co[k]
    {
      assert ImageWord(s, t, p, o, k);
    }
  }

  /** Renaming leaves a header alone, and a car without the forwarding nibble. */
  lemma FirstWordKept(s: Snap, p: Plan, o: int)
    requires s.Sized() && s.GoodObj(o, s.fe)
    ensures !s.ConsAt(o) ==> p.Rename(s, s.m[o]) == s.m[o]
    ensures p.Rename(s, s.m[o]).lo % 16 != 15
  {
  }

  /** A collection keeps the heap invariant. */
  lemma CollectedHeapOk(s: Snap, t: Snap, p: Plan, end: int)
    requires s.HeapOk(end) && s.len == Lengths(s.m) && Collected(s, t, p)
    ensures t.HeapOk(s.ts + |p.origin|)
    ensures |p.origin| <= end - s.fs
  {
    hide Collected, Plan.Ok, Snap.GoodObj, Snap.Collectable;
    HeapCollectable(s, end);
    CollectedParts(s, t, p);
    forall o | s.ObjAt(o)
      ensures s.GoodObj(o, s.fe)
    {
      GoodObjWiden(s, o, end);
    }
    ImagesTile(s, t, p, s.ts);
    OriginsBounded(s, p, end);
  }

  lemma GoodObjWiden(s: Snap, o: int, end: int)
    requires s.Sized() && s.GoodObj(o, end)
    ensures s.GoodObj(o, s.fe)
  {
  }

  /** A collection never uses more room than was in use. */
  lemma OriginsBounded(s: Snap, p: Plan, end: int)
    requires s.HeapOk(end) && s.Collectable() && p.Ok(s)
    requires forall o :: s.ObjAt(o) ==> s.GoodObj(o, end)
    ensures |p.origin| <= end - s.fs
  {
    hide Snap.Tiles, Snap.Collectable;
    forall i, j | 0 <= i < j < |p.origin|
      ensures p.origin[i] != p.origin[j]
    {
      OriginsDistinct(s, p, i, j);
    }
    forall j | 0 <= j < |p.origin|
      ensures s.fs <= p.origin[j] < end
    {
      assert p.OwnerOk(s, j);
      assert s.GoodObj(p.owner[j], end);
    }
    Pigeonhole(p.origin, s.fs, end);
  }

  /** When every copied word has been scanned, the moved objects are closed. */
  lemma ScannedClosed(s: Snap, p: Plan, m: seq<Word>)
    requires s.Sized() && |m| == |s.m| && p.Ok(s)
    requires p.ToOk(s, m, |p.origin|) && p.OutsideOk(s, m, STACK_TOP, BSS_WORDS, 1)
    requires p.Resolved(s, s.m[0]) && p.Resolved(s, s.vr)
    ensures s.Closed(p.fwd.Keys)
  {
    forall i | s.IsRoot(i) && s.Moves(s.m[i])
      ensures Target(s.m[i]) in p.fwd.Keys
    {
      if i != 0 {
        assert p.ScanOk(s, s.m[i], m[i], s.sp <= i < STACK_TOP || i < BSS_WORDS);
      }
    }
    forall o | o in p.fwd.Keys && s.Movable(o)
      ensures s.MembersIn(o, p.fwd.Keys)
    {
      forall i | o <= i < o + s.ObjWords(o) && s.Moves(s.m[i])
        ensures Target(s.m[i]) in p.fwd.Keys
      {
        var j := p.fwd[o] + (i - o) - s.ts;
        assert p.ImageOk(s, o) && p.owner[j] == o && p.OwnerOk(s, j);
        assert p.ScanOk(s, s.m[p.origin[j]], m[s.ts + j], j < |p.origin|);
      }
    }
  }

  /** The state a finished scan leaves, once the registers are written and the
      bits of the old space cleared. */
  ghost predicate Wrapped(s: Snap, t: Snap, m: seq<Word>, st: seq<bool>, co: seq<bool>)
    requires s.Sized() && |m| == |st| == |co| == |s.m|
  {
    && t.Sized() && |t.m| == |s.m| && t.sp == s.sp && t.len == Lengths(t.m)
    && t.fs == s.ts && t.fe == s.te && t.ts == s.fs && t.te == s.fe
    && t.m[0] == m[0]
    && (forall i :: 0 <= i < |m| && !Register(i) ==> t.m[i] == m[i])
    && (forall i :: 0 <= i < |m| ==> t.st[i] == (st[i] && !s.InFrom(i)))
    && (forall i :: 0 <= i < |m| ==> t.co[i] == (co[i] && !s.InFrom(i)))
  }

  /** It is a collection of the state the scan began with. */
  lemma Finished(s: Snap, t: Snap, p: Plan, m: seq<Word>, st: seq<bool>, co: seq<bool>)
    requires s.Sized() && |m| == |st| == |co| == |s.m| && Wrapped(s, t, m, st, co)
    requires p.Ok(s) && p.Even() && p.Least(s)
    requires p.ToOk(s, m, |p.origin|) && p.OutsideOk(s, m, STACK_TOP, BSS_WORDS, 1)
    requires p.BitsOk(s, s.st, st) && p.BitsOk(s, s.co, co)
    requires p.Resolved(s, s.m[0]) && p.Resolved(s, s.vr)
    requires m[0] == (if Tagged(s.vr) then Word(0, 0) else p.Rename(s, s.m[0])) && t.vr == p.Rename(s, s.vr)
    ensures Collected(s, t, p)
  {
    hide Plan.Least, Snap.Closed, Plan.Ok, Plan.Even, Plan.ToOk, Plan.OutsideOk, Plan.BitsOk, Plan.Resolved;
    ScannedClosed(s, p, m);
    FinishedOutside(s, t, p, m, st, co);
    FinishedImages(s, t, p, m, st, co);
  }

  lemma FinishedOutside(s: Snap, t: Snap, p: Plan, m: seq<Word>, st: seq<bool>, co: seq<bool>)
    requires s.Sized() && |m| == |st| == |co| == |s.m| && Wrapped(s, t, m, st, co)
    requires p.OutsideOk(s, m, STACK_TOP, BSS_WORDS, 1)
    requires m[0] == (if Tagged(s.vr) then Word(0, 0) else p.Rename(s, s.m[0])) && t.vr == p.Rename(s, s.vr)
    ensures RootsRenamed(s, t, p) && RestKept(s, t)
  {
    hide Snap.Moves, Lengths, Plan.Rename;
    forall i | s.IsRoot(i) && !Register(i)
      ensures t.m[i] == p.Rename(s, s.m[i])
    {
      assert p.ScanOk(s, s.m[i], m[i], s.sp <= i < STACK_TOP || i < BSS_WORDS);
    }
    forall i | 0 <= i < |s.m| && !s.IsRoot(i) && !s.InFrom(i) && !s.InTo(i)
      ensures t.m[i] == s.m[i]
    {
      assert p.ScanOk(s, s.m[i], m[i], s.sp <= i < STACK_TOP || i < BSS_WORDS);
    }
  }

  lemma FinishedImages(s: Snap, t: Snap, p: Plan, m: seq<Word>, st: seq<bool>, co: seq<bool>)
    requires s.Sized() && |m| == |st| == |co| == |s.m| && Wrapped(s, t, m, st, co)
    requires p.Ok(s) && p.ToOk(s, m, |p.origin|)
    requires p.BitsOk(s, s.st, st) && p.BitsOk(s, s.co, co)
    ensures ImagesRenamed(s, t, p)
  {
    hide Snap.Moves, Lengths, Plan.Rename;
    forall j | 0 <= j < |p.origin|
      ensures ImageRenamed(s, t, p, j)
    {
      assert p.OwnerOk(s, j);
      assert p.ScanOk(s, s.m[p.origin[j]], m[s.ts + j], j < |p.origin|);
      assert st[s.ts + j] == p.BitNow(s, s.st, s.ts + j);
      assert co[s.ts + j] == p.BitNow(s, s.co, s.ts + j);
    }
    forall i | s.ts + |p.origin| <= i < s.te
      ensures !t.st[i] && !t.co[i]
    {
      assert st[i] == p.BitNow(s, s.st, i);
      assert co[i] == p.BitNow(s, s.co, i);
    }
  }

  /** The size register is a root, and no pointer. */
  lemma SizeRegister(s: Snap, p: Plan, m: seq<Word>)
    requires s.Sized() && |m| == |s.m| && p.OutsideOk(s, m, STACK_TOP, BSS_WORDS, 1)
    requires s.m[IX_GC_SIZE].lo % 16 == 0
    ensures m[IX_GC_SIZE] == s.m[IX_GC_SIZE]
  {
    var i := IX_GC_SIZE;
    assert p.ScanOk(s, s.m[i], m[i], s.sp <= i < STACK_TOP || i < BSS_WORDS);
  }

  lemma RenameStable(s: Snap, p: Plan, q: Plan, w: Word)
    requires s.Sized() && q.Extends(p) && p.Resolved(s, w)
    ensures q.Resolved(s, w) && q.Rename(s, w) == p.Rename(s, w)
  {
  }
}
