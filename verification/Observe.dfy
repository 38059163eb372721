/** What a collection looks like to the program.  Reading fields from a live
    word gives the renamed words, two references are to one object afterwards
    exactly when they were before, and nothing else becomes readable, but for
    one kind of word: one that was no reference and spells, with the right
    tag, the address an object is moved to.  The collector does not know it
    and leaves it as it is, and the flip makes a reference of it. */
module Observe {
  import opened Words
  import opened Results
  import opened Heap
  import opened PlanFacts

  /** Field k of the object w refers to. */
  function Field(s: Snap, w: Word, k: nat): Option<Word>
    requires s.Sized()
  {
    if s.Moves(w) && k < s.ObjWords(Target(w)) then Some(s.m[Target(w) + k]) else None
  }

  /** The word at the end of a path of field reads that starts from w. */
  function Follow(s: Snap, w: Word, path: seq<nat>): Option<Word>
    requires s.Sized()
    decreases |path|
  {
    if path == [] then Some(w)
    else match Field(s, w, path[0])
      case None => None
      case Some(v) => Follow(s, v, path[1..])
  }

  /** What the collector follows and moves: a tag, an object that starts there,
      a cons if the tag says so, and room for it in its space. */
  lemma MovesIs(s: Snap, w: Word)
    requires s.Sized()
    ensures s.Moves(w) <==>
      && w.hi == 0 && (w.lo % 16 == 1 || w.lo % 16 == 9)
      && var i := (w.lo - w.lo % 16 - 0x1000_0000) / 8;
         && s.fs <= i < s.fe && s.st[i] && (s.co[i] <==> w.lo % 16 == 1)
         && if s.co[i] then i + 2 <= s.fe else s.len[i] >= 2 && i + s.len[i] <= s.fe
  {
  }

  // ---- references -------------------------------------------------------------------

  /** The reference to word i with a tag. */
  function RefTo(i: Slot, tag: int): Word
    requires 0 <= tag < 16
  {
    Word(Addr(i) + tag, 0)
  }

  lemma RefToParts(i: Slot, tag: int)
    requires On16(Addr(i)) && 0 <= tag < 16
    ensures RefTo(i, tag).lo % 16 == tag && RefTo(i, tag).hi == 0 && Target(RefTo(i, tag)) == i
  {
  }

  lemma TargetOnly(v: Word, w: Word)
    requires v.hi == w.hi && v.lo % 16 == w.lo % 16 && Target(v) == Target(w)
    ensures v == w
  {
  }

  /** A moved object is an object of the same kind and size in the new space. */
  lemma ObjectSurvives(s: Snap, t: Snap, p: Plan, end: int, o: int)
    requires s.HeapOk(end) && s.len == Lengths(s.m) && Collected(s, t, p) && o in p.fwd
    ensures s.Movable(o) && t.Sized() && t.Movable(p.fwd[o]) && t.ObjWords(p.fwd[o]) == s.ObjWords(o)
    ensures t.ConsAt(p.fwd[o]) == s.ConsAt(o) && On16(Addr(p.fwd[o]))
  {
    hide Snap.Tiles, Snap.Collectable, Plan.Rename, Plan.Least, Snap.Closed, SizeOf, Lengths, Plan.Ok;
    OkParts(s, p, o);
    HeapCollectable(s, end);
    GoodObjWiden(s, o, end);
    ImageGood(s, t, p, o);
    ImageWords(s, t, p, o);
    assert ImageWord(s, t, p, o, p.fwd[o]);
  }

  /** A live reference stays a reference to an object of the same kind and size. */
  lemma RefSurvives(s: Snap, t: Snap, p: Plan, end: int, w: Word)
    requires s.HeapOk(end) && s.len == Lengths(s.m) && Collected(s, t, p)
    requires s.Moves(w) && p.Resolved(s, w)
    ensures t.Sized() && t.Moves(p.Rename(s, w)) && Target(p.Rename(s, w)) == p.fwd[Target(w)]
    ensures p.Rename(s, w).lo % 16 == w.lo % 16 && p.Rename(s, w).hi == w.hi
    ensures t.ObjWords(p.fwd[Target(w)]) == s.ObjWords(Target(w)) && s.Movable(Target(w))
  {
    hide Collected, Snap.Tiles, Lengths, Ix, Target;
    ObjectSurvives(s, t, p, end, Target(w));
    RefToParts(p.fwd[Target(w)], w.lo % 16);
    hide Addr, On16;
  }

  /** w is no reference, but spells one to the image of a moved object. */
  ghost predicate Spells(s: Snap, p: Plan, w: Word)
    requires s.Sized() && |p.owner| == |p.origin|
  {
    && Tagged(w) && p.StartsAt(s, Target(w))
    && var o := p.owner[Target(w) - s.ts]; s.InFrom(o) && (s.ConsAt(o) <==> w.lo % 16 == 1)
  }

  lemma SpelledApart(s: Snap, t: Snap, p: Plan, w: Word)
    requires s.Sized() && Collected(s, t, p) && |p.owner| == |p.origin| && Spells(s, p, w)
    ensures !s.Moves(w)
  {
    CollectedParts(s, t, p);
    hide Collected, Plan.Ok, Ix, Target;
  }

  /** A word with the right tag for an object start of the new space, and only
      such a word, is a reference afterwards. */
  lemma SpelledIsRef(s: Snap, t: Snap, p: Plan, end: int, w: Word)
    requires s.HeapOk(end) && s.len == Lengths(s.m) && Collected(s, t, p)
    ensures t.Sized() && |p.owner| == |p.origin| && (t.Moves(w) <==> Spells(s, p, w))
  {
    hide Snap.Tiles, Lengths, Ix, Target, Plan.Ok, Plan.Rename, Plan.Least, Snap.Closed, RootsRenamed, RestKept, ImagesRenamed;
    CollectedParts(s, t, p);
    var i := Target(w);
    if t.Moves(w) {
      StartIsImage(s, t, p, end, i);
      ObjectSurvives(s, t, p, end, p.owner[i - s.ts]);
    } else if Spells(s, p, w) {
      ObjectSurvives(s, t, p, end, p.owner[i - s.ts]);
    }
  }

  /** Only the first words of images have start bits. */
  lemma StartIsImage(s: Snap, t: Snap, p: Plan, end: int, i: int)
    requires s.HeapOk(end) && Collected(s, t, p) && t.Sized() && t.ObjAt(i)
    ensures |p.owner| == |p.origin| && p.StartsAt(s, i) && s.Movable(p.owner[i - s.ts])
  {
    hide Snap.Tiles, Plan.Ok, Snap.GoodObj, Collected, Snap.Collectable, Plan.OwnerOk, ImageWord;
    CollectedParts(s, t, p);
    HeapCollectable(s, end);
    OwnerImage(s, t, p, i - s.ts);
    var o := p.owner[i - s.ts];
    OkParts(s, p, o);
    ImageWords(s, t, p, o);
    StartOnly(s, t, p, end, o, i);
  }

  /** Inside an object there are no start bits. */
  lemma StartOnly(s: Snap, t: Snap, p: Plan, end: int, o: int, i: int)
    requires s.Sized() && end <= s.fe && o in p.fwd && s.InFrom(o) && s.GoodObj(o, end) && |t.m| == |t.st| == |t.co|
    requires p.fwd[o] <= i < p.fwd[o] + s.ObjWords(o) && ImageWord(s, t, p, o, i) && t.st[i]
    ensures i == p.fwd[o]
  {
    hide Plan.Rename, SizeOf;
  }

  lemma OwnerImage(s: Snap, t: Snap, p: Plan, j: int)
    requires s.Sized() && Collected(s, t, p) && 0 <= j < |p.origin|
    ensures |p.owner| == |p.origin| && p.OwnerOk(s, j)
    ensures var o := p.owner[j]; o in p.fwd && s.InFrom(o) && p.fwd[o] <= s.ts + j < p.fwd[o] + s.ObjWords(o)
  {
    assert p.OwnerOk(s, j);
  }

  /** The object whose fields w reads after the collection. */
  ghost function Object(s: Snap, p: Plan, w: Word): Option<int>
    requires s.Sized() && |p.owner| == |p.origin|
  {
    if s.Moves(w) then Some(Target(w)) else if Spells(s, p, w) then Some(p.owner[Target(w) - s.ts]) else None
  }

  // ---- fields and paths ---------------------------------------------------------------

  /** Field k as it reads after the collection, before renaming. */
  ghost function FieldAfter(s: Snap, p: Plan, w: Word, k: nat): Option<Word>
    requires s.Sized() && |p.owner| == |p.origin|
  {
    match Object(s, p, w)
    case None => None
    case Some(o) => if s.InFrom(o) && k < s.ObjWords(o) && o + k < |s.m| then Some(s.m[o + k]) else None
  }

  ghost function FollowAfter(s: Snap, p: Plan, w: Word, path: seq<nat>): Option<Word>
    requires s.Sized() && |p.owner| == |p.origin|
    decreases |path|
  {
    if path == [] then Some(w)
    else match FieldAfter(s, p, w, path[0])
      case None => None
      case Some(v) => FollowAfter(s, p, v, path[1..])
  }

  function Renamed(s: Snap, p: Plan, o: Option<Word>): Option<Word>
    requires s.Sized()
  {
    match o
    case None => None
    case Some(w) => Some(p.Rename(s, w))
  }

  /** A live word is afterwards a reference to the image of its object, or none. */
  lemma WordSurvives(s: Snap, t: Snap, p: Plan, end: int, w: Word)
    requires s.HeapOk(end) && s.len == Lengths(s.m) && Collected(s, t, p) && p.Resolved(s, w)
    ensures t.Sized() && |p.owner| == |p.origin|
    ensures t.Moves(p.Rename(s, w)) <==> Object(s, p, w).Some?
    ensures Object(s, p, w).Some? ==>
      var o := Object(s, p, w).value;
      o in p.fwd && s.Movable(o) && Target(p.Rename(s, w)) == p.fwd[o] && t.ObjWords(p.fwd[o]) == s.ObjWords(o)
  {
    hide Snap.Tiles, Lengths, Ix, Target, Plan.Ok, Plan.Least, Snap.Closed, RootsRenamed, RestKept, ImagesRenamed;
    SpelledIsRef(s, t, p, end, w);
    if s.Moves(w) {
      RefSurvives(s, t, p, end, w);
    } else if Spells(s, p, w) {
      ObjectSurvives(s, t, p, end, p.owner[Target(w) - s.ts]);
    }
  }

  /** Reading a field: exactly what FieldAfter says, renamed. */
  lemma FieldSurvives(s: Snap, t: Snap, p: Plan, end: int, w: Word, k: nat)
    requires s.HeapOk(end) && s.len == Lengths(s.m) && Collected(s, t, p) && p.Resolved(s, w)
    ensures t.Sized() && |p.owner| == |p.origin| && Field(t, p.Rename(s, w), k) == Renamed(s, p, FieldAfter(s, p, w, k))
    ensures FieldAfter(s, p, w, k).Some? ==> p.Resolved(s, FieldAfter(s, p, w, k).value)
    ensures Field(s, w, k).Some? ==> FieldAfter(s, p, w, k) == Field(s, w, k)
  {
    hide Collected, Snap.Tiles, Lengths, Plan.Rename, Plan.Resolved, Target, Snap.IsRef, Spells;
    WordSurvives(s, t, p, end, w);
    if Object(s, p, w).Some? {
      var o := Object(s, p, w).value;
      if k < s.ObjWords(o) { MemberSurvives(s, t, p, o, k); }
    }
  }

  lemma MemberSurvives(s: Snap, t: Snap, p: Plan, o: int, k: nat)
    requires s.Sized() && Collected(s, t, p) && o in p.fwd && s.Movable(o) && k < s.ObjWords(o)
    ensures 0 <= p.fwd[o] + k < |t.m| && t.m[p.fwd[o] + k] == p.Rename(s, s.m[o + k])
    ensures p.Resolved(s, s.m[o + k])
  {
    MembersResolved(s, t, p, o, k);
    ImageWords(s, t, p, o);
    hide Collected, Plan.Ok, Plan.Rename;
    assert ImageWord(s, t, p, o, p.fwd[o] + k);
  }

  lemma MembersResolved(s: Snap, t: Snap, p: Plan, o: int, k: nat)
    requires s.Sized() && Collected(s, t, p) && o in p.fwd && s.Movable(o) && k < s.ObjWords(o)
    ensures p.Resolved(s, s.m[o + k])
  {
    assert s.MembersIn(o, p.fwd.Keys);
  }

  /** Reading along any path: exactly what FollowAfter says, renamed. */
  lemma {:induction false} PathSurvives(s: Snap, t: Snap, p: Plan, end: int, w: Word, path: seq<nat>)
    requires s.HeapOk(end) && s.len == Lengths(s.m) && Collected(s, t, p) && p.Resolved(s, w)
    ensures t.Sized() && |p.owner| == |p.origin|
    ensures Follow(t, p.Rename(s, w), path) == Renamed(s, p, FollowAfter(s, p, w, path))
    ensures FollowAfter(s, p, w, path).Some? ==> p.Resolved(s, FollowAfter(s, p, w, path).value)
    ensures Follow(s, w, path).Some? ==> FollowAfter(s, p, w, path) == Follow(s, w, path)
    decreases |path|
  {
    hide Collected, Snap.Tiles, Lengths, Plan.Rename, Plan.Resolved, Field, FieldAfter;
    FieldSurvives(s, t, p, end, w, 0);
    if path != [] {
      FieldSurvives(s, t, p, end, w, path[0]);
      if FieldAfter(s, p, w, path[0]).Some? {
        PathSurvives(s, t, p, end, FieldAfter(s, p, w, path[0]).value, path[1..]);
      }
    }
  }

  /** No word that can be read from w spells a reference. */
  ghost predicate Unspelled(s: Snap, p: Plan, w: Word)
    requires s.Sized() && |p.owner| == |p.origin|
  {
    forall path: seq<nat> :: Follow(s, w, path).Some? ==> !Spells(s, p, Follow(s, w, path).value)
  }

  /** The same paths can be followed from w as before. */
  ghost predicate SamePaths(s: Snap, t: Snap, p: Plan, w: Word)
    requires s.Sized() && t.Sized()
  {
    forall path: seq<nat> :: Follow(t, p.Rename(s, w), path).Some? <==> Follow(s, w, path).Some?
  }

  /** The graph that can be read from a live word is the same, no more and no
      less, exactly when none of its words spells a reference. */
  lemma GraphSame(s: Snap, t: Snap, p: Plan, end: int, w: Word)
    requires s.HeapOk(end) && s.len == Lengths(s.m) && Collected(s, t, p) && p.Resolved(s, w)
    ensures t.Sized() && |p.owner| == |p.origin| && (SamePaths(s, t, p, w) <==> Unspelled(s, p, w))
  {
    hide Collected, Snap.Tiles, Lengths, Plan.Rename, Plan.Resolved, Spells, Follow, FollowAfter;
    PathSurvives(s, t, p, end, w, []);
    if Unspelled(s, p, w) {
      forall path: seq<nat>
        ensures Follow(t, p.Rename(s, w), path).Some? <==> Follow(s, w, path).Some?
      {
        PathSurvives(s, t, p, end, w, path);
        UnspelledPath(s, p, w, path);
      }
    } else {
      var path: seq<nat> :| Follow(s, w, path).Some? && Spells(s, p, Follow(s, w, path).value);
      SpelledGrows(s, t, p, end, w, path);
    }
  }

  lemma {:induction false} UnspelledPath(s: Snap, p: Plan, w: Word, path: seq<nat>)
    requires s.Sized() && |p.owner| == |p.origin| && Unspelled(s, p, w)
    ensures FollowAfter(s, p, w, path) == Follow(s, w, path)
    decreases |path|
  {
    hide Spells, Snap.Moves;
    assert Follow(s, w, []) == Some(w);
    if path != [] {
      assert Object(s, p, w) == if s.Moves(w) then Some(Target(w)) else None;
      FieldInside(s, w, path[0]);
      if Field(s, w, path[0]).Some? {
        var v := Field(s, w, path[0]).value;
        forall q: seq<nat> | Follow(s, v, q).Some?
          ensures !Spells(s, p, Follow(s, v, q).value)
        {
          assert ([path[0]] + q)[1..] == q && Follow(s, w, [path[0]] + q) == Follow(s, v, q);
        }
        UnspelledPath(s, p, v, path[1..]);
      }
    }
  }

  lemma FieldInside(s: Snap, w: Word, k: nat)
    requires s.Sized()
    ensures s.Moves(w) ==> s.InFrom(Target(w)) && (k < s.ObjWords(Target(w)) ==> Target(w) + k < |s.m|)
  {
  }

  /** Behind a word that spells a reference a field has become readable. */
  lemma SpelledGrows(s: Snap, t: Snap, p: Plan, end: int, w: Word, path: seq<nat>)
    requires s.HeapOk(end) && s.len == Lengths(s.m) && Collected(s, t, p) && p.Resolved(s, w)
    requires |p.owner| == |p.origin| && Follow(s, w, path).Some? && Spells(s, p, Follow(s, w, path).value)
    ensures t.Sized() && Follow(t, p.Rename(s, w), path + [0]).Some? && Follow(s, w, path + [0]).None?
  {
    hide Collected, Snap.Tiles, Lengths, Plan.Rename, Plan.Resolved, Follow;
    PathSurvives(s, t, p, end, w, path);
    var v := Follow(s, w, path).value;
    SpelledApart(s, t, p, v);
    FieldSurvives(s, t, p, end, v, 0);
    WordSurvives(s, t, p, end, v);
    FollowSnoc(s, w, path, 0);
    FollowSnoc(t, p.Rename(s, w), path, 0);
  }

  lemma {:induction false} FollowSnoc(s: Snap, w: Word, path: seq<nat>, k: nat)
    requires s.Sized()
    ensures Follow(s, w, path + [k]) == match Follow(s, w, path) case None => None case Some(v) => Field(s, v, k)
    decreases |path|
  {
    hide Field;
    if path == [] {
      assert (path + [k])[1..] == [];
    } else {
      assert (path + [k])[1..] == path[1..] + [k] && (path + [k])[0] == path[0];
      if Field(s, w, path[0]).Some? { FollowSnoc(s, Field(s, w, path[0]).value, path[1..], k); }
    }
  }

  /** Such words exist: a word that holds the new address of a moved object
      with its tag.  It can be a stale slot of a frame, since entering a
      function clears none. */
  lemma Mistaken(s: Snap, t: Snap, p: Plan, end: int, o: int)
    requires s.HeapOk(end) && s.len == Lengths(s.m) && Collected(s, t, p) && o in p.fwd
    ensures s.Movable(o) && t.Sized()
    ensures var w := RefTo(p.fwd[o], if s.ConsAt(o) then 1 else 9);
      p.Resolved(s, w) && p.Rename(s, w) == w && Follow(s, w, [0]).None? && Follow(t, p.Rename(s, w), [0]).Some?
  {
    hide Collected, Snap.Tiles, Lengths, Ix, Target;
    ObjectSurvives(s, t, p, end, o);
    var tag := if s.ConsAt(o) then 1 else 9;
    RefToParts(p.fwd[o], tag);
    CollectedParts(s, t, p);
    var w := RefTo(p.fwd[o], tag);
    hide RefTo;
    assert [0][1..] == [] && !s.InFrom(p.fwd[o]);
  }

  /** Every root may start a path: the words of the stack from the stack
      pointer to argv, those of the BSS, and VR.  They hold the renamed words
      afterwards, but for the collector's three registers and word 0, which is
      lost when VR looks like a reference. */
  lemma RootsResolved(s: Snap, t: Snap, p: Plan, i: int)
    requires s.Sized() && Collected(s, t, p)
    ensures s.sp <= i < 0x77_E000 || 0 <= i < 0x4000 ==> p.Resolved(s, s.m[i])
    ensures s.sp <= i < 0x77_E000 || (0 < i < 0x4000 && i != 8 && i != 9 && i != 12) ==> t.m[i] == p.Rename(s, s.m[i])
    ensures p.Resolved(s, s.vr) && t.vr == p.Rename(s, s.vr)
    ensures t.m[0] == if s.vr.hi == 0 && (s.vr.lo % 16 == 1 || s.vr.lo % 16 == 9) then Word(0, 0) else p.Rename(s, s.m[0])
  {
    assert s.IsRoot(i) <==> s.sp <= i < 0x77_E000 || 0 <= i < 0x4000;
    hide Plan.Rename, Snap.Moves;
  }

  // ---- sharing ------------------------------------------------------------------------------

  /** Sharing survives, in both directions: distinct objects stay distinct. */
  lemma SharingSurvives(s: Snap, t: Snap, p: Plan, end: int, v: Word, w: Word)
    requires s.HeapOk(end) && s.len == Lengths(s.m) && Collected(s, t, p)
    requires s.Moves(v) && p.Resolved(s, v) && s.Moves(w) && p.Resolved(s, w)
    ensures Target(p.Rename(s, v)) == Target(p.Rename(s, w)) <==> Target(v) == Target(w)
    ensures p.Rename(s, v) == p.Rename(s, w) <==> v == w
  {
    hide Collected, Snap.Tiles, Lengths, Plan.Rename, Target;
    RefSurvives(s, t, p, end, v);
    RefSurvives(s, t, p, end, w);
    ImagesDistinct(s, t, p, Target(v), Target(w));
    if p.Rename(s, v) == p.Rename(s, w) {
      TargetOnly(v, w);
    }
  }

  lemma ImagesDistinct(s: Snap, t: Snap, p: Plan, o: int, q: int)
    requires s.Sized() && Collected(s, t, p) && o in p.fwd && q in p.fwd
    ensures p.fwd[o] == p.fwd[q] ==> o == q
  {
    assert p.ImageOk(s, o) && p.ImageOk(s, q);
    var j := p.fwd[o] - s.ts;
    if p.fwd[o] == p.fwd[q] {
      assert s.Movable(o) && s.Movable(q);
      assert p.owner[j] == o && p.owner[j] == q;
    }
  }

  /** v is a reference and w spells the same one. */
  ghost predicate Confused(s: Snap, p: Plan, v: Word, w: Word)
    requires s.Sized() && |p.owner| == |p.origin|
  {
    s.Moves(v) && Spells(s, p, w) && p.owner[Target(w) - s.ts] == Target(v) && v.lo % 16 == w.lo % 16
  }

  /** Comparing live words for equality: unchanged, but for a reference and
      the word that spells it. */
  lemma EqualitySurvives(s: Snap, t: Snap, p: Plan, end: int, v: Word, w: Word)
    requires s.HeapOk(end) && s.len == Lengths(s.m) && Collected(s, t, p) && p.Resolved(s, v) && p.Resolved(s, w)
    ensures |p.owner| == |p.origin|
    ensures p.Rename(s, v) == p.Rename(s, w) <==> v == w || Confused(s, p, v, w) || Confused(s, p, w, v)
  {
    hide Collected, Snap.Tiles, Lengths, Target;
    CollectedParts(s, t, p);
    if s.Moves(v) && s.Moves(w) {
      SharingSurvives(s, t, p, end, v, w);
    } else if s.Moves(v) {
      RenamedMeets(s, t, p, end, v, w);
    } else if s.Moves(w) {
      RenamedMeets(s, t, p, end, w, v);
    }
  }

  lemma RenamedMeets(s: Snap, t: Snap, p: Plan, end: int, v: Word, w: Word)
    requires s.HeapOk(end) && s.len == Lengths(s.m) && Collected(s, t, p) && s.Moves(v) && p.Resolved(s, v) && !s.Moves(w)
    ensures |p.owner| == |p.origin| && (p.Rename(s, v) == w <==> Confused(s, p, v, w))
  {
    hide Collected, Snap.Tiles, Lengths, Target;
    CollectedParts(s, t, p);
    RefSurvives(s, t, p, end, v);
    SpelledIsRef(s, t, p, end, w);
    OwnerOfImage(s, t, p, Target(v));
    if Confused(s, p, v, w) { TargetOnly(p.Rename(s, v), w); }
  }

  lemma OwnerOfImage(s: Snap, t: Snap, p: Plan, o: int)
    requires s.Sized() && Collected(s, t, p) && o in p.fwd
    ensures |p.owner| == |p.origin| && s.ts <= p.fwd[o] < s.ts + |p.origin| && p.owner[p.fwd[o] - s.ts] == o
  {
    assert s.Movable(o) && p.ImageOk(s, o);
    var j := p.fwd[o] - s.ts;
  }
}
