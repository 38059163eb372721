/** The JSON text of a core's header, as JSON.stringify writes it
    (web/mvm.js:1720-1726), and a reader of such texts. */
module JsonText {
  import opened Bytes
  import opened Cores
  import opened Results

  function Ascii(s: string): (r: seq<byte>)
    ensures |r| == |s|
  {
    seq(|s|, i requires 0 <= i < |s| => (s[i] as int) % 256)
  }

  // ---- numbers ------------------------------------------------------------------------

  predicate IsDigit(b: byte) { 48 <= b < 58 }

  function Digits(n: nat): (r: seq<byte>)
    ensures r != [] && IsDigit(r[0])
  {
    if n < 10 then [48 + n] else Digits(n / 10) + [48 + n % 10]
  }

  function Number(x: int): (r: seq<byte>)
    ensures r != []
  {
    if x < 0 then [45] + Digits(-x) else Digits(x)
  }

  /** The digits at the front of b, behind those that made v. */
  function Scan(v: nat, b: seq<byte>): (r: (nat, seq<byte>))
    ensures |r.1| <= |b|
    decreases |b|
  {
    if b == [] || !IsDigit(b[0]) then (v, b) else Scan(10 * v + (b[0] - 48), b[1..])
  }

  function ReadNat(b: seq<byte>): (r: Option<(nat, seq<byte>)>)
    ensures r.Some? ==> |r.value.1| < |b|
  {
    if b == [] || !IsDigit(b[0]) then None else Some(Scan(b[0] - 48, b[1..]))
  }

  function ReadInt(b: seq<byte>): (r: Option<(int, seq<byte>)>)
    ensures r.Some? ==> |r.value.1| < |b|
  {
    if b != [] && b[0] == 45 then
      match ReadNat(b[1..])
      case None => None
      case Some((v, rest)) => Some((0 - v, rest))
    else
      match ReadNat(b)
      case None => None
      case Some((v, rest)) => Some((v, rest))
  }

  /** A number ends here. */
  predicate Stops(b: seq<byte>) { b == [] || !IsDigit(b[0]) }

  lemma {:induction false} DigitsScan(n: nat, rest: seq<byte>)
    ensures Scan(0, Digits(n) + rest) == Scan(n, rest)
  {
    if n >= 10 {
      var d: seq<byte> := [48 + n % 10];
      assert Digits(n) + rest == Digits(n / 10) + (d + rest);
      DigitsScan(n / 10, d + rest);
      assert (d + rest)[1..] == rest;
    } else {
      assert (Digits(n) + rest)[1..] == rest;
    }
  }

  lemma DigitsRead(n: nat, rest: seq<byte>)
    requires Stops(rest)
    ensures ReadNat(Digits(n) + rest) == Some((n, rest))
  {
    hide Digits;
    DigitsScan(n, rest);
    assert (Digits(n) + rest)[0] == Digits(n)[0];
  }

  lemma NumberReads(x: int, rest: seq<byte>)
    requires Stops(rest)
    ensures ReadInt(Number(x) + rest) == Some((x, rest))
  {
    hide Digits, ReadNat;
    if x < 0 {
      DigitsRead(-x, rest);
      assert (Number(x) + rest)[1..] == Digits(-x) + rest;
    } else {
      DigitsRead(x, rest);
      assert (Number(x) + rest)[0] == Digits(x)[0];
    }
  }

  // ---- labelled numbers ---------------------------------------------------------------

  function Write(labels: seq<seq<byte>>, xs: seq<int>): seq<byte>
    requires |labels| == |xs|
    decreases |labels|
  {
    if labels == [] then [] else labels[0] + Number(xs[0]) + Write(labels[1..], xs[1..])
  }

  function Read(labels: seq<seq<byte>>, b: seq<byte>): (r: Option<(seq<int>, seq<byte>)>)
    ensures r.Some? ==> |r.value.0| == |labels| && |r.value.1| + |labels| <= |b|
    decreases |labels|
  {
    if labels == [] then Some(([], b))
    else if !(labels[0] <= b) then None
    else match ReadInt(b[|labels[0]|..])
      case None => None
      case Some((x, rest)) =>
        match Read(labels[1..], rest)
        case None => None
        case Some((xs, end)) => Some(([x] + xs, end))
  }

  /** Labels that end the number before them. */
  predicate Proper(labels: seq<seq<byte>>) {
    forall i :: 0 <= i < |labels| ==> labels[i] != [] && !IsDigit(labels[i][0])
  }

  lemma {:induction false} WriteReads(labels: seq<seq<byte>>, xs: seq<int>, rest: seq<byte>)
    requires |labels| == |xs| && Proper(labels) && Stops(rest)
    ensures Read(labels, Write(labels, xs) + rest) == Some((xs, rest))
    decreases |labels|
  {
    hide Number, ReadInt, Stops;
    if labels != [] {
      var tail := Write(labels[1..], xs[1..]) + rest;
      WriteReads(labels[1..], xs[1..], rest);
      assert Write(labels, xs) + rest == labels[0] + (Number(xs[0]) + tail);
      WriteStops(labels[1..], xs[1..], rest);
      NumberReads(xs[0], tail);
      Joined(labels[0], Number(xs[0]) + tail);
      assert [xs[0]] + xs[1..] == xs;
    } else {
      assert Write(labels, xs) + rest == rest;
    }
  }

  lemma WriteStops(labels: seq<seq<byte>>, xs: seq<int>, rest: seq<byte>)
    requires |labels| == |xs| && Proper(labels) && Stops(rest)
    ensures Stops(Write(labels, xs) + rest)
  {
    hide Number;
    if labels == [] { assert [] + rest == rest; }
  }

  // ---- the header ----------------------------------------------------------------------

  function Before(): (r: seq<seq<byte>>)
    ensures |r| == 10
  {
    [Ascii("{\"version\":"), Ascii(",\"semi\":"), Ascii(",\"regs\":{\"vrl\":"), Ascii(",\"vrh\":"), Ascii(",\"va\":"), Ascii(",\"vl\":"),
     Ascii(",\"esp\":"), Ascii(",\"ebp\":"), Ascii(",\"pc\":"), Ascii(",\"cmp\":")]
  }

  function Flag(ovf: bool): seq<byte> {
    if ovf then Ascii(",\"ovf\":true") else Ascii(",\"ovf\":false")
  }

  function Middle(): (r: seq<seq<byte>>)
    ensures |r| == 3
  {
    [Ascii(",\"gcCount\":"), Ascii(",\"mmapNext\":"), Ascii(",\"steps\":")]
  }

  function List(): seq<byte> { Ascii("},\"ranges\":[") }

  function Item(first: bool): (r: seq<seq<byte>>)
    ensures |r| == 2
  {
    [if first then Ascii("{\"addr\":") else Ascii(",{\"addr\":"), Ascii(",\"len\":")]
  }

  function Behind(): (r: seq<seq<byte>>)
    ensures |r| == 3
  {
    [Ascii("],\"bitmaps\":{\"g0\":"), Ascii(",\"startLen\":"), Ascii(",\"consLen\":")]
  }

  function End(): seq<byte> { Ascii("}}") }

  const CLOSE: seq<byte> := [125]

  function WriteItems(first: bool, rs: seq<(int, nat)>): seq<byte>
    decreases |rs|
  {
    if rs == [] then [] else Write(Item(first), [rs[0].0, rs[0].1]) + CLOSE + WriteItems(false, rs[1..])
  }

  function ReadItems(first: bool, b: seq<byte>): (r: Option<(seq<(int, nat)>, seq<byte>)>)
    decreases |b|
  {
    match Read(Item(first), b)
    case None => Some(([], b))
    case Some((xs, rest)) =>
      if xs[1] < 0 || !(CLOSE <= rest) then None
      else match ReadItems(false, rest[1..])
        case None => None
        case Some((rs, end)) => Some(([(xs[0], xs[1])] + rs, end))
  }

  function Stringify(h: Header): seq<byte> {
    var r, q := h.regs, h.regs.rest;
    Write(Before(), [h.version, h.semi, r.vrl, r.vrh, r.va, r.vl, r.esp, q.ebp, q.pc, q.cmp]) +
    (Flag(q.ovf) + (Write(Middle(), [r.gcCount, q.mmapNext, q.steps]) +
    (List() + (WriteItems(true, h.ranges) + (Write(Behind(), [h.g0, h.startLen, h.consLen]) + End())))))
  }

  predicate Is32(x: int) { -0x8000_0000 <= x < 0x8000_0000 }

  function ReadBehind(a: seq<int>, ovf: bool, m: seq<int>, rs: seq<(int, nat)>, b: seq<byte>): Option<Header>
    requires |a| == 10 && |m| == 3
  {
    match Read(Behind(), b)
    case None => None
    case Some((z, end)) =>
      if end != End() || z[1] < 0 || z[2] < 0 || !Is32(a[2]) || !Is32(a[3]) then None
      else Some(Header(a[0], a[1], Regs(a[2], a[3], a[4], a[5], a[6], m[0], Rest(a[7], a[8], a[9], ovf, m[1], m[2])), rs, z[0], z[1], z[2]))
  }

  function ReadMiddle(a: seq<int>, ovf: bool, b: seq<byte>): Option<Header>
    requires |a| == 10
  {
    match Read(Middle(), b)
    case None => None
    case Some((m, rest)) =>
      if !(List() <= rest) then None
      else match ReadItems(true, rest[|List()|..])
        case None => None
        case Some((rs, rest1)) => ReadBehind(a, ovf, m, rs, rest1)
  }

  function Parse(b: seq<byte>): Option<Header> {
    match Read(Before(), b)
    case None => None
    case Some((a, rest)) =>
      if Flag(true) <= rest then ReadMiddle(a, true, rest[|Flag(true)|..])
      else if Flag(false) <= rest then ReadMiddle(a, false, rest[|Flag(false)|..])
      else None
  }

  function Text(): Json {
    Json(Stringify, Parse)
  }

  /** A label, its number and what is behind them. */
  function Cell(before: seq<byte>, x: int, rest: seq<byte>): seq<byte> {
    before + Number(x) + rest
  }

  /** One range of the list. */
  function RangeText(before: string, x: int, n: int): seq<byte> {
    Cell(Ascii(before), x, Cell(Ascii(",\"len\":"), n, [])) + Ascii("}")
  }

  /** The text, spelled out, of a header with two ranges. */
  lemma TextIs(h: Header)
    requires |h.ranges| == 2
    ensures var r, q, x, y := h.regs, h.regs.rest, h.ranges[0], h.ranges[1];
      Stringify(h) ==
        Cell(Ascii("{\"version\":"), h.version, Cell(Ascii(",\"semi\":"), h.semi, Cell(Ascii(",\"regs\":{\"vrl\":"), r.vrl,
        Cell(Ascii(",\"vrh\":"), r.vrh, Cell(Ascii(",\"va\":"), r.va, Cell(Ascii(",\"vl\":"), r.vl, Cell(Ascii(",\"esp\":"), r.esp,
        Cell(Ascii(",\"ebp\":"), q.ebp, Cell(Ascii(",\"pc\":"), q.pc, Cell(Ascii(",\"cmp\":"), q.cmp, [])))))))))) +
        (Ascii(if q.ovf then ",\"ovf\":true" else ",\"ovf\":false") +
        (Cell(Ascii(",\"gcCount\":"), r.gcCount, Cell(Ascii(",\"mmapNext\":"), q.mmapNext, Cell(Ascii(",\"steps\":"), q.steps, []))) +
        (Ascii("},\"ranges\":[") +
        (RangeText("{\"addr\":", x.0, x.1) + (RangeText(",{\"addr\":", y.0, y.1) + []) +
        (Cell(Ascii("],\"bitmaps\":{\"g0\":"), h.g0, Cell(Ascii(",\"startLen\":"), h.startLen, Cell(Ascii(",\"consLen\":"), h.consLen, []))) +
        Ascii("}}"))))))
  {
    hide Number, Ascii, RangeText, Cell, Write, WriteItems;
    WriteThree(Middle(), [h.regs.gcCount, h.regs.rest.mmapNext, h.regs.rest.steps]);
    WriteThree(Behind(), [h.g0, h.startLen, h.consLen]);
    WriteTen(Before(), [h.version, h.semi, h.regs.vrl, h.regs.vrh, h.regs.va, h.regs.vl, h.regs.esp, h.regs.rest.ebp, h.regs.rest.pc, h.regs.rest.cmp]);
    TwoItems(h.ranges);
  }

  lemma WriteThree(l: seq<seq<byte>>, x: seq<int>)
    requires |l| == |x| == 3
    ensures Write(l, x) == Cell(l[0], x[0], Cell(l[1], x[1], Cell(l[2], x[2], [])))
  {
    hide Cell;
    WriteStep(l, x, 0);
    WriteStep(l, x, 1);
    WriteStep(l, x, 2);
    assert l[0..] == l && x[0..] == x && Write(l[3..], x[3..]) == [];
    hide Write;
  }

  lemma WriteTen(l: seq<seq<byte>>, x: seq<int>)
    requires |l| == |x| == 10
    ensures Write(l, x) ==
      Cell(l[0], x[0], Cell(l[1], x[1], Cell(l[2], x[2], Cell(l[3], x[3], Cell(l[4], x[4], Cell(l[5], x[5],
      Cell(l[6], x[6], Cell(l[7], x[7], Cell(l[8], x[8], Cell(l[9], x[9], []))))))))))
  {
    hide Write, Cell;
    WriteStep(l, x, 0);
    WriteStep(l, x, 1);
    WriteStep(l, x, 2);
    WriteStep(l, x, 3);
    WriteStep(l, x, 4);
    WriteStep(l, x, 5);
    WriteStep(l, x, 6);
    WriteThree(l[7..], x[7..]);
    assert l[0..] == l && x[0..] == x;
  }

  lemma WriteStep(l: seq<seq<byte>>, x: seq<int>, i: nat)
    requires i < |l| == |x|
    ensures Write(l[i..], x[i..]) == Cell(l[i], x[i], Write(l[i + 1..], x[i + 1..]))
  {
    hide Number;
    assert l[i..][1..] == l[i + 1..] && x[i..][1..] == x[i + 1..];
  }

  lemma WriteTwo(l: seq<seq<byte>>, x: seq<int>)
    requires |l| == |x| == 2
    ensures Write(l, x) == Cell(l[0], x[0], Cell(l[1], x[1], []))
  {
    hide Cell;
    WriteStep(l, x, 0);
    WriteStep(l, x, 1);
    assert l[0..] == l && x[0..] == x && Write(l[2..], x[2..]) == [];
    hide Write;
  }

  lemma OneItem(first: bool, rs: seq<(int, nat)>)
    requires rs != []
    ensures WriteItems(first, rs) == Write(Item(first), [rs[0].0, rs[0].1]) + CLOSE + WriteItems(false, rs[1..])
  {
    hide Write, Item;
  }

  lemma NoItems()
    ensures WriteItems(false, []) == []
  {
  }

  lemma ItemIs(first: bool, x: int, n: int)
    ensures Write(Item(first), [x, n]) + CLOSE == RangeText(if first then "{\"addr\":" else ",{\"addr\":", x, n)
  {
    assert CLOSE == Ascii("}");
    WriteTwo(Item(first), [x, n]);
    hide Write, Cell, Ascii;
  }

  lemma TwoItems(rs: seq<(int, nat)>)
    requires |rs| == 2
    ensures WriteItems(true, rs) == RangeText("{\"addr\":", rs[0].0, rs[0].1) + (RangeText(",{\"addr\":", rs[1].0, rs[1].1) + [])
  {
    hide Number, Ascii, Write, WriteItems, Item, RangeText;
    OneItem(true, rs);
    OneItem(false, rs[1..]);
    NoItems();
    ItemIs(true, rs[0].0, rs[0].1);
    ItemIs(false, rs[1].0, rs[1].1);
    assert rs[1..][1..] == [];
  }

  /** Numbers are decimal, and text is ASCII. */
  lemma NumberIs(n: nat)
    ensures Digits(n)[|Digits(n)| - 1] == ("0123456789"[n % 10] as int) && (n >= 10 ==> Digits(n)[..|Digits(n)| - 1] == Digits(n / 10)) && (n < 10 ==> |Digits(n)| == 1)
    ensures n > 0 ==> Number(0 - n) == Ascii("-") + Digits(n)
    ensures Ascii("09{}") == [48, 57, 123, 125]
  {
  }

  // ---- the text reads back -------------------------------------------------------------

  lemma LabelsProper()
    ensures Proper(Before()) && Proper(Middle()) && Proper(Item(true)) && Proper(Item(false)) && Proper(Behind())
    ensures Stops(End()) && Stops(CLOSE) && Stops(List()) && Stops(Flag(true)) && Stops(Flag(false))
  {
  }

  lemma Joined(a: seq<byte>, b: seq<byte>)
    ensures a <= a + b && (a + b)[|a|..] == b
    ensures a != [] && Stops(a) ==> Stops(a + b)
  {
  }

  /** Behind the ranges comes a bracket, not another range. */
  lemma NoItem(first: bool, xs: seq<int>, rest: seq<byte>)
    requires |xs| == 3
    ensures ReadItems(first, Write(Behind(), xs) + rest) == Some(([], Write(Behind(), xs) + rest))
  {
    var b := Write(Behind(), xs) + rest;
    hide Write;
    WriteFirst(Behind(), xs, rest);
    assert b[0] == 93 && Item(first)[0][0] != 93;
  }

  lemma WriteFirst(labels: seq<seq<byte>>, xs: seq<int>, rest: seq<byte>)
    requires |labels| == |xs| > 0 && labels[0] != []
    ensures |Write(labels, xs) + rest| > 0 && (Write(labels, xs) + rest)[0] == labels[0][0]
  {
    hide Number;
  }

  lemma {:induction false} ItemsRead(first: bool, rs: seq<(int, nat)>, xs: seq<int>, rest: seq<byte>)
    requires |xs| == 3
    ensures ReadItems(first, WriteItems(first, rs) + (Write(Behind(), xs) + rest)) == Some((rs, Write(Behind(), xs) + rest))
    decreases |rs|
  {
    hide Item, Behind, Write, Read, Stops, Proper;
    var tail := Write(Behind(), xs) + rest;
    if rs == [] {
      assert WriteItems(first, rs) + tail == tail;
      NoItem(first, xs, rest);
    } else {
      var more := WriteItems(false, rs[1..]) + tail;
      var item := Write(Item(first), [rs[0].0, rs[0].1]);
      ItemsRead(false, rs[1..], xs, rest);
      assert WriteItems(first, rs) + tail == item + (CLOSE + more);
      ItemReads(first, rs[0], more);
      assert [rs[0]] + rs[1..] == rs;
    }
  }

  lemma ItemReads(first: bool, x: (int, nat), more: seq<byte>)
    ensures ReadItems(first, Write(Item(first), [x.0, x.1]) + (CLOSE + more)) ==
      match ReadItems(false, more) case None => None case Some((rs, end)) => Some(([x] + rs, end))
  {
    hide Item, Write, Read;
    LabelsProper();
    Joined(CLOSE, more);
    WriteReads(Item(first), [x.0, x.1], CLOSE + more);
  }

  lemma BehindReads(h: Header)
    ensures var r, q := h.regs, h.regs.rest;
      ReadBehind([h.version, h.semi, r.vrl, r.vrh, r.va, r.vl, r.esp, q.ebp, q.pc, q.cmp], q.ovf, [r.gcCount, q.mmapNext, q.steps], h.ranges,
                 Write(Behind(), [h.g0, h.startLen, h.consLen]) + End()) == Some(h)
  {
    hide Write, Read, Behind, End;
    LabelsProper();
    WriteReads(Behind(), [h.g0, h.startLen, h.consLen], End());
  }

  lemma MiddleReads(h: Header)
    ensures var r, q := h.regs, h.regs.rest;
      ReadMiddle([h.version, h.semi, r.vrl, r.vrh, r.va, r.vl, r.esp, q.ebp, q.pc, q.cmp], q.ovf,
                 Write(Middle(), [r.gcCount, q.mmapNext, q.steps]) +
                 (List() + (WriteItems(true, h.ranges) + (Write(Behind(), [h.g0, h.startLen, h.consLen]) + End())))) == Some(h)
  {
    hide Write, Read, Behind, End, Middle, List, ReadItems, WriteItems, ReadBehind;
    LabelsProper();
    var tail := WriteItems(true, h.ranges) + (Write(Behind(), [h.g0, h.startLen, h.consLen]) + End());
    ListStarts();
    Joined(List(), tail);
    WriteReads(Middle(), [h.regs.gcCount, h.regs.rest.mmapNext, h.regs.rest.steps], List() + tail);
    ItemsRead(true, h.ranges, [h.g0, h.startLen, h.consLen], End());
    BehindReads(h);
  }

  lemma ListStarts()
    ensures List() != [] && Flag(true) != [] && Flag(false) != []
  {
  }

  /** Reading the text of a header gives the header. */
  lemma TextReads(h: Header)
    ensures Parse(Stringify(h)) == Some(h)
  {
    hide Write, Read, Before, Middle, Behind, End, List, WriteItems, ReadMiddle, Flag;
    var r, q := h.regs, h.regs.rest;
    var tail := Write(Middle(), [r.gcCount, q.mmapNext, q.steps]) +
                (List() + (WriteItems(true, h.ranges) + (Write(Behind(), [h.g0, h.startLen, h.consLen]) + End())));
    LabelsProper();
    ListStarts();
    Joined(Flag(q.ovf), tail);
    WriteReads(Before(), [h.version, h.semi, r.vrl, r.vrh, r.va, r.vl, r.esp, q.ebp, q.pc, q.cmp], Flag(q.ovf) + tail);
    FlagsApart(tail);
    MiddleReads(h);
  }

  lemma FlagsApart(tail: seq<byte>)
    ensures !(Flag(true) <= Flag(false) + tail)
  {
    assert (Flag(false) + tail)[7] == 102 && Flag(true)[7] == 116;
  }

  /** So JSON text is such a format as a core file needs. */
  lemma TextInverse()
    ensures Inverse(Text())
  {
    hide Stringify, Parse;
    forall h: Header
      ensures Parse(Stringify(h)) == Some(h)
    {
      TextReads(h);
    }
  }

  // ---- and is short ----------------------------------------------------------------------

  function Ten(k: nat): nat { if k == 0 then 1 else 10 * Ten(k - 1) }

  lemma {:induction false} DigitsShort(n: nat, k: nat)
    requires k > 0 && n < Ten(k)
    ensures |Digits(n)| <= k
  {
    if n >= 10 {
      assert Ten(1) == 10 * Ten(0);
      DigitsShort(n / 10, k - 1);
    }
  }

  /** An integer that a double holds exactly. */
  predicate Safe(x: int) { -0x20_0000_0000_0000 < x < 0x20_0000_0000_0000 }

  lemma NumberShort(x: int)
    requires Safe(x)
    ensures |Number(x)| <= 17
  {
    assert Ten(16) == 10_000_000_000_000_000 by {
      assert Ten(4) == 10_000;
      assert Ten(8) == 100_000_000;
      assert Ten(12) == 1_000_000_000_000;
    }
    DigitsShort(if x < 0 then -x else x, 16);
  }

  lemma {:induction false} WriteShort(labels: seq<seq<byte>>, xs: seq<int>)
    requires |labels| == |xs| && (forall i :: 0 <= i < |xs| ==> |labels[i]| <= 20 && Safe(xs[i]))
    ensures |Write(labels, xs)| <= 37 * |xs|
    decreases |xs|
  {
    hide Number;
    if labels != [] {
      NumberShort(xs[0]);
      WriteShort(labels[1..], xs[1..]);
    }
  }

  lemma {:induction false} ItemsShort(first: bool, rs: seq<(int, nat)>)
    requires forall i :: 0 <= i < |rs| ==> Safe(rs[i].0) && Safe(rs[i].1)
    ensures |WriteItems(first, rs)| <= 75 * |rs|
    decreases |rs|
  {
    hide Write;
    if rs != [] {
      WriteShort(Item(first), [rs[0].0, rs[0].1]);
      ItemsShort(false, rs[1..]);
    }
  }

  /** Every number of the header is an exact double. */
  predicate Plain(h: Header) {
    var r, q := h.regs, h.regs.rest;
    && Safe(h.version) && Safe(h.semi) && Safe(r.va) && Safe(r.vl) && Safe(r.esp) && Safe(q.ebp) && Safe(q.pc) && Safe(q.cmp)
    && Safe(r.gcCount) && Safe(q.mmapNext) && Safe(q.steps) && Safe(h.g0) && Safe(h.startLen) && Safe(h.consLen)
    && forall i :: 0 <= i < |h.ranges| ==> Safe(h.ranges[i].0) && Safe(h.ranges[i].1)
  }

  lemma LabelsShort()
    ensures forall i :: 0 <= i < 10 ==> |Before()[i]| <= 20
    ensures forall i :: 0 <= i < 3 ==> |Middle()[i]| <= 20 && |Behind()[i]| <= 20
    ensures |Flag(true)| <= 20 && |Flag(false)| <= 20 && |List()| <= 20 && |End()| <= 20
  {
  }

  /** The text of a header of a few ranges fits the length field with ease. */
  lemma TextShort(h: Header)
    requires Plain(h)
    ensures |Stringify(h)| <= 800 + 75 * |h.ranges|
  {
    hide Write, WriteItems, Before, Middle, Behind, Flag, List, End;
    var r, q := h.regs, h.regs.rest;
    LabelsShort();
    WriteShort(Before(), [h.version, h.semi, r.vrl, r.vrh, r.va, r.vl, r.esp, q.ebp, q.pc, q.cmp]);
    WriteShort(Middle(), [r.gcCount, q.mmapNext, q.steps]);
    WriteShort(Behind(), [h.g0, h.startLen, h.consLen]);
    ItemsShort(true, h.ranges);
  }
}
