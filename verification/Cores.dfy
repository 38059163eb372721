/** The file format of a saved core (web/mvm.js:1718-1748): a magic number, the
    length of a JSON header, the header, and the blobs it measures, cut out
    again by a cursor. */
module Cores {
  import opened Bytes
  import opened Results
  import opened Words

  /** Registers: those the collector knows, and the others. */
  datatype Rest = Rest(ebp: int, pc: int, cmp: int, ovf: bool, mmapNext: int, steps: int)
  datatype Regs = Regs(vrl: int32, vrh: int32, va: int, vl: int, esp: int, gcCount: int, rest: Rest)

  datatype Range = Range(addr: int, bytes: seq<byte>)

  datatype Core = Core(version: int, semi: int, regs: Regs, ranges: seq<Range>, g0: int, start: seq<byte>, cons: seq<byte>)

  /** What the JSON text says. */
  datatype Header = Header(version: int, semi: int, regs: Regs, ranges: seq<(int, nat)>, g0: int, startLen: nat, consLen: nat)

  /** JSON.stringify and JSON.parse, in UTF-8. */
  datatype Json = Json(stringify: Header -> seq<byte>, parse: seq<byte> -> Option<Header>)

  /** Texts that the length field can measure read back. */
  ghost predicate Inverse(j: Json) {
    forall h :: Short(j, h) ==> j.parse(j.stringify(h)) == Some(h)
  }

  predicate Short(j: Json, h: Header) {
    |j.stringify(h)| < 0x1_0000_0000
  }

  function HeaderOf(c: Core): Header {
    Header(c.version, c.semi, c.regs, seq(|c.ranges|, i requires 0 <= i < |c.ranges| => (c.ranges[i].addr, |c.ranges[i].bytes|)),
           c.g0, |c.start|, |c.cons|)
  }

  function Blobs(c: Core): (r: seq<seq<byte>>)
    ensures |r| == |c.ranges| + 2
  {
    seq(|c.ranges|, i requires 0 <= i < |c.ranges| => c.ranges[i].bytes) + [c.start, c.cons]
  }

  function Concat(b: seq<seq<byte>>): seq<byte> {
    if b == [] then [] else b[0] + Concat(b[1..])
  }

  const MAGIC: seq<byte> := [0x4D, 0x56, 0x4D, 0x43]

  function Encoded(j: Json, c: Core): seq<byte>
    requires Short(j, HeaderOf(c))
  {
    var hb := j.stringify(HeaderOf(c));
    MAGIC + Le32(|hb|) + hb + Concat(Blobs(c))
  }

  // ---- writing ----------------------------------------------------------------------

  method CopyInto(out: array<byte>, at: nat, b: seq<byte>)
    requires at + |b| <= out.Length
    modifies out
    ensures out[..] == old(out[..])[..at] + b + old(out[..])[at + |b|..]
  {
    for i := 0 to |b|
      invariant out[..] == old(out[..])[..at] + b[..i] + old(out[..])[at + i..]
    {
      out[at + i] := b[i];
      assert b[..i + 1] == b[..i] + [b[i]];
    }
    assert b[..|b|] == b;
  }

  lemma {:induction false} ConcatSnoc(b: seq<seq<byte>>, x: seq<byte>)
    ensures Concat(b + [x]) == Concat(b) + x
  {
    if b == [] {
      assert b + [x] == [x];
    } else {
      assert (b + [x])[1..] == b[1..] + [x];
      ConcatSnoc(b[1..], x);
    }
  }

  method Total(blobs: seq<seq<byte>>, start: nat) returns (total: nat)
    ensures total == start + |Concat(blobs)|
  {
    total := start;
    for i := 0 to |blobs|
      invariant total == start + |Concat(blobs[..i])|
    {
      assert blobs[..i + 1] == blobs[..i] + [blobs[i]];
      ConcatSnoc(blobs[..i], blobs[i]);
      total := total + |blobs[i]|;
    }
    assert blobs[..|blobs|] == blobs;
  }

  lemma BlobGrown(was: seq<byte>, now: seq<byte>, head: seq<byte>, blobs: seq<seq<byte>>, i: nat)
    requires i < |blobs| && |head| + |Concat(blobs[..i])| + |blobs[i]| <= |was|
    requires var p := |head| + |Concat(blobs[..i])|; was[..p] == head + Concat(blobs[..i]) && now == was[..p] + blobs[i] + was[p + |blobs[i]|..]
    ensures var q := |head| + |Concat(blobs[..i + 1])|; q == |head| + |Concat(blobs[..i])| + |blobs[i]| <= |now| && now[..q] == head + Concat(blobs[..i + 1])
  {
    assert blobs[..i + 1] == blobs[..i] + [blobs[i]];
    ConcatSnoc(blobs[..i], blobs[i]);
    hide Concat;
  }

  /** `for (const b of blobs) { out.set(b, p); p += b.length; }` */
  method WriteBlobs(out: array<byte>, at: nat, blobs: seq<seq<byte>>)
    requires at + |Concat(blobs)| == out.Length
    modifies out
    ensures out[..] == old(out[..])[..at] + Concat(blobs)
  {
    ghost var head := out[..at];
    var p := at;
    assert out[..p] == head + Concat(blobs[..0]);
    hide Concat;
    for i := 0 to |blobs|
      invariant p == at + |Concat(blobs[..i])| <= out.Length && out[..][..p] == head + Concat(blobs[..i])
    {
      ConcatPrefix(blobs, i + 1);
      ghost var was := out[..];
      BlobSum(blobs, i);
      CopyInto(out, p, blobs[i]);
      BlobGrown(was, out[..], head, blobs, i);
      p := p + |blobs[i]|;
    }
    assert blobs[..|blobs|] == blobs && out[..][..p] == out[..];
  }

  lemma BlobSum(blobs: seq<seq<byte>>, i: nat)
    requires i < |blobs|
    ensures |Concat(blobs[..i + 1])| == |Concat(blobs[..i])| + |blobs[i]|
  {
    assert blobs[..i + 1] == blobs[..i] + [blobs[i]];
    ConcatSnoc(blobs[..i], blobs[i]);
  }

  method EncodeCore(j: Json, c: Core) returns (out: array<byte>)
    requires Short(j, HeaderOf(c))
    ensures fresh(out) && out[..] == Encoded(j, c)
  {
    hide Concat, Blobs, HeaderOf;
    var hb := j.stringify(HeaderOf(c));
    var blobs := Blobs(c);
    var total := Total(blobs, 8 + |hb|);
    out := new byte[total](_ => 0);
    CopyInto(out, 0, MAGIC);
    assert out[..4] == MAGIC;
    CopyInto(out, 4, Le32(|hb|));
    assert out[..8] == MAGIC + Le32(|hb|);
    CopyInto(out, 8, hb);
    assert out[..8 + |hb|] == MAGIC + Le32(|hb|) + hb;
    WriteBlobs(out, 8 + |hb|, blobs);
  }

  lemma {:induction false} ConcatPrefix(b: seq<seq<byte>>, i: nat)
    requires i <= |b|
    ensures Concat(b) == Concat(b[..i]) + Concat(b[i..])
  {
    if i > 0 {
      ConcatPrefix(b[1..], i - 1);
      assert b[..i][1..] == b[1..][..i - 1] && b[i..] == b[1..][i - 1..];
    } else {
      assert b[..0] == [] && b[0..] == b;
    }
  }

  // ---- reading ----------------------------------------------------------------------

  /** `bytes.subarray(p, p + n)`: cut off where the file ends. */
  function Sub(b: seq<byte>, p: nat, n: nat): (r: seq<byte>)
    ensures p + n <= |b| ==> r == b[p..p + n]
  {
    if p >= |b| then [] else if p + n > |b| then b[p..] else b[p..p + n]
  }

  /** The blobs that lens measure, from p on. */
  function Cut(b: seq<byte>, p: nat, lens: seq<nat>): (r: seq<seq<byte>>)
    ensures |r| == |lens|
    decreases |lens|
  {
    if lens == [] then [] else [Sub(b, p, lens[0])] + Cut(b, p + lens[0], lens[1..])
  }

  function Lens(h: Header): (r: seq<nat>)
    ensures |r| == |h.ranges| + 2
  {
    seq(|h.ranges|, i requires 0 <= i < |h.ranges| => h.ranges[i].1) + [h.startLen, h.consLen]
  }

  /** The core that a header describes, given its blobs. */
  function Assemble(h: Header, blobs: seq<seq<byte>>): Core
    requires |blobs| == |h.ranges| + 2
  {
    Core(h.version, h.semi, h.regs, seq(|h.ranges|, i requires 0 <= i < |h.ranges| => Range(h.ranges[i].0, blobs[i])),
         h.g0, blobs[|h.ranges|], blobs[|h.ranges| + 1])
  }

  function Decoded(j: Json, b: seq<byte>): Result<Core> {
    if |b| < 4 || b[..4] != MAGIC then Err("not an MVMC core")
    else if |b| < 8 then Err("Offset is outside the bounds of the DataView")
    else
      var hl := Get32(b, 4);
      match j.parse(Sub(b, 8, hl))
      case None => Err("SyntaxError")
      case Some(h) => Ok(Assemble(h, Cut(b, 8 + hl, Lens(h))))
  }

  lemma MagicIs(b: seq<byte>)
    requires |b| == 4
    ensures b == MAGIC <==> b[0] == 0x4D && b[1] == 0x56 && b[2] == 0x4D && b[3] == 0x43
  {
  }

  method DecodeCore(j: Json, bytes: seq<byte>) returns (r: Result<Core>)
    ensures r == Decoded(j, bytes)
  {
    if |bytes| >= 4 { MagicIs(bytes[..4]); }
    if |bytes| < 4 || bytes[0] != 0x4D || bytes[1] != 0x56 || bytes[2] != 0x4D || bytes[3] != 0x43 { return Err("not an MVMC core"); }
    if |bytes| < 8 { return Err("Offset is outside the bounds of the DataView"); }
    var hl := Get32(bytes, 4);
    var parsed := j.parse(Sub(bytes, 8, hl));
    if parsed.None? { return Err("SyntaxError"); }
    var h := parsed.value;
    var blobs := CutBlobs(bytes, 8 + hl, Lens(h));
    r := Ok(Assemble(h, blobs));
  }

  /** The cursor loop: take(n) cuts n bytes and moves on. */
  method CutBlobs(bytes: seq<byte>, start: nat, lens: seq<nat>) returns (blobs: seq<seq<byte>>)
    ensures blobs == Cut(bytes, start, lens)
  {
    hide Sub;
    var p := start;
    blobs := [];
    for i := 0 to |lens|
      invariant |blobs| == i && blobs + Cut(bytes, p, lens[i..]) == Cut(bytes, start, lens)
    {
      var n := lens[i];
      assert lens[i..][1..] == lens[i + 1..];
      blobs, p := blobs + [Sub(bytes, p, n)], p + n;
    }
    assert lens[|lens|..] == [] && Cut(bytes, p, lens[|lens|..]) == [] && blobs + [] == blobs;
  }

  // ---- the round trip -----------------------------------------------------------------

  function Measure(b: seq<seq<byte>>): (r: seq<nat>)
    ensures |r| == |b|
  {
    seq(|b|, i requires 0 <= i < |b| => |b[i]|)
  }

  /** The cursor cuts out exactly the blobs that were put one after another. */
  lemma {:induction false} CutConcat(head: seq<byte>, b: seq<seq<byte>>)
    ensures Cut(head + Concat(b), |head|, Measure(b)) == b
    decreases |b|
  {
    if b != [] {
      CutConcat(head + b[0], b[1..]);
      CutFirst(head, b[0], Concat(b[1..]), Measure(b));
      MeasureTail(b);
      hide Measure, Cut;
      assert head + Concat(b) == head + b[0] + Concat(b[1..]);
    }
  }

  lemma MeasureTail(b: seq<seq<byte>>)
    requires b != []
    ensures Measure(b)[0] == |b[0]| && Measure(b)[1..] == Measure(b[1..])
  {
  }

  lemma CutFirst(head: seq<byte>, x: seq<byte>, rest: seq<byte>, lens: seq<nat>)
    requires lens != [] && lens[0] == |x|
    ensures Cut(head + x + rest, |head|, lens) == [x] + Cut(head + x + rest, |head + x|, lens[1..])
  {
    assert (head + x + rest)[|head|..|head| + |x|] == x;
  }

  /** The file: MVMC, the length of the header's text, the text, the ranges'
      bytes one after another, then the start bits and the cons bits. */
  lemma EncodedIs(j: Json, c: Core, k: nat)
    requires Short(j, HeaderOf(c)) && k < |c.ranges|
    ensures var b, t := Encoded(j, c), j.stringify(HeaderOf(c)); var p := 8 + |t|;
      && |b| == p + |Concat(Payloads(c))| + |c.start| + |c.cons|
      && b[0..4] == [0x4D, 0x56, 0x4D, 0x43] && Get32(b, 4) == |t| && b[8..p] == t
      && b[p..p + |Concat(Payloads(c))|] == Concat(Payloads(c))
      && b[p + |Concat(Payloads(c))|..|b| - |c.cons|] == c.start && b[|b| - |c.cons|..] == c.cons
    ensures Payloads(c)[k] == c.ranges[k].bytes && HeaderOf(c).ranges[k] == (c.ranges[k].addr, |c.ranges[k].bytes|)
  {
    var b, t := Encoded(j, c), j.stringify(HeaderOf(c));
    var body := Concat(Payloads(c));
    ConcatSnoc(Payloads(c), c.start);
    ConcatSnoc(Payloads(c) + [c.start], c.cons);
    assert Blobs(c) == Payloads(c) + [c.start] + [c.cons];
    assert b == MAGIC + Le32(|t|) + t + (body + c.start + c.cons);
    assert b[4..8] == Le32(|t|);
    Le32Get(|t|, b, 4);
    hide Concat, Payloads, Blobs, HeaderOf, Get32;
    var head := MAGIC + Le32(|t|) + t;
    assert b == head + body + c.start + c.cons;
    assert |head| == 8 + |t|;
  }

  function Payloads(c: Core): seq<seq<byte>> {
    seq(|c.ranges|, i requires 0 <= i < |c.ranges| => c.ranges[i].bytes)
  }

  /** Decoding what was encoded gives the core back. */
  lemma CoreRoundTrip(j: Json, c: Core)
    requires Short(j, HeaderOf(c)) && j.parse(j.stringify(HeaderOf(c))) == Some(HeaderOf(c))
    ensures Decoded(j, Encoded(j, c)) == Ok(c)
  {
    var h := HeaderOf(c);
    var hb := j.stringify(h);
    var b := Encoded(j, c);
    var head := MAGIC + Le32(|hb|) + hb;
    assert b == head + Concat(Blobs(c));
    assert b[..4] == MAGIC && b[4..8] == Le32(|hb|) && b[8..8 + |hb|] == hb;
    Le32Get(|hb|, b, 4);
    CutConcat(head, Blobs(c));
    assert Lens(h) == Measure(Blobs(c));
    assert Assemble(h, Blobs(c)).ranges == c.ranges;
  }
}
