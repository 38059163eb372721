/** add_sections (scripts/make-uki.py:9-42): new sections at the end of a PE/COFF
    image (Microsoft PE Format, "Section Table (Section Headers)" and "Optional
    Header Windows-Specific Fields").  What it writes parses back to the old
    sections followed by the new ones. */
module Uki {
  import opened Bytes
  import opened Results
  import opened Words

  datatype Section = Section(name: seq<byte>, payload: seq<byte>)

  /** A section header as a loader reads it. */
  datatype Header = Header(name: seq<byte>, vsize: int, va: int, rawSize: int, rawPtr: int, middle: seq<byte>, flags: int)

  const READ_DATA := 0x4000_0040     // INITIALIZED_DATA | READ

  function Align(x: int, a: nat): int
    requires a > 0
  {
    (x + a - 1) / a * a
  }

  lemma Aligned(x: int, a: nat)
    requires a > 0
    ensures x <= Align(x, a) < x + a && Align(x, a) % a == 0
  {
    var q := (x + a - 1) / a;
    assert x + a - 1 == a * q + (x + a - 1) % a;
    assert q * a == a * q;
    MulMod(a, q);
  }

  function Get16(b: seq<byte>, at: nat): (r: int)
    requires at + 2 <= |b|
    ensures 0 <= r < 0x1_0000
  {
    var lo: int, hi: int := b[at], b[at + 1];
    lo + 0x100 * hi
  }

  function Put16(b: seq<byte>, at: nat, v: int): (r: seq<byte>)
    requires at + 2 <= |b| && 0 <= v < 0x1_0000
    ensures |r| == |b| && forall k :: 0 <= k < |b| && k != at && k != at + 1 ==> r[k] == b[k]
    ensures Get16(r, at) == v
  {
    b[at := v % 0x100][at + 1 := v / 0x100]
  }

  // ---- the headers ----------------------------------------------------------------------

  /** The fixed fields can be read. */
  predicate Readable(b: seq<byte>) {
    |b| >= 0x40 && Get32(b, 0x3c) + 22 <= |b|
  }

  function Coff(b: seq<byte>): nat
    requires Readable(b)
  {
    Get32(b, 0x3c) + 4
  }

  function Count(b: seq<byte>): nat
    requires Readable(b)
  {
    Get16(b, Coff(b) + 2)
  }

  function Opt(b: seq<byte>): nat
    requires Readable(b)
  {
    Coff(b) + 20
  }

  function Table(b: seq<byte>): nat
    requires Readable(b)
  {
    Opt(b) + Get16(b, Coff(b) + 16)
  }

  function HeaderAt(b: seq<byte>, at: nat): Header
    requires at + 40 <= |b|
  {
    Header(b[at..at + 8], Get32(b, at + 8), Get32(b, at + 12), Get32(b, at + 16), Get32(b, at + 20), b[at + 24..at + 36], Get32(b, at + 36))
  }

  /** The table can be read as far as the program reads it, and is not empty. */
  predicate TableReadable(b: seq<byte>)
    requires Readable(b)
  {
    Count(b) > 0 && Table(b) + 40 * (Count(b) - 1) + 24 <= |b|
  }

  function RawPtr(b: seq<byte>, i: nat): int
    requires Readable(b) && TableReadable(b) && i < Count(b)
  {
    Get32(b, Table(b) + 40 * i + 20)
  }

  function VirtualEnd(b: seq<byte>, i: nat): int
    requires Readable(b) && TableReadable(b) && i < Count(b)
  {
    Get32(b, Table(b) + 40 * i + 12) + Get32(b, Table(b) + 40 * i + 8)
  }

  /** What an image must be like for the result to make sense: the PE header
      behind the DOS header, an optional header long enough to hold
      SizeOfImage, and the sections' data in the file. */
  predicate WellFormed(b: seq<byte>) {
    && Readable(b) && TableReadable(b)
    && Get32(b, 0x3c) >= 0x40 && Get16(b, Coff(b) + 16) >= 60
    && exists i :: 0 <= i < Count(b) && RawPtr(b, i) <= |b|
  }

  // ---- a new section header -----------------------------------------------------------------

  /** name.encode().ljust(8, b'\0'), cut off at 8 bytes */
  function Name8(s: Section): (r: seq<byte>)
    ensures |r| == 8
  {
    if |s.name| >= 8 then s.name[..8] else s.name + Zeros(8 - |s.name|)
  }

  /** struct.pack('<8sIIIIIIHHI', ...) */
  function Entry(s: Section, va: int, rawPtr: int): (r: seq<byte>)
    requires Packable(s, va, rawPtr)
    ensures |r| == 40
  {
    Name8(s) + Le32(|s.payload|) + Le32(va) + Le32(Align(|s.payload|, 0x200)) + Le32(rawPtr) + Zeros(12) + Le32(READ_DATA)
  }

  predicate Packable(s: Section, va: int, rawPtr: int) {
    0 <= va < 0x1_0000_0000 && 0 <= rawPtr < 0x1_0000_0000 && |s.payload| <= 0xFFFF_FE00 && 0 <= Align(|s.payload|, 0x200) < 0x1_0000_0000
  }

  function Sectored(p: seq<byte>): seq<byte> {
    Aligned(|p|, 0x200);
    p + Zeros(Align(|p|, 0x200) - |p|)
  }

  /** A packed header reads back. */
  lemma EntryReads(b: seq<byte>, at: nat, s: Section, va: int, rawPtr: int)
    requires at + 40 <= |b| && Packable(s, va, rawPtr) && b[at..at + 40] == Entry(s, va, rawPtr)
    ensures HeaderAt(b, at) == Header(Name8(s), |s.payload|, va, Align(|s.payload|, 0x200), rawPtr, Zeros(12), READ_DATA)
  {
    hide Align, Get32, Le32, Zeros, Name8;
    EntryParts(s, va, rawPtr);
    var e := Entry(s, va, rawPtr);
    hide Entry;
    SubSlice(b, at, at + 40, 0, 8);
    SubSlice(b, at, at + 40, 8, 12);
    SubSlice(b, at, at + 40, 12, 16);
    SubSlice(b, at, at + 40, 16, 20);
    SubSlice(b, at, at + 40, 20, 24);
    SubSlice(b, at, at + 40, 24, 36);
    SubSlice(b, at, at + 40, 36, 40);
    Le32Get(|s.payload|, b, at + 8);
    Le32Get(va, b, at + 12);
    Le32Get(Align(|s.payload|, 0x200), b, at + 16);
    Le32Get(rawPtr, b, at + 20);
    Le32Get(READ_DATA, b, at + 36);
  }

  lemma EntryParts(s: Section, va: int, rawPtr: int)
    requires Packable(s, va, rawPtr)
    ensures var e := Entry(s, va, rawPtr);
      && e[0..8] == Name8(s) && e[8..12] == Le32(|s.payload|) && e[12..16] == Le32(va) && e[16..20] == Le32(Align(|s.payload|, 0x200))
      && e[20..24] == Le32(rawPtr) && e[24..36] == Zeros(12) && e[36..40] == Le32(READ_DATA)
  {
    hide Align, Le32, Zeros, Name8;
  }

  // ---- the new sections -----------------------------------------------------------------------

  /** Section s is described at `at`, and its padded data is in the file. */
  ghost predicate Present(b: seq<byte>, at: nat, s: Section, va: int, rawPtr: int) {
    && Packable(s, va, rawPtr) && at + 40 <= |b| && b[at..at + 40] == Entry(s, va, rawPtr)
    && rawPtr + |Sectored(s.payload)| <= |b| && b[rawPtr..rawPtr + |Sectored(s.payload)|] == Sectored(s.payload)
  }

  /** Where the first k sections went: vas and raws are their virtual addresses
      and file positions.  Virtual addresses are whole pages, each section
      above everything before it; file positions are whole sectors, likewise. */
  ghost predicate Placed(secs: seq<Section>, vas: seq<int>, raws: seq<int>, lastEnd: int, fileEnd: int, va: int, len: int) {
    && |vas| == |raws| <= |secs|
    && (forall k :: 0 <= k < |vas| ==> vas[k] % 0x1000 == 0 && raws[k] % 0x200 == 0 && fileEnd <= raws[k] && lastEnd <= vas[k])
    && (forall k :: 0 <= k < |vas| ==> vas[k] + |secs[k].payload| <= va && raws[k] + |Sectored(secs[k].payload)| <= len)
    && (forall j, k :: 0 <= j < k < |vas| ==> vas[j] + |secs[j].payload| <= vas[k] && raws[j] + |Sectored(secs[j].payload)| <= raws[k])
    && va % 0x1000 == 0 && lastEnd <= va && len % 0x200 == 0 && fileEnd <= len
  }

  /** Nothing is left out between them. */
  ghost predicate Tight(secs: seq<Section>, vas: seq<int>, raws: seq<int>, lastEnd: int, fileEnd: int, va: int, len: int) {
    && |vas| == |raws| <= |secs|
    && Close(secs, vas, raws, lastEnd, fileEnd, va, len, |vas|)
    && forall k :: 0 <= k < |vas| ==> Close(secs, vas, raws, lastEnd, fileEnd, vas[k], raws[k], k)
  }

  /** Between these places and what is before the k-th section there is less
      than a page, and less than a sector. */
  ghost predicate Close(secs: seq<Section>, vas: seq<int>, raws: seq<int>, lastEnd: int, fileEnd: int, va: int, raw: int, k: nat)
    requires k <= |vas| == |raws| <= |secs|
  {
    if k == 0 then va < lastEnd + 0x1000 && raw < fileEnd + 0x200
    else va < vas[k - 1] + |secs[k - 1].payload| + 0x1000 && raw < raws[k - 1] + |secs[k - 1].payload| + 0x200
  }

  lemma PlaceOne(secs: seq<Section>, vas: seq<int>, raws: seq<int>, lastEnd: int, fileEnd: int, va: int, len: int)
    requires Placed(secs, vas, raws, lastEnd, fileEnd, va, len) && |vas| < |secs|
    ensures var p := secs[|vas|].payload;
      Placed(secs, vas + [va], raws + [len], lastEnd, fileEnd, Align(va + |p|, 0x1000), len + |Sectored(p)|)
  {
    var p := secs[|vas|].payload;
    Aligned(va + |p|, 0x1000);
    Aligned(|p|, 0x200);
    assert |Sectored(p)| == Align(|p|, 0x200);
    hide Align, Sectored;
    Sectors(len, |Sectored(p)|);
  }

  lemma TightOne(secs: seq<Section>, vas: seq<int>, raws: seq<int>, lastEnd: int, fileEnd: int, va: int, len: int)
    requires Tight(secs, vas, raws, lastEnd, fileEnd, va, len) && |vas| < |secs|
    ensures var p := secs[|vas|].payload;
      Tight(secs, vas + [va], raws + [len], lastEnd, fileEnd, Align(va + |p|, 0x1000), len + |Sectored(p)|)
  {
    var p := secs[|vas|].payload;
    Aligned(va + |p|, 0x1000);
    Aligned(|p|, 0x200);
    assert |Sectored(p)| == Align(|p|, 0x200);
    hide Align, Sectored;
    forall k | 0 <= k < |vas| + 1
      ensures Close(secs, vas + [va], raws + [len], lastEnd, fileEnd, (vas + [va])[k], (raws + [len])[k], k)
    {
      assert k < |vas| ==> Close(secs, vas, raws, lastEnd, fileEnd, vas[k], raws[k], k);
    }
  }

  lemma Sectors(a: int, b: int)
    requires a % 0x200 == 0 && b % 0x200 == 0
    ensures (a + b) % 0x200 == 0
  {
  }

  /** The largest virtual end of the old sections. */
  predicate IsLastEnd(b: seq<byte>, n: nat, e: int)
    requires Readable(b) && TableReadable(b) && n <= Count(b)
  {
    && (forall i :: 0 <= i < n ==> VirtualEnd(b, i) <= e)
    && if n == 0 then e == 0 else exists i :: 0 <= i < n && e == VirtualEnd(b, i)
  }

  function OldEnd(b: seq<byte>, n: nat): (e: int)
    requires Readable(b) && TableReadable(b) && n <= Count(b)
    ensures IsLastEnd(b, n, e) && e >= 0
  {
    if n == 0 then 0
    else
      var e := OldEnd(b, n - 1);
      if VirtualEnd(b, n - 1) > e then VirtualEnd(b, n - 1) else e
  }

  predicate IsFirst(b: seq<byte>, n: nat, r: int)
    requires Readable(b) && TableReadable(b) && n <= Count(b)
  {
    forall i :: 0 <= i < n ==> r <= RawPtr(b, i)
  }

  method LastEnd(b: seq<byte>) returns (e: int)
    requires Readable(b) && TableReadable(b)
    ensures e == OldEnd(b, Count(b))
  {
    hide VirtualEnd;
    e := 0;
    for i := 0 to Count(b)
      invariant e == OldEnd(b, i)
    {
      var end := VirtualEnd(b, i);
      if end > e { e := end; }
    }
  }

  method First(b: seq<byte>) returns (r: int)
    requires Readable(b) && TableReadable(b)
    ensures IsFirst(b, Count(b), r) && exists i :: 0 <= i < Count(b) && r == RawPtr(b, i)
  {
    hide RawPtr;
    r := RawPtr(b, 0);
    ghost var at := 0;
    for i := 1 to Count(b)
      invariant IsFirst(b, i, r) && 0 <= at < i && r == RawPtr(b, at)
    {
      var p := RawPtr(b, i);
      if p < r { r, at := p, i; }
    }
  }

  /** `out[i:j] = b` on a bytearray, which also extends it */
  function SetSlice(out: seq<byte>, i: nat, b: seq<byte>): seq<byte> {
    if i >= |out| then out + b
    else if i + |b| >= |out| then out[..i] + b
    else out[..i] + b + out[i + |b|..]
  }

  lemma SetSliceIn(out: seq<byte>, i: nat, b: seq<byte>)
    requires i + |b| <= |out|
    ensures var r := SetSlice(out, i, b);
      |r| == |out| && r[i..i + |b|] == b && forall k :: 0 <= k < |out| && !(i <= k < i + |b|) ==> r[k] == out[k]
  {
  }

  // ---- the loop over the new sections ---------------------------------------------------------

  /** After k sections: the old bytes outside the new headers, and the new sections. */
  ghost predicate Built(data: seq<byte>, secs: seq<Section>, table: nat, n: nat, lastEnd: int, out: seq<byte>, va: int, vas: seq<int>, raws: seq<int>) {
    && Placed(secs, vas, raws, lastEnd, |data|, va, |out|) && Tight(secs, vas, raws, lastEnd, |data|, va, |out|)
    && table + 40 * (n + |secs|) <= |data|
    && OldKept(data, out, table + 40 * n, table + 40 * (n + |vas|))
    && AllPresent(secs, table, n, out, vas, raws)
  }

  ghost predicate OldKept(data: seq<byte>, out: seq<byte>, lo: nat, hi: nat) {
    |data| <= |out| && forall i :: 0 <= i < |data| && !(lo <= i < hi) ==> out[i] == data[i]
  }

  ghost predicate AllPresent(secs: seq<Section>, table: nat, n: nat, out: seq<byte>, vas: seq<int>, raws: seq<int>)
    requires |vas| == |raws| <= |secs|
  {
    forall k :: 0 <= k < |vas| ==> PresentAt(secs, table, n, out, vas, raws, k)
  }

  ghost predicate PresentAt(secs: seq<Section>, table: nat, n: nat, out: seq<byte>, vas: seq<int>, raws: seq<int>, k: nat)
    requires k < |vas| == |raws| <= |secs|
  {
    Present(out, table + 40 * (n + k), secs[k], vas[k], raws[k])
  }

  lemma PresentKept(b: seq<byte>, c: seq<byte>, at: nat, s: Section, va: int, rawPtr: int)
    requires Present(b, at, s, va, rawPtr) && |b| <= |c|
    requires forall i :: at <= i < at + 40 || rawPtr <= i < rawPtr + |Sectored(s.payload)| ==> c[i] == b[i]
    ensures Present(c, at, s, va, rawPtr)
  {
    hide Entry, Sectored, Align;
    SliceSame(b, c, at, at + 40);
    SliceSame(b, c, rawPtr, rawPtr + |Sectored(s.payload)|);
  }

  lemma SliceSame(b: seq<byte>, c: seq<byte>, i: nat, j: nat)
    requires i <= j <= |b| && j <= |c| && forall k :: i <= k < j ==> c[k] == b[k]
    ensures c[i..j] == b[i..j]
  {
  }

  /** One section more. */
  lemma BuiltOne(data: seq<byte>, secs: seq<Section>, table: nat, n: nat, lastEnd: int, out: seq<byte>, va: int, vas: seq<int>, raws: seq<int>)
    requires Built(data, secs, table, n, lastEnd, out, va, vas, raws) && |vas| < |secs|
    requires Packable(secs[|vas|], va, |out|)
    ensures var s, entry := secs[|vas|], table + 40 * (n + |vas|);
      var out1 := out + Sectored(s.payload);
      Built(data, secs, table, n, lastEnd, SetSlice(out1, entry, Entry(s, va, |out|)), Align(va + |s.payload|, 0x1000), vas + [va], raws + [|out|])
  {
    hide Placed, Tight, Sectored, Packable, SetSlice, AllPresent, OldKept, Present, Align, Entry;
    var s, entry, len := secs[|vas|], table + 40 * (n + |vas|), |out|;
    PlaceOne(secs, vas, raws, lastEnd, |data|, va, len);
    TightOne(secs, vas, raws, lastEnd, |data|, va, len);
    RawsAbove(secs, vas, raws, lastEnd, |data|, va, len);
    assert OldKept(data, out, table + 40 * n, entry) && |data| <= |out| by { OldLonger(data, out, table + 40 * n, entry); }
    var out2 := Written(out, entry, s, va);
    PresentsGrown(secs, table, n, out, out2, vas, raws, va, len, |data|);
    OldBytes(data, out, out2, table + 40 * n, entry);
  }

  /** The payload is appended and the header written into its room. */
  lemma Written(out: seq<byte>, entry: nat, s: Section, va: int) returns (out2: seq<byte>)
    requires Packable(s, va, |out|) && entry + 40 <= |out|
    ensures out2 == SetSlice(out + Sectored(s.payload), entry, Entry(s, va, |out|))
    ensures |out2| == |out| + |Sectored(s.payload)| && Present(out2, entry, s, va, |out|)
    ensures forall k :: 0 <= k < |out| && !(entry <= k < entry + 40) ==> out2[k] == out[k]
  {
    var out1, header := out + Sectored(s.payload), Entry(s, va, |out|);
    hide Entry, Sectored, Packable, SetSlice, Present;
    SetSliceIn(out1, entry, header);
    out2 := SetSlice(out1, entry, header);
    BuiltNew(out, out1, out2, entry, s, va);
  }

  lemma PresentsGrown(secs: seq<Section>, table: nat, n: nat, out: seq<byte>, out2: seq<byte>, vas: seq<int>, raws: seq<int>, va: int, len: int, fileEnd: nat)
    requires |vas| == |raws| < |secs| && |out| <= |out2|
    requires Present(out2, table + 40 * (n + |vas|), secs[|vas|], va, len) && table + 40 * (n + |vas|) + 40 <= fileEnd
    requires forall k :: 0 <= k < |out| && !(table + 40 * (n + |vas|) <= k < table + 40 * (n + |vas|) + 40) ==> out2[k] == out[k]
    requires forall k :: 0 <= k < |vas| ==> fileEnd <= raws[k]
    requires AllPresent(secs, table, n, out, vas, raws)
    ensures AllPresent(secs, table, n, out2, vas + [va], raws + [len])
  {
    hide PresentAt, Present;
    PresentsKept(secs, table, n, out, out2, vas, raws, table + 40 * (n + |vas|), fileEnd);
    OnlyNew(secs, table, n, out2, vas, raws, va, len);
    PresentsExtended(secs, table, n, out2, vas, raws, va, len);
  }

  lemma PresentsKept(secs: seq<Section>, table: nat, n: nat, out: seq<byte>, out2: seq<byte>, vas: seq<int>, raws: seq<int>, entry: nat, fileEnd: nat)
    requires |vas| == |raws| <= |secs| && entry == table + 40 * (n + |vas|) && entry + 40 <= fileEnd && |out| <= |out2|
    requires forall k :: 0 <= k < |out| && !(entry <= k < entry + 40) ==> out2[k] == out[k]
    requires forall k :: 0 <= k < |vas| ==> fileEnd <= raws[k] && PresentAt(secs, table, n, out, vas, raws, k)
    ensures forall k :: 0 <= k < |vas| ==> PresentAt(secs, table, n, out2, vas, raws, k)
  {
    hide Present;
    forall k | 0 <= k < |vas|
      ensures PresentAt(secs, table, n, out2, vas, raws, k)
    {
      assert PresentAt(secs, table, n, out, vas, raws, k);
      PresentBelow(out, out2, table + 40 * (n + k), entry, secs[k], vas[k], raws[k]);
    }
  }

  lemma OnlyNew(secs: seq<Section>, table: nat, n: nat, out: seq<byte>, vas: seq<int>, raws: seq<int>, va: int, len: int)
    requires |vas| == |raws| < |secs| && Present(out, table + 40 * (n + |vas|), secs[|vas|], va, len)
    ensures PresentAt(secs, table, n, out, vas + [va], raws + [len], |vas|)
  {
    hide Present;
  }

  lemma PresentsExtended(secs: seq<Section>, table: nat, n: nat, out: seq<byte>, vas: seq<int>, raws: seq<int>, va: int, len: int)
    requires |vas| == |raws| < |secs| && PresentAt(secs, table, n, out, vas + [va], raws + [len], |vas|)
    requires forall k :: 0 <= k < |vas| ==> PresentAt(secs, table, n, out, vas, raws, k)
    ensures forall k :: 0 <= k < |vas| + 1 ==> PresentAt(secs, table, n, out, vas + [va], raws + [len], k)
  {
    hide Present;
    forall k | 0 <= k < |vas|
      ensures PresentAt(secs, table, n, out, vas + [va], raws + [len], k)
    {
      assert PresentAt(secs, table, n, out, vas, raws, k);
    }
  }

  /** A section that is there stays there while a header behind its own is written. */
  lemma PresentBelow(out: seq<byte>, out2: seq<byte>, at: nat, entry: nat, s: Section, va: int, rawPtr: int)
    requires Present(out, at, s, va, rawPtr) && at + 40 <= entry && entry + 40 <= rawPtr && |out| <= |out2|
    requires forall k :: 0 <= k < |out| && !(entry <= k < entry + 40) ==> out2[k] == out[k]
    ensures Present(out2, at, s, va, rawPtr)
  {
    hide Entry, Sectored;
    PresentKept(out, out2, at, s, va, rawPtr);
  }

  lemma OldLonger(data: seq<byte>, out: seq<byte>, start: nat, entry: nat)
    requires OldKept(data, out, start, entry)
    ensures |data| <= |out|
  {
  }

  lemma OldBytes(data: seq<byte>, out: seq<byte>, out2: seq<byte>, start: nat, entry: nat)
    requires OldKept(data, out, start, entry) && |out| <= |out2| && start <= entry
    requires forall k :: 0 <= k < |out| && !(entry <= k < entry + 40) ==> out2[k] == out[k]
    ensures OldKept(data, out2, start, entry + 40)
  {
  }

  lemma BuiltNew(out: seq<byte>, out1: seq<byte>, out2: seq<byte>, entry: nat, s: Section, va: int)
    requires Packable(s, va, |out|) && entry + 40 <= |out| && out1 == out + Sectored(s.payload) && |out2| == |out1|
    requires out2[entry..entry + 40] == Entry(s, va, |out|) && forall k :: 0 <= k < |out1| && !(entry <= k < entry + 40) ==> out2[k] == out1[k]
    ensures Present(out2, entry, s, va, |out|)
  {
    hide Entry, Sectored, Packable;
    SliceSame(out1, out2, |out|, |out1|);
    assert out1[|out|..|out1|] == Sectored(s.payload);
  }

  lemma RawsAbove(secs: seq<Section>, vas: seq<int>, raws: seq<int>, lastEnd: int, fileEnd: int, va: int, len: int)
    requires Placed(secs, vas, raws, lastEnd, fileEnd, va, len)
    ensures |vas| == |raws| <= |secs|
    ensures forall k :: 0 <= k < |vas| ==> fileEnd <= raws[k] && raws[k] + |Sectored(secs[k].payload)| <= len
  {
  }

  // ---- what fits in the header fields ---------------------------------------------------------

  /** The bytes the sections take in the file, in whole sectors. */
  function RawSize(secs: seq<Section>): nat {
    if secs == [] then 0
    else
      Aligned(|secs[|secs| - 1].payload|, 0x200);
      RawSize(secs[..|secs| - 1]) + Align(|secs[|secs| - 1].payload|, 0x200)
  }

  /** The bytes they take in memory, in whole pages. */
  function VirtualSize(secs: seq<Section>): nat {
    if secs == [] then 0
    else
      Aligned(|secs[|secs| - 1].payload|, 0x1000);
      VirtualSize(secs[..|secs| - 1]) + Align(|secs[|secs| - 1].payload|, 0x1000)
  }

  /** Every number fits its field: the section count 16 bits, the end of the
      image in memory 32, and the position in the file of the last section 32. */
  predicate Fits(data: seq<byte>, secs: seq<Section>)
    requires Readable(data) && TableReadable(data)
  {
    && Count(data) + |secs| < 0x1_0000
    && Align(OldEnd(data, Count(data)), 0x1000) + VirtualSize(secs) < 0x1_0000_0000
    && (secs != [] ==> Align(|data|, 0x200) + RawSize(secs[..|secs| - 1]) < 0x1_0000_0000)
  }

  lemma {:induction false} SizesGrow(secs: seq<Section>, k: nat)
    requires k <= |secs|
    ensures RawSize(secs[..k]) <= RawSize(secs) && VirtualSize(secs[..k]) <= VirtualSize(secs)
  {
    hide Align;
    if k == |secs| {
      assert secs[..k] == secs;
    } else {
      var init, n := secs[..|secs| - 1], |secs[|secs| - 1].payload|;
      SizesGrow(init, k);
      assert init[..k] == secs[..k];
      Aligned(n, 0x200);
      Aligned(n, 0x1000);
    }
  }

  lemma SizeOne(secs: seq<Section>, k: nat)
    requires k < |secs|
    ensures RawSize(secs[..k + 1]) == RawSize(secs[..k]) + Align(|secs[k].payload|, 0x200)
    ensures VirtualSize(secs[..k + 1]) == VirtualSize(secs[..k]) + Align(|secs[k].payload|, 0x1000)
  {
    hide Align;
    assert secs[..k + 1][..k] == secs[..k];
  }

  /** Behind a whole number of pages the next page boundary is the payload's own. */
  lemma AlignBehind(va: int, n: nat)
    requires va % 0x1000 == 0
    ensures Align(va + n, 0x1000) == va + Align(n, 0x1000)
  {
    assert (va + n + 0xFFF) / 0x1000 == va / 0x1000 + (n + 0xFFF) / 0x1000;
  }

  /** After k sections: the next virtual address and the bytes so far. */
  ghost predicate Sized(data: seq<byte>, secs: seq<Section>, k: nat, va: int, len: int)
    requires Readable(data) && TableReadable(data)
  {
    && k <= |secs| && va % 0x1000 == 0 && 0 <= va && 0 <= len
    && va == Align(OldEnd(data, Count(data)), 0x1000) + VirtualSize(secs[..k])
    && len == Align(|data|, 0x200) + RawSize(secs[..k])
    && (k > 0 ==> Align(|data|, 0x200) + RawSize(secs[..k - 1]) < 0x1_0000_0000)
  }

  lemma SizedNone(data: seq<byte>, secs: seq<Section>)
    requires Readable(data) && TableReadable(data)
    ensures Sized(data, secs, 0, Align(OldEnd(data, Count(data)), 0x1000), Align(|data|, 0x200))
  {
    Aligned(OldEnd(data, Count(data)), 0x1000);
    Aligned(|data|, 0x200);
    hide Align, OldEnd;
  }

  lemma SizedOne(data: seq<byte>, secs: seq<Section>, k: nat, va: int, len: int)
    requires Readable(data) && TableReadable(data) && Sized(data, secs, k, va, len) && k < |secs| && Packable(secs[k], va, len)
    ensures Sized(data, secs, k + 1, Align(va + |secs[k].payload|, 0x1000), len + |Sectored(secs[k].payload)|)
  {
    SizeOne(secs, k);
    AlignBehind(va, |secs[k].payload|);
    Aligned(va + |secs[k].payload|, 0x1000);
    assert |Sectored(secs[k].payload)| == Align(|secs[k].payload|, 0x200) by { Aligned(|secs[k].payload|, 0x200); }
    hide Align, OldEnd, RawSize, VirtualSize, Sectored;
  }

  lemma SizedAll(data: seq<byte>, secs: seq<Section>, va: int, len: int)
    requires Readable(data) && TableReadable(data) && Sized(data, secs, |secs|, va, len)
    ensures Fits(data, secs) <==> Count(data) + |secs| < 0x1_0000 && va < 0x1_0000_0000
    ensures va == Align(OldEnd(data, Count(data)), 0x1000) + VirtualSize(secs) && len == Align(|data|, 0x200) + RawSize(secs)
  {
    hide Align, OldEnd, RawSize, VirtualSize, Count;
    assert secs[..|secs|] == secs;
  }

  /** If everything fits at the end, each header fits when it is packed. */
  lemma FitsEach(data: seq<byte>, secs: seq<Section>, k: nat, va: int, rawPtr: int)
    requires Readable(data) && TableReadable(data) && Fits(data, secs) && k < |secs| && Sized(data, secs, k, va, rawPtr)
    ensures Packable(secs[k], va, rawPtr)
  {
    SizesGrow(secs, k + 1);
    SizeOne(secs, k);
    var init := secs[..|secs| - 1];
    SizesGrow(init, k);
    assert init[..k] == secs[..k];
    Aligned(|secs[k].payload|, 0x1000);
    Aligned(|secs[k].payload|, 0x200);
    PageBelow(Align(|secs[k].payload|, 0x1000));
    hide Align, OldEnd;
  }

  lemma PageBelow(a: int)
    requires a % 0x1000 == 0 && a < 0x1_0000_0000
    ensures a <= 0xFFFF_F000
  {
  }

  // ---- the program ---------------------------------------------------------------------------

  predicate NoRoom(b: seq<byte>, m: nat)
    requires Readable(b) && TableReadable(b)
  {
    exists i :: 0 <= i < Count(b) && Table(b) + 40 * (Count(b) + m) > RawPtr(b, i)
  }

  /** The bytes of the image that may change: NumberOfSections, SizeOfImage,
      and the room behind the section table. */
  predicate Rewritten(data: seq<byte>, n: nat, m: nat, i: nat)
    requires Readable(data)
  {
    || Coff(data) + 2 <= i < Coff(data) + 4
    || Opt(data) + 56 <= i < Opt(data) + 60
    || Table(data) + 40 * n <= i < Table(data) + 40 * (n + m)
  }

  /** out is data with the sections added. */
  ghost predicate Added(data: seq<byte>, secs: seq<Section>, out: seq<byte>)
    requires Readable(data) && TableReadable(data)
  {
    var n, table := Count(data), Table(data);
    && Readable(out) && Count(out) == n + |secs| && Table(out) == table && |data| <= |out|
    && (forall i :: 0 <= i < |data| && !Rewritten(data, n, |secs|, i) ==> out[i] == data[i])
    && Opt(data) + 60 <= |out|
    && Get32(out, Opt(data) + 56) == Align(OldEnd(data, n), 0x1000) + VirtualSize(secs)
    && |out| == Align(|data|, 0x200) + RawSize(secs)
    && exists vas: seq<int>, raws: seq<int> :: Sections(data, secs, out, vas, raws)
  }

  /** The new sections: where they are, what their headers say, what is in the file. */
  ghost predicate Sections(data: seq<byte>, secs: seq<Section>, out: seq<byte>, vas: seq<int>, raws: seq<int>)
    requires Readable(data) && TableReadable(data) && Opt(data) + 60 <= |out|
  {
    && |vas| == |raws| == |secs|
    && Placed(secs, vas, raws, OldEnd(data, Count(data)), |data|, Get32(out, Opt(data) + 56), |out|)
    && Tight(secs, vas, raws, OldEnd(data, Count(data)), |data|, Get32(out, Opt(data) + 56), |out|)
    && forall k :: 0 <= k < |secs| ==> SectionReads(data, secs, out, vas, raws, k)
  }

  ghost predicate SectionReads(data: seq<byte>, secs: seq<Section>, out: seq<byte>, vas: seq<int>, raws: seq<int>, k: nat)
    requires Readable(data) && k < |secs| == |vas| == |raws|
  {
    var at := Table(data) + 40 * (Count(data) + k);
    at + 40 <= |out| && Described(out, at, secs[k], vas[k], raws[k], Get32(out, at + 16)) && InFile(out, secs[k].payload, raws[k], Get32(out, at + 16))
  }

  /** The header at `at`, field by field: the name cut off or filled up with
      zeros to 8 bytes, the size of the payload, where it goes in memory, its
      size in whole sectors, where it is in the file, zeros, and the flags. */
  ghost predicate Described(b: seq<byte>, at: nat, s: Section, va: int, raw: int, padded: int)
    requires at + 40 <= |b|
  {
    && (forall j :: 0 <= j < 8 ==> b[at + j] == if j < |s.name| then s.name[j] else 0)
    && Get32(b, at + 8) == |s.payload| && Get32(b, at + 12) == va && Get32(b, at + 16) == padded && Get32(b, at + 20) == raw
    && (forall j :: at + 24 <= j < at + 36 ==> b[j] == 0) && Get32(b, at + 36) == 0x4000_0040
    && padded % 0x200 == 0 && |s.payload| <= padded < |s.payload| + 0x200
  }

  /** The payload is in the file, and zeros behind it up to the padded size. */
  ghost predicate InFile(b: seq<byte>, p: seq<byte>, raw: int, padded: int) {
    && 0 <= raw && raw + |p| <= raw + padded <= |b| && b[raw..raw + |p|] == p
    && forall j :: raw + |p| <= j < raw + padded ==> b[j] == 0
  }

  lemma DescribedBy(b: seq<byte>, at: nat, s: Section, va: int, raw: int)
    requires at + 40 <= |b| && Packable(s, va, raw)
    requires HeaderAt(b, at) == Header(Name8(s), |s.payload|, va, Align(|s.payload|, 0x200), raw, Zeros(12), READ_DATA)
    ensures Described(b, at, s, va, raw, Align(|s.payload|, 0x200))
  {
    Aligned(|s.payload|, 0x200);
    hide Get32, Align;
    var name, zeros := b[at..at + 8], b[at + 24..at + 36];
    forall j | 0 <= j < 8
      ensures b[at + j] == if j < |s.name| then s.name[j] else 0
    {
      assert b[at + j] == name[j];
    }
    forall j | at + 24 <= j < at + 36
      ensures b[j] == 0
    {
      assert b[j] == zeros[j - at - 24];
    }
  }

  lemma PaddedAt(b: seq<byte>, at: nat, s: Section, va: int, raw: int)
    requires at + 40 <= |b| && Described(b, at, s, va, raw, Align(|s.payload|, 0x200))
    ensures Get32(b, at + 16) == Align(|s.payload|, 0x200)
  {
    hide Get32, Align;
  }

  lemma InFileBy(b: seq<byte>, p: seq<byte>, raw: int)
    requires 0 <= raw && raw + |Sectored(p)| <= |b| && b[raw..raw + |Sectored(p)|] == Sectored(p)
    ensures InFile(b, p, raw, Align(|p|, 0x200))
  {
    Aligned(|p|, 0x200);
    hide Align;
    var c := b[raw..raw + |Sectored(p)|];
    forall j | raw + |p| <= j < raw + Align(|p|, 0x200)
      ensures b[j] == 0
    {
      assert b[j] == c[j - raw];
    }
    assert c[..|p|] == p;
    SubSlice(b, raw, raw + |c|, 0, |p|);
  }

  lemma PresentReads(b: seq<byte>, at: nat, s: Section, va: int, raw: int)
    requires Present(b, at, s, va, raw) && 0 <= raw
    ensures at + 40 <= |b| && Described(b, at, s, va, raw, Get32(b, at + 16)) && InFile(b, s.payload, raw, Get32(b, at + 16))
  {
    hide Described, InFile, Sectored, Entry, Align, Packable, Get32, HeaderAt;
    EntryReads(b, at, s, va, raw);
    DescribedBy(b, at, s, va, raw);
    InFileBy(b, s.payload, raw);
    PaddedAt(b, at, s, va, raw);
  }

  /** Where the fields of the headers are. */
  lemma FieldsAt(b: seq<byte>, i: nat)
    requires Readable(b) && TableReadable(b) && i < Count(b)
    ensures var pe := Get32(b, 0x3c);
      && Count(b) == Get16(b, pe + 6) && Opt(b) + 56 == pe + 80 && Table(b) == pe + 24 + Get16(b, pe + 20)
      && RawPtr(b, i) == Get32(b, Table(b) + 40 * i + 20)
      && VirtualEnd(b, i) == Get32(b, Table(b) + 40 * i + 8) + Get32(b, Table(b) + 40 * i + 12)
  {
    hide Get32, Get16;
  }

  lemma BuiltNone(data: seq<byte>, secs: seq<Section>, table: nat, n: nat, lastEnd: int, out: seq<byte>, va: int)
    requires table + 40 * (n + |secs|) <= |data| && out == data + Zeros(Align(|data|, 0x200) - |data|)
    requires Align(|data|, 0x200) >= |data| && Align(|data|, 0x200) % 0x200 == 0 && lastEnd <= va && va % 0x1000 == 0
    requires Align(|data|, 0x200) < |data| + 0x200 && va < lastEnd + 0x1000
    ensures Built(data, secs, table, n, lastEnd, out, va, [], [])
  {
    hide Align;
  }

  lemma SetSliceLength(out: seq<byte>, i: nat, b: seq<byte>)
    ensures |SetSlice(out, i, b)| >= |out|
    ensures i + |b| <= |out| ==> |SetSlice(out, i, b)| == |out|
  {
  }

  /** The last two fields. */
  function Patch(data: seq<byte>, out: seq<byte>, count: int, va: int): (r: seq<byte>)
    requires Readable(data) && Opt(data) + 60 <= |out| && 0 <= count < 0x1_0000 && 0 <= va < 0x1_0000_0000
    ensures |r| == |out|
    ensures forall k :: 0 <= k < |out| && !(Coff(data) + 2 <= k < Coff(data) + 4) && !(Opt(data) + 56 <= k < Opt(data) + 60) ==> r[k] == out[k]
  {
    Put32(Put16(out, Coff(data) + 2, count), Opt(data) + 56, va)
  }

  lemma PatchReads(data: seq<byte>, out: seq<byte>, count: int, va: int)
    requires Readable(data) && Opt(data) + 60 <= |out| && 0 <= count < 0x1_0000 && 0 <= va < 0x1_0000_0000
    ensures Get16(Patch(data, out, count, va), Coff(data) + 2) == count && Get32(Patch(data, out, count, va), Opt(data) + 56) == va
  {
    hide Put32, Get32, Put16;
    PutGet(Put16(out, Coff(data) + 2, count), Opt(data) + 56, va);
  }

  /** The fixed fields of the headers, but for the count, read as before. */
  lemma PatchedHeaders(data: seq<byte>, out: seq<byte>, count: int, va: int)
    requires WellFormed(data) && |data| <= |out| && Opt(data) + 60 <= |out| && 0 <= count < 0x1_0000 && 0 <= va < 0x1_0000_0000
    requires forall i :: 0 <= i < Opt(data) + 56 && i < |data| ==> out[i] == data[i]
    ensures var r := Patch(data, out, count, va); Readable(r) && Coff(r) == Coff(data) && Count(r) == count && Table(r) == Table(data)
  {
    var r := Patch(data, out, count, va);
    PatchReads(data, out, count, va);
    hide Patch;
    assert Get32(r, 0x3c) == Get32(data, 0x3c);
    assert Get16(r, Coff(data) + 16) == Get16(data, Coff(data) + 16);
  }

  lemma BuiltAt(data: seq<byte>, secs: seq<Section>, table: nat, n: nat, lastEnd: int, out: seq<byte>, va: int, vas: seq<int>, raws: seq<int>, k: nat)
    requires Built(data, secs, table, n, lastEnd, out, va, vas, raws) && k < |vas|
    ensures |vas| == |raws| <= |secs| && table + 40 * (n + |secs|) <= |data| && |data| <= raws[k]
    ensures Present(out, table + 40 * (n + k), secs[k], vas[k], raws[k])
    ensures table + 40 * (n + k) + 40 <= |out| && raws[k] + |Sectored(secs[k].payload)| <= |out|
  {
    hide Placed, Tight, Entry, Sectored, Packable;
    RawsAbove(secs, vas, raws, lastEnd, |data|, va, |out|);
    assert PresentAt(secs, table, n, out, vas, raws, k);
  }

  lemma PatchedSection(data: seq<byte>, secs: seq<Section>, lastEnd: int, out: seq<byte>, va: int, vas: seq<int>, raws: seq<int>, count: int, k: nat)
    requires WellFormed(data) && Built(data, secs, Table(data), Count(data), lastEnd, out, va, vas, raws) && |vas| == |secs| && k < |secs|
    requires Opt(data) + 60 <= |out| && 0 <= count < 0x1_0000 && 0 <= va < 0x1_0000_0000
    ensures SectionReads(data, secs, Patch(data, out, count, va), vas, raws, k)
  {
    hide Built, Present, Patch, Described, InFile, Get32, Get16, Sectored;
    var r := Patch(data, out, count, va);
    var at := Table(data) + 40 * (Count(data) + k);
    BuiltAt(data, secs, Table(data), Count(data), lastEnd, out, va, vas, raws, k);
    PresentKept(out, r, at, secs[k], vas[k], raws[k]);
    PresentReads(r, at, secs[k], vas[k], raws[k]);
  }

  lemma Patched(data: seq<byte>, secs: seq<Section>, lastEnd: int, out: seq<byte>, va: int, vas: seq<int>, raws: seq<int>)
    requires WellFormed(data) && Built(data, secs, Table(data), Count(data), lastEnd, out, va, vas, raws) && |vas| == |secs|
    requires lastEnd == OldEnd(data, Count(data)) && va == Align(lastEnd, 0x1000) + VirtualSize(secs) && |out| == Align(|data|, 0x200) + RawSize(secs)
    requires Opt(data) + 60 <= |out| && Count(data) + |secs| < 0x1_0000 && 0 <= va < 0x1_0000_0000
    ensures Added(data, secs, Patch(data, out, Count(data) + |secs|, va))
  {
    hide Align, OldEnd, RawSize, VirtualSize;
    var n := Count(data);
    var r := Patch(data, out, n + |secs|, va);
    PatchedHeaders(data, out, n + |secs|, va);
    PatchReads(data, out, n + |secs|, va);
    forall k | 0 <= k < |secs|
      ensures SectionReads(data, secs, r, vas, raws, k)
    {
      PatchedSection(data, secs, lastEnd, out, va, vas, raws, n + |secs|, k);
    }
    hide Patch, SectionReads, Placed, Tight, PresentAt, Get16, Get32;
    assert Sections(data, secs, r, vas, raws);
  }

  lemma HeaderRoom(data: seq<byte>, secs: seq<Section>, table: nat, n: nat, lastEnd: int, out: seq<byte>, va: int, vas: seq<int>, raws: seq<int>)
    requires Built(data, secs, table, n, lastEnd, out, va, vas, raws) && |vas| < |secs|
    ensures table + 40 * (n + |vas|) + 40 <= |out|
  {
  }

  lemma SizeOfImageIn(data: seq<byte>, m: nat)
    requires WellFormed(data) && !NoRoom(data, m)
    ensures Opt(data) + 60 <= |data|
  {
  }

  method AddSections(data: seq<byte>, secs: seq<Section>) returns (r: Result<seq<byte>>)
    ensures Readable(data) && TableReadable(data) && NoRoom(data, |secs|) ==> r == Err("no room in the header for the new section entries")
    ensures r.Ok? ==> Readable(data) && TableReadable(data) && !NoRoom(data, |secs|)
    ensures WellFormed(data) ==> (r.Ok? <==> !NoRoom(data, |secs|) && Fits(data, secs))
    ensures r.Ok? && WellFormed(data) ==> Added(data, secs, r.value)
  {
    hide Placed, Tight, Entry, Sectored, Align, Packable, SetSlice, Table, Count, RawPtr, OldEnd, RawSize, VirtualSize, Sized, Fits, Added, Get16, Put16, Get32, Put32, AllPresent, OldKept;
    if !Readable(data) { return Err("unpack_from requires a larger buffer"); }
    if !TableReadable(data) { return Err("min() arg is an empty sequence, or unpack_from requires a larger buffer"); }
    var n, table := Count(data), Table(data);
    var rawFirst := First(data);
    if table + 40 * (n + |secs|) > rawFirst { return Err("no room in the header for the new section entries"); }
    var lastEnd := LastEnd(data);
    Aligned(|data|, 0x200);
    Aligned(lastEnd, 0x1000);
    var out := data + Zeros(Align(|data|, 0x200) - |data|);
    var va := Align(lastEnd, 0x1000);
    ghost var wf := WellFormed(data);
    ghost var vas: seq<int>, raws: seq<int> := [], [];
    if wf {
      BuiltNone(data, secs, table, n, lastEnd, out, va);
      SizedNone(data, secs);
      SizeOfImageIn(data, |secs|);
    }
    for k := 0 to |secs|
      invariant |vas| == |raws| == k && |out| >= |data|
      invariant wf ==> Sized(data, secs, k, va, |out|)
      invariant wf ==> Built(data, secs, table, n, lastEnd, out, va, vas, raws)
    {
      var s := secs[k];
      var entry, rawPtr := table + 40 * (n + k), |out|;
      if wf && Fits(data, secs) { FitsEach(data, secs, k, va, rawPtr); }
      if !Packable(s, va, rawPtr) { return Err("argument out of range"); }
      if wf {
        BuiltOne(data, secs, table, n, lastEnd, out, va, vas, raws);
        SizedOne(data, secs, k, va, rawPtr);
        HeaderRoom(data, secs, table, n, lastEnd, out, va, vas, raws);
      }
      out := out + Sectored(s.payload);
      SetSliceLength(out, entry, Entry(s, va, rawPtr));
      out := SetSlice(out, entry, Entry(s, va, rawPtr));
      vas, raws := vas + [va], raws + [rawPtr];
      va := Align(va + |s.payload|, 0x1000);
    }
    if wf { SizedAll(data, secs, va, |out|); }
    if n + |secs| >= 0x1_0000 || va < 0 || va >= 0x1_0000_0000 { return Err("argument out of range"); }
    if Opt(data) + 60 > |out| { return Err("pack_into requires a larger buffer"); }
    var out1 := Put16(out, Coff(data) + 2, n + |secs|);
    var out2 := Put32(out1, Opt(data) + 56, va);
    if wf { Patched(data, secs, lastEnd, out, va, vas, raws); }
    r := Ok(out2);
  }

  /** The old sections read back as they were. */
  lemma OldSections(data: seq<byte>, secs: seq<Section>, out: seq<byte>, i: nat)
    requires WellFormed(data) && Added(data, secs, out) && i < Count(data) && Table(data) + 40 * Count(data) <= |data|
    ensures Table(out) + 40 * i + 40 <= |out| && HeaderAt(out, Table(out) + 40 * i) == HeaderAt(data, Table(data) + 40 * i)
  {
    hide Get16, Placed, Tight, SectionReads;
    var at := Table(data) + 40 * i;
    assert forall k :: at <= k < at + 40 ==> out[k] == data[k];
    SliceSame(data, out, at, at + 8);
    SliceSame(data, out, at + 24, at + 36);
  }
}
