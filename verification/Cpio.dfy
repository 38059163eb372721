/** newc (test/nitro/mkcpio.py:6-22): a deterministic cpio archive (cpio(5), "New
    ASCII Format").  What it writes parses back to the directories, the entries
    and the trailer, in order. */
module Cpio {
  import opened Bytes
  import opened Results
  import opened Words

  type name = seq<byte>

  const SLASH: byte := 0x2F
  const TRAILER: name := [0x54, 0x52, 0x41, 0x49, 0x4C, 0x45, 0x52, 0x21, 0x21, 0x21]    // TRAILER!!!
  const MAGIC: seq<byte> := [0x30, 0x37, 0x30, 0x37, 0x30, 0x31]                          // 070701

  datatype Entry = Entry(name: name, mode: nat, data: seq<byte>)

  /** One record of the archive. */
  datatype Record = Record(ino: nat, entry: Entry)

  // ---- hexadecimal fields -------------------------------------------------------------

  function Digit(d: nat): byte
    requires d < 16
  {
    if d < 10 then 48 + d else 55 + d
  }

  function DigitVal(b: byte): Option<nat> {
    if 48 <= b < 58 then Some(b - 48) else if 65 <= b < 71 then Some(b - 55) else None
  }

  /** n digits of v */
  function Hex(v: nat, n: nat): (r: seq<byte>)
    ensures |r| == n
  {
    if n == 0 then [] else Hex(v / 16, n - 1) + [Digit(v % 16)]
  }

  /** `%08X`: eight digits, or as many more as v needs. */
  function Field8(v: nat): (r: seq<byte>)
    ensures |r| >= 8 && (|r| == 8 <==> v < LIMIT)
    ensures v < LIMIT ==> r == Hex(v, 8)
  {
    if v < LIMIT then Hex(v, 8) else Field8(v / 16) + [Digit(v % 16)]
  }

  function UnHex(s: seq<byte>): Option<nat> {
    if s == [] then Some(0)
    else match (UnHex(s[..|s| - 1]), DigitVal(s[|s| - 1]))
      case (Some(v), Some(d)) => Some(16 * v + d)
      case _ => None
  }

  lemma {:induction false} HexBack(v: nat, n: nat)
    requires v < Pow2(4 * n)
    ensures UnHex(Hex(v, n)) == Some(v)
  {
    hide Pow2, Digit, DigitVal;
    if n == 0 {
      PowZero();
    } else {
      Pow16(n);
      SixteenthBelow(v, Pow2(4 * (n - 1)));
      HexBack(v / 16, n - 1);
      DigitBack(v % 16);
      assert Hex(v, n)[..n - 1] == Hex(v / 16, n - 1);
    }
  }

  lemma PowZero()
    ensures Pow2(0) == 1
  {
  }

  lemma Pow16(n: nat)
    requires n > 0
    ensures Pow2(4 * n) == 16 * Pow2(4 * (n - 1))
  {
    assert Pow2(4 * n) == 2 * Pow2(4 * n - 1);
    assert Pow2(4 * n - 1) == 2 * Pow2(4 * n - 2);
    assert Pow2(4 * n - 2) == 2 * Pow2(4 * n - 3);
    assert Pow2(4 * n - 3) == 2 * Pow2(4 * n - 4);
  }

  lemma SixteenthBelow(v: nat, p: nat)
    requires v < 16 * p
    ensures v / 16 < p && v == 16 * (v / 16) + v % 16
  {
  }

  lemma DigitBack(d: nat)
    requires d < 16
    ensures DigitVal(Digit(d)) == Some(d)
  {
  }

  // ---- records ------------------------------------------------------------------------

  const LIMIT := 0x1_0000_0000

  predicate Fits(r: Record) {
    r.ino < LIMIT && r.entry.mode < LIMIT && |r.entry.data| < LIMIT && |r.entry.name| + 1 < LIMIT
  }

  /** `-len(buf) % 4` */
  function Pad(n: nat, a: nat): (r: nat)
    requires a > 0
  {
    PadWorks(n, a);
    (0 - n) % a
  }

  lemma PadWorks(n: nat, a: nat)
    requires a > 0
    ensures 0 <= (0 - n) % a < a && (n + (0 - n) % a) % a == 0
  {
    var q: int, r: int := (0 - n) / a, (0 - n) % a;
    assert 0 - n == a * q + r;
    assert n + r == a * (-q);
    MulMod(a, -q);
  }

  function Padded(b: seq<byte>, a: nat): (r: seq<byte>)
    requires a > 0
  {
    b + Zeros(Pad(|b|, a))
  }

  /** The 13 fields: ino, mode, uid, gid, nlink, mtime, filesize, devices, namesize, check. */
  function Fields(r: Record): (s: seq<byte>)
    ensures |s| >= 104 && (|s| == 104 <==> Fits(r))
  {
    Field8(r.ino) + Field8(r.entry.mode) + Field8(0) + Field8(0) + Field8(1) + Field8(0) + Field8(|r.entry.data|)
    + Field8(0) + Field8(0) + Field8(0) + Field8(0) + Field8(|r.entry.name| + 1) + Field8(0)
  }

  function Head(r: Record): (s: seq<byte>)
    ensures Fits(r) ==> |s| == 110 + |r.entry.name| + 1
  {
    MAGIC + Fields(r) + r.entry.name + [0]
  }

  /** rec(): the header, the name and the data, each padded to 4 bytes. */
  function Written(r: Record): (s: seq<byte>) {
    Padded(Padded(Head(r), 4) + r.entry.data, 4)
  }

  // ---- reading a record -----------------------------------------------------------------

  function Field(b: seq<byte>, i: nat): Option<nat>
    requires i < 13 && |b| >= 110
  {
    UnHex(b[6 + 8 * i..14 + 8 * i])
  }

  /** The record at the start of b and the bytes behind it. */
  function ReadRecord(b: seq<byte>): Option<(Record, seq<byte>)> {
    if |b| < 110 || b[..6] != MAGIC then None
    else match (Field(b, 0), Field(b, 1), Field(b, 6), Field(b, 11))
      case (Some(ino), Some(mode), Some(size), Some(named)) =>
        var head := 110 + named + Pad(110 + named, 4);
        var end := head + size + Pad(head + size, 4);
        if named == 0 || end > |b| then None
        else Some((Record(ino, Entry(b[110..110 + named - 1], mode, b[head..head + size])), b[end..]))
      case _ => None
  }

  lemma Slice<T>(b: seq<T>, x: seq<T>, y: seq<T>, z: seq<T>)
    requires b == x + y + z
    ensures b[|x|..|x| + |y|] == y && b[|x| + |y|..] == z
  {
  }

  lemma FieldsRead(r: Record, b: seq<byte>)
    requires Fits(r) && |b| >= 110 && b[6..110] == Fields(r)
    ensures Field(b, 0) == Some(r.ino) && Field(b, 1) == Some(r.entry.mode) && Field(b, 6) == Some(|r.entry.data|) && Field(b, 11) == Some(|r.entry.name| + 1)
  {
    Pow2Values();
    hide Pow2, UnHex;
    HexBack(r.ino, 8);
    HexBack(r.entry.mode, 8);
    HexBack(|r.entry.data|, 8);
    HexBack(|r.entry.name| + 1, 8);
    hide Hex;
    FieldSlices(r);
    hide Fields;
    SubSlice(b, 6, 110, 0, 8);
    SubSlice(b, 6, 110, 8, 16);
    SubSlice(b, 6, 110, 48, 56);
    SubSlice(b, 6, 110, 88, 96);
  }

  lemma FieldSlices(r: Record)
    requires Fits(r)
    ensures var f := Fields(r);
      f[0..8] == Hex(r.ino, 8) && f[8..16] == Hex(r.entry.mode, 8) && f[48..56] == Hex(|r.entry.data|, 8) && f[88..96] == Hex(|r.entry.name| + 1, 8)
  {
    hide Hex;
  }

  /** The parts of a header, at the front of anything. */
  lemma HeadParts(r: Record, b: seq<byte>, tail: seq<byte>)
    requires Fits(r) && b == Head(r) + tail
    ensures |b| >= 110 + |r.entry.name| && b[..6] == MAGIC && b[6..110] == Fields(r) && b[110..110 + |r.entry.name|] == r.entry.name
  {
    hide Fields;
    var f := Fields(r);
    assert b == MAGIC + f + (r.entry.name + [0] + tail);
    Slice(b, MAGIC, f, r.entry.name + [0] + tail);
    assert b == (MAGIC + f) + r.entry.name + ([0] + tail);
    Slice(b, MAGIC + f, r.entry.name, [0] + tail);
  }

  /** A written record reads back, whatever follows it. */
  lemma RecordReads(r: Record, rest: seq<byte>)
    requires Fits(r)
    ensures ReadRecord(Written(r) + rest) == Some((r, rest))
  {
    hide UnHex, Field, Head, Fields, Pad;
    var b := Written(r) + rest;
    var n, size := |r.entry.name| + 1, |r.entry.data|;
    var padded := Padded(Head(r), 4);
    var z1, z2 := Zeros(Pad(110 + n, 4)), Zeros(Pad(|padded| + size, 4));
    hide Zeros;
    assert b == padded + r.entry.data + (z2 + rest);
    Slice(b, padded, r.entry.data, z2 + rest);
    assert b == (padded + r.entry.data) + z2 + rest;
    Slice(b, padded + r.entry.data, z2, rest);
    HeadParts(r, b, z1 + r.entry.data + z2 + rest);
    FieldsRead(r, b);
  }

  /** A digit of a field: hexadecimal, upper case, the highest first. */
  lemma {:induction false} HexIs(v: nat, n: nat, k: nat)
    requires k < n
    ensures Hex(v, n)[n - 1 - k] == "0123456789ABCDEF"[v / Pow2(4 * k) % 16] as int
    decreases n
  {
    hide Pow2;
    DigitIs(v % 16);
    hide Digit;
    if k == 0 {
      PowZero();
      assert v / 1 == v;
    } else {
      HexIs(v / 16, n - 1, k - 1);
      Pow16(k);
      DivTwice(v, Pow2(4 * (k - 1)));
    }
  }

  lemma DigitIs(d: nat)
    requires d < 16
    ensures Digit(d) == "0123456789ABCDEF"[d] as int
  {
  }

  lemma DivTwice(v: nat, p: nat)
    requires p > 0
    ensures v / 16 / p == v / (16 * p)
  {
    var q, r := v / 16 / p, v / 16 % p;
    assert v / 16 == p * q + r && v == 16 * (v / 16) + v % 16;
    MulAssoc(16, p, q);
    DivUnique(v, 16 * p, q, 16 * r + v % 16);
  }

  /** A record, part by part: 070701, thirteen fields of eight digits, the name
      and a zero, zeros up to four bytes, the data, zeros up to four bytes. */
  lemma RecordIs(r: Record)
    requires Fits(r)
    ensures var b, n, d := Written(r), |r.entry.name|, |r.entry.data|; var head := 110 + n + 1 + Pad(110 + n + 1, 4);
      && |b| == head + d + Pad(head + d, 4)
      && b[0..6] == [0x30, 0x37, 0x30, 0x37, 0x30, 0x31] && b[6..110] == Fields(r)
      && b[110..110 + n] == r.entry.name && b[head..head + d] == r.entry.data
      && (forall k :: 110 + n <= k < head || head + d <= k < |b| ==> b[k] == 0)
  {
    hide Hex, Pad, Fields;
    var b, p := Written(r), Padded(Head(r), 4);
    var z := Zeros(Pad(|p| + |r.entry.data|, 4));
    assert b == p + r.entry.data + z;
    Slice(b, p, r.entry.data, z);
    HeadParts(r, b, Zeros(Pad(|Head(r)|, 4)) + r.entry.data + z);
    HeadEnds(r);
    hide Head;
  }

  lemma HeadEnds(r: Record)
    requires Fits(r)
    ensures forall k :: 110 + |r.entry.name| <= k < |Padded(Head(r), 4)| ==> Padded(Head(r), 4)[k] == 0
  {
    hide Fields, Pad;
  }

  /** Its fields: number, mode, owner, group, links, time, size, four device
      numbers, the length of the name with its zero, and a checksum. */
  lemma FieldsAre(r: Record)
    requires Fits(r)
    ensures var b := Written(r);
      && |b| >= 110 && b[6..14] == Hex(r.ino, 8) && b[14..22] == Hex(r.entry.mode, 8)
      && b[22..30] == Hex(0, 8) && b[30..38] == Hex(0, 8) && b[38..46] == Hex(1, 8) && b[46..54] == Hex(0, 8) && b[54..62] == Hex(|r.entry.data|, 8)
      && b[62..70] == Hex(0, 8) && b[70..78] == Hex(0, 8) && b[78..86] == Hex(0, 8) && b[86..94] == Hex(0, 8)
      && b[94..102] == Hex(|r.entry.name| + 1, 8) && b[102..110] == Hex(0, 8)
  {
    RecordIs(r);
    FieldsParts(r);
    hide Hex, Pad, Fields, Written;
    FieldsIn(Written(r), Fields(r));
  }

  lemma FieldsIn(b: seq<byte>, f: seq<byte>)
    requires |b| >= 110 && b[6..110] == f
    ensures b[6..14] == f[0..8] && b[14..22] == f[8..16] && b[22..30] == f[16..24] && b[30..38] == f[24..32] && b[38..46] == f[32..40]
    ensures b[46..54] == f[40..48] && b[54..62] == f[48..56] && b[62..70] == f[56..64] && b[70..78] == f[64..72] && b[78..86] == f[72..80]
    ensures b[86..94] == f[80..88] && b[94..102] == f[88..96] && b[102..110] == f[96..104]
  {
    SubSlice(b, 6, 110, 0, 8); SubSlice(b, 6, 110, 8, 16); SubSlice(b, 6, 110, 16, 24); SubSlice(b, 6, 110, 24, 32);
    SubSlice(b, 6, 110, 32, 40); SubSlice(b, 6, 110, 40, 48); SubSlice(b, 6, 110, 48, 56); SubSlice(b, 6, 110, 56, 64);
    SubSlice(b, 6, 110, 64, 72); SubSlice(b, 6, 110, 72, 80); SubSlice(b, 6, 110, 80, 88); SubSlice(b, 6, 110, 88, 96); SubSlice(b, 6, 110, 96, 104);
  }

  lemma FieldsParts(r: Record)
    requires Fits(r)
    ensures var f := Fields(r);
      && f[0..8] == Hex(r.ino, 8) && f[8..16] == Hex(r.entry.mode, 8) && f[16..24] == Hex(0, 8) && f[24..32] == Hex(0, 8) && f[32..40] == Hex(1, 8)
      && f[40..48] == Hex(0, 8) && f[48..56] == Hex(|r.entry.data|, 8) && f[56..64] == Hex(0, 8) && f[64..72] == Hex(0, 8) && f[72..80] == Hex(0, 8)
      && f[80..88] == Hex(0, 8) && f[88..96] == Hex(|r.entry.name| + 1, 8) && f[96..104] == Hex(0, 8)
  {
    hide Hex;
  }

  // ---- the archive ------------------------------------------------------------------------

  function WriteAll(rs: seq<Record>): seq<byte> {
    if rs == [] then [] else WriteAll(rs[..|rs| - 1]) + Written(rs[|rs| - 1])
  }

  lemma PaddedWhole(b: seq<byte>, a: nat)
    requires a > 0
    ensures |Padded(b, a)| % a == 0 && |Padded(b, a)| < |b| + a
  {
    PadWorks(|b|, a);
  }

  lemma WrittenAligned(r: Record)
    ensures |Written(r)| % 4 == 0
  {
    PaddedWhole(Padded(Head(r), 4) + r.entry.data, 4);
  }

  lemma FourSum(a: int, b: int)
    requires a % 4 == 0 && b % 4 == 0
    ensures (a + b) % 4 == 0
  {
  }

  /** Every record starts on a 4-byte boundary. */
  lemma {:induction false} WriteAligned(rs: seq<Record>)
    ensures |WriteAll(rs)| % 4 == 0
  {
    hide Written;
    if rs != [] {
      WriteAligned(rs[..|rs| - 1]);
      WrittenAligned(rs[|rs| - 1]);
      FourSum(|WriteAll(rs[..|rs| - 1])|, |Written(rs[|rs| - 1])|);
    }
  }

  /** A reader goes from record to record until the trailer. */
  function ReadAll(b: seq<byte>): Option<seq<Record>>
    decreases |b|
  {
    match ReadRecord(b)
    case None => None
    case Some((r, rest)) =>
      if r.entry.name == TRAILER then Some([r])
      else if |rest| >= |b| then None
      else match ReadAll(rest)
        case None => None
        case Some(rs) => Some([r] + rs)
  }

  /** The records up to the first one called TRAILER!!!. */
  function ToTrailer(rs: seq<Record>): seq<Record> {
    if rs == [] || rs[0].entry.name == TRAILER then rs[..if rs == [] then 0 else 1] else [rs[0]] + ToTrailer(rs[1..])
  }

  lemma {:induction false} WriteFirst(rs: seq<Record>)
    requires rs != []
    ensures WriteAll(rs) == Written(rs[0]) + WriteAll(rs[1..])
  {
    hide Written;
    if |rs| > 1 {
      WriteFirst(rs[..|rs| - 1]);
      assert rs[..|rs| - 1][1..] == rs[1..][..|rs| - 2];
      assert WriteAll(rs[1..]) == WriteAll(rs[1..][..|rs| - 2]) + Written(rs[|rs| - 1]);
    } else {
      assert rs[..0] == [] && rs[1..] == [];
    }
  }

  /** The archive reads back as far as its first trailer. */
  lemma {:induction false} ArchiveReads(rs: seq<Record>, rest: seq<byte>)
    requires forall i :: 0 <= i < |rs| ==> Fits(rs[i])
    requires exists i :: 0 <= i < |rs| && rs[i].entry.name == TRAILER
    ensures ReadAll(WriteAll(rs) + rest) == Some(ToTrailer(rs))
    decreases |rs|
  {
    hide ReadRecord, Written, Fits;
    WriteFirst(rs);
    var b := WriteAll(rs) + rest;
    assert b == Written(rs[0]) + (WriteAll(rs[1..]) + rest);
    RecordReads(rs[0], WriteAll(rs[1..]) + rest);
    WrittenSize(rs[0]);
    if rs[0].entry.name != TRAILER {
      var i :| 0 <= i < |rs| && rs[i].entry.name == TRAILER;
      assert rs[1..][i - 1] == rs[i];
      ArchiveReads(rs[1..], rest);
    } else {
      assert rs[..1] == [rs[0]];
    }
  }

  lemma WrittenSize(r: Record)
    ensures |Written(r)| > 0
  {
  }

  /** Everything reads back exactly when no earlier record has the trailer's name. */
  lemma {:induction false} AllRead(rs: seq<Record>)
    requires rs != []
    ensures ToTrailer(rs) == rs <==> forall i :: 0 <= i < |rs| - 1 ==> rs[i].entry.name != TRAILER
    decreases |rs|
  {
    if |rs| > 1 && rs[0].entry.name != TRAILER {
      AllRead(rs[1..]);
      assert forall i :: 0 <= i < |rs[1..]| - 1 ==> rs[1..][i] == rs[i + 1];
      assert [rs[0]] + rs[1..] == rs;
      if ToTrailer(rs) == rs { assert ToTrailer(rs)[1..] == ToTrailer(rs[1..]); }
      if forall i :: 0 <= i < |rs[1..]| - 1 ==> rs[1..][i].entry.name != TRAILER {
        forall i | 0 <= i < |rs| - 1
          ensures rs[i].entry.name != TRAILER
        {
          if i > 0 { assert rs[1..][i - 1] == rs[i]; }
        }
      }
    } else {
      assert rs[0] == rs[0];
    }
  }

  // ---- directories ----------------------------------------------------------------------

  function LastSlash(p: name): (r: int)
    ensures -1 <= r < |p| && (r >= 0 ==> p[r] == SLASH) && forall k :: r < k < |p| ==> p[k] != SLASH
  {
    if p == [] then -1 else if p[|p| - 1] == SLASH then |p| - 1 else LastSlash(p[..|p| - 1])
  }

  function Rstrip(p: name): (r: name)
    ensures |r| <= |p| && r == p[..|r|] && (r != [] ==> r[|r| - 1] != SLASH)
  {
    if p != [] && p[|p| - 1] == SLASH then Rstrip(p[..|p| - 1]) else p
  }

  predicate AllSlashes(p: name) {
    forall k :: 0 <= k < |p| ==> p[k] == SLASH
  }

  /** os.path.dirname */
  function Dirname(p: name): (r: name)
    ensures |r| <= |p| && r == p[..|r|] && (|r| == |p| ==> AllSlashes(p))
  {
    var head := p[..LastSlash(p) + 1];
    if AllSlashes(head) then head else Rstrip(head)
  }

  /** The directories a path is in, its own parent first. */
  function Ancestors(p: name): set<name>
    decreases |p|
  {
    var d := Dirname(p);
    if d == [] then {} else if d == p then {d} else {d} + Ancestors(d)
  }

  lemma {:induction false} AncestorShorter(p: name, d: name)
    requires d in Ancestors(p)
    ensures d != [] && |d| <= |p| && d == p[..|d|]
    decreases |p|
  {
    var e := Dirname(p);
    if d != e && e != p {
      AncestorShorter(e, d);
      assert p[..|e|][..|d|] == p[..|d|];
    }
  }

  /** A directory the path names: what is before one of its slashes, without
      slashes at its end. */
  predicate Before(p: name, d: name) {
    0 < |d| < |p| && d == p[..|d|] && p[|d|] == SLASH && p[|d| - 1] != SLASH
  }

  /** All the slashes the path begins with. */
  predicate Lead(p: name, d: name) {
    0 < |d| <= |p| && d == p[..|d|] && AllSlashes(d) && (|d| < |p| ==> p[|d|] != SLASH)
  }

  lemma {:induction false} RstripIs(p: name)
    ensures var r := Rstrip(p);
      (forall k :: |r| <= k < |p| ==> p[k] == SLASH) && (r == [] || r[|r| - 1] != SLASH)
  {
    if p != [] && p[|p| - 1] == SLASH { RstripIs(p[..|p| - 1]); }
  }

  /** The parent of a path: the last directory it names, or else its leading
      slashes, if any. */
  lemma DirnameIs(p: name)
    ensures var d := Dirname(p);
      if exists e :: Before(p, e) then Before(p, d) && forall e :: Before(p, e) ==> |e| <= |d|
      else if d == [] then p == [] || p[0] != SLASH
      else Lead(p, d)
  {
    var n := LastSlash(p) + 1;
    var head := p[..n];
    RstripIs(head);
    forall e | Before(p, e)
      ensures |e| < n && !AllSlashes(head) && |e| <= |Dirname(p)|
    {
      assert head[|e| - 1] != SLASH;
    }
    if AllSlashes(head) {
      if n > 0 { assert head[0] == SLASH; }
    } else {
      var r := Rstrip(head);
      var k :| 0 <= k < n && head[k] != SLASH;
      assert |r| > 0 && head[n - 1] == SLASH;
      assert p[|r|] == head[|r|] == SLASH;
      assert Before(p, r);
    }
  }

  lemma SlashRun(p: name, d: name)
    requires Lead(p, d)
    ensures forall k :: 0 <= k < |d| ==> p[k] == SLASH
  {
    assert forall k :: 0 <= k < |d| ==> d[k] == p[k];
  }

  /** What is before a slash of p is before one of its parent, or is it. */
  lemma BeforeParent(p: name, d: name, e: name)
    requires Before(p, d) && (forall x :: Before(p, x) ==> |x| <= |d|)
    ensures Before(p, e) <==> e == d || Before(d, e)
    ensures Lead(p, e) <==> Lead(d, e)
  {
    assert |e| <= |d| && e == p[..|e|] ==> e == d[..|e|];
    assert |e| <= |d| && e == d[..|e|] ==> e == p[..|e|];
    if Lead(p, e) { SlashRun(p, e); }
    if Lead(d, e) { SlashRun(d, e); }
  }

  /** The directories of a path are those it names, and its leading slashes. */
  lemma {:induction false} AncestorsAre(p: name, e: name)
    ensures e in Ancestors(p) <==> Before(p, e) || Lead(p, e)
    decreases |p|
  {
    hide Dirname;
    var d := Dirname(p);
    DirnameIs(p);
    if exists x :: Before(p, x) {
      AncestorsAre(d, e);
      BeforeParent(p, d, e);
    } else if d == [] {
      assert !Lead(p, e);
    } else {
      if Lead(p, e) { LeadOnly(p, d, e); }
      if d != p { SlashesOwn(d); }
    }
  }

  lemma LeadOnly(p: name, d: name, e: name)
    requires Lead(p, d) && Lead(p, e)
    ensures e == d
  {
    SlashRun(p, d);
    SlashRun(p, e);
  }

  lemma SlashesOwn(d: name)
    requires d != [] && AllSlashes(d)
    ensures Dirname(d) == d && Ancestors(d) == {d}
  {
    assert LastSlash(d) == |d| - 1;
    assert d[..|d|] == d;
  }

  predicate Parented(dirs: set<name>) {
    forall d :: d in dirs ==> d != [] && Ancestors(d) <= dirs
  }

  /** `while d and d not in dirs: dirs.add(d); d = os.path.dirname(d)` */
  method AddParents(dirs0: set<name>, p: name) returns (dirs: set<name>)
    requires Parented(dirs0)
    ensures dirs == dirs0 + Ancestors(p) && Parented(dirs)
  {
    hide Ancestors, Dirname, Upward;
    dirs := dirs0;
    var d := Dirname(p);
    ghost var goal := dirs0 + Ancestors(p);
    UpwardStart(p);
    while d != [] && d !in dirs
      invariant dirs0 <= dirs && dirs + Upward(d) == goal
      invariant forall x :: x in dirs && x !in dirs0 ==> |x| > |d| || (x == d && Dirname(d) == d)
      decreases if d == [] || d in dirs then 0 else |d| + 1
    {
      UpwardStep(dirs, d);
      DirnameShorter(d);
      dirs := dirs + {d};
      d := Dirname(d);
    }
    UpwardEnd(dirs0, dirs, d);
    AncestorsParented(dirs0, p);
  }

  lemma DirnameShorter(d: name)
    ensures |Dirname(d)| < |d| || Dirname(d) == d
  {
  }

  lemma UpwardEnd(dirs0: set<name>, dirs: set<name>, d: name)
    requires Parented(dirs0) && dirs0 <= dirs && (d == [] || d in dirs) && (d in dirs && d !in dirs0 && d != [] ==> Dirname(d) == d)
    ensures Upward(d) <= dirs
  {
  }

  lemma AncestorsParented(dirs: set<name>, p: name)
    requires Parented(dirs)
    ensures Parented(dirs + Ancestors(p))
  {
    forall d | d in Ancestors(p)
      ensures d != [] && Ancestors(d) <= Ancestors(p)
    {
      AncestorShorter(p, d);
      forall e | e in Ancestors(d)
        ensures e in Ancestors(p)
      {
        AncestorTrans(p, d, e);
      }
    }
    hide Ancestors;
  }

  /** A directory and those it is in. */
  function Upward(d: name): set<name> {
    if d == [] then {} else {d} + Ancestors(d)
  }

  lemma UpwardStart(p: name)
    ensures Upward(Dirname(p)) == Ancestors(p)
  {
    var d := Dirname(p);
    if d == p && d != [] {
      assert Ancestors(p) == {p};
    }
  }

  lemma UpwardStep(dirs: set<name>, d: name)
    requires d != []
    ensures (dirs + {d}) + Upward(Dirname(d)) == dirs + Upward(d)
  {
    UpwardStart(d);
  }

  /** Python's order of strings, on their UTF-8 bytes. */
  predicate Less(a: name, b: name) {
    if b == [] then false
    else if a == [] then true
    else a[0] < b[0] || (a[0] == b[0] && Less(a[1..], b[1..]))
  }

  lemma {:induction false} LessTotal(a: name, b: name)
    ensures Less(a, b) || a == b || Less(b, a)
    ensures !(Less(a, b) && Less(b, a)) && (a == b ==> !Less(a, b))
  {
    if a != [] && b != [] {
      LessTotal(a[1..], b[1..]);
      assert a == [a[0]] + a[1..] && b == [b[0]] + b[1..];
    }
  }

  lemma {:induction false} LessTrans(a: name, b: name, c: name)
    requires Less(a, b) && Less(b, c)
    ensures Less(a, c)
  {
    if a != [] && b != [] && c != [] && a[0] == b[0] == c[0] {
      LessTrans(a[1..], b[1..], c[1..]);
    }
  }

  /** Where two names first differ, the lower byte comes first. */
  lemma {:induction false} LowerFirst(p: name, x: byte, y: byte, a: name, b: name)
    requires x < y
    ensures Less(p + [x] + a, p + [y] + b)
  {
    if p == [] {
      assert (p + [x] + a)[0] == x && (p + [y] + b)[0] == y;
    } else {
      assert (p + [x] + a)[1..] == p[1..] + [x] + a && (p + [y] + b)[1..] == p[1..] + [y] + b;
      LowerFirst(p[1..], x, y, a, b);
    }
  }

  /** A path sorts behind its directories. */
  lemma {:induction false} PrefixLess(a: name, b: name)
    requires |a| < |b| && a == b[..|a|]
    ensures Less(a, b)
  {
    if a != [] {
      assert a[0] == b[0] && a[1..] == b[1..][..|a| - 1];
      PrefixLess(a[1..], b[1..]);
    }
  }

  ghost predicate Sorted(s: seq<name>) {
    forall i, j :: 0 <= i < j < |s| ==> Less(s[i], s[j])
  }

  method Least(s: set<name>) returns (x: name)
    requires s != {}
    ensures x in s && forall y :: y in s && y != x ==> Less(x, y)
  {
    x :| x in s;
    var rest := s - {x};
    while rest != {}
      invariant x in s && rest <= s && forall y :: y in s - rest && y != x ==> Less(x, y)
      decreases |rest|
    {
      var y :| y in rest;
      rest := rest - {y};
      LessTotal(x, y);
      if Less(y, x) {
        forall z | z in s - rest && z != y
          ensures Less(y, z)
        {
          if z != x { LessTrans(y, x, z); }
        }
        x := y;
      }
    }
  }

  function Names(s: seq<name>): set<name> {
    set x | x in s
  }

  lemma NamesSnoc(s: seq<name>, x: name)
    ensures Names(s + [x]) == Names(s) + {x}
  {
  }

  /** sorted(dirs) */
  method SortNames(dirs: set<name>) returns (s: seq<name>)
    ensures Sorted(s) && Names(s) == dirs
  {
    s := [];
    var rest := dirs;
    while rest != {}
      invariant rest <= dirs && Names(s) == dirs - rest && Sorted(s)
      invariant forall x, y :: x in s && y in rest ==> Less(x, y)
      decreases |rest|
    {
      var x := Least(rest);
      NamesSnoc(s, x);
      s, rest := s + [x], rest - {x};
    }
  }

  // ---- newc -----------------------------------------------------------------------------

  function AllAncestors(es: seq<Entry>): set<name> {
    if es == [] then {} else AllAncestors(es[..|es| - 1]) + Ancestors(es[|es| - 1].name)
  }

  /** Something called p is in directory d. */
  predicate Inside(p: name, d: name) {
    Before(p, d) || Lead(p, d)
  }

  lemma {:induction false} AllAre(es: seq<Entry>, d: name)
    ensures d in AllAncestors(es) <==> exists i :: 0 <= i < |es| && Inside(es[i].name, d)
  {
    hide Ancestors, Before, Lead;
    if es != [] {
      var n := |es| - 1;
      AllAre(es[..n], d);
      AncestorsAre(es[n].name, d);
      if i: int :| 0 <= i < n && Inside(es[..n][i].name, d) { assert Inside(es[i].name, d); }
      if i: int :| 0 <= i < |es| && Inside(es[i].name, d) {
        if i < n { assert Inside(es[..n][i].name, d); }
      }
    }
  }

  function DirEntry(d: name): Entry {
    Entry(d, 0x41ED, [])                       // 0o040755
  }

  function DirEntries(dirs: seq<name>): (r: seq<Entry>)
    ensures |r| == |dirs|
  {
    seq(|dirs|, i requires 0 <= i < |dirs| => DirEntry(dirs[i]))
  }

  /** Records numbered from k; an archive's are numbered from 1. */
  function NumberedFrom(k: nat, es: seq<Entry>): (r: seq<Record>)
    ensures |r| == |es|
  {
    seq(|es|, i requires 0 <= i < |es| => Record(k + i, es[i]))
  }

  function Numbered(es: seq<Entry>): (r: seq<Record>)
    ensures |r| == |es|
  {
    NumberedFrom(1, es)
  }

  function Contents(dirs: seq<name>, es: seq<Entry>): (r: seq<Entry>)
    ensures |r| == |dirs| + |es| + 1
  {
    DirEntries(dirs) + es + [Entry(TRAILER, 0, [])]
  }

  /** The records: directories with mode 040755 and no data, the entries, and
      TRAILER!!! with nothing, numbered from 1. */
  lemma ContentsAre(dirs: seq<name>, es: seq<Entry>, i: nat)
    ensures var rs := Numbered(Contents(dirs, es));
      && (i < |dirs| ==> rs[i] == Record(i + 1, Entry(dirs[i], 0x41ED, [])))
      && (i < |es| ==> rs[|dirs| + i] == Record(|dirs| + i + 1, es[i]))
      && rs[|rs| - 1] == Record(|dirs| + |es| + 1, Entry([0x54, 0x52, 0x41, 0x49, 0x4C, 0x45, 0x52, 0x21, 0x21, 0x21], 0, []))
  {
  }

  /** They are written one behind the other. */
  lemma InOrder(rs: seq<Record>, i: nat)
    requires i < |rs|
    ensures WriteAll(rs[..0]) == [] && WriteAll(rs[..i + 1]) == WriteAll(rs[..i]) + Written(rs[i])
  {
    hide Written;
    assert rs[..i + 1][..i] == rs[..i];
  }

  class Archive {
    var out: seq<byte>
    var ino: nat
    ghost var records: seq<Record>

    ghost predicate Valid()
      reads this
    {
      out == WriteAll(records) && ino == |records| + 1 && forall i :: 0 <= i < |records| ==> records[i].ino == i + 1
    }

    constructor ()
      ensures Valid() && records == []
    {
      out, ino, records := [], 1, [];
    }

    /** rec(name, mode, data) */
    method Rec(e: Entry)
      requires Valid()
      modifies this
      ensures Valid() && ino == old(ino) + 1 && records == old(records) + [Record(old(ino), e)]
    {
      out := out + Written(Record(ino, e));
      records := records + [Record(ino, e)];
      assert records[..|records| - 1] == old(records);
      ino := ino + 1;
    }
  }

  method RecAll(a: Archive, es: seq<Entry>)
    requires a.Valid()
    modifies a
    ensures a.Valid() && a.ino == old(a.ino) + |es| && a.records == old(a.records) + NumberedFrom(old(a.ino), es)
  {
    hide WriteAll, NumberedFrom, Archive.Valid;
    ghost var was, k := a.records, a.ino;
    NumberedSnoc(k, es, 0);
    for i := 0 to |es|
      invariant a.Valid() && a.ino == k + i && a.records == was + NumberedFrom(k, es[..i])
    {
      NumberedSnoc(k, es, i);
      a.Rec(es[i]);
    }
    assert es[..|es|] == es;
  }

  lemma NumberedSnoc(k: nat, es: seq<Entry>, i: nat)
    requires i <= |es|
    ensures i < |es| ==> NumberedFrom(k, es[..i + 1]) == NumberedFrom(k, es[..i]) + [Record(k + i, es[i])]
    ensures NumberedFrom(k, es[..0]) == []
  {
  }

  method Directories(es: seq<Entry>) returns (dirs: seq<name>)
    ensures Sorted(dirs) && Names(dirs) == AllAncestors(es)
  {
    hide Sorted;
    var found: set<name> := {};
    for i := 0 to |es|
      invariant found == AllAncestors(es[..i]) && Parented(found)
    {
      assert es[..i + 1][..i] == es[..i];
      found := AddParents(found, es[i].name);
    }
    assert es[..|es|] == es;
    dirs := SortNames(found);
  }

  lemma NumberedJoin(a: seq<Entry>, b: seq<Entry>, k: nat)
    ensures NumberedFrom(k, a + b) == NumberedFrom(k, a) + NumberedFrom(k + |a|, b)
  {
  }

  /** The ancestors of every entry, sorted; the entries; the trailer; zeros up
      to whole blocks.  dirs is the list of directories written. */
  method Newc(es: seq<Entry>) returns (out: seq<byte>, ghost dirs: seq<name>)
    ensures Sorted(dirs) && Names(dirs) == AllAncestors(es)
    ensures forall d :: d in dirs <==> exists i :: 0 <= i < |es| && Inside(es[i].name, d)
    ensures WriteAll(Numbered(Contents(dirs, es))) <= out && |out| % 512 == 0
    ensures |out| < |WriteAll(Numbered(Contents(dirs, es)))| + 512
    ensures forall i :: |WriteAll(Numbered(Contents(dirs, es)))| <= i < |out| ==> out[i] == 0
  {
    hide Sorted, AllAncestors, WriteAll, Contents, Numbered;
    var sorted := Directories(es);
    dirs := sorted;
    forall d
      ensures d in dirs <==> exists i :: 0 <= i < |es| && Inside(es[i].name, d)
    {
      assert d in dirs <==> d in Names(dirs);
      AllAre(es, d);
    }
    var a := RecContents(sorted, es);
    out := Padded(a.out, 512);
    PaddedWhole(a.out, 512);
  }

  method RecContents(dirs: seq<name>, es: seq<Entry>) returns (a: Archive)
    ensures fresh(a) && a.Valid() && a.records == Numbered(Contents(dirs, es))
  {
    hide WriteAll, NumberedFrom, DirEntries;
    a := new Archive();
    RecAll(a, DirEntries(dirs));
    ghost var r1 := a.records;
    RecAll(a, es);
    ghost var r2 := a.records;
    RecAll(a, [Entry(TRAILER, 0, [])]);
    NumberedJoin(DirEntries(dirs), es, 1);
    NumberedJoin(DirEntries(dirs) + es, [Entry(TRAILER, 0, [])], 1);
    assert r1 == NumberedFrom(1, DirEntries(dirs));
    assert r2 == NumberedFrom(1, DirEntries(dirs) + es);
  }

  predicate Writable(es: seq<Entry>) {
    forall i :: 0 <= i < |es| ==> es[i].mode < LIMIT && |es[i].data| < LIMIT && |es[i].name| + 1 < LIMIT
  }

  lemma PrefixReads(rs: seq<Record>, out: seq<byte>)
    requires WriteAll(rs) <= out && (forall i :: 0 <= i < |rs| ==> Fits(rs[i])) && rs != [] && rs[|rs| - 1].entry.name == TRAILER
    ensures ReadAll(out) == Some(rs) <==> forall i :: 0 <= i < |rs| - 1 ==> rs[i].entry.name != TRAILER
  {
    hide WriteAll, ReadAll, Fits, ToTrailer;
    var rest := out[|WriteAll(rs)|..];
    assert out == WriteAll(rs) + rest;
    ArchiveReads(rs, rest);
    AllRead(rs);
  }

  /** Reading the archive back gives the directories, the entries and the
      trailer, numbered from 1, exactly when none of them but the last has the
      trailer's name. */
  lemma NewcReads(es: seq<Entry>, dirs: seq<name>, out: seq<byte>)
    requires var all := Contents(dirs, es); Writable(all) && |all| + 1 < LIMIT && WriteAll(Numbered(all)) <= out
    ensures ReadAll(out) == Some(Numbered(Contents(dirs, es))) <==>
            (TRAILER !in dirs && forall i :: 0 <= i < |es| ==> es[i].name != TRAILER)
  {
    hide WriteAll, ReadAll, Fits, Contents, Numbered, Writable;
    NumberedFits(Contents(dirs, es));
    EndsInTrailer(dirs, es);
    PrefixReads(Numbered(Contents(dirs, es)), out);
    TrailerNames(dirs, es);
  }

  lemma EndsInTrailer(dirs: seq<name>, es: seq<Entry>)
    ensures var rs := Numbered(Contents(dirs, es)); rs[|rs| - 1].entry.name == TRAILER
  {
  }

  lemma NumberedFits(all: seq<Entry>)
    requires Writable(all) && |all| + 1 < LIMIT
    ensures forall i :: 0 <= i < |all| ==> Fits(Numbered(all)[i])
  {
  }

  lemma TrailerNames(dirs: seq<name>, es: seq<Entry>)
    ensures var rs := Numbered(Contents(dirs, es));
      (forall i :: 0 <= i < |rs| - 1 ==> rs[i].entry.name != TRAILER) <==> (TRAILER !in dirs && forall i :: 0 <= i < |es| ==> es[i].name != TRAILER)
  {
    var rs := Numbered(Contents(dirs, es));
    assert forall i :: 0 <= i < |dirs| ==> rs[i].entry.name == dirs[i];
    assert forall i :: 0 <= i < |es| ==> rs[|dirs| + i].entry == es[i];
    if forall i :: 0 <= i < |rs| - 1 ==> rs[i].entry.name != TRAILER {
      forall i | 0 <= i < |es|
        ensures es[i].name != TRAILER
      {
        assert rs[|dirs| + i].entry == es[i];
      }
    }
    if TRAILER !in dirs && forall i :: 0 <= i < |es| ==> es[i].name != TRAILER {
      forall i | 0 <= i < |rs| - 1
        ensures rs[i].entry.name != TRAILER
      {
        if i >= |dirs| { assert rs[i].entry == es[i - |dirs|]; }
      }
    }
  }

  /** Every directory that something written is in is written exactly once, and before it. */
  lemma DirectoriesFirst(es: seq<Entry>, dirs: seq<name>, d: name, i: nat)
    requires Sorted(dirs) && Names(dirs) == AllAncestors(es)
    requires i < |dirs| + |es| && Inside(Contents(dirs, es)[i].name, d) && d != Contents(dirs, es)[i].name
    ensures exists j :: 0 <= j < i && j < |dirs| && dirs[j] == d && forall k :: 0 <= k < |dirs| && dirs[k] == d ==> k == j
  {
    hide Ancestors, AllAncestors, Less, Before, Lead;
    var all := Contents(dirs, es);
    AncestorsAre(all[i].name, d);
    if i < |dirs| {
      assert dirs[i] in Names(dirs);
      AncestorsClosed(es, dirs[i], d);
    } else {
      assert all[i] == es[i - |dirs|];
      EntryAncestors(es, i - |dirs|);
    }
    assert d in Names(dirs);
    var j :| 0 <= j < |dirs| && dirs[j] == d;
    OnceSorted(dirs, j);
    if i < |dirs| {
      AncestorBefore(dirs, j, i);
    }
  }

  lemma OnceSorted(dirs: seq<name>, j: nat)
    requires Sorted(dirs) && j < |dirs|
    ensures forall k :: 0 <= k < |dirs| && dirs[k] == dirs[j] ==> k == j
  {
    LessTotal(dirs[j], dirs[j]);
    hide Less;
  }

  lemma AncestorBefore(dirs: seq<name>, j: nat, i: nat)
    requires Sorted(dirs) && j < |dirs| && i < |dirs| && dirs[j] in Ancestors(dirs[i]) && dirs[j] != dirs[i]
    ensures j < i
  {
    hide Less, Ancestors;
    AncestorShorter(dirs[i], dirs[j]);
    PrefixLess(dirs[j], dirs[i]);
    LessTotal(dirs[j], dirs[i]);
  }

  lemma {:induction false} EntryAncestors(es: seq<Entry>, i: nat)
    requires i < |es|
    ensures Ancestors(es[i].name) <= AllAncestors(es)
  {
    if i < |es| - 1 {
      EntryAncestors(es[..|es| - 1], i);
    }
  }

  lemma {:induction false} AncestorTrans(p: name, c: name, d: name)
    requires c in Ancestors(p) && d in Ancestors(c)
    ensures d in Ancestors(p)
    decreases |p|
  {
    var e := Dirname(p);
    if e != p && c != e {
      AncestorTrans(e, c, d);
    }
  }

  lemma {:induction false} AncestorsClosed(es: seq<Entry>, c: name, d: name)
    requires c in AllAncestors(es) && d in Ancestors(c)
    ensures d in AllAncestors(es)
  {
    if c in Ancestors(es[|es| - 1].name) {
      AncestorTrans(es[|es| - 1].name, c, d);
    } else {
      AncestorsClosed(es[..|es| - 1], c, d);
    }
  }
}
