/** The bytecode translator (web/mvm.js:1432-1680).  A function becomes a list
    of chunks of target operations: its blocks are cases of a switch on a label,
    V0-V8 live in locals, and a jump to another chunk spills the locals and
    returns the label to a dispatcher. */
module Translate {
  import opened Isa
  import opened Results
  import opened Interp

  datatype Guard = Always | If(c: Cond) | IfNil(s: nat, sense: bool)
  datatype Callee = Direct(t: int) | Through(s: nat)

  datatype TOp =
    | Case(l: nat)                           // case l:
    | Do(insn: Insn)                         // open-coded on the locals
    | Goto(g: Guard, l: nat)                 // if (g) { L = l; continue; }
    | Leave(g: Guard, l: nat)                // if (g) { STORE; return -(2 + l); }
    | CallOp(f: Callee, l: nat)              // STORE5; resumeL = l; enter; return t * 2
    | TailOp(t: int)                         // STORE5; doTailcall; return t * 2 + 1
    | RetOp                                  // doRet; return -1
    | GcOp                                   // if (va >= vl) { STORE; gc; LOAD }
    | SpillDo(insn: Insn, next: int)         // STORE; execInsn or trap; LOAD
    | Fell                                   // fault('fell off a block')

  /** A translated function.  order, the explored pcs in emission order, is
      what `insns` held; label and chunkOf are RES and LC; resumable says that
      the function contains a setjmp, so that RES is recorded. */
  datatype TFun = TFun(entry: int, order: seq<int>, labels: map<int, nat>, chunkOf: map<nat, nat>,
                       chunks: seq<seq<TOp>>, resumable: bool)

  /** Instructions after which the next instruction is not reached. */
  predicate Ends(insn: Insn) {
    insn.Branch? || insn.Tail? || insn.Ret?
  }

  /** The pcs of the function that control can reach from pc directly. */
  function Succs(code: Code, pc: int): set<int>
    requires pc in code
  {
    var insn, next := code[pc].insn, pc + code[pc].len;
    (if insn.Branch? || insn.BranchIf? || insn.BranchNil? then {Goal(insn)} else {}) + (if Ends(insn) then {} else {next})
  }

  /** The pcs at which a block must start because of the instruction at pc. */
  function Blocks(code: Code, pc: int): set<int>
    requires pc in code
  {
    var insn, next := code[pc].insn, pc + code[pc].len;
    match insn
    case Branch(t) => {t}
    case BranchIf(_, t) => {t, next}
    case BranchNil(_, _, t) => {t, next}
    case Call(_) | CallInd(_) | Setjmp => {next}
    case _ => {}
  }

  // ---- emission -----------------------------------------------------------------

  /** Everything emission looks up: pcs in order, block labels, their chunks. */
  datatype Layout = Layout(order: seq<int>, labels: map<int, nat>, chunkOf: map<nat, nat>) {
    /** Every label an instruction of the function names has been assigned. */
    ghost predicate Complete(code: Code) {
      && (forall k :: 0 <= k < |order| ==> order[k] in code && forall t :: t in Blocks(code, order[k]) ==> t in labels)
      && (forall pc :: pc in labels ==> labels[pc] in chunkOf)
    }

    /** The chunk of the block at pc; -1 if there is none. */
    function ChunkAt(pc: int): int {
      if pc in labels && labels[pc] in chunkOf then chunkOf[labels[pc]] else -1
    }

    /** `J(t)`: a jump inside the chunk or out of it. */
    function Jump(g: Guard, t: int, chunk: nat): TOp
      requires t in labels
    {
      if ChunkAt(t) == chunk then Goto(g, labels[t]) else Leave(g, labels[t])
    }

    function Body(code: Code, k: nat, chunk: nat): seq<TOp>
      requires Complete(code) && k < |order|
    {
      var pc := order[k];
      var insn, next := code[pc].insn, pc + code[pc].len;
      assert forall t :: t in Blocks(code, pc) ==> t in labels;
      match insn
      case Branch(t) => [Jump(Always, t, chunk), Fell]
      case BranchIf(c, t) => [Jump(If(c), t, chunk)]
      case BranchNil(s, sense, t) => [Jump(IfNil(s, sense), t, chunk)]
      case Call(t) => [CallOp(Direct(t), labels[next]), Fell]
      case CallInd(s) => [CallOp(Through(s), labels[next]), Fell]
      case Tail(t) => [TailOp(t), Fell]
      case Ret => [RetOp, Fell]
      case GcCheck => [GcOp]
      case Delegate(_, _, _, _) | Setjmp | Longjmp | PopHandler => [SpillDo(insn, next)]
      case _ => [Do(insn)]
    }

    /** The operations of a chunk from instruction k on: up to the first block
        that belongs to another chunk, to which control is handed over. */
    function From(code: Code, k: nat, chunk: nat): seq<TOp>
      requires Complete(code) && k <= |order|
      decreases |order| - k
    {
      if k == |order| then []
      else if order[k] in labels && ChunkAt(order[k]) != chunk then [Leave(Always, labels[order[k]])]
      else (if order[k] in labels then [Case(labels[order[k]])] else []) + Body(code, k, chunk) + From(code, k + 1, chunk)
    }
  }

  /** `switch (L)`: the operations from case l on. */
  function Find(ops: seq<TOp>, l: nat): seq<TOp> {
    if ops == [] || ops[0] == Case(l) then ops else Find(ops[1..], l)
  }

  // ---- what a translation guarantees -------------------------------------------

  /** f is a translation of the function at entry: its blocks cover everything
      reachable, every label leads to the code of its pc, and label 0, where
      the driver starts, is the entry exactly when the entry is the least pc. */
  ghost predicate Translated(code: Code, entry: int, f: TFun) {
    var y := Layout(f.order, f.labels, f.chunkOf);
    && f.entry == entry && y.Complete(code)
    && (forall i, j :: 0 <= i < j < |f.order| ==> f.order[i] < f.order[j])
    && (forall k :: 0 <= k < |f.order| ==> Succs(code, f.order[k]) <= Elems(f.order))
    && |f.order| > 0 && entry in f.labels && (f.labels[entry] == 0 <==> entry == f.order[0])
    && (forall pc :: pc in f.labels ==> pc in f.order && (pc == entry || BlockOf(code, f.order, pc)))
    && (forall p, q :: p in f.labels && q in f.labels && p != q ==> f.labels[p] != f.labels[q])
    && (forall k :: 0 <= k < |f.order| && f.order[k] in f.labels ==> f.labels[f.order[k]] in f.chunkOf && Leads(code, f, k))
    && (f.resumable <==> exists k :: 0 <= k < |f.order| && code[f.order[k]].insn == Setjmp)
  }

  /** Some instruction makes pc start a block. */
  ghost predicate BlockOf(code: Code, order: seq<int>, pc: int) {
    exists k :: 0 <= k < |order| && order[k] in code && pc in Blocks(code, order[k])
  }

  ghost predicate Leads(code: Code, f: TFun, k: nat)
    requires k < |f.order| && f.order[k] in f.labels && f.labels[f.order[k]] in f.chunkOf
    requires Layout(f.order, f.labels, f.chunkOf).Complete(code)
  {
    var l := f.labels[f.order[k]];
    var c := f.chunkOf[l];
    c < |f.chunks| && Find(f.chunks[c], l) == Layout(f.order, f.labels, f.chunkOf).From(code, k, c)
  }

  function Elems(s: seq<int>): set<int> {
    set x | x in s
  }

  // ---- exploration ----------------------------------------------------------------

  /** Control can come from entry to pc. */
  ghost predicate Reached(code: Code, entry: int, pc: int) {
    exists p: seq<int> :: Path(code, entry, p) && p[|p| - 1] == pc
  }

  ghost predicate Path(code: Code, entry: int, p: seq<int>) {
    |p| > 0 && p[0] == entry && forall i :: 0 <= i < |p| - 1 ==> p[i] in code && p[i + 1] in Succs(code, p[i])
  }

  /** Control can come to an instruction the translator does not know. */
  ghost predicate Fails(code: Code, entry: int) {
    exists pc :: Reached(code, entry, pc) && pc !in code
  }

  ghost predicate AllReached(code: Code, entry: int, pcs: set<int>) {
    forall pc :: pc in pcs ==> Reached(code, entry, pc)
  }

  lemma ExploreStart(code: Code, entry: int)
    ensures Explored(code, entry, {}, {entry}, Elems([entry])) && AllReached(code, entry, {} + Elems([entry]))
  {
    assert Path(code, entry, [entry]);
  }

  lemma SuccsReached(code: Code, entry: int, pcs: set<int>, pc: int)
    requires AllReached(code, entry, pcs + {pc}) && pc in code
    ensures AllReached(code, entry, pcs + Succs(code, pc))
  {
    hide Succs;
    var p :| Path(code, entry, p) && p[|p| - 1] == pc;
    forall q | q in pcs + Succs(code, pc)
      ensures Reached(code, entry, q)
    {
      if q in Succs(code, pc) {
        assert Path(code, entry, p + [q]);
      } else {
        assert q in pcs + {pc};
      }
    }
  }

  lemma Stray(code: Code, entry: int, pcs: set<int>, pc: int)
    requires AllReached(code, entry, pcs) && pc in pcs && pc !in code
    ensures Fails(code, entry)
  {
  }

  /** A set closed under the ways on holds everything reachable. */
  lemma {:induction false} ClosedReaches(code: Code, entry: int, seen: set<int>, p: seq<int>, i: nat)
    requires entry in seen && seen <= code.Keys && forall pc :: pc in seen ==> Succs(code, pc) <= seen
    requires Path(code, entry, p) && i < |p|
    ensures p[i] in seen
  {
    hide Succs;
    if i > 0 {
      ClosedReaches(code, entry, seen, p, i - 1);
    }
  }

  lemma ExploredIsReached(code: Code, entry: int, seen: set<int>, starts: set<int>)
    requires Explored(code, entry, seen, starts, {}) && AllReached(code, entry, seen)
    ensures forall pc :: pc in seen <==> Reached(code, entry, pc)
    ensures !Fails(code, entry)
  {
    forall pc | Reached(code, entry, pc)
      ensures pc in seen
    {
      var p :| Path(code, entry, p) && p[|p| - 1] == pc;
      ClosedReaches(code, entry, seen, p, |p| - 1);
    }
  }

  /** seen is what has been decoded, and every way on from it is in todo. */
  ghost predicate Explored(code: Code, entry: int, seen: set<int>, starts: set<int>, todo: set<int>) {
    && seen <= code.Keys && entry in seen + todo && entry in starts
    && starts <= seen + todo
    && (forall pc :: pc in seen ==> Succs(code, pc) <= seen + todo && Blocks(code, pc) <= starts)
    && (forall pc :: pc in seen + todo ==> pc in starts || FallsInto(code, seen, pc))
    && (forall pc :: pc in starts ==> pc == entry || StartedBy(code, seen, pc))
  }

  ghost predicate StartedBy(code: Code, seen: set<int>, pc: int)
    requires seen <= code.Keys
  {
    exists q :: q in seen && pc in Blocks(code, q)
  }

  ghost predicate FallsInto(code: Code, seen: set<int>, pc: int)
    requires seen <= code.Keys
  {
    exists q :: q in seen && q + code[q].len == pc
  }

  lemma ExploredStep(code: Code, entry: int, seen: set<int>, starts: set<int>, todo: set<int>, pc: int)
    requires pc in code && Explored(code, entry, seen, starts, todo + {pc})
    ensures Explored(code, entry, seen + {pc}, starts + Blocks(code, pc), todo + Succs(code, pc))
  {
    var seen1, todo1 := seen + {pc}, todo + Succs(code, pc);
    forall p | p in seen1 + todo1
      ensures p in starts + Blocks(code, pc) || FallsInto(code, seen1, p)
    {
      if p in seen + (todo + {pc}) {
        if p !in starts {
          var q :| q in seen && q + code[q].len == p;
          assert q in seen1;
        }
      } else if p == pc + code[pc].len {
        assert pc in seen1;
      }
    }
    forall p | p in starts + Blocks(code, pc)
      ensures p == entry || StartedBy(code, seen1, p)
    {
      if p in Blocks(code, pc) {
        assert pc in seen1;
      } else if p != entry {
        var q :| q in seen && p in Blocks(code, q);
        assert q in seen1;
      }
    }
  }

  /** What one decoded instruction adds to the blocks and to the work list, and
      whether exploration goes on behind it. */
  method Decode(code: Code, pc: int, starts: set<int>, work: seq<int>) returns (starts': set<int>, work': seq<int>, go: bool)
    requires pc in code
    ensures starts' == starts + Blocks(code, pc) && go == !Ends(code[pc].insn)
    ensures Elems(work') + (if go then {pc + code[pc].len} else {}) == Elems(work) + Succs(code, pc)
  {
    starts', work', go := starts, work, true;
    var next := pc + code[pc].len;
    match code[pc].insn {
      case Branch(t) =>
        starts', work', go := starts + {t}, work + [t], false;
      case BranchIf(_, t) =>
        starts', work' := starts + {t, next}, work + [t];
      case BranchNil(_, _, t) =>
        starts', work' := starts + {t, next}, work + [t];
      case Tail(_) => go := false;
      case Ret => go := false;
      case Call(_) => starts' := starts + {next};
      case CallInd(_) => starts' := starts + {next};
      case Setjmp => starts' := starts + {next};
      case _ =>
    }
  }

  /** Step 1: follow the control flow from entry (web/mvm.js:1435-1460).  None
      when an opcode of unknown length is reached. */
  method Explore(code: Code, entry: int) returns (r: Option<(seq<int>, set<int>)>)
    ensures r.None? <==> Fails(code, entry)
    ensures r.Some? ==>
      && (forall pc :: pc in Elems(r.value.0) <==> Reached(code, entry, pc))
      && Explored(code, entry, Elems(r.value.0), r.value.1, {})
      && (forall i, j :: 0 <= i < j < |r.value.0| ==> r.value.0[i] != r.value.0[j])
  {
    hide Succs, Blocks, Reached, Explored, AllReached;
    ExploreStart(code, entry);
    var starts, seen, work, insns := {entry}, {}, [entry], [];
    while work != []
      invariant Explored(code, entry, seen, starts, Elems(work))
      invariant AllReached(code, entry, seen + Elems(work))
      invariant seen == Elems(insns) && seen <= code.Keys
      invariant forall i, j :: 0 <= i < j < |insns| ==> insns[i] != insns[j]
      decreases code.Keys - seen, |work|
    {
      var pc := work[|work| - 1];
      assert Elems(work) == Elems(work[..|work| - 1]) + {pc};
      work := work[..|work| - 1];
      assert seen + Elems(work) + {pc} == seen + (Elems(work) + {pc});
      var go := true;
      ghost var seen0, work0 := seen, work;
      while go && pc !in seen
        invariant Explored(code, entry, seen, starts, Elems(work) + (if go then {pc} else {}))
        invariant AllReached(code, entry, seen + Elems(work) + (if go then {pc} else {}))
        invariant seen == Elems(insns) && seen <= code.Keys
        invariant forall i, j :: 0 <= i < j < |insns| ==> insns[i] != insns[j]
        invariant seen0 <= seen && (seen == seen0 ==> work == work0)
        decreases code.Keys - seen
      {
        if pc !in code {
          Stray(code, entry, seen + Elems(work) + {pc}, pc);
          return None;
        }
        ExploredStep(code, entry, seen, starts, Elems(work), pc);
        SuccsReached(code, entry, seen + Elems(work) + {pc}, pc);
        ghost var reached := seen + Elems(work) + {pc} + Succs(code, pc);
        seen, insns := seen + {pc}, insns + [pc];
        starts, work, go := Decode(code, pc, starts, work);
        pc := if go then pc + code[pc].len else pc;
        assert seen + Elems(work) + (if go then {pc} else {}) == reached;
      }
      assert seen == seen0 || code.Keys - seen < code.Keys - seen0;
      ExploredAgain(code, entry, seen, starts, Elems(work), pc, go);
    }
    assert Elems(work) == {} && seen + Elems(work) == seen;
    ExploredIsReached(code, entry, seen, starts);
    r := Some((insns, starts));
  }

  lemma ExploredAgain(code: Code, entry: int, seen: set<int>, starts: set<int>, todo: set<int>, pc: int, go: bool)
    requires Explored(code, entry, seen, starts, todo + (if go then {pc} else {})) && (go ==> pc in seen)
    requires AllReached(code, entry, seen + todo + (if go then {pc} else {}))
    ensures Explored(code, entry, seen, starts, todo) && AllReached(code, entry, seen + todo)
  {
    hide Reached;
    assert seen + (todo + (if go then {pc} else {})) == seen + todo;
  }

  // ---- labels and chunks -------------------------------------------------------------

  ghost predicate Ascending(s: seq<int>) {
    forall i, j :: 0 <= i < j < |s| ==> s[i] < s[j]
  }

  /** `insns.sort`, on distinct pcs */
  function Insert(s: seq<int>, x: int): (r: seq<int>)
    requires Ascending(s) && x !in s
    ensures Ascending(r) && Elems(r) == Elems(s) + {x}
  {
    if s == [] then [x]
    else if x < s[0] then [x] + s
    else
      var t := Insert(s[1..], x);
      assert forall k :: 0 <= k < |t| ==> t[k] in Elems(s[1..]) + {x};
      assert Elems(s) == Elems(s[1..]) + {s[0]};
      [s[0]] + t
  }

  function Sort(s: seq<int>): (r: seq<int>)
    requires forall i, j :: 0 <= i < j < |s| ==> s[i] != s[j]
    ensures Ascending(r) && Elems(r) == Elems(s)
  {
    if s == [] then []
    else
      var t := Sort(s[..|s| - 1]);
      assert s[|s| - 1] !in Elems(s[..|s| - 1]);
      assert Elems(s) == Elems(s[..|s| - 1]) + {s[|s| - 1]};
      Insert(t, s[|s| - 1])
  }

  /** Later blocks have larger labels, in the same chunk or a later one. */
  ghost predicate Rising(labels: map<int, nat>, chunkOf: map<nat, nat>)
    requires forall pc :: pc in labels ==> labels[pc] in chunkOf
  {
    forall p, q :: p in labels && q in labels && p < q ==> labels[p] < labels[q] && chunkOf[labels[p]] <= chunkOf[labels[q]]
  }

  lemma RisingAdd(labels: map<int, nat>, chunkOf: map<nat, nat>, pc: int, nl: nat, nch: nat)
    requires forall p :: p in labels ==> p < pc && labels[p] < nl && labels[p] in chunkOf && chunkOf[labels[p]] <= nch
    requires Rising(labels, chunkOf)
    ensures var m, c := labels[pc := nl], chunkOf[nl := nch];
      (forall p :: p in m ==> m[p] in c && m[p] < nl + 1 && c[m[p]] <= nch) && Rising(m, c)
  {
    var m, c := labels[pc := nl], chunkOf[nl := nch];
    forall p, q | p in m && q in m && p < q
      ensures m[p] < m[q] && c[m[p]] <= c[m[q]]
    {
      assert p in labels;
    }
  }

  /** The labels number the block starts in order, and chunks never go
      backwards (1461-1474). */
  ghost predicate Numbered(order: seq<int>, starts: set<int>, n: nat, labels: map<int, nat>, nl: nat, chunkOf: map<nat, nat>, nch: nat)
    requires n <= |order|
  {
    && (forall pc :: pc in labels ==> pc in starts && (n < |order| ==> pc < order[n]))
    && (forall k :: 0 <= k < n && order[k] in starts ==> order[k] in labels)
    && (forall pc :: pc in labels ==> labels[pc] < nl && labels[pc] in chunkOf && chunkOf[labels[pc]] <= nch)
    && Rising(labels, chunkOf)
    && (n == 0 ==> labels == map[] && nl == 0)
    && (n > 0 && order[0] in starts ==> order[0] in labels && labels[order[0]] == 0)
    && (forall l :: l in chunkOf ==> l < nl)
    && |labels| == nl
  }

  lemma NumberedStart(order: seq<int>, starts: set<int>, n: nat, labels: map<int, nat>, nl: nat, chunkOf: map<nat, nat>, nch: nat, nch': nat)
    requires n < |order| && Ascending(order) && Numbered(order, starts, n, labels, nl, chunkOf, nch)
    requires order[n] in starts && nch <= nch'
    ensures Numbered(order, starts, n + 1, labels[order[n] := nl], nl + 1, chunkOf[nl := nch'], nch')
  {
    RisingAdd(labels, chunkOf, order[n], nl, nch');
    hide Rising;
    assert n + 1 < |order| ==> order[n] < order[n + 1];
    assert n > 0 ==> order[0] < order[n];
  }

  lemma NumberedSkip(order: seq<int>, starts: set<int>, n: nat, labels: map<int, nat>, nl: nat, chunkOf: map<nat, nat>, nch: nat)
    requires n < |order| && Ascending(order) && Numbered(order, starts, n, labels, nl, chunkOf, nch)
    requires order[n] !in starts
    ensures Numbered(order, starts, n + 1, labels, nl, chunkOf, nch)
  {
    assert n + 1 < |order| ==> order[n] < order[n + 1];
  }

  /** Chunk c holds the instructions from first[c] on, up to the first block
      start that comes limit instructions later: there, and only there, it is
      closed and the next one opened. */
  ghost predicate Chunked(order: seq<int>, starts: set<int>, limit: nat, n: nat, labels: map<int, nat>, chunkOf: map<nat, nat>, first: seq<nat>) {
    && n <= |order| && first != [] && first[0] == 0
    && (forall c :: 0 < c < |first| ==> first[c] < n && order[first[c]] in starts && first[c - 1] + limit <= first[c])
    && forall c, k :: 0 <= c < |first| && first[c] <= k < ChunkEnd(first, c, n) ==> InChunk(order, starts, limit, labels, chunkOf, first[c], c, k)
  }

  function ChunkEnd(first: seq<nat>, c: nat, n: nat): nat {
    if c + 1 < |first| then first[c + 1] else n
  }

  /** Instruction k, if it starts a block, is in chunk c, which begins at `from`. */
  ghost predicate InChunk(order: seq<int>, starts: set<int>, limit: nat, labels: map<int, nat>, chunkOf: map<nat, nat>, from: nat, c: nat, k: nat)
    requires k < |order|
  {
    order[k] in starts ==>
      && (k == from || k < from + limit)
      && order[k] in labels && labels[order[k]] in chunkOf && chunkOf[labels[order[k]]] == c
  }

  lemma ChunkedStart(order: seq<int>, starts: set<int>, limit: nat, n: nat, labels: map<int, nat>, nl: nat, chunkOf: map<nat, nat>, first: seq<nat>, first': seq<nat>)
    requires n < |order| && Ascending(order) && Chunked(order, starts, limit, n, labels, chunkOf, first) && order[n] in starts && nl !in chunkOf
    requires first[|first| - 1] <= n
    requires first' == if n - first[|first| - 1] >= limit then first + [n] else first
    ensures Chunked(order, starts, limit, n + 1, labels[order[n] := nl], chunkOf[nl := |first'| - 1], first')
  {
    hide InChunk;
    var labels', chunkOf' := labels[order[n] := nl], chunkOf[nl := |first'| - 1];
    forall c, k | 0 <= c < |first'| && first'[c] <= k < ChunkEnd(first', c, n + 1)
      ensures InChunk(order, starts, limit, labels', chunkOf', first'[c], c, k)
    {
      if k < n {
        assert c < |first| && k < ChunkEnd(first, c, n);
        StaysInChunk(order, starts, limit, labels, chunkOf, first[c], c, k, n, nl, |first'| - 1);
      } else {
        EntersChunk(order, starts, limit, labels, chunkOf, first'[c], c, n, nl);
      }
    }
  }

  lemma StaysInChunk(order: seq<int>, starts: set<int>, limit: nat, labels: map<int, nat>, chunkOf: map<nat, nat>, from: nat, c: nat, k: nat, n: nat, nl: nat, last: nat)
    requires k < n < |order| && Ascending(order) && nl !in chunkOf && InChunk(order, starts, limit, labels, chunkOf, from, c, k)
    ensures InChunk(order, starts, limit, labels[order[n] := nl], chunkOf[nl := last], from, c, k)
  {
  }

  lemma EntersChunk(order: seq<int>, starts: set<int>, limit: nat, labels: map<int, nat>, chunkOf: map<nat, nat>, from: nat, c: nat, n: nat, nl: nat)
    requires n < |order| && (n == from || n < from + limit)
    ensures InChunk(order, starts, limit, labels[order[n] := nl], chunkOf[nl := c], from, c, n)
  {
  }

  lemma ChunkedSkip(order: seq<int>, starts: set<int>, limit: nat, n: nat, labels: map<int, nat>, chunkOf: map<nat, nat>, first: seq<nat>)
    requires n < |order| && Chunked(order, starts, limit, n, labels, chunkOf, first) && order[n] !in starts
    ensures Chunked(order, starts, limit, n + 1, labels, chunkOf, first)
  {
    forall c, k | 0 <= c < |first| && first[c] <= k < ChunkEnd(first, c, n + 1)
      ensures InChunk(order, starts, limit, labels, chunkOf, first[c], c, k)
    {
      if k < n {
        assert k < ChunkEnd(first, c, n);
      }
    }
  }

  method Number(order: seq<int>, starts: set<int>, limit: nat) returns (labels: map<int, nat>, chunkOf: map<nat, nat>, nch: nat)
    requires Ascending(order)
    ensures exists nl: nat :: Numbered(order, starts, |order|, labels, nl, chunkOf, nch)
    ensures exists first: seq<nat> :: |first| == nch + 1 && Chunked(order, starts, limit, |order|, labels, chunkOf, first)
  {
    hide Numbered, Chunked;
    var nl: nat, acc: nat := 0, 0;
    labels, chunkOf, nch := map[], map[], 0;
    NumberedNone(order, starts, limit);
    ghost var first: seq<nat> := [0];
    var k := 0;
    while k < |order|
      invariant k <= |order| && Numbered(order, starts, k, labels, nl, chunkOf, nch)
      invariant |first| == nch + 1 && k == first[nch] + acc && Chunked(order, starts, limit, k, labels, chunkOf, first)
    {
      var pc := order[k];
      if pc in starts {
        ghost var was, before := nch, first;
        if acc >= limit { first := first + [k]; }
        if acc >= limit {
          nch, acc := nch + 1, 0;
        }
        NumberedFresh(order, starts, k, labels, nl, chunkOf, was);
        NumberedStart(order, starts, k, labels, nl, chunkOf, was, nch);
        ChunkedStart(order, starts, limit, k, labels, nl, chunkOf, before, first);
        labels, chunkOf, nl := labels[pc := nl], chunkOf[nl := nch], nl + 1;
      } else {
        NumberedSkip(order, starts, k, labels, nl, chunkOf, nch);
        ChunkedSkip(order, starts, limit, k, labels, chunkOf, first);
      }
      acc := acc + 1;
      k := k + 1;
    }
    assert Numbered(order, starts, |order|, labels, nl, chunkOf, nch);
  }

  lemma NumberedNone(order: seq<int>, starts: set<int>, limit: nat)
    ensures Numbered(order, starts, 0, map[], 0, map[], 0) && Chunked(order, starts, limit, 0, map[], map[], [0])
  {
  }

  lemma NumberedFresh(order: seq<int>, starts: set<int>, n: nat, labels: map<int, nat>, nl: nat, chunkOf: map<nat, nat>, nch: nat)
    requires n <= |order| && Numbered(order, starts, n, labels, nl, chunkOf, nch)
    ensures nl !in chunkOf
  {
  }

  // ---- emission ------------------------------------------------------------------------

  /** Emission meets block k's chunk: all instructions since first[c] are in c. */
  ghost predicate SameChunk(y: Layout, first: nat, k: nat, c: nat)
  {
    first <= k < |y.order| && forall j :: first <= j <= k && y.order[j] in y.labels ==> y.ChunkAt(y.order[j]) == c
  }

  predicate NoCase(ops: seq<TOp>) {
    forall i :: 0 <= i < |ops| ==> !ops[i].Case?
  }

  lemma {:induction false} FindSkips(a: seq<TOp>, b: seq<TOp>, l: nat)
    requires forall i :: 0 <= i < |a| ==> a[i] != TOp.Case(l)
    ensures Find(a + b, l) == Find(b, l)
  {
    if a == [] {
      assert a + b == b;
    } else {
      assert (a + b)[1..] == a[1..] + b;
      FindSkips(a[1..], b, l);
    }
  }

  /** The switch finds the block of instruction k in the chunk's operations. */
  lemma {:induction false} FindBlock(code: Code, y: Layout, first: nat, k: nat, c: nat)
    requires y.Complete(code) && SameChunk(y, first, k, c) && y.order[k] in y.labels
    requires forall p, q :: p in y.labels && q in y.labels && p != q ==> y.labels[p] != y.labels[q]
    requires Ascending(y.order)
    ensures Find(y.From(code, first, c), y.labels[y.order[k]]) == y.From(code, k, c)
    decreases k - first
  {
    hide Layout.Body, Layout.Complete;
    var l := y.labels[y.order[k]];
    var ops := y.From(code, first, c);
    if first == k {
      assert ops[0] == TOp.Case(l);
    } else {
      var mark := if y.order[first] in y.labels then [TOp.Case(y.labels[y.order[first]])] else [];
      var head := mark + y.Body(code, first, c);
      FromNext(code, y, first, c);
      assert ops == head + y.From(code, first + 1, c);
      assert y.order[first] != y.order[k];
      BodyNoCase(code, y, first, c);
      FindSkips(head, y.From(code, first + 1, c), l);
      FindBlock(code, y, first + 1, k, c);
    }
  }

  /** Emission goes on behind an instruction of the chunk. */
  lemma FromNext(code: Code, y: Layout, k: nat, c: nat)
    requires y.Complete(code) && k < |y.order| && (y.order[k] in y.labels ==> y.ChunkAt(y.order[k]) == c)
    ensures y.From(code, k, c) == (if y.order[k] in y.labels then [TOp.Case(y.labels[y.order[k]])] else []) + y.Body(code, k, c) + y.From(code, k + 1, c)
  {
    hide Layout.Body;
  }

  lemma BodyNoCase(code: Code, y: Layout, k: nat, c: nat)
    requires y.Complete(code) && k < |y.order|
    ensures NoCase(y.Body(code, k, c))
  {
  }

  /** The blocks at instructions below n are found in the chunks outs. */
  ghost predicate Findable(code: Code, y: Layout, outs: seq<seq<TOp>>, n: nat)
    requires y.Complete(code) && n <= |y.order|
  {
    forall k :: 0 <= k < n && y.order[k] in y.labels ==> BlockFound(code, y, outs, k)
  }

  ghost predicate BlockFound(code: Code, y: Layout, outs: seq<seq<TOp>>, k: nat)
    requires y.Complete(code) && k < |y.order| && y.order[k] in y.labels
  {
    var l := y.labels[y.order[k]];
    l in y.chunkOf && y.chunkOf[l] < |outs| && Find(outs[y.chunkOf[l]], l) == y.From(code, k, y.chunkOf[l])
  }

  ghost predicate Orderly(code: Code, y: Layout, nch: nat) {
    && y.Complete(code) && Ascending(y.order)
    && (forall p, q :: p in y.labels && q in y.labels && p != q ==> y.labels[p] != y.labels[q])
    && (forall p, q :: p in y.labels && q in y.labels && p < q ==> y.ChunkAt(p) <= y.ChunkAt(q))
    && (forall pc :: pc in y.labels ==> 0 <= y.ChunkAt(pc) <= nch)
  }

  /** The current chunk began at instruction first; last is its newest label. */
  ghost predicate Emitting(code: Code, y: Layout, out: seq<TOp>, first: nat, k: nat, cur: nat, last: int)
    requires y.Complete(code)
  {
    && first <= k <= |y.order|
    && out + y.From(code, k, cur) == y.From(code, first, cur)
    && (forall j :: first <= j < k && y.order[j] in y.labels ==> y.ChunkAt(y.order[j]) == cur)
    && (forall j :: 0 <= j < first && y.order[j] in y.labels ==> y.ChunkAt(y.order[j]) < cur)
    && (if cur == 0 then true
        else 0 <= last < k && y.order[last] in y.labels && y.ChunkAt(y.order[last]) == cur)
  }

  /** Closing a chunk: all its blocks can be found in it. */
  lemma ChunkClosed(code: Code, y: Layout, nch: nat, outs: seq<seq<TOp>>, out: seq<TOp>, first: nat, k: nat, cur: nat, last: int)
    requires Orderly(code, y, nch) && Emitting(code, y, out, first, k, cur, last)
    requires cur < |outs| && Findable(code, y, outs, first)
    ensures var full := out + y.From(code, k, cur); Findable(code, y, outs[cur := full], k)
  {
    var full := out + y.From(code, k, cur);
    forall j | 0 <= j < k && y.order[j] in y.labels
      ensures BlockFound(code, y, outs[cur := full], j)
    {
      if j < first {
        assert BlockFound(code, y, outs, j);
      } else {
        assert SameChunk(y, first, j, cur);
        FindBlock(code, y, first, j, cur);
      }
    }
  }

  /** The next block belongs to a later chunk or to this one. */
  lemma LaterChunk(code: Code, y: Layout, nch: nat, out: seq<TOp>, first: nat, k: nat, cur: nat, last: int)
    requires Orderly(code, y, nch) && Emitting(code, y, out, first, k, cur, last)
    requires k < |y.order| && y.order[k] in y.labels
    ensures cur <= y.ChunkAt(y.order[k]) <= nch
  {
    if cur > 0 {
      assert y.order[last] < y.order[k];
    }
  }

  /** Step 2: emit the operations, chunk by chunk (1475-1662). */
  method Emit(code: Code, y: Layout, nch: nat) returns (outs: seq<seq<TOp>>)
    requires Orderly(code, y, nch)
    ensures |outs| == nch + 1 && Findable(code, y, outs, |y.order|)
  {
    hide Orderly, Findable, Layout.Body, Layout.From, Find, Emitting, Layout.Complete;
    OrderlyParts(code, y, nch);
    outs := seq(nch + 1, i => []);
    var out: seq<TOp>, cur: nat := [], 0;
    ghost var first: nat, last: int := 0, -1;
    var k := 0;
    FindableNone(code, y, outs);
    EmittingNone(code, y);
    while k < |y.order|
      invariant k <= |y.order| && first <= |y.order| && Emitting(code, y, out, first, k, cur, last)
      invariant cur <= nch && |outs| == nch + 1 && Findable(code, y, outs, first)
    {
      var pc := y.order[k];
      if pc in y.labels {
        var l := y.labels[pc];
        var ch := y.chunkOf[l];
        LaterChunk(code, y, nch, out, first, k, cur, last);
        if ch != cur {
          ChunkClosed(code, y, nch, outs, out, first, k, cur, last);
          EmitNew(code, y, out, first, k, cur, last);
          out := out + [Leave(Always, l)];
          outs := outs[cur := out];
          out, cur, first := [], ch, k;
        } else {
          EmitLabel(code, y, out, first, k, cur, last);
        }
        out := out + [TOp.Case(l)];
        last := k;
      } else {
        EmitPlain(code, y, out, first, k, cur, last);
      }
      out := out + y.Body(code, k, cur);
      k := k + 1;
    }
    ChunkClosed(code, y, nch, outs, out, first, k, cur, last);
    FromEnd(code, y, cur);
    assert out + [] == out;
    EmittingBound(code, y, out, first, k, cur, last);
    outs := outs[cur := out];
  }

  lemma EmittingNone(code: Code, y: Layout)
    requires y.Complete(code)
    ensures Emitting(code, y, [], 0, 0, 0, -1)
  {
    hide Layout.From;
    assert [] + y.From(code, 0, 0) == y.From(code, 0, 0);
  }

  lemma EmittingBound(code: Code, y: Layout, out: seq<TOp>, first: nat, k: nat, cur: nat, last: int)
    requires y.Complete(code) && Emitting(code, y, out, first, k, cur, last)
    ensures first <= k <= |y.order|
  {
  }

  lemma FromEnd(code: Code, y: Layout, c: nat)
    requires y.Complete(code)
    ensures y.From(code, |y.order|, c) == []
  {
  }

  lemma OrderlyParts(code: Code, y: Layout, nch: nat)
    requires Orderly(code, y, nch)
    ensures y.Complete(code) && forall pc :: pc in y.labels ==> y.labels[pc] in y.chunkOf
  {
  }

  lemma FindableNone(code: Code, y: Layout, outs: seq<seq<TOp>>)
    requires y.Complete(code)
    ensures Findable(code, y, outs, 0)
  {
  }

  /** A block of a later chunk: the chunk before hands over to it. */
  lemma EmitNew(code: Code, y: Layout, out: seq<TOp>, first: nat, k: nat, cur: nat, last: int)
    requires y.Complete(code) && Emitting(code, y, out, first, k, cur, last)
    requires k < |y.order| && y.order[k] in y.labels && cur < y.ChunkAt(y.order[k])
    ensures out + y.From(code, k, cur) == out + [Leave(Always, y.labels[y.order[k]])]
    ensures Emitting(code, y, [] + [TOp.Case(y.labels[y.order[k]])] + y.Body(code, k, y.ChunkAt(y.order[k])), k, k + 1, y.ChunkAt(y.order[k]), k)
  {
    hide Layout.Body, Layout.Complete;
    var ch := y.ChunkAt(y.order[k]);
    assert [] + y.From(code, k, ch) == y.From(code, k, ch);
    EmitOne(code, y, [], k, k, ch, k, true);
  }

  /** A block of the same chunk. */
  lemma EmitLabel(code: Code, y: Layout, out: seq<TOp>, first: nat, k: nat, cur: nat, last: int)
    requires y.Complete(code) && Emitting(code, y, out, first, k, cur, last)
    requires k < |y.order| && y.order[k] in y.labels && cur == y.ChunkAt(y.order[k])
    ensures Emitting(code, y, out + [TOp.Case(y.labels[y.order[k]])] + y.Body(code, k, cur), first, k + 1, cur, k)
  {
    hide Layout.Body, Layout.From, Layout.Complete;
    EmitOne(code, y, out, first, k, cur, last, true);
  }

  /** An instruction inside a block. */
  lemma EmitPlain(code: Code, y: Layout, out: seq<TOp>, first: nat, k: nat, cur: nat, last: int)
    requires y.Complete(code) && Emitting(code, y, out, first, k, cur, last)
    requires k < |y.order| && y.order[k] !in y.labels
    ensures Emitting(code, y, out + y.Body(code, k, cur), first, k + 1, cur, last)
  {
    hide Layout.Body, Layout.From, Layout.Complete;
    EmitOne(code, y, out, first, k, cur, last, false);
    assert out + [] == out;
  }

  lemma EmitOne(code: Code, y: Layout, out: seq<TOp>, first: nat, k: nat, cur: nat, last: int, isLabel: bool)
    requires y.Complete(code) && first <= k < |y.order| && (isLabel <==> y.order[k] in y.labels)
    requires isLabel ==> y.ChunkAt(y.order[k]) == cur
    requires out + y.From(code, k, cur) == y.From(code, first, cur)
    ensures var op := if isLabel then [TOp.Case(y.labels[y.order[k]])] else [];
      out + op + y.Body(code, k, cur) + y.From(code, k + 1, cur) == y.From(code, first, cur)
  {
    hide Layout.Body, Layout.Complete;
    var op := if isLabel then [TOp.Case(y.labels[y.order[k]])] else [];
    assert y.From(code, k, cur) == op + y.Body(code, k, cur) + y.From(code, k + 1, cur);
    Regroup(out, op, y.Body(code, k, cur), y.From(code, k + 1, cur));
  }

  lemma Regroup<T>(a: seq<T>, b: seq<T>, c: seq<T>, d: seq<T>)
    ensures a + b + c + d == a + (b + c + d)
  {
  }

  // ---- the translator ------------------------------------------------------------------

  /** compileFn, with blocks grouped into chunks of about limit instructions. */
  method CompileFn(code: Code, entry: int, limit: nat) returns (r: Option<TFun>)
    requires forall pc :: pc in code ==> code[pc].len > 0
    ensures r.None? <==> Fails(code, entry)
    ensures r.Some? ==> Translated(code, entry, r.value) && forall pc :: pc in r.value.order <==> Reached(code, entry, pc)
  {
    hide Orderly, Findable, Numbered, Explored, Layout.Complete, Succs, Leads, BlockOf, Translated, Reached, Fails;
    var e := Explore(code, entry);
    if e.None? { return None; }
    var (insns, starts) := e.value;
    var order := Sort(insns);
    var labels, chunkOf, nch := Number(order, starts, limit);
    var y := Layout(order, labels, chunkOf);
    LayoutOrderly(code, entry, insns, order, starts, y, nch);
    OrderlyParts(code, y, nch);
    var outs := Emit(code, y, nch);
    var resumable, k := false, 0;
    while k < |order|
      invariant k <= |order|
      invariant resumable <==> exists j :: 0 <= j < k && code[order[j]].insn == Setjmp
    {
      if code[order[k]].insn == Setjmp { resumable := true; }
      k := k + 1;
    }
    r := Some(TFun(entry, order, labels, chunkOf, outs, resumable));
    Assembled(code, entry, y, nch, outs, r.value);
    assert forall pc :: pc in order <==> pc in Elems(insns);
  }

  lemma LayoutOrderly(code: Code, entry: int, insns: seq<int>, order: seq<int>, starts: set<int>, y: Layout, nch: nat)
    requires forall pc :: pc in code ==> code[pc].len > 0
    requires Explored(code, entry, Elems(insns), starts, {}) && Elems(order) == Elems(insns) && Ascending(order)
    requires y.order == order && exists nl: nat :: Numbered(order, starts, |order|, y.labels, nl, y.chunkOf, nch)
    ensures Orderly(code, y, nch)
    ensures |order| > 0 && entry in y.labels && (y.labels[entry] == 0 <==> entry == order[0])
    ensures forall k :: 0 <= k < |order| ==> order[k] in code && Succs(code, order[k]) <= Elems(order)
    ensures forall pc :: pc in y.labels ==> pc in order && (pc == entry || BlockOf(code, order, pc))
  {
    hide Succs, Blocks, FallsInto, StartedBy, BlockOf, Numbered;
    LabelsAreStarts(order, starts, y, nch);
    LayoutBlocks(code, entry, order, starts, y);
    LayoutEntry(code, entry, order, starts, y);
    assert y.Complete(code);
  }

  /** Every block start was explored, so every one has a label. */
  lemma LabelsAreStarts(order: seq<int>, starts: set<int>, y: Layout, nch: nat)
    requires Ascending(order) && starts <= Elems(order)
    requires exists nl: nat :: Numbered(order, starts, |order|, y.labels, nl, y.chunkOf, nch)
    ensures y.labels.Keys == starts
    ensures forall pc :: pc in y.labels ==> y.labels[pc] in y.chunkOf && y.chunkOf[y.labels[pc]] <= nch
    ensures forall p, q :: p in y.labels && q in y.labels && p < q ==> y.labels[p] < y.labels[q] && y.chunkOf[y.labels[p]] <= y.chunkOf[y.labels[q]]
    ensures |order| > 0 && order[0] in starts ==> order[0] in y.labels && y.labels[order[0]] == 0
  {
    hide Numbered;
    var nl: nat :| Numbered(order, starts, |order|, y.labels, nl, y.chunkOf, nch);
    NumberedStarts(order, starts, y, nl, nch);
    NumberedRises(order, starts, y, nl, nch);
  }

  lemma NumberedStarts(order: seq<int>, starts: set<int>, y: Layout, nl: nat, nch: nat)
    requires starts <= Elems(order) && Numbered(order, starts, |order|, y.labels, nl, y.chunkOf, nch)
    ensures y.labels.Keys == starts
  {
    hide Rising;
    assert forall pc :: pc in y.labels.Keys ==> pc in starts;
    forall pc | pc in starts
      ensures pc in y.labels
    {
      assert pc in Elems(order);
      var k :| 0 <= k < |order| && order[k] == pc;
    }
  }

  lemma NumberedRises(order: seq<int>, starts: set<int>, y: Layout, nl: nat, nch: nat)
    requires Numbered(order, starts, |order|, y.labels, nl, y.chunkOf, nch)
    ensures forall pc :: pc in y.labels ==> y.labels[pc] in y.chunkOf && y.chunkOf[y.labels[pc]] <= nch
    ensures forall p, q :: p in y.labels && q in y.labels && p < q ==> y.labels[p] < y.labels[q] && y.chunkOf[y.labels[p]] <= y.chunkOf[y.labels[q]]
    ensures |order| > 0 && order[0] in starts ==> order[0] in y.labels && y.labels[order[0]] == 0
  {
  }

  /** The least pc starts a block, so label 0 is its label. */
  lemma LayoutEntry(code: Code, entry: int, order: seq<int>, starts: set<int>, y: Layout)
    requires forall pc :: pc in code ==> code[pc].len > 0
    requires Explored(code, entry, Elems(order), starts, {}) && Ascending(order) && y.labels.Keys == starts
    requires forall p, q :: p in y.labels && q in y.labels && p < q ==> y.labels[p] < y.labels[q]
    requires |order| > 0 && order[0] in starts ==> order[0] in y.labels && y.labels[order[0]] == 0
    ensures |order| > 0 && (y.labels[entry] == 0 <==> entry == order[0])
  {
    assert entry in order;
    assert order[0] in Elems(order) + {};
    assert !FallsInto(code, Elems(order), order[0]);
    if entry != order[0] {
      assert order[0] < entry;
    }
  }

  lemma LayoutBlocks(code: Code, entry: int, order: seq<int>, starts: set<int>, y: Layout)
    requires Explored(code, entry, Elems(order), starts, {})
    requires forall pc :: pc in y.labels ==> pc in starts
    ensures forall pc :: pc in y.labels ==> pc == entry || BlockOf(code, order, pc)
  {
    forall pc | pc in y.labels && pc != entry
      ensures BlockOf(code, order, pc)
    {
      var q :| q in Elems(order) && pc in Blocks(code, q);
      var k :| 0 <= k < |order| && order[k] == q;
    }
  }

  lemma Assembled(code: Code, entry: int, y: Layout, nch: nat, outs: seq<seq<TOp>>, f: TFun)
    requires Orderly(code, y, nch) && Findable(code, y, outs, |y.order|)
    requires |y.order| > 0 && entry in y.labels && (y.labels[entry] == 0 <==> entry == y.order[0])
    requires forall k :: 0 <= k < |y.order| ==> y.order[k] in code && Succs(code, y.order[k]) <= Elems(y.order)
    requires forall pc :: pc in y.labels ==> pc in y.order && (pc == entry || BlockOf(code, y.order, pc))
    requires f.entry == entry && f.order == y.order && f.labels == y.labels && f.chunkOf == y.chunkOf && f.chunks == outs
    requires f.resumable <==> exists k :: 0 <= k < |f.order| && code[f.order[k]].insn == Setjmp
    ensures Translated(code, entry, f)
  {
    hide Find, Layout.From, Succs, BlockOf;
    forall k | 0 <= k < |f.order| && f.order[k] in f.labels
      ensures f.labels[f.order[k]] in f.chunkOf && Leads(code, f, k)
    {
      assert BlockFound(code, y, outs, k);
    }
  }

  /** 10: branch to 0.  0: return.  Label 0 is not the entry's. */
  function Backward(): Code {
    map[0 := Decoded(Ret, 1), 10 := Decoded(Branch(0), 1)]
  }

  lemma EntryNotFirst(f: TFun)
    requires Translated(Backward(), 10, f)
    ensures !Fails(Backward(), 10) && 10 in f.labels && f.labels[10] != 0
  {
    hide Leads, BlockOf;
    forall pc | Reached(Backward(), 10, pc)
      ensures pc in Backward()
    {
      var p :| Path(Backward(), 10, p) && p[|p| - 1] == pc;
      ClosedReaches(Backward(), 10, {0, 10}, p, |p| - 1);
    }
    var k :| 0 <= k < |f.order| && f.order[k] == 10;
    assert 0 in Succs(Backward(), f.order[k]);
    var i :| 0 <= i < |f.order| && f.order[i] == 0;
  }
}
