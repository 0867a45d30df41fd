/** What every run of alloc and free, with the owners' writes between the calls, does to the
    memory itself, word by word. */
module HeapRuns {
  import opened Blocks
  import opened Common

  /** The memory v after an operation that finds the memory w realising bs. */
  ghost predicate Writes(w: seq<Bumper>, bs: seq<Block>, op: Op, v: seq<Bumper>)
    requires Legal(bs, op)
  {
    && |v| == |w|
    && match op
       case Alloc(n) => if FirstFit(bs, n) == |bs| then v == w else AllocTags(w, bs, n, v)
       case Free(p) => FreeTags(w, bs, BlockAt(bs, p), v)
       case Write(q, word) => q < |w| && v == w[q := word]
  }

  /** The memories before, between and after the operations of a run. */
  ghost predicate Trace(ws: seq<seq<Bumper>>, bs: seq<Block>, ops: seq<Op>)
    requires LegalRun(bs, ops)
    decreases ops
  {
    && |ws| == |ops| + 1
    && (ops == [] || (Writes(ws[0], bs, ops[0], ws[1]) && Trace(ws[1..], Apply(bs, ops[0]), ops[1..])))
  }

  /** An owner's write touches no tag. */
  lemma {:induction false} WriteRealises(w: seq<Bumper>, bs: seq<Block>, k: nat, q: nat, word: Bumper)
    requires WellFormed(bs) && Realises(w, bs) && Live(bs, k) && InPayload(bs, k, q)
    ensures q < |w| - 2 && Realises(w[q := word], bs)
  {
    EpilogueAt(w, bs);
    PosMonotone(bs, k + 1, |bs| - 1);
    var v := w[q := word];
    assert Patched(v) == Patched(w)[q := word];
    forall j | 0 <= j < |bs| ensures TagsAt(Patched(v), bs, j) {
      assert TagsAt(Patched(w), bs, j);
      PayloadsDisjoint(bs, k, j, q);
    }
  }

  lemma {:induction false} StepRealises(w: seq<Bumper>, bs: seq<Block>, op: Op, v: seq<Bumper>)
    requires WellFormed(bs) && Realises(w, bs) && Legal(bs, op) && Writes(w, bs, op, v)
    ensures WellFormed(Apply(bs, op)) && Realises(v, Apply(bs, op))
  {
    match op {
      case Alloc(n) =>
        AllocWellFormed(bs, n);
        if FirstFit(bs, n) < |bs| { AllocRetiles(w, bs, n, v); }
      case Free(p) =>
        FreeWellFormed(bs, BlockAt(bs, p));
        FreeRetiles(w, bs, BlockAt(bs, p), v);
      case Write(q, word) =>
        var k :| Live(bs, k) && InPayload(bs, k, q);
        WriteRealises(w, bs, k, q, word);
    }
  }

  /** After every run that starts from a tiled region the memory is tiled again by blocks whose
      headers and footers agree, up to the size in the epilogue's header, between used
      sentinels, without two free neighbours. */
  lemma {:induction false} RunTiled(ws: seq<seq<Bumper>>, bs: seq<Block>, ops: seq<Op>)
    requires WellFormed(bs) && LegalRun(bs, ops) && Trace(ws, bs, ops) && Realises(ws[0], bs)
    ensures WellFormed(Run(bs, ops)) && Realises(ws[|ops|], Run(bs, ops))
    decreases ops
  {
    if ops != [] {
      StepRealises(ws[0], bs, ops[0], ws[1]);
      RunTiled(ws[1..], Apply(bs, ops[0]), ops[1..]);
    }
  }

  /** The last word that was written to q, if any was. */
  function Written(ops: seq<Op>, q: nat, word: Bumper): Bumper
    decreases ops
  {
    if ops == [] then word
    else Written(ops[1..], q, if ops[0].Write? && ops[0].q == q then ops[0].word else word)
  }

  /** A block that an operation does not free stays where it is and live; a word of its payload
      changes only if the operation is a write to it. */
  lemma {:induction false} StepKeeps(w: seq<Bumper>, bs: seq<Block>, op: Op, v: seq<Bumper>, j: nat, q: nat)
    returns (c: nat)
    requires WellFormed(bs) && Realises(w, bs) && Legal(bs, op) && Writes(w, bs, op, v)
    requires Live(bs, j) && op != Free(Pos(bs, j)) && InPayload(bs, j, q)
    ensures var cs := Apply(bs, op);
            Live(cs, c) && cs[c] == bs[j] && Pos(cs, c) == Pos(bs, j) && InPayload(cs, c, q)
    ensures q < |w| == |v| && v[q] == if op.Write? && op.q == q then op.word else w[q]
  {
    PosMonotone(bs, j + 1, |bs|);
    match op {
      case Alloc(n) => c := AllocKeeps(w, bs, n, v, j, q);
      case Free(p) => c := FreeKeeps(w, bs, p, v, j, q);
      case Write(_, _) => c := j;
    }
  }

  lemma {:induction false} StillInPayload(bs: seq<Block>, j: nat, cs: seq<Block>, c: nat, q: nat)
    requires j < |bs| && c < |cs| && cs[c] == bs[j] && Pos(cs, c) == Pos(bs, j) && InPayload(bs, j, q)
    ensures InPayload(cs, c, q)
  {
  }

  lemma {:induction false} AllocKeeps(w: seq<Bumper>, bs: seq<Block>, n: nat, v: seq<Bumper>, j: nat, q: nat)
    returns (c: nat)
    requires WellFormed(bs) && Realises(w, bs) && Legal(bs, Alloc(n)) && Writes(w, bs, Alloc(n), v)
    requires Live(bs, j) && InPayload(bs, j, q)
    ensures var cs := AllocBlocks(bs, n);
            Live(cs, c) && cs[c] == bs[j] && Pos(cs, c) == Pos(bs, j) && InPayload(cs, c, q)
    ensures q < |w| == |v| && v[q] == w[q]
  {
    if FirstFit(bs, n) == |bs| {
      c := j;
      PosMonotone(bs, j + 1, |bs|);
    } else {
      c := AfterAlloc(bs, n, j);
      AllocKeepsBlocks(bs, n, j);
      AllocKeepsPayloads(w, bs, n, v, j, q);
      StillInPayload(bs, j, AllocBlocks(bs, n), c, q);
    }
  }

  lemma {:induction false} FreeKeeps(w: seq<Bumper>, bs: seq<Block>, p: nat, v: seq<Bumper>, j: nat, q: nat)
    returns (c: nat)
    requires WellFormed(bs) && Realises(w, bs) && Legal(bs, Free(p)) && Writes(w, bs, Free(p), v)
    requires Live(bs, j) && p != Pos(bs, j) && InPayload(bs, j, q)
    ensures var cs := FreeBlocks(bs, BlockAt(bs, p));
            Live(cs, c) && cs[c] == bs[j] && Pos(cs, c) == Pos(bs, j) && InPayload(cs, c, q)
    ensures q < |w| == |v| && v[q] == w[q]
  {
    var k := BlockAt(bs, p);
    c := if j < k then j else j - (High(bs, k) - Low(bs, k) - 1);
    FreeKeepsPayloads(w, bs, k, v, j, q);
    StillInPayload(bs, j, FreeBlocks(bs, k), c, q);
  }

  /** Over every run, a block that is not freed keeps its place, and every word of its payload
      is what was last written to it, whatever is allocated and freed around it. */
  lemma {:induction false} PayloadSurvives(ws: seq<seq<Bumper>>, bs: seq<Block>, ops: seq<Op>, j: nat, q: nat)
    returns (c: nat)
    requires WellFormed(bs) && LegalRun(bs, ops) && Trace(ws, bs, ops) && Realises(ws[0], bs)
    requires Live(bs, j) && InPayload(bs, j, q) && Free(Pos(bs, j)) !in ops
    ensures var cs := Run(bs, ops); Live(cs, c) && cs[c] == bs[j] && Pos(cs, c) == Pos(bs, j)
    ensures q < |ws[0]| == |ws[|ops|]| && ws[|ops|][q] == Written(ops, q, ws[0][q])
    decreases ops
  {
    if ops == [] {
      c := j;
      PosMonotone(bs, j + 1, |bs|);
    } else {
      c := StepKeeps(ws[0], bs, ops[0], ws[1], j, q);
      StepRealises(ws[0], bs, ops[0], ws[1]);
      ghost var rest := ws[1..];
      assert rest[0] == ws[1] && rest[|ops| - 1] == ws[|ops|];
      WrittenFirst(ops, q, ws[0][q]);
      c := PayloadSurvives(rest, Apply(bs, ops[0]), ops[1..], c, q);
    }
  }

  lemma {:induction false} WrittenFirst(ops: seq<Op>, q: nat, word: Bumper)
    requires ops != []
    ensures Written(ops, q, word) == Written(ops[1..], q, if ops[0].Write? && ops[0].q == q then ops[0].word else word)
  {
  }
}
