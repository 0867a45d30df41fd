/**
 Which blocks are live: an allocation adds the block it hands out, a free takes away the
 block it is given, and nothing else makes a block live or dead. Hence a heap of which
 everything was freed is the heap that init_rep built.
 */
module HeapLive {
  import opened Blocks

  /** A live block of m words starts at word p. */
  ghost predicate LiveAt(bs: seq<Block>, p: nat, m: nat) {
    exists k: nat :: Live(bs, k) && Pos(bs, k) == p && bs[k].words == m
  }

  lemma {:induction false} LiveHere(bs: seq<Block>, k: nat)
    requires Live(bs, k)
    ensures LiveAt(bs, Pos(bs, k), bs[k].words)
  {
  }

  // ----- an allocation

  /** What takes the place of the chosen block. */
  function Served(bs: seq<Block>, n: nat): seq<Block>
    requires FirstFit(bs, n) < |bs|
  {
    var words := bs[FirstFit(bs, n)].words;
    if words == n then [Block(n, true)] else [Block(n, true), Block(words - n, false)]
  }

  lemma {:induction false} ServedTotal(bs: seq<Block>, n: nat)
    requires FirstFit(bs, n) < |bs|
    ensures Total(Served(bs, n)) == bs[FirstFit(bs, n)].words
    ensures AllocBlocks(bs, n) == Replace(bs, FirstFit(bs, n), FirstFit(bs, n) + 1, Served(bs, n))
  {
    assert Pos(Served(bs, n), 1) == n;
  }

  /** A live block after the allocation is the new one or was live before. */
  lemma {:induction false} LiveAfterAlloc(bs: seq<Block>, n: nat, c: nat)
    requires WellFormed(bs) && FirstFit(bs, n) < |bs| && Live(AllocBlocks(bs, n), c)
    ensures var cs, i := AllocBlocks(bs, n), FirstFit(bs, n);
            (Pos(cs, c) == Pos(bs, i) && cs[c].words == n) || LiveAt(bs, Pos(cs, c), cs[c].words)
  {
    var cs, i, mid := AllocBlocks(bs, n), FirstFit(bs, n), Served(bs, n);
    ServedTotal(bs, n);
    PosReplaced(bs, i, i + 1, mid, c);
    if c < i {
      LiveHere(bs, c);
    } else if c >= i + |mid| {
      assert cs[c] == bs[c - |mid| + 1];
      LiveHere(bs, c - |mid| + 1);
    }
  }

  lemma {:induction false} LiveBeforeAlloc(bs: seq<Block>, n: nat, k: nat)
    requires WellFormed(bs) && FirstFit(bs, n) < |bs| && Live(bs, k)
    ensures LiveAt(AllocBlocks(bs, n), Pos(bs, k), bs[k].words)
  {
    AllocKeepsBlocks(bs, n, k);
    LiveHere(AllocBlocks(bs, n), AfterAlloc(bs, n, k));
  }

  lemma {:induction false} NewIsLive(bs: seq<Block>, n: nat)
    requires WellFormed(bs) && FirstFit(bs, n) < |bs|
    ensures LiveAt(AllocBlocks(bs, n), Pos(bs, FirstFit(bs, n)), n)
  {
    var cs, i := AllocBlocks(bs, n), FirstFit(bs, n);
    Chosen(bs, n);
    PosPrefix(bs, cs, i);
    LiveHere(cs, i);
  }

  /** The live blocks after an allocation: those from before, and the one handed out, which
      is where the chosen block was. */
  lemma {:induction false} AllocLive(bs: seq<Block>, n: nat, p: nat, m: nat)
    requires WellFormed(bs) && FirstFit(bs, n) < |bs|
    ensures LiveAt(AllocBlocks(bs, n), p, m) <==>
            LiveAt(bs, p, m) || (p == Pos(bs, FirstFit(bs, n)) && m == n)
  {
    var cs := AllocBlocks(bs, n);
    if LiveAt(cs, p, m) {
      var c: nat :| Live(cs, c) && Pos(cs, c) == p && cs[c].words == m;
      LiveAfterAlloc(bs, n, c);
    }
    if LiveAt(bs, p, m) {
      var k: nat :| Live(bs, k) && Pos(bs, k) == p && bs[k].words == m;
      LiveBeforeAlloc(bs, n, k);
    }
    NewIsLive(bs, n);
  }

  // ----- a free

  lemma {:induction false} FreeReplaced(bs: seq<Block>, k: nat, c: nat)
    requires 0 < k < |bs| - 1 && c < |FreeBlocks(bs, k)|
    ensures var fs, lo, hi := FreeBlocks(bs, k), Low(bs, k), High(bs, k);
            && (c < lo ==> fs[c] == bs[c] && Pos(fs, c) == Pos(bs, c))
            && (c == lo ==> fs[c] == Merged(bs, k) && Pos(fs, c) == Pos(bs, lo) && Pos(fs, c + 1) == Pos(bs, hi))
            && (c > lo ==> fs[c] == bs[c + hi - lo - 1] && Pos(fs, c) == Pos(bs, c + hi - lo - 1))
  {
    var lo, hi, mid := Low(bs, k), High(bs, k), [Merged(bs, k)];
    assert Pos(mid, 1) == mid[0].words;
    PosReplaced(bs, lo, hi, mid, c);
  }

  /** The place of a block that lies to one side of block k. */
  lemma {:induction false} Elsewhere(bs: seq<Block>, j: nat, k: nat)
    requires WellFormed(bs) && j < |bs| && k < |bs|
    ensures j != k ==> Pos(bs, j) != Pos(bs, k)
  {
    if j < k { PosMonotone(bs, j + 1, k); }
    if k < j { PosMonotone(bs, k + 1, j); }
  }

  /** The freed block is part of a block that is not in use. */
  lemma {:induction false} FreedIsFree(bs: seq<Block>, k: nat)
    requires WellFormed(bs) && Live(bs, k)
    ensures var fs, lo := FreeBlocks(bs, k), Low(bs, k);
            && lo < |fs| && !fs[lo].used
            && Pos(fs, lo) <= Pos(bs, k) && Pos(bs, k + 1) <= Pos(fs, lo + 1)
  {
    FreeReplaced(bs, k, Low(bs, k));
    PosMonotone(bs, Low(bs, k), k);
    PosMonotone(bs, k + 1, High(bs, k));
  }

  lemma {:induction false} LiveAfterFree(bs: seq<Block>, k: nat, c: nat)
    requires WellFormed(bs) && Live(bs, k) && Live(FreeBlocks(bs, k), c)
    ensures var fs := FreeBlocks(bs, k);
            LiveAt(bs, Pos(fs, c), fs[c].words) && Pos(fs, c) != Pos(bs, k)
  {
    var lo, hi := Low(bs, k), High(bs, k);
    FreeReplaced(bs, k, c);
    FreedIsFree(bs, k);
    var j := if c < lo then c else c + hi - lo - 1;
    assert c != lo;
    LiveHere(bs, j);
    Elsewhere(bs, j, k);
  }

  lemma {:induction false} LiveBeforeFree(bs: seq<Block>, k: nat, j: nat)
    requires WellFormed(bs) && Live(bs, k) && Live(bs, j) && j != k
    ensures LiveAt(FreeBlocks(bs, k), Pos(bs, j), bs[j].words)
  {
    var fs, lo, hi := FreeBlocks(bs, k), Low(bs, k), High(bs, k);
    var c := if j < lo then j else j - (hi - lo - 1);
    assert j < lo || j >= hi;
    FreeReplaced(bs, k, c);
    LiveHere(fs, c);
  }

  /** The live blocks after a free: those from before but the one that was freed. */
  lemma {:induction false} FreeLive(bs: seq<Block>, k: nat, p: nat, m: nat)
    requires WellFormed(bs) && Live(bs, k)
    ensures LiveAt(FreeBlocks(bs, k), p, m) <==> LiveAt(bs, p, m) && p != Pos(bs, k)
  {
    var fs := FreeBlocks(bs, k);
    if LiveAt(fs, p, m) {
      var c: nat :| Live(fs, c) && Pos(fs, c) == p && fs[c].words == m;
      LiveAfterFree(bs, k, c);
    }
    if LiveAt(bs, p, m) && p != Pos(bs, k) {
      var j: nat :| Live(bs, j) && Pos(bs, j) == p && bs[j].words == m;
      LiveBeforeFree(bs, k, j);
    }
  }

  // ----- whole runs

  /** What the operations say is live: what an allocation handed out and no free took back. */
  ghost function Outstanding(bs: seq<Block>, ops: seq<Op>, live: set<(nat, nat)>): set<(nat, nat)>
    requires LegalRun(bs, ops)
    decreases ops
  {
    if ops == [] then live
    else
      var next :=
        match ops[0]
        case Alloc(n) => if FirstFit(bs, n) < |bs| then live + {(Pos(bs, FirstFit(bs, n)), n)} else live
        case Free(p) => set x | x in live && x.0 != p
        case Write(_, _) => live;
      Outstanding(Apply(bs, ops[0]), ops[1..], next)
  }

  ghost predicate Matches(bs: seq<Block>, live: set<(nat, nat)>) {
    forall p: nat, m: nat :: LiveAt(bs, p, m) <==> (p, m) in live
  }

  lemma {:induction false} AllocMatches(bs: seq<Block>, n: nat, live: set<(nat, nat)>)
    requires WellFormed(bs) && Matches(bs, live) && FirstFit(bs, n) < |bs|
    ensures Matches(AllocBlocks(bs, n), live + {(Pos(bs, FirstFit(bs, n)), n)})
  {
    forall p: nat, m: nat
      ensures LiveAt(AllocBlocks(bs, n), p, m) <==> (p, m) in live + {(Pos(bs, FirstFit(bs, n)), n)}
    {
      AllocLive(bs, n, p, m);
    }
  }

  lemma {:induction false} FreeMatches(bs: seq<Block>, k: nat, live: set<(nat, nat)>)
    requires WellFormed(bs) && Matches(bs, live) && Live(bs, k)
    ensures Matches(FreeBlocks(bs, k), set x | x in live && x.0 != Pos(bs, k))
  {
    forall p: nat, m: nat
      ensures LiveAt(FreeBlocks(bs, k), p, m) <==> (p, m) in (set x | x in live && x.0 != Pos(bs, k))
    {
      FreeLive(bs, k, p, m);
    }
  }

  /** Over every run, the live blocks are those that were handed out and not taken back, each
      where it was handed out and of the size that was asked for. */
  lemma {:induction false} RunLive(bs: seq<Block>, ops: seq<Op>, live: set<(nat, nat)>)
    requires WellFormed(bs) && LegalRun(bs, ops) && Matches(bs, live)
    ensures Matches(Run(bs, ops), Outstanding(bs, ops, live))
    decreases ops
  {
    if ops != [] {
      match ops[0] {
        case Alloc(n) =>
          AllocWellFormed(bs, n);
          if FirstFit(bs, n) < |bs| {
            AllocMatches(bs, n, live);
            RunLive(Apply(bs, ops[0]), ops[1..], live + {(Pos(bs, FirstFit(bs, n)), n)});
          } else {
            RunLive(Apply(bs, ops[0]), ops[1..], live);
          }
        case Free(p) =>
          FreeWellFormed(bs, BlockAt(bs, p));
          FreeMatches(bs, BlockAt(bs, p), live);
          RunLive(Apply(bs, ops[0]), ops[1..], set x | x in live && x.0 != p);
        case Write(_, _) =>
          RunLive(Apply(bs, ops[0]), ops[1..], live);
      }
    }
  }

  /** Every block that an allocation of the run hands out is freed later in the run. */
  ghost predicate AllFreed(bs: seq<Block>, ops: seq<Op>)
    requires LegalRun(bs, ops)
    decreases ops
  {
    ops != [] ==>
      && (ops[0].Alloc? && FirstFit(bs, ops[0].n) < |bs| ==> Free(Pos(bs, FirstFit(bs, ops[0].n))) in ops[1..])
      && AllFreed(Apply(bs, ops[0]), ops[1..])
  }

  lemma {:induction false} NothingOutstanding(bs: seq<Block>, ops: seq<Op>, live: set<(nat, nat)>)
    requires LegalRun(bs, ops) && AllFreed(bs, ops)
    requires forall x :: x in live ==> Free(x.0) in ops
    ensures Outstanding(bs, ops, live) == {}
    decreases ops
  {
    if ops != [] {
      assert ops == [ops[0]] + ops[1..];
      var next :=
        match ops[0]
        case Alloc(n) => if FirstFit(bs, n) < |bs| then live + {(Pos(bs, FirstFit(bs, n)), n)} else live
        case Free(p) => set x | x in live && x.0 != p
        case Write(_, _) => live;
      assert forall x :: x in next ==> Free(x.0) in ops[1..];
      NothingOutstanding(Apply(bs, ops[0]), ops[1..], next);
    }
  }

  /** With no live block, what is between the sentinels is one free block. */
  lemma {:induction false} NoLiveIsInitial(bs: seq<Block>, words: nat)
    requires words >= 5
    requires WellFormed(bs) && Total(bs) == words
    requires forall k :: 0 < k < |bs| - 1 ==> !bs[k].used
    ensures bs == Initial(words)
  {
    assert Pos(bs, 2) == Pos(bs, 1) + bs[1].words == 2 + bs[1].words;
    assert bs[1].used || bs[2].used;
  }

  /** Whatever is allocated and in whatever order it is freed, when every block that was handed
      out has been freed the heap is the single maximal free block again that init_rep built. */
  lemma {:induction false} AllFreedIsInitial(words: nat, ops: seq<Op>)
    requires words >= 5 && LegalRun(Initial(words), ops) && AllFreed(Initial(words), ops)
    ensures Run(Initial(words), ops) == Initial(words)
  {
    var bs := Run(Initial(words), ops);
    RunKeeps(Initial(words), ops);
    RunLive(Initial(words), ops, {});
    NothingOutstanding(Initial(words), ops, {});
    forall k: nat | 0 < k < |bs| - 1 ensures !bs[k].used {
      if bs[k].used { LiveHere(bs, k); }
    }
    NoLiveIsInitial(bs, words);
  }
}
