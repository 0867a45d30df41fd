/**
 Memory determines its block list: headers walked from the start and footers walked from the
 end leave no choice. Hence what an allocation may do to the heap for good.
 */
module Tiling {
  import opened Blocks
  import opened Common

  lemma {:induction false} PosStrict(bs: seq<Block>, j: nat, k: nat)
    requires j < k <= |bs| && bs[j].words > 0
    ensures Pos(bs, j) < Pos(bs, k)
  {
    PosMonotone(bs, j + 1, k);
  }

  lemma {:induction false} TagsHere(v: seq<Bumper>, bs: seq<Block>, j: nat)
    requires Tiled(v, bs) && j < |bs|
    ensures Pos(bs, j) < Pos(bs, j + 1) <= |v|
    ensures v[Pos(bs, j)] == v[Pos(bs, j + 1) - 1] == Tag(bs[j])
  {
    assert TagsAt(v, bs, j);
  }

  ghost predicate HeaderAt(v: seq<Bumper>, bs: seq<Block>, j: nat)
    requires j < |bs|
  {
    Pos(bs, j) < |v| && v[Pos(bs, j)] == Tag(bs[j])
  }

  ghost predicate FooterAt(v: seq<Bumper>, bs: seq<Block>, j: nat)
    requires j < |bs|
  {
    0 < Pos(bs, j + 1) <= |v| && v[Pos(bs, j + 1) - 1] == Tag(bs[j])
  }

  /** Walking headers: whatever tiles the memory begins with the blocks whose headers are there. */
  lemma {:induction false} HeadersDecide(v: seq<Bumper>, bs: seq<Block>, cs: seq<Block>, k: nat)
    requires Tiled(v, cs) && k <= |bs| && forall j :: 0 <= j < k ==> HeaderAt(v, bs, j)
    ensures k <= |cs| && Pos(cs, k) == Pos(bs, k)
    ensures forall j :: 0 <= j < k ==> cs[j] == bs[j]
  {
    if k > 0 {
      HeadersDecide(v, bs, cs, k - 1);
      assert HeaderAt(v, bs, k - 1);
      assert k - 1 < |cs|;
      assert TagsAt(v, cs, k - 1);
    }
  }

  /** Walking footers: whatever tiles the memory ends with the blocks whose footers are there. */
  lemma {:induction false} FootersDecide(v: seq<Bumper>, bs: seq<Block>, cs: seq<Block>, d: nat)
    requires Tiled(v, cs) && Total(bs) == |v| && d <= |bs|
    requires forall j :: |bs| - d <= j < |bs| ==> FooterAt(v, bs, j)
    ensures d <= |cs| && Pos(cs, |cs| - d) == Pos(bs, |bs| - d)
    ensures d > 0 ==> cs[|cs| - d] == bs[|bs| - d]
  {
    if d > 0 {
      FootersDecide(v, bs, cs, d - 1);
      assert FooterAt(v, bs, |bs| - d);
      assert d <= |cs|;
      assert TagsAt(v, cs, |cs| - d);
    }
  }

  /** At most one list of blocks tiles a memory. */
  lemma {:induction false} TilingUnique(w: seq<Bumper>, a: seq<Block>, b: seq<Block>)
    requires Tiled(w, a) && Tiled(w, b)
    ensures a == b
  {
    forall j | 0 <= j < |a| ensures HeaderAt(w, a, j) {
      assert TagsAt(w, a, j);
      PosStrict(a, j, |a|);
    }
    HeadersDecide(w, a, b, |a|);
    if |a| < |b| {
      TagsHere(w, b, |a|);
      assert false;
    }
  }

  // ----- what an allocation leaves

  /** The headers up to the new block, after an allocation of one word or more. */
  lemma {:induction false} FrontHeaders(w: seq<Bumper>, bs: seq<Block>, n: nat, v: seq<Bumper>, j: nat)
    requires Tiled(w, bs) && |v| == |w| && FirstFit(bs, n) < |bs| && n > 0 && AllocTags(w, bs, n, v)
    requires j <= FirstFit(bs, n)
    ensures j < |AllocBlocks(bs, n)| && HeaderAt(v, AllocBlocks(bs, n), j)
  {
    var i, cs := FirstFit(bs, n), AllocBlocks(bs, n);
    PosPrefix(bs, cs, j);
    assert TagsAt(w, bs, j);
    if j < i { PosStrict(bs, j, i); }
  }

  lemma {:induction false} FrontDecides(w: seq<Bumper>, bs: seq<Block>, n: nat, v: seq<Bumper>, cs: seq<Block>)
    requires Tiled(w, bs) && |v| == |w| && FirstFit(bs, n) < |bs| && n > 0 && AllocTags(w, bs, n, v)
    requires Tiled(v, cs)
    ensures var i := FirstFit(bs, n);
            i < |cs| && cs[i] == Block(n, true) && Pos(cs, i + 1) == Pos(bs, i) + n
  {
    var i, as1 := FirstFit(bs, n), AllocBlocks(bs, n);
    forall j | 0 <= j < i + 1 ensures j < |as1| && HeaderAt(v, as1, j) {
      FrontHeaders(w, bs, n, v, j);
    }
    HeadersDecide(v, as1, cs, i + 1);
    PosPrefix(bs, as1, i);
    assert as1[i] == Block(n, true);
  }

  /** A block of one word has no room for two tags. */
  lemma {:induction false} OneWordIsLost(w: seq<Bumper>, bs: seq<Block>, v: seq<Bumper>, cs: seq<Block>)
    requires Tiled(w, bs) && |v| == |w| && FirstFit(bs, 1) < |bs| && AllocTags(w, bs, 1, v)
    ensures !(WellFormed(cs) && Tiled(v, cs))
  {
    if Tiled(v, cs) {
      FrontDecides(w, bs, 1, v, cs);
    }
  }

  /** The footers behind the new block, after an exact fit. */
  lemma {:induction false} BackFooters(w: seq<Bumper>, bs: seq<Block>, n: nat, v: seq<Bumper>, j: nat)
    requires Tiled(w, bs) && WellFormed(bs) && |v| == |w| && FirstFit(bs, n) < |bs| && n > 0 && AllocTags(w, bs, n, v)
    requires FirstFit(bs, n) < j < |bs| && bs[FirstFit(bs, n) + 1].used
    ensures FooterAt(v, bs, j)
  {
    var i := FirstFit(bs, n);
    assert TagsAt(w, bs, j);
    PosMonotone(bs, i + 2, j + 1);
    assert Pos(bs, i + 2) == Pos(bs, i + 1) + bs[i + 1].words;
    assert Pos(bs, j + 1) - 1 > Pos(bs, i + 1);
  }

  lemma {:induction false} BackDecides(w: seq<Bumper>, bs: seq<Block>, n: nat, v: seq<Bumper>, cs: seq<Block>)
    returns (c: nat)
    requires Tiled(w, bs) && WellFormed(bs) && |v| == |w| && FirstFit(bs, n) < |bs| && n > 0 && AllocTags(w, bs, n, v)
    requires Tiled(v, cs)
    ensures var i := FirstFit(bs, n);
            i + 1 < |bs| && c < |cs| && cs[c] == bs[i + 1] && Pos(cs, c) == Pos(bs, i + 1)
  {
    var i := FirstFit(bs, n);
    assert i + 1 < |bs| && bs[i + 1].used;
    var d := |bs| - (i + 1);
    forall j | |bs| - d <= j < |bs| ensures FooterAt(v, bs, j) {
      BackFooters(w, bs, n, v, j);
    }
    FootersDecide(v, bs, cs, d);
    c := |cs| - d;
  }

  /** An exact fit before a block of another size: the header behind the new block says the new
      block's size, all footers behind it say what they said, and no list of blocks does both. */
  lemma {:induction false} ExactFitLosesTheHeap(w: seq<Bumper>, bs: seq<Block>, n: nat, v: seq<Bumper>, cs: seq<Block>)
    requires Tiled(w, bs) && WellFormed(bs) && |v| == |w| && FirstFit(bs, n) < |bs| && AllocTags(w, bs, n, v)
    requires var i := FirstFit(bs, n); n > 0 && bs[i].words == n && (i + 1 < |bs| ==> bs[i + 1].words != n)
    ensures !Tiled(v, cs)
  {
    if Tiled(v, cs) {
      var i := FirstFit(bs, n);
      FrontDecides(w, bs, n, v, cs);
      var c := BackDecides(w, bs, n, v, cs);
      assert Pos(cs, i + 1) == Pos(cs, c) == Pos(bs, i + 1);
      SamePlace(v, cs, i + 1, c);
      TagsHere(v, cs, c);
      assert false;
    }
  }

  lemma {:induction false} SamePlace(v: seq<Bumper>, cs: seq<Block>, j: nat, k: nat)
    requires Tiled(v, cs) && j <= |cs| && k < |cs| && Pos(cs, j) == Pos(cs, k)
    ensures j == k
  {
    assert TagsAt(v, cs, k);
    if j < k {
      assert TagsAt(v, cs, j);
      PosStrict(cs, j, k);
    } else if k < j {
      PosStrict(cs, k, j);
    }
  }

  /** A request whose adjusted size wrapped to zero overwrites the footer of the block before
      the chosen one with a size of zero. */
  lemma {:induction false} ZeroIsLost(w: seq<Bumper>, bs: seq<Block>, v: seq<Bumper>, cs: seq<Block>)
    requires Tiled(w, bs) && WellFormed(bs) && |v| == |w| && FirstFit(bs, 0) < |bs| && AllocTags(w, bs, 0, v)
    ensures !Tiled(v, cs)
  {
    var i := FirstFit(bs, 0);
    assert i > 0 && bs[i - 1].used;
    assert Pos(bs, i) == Pos(bs, i - 1) + bs[i - 1].words;
    forall j | 0 <= j < i ensures HeaderAt(v, bs, j) {
      assert TagsAt(w, bs, j);
      PosMonotone(bs, j, i - 1);
    }
    if Tiled(v, cs) {
      HeadersDecide(v, bs, cs, i);
      TagsHere(v, cs, i - 1);
      assert false;
    }
  }

  // ----- up to the epilogue's header

  /** An allocation that does not overwrite the epilogue's header, seen past what that says. */
  lemma {:induction false} PatchedTags(w: seq<Bumper>, bs: seq<Block>, n: nat, v: seq<Bumper>)
    requires WellFormed(bs) && Realises(w, bs) && |v| == |w| && FirstFit(bs, n) < |bs| && AllocTags(w, bs, n, v)
    requires var i := FirstFit(bs, n); n == bs[i].words ==> i + 2 < |bs|
    ensures AllocTags(Patched(w), bs, n, Patched(v))
  {
    var i := FirstFit(bs, n);
    EpilogueAt(w, bs);
    PosMonotone(bs, i + 1, |bs| - 1);
    if i + 2 < |bs| { PosStrict(bs, i + 1, |bs| - 1); }
  }

  /** A block of one word before the epilogue: a walk would still end, but what is handed out
      is the epilogue's header. */
  lemma {:induction false} LastWordIsLost(w: seq<Bumper>, bs: seq<Block>, v: seq<Bumper>)
    requires WellFormed(bs) && Realises(w, bs) && |v| == |w| && FirstFit(bs, 1) < |bs| && AllocTags(w, bs, 1, v)
    requires var i := FirstFit(bs, 1); bs[i].words == 1 && i + 2 == |bs|
    ensures !EpilogueOk(v)
  {
    EpilogueAt(w, bs);
  }

  lemma {:induction false} NothingRealised(w: seq<Bumper>, bs: seq<Block>, n: nat, v: seq<Bumper>, cs: seq<Block>)
    requires WellFormed(bs) && Realises(w, bs) && |v| == |w| && FirstFit(bs, n) < |bs| && AllocTags(w, bs, n, v)
    requires !KeepsHeap(bs, n)
    ensures !(WellFormed(cs) && Realises(v, cs))
  {
    var i := FirstFit(bs, n);
    if n == 1 && bs[i].words == 1 && i + 2 == |bs| {
      LastWordIsLost(w, bs, v);
    } else {
      PatchedTags(w, bs, n, v);
      if n == 0 {
        ZeroIsLost(Patched(w), bs, Patched(v), cs);
      } else if n == 1 {
        OneWordIsLost(Patched(w), bs, Patched(v), cs);
      } else {
        ExactFitLosesTheHeap(Patched(w), bs, n, Patched(v), cs);
      }
    }
  }

  /** After an allocation that found a block, some well-formed list of blocks describes the
      memory, up to the size in the epilogue's header, if and only if the heap could be kept. */
  lemma {:induction false} HeapSurvivesIff(w: seq<Bumper>, bs: seq<Block>, n: nat, v: seq<Bumper>)
    requires WellFormed(bs) && Realises(w, bs) && |v| == |w| && FirstFit(bs, n) < |bs| && AllocTags(w, bs, n, v)
    ensures (exists cs :: WellFormed(cs) && Realises(v, cs)) <==> KeepsHeap(bs, n)
  {
    if KeepsHeap(bs, n) {
      AllocWellFormed(bs, n);
      AllocRetiles(w, bs, n, v);
      assert WellFormed(AllocBlocks(bs, n)) && Realises(v, AllocBlocks(bs, n));
    } else {
      forall cs: seq<Block> ensures !(WellFormed(cs) && Realises(v, cs)) {
        NothingRealised(w, bs, n, v, cs);
      }
    }
  }

  /** The block behind a harmful exact fit can no longer be freed with its own size, which
      differs from the one that its header now records. */
  lemma {:induction false} NextBlockIsStuck(w: seq<Bumper>, bs: seq<Block>, n: nat, v: seq<Bumper>)
    requires WellFormed(bs) && Realises(w, bs) && |v| == |w| && FirstFit(bs, n) < |bs| && AllocTags(w, bs, n, v)
    requires n >= 2 && !KeepsHeap(bs, n)
    ensures var k := FirstFit(bs, n) + 1;
            Live(bs, k) && Pos(bs, k) < |v| && v[Pos(bs, k)].size != WORD * bs[k].words
  {
  }
}
