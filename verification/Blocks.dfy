/**
 The block list behind the boundary-tag allocator of l0/MemMgrPrimSimple.c: which tags
 lie where in memory, what first-fit allocation and coalescing free do to the list, and
 what every run of the two keeps.
 Lengths and positions here are in words; the tags themselves record bytes, as the
 source does.
 */
module Blocks {
  import opened Common

  /** One memory word, read as a tag: a 63-bit size in bytes and the used bit. */
  datatype Bumper = Bumper(size: nat, used: bool)

  /** A block of the tiling: its length with both tags, in words. */
  datatype Block = Block(words: nat, used: bool)

  /** The tag that the header and the footer of a block must both hold. */
  function Tag(b: Block): Bumper {
    Bumper(b.words * WORD, b.used)
  }

  /** The word offset at which block k starts. */
  function Pos(bs: seq<Block>, k: nat): nat
    requires k <= |bs|
  {
    if k == 0 then 0 else Pos(bs, k - 1) + bs[k - 1].words
  }

  function Total(bs: seq<Block>): nat {
    Pos(bs, |bs|)
  }

  /** Block k lies inside the memory and both its tags say what it is. */
  ghost predicate TagsAt(ws: seq<Bumper>, bs: seq<Block>, k: nat)
    requires k < |bs|
  {
    && 0 < bs[k].words && Pos(bs, k + 1) <= |ws|
    && ws[Pos(bs, k)] == Tag(bs[k])
    && ws[Pos(bs, k + 1) - 1] == Tag(bs[k])
  }

  /** The memory is covered, without gap or overlap, by blocks whose header and footer agree. */
  ghost predicate Tiled(ws: seq<Bumper>, bs: seq<Block>) {
    && Total(bs) == |ws|
    && forall k :: 0 <= k < |bs| ==> TagsAt(ws, bs, k)
  }

  // ----- positions in lists that share a stretch

  lemma {:induction false} PosMonotone(bs: seq<Block>, j: nat, k: nat)
    requires j <= k <= |bs|
    ensures Pos(bs, j) <= Pos(bs, k)
  {
    if j < k {
      PosMonotone(bs, j, k - 1);
    }
  }

  /** Lists that agree below k have the same positions up to k. */
  lemma {:induction false} PosPrefix(a: seq<Block>, b: seq<Block>, k: nat)
    requires k <= |a| && k <= |b|
    requires forall j :: 0 <= j < k ==> a[j] == b[j]
    ensures Pos(a, k) == Pos(b, k)
  {
    if k > 0 {
      PosPrefix(a, b, k - 1);
    }
  }

  /** The list with the blocks lo..hi replaced by others. */
  function Replace(bs: seq<Block>, lo: nat, hi: nat, mid: seq<Block>): seq<Block>
    requires lo <= hi <= |bs|
  {
    bs[..lo] + mid + bs[hi..]
  }

  /** Positions in the list with lo..hi replaced by a stretch of the same length: blocks
      before it and behind it keep their place. */
  lemma {:induction false} PosReplaced(bs: seq<Block>, lo: nat, hi: nat, mid: seq<Block>, k: nat)
    requires lo <= hi <= |bs| && Pos(bs, lo) + Total(mid) == Pos(bs, hi)
    requires k <= lo + |mid| + |bs| - hi
    ensures Pos(Replace(bs, lo, hi, mid), k) ==
            if k <= lo then Pos(bs, k)
            else if k <= lo + |mid| then Pos(bs, lo) + Pos(mid, k - lo)
            else Pos(bs, k - |mid| - lo + hi)
  {
    if k > 0 {
      PosReplaced(bs, lo, hi, mid, k - 1);
    }
  }

  // ----- tilings

  /** Tags that are still found, d words further on, for a block that moved by d words. */
  lemma {:induction false} TagsMoved(w: seq<Bumper>, bs: seq<Block>, j: nat, v: seq<Bumper>, cs: seq<Block>, k: nat,
                                     d: nat)
    requires j < |bs| && TagsAt(w, bs, j) && k < |cs| && cs[k] == bs[j]
    requires Pos(cs, k) == Pos(bs, j) + d && Pos(bs, j + 1) + d <= |v|
    requires v[Pos(bs, j) + d] == w[Pos(bs, j)] && v[Pos(bs, j + 1) - 1 + d] == w[Pos(bs, j + 1) - 1]
    ensures TagsAt(v, cs, k)
  {
    assert Pos(cs, k + 1) == Pos(cs, k) + cs[k].words;
  }

  /** A block outside the stretch lo..hi, with index j before and k after the replacement. */
  lemma {:induction false} TagsOutside(
    w: seq<Bumper>, bs: seq<Block>, lo: nat, hi: nat, v: seq<Bumper>, cs: seq<Block>, j: nat, k: nat)
    requires lo <= hi <= |bs| && |v| == |w| && Tiled(w, bs)
    requires forall q :: 0 <= q < |w| && (q < Pos(bs, lo) || q >= Pos(bs, hi)) ==> v[q] == w[q]
    requires (j < lo || hi <= j) && j < |bs| && k < |cs| && cs[k] == bs[j] && Pos(cs, k) == Pos(bs, j)
    ensures TagsAt(v, cs, k)
  {
    assert TagsAt(w, bs, j);
    if j < lo {
      PosMonotone(bs, j + 1, lo);
    } else {
      PosMonotone(bs, hi, j);
    }
    TagsMoved(w, bs, j, v, cs, k, 0);
  }

  lemma {:induction false} TagsReplaced(
    w: seq<Bumper>, bs: seq<Block>, lo: nat, hi: nat, v: seq<Bumper>, mid: seq<Block>, k: nat)
    requires lo <= hi <= |bs| && |v| == |w| && Tiled(w, bs)
    requires Pos(bs, lo) + Total(mid) == Pos(bs, hi)
    requires forall q :: 0 <= q < |w| && (q < Pos(bs, lo) || q >= Pos(bs, hi)) ==> v[q] == w[q]
    requires Pos(bs, hi) <= |w| && Tiled(v[Pos(bs, lo)..Pos(bs, hi)], mid)
    requires k < |Replace(bs, lo, hi, mid)|
    ensures TagsAt(v, Replace(bs, lo, hi, mid), k)
  {
    var cs := Replace(bs, lo, hi, mid);
    PosReplaced(bs, lo, hi, mid, k);
    if k < lo {
      TagsOutside(w, bs, lo, hi, v, cs, k, k);
    } else if k < lo + |mid| {
      assert TagsAt(v[Pos(bs, lo)..Pos(bs, hi)], mid, k - lo);
      TagsMoved(v[Pos(bs, lo)..Pos(bs, hi)], mid, k - lo, v, cs, k, Pos(bs, lo));
    } else {
      TagsOutside(w, bs, lo, hi, v, cs, k - |mid| - lo + hi, k);
    }
  }

  /** Rewriting only the words of blocks lo..hi retiles the memory with what those words now hold. */
  lemma {:induction false} TiledReplace(
    w: seq<Bumper>, bs: seq<Block>, lo: nat, hi: nat, v: seq<Bumper>, mid: seq<Block>)
    requires lo <= hi <= |bs| && |v| == |w| && Tiled(w, bs)
    requires Pos(bs, lo) + Total(mid) == Pos(bs, hi) <= |w|
    requires forall q :: 0 <= q < |w| && (q < Pos(bs, lo) || q >= Pos(bs, hi)) ==> v[q] == w[q]
    requires Tiled(v[Pos(bs, lo)..Pos(bs, hi)], mid)
    ensures Tiled(v, Replace(bs, lo, hi, mid))
  {
    var cs := Replace(bs, lo, hi, mid);
    PosReplaced(bs, lo, hi, mid, |cs|);
    forall k | 0 <= k < |cs| ensures TagsAt(v, cs, k) {
      TagsReplaced(w, bs, lo, hi, v, mid, k);
    }
  }

  lemma {:induction false} TiledOne(ws: seq<Bumper>, b: Block)
    requires |ws| == b.words > 0
    requires ws[0] == ws[|ws| - 1] == Tag(b)
    ensures Tiled(ws, [b])
  {
    assert Pos([b], 1) == b.words;
  }

  lemma {:induction false} TiledTwo(ws: seq<Bumper>, a: Block, b: Block)
    requires |ws| == a.words + b.words && a.words > 0 && b.words > 0
    requires ws[0] == ws[a.words - 1] == Tag(a)
    requires ws[a.words] == ws[|ws| - 1] == Tag(b)
    ensures Tiled(ws, [a, b])
  {
    assert Pos([a, b], 1) == a.words && Pos([a, b], 2) == a.words + b.words;
  }

  // ----- the heap invariant and the two operations on the list

  const SENTINEL: Block := Block(2, true)

  /** Used sentinels at both ends, no empty block, room for two tags in a used block, and
      no two neighbouring free blocks. */
  ghost predicate WellFormed(bs: seq<Block>) {
    && |bs| >= 2
    && bs[0] == SENTINEL && bs[|bs| - 1] == SENTINEL
    && (forall k :: 0 <= k < |bs| ==> bs[k].words >= if bs[k].used then 2 else 1)
    && (forall k :: 0 <= k < |bs| - 1 ==> bs[k].used || bs[k + 1].used)
  }

  /** The memory with the epilogue's header as init_rep wrote it. */
  function Patched(w: seq<Bumper>): (v: seq<Bumper>)
    requires |w| >= 2
    ensures |v| == |w|
  {
    w[|w| - 2 := Tag(SENTINEL)]
  }

  /** What the code reads of the epilogue's header: that it is used, and that a walk which
      adds its size is behind the end of the region. */
  predicate EpilogueOk(w: seq<Bumper>)
    requires |w| >= 2
  {
    w[|w| - 2].used && w[|w| - 2].size >= 2 * WORD
  }

  /** The tags in memory are those of the list, up to the size in the epilogue's header. */
  ghost predicate Realises(w: seq<Bumper>, bs: seq<Block>) {
    |w| >= 2 && EpilogueOk(w) && Tiled(Patched(w), bs)
  }

  /** Where the epilogue is. */
  lemma {:induction false} EpilogueAt(w: seq<Bumper>, bs: seq<Block>)
    requires WellFormed(bs) && Realises(w, bs)
    ensures Pos(bs, |bs| - 1) == |w| - 2
  {
  }

  /** What init_rep lays out: the sentinels and one free block between them. */
  function Initial(words: nat): (bs: seq<Block>)
    requires words >= 5
    ensures WellFormed(bs) && Total(bs) == words
  {
    var bs := [SENTINEL, Block(words - 4, false), SENTINEL];
    assert Pos(bs, 1) == 2 && Pos(bs, 2) == words - 2;
    bs
  }

  ghost predicate Fits(b: Block, n: nat) {
    !b.used && b.words >= n
  }

  /** The index of the lowest free block of at least n words, or the length if there is none. */
  function FirstFit(bs: seq<Block>, n: nat): (i: nat)
    ensures i <= |bs|
    ensures forall j :: 0 <= j < i ==> !Fits(bs[j], n)
    ensures i < |bs| ==> Fits(bs[i], n)
  {
    if bs == [] then 0
    else if !bs[0].used && bs[0].words >= n then 0
    else 1 + FirstFit(bs[1..], n)
  }

  /** First-fit allocation of n words: the front of the chosen block becomes used and what
      is left over, if anything, stays free behind it. */
  function AllocBlocks(bs: seq<Block>, n: nat): seq<Block> {
    var i := FirstFit(bs, n);
    if i == |bs| then bs
    else if bs[i].words == n then Replace(bs, i, i + 1, [Block(n, true)])
    else Replace(bs, i, i + 1, [Block(n, true), Block(bs[i].words - n, false)])
  }

  function Low(bs: seq<Block>, k: nat): (lo: nat)
    requires 0 < k < |bs|
    ensures lo <= k
  {
    if bs[k - 1].used then k else k - 1
  }

  function High(bs: seq<Block>, k: nat): (hi: nat)
    requires k < |bs| - 1
    ensures k < hi <= |bs|
  {
    if bs[k + 1].used then k + 1 else k + 2
  }

  /** The block that results from freeing block k and merging it with its free neighbours. */
  function Merged(bs: seq<Block>, k: nat): (b: Block)
    requires 0 < k < |bs| - 1
    ensures Pos(bs, Low(bs, k)) + b.words == Pos(bs, High(bs, k))
  {
    var l := if bs[k - 1].used then 0 else bs[k - 1].words;
    var r := if bs[k + 1].used then 0 else bs[k + 1].words;
    assert Pos(bs, k) == Pos(bs, k - 1) + bs[k - 1].words;
    assert Pos(bs, k + 2) == Pos(bs, k) + bs[k].words + bs[k + 1].words;
    Block(l + bs[k].words + r, false)
  }

  function FreeBlocks(bs: seq<Block>, k: nat): seq<Block>
    requires 0 < k < |bs| - 1
  {
    Replace(bs, Low(bs, k), High(bs, k), [Merged(bs, k)])
  }

  /** A block handed out and not yet freed. */
  predicate Live(bs: seq<Block>, k: nat) {
    0 < k < |bs| - 1 && bs[k].used
  }

  /** When the words that alloc writes still realise the first-fit list: either nothing is
      found, or the request is for two tags or more and the store to the header behind the
      block is harmless, because a remainder starts there, because it is the epilogue's, or
      because the block there has the very same size. */
  predicate KeepsHeap(bs: seq<Block>, n: nat) {
    var i := FirstFit(bs, n);
    i == |bs| ||
    (n >= 2 && (bs[i].words > n || i + 2 == |bs| || (i + 1 < |bs| && bs[i + 1].words == n)))
  }

  /** The first-fit index is the only one with the first-fit property. */
  lemma {:induction false} FirstFitUnique(bs: seq<Block>, n: nat, i: nat)
    requires i <= |bs|
    requires forall j :: 0 <= j < i ==> !Fits(bs[j], n)
    requires i < |bs| ==> Fits(bs[i], n)
    ensures FirstFit(bs, n) == i
  {
  }

  lemma {:induction false} AllocTotal(bs: seq<Block>, n: nat)
    ensures Total(AllocBlocks(bs, n)) == Total(bs)
  {
    var i := FirstFit(bs, n);
    if i < |bs| {
      if bs[i].words == n {
        assert Pos([Block(n, true)], 1) == n;
        ReplaceTotal(bs, i, [Block(n, true)]);
      } else {
        var mid := [Block(n, true), Block(bs[i].words - n, false)];
        assert Pos(mid, 1) == n;
        ReplaceTotal(bs, i, mid);
      }
    }
  }

  lemma {:induction false} ReplaceTotal(bs: seq<Block>, i: nat, mid: seq<Block>)
    requires i < |bs| && Total(mid) == bs[i].words
    ensures Total(Replace(bs, i, i + 1, mid)) == Total(bs)
  {
    PosReplaced(bs, i, i + 1, mid, |bs| - 1 + |mid|);
  }

  /** The chosen block is free and has a neighbour in use on either side. */
  lemma {:induction false} Chosen(bs: seq<Block>, n: nat)
    requires WellFormed(bs) && FirstFit(bs, n) < |bs|
    ensures var i := FirstFit(bs, n);
            0 < i < |bs| - 1 && !bs[i].used && bs[i].words >= n && bs[i - 1].used && bs[i + 1].used
  {
  }

  lemma {:induction false} TakenWellFormed(bs: seq<Block>, i: nat, mid: seq<Block>)
    requires WellFormed(bs) && 0 < i < |bs| - 1 && bs[i + 1].used
    requires 1 <= |mid| <= 2 && mid[0].used && mid[0].words >= 2
    requires |mid| == 2 ==> !mid[1].used && mid[1].words >= 1
    ensures WellFormed(Replace(bs, i, i + 1, mid))
  {
    var cs, d := Replace(bs, i, i + 1, mid), |mid| - 1;
    assert forall j :: 0 <= j < i ==> cs[j] == bs[j];
    assert forall j :: i + d < j < |cs| ==> cs[j] == bs[j - d];
  }

  lemma {:induction false} AllocWellFormed(bs: seq<Block>, n: nat)
    requires WellFormed(bs) && (n >= 2 || FirstFit(bs, n) == |bs|)
    ensures WellFormed(AllocBlocks(bs, n))
  {
    var i := FirstFit(bs, n);
    if i < |bs| {
      Chosen(bs, n);
      if bs[i].words == n {
        TakenWellFormed(bs, i, [Block(n, true)]);
      } else {
        TakenWellFormed(bs, i, [Block(n, true), Block(bs[i].words - n, false)]);
      }
    }
  }

  /** The words after n words were carved from the free block at p: two or four fresh tags in
      that block and, after an exact fit, a copy of the tag in the word behind it. */
  ghost predicate Carved(w: seq<Bumper>, v: seq<Bumper>, p: nat, n: nat, words: nat)
    requires |v| == |w|
  {
    var q := p + words;
    && 0 < n <= words && q < |w|
    && (forall x :: 0 <= x < |w| && (x < p || x >= q) ==> v[x] == w[x] || (x == q && words == n))
    && v[p] == v[p + n - 1] == Tag(Block(n, true))
    && (n < words ==> v[p + n] == v[q - 1] == Tag(Block(words - n, false)))
    && (n == words ==> v[q] == Tag(Block(n, true)))
  }

  /** The words after carving none, as when the adjusted size wrapped to zero: the word before
      the chosen block becomes a tag of size zero, and so does a chosen block of one word. */
  ghost predicate CarvedNone(w: seq<Bumper>, v: seq<Bumper>, p: nat, words: nat)
    requires |v| == |w|
  {
    && 0 < p && 0 < words && p + words < |w|
    && v == if words == 1 then w[p - 1 := Bumper(0, true)][p := Bumper(0, true)] else w[p - 1 := Bumper(0, true)]
  }

  /** The words after an allocation that found a block. */
  ghost predicate AllocTags(w: seq<Bumper>, bs: seq<Block>, n: nat, v: seq<Bumper>)
    requires |v| == |w| && FirstFit(bs, n) < |bs|
  {
    var i := FirstFit(bs, n);
    if n > 0 then Carved(w, v, Pos(bs, i), n, bs[i].words) else CarvedNone(w, v, Pos(bs, i), bs[i].words)
  }

  lemma {:induction false} SplitRealises(w: seq<Bumper>, bs: seq<Block>, i: nat, n: nat, v: seq<Bumper>)
    requires WellFormed(bs) && Realises(w, bs) && |v| == |w| && i + 1 < |bs| && n < bs[i].words
    requires Carved(w, v, Pos(bs, i), n, bs[i].words)
    ensures Realises(v, Replace(bs, i, i + 1, [Block(n, true), Block(bs[i].words - n, false)]))
  {
    EpilogueAt(w, bs);
    PosMonotone(bs, i + 1, |bs| - 1);
    SplitRetiles(Patched(w), bs, i, n, Patched(v));
  }

  lemma {:induction false} ExactRealises(w: seq<Bumper>, bs: seq<Block>, i: nat, v: seq<Bumper>)
    requires WellFormed(bs) && Realises(w, bs) && |v| == |w| && i + 1 < |bs|
    requires Carved(w, v, Pos(bs, i), bs[i].words, bs[i].words) && bs[i].words >= 2 && !bs[i].used
    requires i + 2 == |bs| || bs[i + 1].words == bs[i].words
    ensures Realises(v, Replace(bs, i, i + 1, [Block(bs[i].words, true)]))
  {
    EpilogueAt(w, bs);
    PosMonotone(bs, i + 1, |bs| - 1);
    ExactBehind(w, bs, i, v);
    ExactRetiles(Patched(w), bs, i, Patched(v));
  }

  /** After the tag stores of alloc the memory realises the first-fit list, if the heap can be
      kept. */
  lemma {:induction false} AllocRetiles(w: seq<Bumper>, bs: seq<Block>, n: nat, v: seq<Bumper>)
    requires WellFormed(bs) && Realises(w, bs) && |v| == |w| && FirstFit(bs, n) < |bs|
    requires AllocTags(w, bs, n, v) && KeepsHeap(bs, n)
    ensures Realises(v, AllocBlocks(bs, n))
  {
    var i := FirstFit(bs, n);
    Chosen(bs, n);
    if n < bs[i].words {
      SplitRealises(w, bs, i, n, v);
    } else {
      ExactRealises(w, bs, i, v);
    }
  }

  /** The harmless stores behind an exact fit. */
  lemma {:induction false} ExactBehind(w: seq<Bumper>, bs: seq<Block>, i: nat, v: seq<Bumper>)
    requires WellFormed(bs) && Realises(w, bs) && |v| == |w| && i + 1 < |bs|
    requires Carved(w, v, Pos(bs, i), bs[i].words, bs[i].words) && bs[i].words >= 2 && !bs[i].used
    requires i + 2 == |bs| || bs[i + 1].words == bs[i].words
    ensures EpilogueOk(v)
    ensures forall x :: 0 <= x < |w| && (x < Pos(bs, i) || x >= Pos(bs, i + 1)) ==> Patched(v)[x] == Patched(w)[x]
  {
    EpilogueAt(w, bs);
    PosMonotone(bs, i + 1, |bs| - 1);
    assert TagsAt(Patched(w), bs, i + 1);
    assert bs[i + 1].used;
    if i + 2 < |bs| { PosMonotone(bs, i + 2, |bs| - 1); }
  }

  lemma {:induction false} SplitRetiles(w: seq<Bumper>, bs: seq<Block>, i: nat, n: nat, v: seq<Bumper>)
    requires Tiled(w, bs) && |v| == |w| && i < |bs| && n < bs[i].words
    requires Carved(w, v, Pos(bs, i), n, bs[i].words)
    ensures Tiled(v, Replace(bs, i, i + 1, [Block(n, true), Block(bs[i].words - n, false)]))
  {
    var p, q := Pos(bs, i), Pos(bs, i + 1);
    var a, b := Block(n, true), Block(bs[i].words - n, false);
    TiledTwo(v[p..q], a, b);
    TiledReplace(w, bs, i, i + 1, v, [a, b]);
  }

  lemma {:induction false} ExactRetiles(w: seq<Bumper>, bs: seq<Block>, i: nat, v: seq<Bumper>)
    requires Tiled(w, bs) && |v| == |w| && i < |bs| && Pos(bs, i + 1) <= |w|
    requires forall x :: 0 <= x < |w| && (x < Pos(bs, i) || x >= Pos(bs, i + 1)) ==> v[x] == w[x]
    requires bs[i].words > 0 && v[Pos(bs, i)] == v[Pos(bs, i + 1) - 1] == Tag(Block(bs[i].words, true))
    ensures Tiled(v, Replace(bs, i, i + 1, [Block(bs[i].words, true)]))
  {
    var p, q := Pos(bs, i), Pos(bs, i + 1);
    TiledOne(v[p..q], Block(bs[i].words, true));
    TiledReplace(w, bs, i, i + 1, v, [Block(bs[i].words, true)]);
  }

  lemma {:induction false} FreeTotal(bs: seq<Block>, k: nat)
    requires 0 < k < |bs| - 1
    ensures Total(FreeBlocks(bs, k)) == Total(bs)
  {
    var mid := [Merged(bs, k)];
    assert Pos(mid, 1) == mid[0].words;
    PosReplaced(bs, Low(bs, k), High(bs, k), mid, |FreeBlocks(bs, k)|);
  }

  lemma {:induction false} FreeWellFormed(bs: seq<Block>, k: nat)
    requires WellFormed(bs) && Live(bs, k)
    ensures WellFormed(FreeBlocks(bs, k))
  {
    var lo, hi := Low(bs, k), High(bs, k);
    var fs := FreeBlocks(bs, k);
    assert forall j :: 0 <= j < lo ==> fs[j] == bs[j];
    assert forall j :: lo < j < |fs| ==> fs[j] == bs[j + (hi - 1 - lo)];
    assert bs[lo - 1].used && bs[hi].used;
  }

  /** The words after a free: two fresh tags at the ends of the merged stretch. */
  ghost predicate FreeTags(w: seq<Bumper>, bs: seq<Block>, k: nat, v: seq<Bumper>)
    requires 0 < k < |bs| - 1 && |v| == |w|
  {
    var p, q := Pos(bs, Low(bs, k)), Pos(bs, High(bs, k));
    && p < q <= |w|
    && (forall x :: 0 <= x < |w| && x != p && x != q - 1 ==> v[x] == w[x])
    && v[p] == v[q - 1] == Tag(Merged(bs, k))
  }

  lemma {:induction false} FreeRetiles(w: seq<Bumper>, bs: seq<Block>, k: nat, v: seq<Bumper>)
    requires WellFormed(bs) && Realises(w, bs) && 0 < k < |bs| - 1 && |v| == |w|
    requires FreeTags(w, bs, k, v)
    ensures Realises(v, FreeBlocks(bs, k))
  {
    EpilogueAt(w, bs);
    PosMonotone(bs, High(bs, k), |bs| - 1);
    MergeRetiles(Patched(w), bs, k, Patched(v));
  }

  lemma {:induction false} MergeRetiles(w: seq<Bumper>, bs: seq<Block>, k: nat, v: seq<Bumper>)
    requires Tiled(w, bs) && 0 < k < |bs| - 1 && |v| == |w|
    requires FreeTags(w, bs, k, v)
    ensures Tiled(v, FreeBlocks(bs, k))
  {
    var p, q := Pos(bs, Low(bs, k)), Pos(bs, High(bs, k));
    TiledOne(v[p..q], Merged(bs, k));
    TiledReplace(w, bs, Low(bs, k), High(bs, k), v, [Merged(bs, k)]);
  }

  /** Freeing what was just allocated gives back the very same list of blocks: the left
      neighbour cannot be free and the remainder is merged back. */
  lemma {:induction false} AllocThenFree(bs: seq<Block>, n: nat)
    requires WellFormed(bs) && FirstFit(bs, n) < |bs|
    ensures var i := FirstFit(bs, n);
            Live(AllocBlocks(bs, n), i) && FreeBlocks(AllocBlocks(bs, n), i) == bs
  {
    var i := FirstFit(bs, n);
    var cs := AllocBlocks(bs, n);
    assert 0 < i < |bs| - 1 && bs[i - 1].used && bs[i + 1].used;
    assert cs[..i] == bs[..i] && cs[i] == Block(n, true);
    if bs[i].words == n {
      assert cs[i + 1..] == bs[i + 1..];
      assert cs[i + 1] == bs[i + 1];
    } else {
      assert cs[i + 2..] == bs[i + 1..];
    }
    assert Merged(cs, i) == bs[i];
    assert bs == bs[..i] + [bs[i]] + bs[i + 1..];
  }

  // ----- whole runs

  /** The words a live block lends to its owner: all but its two tags. */
  ghost predicate InPayload(bs: seq<Block>, k: nat, q: nat)
    requires k < |bs|
  {
    Pos(bs, k) < q < Pos(bs, k + 1) - 1
  }

  /** What happens to the heap: a call that allocates n words, a call that frees the block
      that starts at a word offset, or an owner's write to a word of its payload. */
  datatype Op = Alloc(n: nat) | Free(pos: nat) | Write(q: nat, word: Bumper)

  /** The index of the block that starts at word p, or the length if none does. */
  function BlockAt(bs: seq<Block>, p: nat, k: nat := 0): (r: nat)
    requires k <= |bs|
    ensures k <= r <= |bs|
    ensures r < |bs| ==> Pos(bs, r) == p
    ensures forall j :: k <= j < r ==> Pos(bs, j) != p
    decreases |bs| - k
  {
    if k == |bs| || Pos(bs, k) == p then k else BlockAt(bs, p, k + 1)
  }

  /** What the heap's users may do: an allocation that keeps the heap, the free of a live
      block, a write to the payload of a live block. */
  ghost predicate Legal(bs: seq<Block>, op: Op) {
    match op
    case Alloc(n) => KeepsHeap(bs, n)
    case Free(p) => Live(bs, BlockAt(bs, p))
    case Write(q, _) => exists k :: Live(bs, k) && InPayload(bs, k, q)
  }

  ghost function Apply(bs: seq<Block>, op: Op): seq<Block>
    requires Legal(bs, op)
  {
    match op
    case Alloc(n) => AllocBlocks(bs, n)
    case Free(p) => FreeBlocks(bs, BlockAt(bs, p))
    case Write(_, _) => bs
  }

  ghost predicate LegalRun(bs: seq<Block>, ops: seq<Op>)
    decreases ops
  {
    ops == [] || (Legal(bs, ops[0]) && LegalRun(Apply(bs, ops[0]), ops[1..]))
  }

  ghost function Run(bs: seq<Block>, ops: seq<Op>): seq<Block>
    requires LegalRun(bs, ops)
    decreases ops
  {
    if ops == [] then bs else Run(Apply(bs, ops[0]), ops[1..])
  }

  lemma {:induction false} RunKeeps(bs: seq<Block>, ops: seq<Op>)
    requires WellFormed(bs) && LegalRun(bs, ops)
    ensures WellFormed(Run(bs, ops)) && Total(Run(bs, ops)) == Total(bs)
    decreases ops
  {
    if ops != [] {
      match ops[0] {
        case Alloc(n) =>
          AllocWellFormed(bs, n);
          AllocTotal(bs, n);
        case Free(p) =>
          FreeWellFormed(bs, BlockAt(bs, p));
          FreeTotal(bs, BlockAt(bs, p));
        case Write(_, _) =>
      }
      RunKeeps(Apply(bs, ops[0]), ops[1..]);
    }
  }

  // ----- payloads

  /** A payload word belongs to one block only and is no tag of any block. */
  lemma {:induction false} PayloadsDisjoint(bs: seq<Block>, j: nat, k: nat, q: nat)
    requires j < |bs| && k < |bs| && InPayload(bs, j, q)
    requires bs[k].words > 0
    ensures q < Total(bs)
    ensures j != k ==> !InPayload(bs, k, q)
    ensures q != Pos(bs, k) && q != Pos(bs, k + 1) - 1
  {
    PosMonotone(bs, j + 1, |bs|);
    if j < k {
      PosMonotone(bs, j + 1, k);
    } else if k < j {
      PosMonotone(bs, k + 1, j);
    }
  }

  /** Where a block of the old list is found in the list after an allocation. */
  function AfterAlloc(bs: seq<Block>, n: nat, j: nat): nat {
    var i := FirstFit(bs, n);
    if j > i && i < |bs| && bs[i].words > n then j + 1 else j
  }

  lemma {:induction false} KeptInPlace(bs: seq<Block>, i: nat, mid: seq<Block>, j: nat)
    requires i < |bs| && j < |bs| && j != i && Total(mid) == bs[i].words
    ensures var cs, c := Replace(bs, i, i + 1, mid), if j > i then j - 1 + |mid| else j;
            c < |cs| && cs[c] == bs[j] && Pos(cs, c) == Pos(bs, j)
  {
    PosReplaced(bs, i, i + 1, mid, if j > i then j - 1 + |mid| else j);
  }

  /** An allocation keeps every live block in its place and used. */
  lemma {:induction false} AllocKeepsBlocks(bs: seq<Block>, n: nat, j: nat)
    requires WellFormed(bs) && Live(bs, j) && FirstFit(bs, n) < |bs|
    ensures var cs, c := AllocBlocks(bs, n), AfterAlloc(bs, n, j);
            Live(cs, c) && cs[c] == bs[j] && Pos(cs, c) == Pos(bs, j)
  {
    var i := FirstFit(bs, n);
    var mid := if bs[i].words == n then [Block(n, true)] else [Block(n, true), Block(bs[i].words - n, false)];
    assert Total(mid) == bs[i].words by {
      assert Pos(mid, 1) == n;
    }
    assert AllocBlocks(bs, n) == Replace(bs, i, i + 1, mid);
    KeptInPlace(bs, i, mid, j);
    assert AfterAlloc(bs, n, j) == if j > i then j - 1 + |mid| else j;
  }

  /** An allocation, whether or not it keeps the heap, changes no word of a live payload. */
  lemma {:induction false} AllocKeepsPayloads(w: seq<Bumper>, bs: seq<Block>, n: nat, v: seq<Bumper>, j: nat, q: nat)
    requires WellFormed(bs) && Realises(w, bs) && |v| == |w| && FirstFit(bs, n) < |bs|
    requires AllocTags(w, bs, n, v) && Live(bs, j) && InPayload(bs, j, q)
    ensures q < |w| && v[q] == w[q]
  {
    var i := FirstFit(bs, n);
    PayloadsDisjoint(bs, j, i + 1, q);
    PayloadsDisjoint(bs, j, i - 1, q);
    if j < i {
      PosMonotone(bs, j + 1, i);
    } else {
      PosMonotone(bs, i + 1, j);
    }
  }

  /** Likewise for a free and every live block but the one freed. */
  lemma {:induction false} FreeKeepsPayloads(w: seq<Bumper>, bs: seq<Block>, k: nat, v: seq<Bumper>, j: nat, q: nat)
    requires WellFormed(bs) && Realises(w, bs) && |v| == |w| && Live(bs, k) && Live(bs, j) && j != k
    requires FreeTags(w, bs, k, v) && InPayload(bs, j, q)
    ensures var cs, c := FreeBlocks(bs, k), if j < k then j else j - (High(bs, k) - Low(bs, k) - 1);
            Live(cs, c) && cs[c] == bs[j] && Pos(cs, c) == Pos(bs, j)
    ensures q < |w| && v[q] == w[q]
  {
    var lo, hi, mid := Low(bs, k), High(bs, k), [Merged(bs, k)];
    assert Pos(mid, 1) == mid[0].words;
    PosReplaced(bs, lo, hi, mid, if j < k then j else j - (hi - lo - 1));
    PosMonotone(bs, j + 1, |bs|);
    if j < k {
      PosMonotone(bs, j + 1, lo);
    } else {
      PosMonotone(bs, hi, j);
    }
  }

  /** What a successful allocation hands out: a live block, where the chosen free block was,
      of exactly the adjusted length. */
  lemma {:induction false} AllocServes(bs: seq<Block>, n: nat)
    requires WellFormed(bs) && FirstFit(bs, n) < |bs| && n >= 2
    ensures var i, cs := FirstFit(bs, n), AllocBlocks(bs, n);
            && Live(cs, i) && cs[i].words == n
            && Pos(cs, i) == Pos(bs, i) && Pos(cs, i + 1) <= Pos(bs, i + 1)
  {
    var i, cs := FirstFit(bs, n), AllocBlocks(bs, n);
    assert 0 < i < |bs| - 1;
    PosPrefix(bs, cs, i);
  }

  /** A run of three calls after which an exact fit damages the header of a live block: of two
      neighbouring blocks of three and four words the first was freed, and the next request is
      for three words again. */
  lemma {:induction false} ExactFitExample()
    ensures var ops := [Alloc(3), Alloc(4), Free(2)];
            var bs := [SENTINEL, Block(3, false), Block(4, true), Block(5, false), SENTINEL];
            && LegalRun(Initial(16), ops) && Run(Initial(16), ops) == bs
            && Live(bs, 2) && FirstFit(bs, 3) == 1 && !KeepsHeap(bs, 3)
  {
    var bs0, bs1 := Initial(16), [SENTINEL, Block(3, true), Block(9, false), SENTINEL];
    var bs2 := [SENTINEL, Block(3, true), Block(4, true), Block(5, false), SENTINEL];
    var bs3 := [SENTINEL, Block(3, false), Block(4, true), Block(5, false), SENTINEL];
    FirstFitUnique(bs3, 3, 1);
    TakesTwo(bs0, bs1, bs2);
    FreesSecond(bs2, bs3);
    assert [Alloc(3), Alloc(4), Free(2)][1..] == [Alloc(4), Free(2)];
    assert [Alloc(4), Free(2)][1..] == [Free(2)] && [Free(2)][1..] == [];
    assert LegalRun(bs3, []) && Run(bs3, []) == bs3;
    assert LegalRun(bs2, [Free(2)]) && Run(bs2, [Free(2)]) == bs3;
    assert LegalRun(bs1, [Alloc(4), Free(2)]) && Run(bs1, [Alloc(4), Free(2)]) == bs3;
  }

  lemma {:induction false} TakesTwo(bs0: seq<Block>, bs1: seq<Block>, bs2: seq<Block>)
    requires bs0 == [SENTINEL, Block(12, false), SENTINEL]
    requires bs1 == [SENTINEL, Block(3, true), Block(9, false), SENTINEL]
    requires bs2 == [SENTINEL, Block(3, true), Block(4, true), Block(5, false), SENTINEL]
    ensures Legal(bs0, Alloc(3)) && Apply(bs0, Alloc(3)) == bs1
    ensures Legal(bs1, Alloc(4)) && Apply(bs1, Alloc(4)) == bs2
  {
    FirstFitUnique(bs0, 3, 1);
    FirstFitUnique(bs1, 4, 2);
  }

  lemma {:induction false} FreesSecond(bs2: seq<Block>, bs3: seq<Block>)
    requires bs2 == [SENTINEL, Block(3, true), Block(4, true), Block(5, false), SENTINEL]
    requires bs3 == [SENTINEL, Block(3, false), Block(4, true), Block(5, false), SENTINEL]
    ensures Legal(bs2, Free(2)) && Apply(bs2, Free(2)) == bs3
  {
    assert Pos(bs2, 1) == 2;
    assert BlockAt(bs2, 2, 1) == 1;
    assert BlockAt(bs2, 2) == 1;
  }
}
