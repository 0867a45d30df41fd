/**
 The first-fit allocator of l0/MemMgrPrimSimple.c: tags overwritten in place in a word
 array, addresses and sizes in bytes as the source computes them, and a ghost block list
 that says what the tags mean.
 */
module MemMgrPrimSimple {
  import opened Blocks
  import opened Common
  import opened Tiling

  datatype RC = OK | OutOfResources | AssertFailed

  /** A store to a tag's 63-bit size field keeps the low 63 bits. */
  function Field(x: int): nat {
    x % POW63
  }

  /** A sum in uintptr_t, which wraps around. */
  function Sum(a: nat, b: nat): nat
    requires a < POW64 && b < POW64
  {
    if a + b < POW64 then a + b else a + b - POW64
  }

  /** Rounding up to a multiple of the word size. */
  function RoundUp(size: nat): (r: nat)
    requires size < POW64
    ensures r < POW64 && r % WORD == 0
  {
    if size % WORD != 0 then Sum(size, WORD - size % WORD) else size
  }

  /** The block size that alloc looks for: room for both tags, rounded up, all of it modulo
      the width of uintptr_t. */
  function AdjustedSize(request: nat): (size: nat)
    requires request < POW64
    ensures size % WORD == 0
  {
    RoundUp(Sum(request, 2 * WORD))
  }

  /** A block of the adjusted size has room for the request exactly when the adjustment does
      not wrap around. */
  lemma {:induction false} AdjustedSizeCovers(request: nat)
    requires request < POW64
    ensures AdjustedSize(request) >= request + 2 * WORD <==> request <= POW64 - 3 * WORD
    ensures request <= POW64 - 3 * WORD ==> AdjustedSize(request) < request + 3 * WORD
    ensures request > POW64 - 3 * WORD ==> AdjustedSize(request) <= 2 * WORD
    // and the size given to alloc is the one that free will accept
    ensures request <= POW64 - 3 * WORD ==> RoundUp(request) + 2 * WORD == AdjustedSize(request)
  {
    assert Sum(request, 2 * WORD) % WORD == request % WORD;
  }

  /** The address behind the representative, aligned, and how many words follow. */
  lemma {:induction false} Aligned(start: nat, m: nat, end: nat)
    requires end % WORD == 0 && start + 5 * WORD <= end
    requires m == if start % WORD == 0 then start else start + (WORD - start % WORD)
    ensures start <= m < start + WORD && m % WORD == 0
    ensures end >= m + 5 * WORD && end == m + WORD * ((end - m) / WORD) && (end - m) / WORD >= 5
  {
  }

  // ----- the five tag stores of alloc, on the words of the region

  function ShrinkStores(w: seq<Bumper>, h: nat, words: nat, n: nat): (v: seq<Bumper>)
    requires 0 < words && h + words <= |w|
    ensures |v| == |w|
  {
    var f := h + words - 1;
    var a := w[h := w[h].(used := true)];
    var b := a[f := a[f].(size := Field(a[f].size - n * WORD))];
    b[h := b[h].(size := Field(n * WORD))]
  }

  function CopyStores(w: seq<Bumper>, h: nat, words: nat, n: nat): (v: seq<Bumper>)
    requires 0 < h && 0 < words && h + words < |w| && n <= words
    ensures |v| == |w|
  {
    var a := w[h + n - 1 := w[h]];
    a[h + n := a[h + words - 1]]
  }

  /** What they add up to. */
  lemma {:induction false} CarveStoresCarve(w: seq<Bumper>, h: nat, words: nat, n: nat)
    requires 0 < h && 0 < words && h + words < |w| && n <= words && |w| * WORD < POW63
    requires w[h] == w[h + words - 1] == Tag(Block(words, false))
    ensures var v := CopyStores(ShrinkStores(w, h, words, n), h, words, n);
            if n > 0 then Carved(w, v, h, n, words) else CarvedNone(w, v, h, words)
  {
    var u := ShrinkStores(w, h, words, n);
    assert Field(n * WORD) == n * WORD && Field(words * WORD - n * WORD) == (words - n) * WORD;
    if n == 0 {
      StoresOfNone(w, h, words);
    } else if n < words {
      assert u == w[h + words - 1 := Tag(Block(words - n, false))][h := Tag(Block(n, true))];
    } else {
      StoresOfAll(w, h, words);
    }
  }

  lemma {:induction false} StoresOfNone(w: seq<Bumper>, h: nat, words: nat)
    requires 0 < h && 0 < words && h + words < |w| && |w| * WORD < POW63
    requires w[h] == w[h + words - 1] == Tag(Block(words, false))
    ensures CarvedNone(w, CopyStores(ShrinkStores(w, h, words, 0), h, words, 0), h, words)
  {
    assert Field(words * WORD) == words * WORD;
  }

  lemma {:induction false} StoresOfAll(w: seq<Bumper>, h: nat, words: nat)
    requires 0 < h && 0 < words && h + words < |w| && |w| * WORD < POW63
    requires w[h] == w[h + words - 1] == Tag(Block(words, false))
    ensures Carved(w, CopyStores(ShrinkStores(w, h, words, words), h, words, words), h, words, words)
  {
    assert Field(words * WORD) == words * WORD;
  }

  class Heap {
    const mem: nat   // address of the first tag
    const end: nat   // address just behind the last tag
    const store: array<Bumper>
    ghost var blocks: seq<Block>

    /** The tags in memory realise a well-formed block list, up to the size in the epilogue's
        header, which an exact fit of the last block overwrites. */
    ghost predicate Valid()
      reads this, store
    {
      && Shape()
      && WellFormed(blocks)
      && Realises(store[..], blocks)
    }

    /** What alloc and free never change: an aligned region no larger than a tag can say. */
    predicate Shape() {
      && mem > NULL && mem % WORD == 0
      && end == mem + WORD * store.Length
      && WORD * store.Length < POW63
    }

    /** The array index of the word at an address. */
    function Ix(a: nat): nat
      requires a >= mem
    {
      (a - mem) / WORD
    }

    /** init_rep: `start` is the address just behind the representative itself. */
    constructor (start: nat, end: nat)
      requires start > NULL && end % WORD == 0
      requires start + 5 * WORD <= end < start + POW63
      ensures Valid() && fresh(store)
      ensures this.end == end && start <= mem < start + WORD
      ensures blocks == Initial(store.Length)
    {
      var m := start;
      if m % WORD != 0 {
        m := m + (WORD - m % WORD);
      }
      Aligned(start, m, end);
      var n := (end - m) / WORD;
      var a := new Bumper[n];
      this.mem, this.end, this.store := m, end, a;
      new;
      LayOut();
      blocks := Initial(n);
      InitialRetiles(store[..], n);
    }

    /** The six tag stores of init_rep. */
    method LayOut()
      requires Shape() && store.Length >= 5
      modifies store
      ensures store[0] == store[1] == store[store.Length - 2] == store[store.Length - 1] == Tag(SENTINEL)
      ensures store[2] == store[store.Length - 3] == Tag(Block(store.Length - 4, false))
    {
      var n := store.Length;
      // prologue
      store[0] := Bumper(2 * WORD, true);
      store[1] := store[0];
      // epilogue
      store[n - 2] := Bumper(2 * WORD, true);
      store[n - 1] := store[n - 2];
      // the first free block
      var first := mem + 2 * WORD;
      var size := (end - 2 * WORD) - first;
      assert size == (n - 4) * WORD;
      store[2] := Bumper(Field(size), false);
      assert Ix(first + store[2].size - WORD) == n - 3;
      store[Ix(first + store[2].size - WORD)] := store[2];
    }

    /** First-fit allocation, for every request, those included whose adjusted size wraps
        around. Some well-formed list of blocks describes the memory afterwards if and only if
        KeepsHeap holds of the heap and the adjusted size; then it is the first-fit list. */
    method Alloc(request: nat) returns (rc: RC, p: nat)
      requires Valid() && request < POW64
      modifies store, this`blocks
      ensures Shape()
      ensures var n := AdjustedSize(request) / WORD;
              var bs, i := old(blocks), FirstFit(old(blocks), n);
              && blocks == AllocBlocks(bs, n)
              && (Valid() <==> KeepsHeap(bs, n))
              && (i == |bs| ==> rc == OutOfResources && p == NULL && store[..] == old(store[..]))
              && (i < |bs| ==> rc == OK && p == mem + WORD * (Pos(bs, i) + 1))
              && (i < |bs| ==> AllocTags(old(store[..]), bs, n, store[..]))
      ensures (exists cs :: WellFormed(cs) && Realises(store[..], cs)) <==>
              KeepsHeap(old(blocks), AdjustedSize(request) / WORD)
    {
      var size := AdjustedSize(request);
      ghost var n := size / WORD;
      ghost var bs, w := blocks, store[..];
      var hdr := FindFree(size);
      blocks := AllocBlocks(bs, n);
      if hdr >= end {
        assert WellFormed(bs) && Realises(store[..], bs);
        return OutOfResources, NULL;
      }
      ghost var k := FirstFit(bs, n);
      HeapView(w, bs, k);
      p := Carve(hdr, size, k, bs);
      rc := OK;
      AllocRealised(w, bs, n, store[..]);
      HeapSurvivesIff(w, bs, n, store[..]);
    }

    /** The walk of alloc: from header to header up to the first free block that is large
        enough, or to the end of the region. */
    method FindFree(size: nat) returns (hdr: nat)
      requires Valid() && size % WORD == 0
      ensures FirstFit(blocks, size / WORD) < |blocks| ==>
                hdr == mem + WORD * Pos(blocks, FirstFit(blocks, size / WORD)) && hdr < end
      ensures FirstFit(blocks, size / WORD) == |blocks| ==> hdr >= end
    {
      ghost var n := size / WORD;
      ghost var k := 0;
      hdr := mem;
      while hdr < end && (store[Ix(hdr)].used || store[Ix(hdr)].size < size)
        invariant k <= |blocks|
        invariant if k < |blocks| then hdr == mem + WORD * Pos(blocks, k) else hdr >= end
        invariant forall j :: 0 <= j < k ==> !Fits(blocks[j], n)
        decreases end - hdr
      {
        HeaderView(store[..], blocks, k);
        hdr := hdr + store[Ix(hdr)].size;
        k := k + 1;
      }
      if k < |blocks| { HeaderView(store[..], blocks, k); }
      FirstFitUnique(blocks, n, k);
    }

    /** The second half of alloc: the front of the free block k, whose header is at hdr, becomes
        the new block. */
    method Carve(hdr: nat, size: nat, ghost k: nat, ghost bs: seq<Block>) returns (p: nat)
      requires Shape() && size % WORD == 0 && k < |bs| && k == FirstFit(bs, size / WORD)
      requires hdr == mem + WORD * Pos(bs, k) && Pos(bs, k) > 0 && bs[k].words > 0 && Pos(bs, k + 1) < store.Length
      requires store[Pos(bs, k)] == store[Pos(bs, k + 1) - 1] == Tag(Block(bs[k].words, false))
      modifies store
      ensures p == hdr + WORD && AllocTags(old(store[..]), bs, size / WORD, store[..])
    {
      ghost var h, words, n, w := Pos(bs, k), bs[k].words, size / WORD, store[..];
      var nextFtr := Shrink(hdr, size, words);
      CopyTags(hdr, nextFtr, words);
      p := hdr + WORD;
      CarveStoresCarve(w, h, words, n);
    }

    /** The first three stores: the used bit, the remainder's size, the new block's size. */
    method Shrink(hdr: nat, size: nat, ghost words: nat) returns (nextFtr: nat)
      requires Shape() && hdr >= mem && (hdr - mem) % WORD == 0 && size % WORD == 0
      requires var h := (hdr - mem) / WORD;
               && 0 < words && h + words < store.Length && size <= words * WORD
               && store[h] == store[h + words - 1] == Tag(Block(words, false))
      modifies store
      ensures nextFtr == hdr + (words - 1) * WORD
      ensures store[..] == ShrinkStores(old(store[..]), (hdr - mem) / WORD, words, size / WORD)
    {
      ghost var w, h := store[..], (hdr - mem) / WORD;
      store[Ix(hdr)] := store[Ix(hdr)].(used := true);
      nextFtr := hdr + store[Ix(hdr)].size - WORD;
      assert Ix(nextFtr) == h + words - 1;
      store[Ix(nextFtr)] := store[Ix(nextFtr)].(size := Field(store[Ix(nextFtr)].size - size));
      store[Ix(hdr)] := store[Ix(hdr)].(size := Field(size));
      assert size == size / WORD * WORD;
    }

    /** The last two stores: the new block's footer, and the tag behind it. */
    method CopyTags(hdr: nat, nextFtr: nat, ghost words: nat)
      requires Shape() && hdr > mem && (hdr - mem) % WORD == 0 && words > 0
      requires (hdr - mem) / WORD + words < store.Length && nextFtr == hdr + (words - 1) * WORD
      requires var size := store[(hdr - mem) / WORD].size; size % WORD == 0 && size <= words * WORD
      modifies store
      ensures var h := (hdr - mem) / WORD;
              store[..] == CopyStores(old(store[..]), h, words, old(store[h].size) / WORD)
    {
      ghost var h, n := (hdr - mem) / WORD, store[(hdr - mem) / WORD].size / WORD;
      var ftr := hdr + store[Ix(hdr)].size - WORD;
      assert Ix(ftr) == h + n - 1 && Ix(nextFtr) == h + words - 1;
      store[Ix(ftr)] := store[Ix(hdr)];
      var nextHdr := ftr + WORD;
      assert Ix(nextHdr) == h + n;
      store[Ix(nextHdr)] := store[Ix(nextFtr)];
    }

    /** free: refuses a size that is not the recorded one, else merges the block with its
        free neighbours. Only the two tags of the merged block change. */
    method Free(size: nat, p: nat, ghost k: nat) returns (rc: RC)
      requires Valid() && size < POW64
      requires Live(blocks, k) && p == mem + WORD * (Pos(blocks, k) + 1)
      modifies store, this`blocks
      ensures Valid()
      ensures rc == OK <==> RoundUp(size) + 2 * WORD == WORD * old(blocks)[k].words
      ensures rc == OK ==> blocks == FreeBlocks(old(blocks), k)
      ensures rc == OK ==> FreeTags(old(store[..]), old(blocks), k, store[..])
      ensures rc != OK ==> rc == AssertFailed && blocks == old(blocks) && store[..] == old(store[..])
    {
      ghost var bs, w := blocks, store[..];
      HeaderView(w, bs, k);
      if RoundUp(size) != store[Ix(p - WORD)].size - 2 * WORD {
        return AssertFailed;
      }
      var hdr, ftr, newsize := MergeExtent(p - WORD, k);
      WriteFree(hdr, ftr, newsize);
      blocks := FreeBlocks(bs, k);
      FreeTagsWritten(w, bs, k, store[..]);
      FreeRetiles(w, bs, k, store[..]);
      FreeWellFormed(bs, k);
      return OK;
    }

    /** The tags of a free block, header first. */
    method WriteFree(hdr: nat, ftr: nat, newsize: nat)
      requires Shape() && mem <= hdr <= ftr < end && newsize < POW63
      requires (hdr - mem) % WORD == 0 && (ftr - mem) % WORD == 0
      modifies store
      ensures var tag := Bumper(newsize, false);
              store[..] == old(store[..])[(hdr - mem) / WORD := tag][(ftr - mem) / WORD := tag]
    {
      store[Ix(hdr)] := store[Ix(hdr)].(size := Field(newsize));
      store[Ix(hdr)] := store[Ix(hdr)].(used := false);
      store[Ix(ftr)] := store[Ix(hdr)];
    }

    /** Where the merged block begins and ends, found from the neighbours' tags. */
    method MergeExtent(h: nat, ghost k: nat) returns (hdr: nat, ftr: nat, newsize: nat)
      requires Valid() && Live(blocks, k) && h == mem + WORD * Pos(blocks, k)
      ensures hdr == mem + WORD * Pos(blocks, Low(blocks, k))
      ensures ftr == mem + WORD * (Pos(blocks, High(blocks, k)) - 1)
      ensures newsize == WORD * Merged(blocks, k).words
      ensures hdr < ftr < end
    {
      HeapView(store[..], blocks, k);
      hdr := h;
      ftr := hdr + store[Ix(hdr)].size - WORD;
      newsize := store[Ix(hdr)].size;
      var leftFtr := hdr - WORD;
      if !store[Ix(leftFtr)].used {
        hdr := leftFtr - store[Ix(leftFtr)].size + WORD;
        newsize := newsize + store[Ix(hdr)].size;
      }
      var rightHdr := ftr + WORD;
      if !store[Ix(rightHdr)].used {
        ftr := rightHdr + store[Ix(rightHdr)].size - WORD;
        newsize := newsize + store[Ix(ftr)].size;
      }
    }
  }

  /** What the code can read of an inner block and of its two neighbours. */
  lemma {:induction false} BlockView(w: seq<Bumper>, bs: seq<Block>, k: nat)
    requires Tiled(w, bs) && WellFormed(bs) && 0 < |bs|
    requires k < |bs| && (0 < k < |bs| - 1 || !bs[k].used)
    ensures 0 < k < |bs| - 1
    ensures var p, l, n, r := Pos(bs, k), bs[k - 1].words, bs[k].words, bs[k + 1].words;
            && 0 < l <= p && 0 < n && 0 < r && p + n + r <= |w|
            && Pos(bs, k - 1) == p - l && Pos(bs, k + 1) == p + n && Pos(bs, k + 2) == p + n + r
            && w[p - l] == w[p - 1] == Tag(bs[k - 1])
            && w[p] == w[p + n - 1] == Tag(bs[k])
            && w[p + n] == w[p + n + r - 1] == Tag(bs[k + 1])
  {
    assert TagsAt(w, bs, k - 1) && TagsAt(w, bs, k) && TagsAt(w, bs, k + 1);
    assert Pos(bs, k) == Pos(bs, k - 1) + bs[k - 1].words;
    assert Pos(bs, k + 1) == Pos(bs, k) + bs[k].words;
    assert Pos(bs, k + 2) == Pos(bs, k + 1) + bs[k + 1].words;
  }

  /** What the code reads of the header of block k: its tag, but for the epilogue only that it
      is used and leads to the end or behind it. */
  lemma {:induction false} HeaderView(w: seq<Bumper>, bs: seq<Block>, k: nat)
    requires WellFormed(bs) && Realises(w, bs) && k < |bs|
    ensures Pos(bs, k) < |w| && w[Pos(bs, k)].used == bs[k].used
    ensures k < |bs| - 1 ==> w[Pos(bs, k)] == Tag(bs[k]) && Pos(bs, k + 1) < |w|
    ensures k == |bs| - 1 ==> Pos(bs, k) == |w| - 2 && w[Pos(bs, k)].size >= 2 * WORD
  {
    EpilogueAt(w, bs);
    assert TagsAt(Patched(w), bs, k);
    if k < |bs| - 1 {
      PosMonotone(bs, k + 1, |bs| - 1);
    }
  }

  /** What the code can read of an inner block and of its two neighbours, the right one of
      which may be the epilogue. */
  lemma {:induction false} HeapView(w: seq<Bumper>, bs: seq<Block>, k: nat)
    requires WellFormed(bs) && Realises(w, bs)
    requires k < |bs| && (0 < k < |bs| - 1 || !bs[k].used)
    ensures 0 < k < |bs| - 1
    ensures var p, l, n, r := Pos(bs, k), bs[k - 1].words, bs[k].words, bs[k + 1].words;
            && 0 < l <= p && 0 < n && 0 < r && p + n + r <= |w|
            && Pos(bs, k - 1) == p - l && Pos(bs, k + 1) == p + n && Pos(bs, k + 2) == p + n + r
            && w[p - l] == w[p - 1] == Tag(bs[k - 1])
            && w[p] == w[p + n - 1] == Tag(bs[k])
            && w[p + n].used == bs[k + 1].used
            && (!bs[k + 1].used ==> w[p + n] == w[p + n + r - 1] == Tag(bs[k + 1]))
  {
    BlockView(Patched(w), bs, k);
    EpilogueAt(w, bs);
    PosMonotone(bs, k + 1, |bs| - 1);
    if !bs[k + 1].used { PosMonotone(bs, k + 2, |bs| - 1); }
  }

  /** The two tags that free writes. */
  lemma {:induction false} FreeTagsWritten(w: seq<Bumper>, bs: seq<Block>, k: nat, v: seq<Bumper>)
    requires WellFormed(bs) && Realises(w, bs) && 0 < k < |bs| - 1
    requires var p, q, tag := Pos(bs, Low(bs, k)), Pos(bs, High(bs, k)), Tag(Merged(bs, k));
             p < q <= |w| && v == w[p := tag][q - 1 := tag]
    ensures FreeTags(w, bs, k, v)
  {
  }

  /** What Carve leaves in memory realises the first-fit list exactly when KeepsHeap says so. */
  lemma {:induction false} AllocRealised(w: seq<Bumper>, bs: seq<Block>, n: nat, v: seq<Bumper>)
    requires WellFormed(bs) && Realises(w, bs) && |v| == |w| && FirstFit(bs, n) < |bs|
    requires AllocTags(w, bs, n, v)
    ensures WellFormed(AllocBlocks(bs, n)) && Realises(v, AllocBlocks(bs, n)) <==> KeepsHeap(bs, n)
  {
    if KeepsHeap(bs, n) {
      AllocWellFormed(bs, n);
      AllocRetiles(w, bs, n, v);
    } else {
      NothingRealised(w, bs, n, v, AllocBlocks(bs, n));
    }
  }

  lemma {:induction false} InitialRetiles(v: seq<Bumper>, n: nat)
    requires |v| == n >= 5
    requires v[0] == v[1] == v[n - 2] == v[n - 1] == Tag(SENTINEL)
    requires v[2] == v[n - 3] == Tag(Block(n - 4, false))
    ensures Tiled(v, Initial(n)) && Realises(v, Initial(n))
  {
    var bs := Initial(n);
    assert Patched(v) == v;
    assert Pos(bs, 1) == 2 && Pos(bs, 2) == n - 2;
    assert TagsAt(v, bs, 0) && TagsAt(v, bs, 1) && TagsAt(v, bs, 2);
  }
}
