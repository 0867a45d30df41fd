/** The translation tables of l0/sys/trans.c, updated in place by loops as the code does. */
module TransTable {
  import opened Common
  import opened Trans
  import opened TransTheorems

  /** lrt_pic_getnextlpic: the cores form a ring. */
  function NextPic(c: nat, pics: nat): (r: nat)
    requires c < pics
    ensures r == if c + 1 == pics then 0 else c + 1
  {
    (c + 1) % pics
  }

  class Tables {
    const g: nat
    const pics: nat
    const global: array<Global>
    const local: array<nat>
    var roots: map<nat, seq<RepNode>>   // each multi root's list, from its head
    var brk: nat                        // the next free address for a representative

    ghost function View(): State
      reads this, global, local
    {
      State(g, pics, global[..], local[..], roots, brk)
    }

    predicate Valid()
      reads this
    {
      brk >= LMem(g, pics) && 0 < pics <= 64 && global.Length == ENTRIES && local.Length == pics * ENTRIES
    }

    constructor (g: nat, pics: nat)
      requires 0 < pics <= 64
      ensures Valid() && this.g == g && this.pics == pics && fresh(global) && fresh(local)
      ensures roots == map[] && brk == LMem(g, pics)
      ensures global[..] == seq(ENTRIES, _ => Global(Unbound, false, {}))
    {
      this.g, this.pics := g, pics;
      global := new Global[ENTRIES](_ => Global(Unbound, false, {}));
      local := new nat[pics * ENTRIES];
      roots, brk := map[], LMem(g, pics);
      new;
      assert global[..] == seq(ENTRIES, _ => Global(Unbound, false, {}));
    }

    /** initLTable: every entry of the core's own table becomes cold. */
    method InitLTable(pic: nat)
      requires Valid() && pic < pics
      modifies local
      ensures forall i :: 0 <= i < ENTRIES ==> local[Lx(pic, i)] == DefaultObj(g, Lx(pic, i))
      ensures forall e :: 0 <= e < local.Length && e / ENTRIES != pic ==> local[e] == old(local[e])
    {
      for i := 0 to ENTRIES
        invariant forall j :: 0 <= j < i ==> local[Lx(pic, j)] == DefaultObj(g, Lx(pic, j))
        invariant forall e :: 0 <= e < local.Length && e / ENTRIES != pic ==> local[e] == old(local[e])
      {
        local[Lx(pic, i)] := DefaultObj(g, Lx(pic, i));
      }
    }

    /** TransEBBIdAlloc: an id of the core's own portion that was never handed out. */
    method IdAlloc(pic: nat) returns (ix: Option<nat>)
      requires Valid() && pic < pics
      modifies global
      ensures (View(), ix) == AllocId(old(View()), pic)
    {
      var base := pic * PERPIC;
      for i := 0 to PERPIC
        invariant global[..] == old(global[..])
        invariant FirstFree(global[..], base, base + PERPIC) == FirstFree(global[..], base + i, base + PERPIC)
      {
        if !global[base + i].taken {
          global[base + i] := global[base + i].(taken := true);
          return Some(base + i);
        }
      }
      return None;
    }

    /** TransEBBIdFree: stores the mark that means allocated. */
    method IdFree(ix: nat)
      requires Valid() && ix < ENTRIES
      modifies global
      ensures View() == FreeId(old(View()), ix)
    {
      global[ix] := global[ix].(taken := true);
    }

    /** TransEBBIdBind on core my. */
    method IdBind(my: nat, ix: nat, b: Binding)
      requires Valid() && my < pics && ix < ENTRIES
      modifies global, local
      ensures View() == Bind(old(View()), ix, b)
    {
      ghost var s := View();
      global[ix] := global[ix].(binding := b);
      InvalidateCaches(my, ix);
      ghost var expected := Bind(s, ix, b).local;
      forall e | 0 <= e < local.Length ensures local[e] == expected[e] {
        assert e == Lx(e / ENTRIES, e % ENTRIES);
        BindMakesCold(s, ix, b, e / ENTRIES, e % ENTRIES);
      }
      assert local[..] == expected;
    }

    /** TransEBBIdInvalidateCaches: from the own core once around the ring of cores. */
    method InvalidateCaches(my: nat, ix: nat)
      requires Valid() && my < pics && ix < ENTRIES
      modifies local
      ensures forall p, i :: 0 <= p < pics && 0 <= i < ENTRIES ==>
                local[Lx(p, i)] == if i == ix then DefaultObj(g, Lx(p, i)) else old(local[Lx(p, i)])
    {
      var pic: nat := my;
      ghost var wrapped := false;
      while true
        invariant pic < pics && (wrapped ==> pic < my) && (!wrapped ==> pic >= my)
        invariant forall p, i :: 0 <= p < pics && 0 <= i < ENTRIES ==>
                    local[Lx(p, i)] ==
                    if i == ix && (if wrapped then p >= my || p < pic else my <= p < pic)
                    then DefaultObj(g, Lx(p, i)) else old(local[Lx(p, i)])
        decreases if wrapped then my - pic else pics + my - pic
      {
        if TestCoreUsed(global[ix], pic) {
          SetEntry(pic, ix);
        }
        wrapped := wrapped || pic + 1 == pics;
        pic := NextPic(pic, pics);
        if pic == my {
          break;
        }
      }
    }

    /** EBBInitLTrans of one local entry. */
    method SetEntry(pic: nat, ix: nat)
      requires Valid() && pic < pics && ix < ENTRIES
      modifies local
      ensures forall p, i :: 0 <= p < pics && 0 <= i < ENTRIES ==>
                local[Lx(p, i)] == if p == pic && i == ix then DefaultObj(g, Lx(p, i)) else old(local[Lx(p, i)])
    {
      local[Lx(pic, ix)] := DefaultObj(g, Lx(pic, ix));
    }

    /** locked_FindRepOn: walks the list from its head. */
    method FindRep(root: nat, el: nat) returns (rep: Option<nat>)
      requires root in roots
      ensures rep == FindRepOn(roots[root], el)
    {
      var list := roots[root];
      var i := 0;
      while i < |list|
        invariant i <= |list| && FindRepOn(list, el) == FindRepOn(list[i..], el)
      {
        if list[i].el == el {
          return Some(list[i].rep);
        }
        i := i + 1;
      }
      return None;
    }

    /** CObjEBBRootMulti_handleMiss up to the unlock: the location's rep, created if missing. */
    method RootRep(root: nat, el: nat) returns (rep: nat)
      requires root in roots
      modifies this
      ensures (rep, roots, brk) == HandleMiss(old(roots), old(brk), root, el)
    {
      var found := FindRep(root, el);
      if found.None? {
        rep := brk;
        brk := brk + WORD;
        roots := roots[root := [RepNode(rep, el)] + roots[root]];
      } else {
        rep := found.value;
      }
    }

    /** EBBCacheObj. */
    method Cache(pic: nat, lt: int, rep: nat)
      requires Valid() && 0 <= LtIndex(g, lt) < local.Length && 0 <= GtIndex(g, Lt2Gt(g, pic, lt)) < ENTRIES
      modifies global, local
      ensures View() == CacheObj(old(View()), pic, lt, rep)
    {
      var ix := GtIndex(g, Lt2Gt(g, pic, lt));
      local[LtIndex(g, lt)] := rep;
      global[ix] := global[ix].(corebv := global[ix].corebv + {pic});
    }

    /** GenericDefaultFunc on core pic, with the pointer it was entered with. */
    method GenericDefaultFunc(pic: nat, self: nat, fnum: nat) returns (out: Outcome)
      requires Valid() && InTables(View(), self) && IsFtableWord(View(), pic, self)
      modifies this, global, local
      ensures (View(), out) == DefaultFunc(old(View()), pic, self, fnum)
    {
      var lt := self - WORD;
      match global[GtIndex(g, Lt2Gt(g, pic, lt))].binding {
        case Unbound =>
          out := Crash;
        case Failing(rc) =>
          out := Failed(rc);
        case Shared(rep) =>
          Cache(pic, lt, rep);
          out := Ran(rep, fnum);
        case Multi(root) =>
          if root in roots {
            var rep := RootRep(root, pic);
            Cache(pic, lt, rep);
            out := Ran(rep, fnum);
          } else {
            out := Crash;
          }
      }
    }
  }

  /** The tables at the start: the global table zeroed, then every core's initLTable. What
      cached dispatch does from then on is what the theorems about runs from Boot say. */
  method Start(g: nat, pics: nat) returns (t: Tables)
    requires 0 < pics <= 64
    ensures fresh(t) && t.Valid() && t.View() == Boot(g, pics) && Inv(t.View())
  {
    t := new Tables(g, pics);
    for pic := 0 to pics
      invariant fresh(t) && fresh(t.local) && t.Valid() && t.g == g && t.pics == pics
      invariant t.roots == map[] && t.brk == LMem(g, pics)
      invariant t.global[..] == seq(ENTRIES, _ => Global(Unbound, false, {}))
      invariant forall e :: 0 <= e < pic * ENTRIES ==> t.local[e] == DefaultObj(g, e)
    {
      t.InitLTable(pic);
      forall e | 0 <= e < (pic + 1) * ENTRIES ensures t.local[e] == DefaultObj(g, e) {
        assert e == Lx(e / ENTRIES, e % ENTRIES);
      }
    }
    assert t.local[..] == Boot(g, pics).local;
  }
}
