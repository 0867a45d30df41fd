/** Cached dispatch against slow dispatch, rebinding, and ids, over every run. */
module TransTheorems {
  import opened Common
  import opened Trans

  // ----- calls

  /** A call runs what slow dispatch runs, whether its entry was cold or warm, leaves behind
      what slow dispatch leaves behind, and keeps the invariant. */
  lemma {:induction false} CallRefines(s: State, pic: nat, ix: nat, fnum: nat)
    requires Inv(s) && pic < s.pics && ix < ENTRIES
    ensures var (r, out) := Call(s, pic, ix, fnum);
            var (t, expected) := SlowCall(Abs(s), pic, ix, fnum);
            Inv(r) && Abs(r) == t && out == expected && r.pics == s.pics && r.g == s.g
  {
    Recovered(s, pic, ix);
    assert EntryOk(s, pic, ix);
    var b := s.global[ix].binding;
    if s.local[Lx(pic, ix)] == DefaultObj(s.g, Lx(pic, ix)) {
      ColdCall(s, pic, ix, fnum);
    } else {
      LookupOutside(s, b, pic);
    }
  }

  lemma {:induction false} LookupOutside(s: State, b: Binding, pic: nat)
    requires Inv(s)
    requires b.Shared? ==> !InTables(s, b.rep)
    ensures Lookup(s.roots, b, pic).Some? ==> !InTables(s, Lookup(s.roots, b, pic).value)
  {
    if b.Multi? && b.root in s.roots {
      FindRepOnMember(s.roots[b.root], pic);
    }
  }

  lemma {:induction false} ColdCall(s: State, pic: nat, ix: nat, fnum: nat)
    requires Inv(s) && pic < s.pics && ix < ENTRIES
    requires s.local[Lx(pic, ix)] == DefaultObj(s.g, Lx(pic, ix))
    ensures var (r, out) := Call(s, pic, ix, fnum);
            var (t, expected) := SlowCall(Abs(s), pic, ix, fnum);
            Inv(r) && Abs(r) == t && out == expected && r.pics == s.pics && r.g == s.g
  {
    Recovered(s, pic, ix);
    match s.global[ix].binding {
      case Shared(rep) =>
        CacheInv(s, pic, ix, rep);
      case Multi(root) =>
        if root in s.roots {
          match FindRepOn(s.roots[root], pic) {
            case Some(rep) =>
              CacheInv(s, pic, ix, rep);
            case None =>
              var t := s.(roots := AddRepOn(s.roots, root, pic, s.brk), brk := s.brk + WORD);
              AddInv(s, root, pic, s.brk, s.brk + WORD);
              PrependKeeps(s.roots[root], s.brk, pic, pic);
              CacheInv(t, pic, ix, s.brk);
          }
        }
      case _ =>
    }
  }

  // ----- binds

  /** What the invalidation loop leaves in each local entry. */
  lemma {:induction false} ResetAt(g: nat, gt: Global, local: seq<nat>, ix: nat, n: nat, test: (Global, nat) -> bool,
                                   p: nat, i: nat)
    requires n * ENTRIES <= |local| && ix < ENTRIES && i < ENTRIES && Lx(p, i) < |local|
    ensures Reset(g, gt, local, ix, n, test)[Lx(p, i)] ==
            if i == ix && p < n && test(gt, p) then DefaultObj(g, Lx(p, i)) else local[Lx(p, i)]
  {
    if n > 0 {
      ResetAt(g, gt, local, ix, n - 1, test, p, i);
      if Lx(p, i) == Lx(n - 1, ix) { LxInjective(p, i, n - 1, ix); }
    }
  }

  /** After a bind every core's entry for the id is cold, so no core can still reach a rep of
      the old binding through it; all other entries are as they were. */
  lemma {:induction false} BindMakesCold(s: State, ix: nat, b: Binding, p: nat, i: nat)
    requires Shape(s) && ix < ENTRIES && p < s.pics && i < ENTRIES
    ensures Bind(s, ix, b).local[Lx(p, i)] == if i == ix then DefaultObj(s.g, Lx(p, i)) else s.local[Lx(p, i)]
  {
    ResetAt(s.g, s.global[ix].(binding := b), s.local, ix, s.pics, TestCoreUsed, p, i);
  }

  lemma {:induction false} BindInv(s: State, ix: nat, b: Binding)
    requires Inv(s) && ix < ENTRIES && (b.Shared? ==> !InTables(s, b.rep))
    ensures Inv(Bind(s, ix, b))
    ensures Abs(Bind(s, ix, b)) == Abs(s).(bindings := Abs(s).bindings[ix := b])
  {
    var r := Bind(s, ix, b);
    forall p, i | 0 <= p < s.pics && 0 <= i < ENTRIES ensures EntryOk(r, p, i) {
      assert EntryOk(s, p, i);
      BindMakesCold(s, ix, b, p, i);
    }
    assert Abs(r).bindings == Abs(s).bindings[ix := b];
  }

  lemma {:induction false} UsedBit(gt: Global, core: nat)
    ensures CoreUsed(gt, core) <==> core in gt.corebv
    ensures TestCoreUsed(gt, core)
  {
    assert core in gt.corebv + {core};
    if core in gt.corebv { assert core in gt.corebv * {core}; }
  }

  /** The bit vector never misses a warm entry, so the test that was meant instead of the OR
      would skip only entries that are cold already: both loops leave the same table. */
  lemma {:induction false} IntendedTestWouldDo(s: State, ix: nat, b: Binding)
    requires Inv(s) && ix < ENTRIES
    ensures var gt := s.global[ix].(binding := b);
            Reset(s.g, gt, s.local, ix, s.pics, CoreUsed) == Reset(s.g, gt, s.local, ix, s.pics, TestCoreUsed)
  {
    var gt := s.global[ix].(binding := b);
    var x, y := Reset(s.g, gt, s.local, ix, s.pics, CoreUsed), Reset(s.g, gt, s.local, ix, s.pics, TestCoreUsed);
    forall e | 0 <= e < |x| ensures x[e] == y[e] {
      var p, i := e / ENTRIES, e % ENTRIES;
      assert e == Lx(p, i);
      assert EntryOk(s, p, i);
      ResetAt(s.g, gt, s.local, ix, s.pics, CoreUsed, p, i);
      ResetAt(s.g, gt, s.local, ix, s.pics, TestCoreUsed, p, i);
      UsedBit(gt, p);
    }
  }

  // ----- the tables at the start

  /** The tables as trans_init leaves them: nothing bound, nothing taken, every entry cold. */
  function Boot(g: nat, pics: nat): (s: State)
    requires 0 < pics <= 64
    ensures Inv(s)
  {
    var s := State(g, pics, seq(ENTRIES, _ => Global(Unbound, false, {})),
                   seq(pics * ENTRIES, e requires e >= 0 => DefaultObj(g, e)), map[], LMem(g, pics));
    assert forall pic, ix :: 0 <= pic < pics && 0 <= ix < ENTRIES ==> EntryOk(s, pic, ix);
    s
  }

  // ----- the other steps

  /** Whatever is called on whatever core, cached dispatch does what slow dispatch does. */
  ghost predicate DispatchAgrees(s: State)
    requires Shape(s)
  {
    forall pic, ix, fnum :: 0 <= pic < s.pics && 0 <= ix < ENTRIES && 0 <= fnum ==>
      Call(s, pic, ix, fnum).1 == SlowCall(Abs(s), pic, ix, fnum).1
  }

  lemma {:induction false} AddRepOnKeepsInv(s: State, root: nat, el: nat, rep: nat)
    requires Inv(s) && root in s.roots && !InTables(s, rep)
    ensures Inv(s.(roots := AddRepOn(s.roots, root, el, rep))) <==> NoOtherCached(s, root, el, rep)
  {
    var r := s.(roots := AddRepOn(s.roots, root, el, rep));
    forall p, i | 0 <= p < s.pics && 0 <= i < ENTRIES
      ensures EntryOk(r, p, i) <==>
              (p == el && s.global[i].binding == Multi(root) ==>
                 s.local[Lx(p, i)] == DefaultObj(s.g, Lx(p, i)) || s.local[Lx(p, i)] == rep)
    {
      assert EntryOk(s, p, i);
      assert (r.roots[root])[1..] == s.roots[root];
    }
  }

  /** A core that has cached another representative goes on running it, while the root has the
      new one on record. */
  lemma {:induction false} StaleCall(s: State, root: nat, el: nat, rep: nat, ix: nat, fnum: nat)
    requires Inv(s) && root in s.roots && !InTables(s, rep) && el < s.pics && ix < ENTRIES
    requires s.global[ix].binding == Multi(root)
    requires s.local[Lx(el, ix)] != DefaultObj(s.g, Lx(el, ix)) && s.local[Lx(el, ix)] != rep
    ensures var r := s.(roots := AddRepOn(s.roots, root, el, rep));
            && Call(r, el, ix, fnum).1 == Ran(s.local[Lx(el, ix)], fnum)
            && SlowCall(Abs(r), el, ix, fnum).1 == Ran(rep, fnum)
  {
    Recovered(s, el, ix);
    assert EntryOk(s, el, ix);
    LookupOutside(s, s.global[ix].binding, el);
  }

  /** After addRepOn cached and slow dispatch agree on every call if and only if the core at the
      location had cached no other representative of the root. */
  lemma {:induction false} AddRepOnAgreesIff(s: State, root: nat, el: nat, rep: nat)
    requires Inv(s) && root in s.roots && !InTables(s, rep)
    ensures DispatchAgrees(s.(roots := AddRepOn(s.roots, root, el, rep))) <==> NoOtherCached(s, root, el, rep)
  {
    var r := s.(roots := AddRepOn(s.roots, root, el, rep));
    AddRepOnKeepsInv(s, root, el, rep);
    if NoOtherCached(s, root, el, rep) {
      forall pic, ix, fnum | 0 <= pic < r.pics && 0 <= ix < ENTRIES && 0 <= fnum
        ensures Call(r, pic, ix, fnum).1 == SlowCall(Abs(r), pic, ix, fnum).1
      {
        CallRefines(r, pic, ix, fnum);
      }
    } else {
      var ix: nat :| ix < ENTRIES && el < s.pics && s.global[ix].binding == Multi(root) &&
        !(s.local[Lx(el, ix)] == DefaultObj(s.g, Lx(el, ix)) || s.local[Lx(el, ix)] == rep);
      StaleCall(s, root, el, rep, ix, 0);
      assert Call(r, el, ix, 0).1 != SlowCall(Abs(r), el, ix, 0).1;
    }
  }

  /** Tables just booted, a new root bound to the first id and called once on core 0, which
      thereby has cached the representative that the root made. */
  function Called(g: nat, pics: nat, root: nat): State
    requires 0 < pics <= 64
  {
    var s := Boot(g, pics);
    var bound := Bind(s.(roots := s.roots[root := []]), 0, Multi(root));
    Call(bound, 0, 0, 0).0
  }

  lemma {:induction false} CalledCaches(g: nat, pics: nat, root: nat)
    requires 0 < pics <= 64
    ensures var s, made := Called(g, pics, root), LMem(g, pics);
            && Inv(s) && s.g == g && s.pics == pics && root in s.roots
            && s.global[0].binding == Multi(root) && s.local[Lx(0, 0)] == made
  {
    var s := Boot(g, pics);
    RootInv(s, root);
    var rooted := s.(roots := s.roots[root := []]);
    BindInv(rooted, 0, Multi(root));
    BindMakesCold(rooted, 0, Multi(root), 0, 0);
    var bound := Bind(rooted, 0, Multi(root));
    Recovered(bound, 0, 0);
    CallRefines(bound, 0, 0, 0);
    assert FindRepOn(bound.roots[root], 0).None?;
  }

  /** An input for which they disagree: core 0 has called once, then a second representative is
      added for it; the next call on core 0 runs the old one. */
  lemma {:induction false} AddRepOnCanDisagree(g: nat, pics: nat, root: nat, rep: nat, fnum: nat)
    requires 0 < pics <= 64 && rep > LMem(g, pics)
    ensures var s := Called(g, pics, root);
            && Shape(s) && root in s.roots
            && var r := s.(roots := AddRepOn(s.roots, root, 0, rep));
               Call(r, 0, 0, fnum).1 == Ran(LMem(g, pics), fnum) && SlowCall(Abs(r), 0, 0, fnum).1 == Ran(rep, fnum)
  {
    CalledCaches(g, pics, root);
    StaleCall(Called(g, pics, root), root, 0, rep, 0, fnum);
  }

  lemma {:induction false} TakenInv(s: State, ix: nat)
    requires Inv(s) && ix < ENTRIES
    ensures var r := s.(global := s.global[ix := s.global[ix].(taken := true)]);
            Inv(r) && Abs(r) == Abs(s)
  {
    var r := s.(global := s.global[ix := s.global[ix].(taken := true)]);
    forall p, i | 0 <= p < s.pics && 0 <= i < ENTRIES ensures EntryOk(r, p, i) {
      assert EntryOk(s, p, i);
    }
    assert Abs(r).bindings == Abs(s).bindings;
  }

  lemma {:induction false} RootInv(s: State, root: nat)
    requires Inv(s) && root !in s.roots
    ensures Inv(s.(roots := s.roots[root := []]))
  {
    var r := s.(roots := s.roots[root := []]);
    forall p, i | 0 <= p < s.pics && 0 <= i < ENTRIES ensures EntryOk(r, p, i) {
      assert EntryOk(s, p, i);
    }
  }

  lemma {:induction false} NewInv(s: State)
    requires Inv(s)
    ensures Inv(s.(brk := s.brk + WORD))
  {
    var r := s.(brk := s.brk + WORD);
    forall p, i | 0 <= p < s.pics && 0 <= i < ENTRIES ensures EntryOk(r, p, i) {
      assert EntryOk(s, p, i);
    }
  }

  lemma {:induction false} StepInv(s: State, a: Action)
    requires Inv(s) && Legal(s, a)
    ensures Inv(Step(s, a).0)
  {
    match a {
      case DoCall(pic, ix, fnum) => CallRefines(s, pic, ix, fnum);
      case DoBind(ix, b) => BindInv(s, ix, b);
      case DoAdd(root, el, rep) => AddRepOnKeepsInv(s, root, el, rep);
      case DoRoot(root) => RootInv(s, root);
      case DoAlloc(pic) =>
        var i := FirstFree(s.global, pic * PERPIC, pic * PERPIC + PERPIC);
        if i < pic * PERPIC + PERPIC { TakenInv(s, i); }
      case DoFree(ix) => TakenInv(s, ix);
      case DoNew => NewInv(s);
    }
  }

  // ----- whole runs

  lemma {:induction false} SlowStep(s: State, a: Action)
    requires Inv(s) && Legal(s, a)
    ensures SlowTurn(Abs(s), a) == (Abs(Step(s, a).0), Outcomes([Step(s, a).1]))
  {
    var out := Step(s, a).1;
    assert Outcomes([out]) == if out.Called? then [out.outcome] else [] by {
      assert [out][1..] == [];
    }
    match a {
      case DoCall(pic, ix, fnum) => CallRefines(s, pic, ix, fnum);
      case DoBind(ix, b) => BindInv(s, ix, b);
      case DoAdd(root, el, rep) =>
      case DoRoot(root) =>
      case DoAlloc(pic) =>
        var i := FirstFree(s.global, pic * PERPIC, pic * PERPIC + PERPIC);
        if i < pic * PERPIC + PERPIC { TakenInv(s, i); }
      case DoFree(ix) => TakenInv(s, ix);
      case DoNew =>
    }
  }

  /** Cached dispatch refines slow dispatch: over every legal run, with any rebinding, each
      call does what the same call does when it goes through the bound root. */
  lemma {:induction false} CachedRefinesSlow(s: State, acts: seq<Action>)
    requires Inv(s) && LegalRun(s, acts)
    ensures Outcomes(Outputs(s, acts)) == SlowOutputs(Abs(s), acts)
    decreases acts
  {
    if acts != [] {
      var (r, out) := Step(s, acts[0]);
      StepInv(s, acts[0]);
      CachedRefinesSlow(r, acts[1..]);
      SlowStep(s, acts[0]);
      assert ([out] + Outputs(r, acts[1..]))[1..] == Outputs(r, acts[1..]);
      assert [out][1..] == [];
    }
  }

  // ----- ids

  /** A taken entry stays taken. */
  lemma {:induction false} TakenStays(s: State, a: Action, ix: nat)
    requires Shape(s) && Legal(s, a) && ix < ENTRIES && s.global[ix].taken
    ensures Step(s, a).0.global[ix].taken
  {
  }

  /** An id that is taken is never handed out by a later step of the run, on any core. */
  lemma {:induction false} TakenNotHandedOut(s: State, acts: seq<Action>, ix: nat, j: nat)
    requires Shape(s) && LegalRun(s, acts) && ix < ENTRIES && s.global[ix].taken
    requires j < |Outputs(s, acts)|
    ensures Outputs(s, acts)[j] != Id(Some(ix))
    decreases acts
  {
    if j > 0 {
      TakenStays(s, acts[0], ix);
      TakenNotHandedOut(Step(s, acts[0]).0, acts[1..], ix, j - 1);
    }
  }

  /** No id is ever handed out twice, whatever is freed in between and whoever asks. */
  lemma {:induction false} NoIdTwice(s: State, acts: seq<Action>, i: nat, j: nat)
    requires Shape(s) && LegalRun(s, acts) && i < j < |Outputs(s, acts)|
    requires Outputs(s, acts)[i].Id? && Outputs(s, acts)[i].ix.Some?
    ensures Outputs(s, acts)[j] != Outputs(s, acts)[i]
    decreases acts
  {
    var r := Step(s, acts[0]).0;
    if i == 0 {
      TakenNotHandedOut(r, acts[1..], Outputs(s, acts)[0].ix.value, j - 1);
    } else {
      NoIdTwice(r, acts[1..], i - 1, j - 1);
    }
  }
}
