/**
 EBB translation (l0/sys/trans.c, l0/sys/defFT.c, l0/cobj/CObjEBBRootMultiImp.c): a global
 table of bindings, one cached representative pointer per core and id, and the call path
 that falls through the default function table into the miss function. Binds and misses
 are atomic steps.
 Pointers are addresses: a table entry is four words, the second of which is the
 ftable word that a cold entry's first word points at.
 */
module Trans {
  import opened Common

  // The sizes of l0/lrt/ulnx: tables of 0x10_0000 bytes (LRT_TRANS_TBLSIZE), entries of 32
  // bytes (sizeof(struct lrt_trans)), 64 cores at most (LRT_PIC_MAX_PICS).
  const ENTRIES: nat := 0x8000   // entries of a table
  const PERPIC: nat := 0x200     // global entries of a core's own portion

  // ----- addresses (l0/lrt/ulnx/trans.h): GMem, then one LMem table per core

  function LMem(g: nat, pic: nat): nat { g + 0x10_0000 + pic * 0x10_0000 }

  function IdBase(g: nat): nat { LMem(g, 0) }

  /** The id whose global entry has index ix. */
  function IdOf(g: nat, ix: nat): nat { IdBase(g) + ix * 32 }

  function Id2Lt(g: nat, pic: nat, id: int): int { LMem(g, pic) + (id - IdBase(g)) }

  function Lt2Gt(g: nat, pic: nat, lt: int): int { g + (lt - LMem(g, pic)) }

  /** Which global entry a global-table address is. */
  function GtIndex(g: nat, gt: int): int { (gt - g) / 32 }

  /** The position of core pic's entry for ix among all local entries. */
  function Lx(pic: nat, ix: nat): nat { pic * ENTRIES + ix }

  /** Which local entry a local-table address is. */
  function LtIndex(g: nat, lt: int): int { (lt - IdBase(g)) / 32 }

  /** What EBBInitLTrans stores in the first word: the address of the second. */
  function DefaultObj(g: nat, e: nat): nat { IdBase(g) + e * 32 + WORD }

  // ----- roots

  /** A node of a root's list: representative and event location. */
  datatype RepNode = RepNode(rep: nat, el: nat)

  /** locked_FindRepOn: the first node for the location, from the head on. */
  function FindRepOn(list: seq<RepNode>, el: nat): Option<nat> {
    if list == [] then None
    else if list[0].el == el then Some(list[0].rep)
    else FindRepOn(list[1..], el)
  }

  /** A return code that is not EBBRC_SUCCESS. */
  type Failure = rc: int | rc < 0 witness -1

  /** What an id is bound to: nothing, a miss function that only fails, a shared
      representative, or a multi root. */
  datatype Binding = Unbound | Failing(rc: Failure) | Shared(rep: nat) | Multi(root: nat)

  /** What a call does: run function fnum of a representative, return an error code of the
      miss function, or jump through an unbound entry. */
  datatype Outcome = Ran(rep: nat, fnum: nat) | Failed(rc: Failure) | Crash

  // ----- slow dispatch: always through the bound root

  datatype Slow = Slow(bindings: seq<Binding>, roots: map<nat, seq<RepNode>>, brk: nat)

  /** handleMiss of a multi root on a location: the rep recorded there, or a new one. */
  function HandleMiss(roots: map<nat, seq<RepNode>>, brk: nat, root: nat, el: nat)
    : (r: (nat, map<nat, seq<RepNode>>, nat))
    requires root in roots
    ensures r.2 >= brk
  {
    match FindRepOn(roots[root], el)
    case Some(rep) => (rep, roots, brk)
    case None => (brk, roots[root := [RepNode(brk, el)] + roots[root]], brk + WORD)
  }

  function SlowCall(s: Slow, pic: nat, ix: nat, fnum: nat): (Slow, Outcome)
    requires ix < |s.bindings|
  {
    match s.bindings[ix]
    case Unbound => (s, Crash)
    case Failing(rc) => (s, Failed(rc))
    case Shared(rep) => (s, Ran(rep, fnum))
    case Multi(root) =>
      if root in s.roots then
        var (rep, roots, brk) := HandleMiss(s.roots, s.brk, root, pic);
        (s.(roots := roots, brk := brk), Ran(rep, fnum))
      else (s, Crash)
  }

  // ----- cached dispatch

  datatype Global = Global(binding: Binding, taken: bool, corebv: set<nat>)

  /** The tables, the roots and the next free address for a representative. */
  datatype State = State(
    g: nat,
    pics: nat,
    global: seq<Global>,
    local: seq<nat>,
    roots: map<nat, seq<RepNode>>,
    brk: nat)

  predicate Shape(s: State) {
    && 0 < s.pics <= 64
    && |s.global| == ENTRIES
    && |s.local| == s.pics * ENTRIES
    && s.brk >= LMem(s.g, s.pics)
  }

  /** EBBCacheObj: the rep goes into the local entry and the core into the bit vector of
      the global entry that belongs to the local one. */
  function CacheObj(s: State, pic: nat, lt: int, rep: nat): (r: State)
    requires Shape(s)
    requires 0 <= LtIndex(s.g, lt) < |s.local| && 0 <= GtIndex(s.g, Lt2Gt(s.g, pic, lt)) < ENTRIES
    ensures Shape(r)
  {
    var e, ix := LtIndex(s.g, lt), GtIndex(s.g, Lt2Gt(s.g, pic, lt));
    s.(local := s.local[e := rep], global := s.global[ix := s.global[ix].(corebv := s.global[ix].corebv + {pic})])
  }

  /** GenericDefaultFunc, entered with the pointer that a cold entry holds: the word before
      it is the local entry; its global entry's miss function finds the rep and caches it. */
  function DefaultFunc(s: State, pic: nat, self: nat, fnum: nat): (r: (State, Outcome))
    requires Shape(s)
    requires var lt := self - WORD;
             0 <= LtIndex(s.g, lt) < |s.local| && 0 <= GtIndex(s.g, Lt2Gt(s.g, pic, lt)) < ENTRIES
    ensures Shape(r.0)
  {
    var lt := self - WORD;
    match s.global[GtIndex(s.g, Lt2Gt(s.g, pic, lt))].binding
    case Unbound => (s, Crash)
    case Failing(rc) => (s, Failed(rc))
    case Shared(rep) => (CacheObj(s, pic, lt, rep), Ran(rep, fnum))
    case Multi(root) =>
      if root in s.roots then
        var (rep, roots, brk) := HandleMiss(s.roots, s.brk, root, pic);
        (CacheObj(s.(roots := roots, brk := brk), pic, lt, rep), Ran(rep, fnum))
      else (s, Crash)
  }

  /** An address inside the translation tables; no representative lives there. */
  predicate InTables(s: State, a: int) { s.g <= a < LMem(s.g, s.pics) }

  /** The ftable word of a local entry: it holds the address of the default functions. */
  predicate IsFtableWord(s: State, pic: nat, a: int) {
    && (a - WORD - IdBase(s.g)) % 32 == 0
    && 0 <= LtIndex(s.g, a - WORD) < |s.local|
    && 0 <= GtIndex(s.g, Lt2Gt(s.g, pic, a - WORD)) < ENTRIES
  }

  /** COBJ_EBBCALL on core pic: load the first word of the local entry and call through what
      it points at, which is a representative or the ftable word of a cold entry. */
  function Call(s: State, pic: nat, ix: nat, fnum: nat): (r: (State, Outcome))
    requires Shape(s) && pic < s.pics && ix < ENTRIES
    ensures Shape(r.0)
  {
    var obj := s.local[LtIndex(s.g, Id2Lt(s.g, pic, IdOf(s.g, ix)))];
    if !InTables(s, obj) then (s, Ran(obj, fnum))
    else if IsFtableWord(s, pic, obj) then DefaultFunc(s, pic, obj, fnum)
    else (s, Crash)
  }

  /** TransEBBIdInvalidateCaches as coded: the test of the bit is written with OR. */
  predicate TestCoreUsed(gt: Global, core: nat) {
    gt.corebv + {core} != {}
  }

  /** The test that the name announces. */
  predicate CoreUsed(gt: Global, core: nat) {
    gt.corebv * {core} != {}
  }

  /** The local table after the entries for ix of the cores below n that pass the test are reset. */
  function Reset(g: nat, gt: Global, local: seq<nat>, ix: nat, n: nat, test: (Global, nat) -> bool): (r: seq<nat>)
    requires n * ENTRIES <= |local| && ix < ENTRIES
    ensures |r| == |local|
  {
    if n == 0 then local
    else
      var r := Reset(g, gt, local, ix, n - 1, test);
      if test(gt, n - 1) then r[Lx(n - 1, ix) := DefaultObj(g, Lx(n - 1, ix))] else r
  }

  function Bind(s: State, ix: nat, b: Binding): (r: State)
    requires Shape(s) && ix < ENTRIES
    ensures Shape(r)
  {
    var gt := s.global[ix].(binding := b);
    s.(global := s.global[ix := gt], local := Reset(s.g, gt, s.local, ix, s.pics, TestCoreUsed))
  }

  // ----- ids

  /** TransEBBIdAlloc's scan of the entries from i below hi: the first that is not taken. */
  function FirstFree(global: seq<Global>, i: nat, hi: nat): (r: nat)
    requires i <= hi <= |global|
    ensures i <= r <= hi && (r < hi ==> !global[r].taken)
    ensures forall j :: i <= j < r ==> global[j].taken
    decreases hi - i
  {
    if i == hi || !global[i].taken then i else FirstFree(global, i + 1, hi)
  }

  /** TransEBBIdAlloc on a core: an entry of its own portion of the global table, or none. */
  function AllocId(s: State, pic: nat): (r: (State, Option<nat>))
    requires Shape(s) && pic < s.pics
    ensures Shape(r.0)
  {
    var hi := pic * PERPIC + PERPIC;
    var i := FirstFree(s.global, pic * PERPIC, hi);
    if i == hi then (s, None)
    else (s.(global := s.global[i := s.global[i].(taken := true)]), Some(i))
  }

  /** TransEBBIdFree: the mark it stores is the one that means allocated. */
  function FreeId(s: State, ix: nat): (r: State)
    requires Shape(s) && ix < ENTRIES
    ensures Shape(r)
  {
    s.(global := s.global[ix := s.global[ix].(taken := true)])
  }

  // ----- runs

  /** A call, a bind, addRepOn, a new root, the two id operations, and memory that a caller
      allocates for an object of its own. */
  datatype Action =
    | DoCall(pic: nat, ix: nat, fnum: nat)
    | DoBind(ix: nat, binding: Binding)
    | DoAdd(root: nat, el: nat, rep: nat)
    | DoRoot(root: nat)
    | DoAlloc(pic: nat)
    | DoFree(ix: nat)
    | DoNew

  datatype Output = Called(outcome: Outcome) | Id(ix: Option<nat>) | Silent

  /** The core at this location has cached no representative of the root but possibly rep. */
  predicate NoOtherCached(s: State, root: nat, el: nat, rep: nat)
    requires Shape(s)
  {
    forall ix :: 0 <= ix < ENTRIES && el < s.pics && s.global[ix].binding == Multi(root) ==>
      s.local[Lx(el, ix)] == DefaultObj(s.g, Lx(el, ix)) || s.local[Lx(el, ix)] == rep
  }

  /** What callers keep to: cores, ids and roots that exist, reps outside the tables, and
      addRepOn only where the core has cached no other rep of the root. */
  predicate Legal(s: State, a: Action)
    requires Shape(s)
  {
    match a
    case DoCall(pic, ix, _) => pic < s.pics && ix < ENTRIES
    case DoBind(ix, b) => ix < ENTRIES && (b.Shared? ==> !InTables(s, b.rep)) && (b.Multi? ==> b.root in s.roots)
    case DoAdd(root, el, rep) => root in s.roots && !InTables(s, rep) && NoOtherCached(s, root, el, rep)
    case DoRoot(root) => root !in s.roots
    case DoAlloc(pic) => pic < s.pics
    case DoFree(ix) => ix < ENTRIES
    case DoNew => true
  }

  function AddRepOn(roots: map<nat, seq<RepNode>>, root: nat, el: nat, rep: nat): map<nat, seq<RepNode>>
    requires root in roots
  {
    roots[root := [RepNode(rep, el)] + roots[root]]
  }

  function Step(s: State, a: Action): (r: (State, Output))
    requires Shape(s) && Legal(s, a)
    ensures Shape(r.0)
  {
    match a
    case DoCall(pic, ix, fnum) => var (r, out) := Call(s, pic, ix, fnum); (r, Called(out))
    case DoBind(ix, b) => (Bind(s, ix, b), Silent)
    case DoAdd(root, el, rep) => (s.(roots := AddRepOn(s.roots, root, el, rep)), Silent)
    case DoRoot(root) => (s.(roots := s.roots[root := []]), Silent)
    case DoAlloc(pic) => var (r, ix) := AllocId(s, pic); (r, Id(ix))
    case DoFree(ix) => (FreeId(s, ix), Silent)
    case DoNew => (s.(brk := s.brk + WORD), Silent)
  }

  predicate LegalRun(s: State, acts: seq<Action>)
    requires Shape(s)
    decreases acts
  {
    acts == [] || (Legal(s, acts[0]) && LegalRun(Step(s, acts[0]).0, acts[1..]))
  }

  /** The outputs of a run of the cached machine. */
  function Outputs(s: State, acts: seq<Action>): seq<Output>
    requires Shape(s) && LegalRun(s, acts)
    decreases acts
  {
    if acts == [] then [] else [Step(s, acts[0]).1] + Outputs(Step(s, acts[0]).0, acts[1..])
  }

  /** One action when every call is dispatched through the bound root. */
  function SlowTurn(s: Slow, a: Action): (Slow, seq<Outcome>) {
    match a
    case DoCall(pic, ix, fnum) =>
      if ix < |s.bindings| then var (r, out) := SlowCall(s, pic, ix, fnum); (r, [out]) else (s, [])
    case DoBind(ix, b) => (if ix < |s.bindings| then s.(bindings := s.bindings[ix := b]) else s, [])
    case DoAdd(root, el, rep) =>
      (if root in s.roots then s.(roots := AddRepOn(s.roots, root, el, rep)) else s, [])
    case DoRoot(root) => (s.(roots := s.roots[root := []]), [])
    case DoNew => (s.(brk := s.brk + WORD), [])
    case _ => (s, [])
  }

  /** The outcomes of the calls of a run that is dispatched slowly throughout. */
  function SlowOutputs(s: Slow, acts: seq<Action>): seq<Outcome>
    decreases acts
  {
    if acts == [] then [] else SlowTurn(s, acts[0]).1 + SlowOutputs(SlowTurn(s, acts[0]).0, acts[1..])
  }

  function Outcomes(outs: seq<Output>): seq<Outcome> {
    if outs == [] then []
    else (if outs[0].Called? then [outs[0].outcome] else []) + Outcomes(outs[1..])
  }

  // ----- the invariant: a warm entry holds what slow dispatch would find

  function Lookup(roots: map<nat, seq<RepNode>>, b: Binding, el: nat): Option<nat> {
    match b
    case Shared(rep) => Some(rep)
    case Multi(root) => if root in roots then FindRepOn(roots[root], el) else None
    case _ => None
  }

  ghost predicate EntryOk(s: State, pic: nat, ix: nat)
    requires Shape(s) && pic < s.pics && ix < ENTRIES
  {
    var obj := s.local[Lx(pic, ix)];
    obj == DefaultObj(s.g, Lx(pic, ix)) ||
    (pic in s.global[ix].corebv && Lookup(s.roots, s.global[ix].binding, pic) == Some(obj))
  }

  /** Representatives live outside the tables, below the next free address. */
  ghost predicate RepsOk(s: State) {
    && (forall root, i :: root in s.roots && 0 <= i < |s.roots[root]| ==> !InTables(s, s.roots[root][i].rep))
    && (forall ix :: 0 <= ix < |s.global| ==> s.global[ix].binding.Shared? ==> !InTables(s, s.global[ix].binding.rep))
  }

  ghost predicate Inv(s: State) {
    && Shape(s) && RepsOk(s)
    && forall pic, ix :: 0 <= pic < s.pics && 0 <= ix < ENTRIES ==> EntryOk(s, pic, ix)
  }

  /** From the pointer in a cold entry, minus one word, the code recovers the entry itself
      and from it the global entry of the id that was called. */
  lemma {:induction false} Recovered(s: State, pic: nat, ix: nat)
    requires Shape(s) && pic < s.pics && ix < ENTRIES
    ensures var e, self := Lx(pic, ix), DefaultObj(s.g, Lx(pic, ix));
            && e < |s.local| && InTables(s, self) && IsFtableWord(s, pic, self)
            && LtIndex(s.g, Id2Lt(s.g, pic, IdOf(s.g, ix))) == e
            && self - WORD == Id2Lt(s.g, pic, IdOf(s.g, ix))
            && LtIndex(s.g, self - WORD) == e
            && GtIndex(s.g, Lt2Gt(s.g, pic, self - WORD)) == ix
  {
  }

  // ----- every step keeps the invariant and agrees with slow dispatch

  function Abs(s: State): Slow {
    Slow(seq(|s.global|, i requires 0 <= i < |s.global| => s.global[i].binding), s.roots, s.brk)
  }

  lemma {:induction false} FindRepOnMember(list: seq<RepNode>, el: nat)
    ensures FindRepOn(list, el).Some? ==>
              exists i :: 0 <= i < |list| && list[i] == RepNode(FindRepOn(list, el).value, el)
    ensures FindRepOn(list, el).None? ==> forall i :: 0 <= i < |list| ==> list[i].el != el
  {
    if list != [] && list[0].el != el {
      FindRepOnMember(list[1..], el);
      if FindRepOn(list[1..], el).Some? {
        var i :| 0 <= i < |list[1..]| && list[1..][i] == RepNode(FindRepOn(list[1..], el).value, el);
        assert list[i + 1] == RepNode(FindRepOn(list, el).value, el);
      } else {
        assert forall i :: 0 < i < |list| ==> list[i] == list[1..][i - 1];
      }
    } else if list != [] {
      assert list[0] == RepNode(list[0].rep, el);
    }
  }

  /** Adding a rep for another location, or for one that has none, changes no other answer. */
  lemma {:induction false} PrependKeeps(list: seq<RepNode>, rep: nat, el: nat, other: nat)
    requires el == other ==> FindRepOn(list, el).None?
    ensures FindRepOn([RepNode(rep, el)] + list, other) ==
            if other == el then Some(rep) else FindRepOn(list, other)
  {
    assert ([RepNode(rep, el)] + list)[1..] == list;
  }

  /** A miss returns what the root then has on record for the location, leaves other locations
      and roots as they were, and a second miss returns the same and changes nothing. */
  lemma {:induction false} MissRecords(roots: map<nat, seq<RepNode>>, brk: nat, root: nat, el: nat, other: nat)
    requires root in roots && other != el
    ensures var (rep, after, next) := HandleMiss(roots, brk, root, el);
            && after.Keys == roots.Keys && FindRepOn(after[root], el) == Some(rep)
            && (FindRepOn(roots[root], el).Some? ==> after == roots && next == brk)
            && FindRepOn(after[root], other) == FindRepOn(roots[root], other)
            && (forall r :: r in roots && r != root ==> after[r] == roots[r])
            && HandleMiss(after, next, root, el) == (rep, after, next)
  {
    PrependKeeps(roots[root], brk, el, other);
  }

  /** TransEBBIdAlloc fails exactly when the core's own portion is used up; else it takes the
      first entry of it that was not taken, and only that. */
  lemma {:induction false} AllocIdTakesFirst(s: State, pic: nat)
    requires Shape(s) && pic < s.pics
    ensures var (r, id) := AllocId(s, pic);
            var lo, hi := pic * PERPIC, (pic + 1) * PERPIC;
            && (id.None? <==> forall i :: lo <= i < hi ==> s.global[i].taken)
            && (id.None? ==> r == s)
            && (id.Some? ==>
                  && lo <= id.value < hi && !s.global[id.value].taken && r.global[id.value].taken
                  && (forall i :: lo <= i < id.value ==> s.global[i].taken)
                  && (forall i :: 0 <= i < ENTRIES && i != id.value ==> r.global[i] == s.global[i])
                  && r.local == s.local && r.roots == s.roots)
  {
    var i := FirstFree(s.global, pic * PERPIC, pic * PERPIC + PERPIC);
    assert i < pic * PERPIC + PERPIC ==> !s.global[i].taken;
  }

  lemma {:induction false} LookupStable(roots: map<nat, seq<RepNode>>, root: nat, el: nat, rep: nat, b: Binding,
                                        other: nat)
    requires root in roots && FindRepOn(roots[root], el).None?
    ensures Lookup(roots, b, other).Some? ==>
              Lookup(AddRepOn(roots, root, el, rep), b, other) == Lookup(roots, b, other)
  {
    PrependKeeps(roots[root], rep, el, other);
  }

  lemma {:induction false} LxInjective(p: nat, i: nat, q: nat, j: nat)
    requires i < ENTRIES && j < ENTRIES && Lx(p, i) == Lx(q, j)
    ensures p == q && i == j
  {
  }

  /** Caching what slow dispatch finds keeps the invariant. */
  lemma {:induction false} CacheInv(s: State, pic: nat, ix: nat, rep: nat)
    requires Inv(s) && pic < s.pics && ix < ENTRIES
    requires Lookup(s.roots, s.global[ix].binding, pic) == Some(rep)
    ensures var self := DefaultObj(s.g, Lx(pic, ix));
            && IsFtableWord(s, pic, self) && Inv(CacheObj(s, pic, self - WORD, rep))
            && Abs(CacheObj(s, pic, self - WORD, rep)) == Abs(s)
  {
    Recovered(s, pic, ix);
    var r := CacheObj(s, pic, DefaultObj(s.g, Lx(pic, ix)) - WORD, rep);
    forall p, i | 0 <= p < s.pics && 0 <= i < ENTRIES ensures EntryOk(r, p, i) {
      assert EntryOk(s, p, i);
      if Lx(p, i) == Lx(pic, ix) { LxInjective(p, i, pic, ix); }
    }
    assert Abs(r).bindings == Abs(s).bindings;
  }

  /** Adding a rep where there was none keeps the invariant. */
  lemma {:induction false} AddInv(s: State, root: nat, el: nat, rep: nat, brk: nat)
    requires Inv(s) && root in s.roots && FindRepOn(s.roots[root], el).None?
    requires !InTables(s, rep) && brk >= s.brk
    ensures Inv(s.(roots := AddRepOn(s.roots, root, el, rep), brk := brk))
  {
    var r := s.(roots := AddRepOn(s.roots, root, el, rep), brk := brk);
    forall p, i | 0 <= p < s.pics && 0 <= i < ENTRIES ensures EntryOk(r, p, i) {
      assert EntryOk(s, p, i);
      LookupStable(s.roots, root, el, rep, s.global[i].binding, p);
    }
  }
}
