/**
 Which object a call runs, and whose entry an id is: a miss makes a representative that
 nothing else is, a bind takes effect on every core at once, and the cores' portions divide
 the table.
 */
module TransReps {
  import opened Common
  import opened Trans
  import opened TransTheorems

  // ----- what a call runs

  /** What is bound to the id is what runs: an error code, the shared representative, or the
      representative that is then on record for the core. */
  lemma {:induction false} CallRuns(s: State, pic: nat, ix: nat, fnum: nat)
    requires Inv(s) && pic < s.pics && ix < ENTRIES
    ensures var (r, out) := Call(s, pic, ix, fnum);
            match s.global[ix].binding
            case Unbound => out == Crash && r == s
            case Failing(rc) => out == Failed(rc) && r == s
            case Shared(rep) => out == Ran(rep, fnum) && r.roots == s.roots
            case Multi(root) =>
              if root in s.roots then
                && out.Ran? && out.fnum == fnum && root in r.roots
                && FindRepOn(r.roots[root], pic) == Some(out.rep)
                && (FindRepOn(s.roots[root], pic).Some? ==> r.roots == s.roots)
              else out == Crash && r == s
  {
    CallRefines(s, pic, ix, fnum);
    Recovered(s, pic, ix);
    assert EntryOk(s, pic, ix);
    if s.global[ix].binding.Multi? && s.global[ix].binding.root in s.roots {
      MissRecords(s.roots, s.brk, s.global[ix].binding.root, pic, pic + 1);
    }
  }

  /** A bind takes effect for the next call on every core, and other ids run what they ran. */
  lemma {:induction false} BindTakesEffect(s: State, ix: nat, b: Binding, pic: nat, other: nat, fnum: nat)
    requires Inv(s) && Legal(s, DoBind(ix, b)) && pic < s.pics && other < ENTRIES
    ensures var r := Step(s, DoBind(ix, b)).0;
            && Inv(r) && r.pics == s.pics && r.roots == s.roots
            && (var out := Step(r, DoCall(pic, ix, fnum)).1;
                && (b.Unbound? ==> out == Called(Crash))
                && (b.Failing? ==> out == Called(Failed(b.rc)))
                && (b.Shared? ==> out == Called(Ran(b.rep, fnum)))
                && (b.Multi? && FindRepOn(s.roots[b.root], pic).Some? ==>
                      out == Called(Ran(FindRepOn(s.roots[b.root], pic).value, fnum))))
            && (other != ix ==> Step(r, DoCall(pic, other, fnum)).1 == Step(s, DoCall(pic, other, fnum)).1)
  {
    BindInv(s, ix, b);
    CallRuns(Bind(s, ix, b), pic, ix, fnum);
    CallRefines(Bind(s, ix, b), pic, other, fnum);
    CallRefines(s, pic, other, fnum);
  }

  // ----- a miss makes a new object

  /** Every representative on record is in memory that was allocated before. */
  ghost predicate RepsBelow(roots: map<nat, seq<RepNode>>, brk: nat) {
    forall root, i :: root in roots && 0 <= i < |roots[root]| ==> roots[root][i].rep < brk
  }

  ghost predicate Below(s: State) {
    && RepsBelow(s.roots, s.brk)
    && forall ix :: 0 <= ix < |s.global| && s.global[ix].binding.Shared? ==> s.global[ix].binding.rep < s.brk
  }

  /** No root has it on record, and it is bound to no id. */
  ghost predicate Unused(s: State, rep: nat) {
    && !InTables(s, rep)
    && (forall root, i :: root in s.roots && 0 <= i < |s.roots[root]| ==> s.roots[root][i].rep != rep)
    && (forall ix :: 0 <= ix < |s.global| ==> s.global[ix].binding != Shared(rep))
  }

  /** A miss with nothing on record returns an object that no root has on record, and takes its
      memory out of what is free. */
  lemma {:induction false} MissMakesNew(roots: map<nat, seq<RepNode>>, brk: nat, root: nat, el: nat)
    requires root in roots && FindRepOn(roots[root], el).None? && RepsBelow(roots, brk)
    ensures var (rep, after, next) := HandleMiss(roots, brk, root, el);
            && (forall r, i :: r in roots && 0 <= i < |roots[r]| ==> roots[r][i].rep != rep)
            && brk <= rep < next && RepsBelow(after, next)
  {
  }

  /** A call that has to make its representative runs an object that was nobody's before. */
  lemma {:induction false} CallMakesNew(s: State, pic: nat, ix: nat, fnum: nat)
    requires Inv(s) && Below(s) && pic < s.pics && ix < ENTRIES
    requires Creates(s, DoCall(pic, ix, fnum))
    ensures var (r, out) := Call(s, pic, ix, fnum);
            out.Ran? && Unused(s, out.rep) && s.brk <= out.rep < r.brk && Below(r)
  {
    CallRefines(s, pic, ix, fnum);
    var root := s.global[ix].binding.root;
    MissMakesNew(s.roots, s.brk, root, pic);
    CallKeepsBindings(s, pic, ix, fnum);
  }

  lemma {:induction false} CallKeepsBindings(s: State, pic: nat, ix: nat, fnum: nat)
    requires Inv(s) && pic < s.pics && ix < ENTRIES
    ensures var r := Call(s, pic, ix, fnum).0;
            && |r.global| == |s.global| && r.brk >= s.brk
            && forall i :: 0 <= i < |s.global| ==> r.global[i].binding == s.global[i].binding
  {
  }

  /** The call finds nothing on record for its core at the root that its id is bound to. */
  predicate Creates(s: State, a: Action)
    requires Shape(s)
  {
    && a.DoCall? && a.ix < ENTRIES && s.global[a.ix].binding.Multi?
    && s.global[a.ix].binding.root in s.roots
    && FindRepOn(s.roots[s.global[a.ix].binding.root], a.pic).None?
  }

  /** An object that a caller binds or adds is one that exists. */
  predicate Exists(s: State, a: Action) {
    match a
    case DoBind(_, b) => b.Shared? ==> b.rep < s.brk
    case DoAdd(_, _, rep) => rep < s.brk
    case _ => true
  }

  lemma {:induction false} CallBelow(s: State, pic: nat, ix: nat, fnum: nat)
    requires Inv(s) && Below(s) && pic < s.pics && ix < ENTRIES
    ensures Below(Call(s, pic, ix, fnum).0)
  {
    CallRuns(s, pic, ix, fnum);
    CallKeepsBindings(s, pic, ix, fnum);
    if Creates(s, DoCall(pic, ix, fnum)) { CallMakesNew(s, pic, ix, fnum); }
  }

  /** Every step of callers that bind and add objects which exist keeps all representatives in
      allocated memory. */
  lemma {:induction false} StepBelow(s: State, a: Action)
    requires Inv(s) && Below(s) && Legal(s, a) && Exists(s, a)
    ensures Below(Step(s, a).0)
  {
    match a {
      case DoCall(pic, ix, fnum) => CallBelow(s, pic, ix, fnum);
      case DoAdd(root, el, rep) =>
        var r := Step(s, a).0;
        assert forall x, i :: x in r.roots && 0 <= i < |r.roots[x]| ==>
                 (x == root && i == 0) || r.roots[x][i] == s.roots[x][if x == root then i - 1 else i];
      case _ =>
    }
  }

  ghost predicate ExistRun(s: State, acts: seq<Action>)
    requires Shape(s) && LegalRun(s, acts)
    decreases acts
  {
    acts == [] || (Exists(s, acts[0]) && ExistRun(Step(s, acts[0]).0, acts[1..]))
  }

  lemma {:induction false} BootBelow(g: nat, pics: nat)
    requires 0 < pics <= 64
    ensures Below(Boot(g, pics)) && Inv(Boot(g, pics))
  {
  }

  /** The state before action i of a run. */
  function StateAt(s: State, acts: seq<Action>, i: nat): (r: State)
    requires Shape(s) && LegalRun(s, acts) && i <= |acts|
    ensures Shape(r)
    decreases i
  {
    if i == 0 then s else StateAt(Step(s, acts[0]).0, acts[1..], i - 1)
  }

  /** Over every run, a call that makes its representative runs an object that no root had on
      record then and that was bound to no id. */
  lemma {:induction false} RunMakesNew(s: State, acts: seq<Action>, i: nat)
    requires Inv(s) && Below(s) && LegalRun(s, acts) && ExistRun(s, acts)
    requires i < |acts| && Creates(StateAt(s, acts, i), acts[i])
    ensures i < |Outputs(s, acts)| && Outputs(s, acts)[i].Called? && Outputs(s, acts)[i].outcome.Ran?
    ensures Unused(StateAt(s, acts, i), Outputs(s, acts)[i].outcome.rep)
    decreases i
  {
    if i == 0 {
      CallMakesNew(s, acts[0].pic, acts[0].ix, acts[0].fnum);
    } else {
      StepInv(s, acts[0]);
      StepBelow(s, acts[0]);
      RunMakesNew(Step(s, acts[0]).0, acts[1..], i - 1);
    }
  }

  lemma {:induction false} StepGrows(s: State, a: Action)
    requires Shape(s) && Legal(s, a)
    ensures Step(s, a).0.brk >= s.brk
  {
  }

  lemma {:induction false} CreatedAbove(s: State, acts: seq<Action>, i: nat)
    requires Inv(s) && LegalRun(s, acts) && i < |acts| && Creates(StateAt(s, acts, i), acts[i])
    ensures i < |Outputs(s, acts)| && Outputs(s, acts)[i].Called? && Outputs(s, acts)[i].outcome.Ran?
    ensures Outputs(s, acts)[i].outcome.rep >= s.brk
    decreases i
  {
    if i == 0 {
      CallRefines(s, acts[0].pic, acts[0].ix, acts[0].fnum);
    } else {
      StepInv(s, acts[0]);
      StepGrows(s, acts[0]);
      CreatedAbove(Step(s, acts[0]).0, acts[1..], i - 1);
    }
  }

  lemma {:induction false} CreatedFirst(s: State, acts: seq<Action>)
    requires Inv(s) && LegalRun(s, acts) && acts != [] && Creates(s, acts[0])
    ensures var out := Outputs(s, acts)[0];
            out.Called? && out.outcome.Ran? && out.outcome.rep < Step(s, acts[0]).0.brk
  {
    CallRefines(s, acts[0].pic, acts[0].ix, acts[0].fnum);
  }

  /** Over every run, two calls that make their representatives, on whatever cores and through
      whatever roots, run different objects. */
  lemma {:induction false} CreatedDiffer(s: State, acts: seq<Action>, i: nat, j: nat)
    requires Inv(s) && LegalRun(s, acts) && i < j < |acts|
    requires Creates(StateAt(s, acts, i), acts[i]) && Creates(StateAt(s, acts, j), acts[j])
    ensures j < |Outputs(s, acts)|
    ensures var a, b := Outputs(s, acts)[i], Outputs(s, acts)[j];
            a.Called? && b.Called? && a.outcome.Ran? && b.outcome.Ran? && a.outcome.rep != b.outcome.rep
    decreases i
  {
    var r := Step(s, acts[0]).0;
    StepInv(s, acts[0]);
    if i == 0 {
      CreatedFirst(s, acts);
      CreatedAbove(r, acts[1..], j - 1);
    } else {
      CreatedDiffer(r, acts[1..], i - 1, j - 1);
    }
  }

  // ----- the portions

  /** Entry ix lies in the portion of core p. */
  predicate InPortion(p: nat, ix: nat) { p * PERPIC <= ix < (p + 1) * PERPIC }

  /** The global table is exactly as large as its entries, and every entry is in the portion of
      exactly one of the 64 cores. */
  lemma {:induction false} PortionsDivide(g: nat, ix: nat) returns (pic: nat)
    requires ix < ENTRIES
    ensures g + ENTRIES * 32 == LMem(g, 0)
    ensures pic < 64 && InPortion(pic, ix)
    ensures forall p: nat :: p < 64 && InPortion(p, ix) ==> p == pic
  {
    pic := ix / PERPIC;
  }

  ghost predicate PortionTaken(s: State, p: nat)
    requires Shape(s) && p < 64
  {
    forall i: nat :: InPortion(p, i) ==> s.global[i].taken
  }

  predicate AllTaken(s: State)
    requires Shape(s)
  {
    forall ix :: 0 <= ix < ENTRIES ==> s.global[ix].taken
  }

  lemma {:induction false} Exhausted(s: State, p: nat)
    requires Shape(s) && p < s.pics
    ensures AllocId(s, p).1.None? <==> PortionTaken(s, p)
  {
    AllocIdTakesFirst(s, p);
  }

  lemma {:induction false} PortionsTaken(s: State)
    requires Shape(s) && forall p: nat :: p < 64 ==> PortionTaken(s, p)
    ensures AllTaken(s)
  {
    forall ix | 0 <= ix < ENTRIES ensures s.global[ix].taken {
      var p := PortionsDivide(s.g, ix);
      assert PortionTaken(s, p);
    }
  }

  /** With all 64 cores, no core gets an id any more if and only if the whole table is taken. */
  lemma {:induction false} AllExhausted(s: State)
    requires Shape(s) && s.pics == 64
    ensures (forall p: nat :: p < 64 ==> AllocId(s, p).1.None?) <==> AllTaken(s)
  {
    forall p: nat | p < 64
      ensures AllocId(s, p).1.None? ==> PortionTaken(s, p)
      ensures AllTaken(s) ==> AllocId(s, p).1.None?
    {
      Exhausted(s, p);
    }
    if forall p: nat :: p < 64 ==> AllocId(s, p).1.None? {
      PortionsTaken(s);
    }
  }

  /** Over every run, an id that a core is given is an entry of that core's own portion, which
      was not taken before. */
  lemma {:induction false} IdFromOwnPortion(s: State, acts: seq<Action>, i: nat)
    requires Shape(s) && LegalRun(s, acts) && i < |acts| && acts[i].DoAlloc?
    ensures i < |Outputs(s, acts)| && Outputs(s, acts)[i].Id?
    ensures var id := Outputs(s, acts)[i].ix;
            id.Some? ==>
              && InPortion(acts[i].pic, id.value)
              && id.value < ENTRIES && !StateAt(s, acts, i).global[id.value].taken
    decreases i
  {
    if i == 0 {
      AllocIdTakesFirst(s, acts[0].pic);
    } else {
      IdFromOwnPortion(Step(s, acts[0]).0, acts[1..], i - 1);
    }
  }

  /** An id that was freed, whether it had been allocated or not, is never handed out. */
  lemma {:induction false} FreedNotHandedOut(s: State, acts: seq<Action>, i: nat, j: nat)
    requires Shape(s) && LegalRun(s, acts) && i < j < |acts| && acts[i].DoFree?
    ensures j < |Outputs(s, acts)| && Outputs(s, acts)[j] != Id(Some(acts[i].ix))
    decreases i
  {
    var r := Step(s, acts[0]).0;
    OutputsLength(s, acts);
    if i == 0 {
      TakenNotHandedOut(r, acts[1..], acts[0].ix, j - 1);
    } else {
      FreedNotHandedOut(r, acts[1..], i - 1, j - 1);
    }
  }

  lemma {:induction false} OutputsLength(s: State, acts: seq<Action>)
    requires Shape(s) && LegalRun(s, acts)
    ensures |Outputs(s, acts)| == |acts|
    decreases acts
  {
    if acts != [] {
      OutputsLength(Step(s, acts[0]).0, acts[1..]);
    }
  }
}
