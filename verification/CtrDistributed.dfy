/**
 The distributed counter of misc/CtrPrimDistributed.c: every representative counts in a
 local machine word, and val adds the words up while other cores go on counting and new
 representatives are prepended to the root's list. The list is kept in the order of
 creation: node k (from 1) is the k-th representative, its next is node k - 1, and 0 is
 NULL, so the head is the number of representatives.
 */
module CtrDistributed {
  import opened Common

  /** A caller of val: not in a call; at a node, with the sum so far and the incs and decs
      there had been when it read the head; returned, with what it returned, the counts
      when it began and the counts when it ended. */
  datatype Reader =
    | Idle
    | Reading(node: nat, val: nat, incs0: nat, decs0: nat)
    | Done(val: nat, incs0: nat, decs0: nat, incs1: nat, decs1: nat)

  /** The local values, the readers, and how many incs and decs there have been. */
  datatype State = State(local: seq<nat>, readers: seq<Reader>, incs: nat, decs: nat)

  datatype Action = CreateRep | Inc(rep: nat) | Dec(rep: nat) | Val(t: nat) | Go(t: nat)

  function Init(readers: nat): State {
    State([], seq(readers, _ => Idle), 0, 0)
  }

  function Up(x: nat): nat { (x + 1) % POW64 }

  function Down(x: nat): nat { (x + POW64 - 1) % POW64 }

  /** One turn of the loop of val: the value of the node is added, or the end is reached. */
  function Read(s: State, t: nat): State
    requires t < |s.readers| && s.readers[t].Reading?
  {
    var Reading(node, val, i, d) := s.readers[t];
    if 0 < node <= |s.local|
    then s.(readers := s.readers[t := Reading(node - 1, (val + s.local[node - 1]) % POW64, i, d)])
    else s.(readers := s.readers[t := Done(val, i, d, s.incs, s.decs)])
  }

  function Step(s: State, a: Action): State {
    match a
    case CreateRep => s.(local := s.local + [0])
    case Inc(r) =>
      if r < |s.local| then s.(local := s.local[r := Up(s.local[r])], incs := s.incs + 1) else s
    case Dec(r) =>
      if r < |s.local| then s.(local := s.local[r := Down(s.local[r])], decs := s.decs + 1) else s
    case Val(t) =>
      if t < |s.readers| && !s.readers[t].Reading?
      then s.(readers := s.readers[t := Reading(|s.local|, 0, s.incs, s.decs)])
      else s
    case Go(t) =>
      if t < |s.readers| && s.readers[t].Reading? then Read(s, t) else s
  }

  function Run(s: State, acts: seq<Action>): State {
    if acts == [] then s else Step(Run(s, acts[..|acts| - 1]), acts[|acts| - 1])
  }

  // ----- sums

  function Sum(xs: seq<nat>): nat {
    if xs == [] then 0 else Sum(xs[..|xs| - 1]) + xs[|xs| - 1]
  }

  lemma {:induction false} SumUpdate(xs: seq<nat>, k: nat, r: nat, v: nat)
    requires k <= |xs| && r < |xs|
    ensures Sum(xs[r := v][..k]) == Sum(xs[..k]) + if r < k then v - xs[r] else 0
  {
    if k > 0 {
      var ys := xs[r := v];
      assert ys[..k][..k - 1] == ys[..k - 1] && xs[..k][..k - 1] == xs[..k - 1];
      SumUpdate(xs, k - 1, r, v);
    }
  }

  lemma {:induction false} SumSnoc(xs: seq<nat>, k: nat)
    requires k < |xs|
    ensures Sum(xs[..k + 1]) == Sum(xs[..k]) + xs[k]
  {
    assert xs[..k + 1][..k] == xs[..k];
  }

  /** Equal as machine words. */
  predicate SameWord(a: int, b: int) { (a - b) % POW64 == 0 }

  lemma {:induction false} SameWordShift(a: int, b: int, a': int, b': int, k: int)
    requires SameWord(a, b) && a' - b' == a - b + k * POW64
    ensures SameWord(a', b')
  {
    var q := (a - b) / POW64;
    assert a - b == q * POW64;
    assert a' - b' == (q + k) * POW64;
  }

  /** Adding a word to a sum modulo the word size takes it out of the rest. */
  lemma {:induction false} AddWord(v: nat, x: nat, rest: nat, total: int)
    requires SameWord(v + (rest + x), total)
    ensures SameWord((v + x) % POW64 + rest, total)
  {
    var q := (v + x) / POW64;
    assert v + x == q * POW64 + (v + x) % POW64;
    SameWordShift(v + (rest + x), total, (v + x) % POW64 + rest, total, -q);
  }

  // ----- what holds in every run

  ghost predicate WordsOk(s: State) {
    forall r :: 0 <= r < |s.local| ==> s.local[r] < POW64
  }

  /** The local words add up to the incs less the decs, whichever of them wrapped. */
  ghost predicate Conserved(s: State) {
    SameWord(Sum(s.local), s.incs - s.decs)
  }

  /** The word v is the count (incs0 less decs0) with `up` more incs and `down` more decs, of
      those that there had been when the counts were incs1 and decs1. */
  predicate Explains(v: int, incs0: nat, decs0: nat, incs1: nat, decs1: nat, up: nat, down: nat) {
    SameWord(v, incs0 + up - decs0 - down) && incs0 + up <= incs1 && decs0 + down <= decs1
  }

  ghost predicate Explained(v: int, incs0: nat, decs0: nat, incs1: nat, decs1: nat) {
    exists up: nat, down: nat :: Explains(v, incs0, decs0, incs1, decs1, up, down)
  }

  /** What a reader has: its sum and the words it has not read yet make up the count at its
      start with some of the incs and some of the decs since. */
  ghost predicate Consistent(s: State, r: Reader) {
    match r
    case Idle => true
    case Reading(node, val, i, d) =>
      && node <= |s.local| && val < POW64 && i <= s.incs && d <= s.decs
      && Explained(val + Sum(s.local[..node]), i, d, s.incs, s.decs)
    case Done(val, i, d, i1, d1) =>
      val < POW64 && i <= i1 && d <= d1 && Explained(val, i, d, i1, d1)
  }

  ghost predicate Inv(s: State) {
    && WordsOk(s) && Conserved(s)
    && forall t :: 0 <= t < |s.readers| ==> Consistent(s, s.readers[t])
  }

  lemma {:induction false} CreateConsistent(s: State, r: Reader)
    requires Consistent(s, r)
    ensures Consistent(Step(s, CreateRep), r)
  {
    if r.Reading? {
      assert (s.local + [0])[..r.node] == s.local[..r.node];
    }
  }

  lemma {:induction false} CreateInv(s: State)
    requires Inv(s)
    ensures Inv(Step(s, CreateRep))
  {
    var ys := s.local + [0];
    assert ys[..|ys| - 1] == s.local;
    forall t | 0 <= t < |s.readers| ensures Consistent(Step(s, CreateRep), s.readers[t]) {
      CreateConsistent(s, s.readers[t]);
    }
  }

  lemma {:induction false} SetConserved(s: State, rep: nat, v: nat, incs: nat, decs: nat, k: int)
    requires Conserved(s) && rep < |s.local|
    requires v - s.local[rep] == (incs - decs) - (s.incs - s.decs) + k * POW64
    ensures SameWord(Sum(s.local[rep := v]), incs - decs)
  {
    var n := |s.local|;
    var ys := s.local[rep := v];
    SumUpdate(s.local, n, rep, v);
    assert ys[..n] == ys && s.local[..n] == s.local;
    SameWordShift(Sum(s.local), s.incs - s.decs, Sum(ys), incs - decs, k);
  }

  lemma {:induction false} CountConserved(s: State, a: Action)
    requires WordsOk(s) && Conserved(s) && (a.Inc? || a.Dec?)
    ensures WordsOk(Step(s, a)) && Conserved(Step(s, a))
  {
    if a.rep < |s.local| {
      var x := s.local[a.rep];
      if a.Inc? {
        SetConserved(s, a.rep, Up(x), s.incs + 1, s.decs, if x + 1 == POW64 then -1 else 0);
      } else {
        SetConserved(s, a.rep, Down(x), s.incs, s.decs + 1, if x == 0 then 1 else 0);
      }
    }
  }

  /** A word changed by one, up to a multiple of the word size. */
  lemma {:induction false} WordStep(x: nat)
    requires x < POW64
    ensures Up(x) < POW64 && (Up(x) == x + 1 || Up(x) == x + 1 - POW64)
    ensures Down(x) < POW64 && (Down(x) == x - 1 || Down(x) == x - 1 + POW64)
  {
  }

  /** Changing word rep by one more inc or dec, up to a multiple of the word size, changes in
      the same way what explains the sum of the first words, if rep is among them. */
  lemma {:induction false} ExplainedStep(local: seq<nat>, node: nat, val: nat, rep: nat, v: nat, k: int,
                                         i: nat, d: nat, s: (nat, nat), r: (nat, nat))
    requires node <= |local| && rep < |local| && Explained(val + Sum(local[..node]), i, d, s.0, s.1)
    requires || (r == (s.0 + 1, s.1) && v == local[rep] + 1 + k * POW64)
             || (r == (s.0, s.1 + 1) && v == local[rep] - 1 + k * POW64)
    ensures Explained(val + Sum(local[rep := v][..node]), i, d, r.0, r.1)
  {
    var before, after := val + Sum(local[..node]), val + Sum(local[rep := v][..node]);
    var up: nat, down: nat :| Explains(before, i, d, s.0, s.1, up, down);
    SumUpdate(local, node, rep, v);
    if rep >= node {
      assert Explains(after, i, d, r.0, r.1, up, down);
    } else {
      var up', down' := up + (r.0 - s.0), down + (r.1 - s.1);
      SameWordShift(before, i + up - d - down, after, i + up' - d - down', k);
      assert Explains(after, i, d, r.0, r.1, up', down');
    }
  }

  /** An inc or a dec behind a reader does not concern it; one on a word it has still to read
      joins those that explain its sum. */
  lemma {:induction false} CountConsistent(s: State, a: Action, r: Reader)
    requires WordsOk(s) && (a.Inc? || a.Dec?) && a.rep < |s.local| && Consistent(s, r) && r.Reading?
    ensures Consistent(Step(s, a), r)
  {
    var x, t := s.local[a.rep], Step(s, a);
    WordStep(x);
    if a.Inc? {
      var k := if Up(x) == x + 1 then 0 else -1;
      ExplainedStep(s.local, r.node, r.val, a.rep, Up(x), k, r.incs0, r.decs0, (s.incs, s.decs), (t.incs, t.decs));
    } else {
      var k := if Down(x) + 1 == x then 0 else 1;
      ExplainedStep(s.local, r.node, r.val, a.rep, Down(x), k, r.incs0, r.decs0, (s.incs, s.decs), (t.incs, t.decs));
    }
  }

  lemma {:induction false} CountInv(s: State, a: Action)
    requires Inv(s) && (a.Inc? || a.Dec?)
    ensures Inv(Step(s, a))
  {
    CountConserved(s, a);
    if a.rep < |s.local| {
      forall t | 0 <= t < |s.readers| ensures Consistent(Step(s, a), s.readers[t]) {
        assert Consistent(s, s.readers[t]);
        if s.readers[t].Reading? { CountConsistent(s, a, s.readers[t]); }
      }
    }
  }

  lemma {:induction false} ReadWord(s: State, node: nat, val: nat, i: nat, d: nat)
    requires 0 < node <= |s.local| && Explained(val + Sum(s.local[..node]), i, d, s.incs, s.decs)
    ensures Explained((val + s.local[node - 1]) % POW64 + Sum(s.local[..node - 1]), i, d, s.incs, s.decs)
  {
    var before := val + Sum(s.local[..node]);
    var up: nat, down: nat :| Explains(before, i, d, s.incs, s.decs, up, down);
    SumSnoc(s.local, node - 1);
    var x := s.local[node - 1];
    var after := (val + x) % POW64 + Sum(s.local[..node - 1]);
    AddWord(val, x, Sum(s.local[..node - 1]), i + up - d - down);
    assert Explains(after, i, d, s.incs, s.decs, up, down);
  }

  lemma {:induction false} ReadConsistent(s: State, t: nat)
    requires WordsOk(s) && t < |s.readers| && s.readers[t].Reading? && Consistent(s, s.readers[t])
    ensures Consistent(Read(s, t), Read(s, t).readers[t])
  {
    var Reading(node, val, i, d) := s.readers[t];
    if node > 0 {
      ReadWord(s, node, val, i, d);
    } else {
      assert s.local[..0] == [];
    }
  }

  /** A val begins: what it will read makes up the count. */
  lemma {:induction false} ValConsistent(s: State, t: nat)
    requires Conserved(s) && t < |s.readers| && !s.readers[t].Reading?
    ensures Consistent(Step(s, Val(t)), Step(s, Val(t)).readers[t])
  {
    assert s.local[..|s.local|] == s.local;
    assert Explains(0 + Sum(s.local[..|s.local|]), s.incs, s.decs, s.incs, s.decs, 0, 0);
  }

  lemma {:induction false} OthersConsistent(s: State, a: Action, t: nat)
    requires Inv(s) && (a == Val(t) || a == Go(t))
    ensures forall u :: 0 <= u < |s.readers| && u != t ==>
              u < |Step(s, a).readers| && Consistent(Step(s, a), Step(s, a).readers[u])
  {
    var r := Step(s, a);
    forall u | 0 <= u < |s.readers| && u != t ensures u < |r.readers| && Consistent(r, r.readers[u]) {
      assert r.readers[u] == s.readers[u] && Consistent(s, s.readers[u]);
    }
  }

  lemma {:induction false} StepInv(s: State, a: Action)
    requires Inv(s)
    ensures Inv(Step(s, a))
  {
    match a {
      case CreateRep => CreateInv(s);
      case Inc(_) => CountInv(s, a);
      case Dec(_) => CountInv(s, a);
      case Val(t) =>
        OthersConsistent(s, a, t);
        if t < |s.readers| && !s.readers[t].Reading? { ValConsistent(s, t); }
      case Go(t) =>
        OthersConsistent(s, a, t);
        if t < |s.readers| && s.readers[t].Reading? { ReadConsistent(s, t); }
    }
  }

  lemma {:induction false} RunInv(n: nat, acts: seq<Action>)
    ensures Inv(Run(Init(n), acts))
  {
    if acts != [] {
      RunInv(n, acts[..|acts| - 1]);
      StepInv(Run(Init(n), acts[..|acts| - 1]), acts[|acts| - 1]);
    }
  }

  /** Over every run, val returned the count at its start with some of the incs and some of the
      decs that came in while it ran, modulo the word size, however often words wrapped. */
  lemma {:induction false} ValExplained(n: nat, acts: seq<Action>, t: nat) returns (up: nat, down: nat)
    requires t < |Run(Init(n), acts).readers| && Run(Init(n), acts).readers[t].Done?
    ensures var r := Run(Init(n), acts).readers[t];
            && r.incs0 + up <= r.incs1 && r.decs0 + down <= r.decs1
            && r.val == (r.incs0 + up - r.decs0 - down) % POW64
  {
    RunInv(n, acts);
    var r := Run(Init(n), acts).readers[t];
    assert Consistent(Run(Init(n), acts), r);
    up, down :| Explains(r.val, r.incs0, r.decs0, r.incs1, r.decs1, up, down);
    WordIs(r.val, r.incs0 + up - r.decs0 - down);
  }

  lemma {:induction false} WordIs(v: nat, x: int)
    requires v < POW64 && SameWord(v, x)
    ensures v == x % POW64
  {
    var q := (v - x) / POW64;
    assert x == v + (-q) * POW64;
  }

  /** When nobody counted while it ran, val returned the incs less the decs. */
  lemma {:induction false} QuiescentVal(n: nat, acts: seq<Action>, t: nat)
    requires t < |Run(Init(n), acts).readers| && Run(Init(n), acts).readers[t].Done?
    requires var r := Run(Init(n), acts).readers[t]; r.incs0 == r.incs1 && r.decs0 == r.decs1
    ensures var r := Run(Init(n), acts).readers[t]; r.val == (r.incs1 - r.decs1) % POW64
  {
    var up, down := ValExplained(n, acts, t);
  }

  /** With incs only beside it, and totals that a word holds at its start and at its end, val
      returned a number between the two; what happened before it began does not matter. */
  lemma {:induction false} ConcurrentVal(n: nat, acts: seq<Action>, t: nat)
    requires t < |Run(Init(n), acts).readers| && Run(Init(n), acts).readers[t].Done?
    requires var r := Run(Init(n), acts).readers[t];
             r.decs0 == r.decs1 && 0 <= r.incs0 - r.decs0 && r.incs1 - r.decs1 < POW64
    ensures var r := Run(Init(n), acts).readers[t]; r.incs0 - r.decs0 <= r.val <= r.incs1 - r.decs1
  {
    var up, down := ValExplained(n, acts, t);
    var r := Run(Init(n), acts).readers[t];
    InWord(r.incs0 + up - r.decs0);
  }

  /** Likewise with decs only. */
  lemma {:induction false} ConcurrentValDown(n: nat, acts: seq<Action>, t: nat)
    requires t < |Run(Init(n), acts).readers| && Run(Init(n), acts).readers[t].Done?
    requires var r := Run(Init(n), acts).readers[t];
             r.incs0 == r.incs1 && 0 <= r.incs1 - r.decs1 && r.incs0 - r.decs0 < POW64
    ensures var r := Run(Init(n), acts).readers[t]; r.incs1 - r.decs1 <= r.val <= r.incs0 - r.decs0
  {
    var up, down := ValExplained(n, acts, t);
    var r := Run(Init(n), acts).readers[t];
    InWord(r.incs0 - r.decs0 - down);
  }

  lemma {:induction false} InWord(x: int)
    requires 0 <= x < POW64
    ensures x % POW64 == x
  {
  }

  // ----- in place

  class Rep {
    var localValue: nat
    constructor ()
      ensures localValue == 0
    {
      localValue := 0;
    }
  }

  /** The counter: its representatives in the order of creation, the list's head last. */
  class Ctr {
    var reps: seq<Rep>

    ghost predicate Valid()
      reads this, reps
    {
      && (forall i, j :: 0 <= i < j < |reps| ==> reps[i] != reps[j])
      && (forall i :: 0 <= i < |reps| ==> reps[i].localValue < POW64)
    }

    ghost function View(): (v: seq<nat>)
      reads this, reps
      ensures |v| == |reps| && forall i :: 0 <= i < |v| ==> v[i] == reps[i].localValue
    {
      seq(|reps|, i requires 0 <= i < |reps| reads this, reps => reps[i].localValue)
    }

    constructor ()
      ensures Valid() && View() == []
    {
      reps := [];
    }

    method CreateRep()
      requires Valid()
      modifies this
      ensures Valid() && View() == old(View()) + [0]
      ensures reps[..|old(reps)|] == old(reps)
    {
      var rep := new Rep();
      reps := reps + [rep];
    }

    method Inc(r: nat)
      requires Valid() && r < |reps|
      modifies reps[r]
      ensures Valid() && View() == old(View())[r := Up(old(View())[r])]
    {
      var rep := reps[r];
      rep.localValue := (rep.localValue + 1) % POW64;
    }

    method Dec(r: nat)
      requires Valid() && r < |reps|
      modifies reps[r]
      ensures Valid() && View() == old(View())[r := Down(old(View())[r])]
    {
      var rep := reps[r];
      rep.localValue := if rep.localValue == 0 then POW64 - 1 else rep.localValue - 1;
    }

    /** Without interference, val is the sum of all words modulo the word size. */
    method Val() returns (v: nat)
      requires Valid()
      ensures v == Sum(View()) % POW64
    {
      v := 0;
      var node := |reps|;
      ghost var words := View();
      assert words[..node] == words;
      while node > 0
        invariant node <= |reps| && v < POW64
        invariant SameWord(v + Sum(words[..node]), Sum(words))
      {
        SumSnoc(words, node - 1);
        AddWord(v, words[node - 1], Sum(words[..node - 1]), Sum(words));
        v := (v + reps[node - 1].localValue) % POW64;
        node := node - 1;
      }
      WordIs(v, Sum(words));
    }
  }
}
