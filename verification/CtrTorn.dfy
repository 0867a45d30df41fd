/**
 When val of the distributed counter can return a value that the counter did not have while
 val ran: exactly when val began with a representative to read, there were two by its end,
 and both an inc and a dec came in beside it.
 */
module CtrTorn {
  import opened Common
  import opened CtrDistributed

  /** The state after the first k actions. */
  function After(s: State, acts: seq<Action>, k: nat): State
    requires k <= |acts|
  {
    Run(s, acts[..k])
  }

  lemma {:induction false} AfterNext(s: State, acts: seq<Action>, k: nat)
    requires k < |acts|
    ensures After(s, acts, k + 1) == Step(After(s, acts, k), acts[k])
  {
    assert acts[..k + 1][..k] == acts[..k];
  }

  lemma {:induction false} AfterAll(s: State, acts: seq<Action>, a: Action)
    ensures After(s, acts, |acts|) == Run(s, acts)
    ensures Run(s, acts + [a]) == Step(Run(s, acts), a)
    ensures forall k :: 0 <= k <= |acts| ==> After(s, acts + [a], k) == After(s, acts, k)
  {
    assert acts[..|acts|] == acts;
    assert (acts + [a])[..|acts|] == acts;
    forall k | 0 <= k <= |acts| ensures After(s, acts + [a], k) == After(s, acts, k) {
      assert (acts + [a])[..k] == acts[..k];
    }
  }

  lemma {:induction false} RunInvFrom(s: State, acts: seq<Action>)
    requires Inv(s)
    ensures Inv(Run(s, acts)) && |Run(s, acts).readers| == |s.readers|
  {
    if acts != [] {
      RunInvFrom(s, acts[..|acts| - 1]);
      StepInv(Run(s, acts[..|acts| - 1]), acts[|acts| - 1]);
    }
  }

  /** The counter's value in a state. */
  function Count(s: State): nat {
    (s.incs - s.decs) % POW64
  }

  predicate CountsAre(s: State, acts: seq<Action>, k: nat, incs: nat, decs: nat) {
    k <= |acts| && After(s, acts, k).incs == incs && After(s, acts, k).decs == decs
  }

  /** The counter had this value after at least j and at most k actions. */
  ghost predicate HadValue(s: State, acts: seq<Action>, j: nat, k: nat, v: nat) {
    exists m :: j <= m <= k <= |acts| && v == Count(After(s, acts, m))
  }

  lemma {:induction false} HadLonger(s: State, acts: seq<Action>, a: Action, j: nat, k: nat, l: nat, v: nat)
    requires HadValue(s, acts, j, k, v) && k <= l <= |acts| + 1
    ensures HadValue(s, acts + [a], j, l, v)
  {
    var m :| j <= m <= k <= |acts| && v == Count(After(s, acts, m));
    assert (acts + [a])[..m] == acts[..m];
    assert v == Count(After(s, acts + [a], m));
  }

  // ----- a call of val and the moments of its start and end

  /** The reader's val is action j. If there was no representative, or as long as there is
      at most one, the counter had the value it has read, or it has read nothing yet. */
  ghost predicate ReadingSince(s: State, acts: seq<Action>, t: nat, r: Reader, j: nat) {
    && r.Reading? && j < |acts| && acts[j] == Val(t) && CountsAre(s, acts, j, r.incs0, r.decs0)
    && (After(s, acts, j).local == [] ==> r.node == 0 && HadValue(s, acts, j, |acts|, r.val))
    && (|Run(s, acts).local| <= 1 ==>
          || (r.node == 1 && r.val == 0)
          || (r.node == 0 && HadValue(s, acts, j, |acts|, r.val)))
  }

  /** The reader's val was action j and returned after k actions. */
  ghost predicate DoneOver(s: State, acts: seq<Action>, t: nat, r: Reader, j: nat, k: nat) {
    && r.Done? && j < k <= |acts| && acts[j] == Val(t)
    && CountsAre(s, acts, j, r.incs0, r.decs0) && CountsAre(s, acts, k, r.incs1, r.decs1)
    && (After(s, acts, j).local == [] || |After(s, acts, k).local| <= 1 ==> HadValue(s, acts, j, k, r.val))
  }

  ghost predicate Dated(s: State, acts: seq<Action>, t: nat, r: Reader) {
    match r
    case Idle => true
    case Reading(_, _, _, _) => exists j: nat :: ReadingSince(s, acts, t, r, j)
    case Done(_, _, _, _, _) => exists j: nat, k: nat :: DoneOver(s, acts, t, r, j, k)
  }

  lemma {:induction false} LocalGrows(s: State, a: Action)
    ensures |Step(s, a).local| >= |s.local|
  {
  }

  lemma {:induction false} ReadingLonger(s: State, acts: seq<Action>, a: Action, t: nat, r: Reader, j: nat)
    requires ReadingSince(s, acts, t, r, j)
    ensures ReadingSince(s, acts + [a], t, r, j)
  {
    AfterAll(s, acts, a);
    LocalGrows(Run(s, acts), a);
    if HadValue(s, acts, j, |acts|, r.val) { HadLonger(s, acts, a, j, |acts|, |acts| + 1, r.val); }
  }

  lemma {:induction false} DoneLonger(s: State, acts: seq<Action>, a: Action, t: nat, r: Reader, j: nat, k: nat)
    requires DoneOver(s, acts, t, r, j, k)
    ensures DoneOver(s, acts + [a], t, r, j, k)
  {
    AfterAll(s, acts, a);
    if HadValue(s, acts, j, k, r.val) { HadLonger(s, acts, a, j, k, k, r.val); }
  }

  lemma {:induction false} DatedLonger(s: State, acts: seq<Action>, a: Action, t: nat, r: Reader)
    requires Dated(s, acts, t, r)
    ensures Dated(s, acts + [a], t, r)
  {
    if r.Reading? {
      var j: nat :| ReadingSince(s, acts, t, r, j);
      ReadingLonger(s, acts, a, t, r, j);
    } else if r.Done? {
      var j: nat, k: nat :| DoneOver(s, acts, t, r, j, k);
      DoneLonger(s, acts, a, t, r, j, k);
    }
  }

  /** The only word, if there is one, is the count. */
  lemma {:induction false} OneWord(s: State)
    requires Inv(s)
    ensures s.local == [] ==> Count(s) == 0
    ensures |s.local| == 1 ==> s.local[0] == Count(s)
  {
    if s.local == [] {
      WordIs(0, s.incs - s.decs);
    } else if |s.local| == 1 {
      assert s.local[..0] == [];
      assert Sum(s.local) == s.local[0];
      WordIs(s.local[0], s.incs - s.decs);
    }
  }

  lemma {:induction false} ValDated(s: State, acts: seq<Action>, t: nat)
    requires Inv(Run(s, acts)) && t < |Run(s, acts).readers| && !Run(s, acts).readers[t].Reading?
    ensures ReadingSince(s, acts + [Val(t)], t, Step(Run(s, acts), Val(t)).readers[t], |acts|)
  {
    AfterAll(s, acts, Val(t));
    OneWord(Run(s, acts));
    var all := acts + [Val(t)];
    assert HadValue(s, all, |acts|, |all|, Count(After(s, all, |acts|)));
  }

  lemma {:induction false} ReadNext(q: State, t: nat)
    requires t < |q.readers| && q.readers[t].Reading? && 0 < q.readers[t].node <= |q.local|
    ensures var r := Step(q, Go(t)).readers[t];
            && r.Reading? && r.incs0 == q.readers[t].incs0 && r.decs0 == q.readers[t].decs0
            && r.node == q.readers[t].node - 1 && r.val == (q.readers[t].val + q.local[r.node]) % POW64
    ensures Step(q, Go(t)).local == q.local
  {
  }

  lemma {:induction false} GoHas(s: State, acts: seq<Action>, t: nat, j: nat, v: nat)
    requires j <= |acts| && v == Count(Run(s, acts))
    ensures HadValue(s, acts + [Go(t)], j, |acts| + 1, v)
  {
    AfterAll(s, acts, Go(t));
    assert v == Count(After(s, acts + [Go(t)], |acts|));
  }

  /** Reading a word; the only word is the count at that moment. */
  lemma {:induction false} GoDated(s: State, acts: seq<Action>, t: nat, r: Reader, r': Reader, j: nat)
    requires ReadingSince(s, acts, t, r, j) && 0 < r.node <= |Run(s, acts).local|
    requires |Run(s, acts).local| == 1 ==> Run(s, acts).local[0] == Count(Run(s, acts))
    requires r' == Reading(r.node - 1, (r.val + Run(s, acts).local[r.node - 1]) % POW64, r.incs0, r.decs0)
    requires Step(Run(s, acts), Go(t)).local == Run(s, acts).local
    ensures ReadingSince(s, acts + [Go(t)], t, r', j)
  {
    AfterAll(s, acts, Go(t));
    if |Run(s, acts).local| <= 1 {
      GoHas(s, acts, t, j, r'.val);
    }
  }

  lemma {:induction false} EndDated(s: State, acts: seq<Action>, t: nat, j: nat)
    requires t < |Run(s, acts).readers|
    requires ReadingSince(s, acts, t, Run(s, acts).readers[t], j) && Run(s, acts).readers[t].node == 0
    ensures DoneOver(s, acts + [Go(t)], t, Step(Run(s, acts), Go(t)).readers[t], j, |acts|)
  {
    var r := Run(s, acts).readers[t];
    AfterAll(s, acts, Go(t));
    if HadValue(s, acts, j, |acts|, r.val) { HadLonger(s, acts, Go(t), j, |acts|, |acts|, r.val); }
  }

  lemma {:induction false} OtherSame(s: State, a: Action, t: nat)
    requires t < |s.readers|
    requires !(a == Val(t) && !s.readers[t].Reading?) && !(a == Go(t) && s.readers[t].Reading?)
    ensures t < |Step(s, a).readers| && Step(s, a).readers[t] == s.readers[t]
  {
  }

  lemma {:induction false} TurnDated(s: State, acts: seq<Action>, t: nat, j: nat)
    requires Inv(Run(s, acts)) && t < |Run(s, acts).readers|
    requires ReadingSince(s, acts, t, Run(s, acts).readers[t], j)
    ensures t < |Step(Run(s, acts), Go(t)).readers|
    ensures Dated(s, acts + [Go(t)], t, Step(Run(s, acts), Go(t)).readers[t])
  {
    var q := Run(s, acts);
    var r := q.readers[t];
    if r.node > 0 {
      assert Consistent(q, r);
      OneWord(q);
      ReadNext(q, t);
      GoDated(s, acts, t, r, Step(q, Go(t)).readers[t], j);
    } else {
      EndDated(s, acts, t, j);
    }
  }

  lemma {:induction false} DatedStep(s: State, acts: seq<Action>, a: Action, t: nat)
    requires Inv(Run(s, acts)) && t < |Run(s, acts).readers| && Dated(s, acts, t, Run(s, acts).readers[t])
    ensures var q := Step(Run(s, acts), a); t < |q.readers| && Dated(s, acts + [a], t, q.readers[t])
  {
    var r := Run(s, acts).readers[t];
    if a == Val(t) && !r.Reading? {
      ValDated(s, acts, t);
    } else if a == Go(t) && r.Reading? {
      var j: nat :| ReadingSince(s, acts, t, r, j);
      TurnDated(s, acts, t, j);
    } else {
      OtherSame(Run(s, acts), a, t);
      DatedLonger(s, acts, a, t, r);
    }
  }

  /** The run begins before caller t has called val, or with its call. */
  predicate Begins(s: State, acts: seq<Action>, t: nat) {
    && t < |s.readers| && !s.readers[t].Reading?
    && (s.readers[t].Idle? || (acts != [] && acts[0] == Val(t)))
  }

  lemma {:induction false} RunDated(s: State, acts: seq<Action>, t: nat)
    requires Inv(s) && Begins(s, acts, t)
    ensures t < |Run(s, acts).readers| && Dated(s, acts, t, Run(s, acts).readers[t])
  {
    if acts != [] {
      var front, a := acts[..|acts| - 1], acts[|acts| - 1];
      assert acts == front + [a];
      RunInvFrom(s, front);
      if front == [] && a == Val(t) {
        ValDated(s, front, t);
      } else {
        RunDated(s, front, t);
        DatedStep(s, front, a, t);
      }
    }
  }

  // ----- the counts between two moments

  /** Counts only grow, and by one at a time. */
  lemma {:induction false} StepCounts(s: State, a: Action)
    ensures var r := Step(s, a);
            && s.incs <= r.incs <= s.incs + 1 && s.decs <= r.decs <= s.decs + 1
            && (r.incs == s.incs || r.decs == s.decs)
  {
  }

  lemma {:induction false} CountsGrow(s: State, acts: seq<Action>, j: nat, k: nat)
    requires j <= k <= |acts|
    ensures After(s, acts, j).incs <= After(s, acts, k).incs && After(s, acts, j).decs <= After(s, acts, k).decs
    decreases k - j
  {
    if j < k {
      AfterNext(s, acts, j);
      StepCounts(After(s, acts, j), acts[j]);
      CountsGrow(s, acts, j + 1, k);
    }
  }

  /** Between two moments with the same number of decs, every number of incs in between was
      reached; likewise with the roles exchanged. */
  lemma {:induction false} CountReached(s: State, acts: seq<Action>, j: nat, k: nat, incs: nat, decs: nat)
    returns (m: nat)
    requires j <= k <= |acts|
    requires var q, r := After(s, acts, j), After(s, acts, k);
             && q.incs <= incs <= r.incs && q.decs <= decs <= r.decs
             && (q.incs == r.incs || q.decs == r.decs)
    ensures j <= m <= k && After(s, acts, m).incs == incs && After(s, acts, m).decs == decs
    decreases k - j
  {
    var q := After(s, acts, j);
    if q.incs == incs && q.decs == decs {
      m := j;
    } else {
      if j < k {
        AfterNext(s, acts, j);
        StepCounts(q, acts[j]);
        CountsGrow(s, acts, j + 1, k);
      }
      m := CountReached(s, acts, j + 1, k, incs, decs);
    }
  }

  /** With no inc or no dec in between, every value that explains a val was a count. */
  lemma {:induction false} ExplainedHad(s: State, acts: seq<Action>, j: nat, k: nat, v: nat)
    requires j <= k <= |acts| && v < POW64
    requires var q, r := After(s, acts, j), After(s, acts, k);
             && Explained(v, q.incs, q.decs, r.incs, r.decs) && (q.incs == r.incs || q.decs == r.decs)
    ensures HadValue(s, acts, j, k, v)
  {
    var q, r := After(s, acts, j), After(s, acts, k);
    var up: nat, down: nat :| Explains(v, q.incs, q.decs, r.incs, r.decs, up, down);
    WordIs(v, q.incs + up - q.decs - down);
    var m := CountReached(s, acts, j, k, q.incs + up, q.decs + down);
    assert v == Count(After(s, acts, m));
  }

  /** A val that returned a value which the counter had at no moment while it ran had both an
      inc and a dec beside it, a representative to start with and two by its end. */
  lemma {:induction false} TornNeedsBoth(s: State, acts: seq<Action>, t: nat) returns (j: nat, k: nat)
    requires Inv(s) && Begins(s, acts, t)
    requires t < |Run(s, acts).readers| && Run(s, acts).readers[t].Done?
    ensures var r := Run(s, acts).readers[t];
            && j < k <= |acts| && acts[j] == Val(t)
            && CountsAre(s, acts, j, r.incs0, r.decs0) && CountsAre(s, acts, k, r.incs1, r.decs1)
            && (!HadValue(s, acts, j, k, r.val) ==>
                  && r.incs0 < r.incs1 && r.decs0 < r.decs1
                  && |After(s, acts, j).local| >= 1 && |After(s, acts, k).local| >= 2)
  {
    var r := Run(s, acts).readers[t];
    RunDated(s, acts, t);
    j, k :| DoneOver(s, acts, t, r, j, k);
    CountsGrow(s, acts, j, k);
    RunInvFrom(s, acts);
    assert Consistent(Run(s, acts), r);
    if r.incs0 == r.incs1 || r.decs0 == r.decs1 {
      ExplainedHad(s, acts, j, k, r.val);
    }
  }

  // ----- the exact condition

  /** Which kinds of calls there are among the actions. */
  predicate Beside(acts: seq<Action>, inc: bool, dec: bool, create: bool) {
    forall k :: 0 <= k < |acts| ==>
      (acts[k].Inc? ==> inc) && (acts[k].Dec? ==> dec) && (acts[k].CreateRep? ==> create)
  }

  /** Caller t's val begins with the first of the actions and returns during them, with a
      value that the counter had at no moment of them. */
  ghost predicate Tears(s: State, t: nat, acts: seq<Action>) {
    && acts != [] && acts[0] == Val(t) && (forall k :: 0 < k < |acts| ==> acts[k] != Val(t))
    && t < |Run(s, acts).readers| && Run(s, acts).readers[t].Done?
    && !HadValue(s, acts, 0, |acts|, Run(s, acts).readers[t].val)
  }

  lemma {:induction false} BesideKeeps(s: State, acts: seq<Action>, inc: bool, dec: bool, create: bool, k: nat)
    requires k <= |acts| && Beside(acts, inc, dec, create)
    ensures !inc ==> After(s, acts, k).incs == s.incs
    ensures !dec ==> After(s, acts, k).decs == s.decs
    ensures !create ==> |After(s, acts, k).local| == |s.local|
  {
    if k > 0 {
      BesideKeeps(s, acts, inc, dec, create, k - 1);
      AfterNext(s, acts, k - 1);
    }
  }

  lemma {:induction false} TearsNeeds(s: State, t: nat, acts: seq<Action>, inc: bool, dec: bool, create: bool)
    requires Inv(s) && t < |s.readers| && !s.readers[t].Reading?
    requires Beside(acts, inc, dec, create) && Tears(s, t, acts)
    ensures inc && dec && |s.local| >= 1 && (|s.local| >= 2 || create)
  {
    var j, k := TornNeedsBoth(s, acts, t);
    BesideKeeps(s, acts, inc, dec, create, k);
    assert !HadValue(s, acts, 0, k, Run(s, acts).readers[t].val);
    assert After(s, acts, 0) == s;
  }

  lemma {:induction false} RunConcat(s: State, first: seq<Action>, second: seq<Action>)
    ensures Run(s, first + second) == Run(Run(s, first), second)
  {
    if second == [] {
      assert first + second == first;
    } else {
      var front := second[..|second| - 1];
      assert (first + second)[..|first + second| - 1] == first + front;
      RunConcat(s, first, front);
    }
  }

  function Gos(t: nat, k: nat): seq<Action> {
    seq(k, _ => Go(t))
  }

  lemma {:induction false} GosLast(s: State, t: nat, m: nat)
    ensures Run(s, Gos(t, 0)) == s && Run(s, Gos(t, m + 1)) == Step(Run(s, Gos(t, m)), Go(t))
  {
    assert Gos(t, m + 1)[..m] == Gos(t, m);
  }

  /** The state with reader t having v so far and node words still to read. */
  function At(s: State, t: nat, node: nat, v: nat): State
    requires t < |s.readers| && s.readers[t].Reading?
  {
    s.(readers := s.readers[t := s.readers[t].(node := node, val := v)])
  }

  /** What a reader has that had v with node words to read, when it has `left` words left. */
  function ReadDown(local: seq<nat>, node: nat, v: nat, left: nat): nat
    requires left <= node <= |local|
    decreases node - left
  {
    if left == node then v else (ReadDown(local, node, v, left + 1) + local[left]) % POW64
  }

  lemma {:induction false} ReadDownSum(local: seq<nat>, node: nat, v: nat, left: nat)
    requires left <= node <= |local| && v < POW64
    ensures ReadDown(local, node, v, left) < POW64
    ensures SameWord(ReadDown(local, node, v, left) + Sum(local[..left]), v + Sum(local[..node]))
    decreases node - left
  {
    if left < node {
      ReadDownSum(local, node, v, left + 1);
      SumSnoc(local, left);
      AddWord(ReadDown(local, node, v, left + 1), local[left], Sum(local[..left]), v + Sum(local[..node]));
    }
  }

  lemma {:induction false} GoRead(s: State, t: nat, left: nat, w: nat)
    requires t < |s.readers| && s.readers[t].Reading? && left < |s.local|
    ensures Step(At(s, t, left + 1, w), Go(t)) == At(s, t, left, (w + s.local[left]) % POW64)
  {
    var v := (w + s.local[left]) % POW64;
    assert At(s, t, left + 1, w).readers[t := At(s, t, left, v).readers[t]] == At(s, t, left, v).readers;
  }

  /** A reader alone turns its loop until it has `left` words still to read. */
  lemma {:induction false} GosRead(s: State, t: nat, left: nat)
    requires t < |s.readers| && s.readers[t].Reading? && left <= s.readers[t].node <= |s.local|
    ensures var r := s.readers[t];
            Run(s, Gos(t, r.node - left)) == At(s, t, left, ReadDown(s.local, r.node, r.val, left))
    decreases s.readers[t].node - left
  {
    var node := s.readers[t].node;
    if left == node {
      GosLast(s, t, 0);
      assert s.readers[t := s.readers[t]] == s.readers;
    } else {
      GosRead(s, t, left + 1);
      GosLast(s, t, node - (left + 1));
      GoRead(s, t, left, ReadDown(s.local, node, s.readers[t].val, left + 1));
    }
  }

  /** A reader alone returns its sum with the words it had still to read. */
  lemma {:induction false} GosFinish(s: State, t: nat, total: int)
    requires t < |s.readers| && s.readers[t].Reading? && s.readers[t].val < POW64
    requires s.readers[t].node <= |s.local|
    requires SameWord(s.readers[t].val + Sum(s.local[..s.readers[t].node]), total)
    ensures var q := Run(s, Gos(t, s.readers[t].node + 1));
            t < |q.readers| && q.readers[t].Done? && q.readers[t].val == total % POW64
  {
    var Reading(node, val, _, _) := s.readers[t];
    var v := ReadDown(s.local, node, val, 0);
    GosRead(s, t, 0);
    GosLast(s, t, node);
    ReadDownSum(s.local, node, val, 0);
    assert s.local[..0] == [];
    SameWordTrans(v, val + Sum(s.local[..node]), total);
    WordIs(v, total);
  }

  lemma {:induction false} SameWordTrans(a: int, b: int, c: int)
    requires SameWord(a, b) && SameWord(b, c)
    ensures SameWord(a, c)
  {
    SameWordShift(b, c, a, c, (a - b) / POW64);
  }

  function Four(t: nat, next: Action, rep: nat): seq<Action> {
    [Val(t), next, Inc(rep), Dec(0)]
  }

  /** The state after the first k of these four. */
  function FourState(s: State, t: nat, next: Action, rep: nat, k: nat): State {
    var s1 := Step(s, Val(t));
    var s2 := Step(s1, next);
    var s3 := Step(s2, Inc(rep));
    if k == 0 then s else if k == 1 then s1 else if k == 2 then s2 else if k == 3 then s3 else Step(s3, Dec(0))
  }

  lemma {:induction false} FourRun(s: State, t: nat, next: Action, rep: nat, k: nat)
    requires k <= 4
    ensures Run(s, Four(t, next, rep)[..k]) == FourState(s, t, next, rep, k)
  {
    if k > 0 {
      FourRun(s, t, next, rep, k - 1);
      assert Four(t, next, rep)[..k][..k - 1] == Four(t, next, rep)[..k - 1];
    }
  }

  lemma {:induction false} GosCount(s: State, t: nat, k: nat)
    ensures Count(Run(s, Gos(t, k))) == Count(s)
  {
    if k > 0 {
      assert Gos(t, k)[..k - 1] == Gos(t, k - 1);
      GosCount(s, t, k - 1);
    }
  }

  predicate AtOrAbove(s: State, q: State) {
    Count(q) == Count(s) || Count(q) == (s.incs + 1 - s.decs) % POW64
  }

  lemma {:induction false} FourAbove(s: State, t: nat, next: Action, rep: nat, k: nat)
    requires next == Go(t) || next == CreateRep
    requires rep < |Step(Step(s, Val(t)), next).local|
    ensures AtOrAbove(s, FourState(s, t, next, rep, k))
  {
  }

  /** While val(t) goes with an inc, then a dec, and turns of its own loop, the counter is at
      its start or one above. */
  lemma {:induction false} NeverBelow(s: State, t: nat, next: Action, rep: nat, n: nat, m: nat)
    requires next == Go(t) || next == CreateRep
    requires rep < |Step(Step(s, Val(t)), next).local| && m <= 4 + n
    ensures AtOrAbove(s, After(s, Four(t, next, rep) + Gos(t, n), m))
  {
    var four, gos := Four(t, next, rep), Gos(t, n);
    var k := if m <= 4 then m else 4;
    FourRun(s, t, next, rep, k);
    FourAbove(s, t, next, rep, k);
    if m <= 4 {
      assert (four + gos)[..m] == four[..m];
    } else {
      assert (four + gos)[..m] == four[..4] + Gos(t, m - 4);
      RunConcat(s, four[..4], Gos(t, m - 4));
      GosCount(FourState(s, t, next, rep, 4), t, m - 4);
    }
  }

  lemma {:induction false} Apart(x: int)
    ensures (x - 1) % POW64 != x % POW64 && (x - 1) % POW64 != (x + 1) % POW64
  {
    var q := x / POW64;
    assert x == q * POW64 + x % POW64;
    assert x - 1 == q * POW64 + (x % POW64 - 1) && x + 1 == q * POW64 + (x % POW64 + 1);
  }

  /** After the four, the reader has still to read words that make up one less than the count
      at its start. */
  ghost predicate Doomed(s: State, q: State, t: nat) {
    && t < |q.readers| && q.readers[t].Reading?
    && q.readers[t].val < POW64 && q.readers[t].node <= |q.local|
    && SameWord(q.readers[t].val + Sum(q.local[..q.readers[t].node]), s.incs - s.decs - 1)
  }

  lemma {:induction false} DoomedEnds(s: State, first: seq<Action>, t: nat, n: nat)
    requires Doomed(s, Run(s, first), t) && n == Run(s, first).readers[t].node + 1
    ensures var q := Run(s, first + Gos(t, n));
            t < |q.readers| && q.readers[t].Done? && q.readers[t].val == (s.incs - s.decs - 1) % POW64
  {
    RunConcat(s, first, Gos(t, n));
    GosFinish(Run(s, first), t, s.incs - s.decs - 1);
  }

  lemma {:induction false} FourNever(s: State, t: nat, next: Action, rep: nat, n: nat)
    requires next == Go(t) || next == CreateRep
    requires rep < |Step(Step(s, Val(t)), next).local|
    ensures var acts := Four(t, next, rep) + Gos(t, n);
            !HadValue(s, acts, 0, |acts|, (s.incs - s.decs - 1) % POW64)
  {
    var acts, v := Four(t, next, rep) + Gos(t, n), (s.incs - s.decs - 1) % POW64;
    Apart(s.incs - s.decs);
    forall m | 0 <= m <= |acts| ensures v != Count(After(s, acts, m)) {
      NeverBelow(s, t, next, rep, n, m);
    }
  }

  lemma {:induction false} FourTears(s: State, t: nat, next: Action, rep: nat, n: nat)
    requires (next == Go(t) || next == CreateRep) && rep < |Step(Step(s, Val(t)), next).local|
    requires Doomed(s, FourState(s, t, next, rep, 4), t)
    requires n == FourState(s, t, next, rep, 4).readers[t].node + 1
    ensures Beside(Four(t, next, rep) + Gos(t, n), true, true, next.CreateRep?)
    ensures Tears(s, t, Four(t, next, rep) + Gos(t, n))
  {
    assert Four(t, next, rep)[..4] == Four(t, next, rep);
    FourRun(s, t, next, rep, 4);
    DoomedEnds(s, Four(t, next, rep), t, n);
    FourNever(s, t, next, rep, n);
    OnlyVal(t, next, rep, n);
  }

  lemma {:induction false} OnlyVal(t: nat, next: Action, rep: nat, n: nat)
    requires next == Go(t) || next == CreateRep
    ensures var acts := Four(t, next, rep) + Gos(t, n);
            && acts[0] == Val(t) && (forall k :: 0 < k < |acts| ==> acts[k] != Val(t))
            && Beside(acts, true, true, next.CreateRep?)
  {
  }

  /** One less in the word of the oldest representative makes the sum of all one less. */
  lemma {:induction false} OneLess(local: seq<nat>, x: nat, total: int)
    requires local != [] && local[0] < POW64 && SameWord(x + Sum(local), total)
    ensures SameWord(x + Sum(local[0 := Down(local[0])]), total - 1)
  {
    var n, w := |local|, Down(local[0]);
    SumUpdate(local, n, 0, w);
    assert local[..n] == local && local[0 := w][..n] == local[0 := w];
    WordStep(local[0]);
    var k := if w + 1 == local[0] then 0 else 1;
    SameWordShift(x + Sum(local), total, x + Sum(local[0 := w]), total - 1, k);
  }

  lemma {:induction false} FourTwo(s: State, t: nat)
    requires t < |s.readers| && !s.readers[t].Reading? && |s.local| >= 2 && WordsOk(s)
    ensures var n, q := |s.local|, FourState(s, t, Go(t), |s.local| - 1, 4);
            && |q.local| == n && q.local[..n - 1] == s.local[..n - 1][0 := Down(s.local[0])]
            && t < |q.readers| && q.readers[t] == Reading(n - 1, s.local[n - 1], s.incs, s.decs)
  {
    var n := |s.local|;
    var up := s.local[n - 1 := Up(s.local[n - 1])];
    assert up[0 := Down(s.local[0])][..n - 1] == s.local[..n - 1][0 := Down(s.local[0])];
  }

  /** Two representatives at the start: the newest is read before its inc, the oldest after
      its dec. */
  lemma {:induction false} TearsWithTwo(s: State, t: nat)
    requires Inv(s) && t < |s.readers| && !s.readers[t].Reading? && |s.local| >= 2
    ensures Tears(s, t, Four(t, Go(t), |s.local| - 1) + Gos(t, |s.local|))
    ensures Beside(Four(t, Go(t), |s.local| - 1) + Gos(t, |s.local|), true, true, false)
  {
    var n := |s.local|;
    assert s.local[..n] == s.local;
    SumSnoc(s.local, n - 1);
    OneLess(s.local[..n - 1], s.local[n - 1], s.incs - s.decs);
    FourTwo(s, t);
    FourTears(s, t, Go(t), n - 1, n);
  }

  /** One representative at the start and a second one while val runs: the second gets the
      inc, the first the dec. */
  lemma {:induction false} TearsWithOne(s: State, t: nat)
    requires Inv(s) && t < |s.readers| && !s.readers[t].Reading? && |s.local| == 1
    ensures Tears(s, t, Four(t, CreateRep, 1) + Gos(t, 2))
    ensures Beside(Four(t, CreateRep, 1) + Gos(t, 2), true, true, true)
  {
    var q := FourState(s, t, CreateRep, 1, 4);
    OneLess(s.local, 0, s.incs - s.decs);
    assert q.local[..1] == s.local[0 := Down(s.local[0])];
    assert q.readers[t] == Reading(1, 0, s.incs, s.decs);
    FourTears(s, t, CreateRep, 1, 2);
  }

  /** In a state that a run can reach, a val about to begin can return a value which the
      counter has at no moment while it runs if and only if incs and decs may both come in
      beside it and it has a representative to read and there are two, or may be by its end. */
  lemma {:induction false} TornIff(s: State, t: nat, inc: bool, dec: bool, create: bool)
    requires Inv(s) && t < |s.readers| && !s.readers[t].Reading?
    ensures (exists acts :: Beside(acts, inc, dec, create) && Tears(s, t, acts))
        <==> inc && dec && |s.local| >= 1 && (|s.local| >= 2 || create)
  {
    if acts :| Beside(acts, inc, dec, create) && Tears(s, t, acts) {
      TearsNeeds(s, t, acts, inc, dec, create);
    }
    if inc && dec && |s.local| >= 2 {
      TearsWithTwo(s, t);
      assert Beside(Four(t, Go(t), |s.local| - 1) + Gos(t, |s.local|), inc, dec, create);
    } else if inc && dec && |s.local| == 1 && create {
      TearsWithOne(s, t);
    }
  }

  /** An inc on a word already read beside a dec on one still to be read. */
  function Torn(): seq<Action> {
    [CreateRep, CreateRep, Val(0), Go(0), Inc(1), Dec(0), Go(0), Go(0)]
  }

  function TornState(k: nat): State {
    if k == 0 then State([], [Idle], 0, 0)
    else if k == 1 then State([0], [Idle], 0, 0)
    else if k == 2 then State([0, 0], [Idle], 0, 0)
    else if k == 3 then State([0, 0], [Reading(2, 0, 0, 0)], 0, 0)
    else if k == 4 then State([0, 0], [Reading(1, 0, 0, 0)], 0, 0)
    else if k == 5 then State([0, 1], [Reading(1, 0, 0, 0)], 1, 0)
    else if k == 6 then State([POW64 - 1, 1], [Reading(1, 0, 0, 0)], 1, 1)
    else if k == 7 then State([POW64 - 1, 1], [Reading(0, POW64 - 1, 0, 0)], 1, 1)
    else State([POW64 - 1, 1], [Done(POW64 - 1, 0, 0, 1, 1)], 1, 1)
  }

  lemma {:induction false} TornStates(k: nat)
    requires k <= |Torn()|
    ensures Run(Init(1), Torn()[..k]) == TornState(k)
  {
    if k == 0 {
      assert Init(1).readers == [Idle];
    } else {
      TornStates(k - 1);
      assert Torn()[..k][..k - 1] == Torn()[..k - 1];
      TornStep(k - 1);
    }
  }

  lemma {:induction false} TornStep(k: nat)
    requires k < |Torn()|
    ensures Step(TornState(k), Torn()[k]) == TornState(k + 1)
  {
  }

  /** With a dec beside it, val can return a value that the counter never had: here -1,
      although the count was 0, then 1, then 0 again. */
  lemma {:induction false} TornVal()
    ensures Run(Init(1), Torn()).readers == [Done(POW64 - 1, 0, 0, 1, 1)]
    ensures forall k :: 0 <= k <= |Torn()| ==>
              var s := Run(Init(1), Torn()[..k]); 0 <= s.incs - s.decs <= 1
  {
    forall k | 0 <= k <= |Torn()| ensures Run(Init(1), Torn()[..k]) == TornState(k) {
      TornStates(k);
    }
    assert Torn()[..|Torn()|] == Torn();
    assert Run(Init(1), Torn()[..|Torn()|]) == TornState(|Torn()|);
  }
}
