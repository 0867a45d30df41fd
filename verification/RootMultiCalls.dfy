/**
 What the callers of the multi root get, over every interleaving: each miss returns, with the
 representative of the location it was called on, different locations have different
 representatives, and a walk sees the list as it was when it began.
 */
module RootMultiCalls {
  import opened Common
  import opened RootMulti

  // ----- representatives are different objects

  /** A representative in memory of its own: neither NULL nor a node, and allocated. */
  predicate OwnMemory(s: State, rep: nat) {
    NULL < rep < s.brk && rep !in s.mem
  }

  /** The representative in node i of the list. */
  function RepAt(s: State, i: nat): nat
    requires i < |s.list|
  {
    if s.list[i] in s.mem then s.mem[s.list[i]].rep else NULL
  }

  /** The representatives on the list, and the one about to be put there, are all different. */
  ghost predicate RepsOk(s: State) {
    && (forall i :: 0 <= i < |s.list| ==> OwnMemory(s, RepAt(s, i)))
    && (forall i, j :: 0 <= i < j < |s.list| ==> RepAt(s, i) != RepAt(s, j))
    && (forall t :: 0 <= t < |s.threads| && Pending(s.threads[t]) ==> NewRep(s, s.threads[t].rep))
  }

  ghost predicate NewRep(s: State, rep: nat) {
    OwnMemory(s, rep) && forall i :: 0 <= i < |s.list| ==> RepAt(s, i) != rep
  }

  /** A step that leaves the list, its nodes' representatives and all representatives' memory
      as they were. */
  ghost predicate SameReps(s: State, r: State) {
    && r.list == s.list && r.brk >= s.brk
    && (forall i :: 0 <= i < |s.list| ==> RepAt(r, i) == RepAt(s, i))
    && (forall x :: x in r.mem ==> x in s.mem || x >= s.brk)
  }

  lemma {:induction false} SameRepsOk(s: State, r: State, t: nat)
    requires RepsOk(s) && SameReps(s, r) && t < |s.threads| == |r.threads|
    requires forall u :: 0 <= u < |s.threads| && u != t ==> r.threads[u] == s.threads[u]
    requires Pending(r.threads[t]) ==> NewRep(r, r.threads[t].rep)
    ensures RepsOk(r)
  {
    forall u | 0 <= u < |r.threads| && Pending(r.threads[u]) ensures NewRep(r, r.threads[u].rep) {
      if u != t { assert NewRep(s, s.threads[u].rep); }
    }
  }

  /** A step that leaves all but the program counter of a thread as it was, and that thread with
      no representative to put on the list. */
  predicate Quiet(s: State, r: State, t: nat) {
    && r.list == s.list && r.mem == s.mem && r.brk == s.brk && t < |r.threads| == |s.threads|
    && (forall u :: 0 <= u < |s.threads| && u != t ==> r.threads[u] == s.threads[u])
    && !Pending(r.threads[t])
  }

  lemma {:induction false} QuietStep(s: State, a: Action)
    requires a.t < |s.threads| && (a.Go? ==> !s.threads[a.t].Creating? && !Pending(s.threads[a.t]))
    ensures Step(s, a) == s || Quiet(s, Step(s, a), a.t)
  {
  }

  lemma {:induction false} QuietReps(s: State, a: Action)
    requires RepsOk(s) && a.t < |s.threads|
    requires a.Go? ==> !s.threads[a.t].Creating? && !Pending(s.threads[a.t])
    ensures RepsOk(Step(s, a))
  {
    QuietStep(s, a);
    if Step(s, a) != s {
      SameRepsOk(s, Step(s, a), a.t);
    }
  }

  lemma {:induction false} CreateReps(s: State, t: nat)
    requires Inv(s) && RepsOk(s) && t < |s.threads| && s.threads[t].Creating?
    ensures RepsOk(Advance(s, t))
  {
    var r := Advance(s, t);
    assert SameReps(s, r);
    assert forall i :: 0 <= i < |s.list| ==> OwnMemory(s, RepAt(s, i));
    assert NewRep(r, s.brk);
    SameRepsOk(s, r, t);
  }

  lemma {:induction false} NodeReps(s: State, t: nat)
    requires Inv(s) && RepsOk(s) && t < |s.threads| && (s.threads[t].Allocating? || s.threads[t].Filling?)
    ensures RepsOk(Advance(s, t))
  {
    var r := Advance(s, t);
    NodeFrame(s, t);
    assert Knows(s, s.threads[t]);
    assert forall i :: 0 <= i < |s.list| ==> s.list[i] in s.list;
    assert SameReps(s, r);
    assert NewRep(s, s.threads[t].rep);
    SameRepsOk(s, r, t);
  }

  lemma {:induction false} PublishReps(s: State, t: nat)
    requires Inv(s) && RepsOk(s) && t < |s.threads| && s.threads[t].Publishing?
    ensures RepsOk(Advance(s, t))
  {
    var r := Advance(s, t);
    assert Knows(s, s.threads[t]) && NewRep(s, s.threads[t].rep);
    assert RepAt(r, 0) == s.threads[t].rep;
    assert forall i :: 0 < i < |r.list| ==> r.list[i] == s.list[i - 1] && RepAt(r, i) == RepAt(s, i - 1);
    NonePending(s, t);
  }

  lemma {:induction false} NonePending(s: State, t: nat)
    requires LockOk(s) && t < |s.threads| && s.threads[t].Publishing?
    ensures forall u :: 0 <= u < |s.threads| ==> !Pending(Advance(s, t).threads[u])
  {
    assert forall u :: 0 <= u < |s.threads| && u != t ==> !Holder(s.threads[u]);
  }

  lemma {:induction false} StepReps(s: State, a: Action)
    requires Inv(s) && RepsOk(s)
    ensures RepsOk(Step(s, a))
  {
    if a.t < |s.threads| {
      if a.Go? && s.threads[a.t].Creating? {
        CreateReps(s, a.t);
      } else if a.Go? && (s.threads[a.t].Allocating? || s.threads[a.t].Filling?) {
        NodeReps(s, a.t);
      } else if a.Go? && s.threads[a.t].Publishing? {
        PublishReps(s, a.t);
      } else {
        QuietReps(s, a);
      }
    }
  }

  lemma {:induction false} RunReps(n: nat, acts: seq<Action>)
    ensures Inv(Run(Init(n), acts)) && RepsOk(Run(Init(n), acts))
  {
    RunInv(n, acts);
    if acts != [] {
      RunReps(n, acts[..|acts| - 1]);
      StepReps(Run(Init(n), acts[..|acts| - 1]), acts[|acts| - 1]);
    }
  }

  /** Misses on different locations return different representatives, and never NULL. */
  lemma {:induction false} LocationsDiffer(n: nat, acts: seq<Action>, x: (nat, nat), y: (nat, nat))
    requires x in Run(Init(n), acts).results && y in Run(Init(n), acts).results
    ensures x.1 != NULL && (x.0 != y.0 ==> x.1 != y.1)
  {
    RunReps(n, acts);
    var s := Run(Init(n), acts);
    assert RecordedAs(s.mem, s.list, x.0, x.1) && RecordedAs(s.mem, s.list, y.0, y.1);
    var i :| 0 <= i < |s.list| && s.list[i] in s.mem && s.mem[s.list[i]].el == x.0 && s.mem[s.list[i]].rep == x.1;
    var j :| 0 <= j < |s.list| && s.list[j] in s.mem && s.mem[s.list[j]].el == y.0 && s.mem[s.list[j]].rep == y.1;
    assert OwnMemory(s, RepAt(s, i)) && RepAt(s, i) == x.1 && RepAt(s, j) == y.1;
  }

  // ----- results belong to calls

  /** In handleMiss on a location. */
  predicate Missing(pc: PC, el: nat) {
    (pc.Wanting? || Holder(pc)) && pc.el == el
  }

  /** A miss that begins: its thread is in no other call. */
  predicate Begins(s: State, t: nat) {
    t < |s.threads| && s.threads[t].Idle?
  }

  /** The location of the miss that thread t began last. */
  function Asked(s: State, acts: seq<Action>, t: nat): Option<nat> {
    if acts == [] then None
    else
      var front, a := acts[..|acts| - 1], acts[|acts| - 1];
      if a.Miss? && a.t == t && Begins(Run(s, front), t) then Some(a.el) else Asked(s, front, t)
  }

  lemma {:induction false} AskedIn(s: State, acts: seq<Action>, t: nat)
    ensures Asked(s, acts, t).Some? ==> Miss(t, Asked(s, acts, t).value) in acts
  {
    if acts != [] {
      AskedIn(s, acts[..|acts| - 1], t);
      assert acts == acts[..|acts| - 1] + [acts[|acts| - 1]];
    }
  }

  lemma {:induction false} SizeStays(s: State, a: Action)
    ensures |Step(s, a).threads| == |s.threads|
  {
  }

  lemma {:induction false} OthersStay(s: State, a: Action, t: nat)
    requires t < |s.threads| == |Step(s, a).threads| && a.t != t
    ensures Step(s, a).threads[t] == s.threads[t]
  {
  }

  lemma {:induction false} OwnMissing(s: State, t: nat, el: nat)
    requires t < |s.threads| == |Advance(s, t).threads| && Missing(Advance(s, t).threads[t], el)
    ensures Missing(s.threads[t], el)
  {
  }

  lemma {:induction false} OwnStep(s: State, a: Action, t: nat, el: nat)
    requires t < |s.threads| == |Step(s, a).threads| && Missing(Step(s, a).threads[t], el)
    ensures Missing(s.threads[t], el) || (a == Miss(t, el) && Begins(s, t))
  {
    if a.t != t {
      OthersStay(s, a, t);
    } else if a.Go? {
      OwnMissing(s, t, el);
    }
  }

  lemma {:induction false} NewResult(s: State, a: Action, x: (nat, nat))
    requires x in Step(s, a).results && x !in s.results
    ensures a.Go? && a.t < |s.threads| && Missing(s.threads[a.t], x.0)
  {
  }

  /** A thread in handleMiss is there for the location it was called on. */
  lemma {:induction false} MissingAsked(n: nat, acts: seq<Action>, t: nat, el: nat)
    requires t < |Run(Init(n), acts).threads| && Missing(Run(Init(n), acts).threads[t], el)
    ensures Asked(Init(n), acts, t) == Some(el)
  {
    if acts != [] {
      var front, a := acts[..|acts| - 1], acts[|acts| - 1];
      ThreadsStay(Init(n), front);
      ThreadsStay(Init(n), acts);
      OwnStep(Run(Init(n), front), a, t, el);
      if !(a.Miss? && a.t == t && Begins(Run(Init(n), front), t)) {
        MissingAsked(n, front, t, el);
      }
    }
  }

  lemma {:induction false} ThreadsStay(s: State, acts: seq<Action>)
    ensures |Run(s, acts).threads| == |s.threads|
  {
    if acts != [] {
      ThreadsStay(s, acts[..|acts| - 1]);
      SizeStays(Run(s, acts[..|acts| - 1]), acts[|acts| - 1]);
    }
  }

  /** Every result is that of a call on its location. */
  lemma {:induction false} ResultsAsked(n: nat, acts: seq<Action>, x: (nat, nat)) returns (t: nat)
    requires x in Run(Init(n), acts).results
    ensures Miss(t, x.0) in acts
  {
    var front, a := acts[..|acts| - 1], acts[|acts| - 1];
    var s := Run(Init(n), front);
    assert acts == front + [a];
    if x in s.results {
      t := ResultsAsked(n, front, x);
    } else {
      NewResult(s, a, x);
      t := a.t;
      MissingAsked(n, front, t, x.0);
      AskedIn(Init(n), front, t);
    }
  }

  /** A call is not dropped: it goes on, or it has returned. */
  lemma {:induction false} MissGoesOn(s: State, a: Action, t: nat, el: nat)
    requires t < |s.threads| && Missing(s.threads[t], el)
    ensures |Step(s, a).threads| == |s.threads| && s.results <= Step(s, a).results
    ensures Missing(Step(s, a).threads[t], el) || exists rep :: (el, rep) in Step(s, a).results
  {
    if a == Go(t) && s.threads[t].Unlocking? {
      assert (el, s.threads[t].rep) in Step(s, a).results;
    }
  }

  ghost predicate Returned(s: State, el: nat) {
    exists rep :: (el, rep) in s.results
  }

  lemma {:induction false} ReturnedStays(s: State, a: Action, el: nat)
    requires Returned(s, el)
    ensures Returned(Step(s, a), el)
  {
    var rep :| (el, rep) in s.results;
    assert (el, rep) in Step(s, a).results;
  }

  /** Every miss is still under way on its location or has had a result for it. */
  lemma {:induction false} MissAnswered(s: State, acts: seq<Action>, k: nat)
    requires k < |acts| && acts[k].Miss? && Begins(Run(s, acts[..k]), acts[k].t)
    ensures acts[k].t < |Run(s, acts).threads|
    ensures Missing(Run(s, acts).threads[acts[k].t], acts[k].el) || Returned(Run(s, acts), acts[k].el)
  {
    var front, a, t, el := acts[..|acts| - 1], acts[|acts| - 1], acts[k].t, acts[k].el;
    if k < |acts| - 1 {
      assert front[..k] == acts[..k];
      MissAnswered(s, front, k);
      ThreadsStay(s, front);
      ThreadsStay(s, acts);
      if Returned(Run(s, front), el) {
        ReturnedStays(Run(s, front), a, el);
      } else {
        MissGoesOn(Run(s, front), a, t, el);
      }
    } else {
      assert acts[..k] == front;
    }
  }

  // ----- what a walk sees

  predicate WalkingOver(pc: PC, snap: seq<nat>) {
    (pc.Walking? || pc.Walked?) && pc.snap == snap
  }

  /** The list as it was when thread t began its last walk. */
  function ListAtWalk(s: State, acts: seq<Action>, t: nat): seq<nat> {
    if acts == [] then []
    else
      var front, a := acts[..|acts| - 1], acts[|acts| - 1];
      if a == Walk(t) && Begins(Run(s, front), t) then Run(s, front).list else ListAtWalk(s, front, t)
  }

  lemma {:induction false} WalkKeeps(s: State, a: Action, t: nat)
    requires t < |s.threads| == |Step(s, a).threads|
    requires Step(s, a).threads[t].Walking? || Step(s, a).threads[t].Walked?
    ensures var snap := Step(s, a).threads[t].snap;
            if a == Walk(t) && Begins(s, t) then snap == s.list else WalkingOver(s.threads[t], snap)
  {
    if a.t != t { OthersStay(s, a, t); }
  }

  lemma {:induction false} WalkIsOver(n: nat, acts: seq<Action>, t: nat)
    requires t < |Run(Init(n), acts).threads|
    requires var pc := Run(Init(n), acts).threads[t]; pc.Walking? || pc.Walked?
    ensures Run(Init(n), acts).threads[t].snap == ListAtWalk(Init(n), acts, t)
  {
    if acts != [] {
      var front, a := acts[..|acts| - 1], acts[|acts| - 1];
      ThreadsStay(Init(n), front);
      ThreadsStay(Init(n), acts);
      WalkKeeps(Run(Init(n), front), a, t);
      if !(a == Walk(t) && Begins(Run(Init(n), front), t)) {
        WalkIsOver(n, front, t);
      }
    }
  }

  /** When a walk has ended, it has seen, in order, the reps of all the nodes that were on the
      list when it began, and no others. */
  lemma {:induction false} WalkSeesList(n: nat, acts: seq<Action>, t: nat)
    requires t < |Run(Init(n), acts).threads| && Run(Init(n), acts).threads[t].Walked?
    ensures var s, list := Run(Init(n), acts), ListAtWalk(Init(n), acts, t);
            && |s.threads[t].seen| == |list|
            && forall i :: 0 <= i < |list| ==> list[i] in s.mem && s.threads[t].seen[i] == s.mem[list[i]].rep
  {
    WalkIsOver(n, acts, t);
    WalkSeesSnapshot(n, acts, t);
  }

  // ----- every call returns

  /** A thread that may yet put a node on the list. */
  predicate Maker(pc: PC) {
    pc.Wanting? || pc.Searching? || pc.Creating? || Pending(pc)
  }

  function Makers(ts: seq<PC>): nat {
    if ts == [] then 0 else (if Maker(ts[0]) then 1 else 0) + Makers(ts[1..])
  }

  /** How many accesses a thread has before it at most, with a list of len nodes that will not
      grow beyond cap. */
  function Steps(pc: PC, len: nat, cap: nat): int {
    match pc
    case Idle => 0
    case Walked(_, _) => 1
    case Walking(_, seen, snap) => |snap| - |seen| + 2
    case Unlocking(_, _) => 1
    case Publishing(_, _, _) => 2
    case Filling(_, _, _) => 3
    case Allocating(_, _) => 4
    case Creating(_) => 5
    case Searching(_, _, pos) => len - pos + 6
    case Wanting(_) => cap + 7
  }

  function Work(ts: seq<PC>, len: nat, cap: nat): int {
    if ts == [] then 0 else Steps(ts[0], len, cap) + Work(ts[1..], len, cap)
  }

  function Cap(s: State): nat { |s.list| + Makers(s.threads) }

  function Left(s: State): int { Work(s.threads, |s.list|, Cap(s)) }

  lemma {:induction false} MakersUpdate(ts: seq<PC>, t: nat, pc: PC)
    requires t < |ts|
    ensures Makers(ts[t := pc]) + (if Maker(ts[t]) then 1 else 0) == Makers(ts) + if Maker(pc) then 1 else 0
  {
    if t == 0 {
      assert ts[t := pc][1..] == ts[1..];
    } else {
      assert ts[t := pc][1..] == ts[1..][t - 1 := pc];
      MakersUpdate(ts[1..], t - 1, pc);
    }
  }

  lemma {:induction false} WorkLeast(ts: seq<PC>, len: nat, cap: nat)
    requires forall t :: 0 <= t < |ts| ==> Steps(ts[t], len, cap) >= 0
    ensures Work(ts, len, cap) >= 0
  {
    if ts != [] {
      assert forall t :: 0 <= t < |ts| - 1 ==> ts[1..][t] == ts[t + 1];
      WorkLeast(ts[1..], len, cap);
    }
  }

  lemma {:induction false} WorkMost(ts: seq<PC>, len: nat, cap: nat)
    requires forall t :: 0 <= t < |ts| ==> Steps(ts[t], len, cap) <= cap + 7
    ensures Work(ts, len, cap) <= |ts| * (cap + 7)
  {
    if ts != [] {
      assert forall t :: 0 <= t < |ts| - 1 ==> ts[1..][t] == ts[t + 1];
      WorkMost(ts[1..], len, cap);
    }
  }

  /** No thread has more before it than it had, and one thread has less. */
  lemma {:induction false} WorkLess(ts: seq<PC>, us: seq<PC>, len: nat, len': nat, cap: nat, cap': nat, t: nat)
    requires |us| == |ts| && t <= |ts|
    requires forall u :: 0 <= u < |ts| ==> Steps(us[u], len', cap') <= Steps(ts[u], len, cap)
    requires t < |ts| ==> Steps(us[t], len', cap') < Steps(ts[t], len, cap)
    ensures Work(us, len', cap') + (if t < |ts| then 1 else 0) <= Work(ts, len, cap)
  {
    if ts != [] {
      assert forall u :: 0 <= u < |ts| - 1 ==> ts[1..][u] == ts[u + 1] && us[1..][u] == us[u + 1];
      WorkLess(ts[1..], us[1..], len, len', cap, cap', if t == 0 then |ts| - 1 else t - 1);
    }
  }

  /** An access that changes the state. */
  predicate Moves(s: State, t: nat) {
    t < |s.threads| && Step(s, Go(t)) != s
  }

  lemma {:induction false} WalkingSteps(s: State, t: nat)
    requires Inv(s) && t < |s.threads| && s.threads[t].Walking?
    ensures var pc, r := s.threads[t], Advance(s, t);
            && |pc.seen| <= |pc.snap|
            && Steps(r.threads[t], |r.list|, Cap(r)) < Steps(pc, |s.list|, Cap(s))
  {
    var pc := s.threads[t];
    assert Knows(s, pc);
    if |pc.seen| < |pc.snap| {
      var d := |s.list| - |pc.snap|;
      assert pc.snap[|pc.seen|] == s.list[d + |pc.seen|] && Linked(s.mem, s.list, d + |pc.seen|);
    }
  }

  lemma {:induction false} SearchingSteps(s: State, t: nat)
    requires Inv(s) && t < |s.threads| && s.threads[t].Searching?
    ensures var pc, r := s.threads[t], Advance(s, t);
            && pc.pos <= |s.list|
            && Steps(r.threads[t], |r.list|, Cap(r)) < Steps(pc, |s.list|, Cap(s))
  {
    var pc := s.threads[t];
    assert Knows(s, pc);
    if pc.pos < |s.list| { assert Linked(s.mem, s.list, pc.pos); }
  }

  lemma {:induction false} CapShrinks(s: State, t: nat)
    requires t < |s.threads|
    ensures Cap(Advance(s, t)) <= Cap(s)
  {
    MakersUpdate(s.threads, t, Advance(s, t).threads[t]);
    assert s.threads[t := s.threads[t]] == s.threads;
  }

  lemma {:induction false} OwnSteps(s: State, t: nat)
    requires Inv(s) && Moves(s, t)
    ensures var r := Advance(s, t); Steps(r.threads[t], |r.list|, Cap(r)) < Steps(s.threads[t], |s.list|, Cap(s))
  {
    match s.threads[t] {
      case Walking(_, _, _) => WalkingSteps(s, t);
      case Searching(_, _, _) => SearchingSteps(s, t);
      case Wanting(_) => assert |s.list| <= Cap(s);
      case _ =>
    }
  }

  lemma {:induction false} OtherSteps(s: State, t: nat, u: nat)
    requires Inv(s) && t < |s.threads| && u < |s.threads| && u != t
    ensures var r := Advance(s, t);
            && |r.threads| == |s.threads| && r.threads[u] == s.threads[u]
            && Steps(r.threads[u], |r.list|, Cap(r)) <= Steps(s.threads[u], |s.list|, Cap(s))
  {
    CapShrinks(s, t);
    assert Holder(s.threads[t]) ==> !Holder(s.threads[u]);
  }

  /** Every access that changes the state brings the end of all calls nearer. */
  lemma {:induction false} MoveWorks(s: State, t: nat)
    requires Inv(s) && Moves(s, t)
    ensures Left(Step(s, Go(t))) < Left(s)
  {
    var r := Advance(s, t);
    OwnSteps(s, t);
    forall u | 0 <= u < |s.threads|
      ensures |r.threads| == |s.threads|
      ensures Steps(r.threads[u], |r.list|, Cap(r)) <= Steps(s.threads[u], |s.list|, Cap(s))
    {
      if u != t { OtherSteps(s, t, u); }
    }
    WorkLess(s.threads, r.threads, |s.list|, |r.list|, Cap(s), Cap(r), t);
  }

  lemma {:induction false} StepsAre(s: State, t: nat)
    requires Inv(s) && t < |s.threads|
    ensures 0 <= Steps(s.threads[t], |s.list|, Cap(s)) <= Cap(s) + 7
  {
    assert Knows(s, s.threads[t]);
  }

  lemma {:induction false} LeftIs(s: State)
    requires Inv(s)
    ensures 0 <= Left(s) <= |s.threads| * (Cap(s) + 7)
    ensures Cap(s) <= |s.list| + |s.threads|
  {
    forall t | 0 <= t < |s.threads| ensures 0 <= Steps(s.threads[t], |s.list|, Cap(s)) <= Cap(s) + 7 {
      StepsAre(s, t);
    }
    WorkLeast(s.threads, |s.list|, Cap(s));
    WorkMost(s.threads, |s.list|, Cap(s));
    MakersMost(s.threads);
  }

  lemma {:induction false} MakersMost(ts: seq<PC>)
    ensures Makers(ts) <= |ts|
  {
    if ts != [] {
      MakersMost(ts[1..]);
    }
  }

  /** As long as a thread is in a call, some thread can move: it, or the one in the lock. */
  lemma {:induction false} SomeMoves(s: State, u: nat) returns (t: nat)
    requires Inv(s) && u < |s.threads| && !s.threads[u].Idle?
    ensures Moves(s, t)
  {
    t := u;
    if s.threads[u].Wanting? && s.lock {
      t :| t < |s.threads| && Holder(s.threads[t]);
    }
    assert Step(s, Go(t)).threads[t] != s.threads[t] by { MovesOn(s, t); }
  }

  lemma {:induction false} MovesOn(s: State, t: nat)
    requires Inv(s) && t < |s.threads| && !s.threads[t].Idle? && (s.threads[t].Wanting? ==> !s.lock)
    ensures Step(s, Go(t)).threads[t] != s.threads[t]
  {
  }

  /** Accesses that change the state, one after another; a failed attempt to take the lock is
      passed over. */
  predicate Busy(s: State, schedule: seq<nat>) {
    schedule == [] ||
    (var front, t := schedule[..|schedule| - 1], schedule[|schedule| - 1];
     Busy(s, front) && Moves(Run(s, Gos(front)), t))
  }

  function Gos(schedule: seq<nat>): seq<Action> {
    seq(|schedule|, i requires 0 <= i < |schedule| => Go(schedule[i]))
  }

  lemma {:induction false} GosLast(s: State, schedule: seq<nat>, t: nat)
    ensures Gos(schedule + [t]) == Gos(schedule) + [Go(t)]
    ensures Run(s, Gos(schedule + [t])) == Step(Run(s, Gos(schedule)), Go(t))
    ensures (schedule + [t])[..|schedule|] == schedule
  {
    assert (Gos(schedule) + [Go(t)])[..|schedule|] == Gos(schedule);
  }

  lemma {:induction false} OneMove(s: State, t: nat)
    requires Inv(s) && Moves(s, t)
    ensures Inv(Step(s, Go(t))) && Left(Step(s, Go(t))) < Left(s) && |Step(s, Go(t)).threads| == |s.threads|
  {
    StepInv(s, Go(t));
    MoveWorks(s, t);
    SizeStays(s, Go(t));
  }

  lemma {:induction false} BusyRun(s: State, schedule: seq<nat>)
    requires Inv(s) && Busy(s, schedule)
    ensures Inv(Run(s, Gos(schedule))) && Left(Run(s, Gos(schedule))) + |schedule| <= Left(s)
    ensures |Run(s, Gos(schedule)).threads| == |s.threads|
  {
    if schedule != [] {
      var front, t := schedule[..|schedule| - 1], schedule[|schedule| - 1];
      assert schedule == front + [t];
      BusyRun(s, front);
      GosLast(s, front, t);
      OneMove(Run(s, Gos(front)), t);
    }
  }

  lemma {:induction false} BusyFinish(s: State, schedule: seq<nat>) returns (all: seq<nat>)
    requires Busy(s, schedule) && Inv(Run(s, Gos(schedule)))
    ensures schedule <= all && Busy(s, all)
    ensures AllIdle(Run(s, Gos(all)))
    decreases Left(Run(s, Gos(schedule)))
  {
    var r := Run(s, Gos(schedule));
    if u: nat :| u < |r.threads| && !r.threads[u].Idle? {
      var t := SomeMoves(r, u);
      GosLast(s, schedule, t);
      OneMove(r, t);
      LeftIs(r);
      all := BusyFinish(s, schedule + [t]);
    } else {
      all := schedule;
    }
  }

  lemma {:induction false} NoneMoves(s: State)
    requires Inv(s)
    ensures (forall t :: 0 <= t < |s.threads| ==> !Moves(s, t)) <==>
            (forall t :: 0 <= t < |s.threads| ==> s.threads[t].Idle?)
  {
    if u: nat :| u < |s.threads| && !s.threads[u].Idle? {
      var t := SomeMoves(s, u);
    }
  }

  ghost predicate AllIdle(s: State) {
    forall t :: 0 <= t < |s.threads| ==> s.threads[t].Idle?
  }

  lemma {:induction false} BusyMost(s: State, schedule: seq<nat>)
    requires Inv(s) && Busy(s, schedule)
    ensures |schedule| <= |s.threads| * (|s.list| + |s.threads| + 7)
  {
    BusyRun(s, schedule);
    LeftIs(s);
    LeftIs(Run(s, Gos(schedule)));
    Multiply(|s.threads|, Cap(s), |s.list| + |s.threads|);
  }

  /** From every state that keeps the invariant, whatever the threads are in the middle of, no
      access that changes anything is left after n(l + n + 7) of them at most, for n threads and
      a list of l nodes; that is so exactly when every call has returned, and the end can be
      reached from everywhere on the way. */
  lemma {:induction false} CallsReturn(s: State, schedule: seq<nat>)
    requires Inv(s) && Busy(s, schedule)
    ensures |schedule| <= |s.threads| * (|s.list| + |s.threads| + 7)
    ensures var r := Run(s, Gos(schedule));
            (forall t :: 0 <= t < |r.threads| ==> !Moves(r, t)) <==> AllIdle(r)
    ensures exists all :: schedule <= all && Busy(s, all) && AllIdle(Run(s, Gos(all)))
  {
    BusyMost(s, schedule);
    BusyRun(s, schedule);
    NoneMoves(Run(s, Gos(schedule)));
    var all := BusyFinish(s, schedule);
  }

  lemma {:induction false} Multiply(n: nat, a: nat, b: nat)
    requires a <= b
    ensures n * (a + 7) <= n * (b + 7)
  {
  }

  // ----- a miss on its own

  lemma {:induction false} MissEnds(s: State, t: nat)
    requires Inv(s) && t < |s.threads| && s.threads[t].Unlocking?
    ensures var r, pc := Step(s, Go(t)), s.threads[t];
            && t < |r.threads| && r.threads[t].Idle? && (pc.el, pc.rep) in r.results
            && RecordedAs(r.mem, r.list, pc.el, pc.rep)
  {
    assert Knows(s, s.threads[t]);
  }

  lemma {:induction false} MissTurn(s: State, t: nat, el: nat)
    requires t < |s.threads| && Missing(s.threads[t], el) && !s.threads[t].Unlocking?
    requires s.threads[t].Wanting? ==> !s.lock
    ensures var q := Step(s, Go(t)); t < |q.threads| && Missing(q.threads[t], el) && !q.threads[t].Wanting?
  {
  }

  /** What the rest of a miss does when its thread is in the critical section or can enter it. */
  lemma {:induction false} MissAlone(s: State, t: nat, el: nat) returns (m: nat, rep: nat)
    requires Inv(s) && t < |s.threads| && Missing(s.threads[t], el) && (s.threads[t].Wanting? ==> !s.lock)
    ensures var r := Run(s, Repeat(t, m));
            && t < |r.threads| && r.threads[t].Idle? && (el, rep) in r.results && RecordedAs(r.mem, r.list, el, rep)
    decreases Left(s)
  {
    var k := 0;
    if s.threads[t].Unlocking? {
      rep := s.threads[t].rep;
      MissEnds(s, t);
    } else {
      MovesOn(s, t);
      OneMove(s, t);
      LeftIs(Step(s, Go(t)));
      MissTurn(s, t, el);
      k, rep := MissAlone(Step(s, Go(t)), t, el);
    }
    m := k + 1;
    RepeatFirst(s, t, k);
    RepeatFirst(Step(s, Go(t)), t, 0);
  }

  function Repeat(t: nat, m: nat): seq<Action> {
    seq(m, _ => Go(t))
  }

  lemma {:induction false} RepeatFirst(s: State, t: nat, k: nat)
    ensures Run(s, Repeat(t, k + 1)) == Run(Step(s, Go(t)), Repeat(t, k))
    ensures Run(s, Repeat(t, 0)) == s
  {
    assert Repeat(t, k + 1)[..k] == Repeat(t, k);
    if k > 0 {
      assert Repeat(t, k)[..k - 1] == Repeat(t, k - 1);
      RepeatFirst(s, t, k - 1);
    }
  }

  lemma {:induction false} RunLast(s: State, acts: seq<Action>, a: Action)
    ensures Run(s, acts + [a]) == Step(Run(s, acts), a)
  {
    assert (acts + [a])[..|acts|] == acts;
  }

  lemma {:induction false} RunThen(s: State, a: Action, acts: seq<Action>)
    ensures Run(s, [a] + acts) == Run(Step(s, a), acts)
  {
    if acts == [] {
      assert [a] + acts == [] + [a];
      RunLast(s, [], a);
    } else {
      var front, b := acts[..|acts| - 1], acts[|acts| - 1];
      assert acts == front + [b] && [a] + acts == ([a] + front) + [b];
      RunThen(s, a, front);
      RunLast(s, [a] + front, b);
      RunLast(Step(s, a), front, b);
    }
  }

  /** A miss that finds the lock free and runs without interruption returns the representative
      that is then on the list for the location it was called on. */
  lemma {:induction false} MissReturns(s: State, t: nat, el: nat) returns (m: nat, rep: nat)
    requires Inv(s) && Begins(s, t) && !s.lock
    ensures var r := Run(s, [Miss(t, el)] + Repeat(t, m));
            && t < |r.threads| && r.threads[t].Idle? && (el, rep) in r.results && RecordedAs(r.mem, r.list, el, rep)
  {
    StepInv(s, Miss(t, el));
    m, rep := MissAlone(Step(s, Miss(t, el)), t, el);
    RunThen(s, Miss(t, el), Repeat(t, m));
  }

  // ----- a walk on its own

  lemma {:induction false} WalkTurn(s: State, t: nat)
    requires Inv(s) && t < |s.threads| && s.threads[t].Walking?
    ensures var q, pc := Step(s, Go(t)), s.threads[t];
            && q.mem == s.mem && q.list == s.list && t < |q.threads| && |pc.seen| <= |pc.snap|
            && if |pc.seen| == |pc.snap| then q.threads[t] == Walked(pc.seen, pc.snap)
               else q.threads[t].Walking? && q.threads[t].snap == pc.snap && |q.threads[t].seen| == |pc.seen| + 1
  {
    var pc := s.threads[t];
    assert Knows(s, pc);
    if |pc.seen| < |pc.snap| {
      var d := |s.list| - |pc.snap|;
      assert pc.snap[|pc.seen|] == s.list[d + |pc.seen|] && Linked(s.mem, s.list, d + |pc.seen|);
    }
  }

  lemma {:induction false} WalkAlone(s: State, t: nat, k: nat)
    requires Inv(s) && t < |s.threads| && s.threads[t].Walking?
    requires |s.threads[t].seen| + k == |s.threads[t].snap|
    ensures var r := Run(s, Repeat(t, k + 1));
            && r.mem == s.mem && t < |r.threads| && r.threads[t].Walked? && Knows(r, r.threads[t])
            && r.threads[t].snap == s.threads[t].snap
    decreases k
  {
    var q := Step(s, Go(t));
    WalkTurn(s, t);
    StepInv(s, Go(t));
    RepeatFirst(s, t, k);
    if k > 0 {
      WalkAlone(q, t, k - 1);
    } else {
      RepeatFirst(q, t, 0);
      assert Knows(q, q.threads[t]);
    }
  }

  lemma {:induction false} WalkBegins(s: State, t: nat)
    requires Inv(s) && Begins(s, t)
    ensures var q := Step(s, Walk(t));
            Inv(q) && t < |q.threads| && q.threads[t] == Walking(s.head, [], s.list) && q.mem == s.mem
  {
    StepInv(s, Walk(t));
  }

  lemma {:induction false} WalkedHas(s: State, r: State, t: nat)
    requires t < |r.threads| && Knows(r, r.threads[t]) && r.mem == s.mem
    requires r.threads[t].Walked? && r.threads[t].snap == s.list
    ensures |r.threads[t].seen| == |s.list|
    ensures forall i :: 0 <= i < |s.list| ==> r.threads[t].seen[i] == RepAt(s, i)
  {
  }

  /** An enumeration that is not interrupted ends after one access for each node and one more,
      with all representatives on the list, in order. */
  lemma {:induction false} WalkReturns(s: State, t: nat)
    requires Inv(s) && Begins(s, t)
    ensures var r := Run(s, [Walk(t)] + Repeat(t, |s.list| + 1));
            && t < |r.threads| && r.threads[t].Walked? && |r.threads[t].seen| == |s.list|
            && forall i :: 0 <= i < |s.list| ==> r.threads[t].seen[i] == RepAt(s, i)
  {
    var q := Step(s, Walk(t));
    WalkBegins(s, t);
    WalkAlone(q, t, |s.list|);
    RunThen(s, Walk(t), Repeat(t, |s.list| + 1));
    WalkedHas(s, Run(q, Repeat(t, |s.list| + 1)), t);
  }
}
