/**
 The sense-reversing barrier of apps/bindtst/bindtst.c as a machine whose steps are the
 memory accesses of the code: any thread may take the next step at any time.
 */
module Barrier {

  /** Where a thread stands: outside a call; after storing its own sense; after its
      fetch-and-sub returned 1; after it reset the count; waiting for the sense to change. */
  datatype PC = Outside | Toggled | Last | Reset | Spinning

  /** A thread's program counter and sense, and how often it took the count and returned. */
  datatype Thread = Thread(pc: PC, sense: bool, entered: nat, left: nat)

  /** The shared barrier, the threads, and how often the shared sense was written. */
  datatype State = State(parties: nat, count: int, sense: bool, flips: nat, threads: seq<Thread>)

  /** init_barrier, with every thread's sense 0. */
  function Init(n: nat): State {
    State(n, n, false, 0, seq(n, _ => Thread(Outside, false, 0, 0)))
  }

  /** The next memory access of thread t. A spinning thread that does not see its sense
      stays where it is. */
  function Step(s: State, t: nat): State
    requires t < |s.threads|
  {
    var th := s.threads[t];
    match th.pc
    case Outside =>
      s.(threads := s.threads[t := th.(sense := !th.sense, pc := Toggled)])
    case Toggled =>
      var next := if s.count == 1 then Last else Spinning;
      s.(count := s.count - 1, threads := s.threads[t := th.(pc := next, entered := th.entered + 1)])
    case Last =>
      s.(count := s.parties, threads := s.threads[t := th.(pc := Reset)])
    case Reset =>
      s.(sense := th.sense, flips := s.flips + 1,
         threads := s.threads[t := th.(pc := Outside, left := th.left + 1)])
    case Spinning =>
      if s.sense == th.sense
      then s.(threads := s.threads[t := th.(pc := Outside, left := th.left + 1)])
      else s
  }

  predicate ValidSchedule(n: nat, schedule: seq<nat>) {
    forall i :: 0 <= i < |schedule| ==> schedule[i] < n
  }

  /** The state after the threads took their steps in the order of the schedule. */
  function Run(s: State, schedule: seq<nat>): (r: State)
    requires ValidSchedule(|s.threads|, schedule)
    ensures |r.threads| == |s.threads|
  {
    if schedule == [] then s
    else Step(Run(s, schedule[..|schedule| - 1]), schedule[|schedule| - 1])
  }

  // ----- the inductive invariant

  /** How many threads have not yet taken the count in the round after f flips. */
  function Awaited(ts: seq<Thread>, f: nat): nat {
    if ts == [] then 0 else (if ts[0].entered == f then 1 else 0) + Awaited(ts[1..], f)
  }

  predicate Odd(n: nat) { n % 2 == 1 }

  /** What a thread's own fields say about the round, after f flips. */
  predicate ThreadOk(th: Thread, f: nat) {
    match th.pc
    case Outside => th.entered == th.left == f && th.sense == Odd(f)
    case Toggled => th.entered == th.left == f && th.sense == !Odd(f)
    case Spinning => th.entered == th.left + 1 && f <= th.entered <= f + 1 && th.sense == Odd(th.entered)
    case _ => th.entered == th.left + 1 == f + 1 && th.sense == Odd(th.entered)
  }

  predicate IsLast(th: Thread) { th.pc == Last || th.pc == Reset }

  /** Every thread is where the round allows, and at most one has the last unit of the count. */
  ghost predicate ThreadsOk(s: State) {
    && |s.threads| == s.parties >= 1
    && s.sense == Odd(s.flips)
    && (forall t :: 0 <= t < |s.threads| ==> ThreadOk(s.threads[t], s.flips))
    && (forall t, u :: 0 <= t < u < |s.threads| ==> !(IsLast(s.threads[t]) && IsLast(s.threads[u])))
  }

  /** The count is the number of threads still to come, until the last one resets it. */
  ghost predicate CountOk(s: State) {
    && (forall t :: 0 <= t < |s.threads| && IsLast(s.threads[t]) ==>
          && Awaited(s.threads, s.flips) == 0
          && s.count == if s.threads[t].pc == Last then 0 else s.parties)
    && ((forall t :: 0 <= t < |s.threads| ==> !IsLast(s.threads[t])) ==>
          s.count == Awaited(s.threads, s.flips) >= 1)
  }

  ghost predicate Inv(s: State) {
    ThreadsOk(s) && CountOk(s)
  }

  lemma {:induction false} AwaitedUpdate(ts: seq<Thread>, f: nat, t: nat, th: Thread)
    requires t < |ts|
    ensures Awaited(ts[t := th], f) ==
            Awaited(ts, f) - (if ts[t].entered == f then 1 else 0) + (if th.entered == f then 1 else 0)
  {
    if t == 0 {
      assert ts[t := th][1..] == ts[1..];
    } else {
      assert ts[t := th][1..] == ts[1..][t - 1 := th];
      AwaitedUpdate(ts[1..], f, t - 1, th);
    }
  }

  lemma {:induction false} AwaitedNone(ts: seq<Thread>, f: nat)
    ensures Awaited(ts, f) == 0 <==> forall t :: 0 <= t < |ts| ==> ts[t].entered != f
  {
    if ts != [] {
      AwaitedNone(ts[1..], f);
      assert forall t :: 0 < t < |ts| ==> ts[t] == ts[1..][t - 1];
      assert forall t :: 0 <= t < |ts| - 1 ==> ts[1..][t] == ts[t + 1];
    }
  }

  lemma {:induction false} AwaitedAll(ts: seq<Thread>, f: nat)
    requires forall t :: 0 <= t < |ts| ==> ts[t].entered == f
    ensures Awaited(ts, f) == |ts|
  {
    if ts != [] {
      AwaitedAll(ts[1..], f);
    }
  }

  lemma {:induction false} InitInv(n: nat)
    requires n >= 1
    ensures Inv(Init(n))
  {
    AwaitedAll(Init(n).threads, 0);
  }

  /** A step that changes one thread only, not being the last, and not its count. */
  lemma {:induction false} QuietInv(s: State, t: nat, th: Thread)
    requires Inv(s) && t < |s.threads| && !IsLast(s.threads[t]) && !IsLast(th)
    requires th.entered == s.threads[t].entered && ThreadOk(th, s.flips)
    ensures Inv(s.(threads := s.threads[t := th]))
  {
    var ts := s.threads[t := th];
    AwaitedUpdate(s.threads, s.flips, t, th);
    assert forall u :: 0 <= u < |ts| ==> IsLast(ts[u]) == IsLast(s.threads[u]);
  }

  /** A step of a thread that is neither taking the count nor resetting the barrier. */
  lemma {:induction false} QuietStepInv(s: State, t: nat)
    requires Inv(s) && t < |s.threads|
    requires s.threads[t].pc == Outside || s.threads[t].pc == Spinning
    ensures Inv(Step(s, t))
  {
    if Step(s, t) != s {
      QuietInv(s, t, Step(s, t).threads[t]);
    }
  }

  lemma {:induction false} OthersSame(s: State, t: nat)
    requires t < |s.threads|
    ensures |Step(s, t).threads| == |s.threads|
    ensures forall u :: 0 <= u < |s.threads| && u != t ==> Step(s, t).threads[u] == s.threads[u]
  {
  }

  /** While a thread is about to take the count, nobody is between taking the last unit and
      changing the sense. */
  lemma {:induction false} NoneIsLast(s: State, t: nat)
    requires Inv(s) && t < |s.threads| && s.threads[t].pc == Toggled
    ensures forall u :: 0 <= u < |s.threads| ==> !IsLast(s.threads[u])
    ensures s.count == Awaited(s.threads, s.flips) >= 1
  {
    AwaitedNone(s.threads, s.flips);
    assert ThreadOk(s.threads[t], s.flips);
  }

  lemma {:induction false} CountStepCount(s: State, t: nat)
    requires Inv(s) && t < |s.threads| && s.threads[t].pc == Toggled
    ensures CountOk(Step(s, t))
  {
    var r := Step(s, t);
    NoneIsLast(s, t);
    OthersSame(s, t);
    AwaitedUpdate(s.threads, s.flips, t, r.threads[t]);
    assert ThreadOk(s.threads[t], s.flips);
    assert Awaited(r.threads, r.flips) == s.count - 1;
    assert IsLast(r.threads[t]) <==> s.count == 1;
  }

  /** Taking the count: the thread that takes the last unit is the last to arrive. */
  lemma {:induction false} CountStepInv(s: State, t: nat)
    requires Inv(s) && t < |s.threads| && s.threads[t].pc == Toggled
    ensures Inv(Step(s, t))
  {
    NoneIsLast(s, t);
    OthersSame(s, t);
    assert ThreadOk(s.threads[t], s.flips);
    CountStepCount(s, t);
  }

  /** The last thread's first store: the count is back at the number of parties. */
  lemma {:induction false} ResetStepInv(s: State, t: nat)
    requires Inv(s) && t < |s.threads| && s.threads[t].pc == Last
    ensures Inv(Step(s, t))
  {
    var r := Step(s, t);
    OthersSame(s, t);
    AwaitedUpdate(s.threads, s.flips, t, r.threads[t]);
    assert forall u :: 0 <= u < |s.threads| && u != t ==> !IsLast(s.threads[u]);
  }

  /** Before the sense changes, everybody has entered the round and left all earlier ones. */
  lemma {:induction false} AllArrived(s: State, t: nat)
    requires Inv(s) && t < |s.threads| && s.threads[t].pc == Reset
    ensures forall u :: 0 <= u < |s.threads| ==>
              s.threads[u].entered == s.flips + 1 && (u != t ==> s.threads[u].pc == Spinning)
  {
    AwaitedNone(s.threads, s.flips);
    assert forall u :: 0 <= u < |s.threads| ==> ThreadOk(s.threads[u], s.flips);
  }

  /** The last thread's second store: the sense. */
  lemma {:induction false} FlipStepInv(s: State, t: nat)
    requires Inv(s) && t < |s.threads| && s.threads[t].pc == Reset
    ensures Inv(Step(s, t))
  {
    var r := Step(s, t);
    OthersSame(s, t);
    AllArrived(s, t);
    assert ThreadOk(s.threads[t], s.flips);
    assert forall u :: 0 <= u < |r.threads| ==> r.threads[u].entered == r.flips;
    AwaitedAll(r.threads, r.flips);
  }

  lemma {:induction false} StepInv(s: State, t: nat)
    requires Inv(s) && t < |s.threads|
    ensures Inv(Step(s, t))
  {
    match s.threads[t].pc {
      case Outside => QuietStepInv(s, t);
      case Spinning => QuietStepInv(s, t);
      case Toggled => CountStepInv(s, t);
      case Last => ResetStepInv(s, t);
      case Reset => FlipStepInv(s, t);
    }
  }

  lemma {:induction false} RunInv(n: nat, schedule: seq<nat>)
    requires n >= 1 && ValidSchedule(n, schedule)
    ensures Inv(Run(Init(n), schedule))
  {
    if schedule == [] {
      InitInv(n);
    } else {
      RunInv(n, schedule[..|schedule| - 1]);
      StepInv(Run(Init(n), schedule[..|schedule| - 1]), schedule[|schedule| - 1]);
    }
  }

  // ----- what the barrier promises, over every run

  /** No thread returns from its k-th call before every thread has entered its k-th call, and
      the numbers of completed calls never differ by more than one. */
  lemma {:induction false} NoThreadRunsAhead(n: nat, schedule: seq<nat>, t: nat, u: nat)
    requires n >= 1 && ValidSchedule(n, schedule) && t < n && u < n
    ensures var ts := Run(Init(n), schedule).threads;
            ts[t].left <= ts[u].entered && ts[t].left <= ts[u].left + 1
  {
    RunInv(n, schedule);
  }

  /** When a step changes the shared sense, every thread has already returned from all the
      earlier rounds and has taken the count in the current one. */
  lemma {:induction false} SenseFlipsOnlyWhenAllArrived(n: nat, schedule: seq<nat>, t: nat, u: nat)
    requires n >= 1 && ValidSchedule(n, schedule) && t < n && u < n
    requires var s := Run(Init(n), schedule); Step(s, t).sense != s.sense
    ensures var s := Run(Init(n), schedule);
            s.threads[u].left == s.flips && s.threads[u].entered == s.flips + 1
  {
    RunInv(n, schedule);
    var s := Run(Init(n), schedule);
    AwaitedNone(s.threads, s.flips);
  }

  /** The barrier cannot get stuck: when every thread is inside a call, some thread can move. */
  lemma {:induction false} SomeThreadCanMove(n: nat, schedule: seq<nat>)
    requires n >= 1 && ValidSchedule(n, schedule)
    requires forall u :: 0 <= u < n ==> Run(Init(n), schedule).threads[u].pc != Outside
    ensures exists t :: 0 <= t < n && Step(Run(Init(n), schedule), t) != Run(Init(n), schedule)
  {
    RunInv(n, schedule);
    var s := Run(Init(n), schedule);
    AwaitedNone(s.threads, s.flips);
    var t :| 0 <= t < n && (IsLast(s.threads[t]) || s.threads[t].entered == s.flips);
    assert Step(s, t).threads[t] != s.threads[t];
  }

  // ----- every call returns

  /** How many of the accesses of its call a thread has behind it, of four at most. */
  function Phase(pc: PC): nat {
    match pc
    case Outside => 0
    case Toggled => 1
    case Last => 2
    case _ => 3
  }

  /** What the threads have still to do until each has returned from k calls. */
  function Work(ts: seq<Thread>, k: nat): int {
    if ts == [] then 0 else 4 * (k - ts[0].left) - Phase(ts[0].pc) + Work(ts[1..], k)
  }

  /** Nobody has begun a call beyond its k-th. */
  ghost predicate Within(ts: seq<Thread>, k: nat) {
    forall t :: 0 <= t < |ts| ==> ts[t].left < k || (ts[t].left == k && ts[t].pc == Outside)
  }

  /** Thread t has not returned from k calls yet, and its next access changes the state. */
  predicate Moves(s: State, k: nat, t: nat) {
    t < |s.threads| && s.threads[t].left < k && Step(s, t) != s
  }

  /** Every thread makes k calls; a spinning thread that would see the old sense is passed
      over. */
  predicate Busy(s: State, k: nat, schedule: seq<nat>) {
    schedule == [] ||
    (var front, t := schedule[..|schedule| - 1], schedule[|schedule| - 1];
     Busy(s, k, front) && ValidSchedule(|s.threads|, front) && Moves(Run(s, front), k, t))
  }

  lemma {:induction false} WorkUpdate(ts: seq<Thread>, k: nat, t: nat, th: Thread)
    requires t < |ts|
    ensures Work(ts[t := th], k) - Work(ts, k) == 4 * (ts[t].left - th.left) + Phase(ts[t].pc) - Phase(th.pc)
  {
    if t == 0 {
      assert ts[t := th][1..] == ts[1..];
    } else {
      assert ts[t := th][1..] == ts[1..][t - 1 := th];
      WorkUpdate(ts[1..], k, t - 1, th);
    }
  }

  lemma {:induction false} WorkNat(ts: seq<Thread>, k: nat)
    requires Within(ts, k)
    ensures Work(ts, k) >= 0
  {
    if ts != [] {
      assert Within(ts[1..], k) by {
        assert forall t :: 0 <= t < |ts| - 1 ==> ts[1..][t] == ts[t + 1];
      }
      WorkNat(ts[1..], k);
    }
  }

  lemma {:induction false} WorkAtFirst(ts: seq<Thread>, k: nat)
    requires forall t :: 0 <= t < |ts| ==> ts[t] == Thread(Outside, false, 0, 0)
    ensures Work(ts, k) == 4 * k * |ts|
  {
    if ts != [] {
      WorkAtFirst(ts[1..], k);
    }
  }

  /** An access that changes the state brings its thread nearer to the end of its call. */
  lemma {:induction false} MoveWorks(s: State, k: nat, t: nat)
    requires Within(s.threads, k) && Moves(s, k, t)
    ensures |Step(s, t).threads| == |s.threads| && Within(Step(s, t).threads, k)
    ensures Work(Step(s, t).threads, k) < Work(s.threads, k)
  {
    var th := Step(s, t).threads[t];
    OthersSame(s, t);
    assert Step(s, t).threads == s.threads[t := th];
    WorkUpdate(s.threads, k, t, th);
  }

  /** As long as a thread has calls to make, some such thread can move. */
  lemma {:induction false} SomeMoves(s: State, k: nat, u: nat) returns (t: nat)
    requires Inv(s) && u < |s.threads| && s.threads[u].left < k
    ensures Moves(s, k, t)
  {
    AwaitedNone(s.threads, s.flips);
    if s.flips >= k {
      t := u;
    } else {
      t :| t < |s.threads| && (IsLast(s.threads[t]) || s.threads[t].entered == s.flips);
    }
    assert ThreadOk(s.threads[t], s.flips);
    assert Step(s, t).threads[t] != s.threads[t];
  }

  lemma {:induction false} BusyRun(s: State, k: nat, schedule: seq<nat>)
    requires Inv(s) && Within(s.threads, k) && Busy(s, k, schedule)
    ensures ValidSchedule(|s.threads|, schedule)
    ensures Inv(Run(s, schedule)) && Within(Run(s, schedule).threads, k)
    ensures Work(Run(s, schedule).threads, k) + |schedule| <= Work(s.threads, k)
  {
    if schedule != [] {
      var front, t := schedule[..|schedule| - 1], schedule[|schedule| - 1];
      BusyRun(s, k, front);
      assert schedule == front + [t];
      StepInv(Run(s, front), t);
      MoveWorks(Run(s, front), k, t);
    }
  }

  lemma {:induction false} BusyLonger(s: State, k: nat, schedule: seq<nat>, t: nat)
    requires ValidSchedule(|s.threads|, schedule) && Busy(s, k, schedule) && Moves(Run(s, schedule), k, t)
    ensures Busy(s, k, schedule + [t]) && ValidSchedule(|s.threads|, schedule + [t])
    ensures Run(s, schedule + [t]) == Step(Run(s, schedule), t)
  {
    assert (schedule + [t])[..|schedule|] == schedule;
  }

  /** A schedule that is not finished can be. */
  lemma {:induction false} BusyFinish(s: State, k: nat, schedule: seq<nat>) returns (all: seq<nat>)
    requires ValidSchedule(|s.threads|, schedule) && Busy(s, k, schedule)
    requires Inv(Run(s, schedule)) && Within(Run(s, schedule).threads, k)
    ensures schedule <= all && Busy(s, k, all) && ValidSchedule(|s.threads|, all)
    ensures forall t :: 0 <= t < |s.threads| ==> Run(s, all).threads[t].left == k
    decreases Work(Run(s, schedule).threads, k)
  {
    var r := Run(s, schedule);
    if u: nat :| u < |r.threads| && r.threads[u].left < k {
      var t := SomeMoves(r, k, u);
      BusyLonger(s, k, schedule, t);
      MoveWorks(r, k, t);
      StepInv(r, t);
      WorkNat(r.threads, k);
      all := BusyFinish(s, k, schedule + [t]);
    } else {
      all := schedule;
    }
  }

  /** When every one of n threads makes k calls, all the calls return: after at most 4kn
      accesses that change anything, in whatever order the threads take them, no such access
      is left, and that is when everybody has returned k times; from everywhere on the way
      that end can be reached. */
  lemma {:induction false} CallsReturn(n: nat, k: nat, schedule: seq<nat>)
    requires n >= 1 && Busy(Init(n), k, schedule)
    ensures ValidSchedule(n, schedule) && |schedule| <= 4 * k * n
    ensures (forall t :: 0 <= t < n ==> !Moves(Run(Init(n), schedule), k, t))
       <==> (forall t :: 0 <= t < n ==> Run(Init(n), schedule).threads[t].left == k)
    ensures exists all :: schedule <= all && Busy(Init(n), k, all) && ValidSchedule(n, all)
                       && forall t :: 0 <= t < n ==> Run(Init(n), all).threads[t].left == k
  {
    InitInv(n);
    BusyRun(Init(n), k, schedule);
    var r := Run(Init(n), schedule);
    WorkNat(r.threads, k);
    WorkAtFirst(Init(n).threads, k);
    if u: nat :| u < n && r.threads[u].left != k {
      var t := SomeMoves(r, k, u);
    }
    var all := BusyFinish(Init(n), k, schedule);
  }

  // ----- the same machine, updating the barrier structure in place

  class BarrierSystem {
    var parties: nat
    var count: int
    var sense: bool
    ghost var flips: nat
    const threads: array<Thread>

    ghost function View(): State
      reads this, threads
    {
      State(parties, count, sense, flips, threads[..])
    }

    constructor (n: nat)
      ensures View() == Init(n) && fresh(threads)
    {
      parties, count, sense, flips := n, n, false, 0;
      threads := new Thread[n](_ => Thread(Outside, false, 0, 0));
      new;
      assert threads[..] == Init(n).threads;
    }

    method Advance(t: nat)
      requires t < threads.Length
      modifies this, threads
      ensures View() == Step(old(View()), t)
    {
      var th := threads[t];
      match th.pc {
        case Outside =>
          threads[t] := th.(sense := !th.sense, pc := Toggled);
        case Toggled =>
          var was := count;
          count := count - 1;
          threads[t] := th.(pc := if was == 1 then Last else Spinning, entered := th.entered + 1);
        case Last =>
          count := parties;
          threads[t] := th.(pc := Reset);
        case Reset =>
          sense, flips := th.sense, flips + 1;
          threads[t] := th.(pc := Outside, left := th.left + 1);
        case Spinning =>
          if sense == th.sense {
            threads[t] := th.(pc := Outside, left := th.left + 1);
          }
      }
    }

    /** Every schedule keeps the invariant, whatever state of it the system starts in. */
    method Execute(schedule: seq<nat>)
      requires Inv(View()) && ValidSchedule(threads.Length, schedule)
      modifies this, threads
      ensures View() == Run(old(View()), schedule) && Inv(View())
    {
      var i := 0;
      while i < |schedule|
        invariant i <= |schedule| && Inv(View())
        invariant View() == Run(old(View()), schedule[..i])
      {
        assert schedule[..i + 1][..i] == schedule[..i];
        StepInv(View(), schedule[i]);
        Advance(schedule[i]);
        i := i + 1;
      }
      assert schedule[..i] == schedule;
    }
  }
}
