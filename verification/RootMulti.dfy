/**
 The multi root of l0/cobj/CObjEBBRootMultiImp.c under concurrency: threads that miss take
 the root's lock, search the list of representatives, create and prepend one if there is
 none for their location; threads that enumerate it with nextRep take no lock. Every
 memory access is a step.
 */
module RootMulti {
  import opened Common

  /** A RepListNode in memory. */
  datatype Node = Node(rep: nat, el: nat, next: nat)

  /** handleMiss: not in a call; before taking the lock; at a node of the search (pos counts
      the nodes before it); before createRep; before the malloc; before filling the node;
      before storing head; before the unlock. Then nextRep: at a node of a walk that began
      when the list was snap. */
  datatype PC =
    | Idle
    | Wanting(el: nat)
    | Searching(el: nat, rd: nat, pos: nat)
    | Creating(el: nat)
    | Allocating(el: nat, rep: nat)
    | Filling(el: nat, rep: nat, rd: nat)
    | Publishing(el: nat, rep: nat, rd: nat)
    | Unlocking(el: nat, rep: nat)
    | Walking(cur: nat, seen: seq<nat>, snap: seq<nat>)
    | Walked(seen: seq<nat>, snap: seq<nat>)

  /** Memory, the root's head and lock, the next unused address, the threads; then history:
      the addresses on the list, the locations createRep ran for, and what misses returned. */
  datatype State = State(
    mem: map<nat, Node>,
    head: nat,
    lock: bool,
    brk: nat,
    threads: seq<PC>,
    list: seq<nat>,
    made: seq<nat>,
    results: set<(nat, nat)>)

  datatype Action = Miss(t: nat, el: nat) | Walk(t: nat) | Go(t: nat)

  function Init(threads: nat): State {
    State(map[], NULL, false, 1, seq(threads, _ => Idle), [], [], {})
  }

  function Set(s: State, t: nat, pc: PC): State
    requires t < |s.threads|
  {
    s.(threads := s.threads[t := pc])
  }

  /** The next memory access of thread t. */
  function Advance(s: State, t: nat): State
    requires t < |s.threads|
  {
    match s.threads[t]
    case Idle => s
    case Walked(_, _) => Set(s, t, Idle)
    case Wanting(el) =>
      if s.lock then s else Set(s, t, Searching(el, s.head, 0)).(lock := true)
    case Searching(el, rd, pos) =>
      if rd == NULL || rd !in s.mem then Set(s, t, Creating(el))
      else if s.mem[rd].el == el then Set(s, t, Unlocking(el, s.mem[rd].rep))
      else Set(s, t, Searching(el, s.mem[rd].next, pos + 1))
    case Creating(el) =>
      Set(s, t, Allocating(el, s.brk)).(brk := s.brk + 1, made := [el] + s.made)
    case Allocating(el, rep) =>
      Set(s, t, Filling(el, rep, s.brk)).(brk := s.brk + 1, mem := s.mem[s.brk := Node(NULL, 0, NULL)])
    case Filling(el, rep, rd) =>
      Set(s, t, Publishing(el, rep, rd)).(mem := s.mem[rd := Node(rep, el, s.head)])
    case Publishing(el, rep, rd) =>
      Set(s, t, Unlocking(el, rep)).(head := rd, list := [rd] + s.list)
    case Unlocking(el, rep) =>
      Set(s, t, Idle).(lock := false, results := s.results + {(el, rep)})
    case Walking(cur, seen, snap) =>
      if cur == NULL || cur !in s.mem then Set(s, t, Walked(seen, snap))
      else Set(s, t, Walking(s.mem[cur].next, seen + [s.mem[cur].rep], snap))
  }

  function Step(s: State, a: Action): State {
    if a.t >= |s.threads| then s
    else
      match a
      case Miss(t, el) => if s.threads[t].Idle? then Set(s, t, Wanting(el)) else s
      case Walk(t) => if s.threads[t].Idle? then Set(s, t, Walking(s.head, [], s.list)) else s
      case Go(t) => Advance(s, t)
  }

  function Run(s: State, acts: seq<Action>): State {
    if acts == [] then s else Step(Run(s, acts[..|acts| - 1]), acts[|acts| - 1])
  }

  // ----- the invariant

  /** Node i of the list is in memory and points to the next one. */
  ghost predicate Linked(mem: map<nat, Node>, xs: seq<nat>, i: nat)
    requires i < |xs|
  {
    xs[i] != NULL && xs[i] in mem && mem[xs[i]].next == At(xs, i + 1)
  }

  /** The chain from head is the list, with one node per location. */
  ghost predicate ListOk(s: State) {
    && s.head == At(s.list, 0) && s.brk > 0
    && (forall x :: x in s.mem ==> NULL < x < s.brk)
    && (forall i :: 0 <= i < |s.list| ==> Linked(s.mem, s.list, i))
    && (forall i, j :: 0 <= i < j < |s.list| && s.list[i] in s.mem && s.list[j] in s.mem ==>
          s.mem[s.list[i]].el != s.mem[s.list[j]].el)
  }

  ghost predicate Recorded(mem: map<nat, Node>, xs: seq<nat>, el: nat) {
    exists i :: 0 <= i < |xs| && xs[i] in mem && mem[xs[i]].el == el
  }

  ghost predicate RecordedAs(mem: map<nat, Node>, xs: seq<nat>, el: nat, rep: nat) {
    exists i :: 0 <= i < |xs| && xs[i] in mem && mem[xs[i]].el == el && mem[xs[i]].rep == rep
  }

  /** Inside the critical section. */
  predicate Holder(pc: PC) {
    pc.Searching? || pc.Creating? || pc.Allocating? || pc.Filling? || pc.Publishing? || pc.Unlocking?
  }

  /** After createRep and before the node is on the list. */
  predicate Pending(pc: PC) {
    pc.Allocating? || pc.Filling? || pc.Publishing?
  }

  ghost predicate LockOk(s: State) {
    && (forall t, u :: 0 <= t < u < |s.threads| ==> !(Holder(s.threads[t]) && Holder(s.threads[u])))
    && (s.lock <==> exists t :: 0 <= t < |s.threads| && Holder(s.threads[t]))
  }

  /** What a program counter knows about memory. */
  ghost predicate Knows(s: State, pc: PC) {
    match pc
    case Idle => true
    case Wanting(_) => true
    case Searching(el, rd, pos) =>
      pos <= |s.list| && rd == At(s.list, pos) && !Recorded(s.mem, s.list[..pos], el)
    case Creating(el) => !Recorded(s.mem, s.list, el)
    case Allocating(el, rep) => !Recorded(s.mem, s.list, el)
    case Filling(el, rep, rd) => !Recorded(s.mem, s.list, el) && rd in s.mem && rd !in s.list
    case Publishing(el, rep, rd) =>
      !Recorded(s.mem, s.list, el) && rd !in s.list && rd in s.mem && s.mem[rd] == Node(rep, el, s.head)
    case Unlocking(el, rep) => RecordedAs(s.mem, s.list, el, rep)
    case Walking(cur, seen, snap) =>
      Suffix(snap, s.list) && |seen| <= |snap| && cur == At(snap, |seen|) && SeenOk(s.mem, seen, snap)
    case Walked(seen, snap) =>
      Suffix(snap, s.list) && |seen| == |snap| && SeenOk(s.mem, seen, snap)
  }

  predicate Suffix(xs: seq<nat>, ys: seq<nat>) {
    |xs| <= |ys| && xs == ys[|ys| - |xs|..]
  }

  /** The reps seen so far are those of the first nodes of the list as the walk found it. */
  ghost predicate SeenOk(mem: map<nat, Node>, seen: seq<nat>, snap: seq<nat>) {
    |seen| <= |snap| &&
    forall i :: 0 <= i < |seen| ==> snap[i] in mem && seen[i] == mem[snap[i]].rep
  }

  ghost predicate KnowledgeOk(s: State) {
    && (forall t :: 0 <= t < |s.threads| ==> Knows(s, s.threads[t]))
    && (forall r :: r in s.results ==> RecordedAs(s.mem, s.list, r.0, r.1))
  }

  ghost predicate BeingMade(s: State, e: nat) {
    exists t :: 0 <= t < |s.threads| && Pending(s.threads[t]) && s.threads[t].el == e
  }

  /** createRep ran once for each location, whose rep is on the list or about to be. */
  ghost predicate MadeOk(s: State) {
    && (forall i, j :: 0 <= i < j < |s.made| ==> s.made[i] != s.made[j])
    && (forall e :: e in s.made ==> (Recorded(s.mem, s.list, e) || BeingMade(s, e)))
  }

  ghost predicate Inv(s: State) {
    ListOk(s) && LockOk(s) && KnowledgeOk(s) && MadeOk(s)
  }

  lemma {:induction false} InitInv(n: nat)
    ensures Inv(Init(n))
  {
  }

  // ----- what a growing list keeps

  /** Nodes of the old list are still there and unchanged; new ones come before them. */
  ghost predicate Grows(s: State, r: State) {
    && Suffix(s.list, r.list)
    && forall x :: x in s.list && x in s.mem ==> x in r.mem && r.mem[x] == s.mem[x]
  }

  lemma {:induction false} RecordedAsGrows(s: State, r: State, el: nat, rep: nat)
    requires Grows(s, r) && RecordedAs(s.mem, s.list, el, rep)
    ensures RecordedAs(r.mem, r.list, el, rep)
  {
    var i :| 0 <= i < |s.list| && s.list[i] in s.mem && s.mem[s.list[i]].el == el && s.mem[s.list[i]].rep == rep;
    assert r.list[|r.list| - |s.list| + i] == s.list[i];
  }

  lemma {:induction false} RecordedGrows(s: State, r: State, el: nat)
    requires Grows(s, r) && Recorded(s.mem, s.list, el)
    ensures Recorded(r.mem, r.list, el)
  {
    var i :| 0 <= i < |s.list| && s.list[i] in s.mem && s.mem[s.list[i]].el == el;
    assert r.list[|r.list| - |s.list| + i] == s.list[i];
  }

  lemma {:induction false} SuffixTrans(xs: seq<nat>, ys: seq<nat>, zs: seq<nat>)
    requires Suffix(xs, ys) && Suffix(ys, zs)
    ensures Suffix(xs, zs)
  {
    assert ys == zs[|zs| - |ys|..];
  }

  /** A thread outside the critical section keeps what it knows while the list grows. */
  lemma {:induction false} KnowsGrows(s: State, r: State, pc: PC)
    requires Grows(s, r) && !Holder(pc) && Knows(s, pc)
    ensures Knows(r, pc)
  {
    if pc.Walking? || pc.Walked? {
      SuffixTrans(pc.snap, s.list, r.list);
      forall i | 0 <= i < |pc.seen| ensures pc.snap[i] in r.mem && pc.seen[i] == r.mem[pc.snap[i]].rep {
        assert pc.snap[i] == s.list[|s.list| - |pc.snap| + i];
      }
    }
  }

  /** After a step of thread t, the knowledge of everybody else. */
  lemma {:induction false} OthersKnow(s: State, r: State, t: nat)
    requires Inv(s) && t < |s.threads| == |r.threads| && Grows(s, r)
    requires forall u :: 0 <= u < |s.threads| && u != t ==> r.threads[u] == s.threads[u]
    requires Holder(s.threads[t]) || (r.mem == s.mem && r.list == s.list && r.head == s.head)
    requires r.results == s.results || exists x :: r.results == s.results + {x} && RecordedAs(r.mem, r.list, x.0, x.1)
    requires Knows(r, r.threads[t])
    ensures KnowledgeOk(r)
  {
    forall u | 0 <= u < |r.threads| ensures Knows(r, r.threads[u]) {
      if u != t {
        assert Knows(s, s.threads[u]);
        if !Holder(s.threads[u]) {
          KnowsGrows(s, r, s.threads[u]);
        } else {
          assert !Holder(s.threads[t]);
        }
      }
    }
    forall x | x in r.results ensures RecordedAs(r.mem, r.list, x.0, x.1) {
      if x in s.results {
        RecordedAsGrows(s, r, x.0, x.1);
      }
    }
  }

  // ----- every step keeps the invariant

  lemma {:induction false} StepLock(s: State, a: Action)
    requires LockOk(s)
    ensures LockOk(Step(s, a))
  {
    var r := Step(s, a);
    if a.t < |s.threads| && r != s {
      assert forall u :: 0 <= u < |s.threads| && u != a.t ==> r.threads[u] == s.threads[u];
      if Holder(r.threads[a.t]) {
        assert r.lock;
      }
    }
  }

  /** A list does not notice changes to memory that is not on it. */
  lemma {:induction false} RecordedFrame(m: map<nat, Node>, n: map<nat, Node>, xs: seq<nat>, el: nat)
    requires forall x :: x in xs ==> x in m && x in n && n[x] == m[x]
    ensures Recorded(n, xs, el) <==> Recorded(m, xs, el)
  {
    if Recorded(m, xs, el) {
      var i :| 0 <= i < |xs| && xs[i] in m && m[xs[i]].el == el;
      assert xs[i] in n && n[xs[i]].el == el;
    }
    if Recorded(n, xs, el) {
      var i :| 0 <= i < |xs| && xs[i] in n && n[xs[i]].el == el;
      assert xs[i] in m && m[xs[i]].el == el;
    }
  }

  lemma {:induction false} ListNodes(s: State, x: nat)
    requires ListOk(s) && x in s.list
    ensures x in s.mem && NULL < x < s.brk
  {
    var i :| 0 <= i < |s.list| && s.list[i] == x;
    assert Linked(s.mem, s.list, i);
  }

  /** Steps that touch neither memory nor the list nor createRep's history. */
  lemma {:induction false} SameLists(s: State, r: State, t: nat)
    requires Inv(s) && t < |s.threads| == |r.threads|
    requires r.mem == s.mem && r.list == s.list && r.head == s.head && r.made == s.made && r.brk >= s.brk
    requires forall u :: 0 <= u < |s.threads| && u != t ==> r.threads[u] == s.threads[u]
    requires !Pending(s.threads[t])
    ensures ListOk(r) && MadeOk(r)
  {
    forall e | e in r.made ensures Recorded(r.mem, r.list, e) || BeingMade(r, e) {
      if BeingMade(s, e) {
        var u :| 0 <= u < |s.threads| && Pending(s.threads[u]) && s.threads[u].el == e;
        assert r.threads[u] == s.threads[u];
      }
    }
  }

  lemma {:induction false} SearchStep(s: State, t: nat)
    requires Inv(s) && t < |s.threads| && s.threads[t].Searching?
    ensures ListOk(Advance(s, t)) && KnowledgeOk(Advance(s, t)) && MadeOk(Advance(s, t))
  {
    var Searching(el, rd, pos) := s.threads[t];
    var r := Advance(s, t);
    assert Knows(s, s.threads[t]);
    SameLists(s, r, t);
    if pos == |s.list| {
      assert s.list[..pos] == s.list;
    } else {
      assert Linked(s.mem, s.list, pos);
      assert s.list[..pos + 1] == s.list[..pos] + [rd];
      if s.mem[rd].el != el {
        SearchedOneMore(s.mem, s.list, el, pos);
      }
    }
    OthersKnow(s, r, t);
  }

  lemma {:induction false} SearchedOneMore(mem: map<nat, Node>, xs: seq<nat>, el: nat, pos: nat)
    requires pos < |xs| && !Recorded(mem, xs[..pos], el) && xs[pos] in mem && mem[xs[pos]].el != el
    ensures !Recorded(mem, xs[..pos + 1], el)
  {
    assert forall i :: 0 <= i < pos ==> xs[..pos + 1][i] == xs[..pos][i];
  }

  lemma {:induction false} CreateStep(s: State, t: nat)
    requires Inv(s) && t < |s.threads| && s.threads[t].Creating?
    ensures ListOk(Advance(s, t)) && KnowledgeOk(Advance(s, t)) && MadeOk(Advance(s, t))
  {
    var r, el := Advance(s, t), s.threads[t].el;
    assert Knows(s, s.threads[t]);
    assert forall u :: 0 <= u < |s.threads| && u != t ==> !Holder(s.threads[u]);
    assert el !in s.made;
    forall e | e in r.made ensures Recorded(r.mem, r.list, e) || BeingMade(r, e) {
      if e == el {
        assert Pending(r.threads[t]) && r.threads[t].el == e;
      }
    }
    OthersKnow(s, r, t);
  }

  /** The malloc of a node and the stores to its fields: nothing on the list changes. */
  lemma {:induction false} NodeFrame(s: State, t: nat)
    requires Inv(s) && t < |s.threads| && (s.threads[t].Allocating? || s.threads[t].Filling?)
    ensures var r := Advance(s, t);
            && r.list == s.list && r.head == s.head && r.made == s.made && r.results == s.results
            && (forall x :: x in s.list ==> x in s.mem && x in r.mem && r.mem[x] == s.mem[x] && x < s.brk)
            && (forall x :: x in r.mem ==> NULL < x < r.brk)
  {
    assert Knows(s, s.threads[t]);
    forall x | x in s.list ensures x in s.mem && x < s.brk {
      ListNodes(s, x);
    }
  }

  lemma {:induction false} NodeLists(s: State, t: nat)
    requires Inv(s) && t < |s.threads| && (s.threads[t].Allocating? || s.threads[t].Filling?)
    ensures ListOk(Advance(s, t)) && MadeOk(Advance(s, t))
  {
    var r := Advance(s, t);
    NodeFrame(s, t);
    assert forall i :: 0 <= i < |s.list| ==> Linked(s.mem, s.list, i) && s.list[i] in s.list;
    forall e | e in r.made ensures Recorded(r.mem, r.list, e) || BeingMade(r, e) {
      RecordedFrame(s.mem, r.mem, s.list, e);
      if BeingMade(s, e) {
        var u :| 0 <= u < |s.threads| && Pending(s.threads[u]) && s.threads[u].el == e;
        assert Pending(r.threads[u]) && r.threads[u].el == e;
      }
    }
  }

  lemma {:induction false} NodeStep(s: State, t: nat)
    requires Inv(s) && t < |s.threads| && (s.threads[t].Allocating? || s.threads[t].Filling?)
    ensures ListOk(Advance(s, t)) && KnowledgeOk(Advance(s, t)) && MadeOk(Advance(s, t))
  {
    var r := Advance(s, t);
    NodeLists(s, t);
    NodeFrame(s, t);
    assert Knows(s, s.threads[t]);
    RecordedFrame(s.mem, r.mem, s.list, s.threads[t].el);
    OthersKnow(s, r, t);
  }

  lemma {:induction false} OnlyPending(s: State, t: nat, e: nat)
    requires LockOk(s) && t < |s.threads| && Pending(s.threads[t]) && BeingMade(s, e)
    ensures e == s.threads[t].el
  {
    var u :| 0 <= u < |s.threads| && Pending(s.threads[u]) && s.threads[u].el == e;
    assert u == t;
  }

  lemma {:induction false} PublishMade(s: State, t: nat)
    requires Inv(s) && t < |s.threads| && s.threads[t].Publishing?
    requires Grows(s, Advance(s, t))
    ensures MadeOk(Advance(s, t))
  {
    var r, el := Advance(s, t), s.threads[t].el;
    assert Knows(s, s.threads[t]);
    assert r.list[0] == s.threads[t].rd;
    forall e | e in r.made ensures Recorded(r.mem, r.list, e) {
      if e != el {
        if BeingMade(s, e) { OnlyPending(s, t, e); }
        RecordedGrows(s, r, e);
      }
    }
  }

  lemma {:induction false} PublishStep(s: State, t: nat)
    requires Inv(s) && t < |s.threads| && s.threads[t].Publishing?
    ensures ListOk(Advance(s, t)) && KnowledgeOk(Advance(s, t)) && MadeOk(Advance(s, t))
  {
    var r := Advance(s, t);
    var Publishing(el, rep, rd) := s.threads[t];
    assert Knows(s, s.threads[t]);
    assert r.list[1..] == s.list;
    PublishList(s, t);
    PublishMade(s, t);
    assert r.list[0] == rd;
    assert RecordedAs(r.mem, r.list, el, rep);
    OthersKnow(s, r, t);
  }

  lemma {:induction false} PublishList(s: State, t: nat)
    requires Inv(s) && t < |s.threads| && s.threads[t].Publishing?
    ensures ListOk(Advance(s, t))
  {
    var r := Advance(s, t);
    var Publishing(el, rep, rd) := s.threads[t];
    assert Knows(s, s.threads[t]);
    assert Linked(r.mem, r.list, 0);
    forall i | 0 < i < |r.list| ensures Linked(r.mem, r.list, i) && r.mem[r.list[i]].el != el {
      assert r.list[i] == s.list[i - 1] && Linked(s.mem, s.list, i - 1);
    }
    forall i, j | 0 <= i < j < |r.list| ensures r.mem[r.list[i]].el != r.mem[r.list[j]].el {
      if i > 0 {
        assert r.list[i] == s.list[i - 1] && r.list[j] == s.list[j - 1];
      }
    }
  }

  lemma {:induction false} WalkKnows(s: State, t: nat)
    requires Inv(s) && t < |s.threads| && s.threads[t].Walking?
    ensures Knows(Advance(s, t), Advance(s, t).threads[t])
  {
    assert Knows(s, s.threads[t]);
    var Walking(cur, seen, snap) := s.threads[t];
    if |seen| < |snap| {
      var d := |s.list| - |snap|;
      assert snap[|seen|] == s.list[d + |seen|] && Linked(s.mem, s.list, d + |seen|);
      assert |seen| + 1 < |snap| ==> snap[|seen| + 1] == s.list[d + |seen| + 1];
    }
  }

  lemma {:induction false} WalkStep(s: State, t: nat)
    requires Inv(s) && t < |s.threads| && s.threads[t].Walking?
    ensures ListOk(Advance(s, t)) && KnowledgeOk(Advance(s, t)) && MadeOk(Advance(s, t))
  {
    WalkKnows(s, t);
    SameLists(s, Advance(s, t), t);
    OthersKnow(s, Advance(s, t), t);
  }

  /** Taking and releasing the lock. */
  lemma {:induction false} QuietStep(s: State, t: nat)
    requires Inv(s) && t < |s.threads|
    requires var pc := s.threads[t]; pc.Idle? || pc.Walked? || pc.Wanting? || pc.Unlocking?
    ensures ListOk(Advance(s, t)) && KnowledgeOk(Advance(s, t)) && MadeOk(Advance(s, t))
  {
    assert Knows(s, s.threads[t]);
    SameLists(s, Advance(s, t), t);
    OthersKnow(s, Advance(s, t), t);
  }

  lemma {:induction false} StepInv(s: State, a: Action)
    requires Inv(s)
    ensures Inv(Step(s, a))
  {
    StepLock(s, a);
    if a.t < |s.threads| && Step(s, a) != s {
      match a {
        case Miss(t, el) => SameLists(s, Step(s, a), t); OthersKnow(s, Step(s, a), t);
        case Walk(t) => SameLists(s, Step(s, a), t); OthersKnow(s, Step(s, a), t);
        case Go(t) =>
          match s.threads[t] {
            case Searching(_, _, _) => SearchStep(s, t);
            case Creating(_) => CreateStep(s, t);
            case Allocating(_, _) => NodeStep(s, t);
            case Filling(_, _, _) => NodeStep(s, t);
            case Publishing(_, _, _) => PublishStep(s, t);
            case Walking(_, _, _) => WalkStep(s, t);
            case _ => QuietStep(s, t);
          }
      }
    }
  }

  lemma {:induction false} RunInv(n: nat, acts: seq<Action>)
    ensures Inv(Run(Init(n), acts))
  {
    if acts == [] {
      InitInv(n);
    } else {
      RunInv(n, acts[..|acts| - 1]);
      StepInv(Run(Init(n), acts[..|acts| - 1]), acts[|acts| - 1]);
    }
  }

  // ----- what the root promises, over every interleaving

  /** createRep runs at most once for a location, and the list has at most one node for it. */
  lemma {:induction false} OneRepPerLocation(n: nat, acts: seq<Action>, i: nat, j: nat)
    ensures var s := Run(Init(n), acts);
            && (i < j < |s.made| ==> s.made[i] != s.made[j])
            && (i < j < |s.list| ==>
                  s.list[i] in s.mem && s.list[j] in s.mem && s.mem[s.list[i]].el != s.mem[s.list[j]].el)
  {
    RunInv(n, acts);
    var s := Run(Init(n), acts);
    if i < j < |s.list| {
      assert Linked(s.mem, s.list, i) && Linked(s.mem, s.list, j);
    }
  }

  /** All misses on a location return the same representative. */
  lemma {:induction false} MissesAgree(n: nat, acts: seq<Action>, el: nat, rep: nat, other: nat)
    requires (el, rep) in Run(Init(n), acts).results && (el, other) in Run(Init(n), acts).results
    ensures rep == other
  {
    RunInv(n, acts);
    var s := Run(Init(n), acts);
    assert RecordedAs(s.mem, s.list, (el, rep).0, (el, rep).1);
    assert RecordedAs(s.mem, s.list, (el, other).0, (el, other).1);
    var i :| 0 <= i < |s.list| && s.list[i] in s.mem && s.mem[s.list[i]].el == el && s.mem[s.list[i]].rep == rep;
    var j :| 0 <= j < |s.list| && s.list[j] in s.mem && s.mem[s.list[j]].el == el && s.mem[s.list[j]].rep == other;
    assert i == j;
  }

  /** A walk with nextRep, although it takes no lock, sees the reps of exactly the nodes that
      were on the list when it read the head, in order; they are all still on the list. */
  lemma {:induction false} WalkSeesSnapshot(n: nat, acts: seq<Action>, t: nat)
    requires t < |Run(Init(n), acts).threads| && Run(Init(n), acts).threads[t].Walked?
    ensures var s := Run(Init(n), acts);
            var Walked(seen, snap) := s.threads[t];
            && |seen| == |snap| && Suffix(snap, s.list)
            && forall i :: 0 <= i < |snap| ==> snap[i] in s.mem && seen[i] == s.mem[snap[i]].rep
  {
    RunInv(n, acts);
    assert Knows(Run(Init(n), acts), Run(Init(n), acts).threads[t]);
  }
}
