/**
 Every message arrives: from every reachable state, whoever is in the middle of what, the
 steps of senders and handlers come to an end, and at the end every call that began has been
 delivered or refused.
 */
module MsgMgrProgress {
  import opened Common
  import opened MsgMgr
  import opened MsgMgrState
  import opened MsgMgrOwnership
  import opened MsgMgrLookup
  import opened MsgMgrInvariant
  import opened MsgMgrTheorems
  import opened MsgMgrSends

  // ----- how much there is still to do

  /** The steps of a handler until it has returned, but for what is queued, with a root's list
      of n nodes. */
  function HandlerSteps(h: Handler, n: nat): nat {
    match h
    case Off => 0
    case Enabling => 1
    case Polling => 2
    case Entered => 3
    case Returning(_, _) => 3
    case Storing(_, _) => 4
    case Seeking(_, at) => at + 5
    case Freeing(_) => n + 6
    case Running(_) => n + 7
  }

  /** What a pending IPI will make the handler do once more. */
  function PendingSteps(core: Core): nat {
    if core.pending && !core.handler.Entered? then 4 else 0
  }

  /** What there is to do for k queued messages. */
  function QueueSteps(k: nat, n: nat): nat {
    if k == 0 then 0 else QueueSteps(k - 1, n) + n + 6
  }

  function CoreSteps(core: Core, n: nat): nat {
    HandlerSteps(core.handler, n) + PendingSteps(core) + QueueSteps(|core.queue|, n)
  }

  /** The steps of a call, and those that it will cause. */
  function SenderSteps(sender: Sender, n: nat): nat {
    match sender
    case Idle => 0
    case Notifying(_) => 5
    case Filled(_, _, _, _, _) => n + 12
    case Taken(_, _, _, _, _) => n + 13
    case Found(_, _, _, _) => n + 14
    case Caching(_, _, _, _, _) => n + 15
    case Walking(_, _, _, at, _) => n + 16 + at
  }

  function CoresWork(cores: seq<Core>, n: nat): nat {
    if cores == [] then 0 else CoreSteps(cores[0], n) + CoresWork(cores[1..], n)
  }

  function SendersWork(senders: seq<Sender>, n: nat): nat {
    if senders == [] then 0 else SenderSteps(senders[0], n) + SendersWork(senders[1..], n)
  }

  function Work(s: State): nat {
    CoresWork(s.cores, |s.root|) + SendersWork(s.senders, |s.root|)
  }

  lemma {:induction false} CoresChange(cs: seq<Core>, ds: seq<Core>, n: nat, c: nat, k: int)
    requires c < |cs| == |ds|
    requires forall d :: 0 <= d < |cs| && d != c ==> CoreSteps(ds[d], n) <= CoreSteps(cs[d], n)
    requires CoreSteps(ds[c], n) <= CoreSteps(cs[c], n) + k
    ensures CoresWork(ds, n) <= CoresWork(cs, n) + k
  {
    assert forall d :: 0 <= d < |cs| - 1 ==> cs[1..][d] == cs[d + 1] && ds[1..][d] == ds[d + 1];
    if c == 0 {
      CoresNoMore(cs[1..], ds[1..], n);
    } else {
      CoresChange(cs[1..], ds[1..], n, c - 1, k);
    }
  }

  lemma {:induction false} CoresNoMore(cs: seq<Core>, ds: seq<Core>, n: nat)
    requires |cs| == |ds|
    requires forall d :: 0 <= d < |cs| ==> CoreSteps(ds[d], n) <= CoreSteps(cs[d], n)
    ensures CoresWork(ds, n) <= CoresWork(cs, n)
  {
    if cs != [] {
      assert forall d :: 0 <= d < |cs| - 1 ==> cs[1..][d] == cs[d + 1] && ds[1..][d] == ds[d + 1];
      CoresNoMore(cs[1..], ds[1..], n);
    }
  }

  lemma {:induction false} SendersChange(ss: seq<Sender>, t: nat, sender: Sender, n: nat)
    requires t < |ss|
    ensures SendersWork(ss[t := sender], n) + SenderSteps(ss[t], n) == SendersWork(ss, n) + SenderSteps(sender, n)
  {
    if t == 0 {
      assert ss[t := sender][1..] == ss[1..];
    } else {
      assert ss[t := sender][1..] == ss[1..][t - 1 := sender];
      SendersChange(ss[1..], t - 1, sender, n);
    }
  }

  // ----- every step of an actor lowers it

  /** A step of a sender or a handler; not a new call, a registration or an IPI from outside. */
  predicate Own(a: Action) {
    !a.Find? && !a.Register? && !a.Ipi?
  }

  predicate Moves(s: State, a: Action) {
    Own(a) && Step(s, a) != s
  }

  /** Only sender t changes, and the cores' work grows by k at most. */
  ghost predicate SenderMoves(s: State, r: State, t: nat, k: nat) {
    && t < |s.senders| == |r.senders| && r.senders == s.senders[t := r.senders[t]]
    && r.root == s.root && CoresWork(r.cores, |s.root|) <= CoresWork(s.cores, |s.root|) + k
    && SenderSteps(r.senders[t], |s.root|) + k < SenderSteps(s.senders[t], |s.root|)
  }

  lemma {:induction false} SenderLess(s: State, r: State, t: nat, k: nat)
    requires SenderMoves(s, r, t, k)
    ensures Work(r) < Work(s)
  {
    SendersChange(s.senders, t, r.senders[t], |s.root|);
  }

  lemma {:induction false} WalkLess(s: State, t: nat)
    requires DoWalk(s, t) != s
    ensures SenderMoves(s, DoWalk(s, t), t, 0)
  {
  }

  lemma {:induction false} AcceptCores(s: State, t: nat, home: nat, want: nat, msg: Msg, rep: nat, n: nat)
    requires t < |s.senders| && want < |s.cores|
    ensures CoresWork(Accept(s, t, home, want, msg, rep).cores, n) <= CoresWork(s.cores, n)
  {
    CoresNoMore(s.cores, Accept(s, t, home, want, msg, rep).cores, n);
  }

  lemma {:induction false} CacheCores(s: State, c: nat, l: nat, rep: nat, n: nat)
    ensures CoresWork(CacheRep(s, c, l, rep).cores, n) <= CoresWork(s.cores, n)
  {
    CoresNoMore(s.cores, CacheRep(s, c, l, rep).cores, n);
  }

  lemma {:induction false} StoreSender(s: State, t: nat)
    requires DoStore(s, t) != s
    ensures var r := DoStore(s, t);
            && t < |s.senders| == |r.senders| && r.senders == s.senders[t := r.senders[t]] && r.root == s.root
            && SenderSteps(r.senders[t], |s.root|) < SenderSteps(s.senders[t], |s.root|)
  {
    CacheFrame(s, s.senders[t].home, s.senders[t].want, s.senders[t].rep, t);
  }

  lemma {:induction false} StoreLess(s: State, t: nat)
    requires DoStore(s, t) != s
    ensures SenderMoves(s, DoStore(s, t), t, 0)
  {
    var Caching(home, want, msg, rep, first) := s.senders[t];
    var q := CacheRep(s, home, want, rep);
    StoreSender(s, t);
    CacheFrame(s, home, want, rep, t);
    CacheCores(s, home, want, rep, |s.root|);
    if rep != NULL { AcceptCores(q, t, home, want, msg, rep, |s.root|); }
  }

  lemma {:induction false} AllocLess(s: State, t: nat, garbage: Node)
    requires DoAlloc(s, t, garbage) != s
    ensures SenderMoves(s, DoAlloc(s, t, garbage), t, 0)
  {
    CoresNoMore(s.cores, DoAlloc(s, t, garbage).cores, |s.root|);
  }

  lemma {:induction false} FillLess(s: State, t: nat)
    requires DoFill(s, t) != s
    ensures SenderMoves(s, DoFill(s, t), t, 0)
  {
  }

  lemma {:induction false} EnqueueLess(s: State, t: nat)
    requires DoEnqueue(s, t) != s
    ensures SenderMoves(s, DoEnqueue(s, t), t, |s.root| + 6)
  {
    var r, c := DoEnqueue(s, t), LocOf(s, s.senders[t].target);
    assert |r.cores[c].queue| == |s.cores[c].queue| + 1;
    CoresChange(s.cores, r.cores, |s.root|, c, |s.root| + 6);
  }

  lemma {:induction false} PendingWork(s: State, c: nat, n: nat)
    ensures CoresWork(SetPending(s, c).cores, n) <= CoresWork(s.cores, n) + 4
  {
    if c < |s.cores| { CoresChange(s.cores, SetPending(s, c).cores, n, c, 4); }
  }

  lemma {:induction false} NotifyLess(s: State, t: nat)
    requires DoNotify(s, t) != s
    ensures SenderMoves(s, DoNotify(s, t), t, 4)
  {
    PendingWork(s, LocOf(s, s.senders[t].target), |s.root|);
  }

  // ----- handlers

  /** Only cores change, core c gets less to do and no other more. */
  ghost predicate CoreMoves(s: State, r: State, c: nat) {
    && r.senders == s.senders && r.root == s.root && c < |s.cores| == |r.cores|
    && (forall d :: 0 <= d < |s.cores| && d != c ==>
          CoreSteps(r.cores[d], |s.root|) <= CoreSteps(s.cores[d], |s.root|))
    && CoreSteps(r.cores[c], |s.root|) < CoreSteps(s.cores[c], |s.root|)
  }

  lemma {:induction false} CoreLess(s: State, r: State, c: nat)
    requires CoreMoves(s, r, c)
    ensures Work(r) < Work(s)
  {
    CoresChange(s.cores, r.cores, |s.root|, c, -1);
  }

  lemma {:induction false} DeliverLess(s: State, c: nat)
    requires DoDeliver(s, c) != s
    ensures CoreMoves(s, DoDeliver(s, c), c)
  {
  }

  lemma {:induction false} EnterLess(s: State, c: nat)
    requires c < |s.cores| && (s.cores[c].handler.Entered? || s.cores[c].handler.Enabling?)
    ensures CoreMoves(s, DoHandle(s, c), c)
  {
  }

  lemma {:induction false} DequeueLess(s: State, c: nat)
    requires Owned(s) && c < |s.cores| && s.cores[c].handler.Polling?
    ensures CoreMoves(s, DoDequeue(s, c), c)
  {
    HeadOf(s, c);
    var r := DoDequeue(s, c);
    if s.cores[c].queue != [] {
      assert |r.cores[c].queue| == |s.cores[c].queue| - 1;
    }
  }

  lemma {:induction false} CallLess(s: State, c: nat, x: nat)
    requires c < |s.cores| && s.cores[c].handler == Running(x) && DoCall(s, c, x) != s
    ensures CoreMoves(s, DoCall(s, c, x), c)
  {
  }

  lemma {:induction false} SetLess(s: State, c: nat, h: Handler)
    requires c < |s.cores| && !h.Entered? && !s.cores[c].handler.Entered?
    requires HandlerSteps(h, |s.root|) < HandlerSteps(s.cores[c].handler, |s.root|)
    ensures CoreMoves(s, SetHandler(s, c, h), c)
  {
  }

  lemma {:induction false} LookHomeLess(s: State, c: nat, x: nat)
    requires c < |s.cores| && s.cores[c].handler == Freeing(x) && DoLookHome(s, c, x) != s
    ensures CoreMoves(s, DoLookHome(s, c, x), c)
  {
    var rep := s.cores[c].reps[s.nodes[x].home];
    SetLess(s, c, if rep != NULL then Returning(x, rep) else Seeking(x, |s.root|));
  }

  lemma {:induction false} SeekHomeLess(s: State, c: nat, x: nat, at: nat)
    requires c < |s.cores| && s.cores[c].handler == Seeking(x, at) && DoSeekHome(s, c, x, at) != s
    ensures CoreMoves(s, DoSeekHome(s, c, x, at), c)
  {
    SetLess(s, c, DoSeekHome(s, c, x, at).cores[c].handler);
  }

  lemma {:induction false} CacheSteps(s: State, c: nat, l: nat, rep: nat)
    ensures var q := CacheRep(s, c, l, rep);
            && |q.cores| == |s.cores| && q.root == s.root && q.senders == s.senders
            && forall d :: 0 <= d < |s.cores| ==>
                 && q.cores[d].handler == s.cores[d].handler
                 && CoreSteps(q.cores[d], |s.root|) == CoreSteps(s.cores[d], |s.root|)
  {
  }

  lemma {:induction false} StoreHomeLess(s: State, c: nat, x: nat, rep: nat)
    requires c < |s.cores| && s.cores[c].handler == Storing(x, rep) && DoStoreHome(s, c, x, rep) != s
    ensures CoreMoves(s, DoStoreHome(s, c, x, rep), c)
  {
    CacheSteps(s, c, s.nodes[x].home, rep);
    SetLess(CacheRep(s, c, s.nodes[x].home, rep), c, Returning(x, rep));
  }

  lemma {:induction false} FreeLess(s: State, c: nat, x: nat, rep: nat)
    requires c < |s.cores| && s.cores[c].handler == Returning(x, rep) && DoFree(s, c, x, rep) != s
    ensures CoreMoves(s, DoFree(s, c, x, rep), c)
  {
  }

  lemma {:induction false} HandleLess(s: State, c: nat)
    requires Owned(s) && DoHandle(s, c) != s
    ensures CoreMoves(s, DoHandle(s, c), c)
  {
    match s.cores[c].handler {
      case Off =>
      case Entered => EnterLess(s, c);
      case Enabling => EnterLess(s, c);
      case Polling => DequeueLess(s, c);
      case Running(x) => CallLess(s, c, x);
      case Freeing(x) => LookHomeLess(s, c, x);
      case Seeking(x, at) => SeekHomeLess(s, c, x, at);
      case Storing(x, rep) => StoreHomeLess(s, c, x, rep);
      case Returning(x, rep) => FreeLess(s, c, x, rep);
    }
  }

  /** Every step of a sender or a handler that changes anything leaves less to do. */
  lemma {:induction false} MoveWorks(s: State, a: Action)
    requires Owned(s) && Moves(s, a)
    ensures Work(Step(s, a)) < Work(s)
  {
    var r := Step(s, a);
    match a {
      case Walk(t) => WalkLess(s, t); SenderLess(s, r, t, 0);
      case Store(t) => StoreLess(s, t); SenderLess(s, r, t, 0);
      case Alloc(t, garbage) => AllocLess(s, t, garbage); SenderLess(s, r, t, 0);
      case Fill(t) => FillLess(s, t); SenderLess(s, r, t, 0);
      case Enqueue(t) => EnqueueLess(s, t); SenderLess(s, r, t, |s.root| + 6);
      case Notify(t) => NotifyLess(s, t); SenderLess(s, r, t, 4);
      case Deliver(c) => DeliverLess(s, c); CoreLess(s, r, c);
      case Handle(c) => HandleLess(s, c); CoreLess(s, r, c);
    }
  }

  // ----- nobody is ever stuck

  /** Nobody is under way and no IPI is pending. */
  ghost predicate AtRest(s: State) {
    && (forall t :: 0 <= t < |s.senders| ==> s.senders[t].Idle?)
    && (forall c :: 0 <= c < |s.cores| ==> s.cores[c].handler.Off? && !s.cores[c].pending)
  }

  /** The next step of a sender. */
  function NextOf(sender: Sender, t: nat): Action {
    match sender
    case Walking(_, _, _, _, _) => Walk(t)
    case Caching(_, _, _, _, _) => Store(t)
    case Found(_, _, _, _) => Alloc(t, Node(NULL, 0, 0, 0, [0, 0, 0]))
    case Taken(_, _, _, _, _) => Fill(t)
    case Filled(_, _, _, _, _) => Enqueue(t)
    case _ => Notify(t)
  }

  lemma {:induction false} FinderMoves(s: State, t: nat)
    requires RootOk(s) && t < |s.senders| && SenderKnows(s, s.senders[t])
    requires s.senders[t].Walking? || s.senders[t].Caching?
    ensures Moves(s, NextOf(s.senders[t], t))
  {
    if s.senders[t].Walking? && s.senders[t].at > 0 {
      assert s.root[s.senders[t].at - 1] in s.root;
    }
    assert Step(s, NextOf(s.senders[t], t)).senders[t] != s.senders[t];
  }

  lemma {:induction false} FoundMoves(s: State, t: nat)
    requires RootOk(s) && t < |s.senders| && SenderKnows(s, s.senders[t]) && s.senders[t].Found?
    ensures Moves(s, NextOf(s.senders[t], t))
  {
    assert Step(s, NextOf(s.senders[t], t)).senders[t] != s.senders[t];
  }

  lemma {:induction false} TakenMoves(s: State, t: nat)
    requires t < |s.senders| && s.senders[t].Taken?
    requires s.senders[t].node in s.nodes && |s.senders[t].msg.args| <= |s.nodes[s.senders[t].node].args|
    ensures Moves(s, Fill(t))
  {
    assert DoFill(s, t).senders[t] != s.senders[t];
  }

  lemma {:induction false} FilledMoves(s: State, t: nat)
    requires t < |s.senders| && s.senders[t].Filled?
    requires s.senders[t].node in s.nodes && LocOf(s, s.senders[t].target) < |s.cores|
    ensures Moves(s, Enqueue(t))
  {
    assert DoEnqueue(s, t).senders[t] != s.senders[t];
  }

  lemma {:induction false} NotifyingMoves(s: State, t: nat)
    requires t < |s.senders| && s.senders[t].Notifying?
    ensures Moves(s, Notify(t))
  {
    assert DoNotify(s, t).senders[t] != s.senders[t];
  }

  /** What a sender has in its hands can be filled in and enqueued. */
  lemma {:induction false} InHandsOk(s: State, t: nat)
    requires Lookup(s) && Owned(s) && t < |s.senders| && (s.senders[t].Taken? || s.senders[t].Filled?)
    ensures var sender := s.senders[t];
            && sender.node in s.nodes && |sender.msg.args| <= |s.nodes[sender.node].args|
            && LocOf(s, sender.target) < |s.cores|
  {
    assert SenderKnows(s, s.senders[t]);
    assert HomeOk(s, s.senders[t].node);
  }

  lemma {:induction false} SenderGoesOn(s: State, t: nat)
    requires Lookup(s) && Owned(s) && t < |s.senders| && !s.senders[t].Idle?
    ensures Moves(s, NextOf(s.senders[t], t))
  {
    assert SenderKnows(s, s.senders[t]);
    match s.senders[t] {
      case Found(_, _, _, _) => FoundMoves(s, t);
      case Taken(_, _, _, _, _) => InHandsOk(s, t); TakenMoves(s, t);
      case Filled(_, _, _, _, _) => InHandsOk(s, t); FilledMoves(s, t);
      case Notifying(_) => NotifyingMoves(s, t);
      case _ => FinderMoves(s, t);
    }
  }

  lemma {:induction false} HomeIs(s: State, c: nat)
    requires Inv(s) && c < |s.cores| && HandlerNode(s.cores[c].handler) != NULL
    ensures var x := HandlerNode(s.cores[c].handler);
            x in s.nodes && s.nodes[x].home in s.self && s.nodes[x].home < |s.cores[c].reps|
  {
    var x := HandlerNode(s.cores[c].handler);
    assert Holds(s, WithHandler(c), x);
    assert HomeOk(s, x) && CacheOk(s, s.cores[c]);
  }

  lemma {:induction false} HandlerNodeIs(s: State, c: nat)
    requires Inv(s) && c < |s.cores| && Busy(s.cores[c].handler)
    requires !s.cores[c].handler.Entered? && !s.cores[c].handler.Polling?
    ensures HandlerNode(s.cores[c].handler) != NULL
  {
    assert HandlerKnows(s, s.cores[c].handler);
  }

  lemma {:induction false} PlainHandlerGoesOn(s: State, c: nat)
    requires c < |s.cores|
    requires var h := s.cores[c].handler; h.Entered? || h.Polling? || h.Enabling?
    ensures Moves(s, Handle(c))
  {
    assert |DoHandle(s, c).cores| == |s.cores| && DoHandle(s, c).cores[c].handler != s.cores[c].handler;
  }

  lemma {:induction false} HandlerGoesOn(s: State, c: nat)
    requires Inv(s) && c < |s.cores| && !s.cores[c].handler.Off?
    ensures Moves(s, Handle(c))
  {
    var h := s.cores[c].handler;
    if h.Entered? || h.Polling? || h.Enabling? {
      PlainHandlerGoesOn(s, c);
    } else {
      HandlerNodeIs(s, c);
      HomeIs(s, c);
      assert HandlerKnows(s, h);
      NodeHandlerGoesOn(s, c);
    }
  }

  lemma {:induction false} NodeHandlerGoesOn(s: State, c: nat)
    requires RootOk(s) && c < |s.cores| && HandlerKnows(s, s.cores[c].handler)
    requires var x := HandlerNode(s.cores[c].handler);
             x != NULL && x in s.nodes && s.nodes[x].home in s.self && s.nodes[x].home < |s.cores[c].reps|
    ensures Moves(s, Handle(c))
  {
    var h := s.cores[c].handler;
    if h.Seeking? && h.at > 0 { assert s.root[h.at - 1] in s.root; }
    assert |DoHandle(s, c).cores| == |s.cores| && DoHandle(s, c).cores[c].handler != h;
  }

  lemma {:induction false} DeliverMoves(s: State, c: nat)
    requires c < |s.cores| && s.cores[c].handler.Off? && s.cores[c].pending
    ensures Moves(s, Deliver(c))
  {
    assert DoDeliver(s, c).cores[c].handler != s.cores[c].handler;
  }

  lemma {:induction false} CoreGoesOn(s: State, c: nat) returns (a: Action)
    requires Inv(s) && c < |s.cores| && !(s.cores[c].handler.Off? && !s.cores[c].pending)
    ensures Moves(s, a)
  {
    if s.cores[c].handler.Off? {
      a := Deliver(c);
      DeliverMoves(s, c);
    } else {
      a := Handle(c);
      HandlerGoesOn(s, c);
    }
  }

  /** As long as anybody is under way or an IPI is pending, somebody can move. */
  lemma {:induction false} SomeMoves(s: State) returns (a: Action)
    requires Inv(s) && !AtRest(s)
    ensures Moves(s, a)
  {
    if t: nat :| t < |s.senders| && !s.senders[t].Idle? {
      a := NextOf(s.senders[t], t);
      SenderGoesOn(s, t);
    } else {
      var c: nat :| c < |s.cores| && !(s.cores[c].handler.Off? && !s.cores[c].pending);
      a := CoreGoesOn(s, c);
    }
  }

  lemma {:induction false} RestIsStill(s: State, a: Action)
    requires AtRest(s) && Own(a)
    ensures Step(s, a) == s
  {
  }

  // ----- whole runs

  /** Steps of senders and handlers that change something, one after another. */
  predicate AllMove(s: State, more: seq<Action>) {
    more == [] ||
    (var front, a := more[..|more| - 1], more[|more| - 1]; AllMove(s, front) && Moves(Run(s, front), a))
  }

  lemma {:induction false} MoveOn(s: State, more: seq<Action>, a: Action)
    ensures Run(s, more + [a]) == Step(Run(s, more), a)
    ensures AllMove(s, more) && Moves(Run(s, more), a) ==> AllMove(s, more + [a])
  {
    assert (more + [a])[..|more|] == more;
  }

  lemma {:induction false} AllMoveRun(s: State, more: seq<Action>)
    requires Inv(s) && AllMove(s, more)
    ensures Inv(Run(s, more)) && Work(Run(s, more)) + |more| <= Work(s)
  {
    if more != [] {
      var front, a := more[..|more| - 1], more[|more| - 1];
      AllMoveRun(s, front);
      StepInv(Run(s, front), a);
      MoveWorks(Run(s, front), a);
    }
  }

  lemma {:induction false} Finish(s: State, more: seq<Action>) returns (all: seq<Action>)
    requires AllMove(s, more) && Inv(Run(s, more))
    ensures more <= all && AllMove(s, all) && AtRest(Run(s, all))
    decreases Work(Run(s, more))
  {
    if AtRest(Run(s, more)) {
      all := more;
    } else {
      var a := SomeMoves(Run(s, more));
      MoveOn(s, more, a);
      StepInv(Run(s, more), a);
      MoveWorks(Run(s, more), a);
      all := Finish(s, more + [a]);
    }
  }

  /** From every state that keeps the invariant, steps of senders and handlers that change
      anything come to an end, after Work(s) of them at most, in whatever order they happen;
      they have ended exactly when nobody is under way and no IPI is pending, and that end can
      be reached from everywhere on the way. */
  lemma {:induction false} ComesToRest(s: State, more: seq<Action>)
    requires Inv(s) && AllMove(s, more)
    ensures |more| <= Work(s)
    ensures (forall a :: !Moves(Run(s, more), a)) <==> AtRest(Run(s, more))
    ensures exists all :: more <= all && AllMove(s, all) && AtRest(Run(s, all))
  {
    AllMoveRun(s, more);
    var r := Run(s, more);
    if AtRest(r) {
      forall a | Own(a) ensures Step(r, a) == r { RestIsStill(r, a); }
    } else {
      var a := SomeMoves(r);
    }
    var all := Finish(s, more);
  }

  lemma {:induction false} RunConcat(s: State, acts: seq<Action>, more: seq<Action>)
    ensures Run(s, acts + more) == Run(Run(s, acts), more)
  {
    if more == [] {
      assert acts + more == acts;
    } else {
      var front, a := more[..|more| - 1], more[|more| - 1];
      assert acts + more == (acts + front) + [a] && more == front + [a];
      RunConcat(s, acts, front);
      MoveOn(s, acts + front, a);
    }
  }

  lemma {:induction false} NothingSent(s: State, acts: seq<Action>, more: seq<Action>, c: nat)
    requires AllMove(Run(s, acts), more)
    ensures Sent(s, acts + more, c) == Sent(s, acts, c)
  {
    if more == [] {
      assert acts + more == acts;
    } else {
      var front, a := more[..|more| - 1], more[|more| - 1];
      assert acts + more == (acts + front) + [a];
      assert (acts + more)[..|acts + more| - 1] == acts + front;
      NothingSent(s, acts, front, c);
    }
  }

  /** Whatever has run, when the senders and handlers have come to rest every message that was
      sent before has been delivered, or its call was refused. */
  lemma {:induction false} EveryMessageArrives(cores: nat, senders: nat, acts: seq<Action>, more: seq<Action>, c: nat)
    requires AllMove(Run(Init(cores, senders), acts), more)
    requires AtRest(Run(Run(Init(cores, senders), acts), more))
    requires c < |Run(Run(Init(cores, senders), acts), more).cores|
    ensures Run(Run(Init(cores, senders), acts), more).cores[c].delivered
            + Refused(Init(cores, senders), acts + more, c)
            == Sent(Init(cores, senders), acts, c)
  {
    var s0 := Init(cores, senders);
    RunConcat(s0, acts, more);
    NothingSent(s0, acts, more, c);
    EverySendDelivered(cores, senders, acts + more, c);
  }

  // ----- one message, from beginning to end

  /** A core registers with its own location, and no other representative changes. */
  lemma {:induction false} Registers(s: State, c: nat)
    requires Inv(s) && c < |s.cores|
    ensures var r := Step(s, Register(c));
            && c in r.self && r.self[c] in r.root && r.loc[r.self[c]] == c
            && (forall l :: l in s.self ==> l in r.self && r.self[l] == s.self[l])
            && (forall l :: l in r.self ==> l in s.self || l == c)
  {
    StepRoot(s, Register(c));
  }

  lemma {:induction false} RefusedConcat(s: State, acts: seq<Action>, more: seq<Action>, c: nat)
    ensures Refused(s, acts + more, c) == Refused(s, acts, c) + Refused(Run(s, acts), more, c)
  {
    if more == [] {
      assert acts + more == acts;
    } else {
      var front, a := more[..|more| - 1], more[|more| - 1];
      assert (acts + more)[..|acts + more| - 1] == acts + front;
      RunConcat(s, acts, front);
      RefusedConcat(s, acts, front, c);
    }
  }

  /** What a send is worth to the books of location c. */
  function Worth(send: Action, c: nat): multiset<Msg> {
    if send.Find? && c == send.want then multiset{send.msg} else multiset{}
  }

  lemma {:induction false} SentOneMore(s: State, acts: seq<Action>, send: Action, c: nat)
    requires send.Find? && CanSend(Run(s, acts), send.t, send.home, send.want, send.msg)
    ensures Sent(s, acts + [send], c) == Sent(s, acts, c) + Worth(send, c)
  {
    assert (acts + [send])[..|acts|] == acts;
  }

  lemma {:induction false} RefusedNoMore(s: State, acts: seq<Action>, send: Action, more: seq<Action>, c: nat)
    requires Inv(Run(s, acts)) && AtRest(Run(s, acts)) && c in Run(s, acts).self
    ensures Refused(s, acts + [send] + more, c) == Refused(s, acts, c)
  {
    assert acts + [send] + more == acts + ([send] + more);
    RefusedConcat(s, acts, [send] + more, c);
    RunsFrom(Run(s, acts), send, more, c);
    assert Refused(s, acts, c) + multiset{} == Refused(s, acts, c);
  }

  /** A message sent to a registered location, when everybody is at rest, is delivered there,
      once and with the arguments it was sent with, by the time everybody is at rest again; the
      handlers of other registered locations are not called. */
  lemma {:induction false} OneMessage(cores: nat, senders: nat, acts: seq<Action>, send: Action, more: seq<Action>,
                                      c: nat)
    requires var s := Run(Init(cores, senders), acts);
             && AtRest(s) && c in s.self && send.Find? && send.want in s.self
             && CanSend(s, send.t, send.home, send.want, send.msg)
             && AllMove(Step(s, send), more) && AtRest(Run(Step(s, send), more))
    ensures var s := Run(Init(cores, senders), acts);
            var r := Run(Step(s, send), more);
            c < |s.cores| && c < |r.cores| && r.cores[c].delivered == s.cores[c].delivered + Worth(send, c)
  {
    var s0 := Init(cores, senders);
    var s := Run(s0, acts);
    RunInv(cores, senders, acts);
    RunsFrom(s, send, more, c);
    MoveOn(s0, acts, send);
    EverySendDelivered(cores, senders, acts, c);
    EveryMessageArrives(cores, senders, acts + [send], more, c);
    SentOneMore(s0, acts, send, c);
    RefusedNoMore(s0, acts, send, more, c);
    Balance(s.cores[c].delivered, Run(Step(s, send), more).cores[c].delivered, Refused(s0, acts, c),
            Sent(s0, acts, c), Worth(send, c));
  }

  /** What is left when nothing more was refused. */
  lemma {:induction false} Balance(d: multiset<Msg>, d': multiset<Msg>, refused: multiset<Msg>, all: multiset<Msg>,
                                   sent: multiset<Msg>)
    requires d + refused == all && d' + refused == all + sent
    ensures d' == d + sent
  {
    assert (d + sent) + refused == all + sent;
    assert d' == (d' + refused) - refused && d + sent == ((d + sent) + refused) - refused;
  }

  /** From rest, nothing is refused that goes to a registered location. */
  lemma {:induction false} RunsFrom(s: State, send: Action, more: seq<Action>, c: nat)
    requires Inv(s) && AtRest(s) && c in s.self
    ensures Refused(s, [send] + more, c) == multiset{}
    ensures c < |s.cores| && c < |Run(s, [send] + more).cores|
    ensures Run(s, [send] + more) == Run(Step(s, send), more)
  {
    RegisteredNotRefused(s, [send] + more, c);
    assert [send] == [] + [send];
    MoveOn(s, [], send);
    RunConcat(s, [send], more);
  }
}
