/** What the message manager promises, over every interleaving of its steps. */
module MsgMgrTheorems {
  import opened Common
  import opened MsgMgr
  import opened MsgMgrState
  import opened MsgMgrOwnership
  import opened MsgMgrLookup
  import opened MsgMgrAccounts
  import opened MsgMgrInvariant

  /** A state that some interleaving reaches. */
  ghost predicate Reachable(s: State) {
    exists cores, senders, acts :: s == Run(Init(cores, senders), acts)
  }

  lemma {:induction false} ReachableInv(s: State)
    requires Reachable(s)
    ensures Inv(s)
  {
    var cores, senders, acts :| s == Run(Init(cores, senders), acts);
    RunInv(cores, senders, acts);
  }

  // ----- wakeups and delivery

  /** No lost wakeup: while a message is queued on a core, an IPI for it is pending, or its
      handler will dequeue again, or a sender is about to dispatch the IPI. */
  lemma {:induction false} NoLostWakeup(s: State, c: nat)
    requires Reachable(s) && c < |s.cores| && s.cores[c].qhead != NULL
    ensures s.cores[c].pending || Busy(s.cores[c].handler) || Notified(s, c)
  {
    ReachableInv(s);
    HeadOf(s, c);
    assert s.cores[c].queue == [] || WillWake(s, c);
  }

  /** Exactly once: what findTarget accepted for a location is what its handlers were called
      with, what is queued, what is in hand and what senders still carry, each with the id and
      the arguments of the send. */
  lemma {:induction false} ExactlyOnceDelivery(s: State, c: nat)
    requires Reachable(s) && c < |s.cores|
    ensures var core := s.cores[c];
            && IsList(s.nodes, core.qhead, core.queue)
            && core.accepted ==
               core.delivered + multiset(Contents(s.nodes, core.queue)) + InHand(s.nodes, core) + Carried(s.senders, c)
  {
    ReachableInv(s);
    assert CoreLists(s.nodes, s.cores[c]) && Accounted(s.nodes, s.cores[c], Carried(s.senders, c));
  }

  /** When nobody is under way and no IPI is pending, every send that findTarget accepted for
      the location was delivered. */
  lemma {:induction false} QuiescentMeansDelivered(s: State, c: nat)
    requires Reachable(s) && c < |s.cores|
    requires forall t :: 0 <= t < |s.senders| ==> s.senders[t].Idle?
    requires !s.cores[c].pending && s.cores[c].handler.Off?
    ensures s.cores[c].qhead == NULL && s.cores[c].delivered == s.cores[c].accepted
  {
    if s.cores[c].qhead != NULL {
      NoLostWakeup(s, c);
      assert false;
    }
    ReachableInv(s);
    HeadOf(s, c);
    ExactlyOnceDelivery(s, c);
    IdleCarryNothing(s.senders, c);
    assert Contents(s.nodes, []) == [];
  }

  // ----- nodes

  /** A node is at every moment in exactly one queue, free list, sender or handler. */
  lemma {:induction false} ExactlyOnePlace(s: State, x: nat) returns (p: Place)
    requires Reachable(s) && x in s.nodes
    ensures forall q :: Holds(s, q, x) <==> q == p
  {
    ReachableInv(s);
    p := s.owner[x];
    assert Holds(s, p, x);
  }

  /** No step ever follows a node that is not in memory: what senders and handlers have in
      their hands exists, and so does every list head. */
  lemma {:induction false} NoDanglingNode(s: State)
    requires Reachable(s)
    ensures forall t :: 0 <= t < |s.senders| ==>
              var sender := s.senders[t]; sender.Taken? || sender.Filled? ==> sender.node in s.nodes
    ensures forall c :: 0 <= c < |s.cores| ==>
              var h := s.cores[c].handler;
              Busy(h) && !h.Entered? && !h.Polling? ==> h.node in s.nodes
    ensures forall c :: 0 <= c < |s.cores| ==>
              && (s.cores[c].qhead == NULL || s.cores[c].qhead in s.nodes)
              && (s.cores[c].fhead == NULL || s.cores[c].fhead in s.nodes)
  {
    ReachableInv(s);
    assert forall t :: 0 <= t < |s.senders| ==> SenderKnows(s, s.senders[t]);
    assert forall c :: 0 <= c < |s.cores| ==> HandlerKnows(s, s.cores[c].handler);
    forall c | 0 <= c < |s.cores|
      ensures s.cores[c].qhead == NULL || s.cores[c].qhead in s.nodes
      ensures s.cores[c].fhead == NULL || s.cores[c].fhead in s.nodes
    {
      HeadsExist(s, c);
    }
  }

  lemma {:induction false} HeadsExist(s: State, c: nat)
    requires Owned(s) && c < |s.cores|
    ensures s.cores[c].qhead == NULL || s.cores[c].qhead in s.nodes
    ensures s.cores[c].fhead == NULL || s.cores[c].fhead in s.nodes
  {
    var core := s.cores[c];
    assert CoreLists(s.nodes, core);
    if core.qhead != NULL { ListPop(s.nodes, core.qhead, core.queue); }
    if core.fhead != NULL { ListPop(s.nodes, core.fhead, core.free); }
  }

  // ----- findTarget

  /** What a walk from node `at` of the root's list finds for a location, all at once. */
  function WalkFrom(s: State, l: nat, at: nat): nat
    requires at <= |s.root|
  {
    if at == 0 then NULL
    else if s.root[at - 1] in s.loc && s.loc[s.root[at - 1]] == l then s.root[at - 1]
    else WalkFrom(s, l, at - 1)
  }

  lemma {:induction false} WalkFinds(s: State, l: nat, at: nat)
    requires RootOk(s) && at <= |s.root|
    ensures WalkFrom(s, l, at) == NULL || Known(s, l, WalkFrom(s, l, at))
    ensures l in s.self && s.self[l] in s.root[..at] ==> WalkFrom(s, l, at) == s.self[l]
  {
    if at > 0 {
      assert s.root[at - 1] in s.root;
      assert s.root[..at] == s.root[..at - 1] + [s.root[at - 1]];
      WalkFinds(s, l, at - 1);
    }
  }

  lemma {:induction false} WalkMisses(s: State, l: nat, at: nat)
    requires at <= |s.root| && Passed(s, l, 0, at)
    ensures WalkFrom(s, l, at) == NULL
  {
    if at > 0 {
      assert Passed(s, l, 0, at - 1);
      WalkMisses(s, l, at - 1);
    }
  }

  /** The representative of a location is what a walk of the whole list finds. */
  lemma {:induction false} KnownIsWalked(s: State, l: nat, rep: nat)
    requires RootOk(s) && Known(s, l, rep)
    ensures rep != NULL && rep in s.loc && s.loc[rep] == l && WalkFrom(s, l, |s.root|) == rep
  {
    assert s.root[..|s.root|] == s.root;
    WalkFinds(s, l, |s.root|);
  }

  /** Every entry of every cache is NULL or what a walk of the root's list finds for the location. */
  lemma {:induction false} CachesAgree(s: State, c: nat, l: nat)
    requires Reachable(s) && c < |s.cores| && l < |s.cores[c].reps|
    ensures s.cores[c].reps[l] == NULL || s.cores[c].reps[l] == WalkFrom(s, l, |s.root|)
  {
    ReachableInv(s);
    assert CacheOk(s, s.cores[c]);
    if s.cores[c].reps[l] != NULL {
      KnownIsWalked(s, l, s.cores[c].reps[l]);
    }
  }

  /** findTarget gives a sender the one representative of the location it asked for; it refuses
      only if no representative of that location was registered when its walk began. */
  lemma {:induction false} SendFindsTarget(s: State, t: nat)
    requires Reachable(s) && t < |s.senders|
    ensures var sender := s.senders[t];
            (sender.Found? || sender.Taken? || sender.Filled?) ==>
              && sender.target in s.loc && s.loc[sender.target] == sender.want
              && sender.target == WalkFrom(s, sender.want, |s.root|)
    ensures var sender := s.senders[t];
            sender.Caching? ==>
              && (sender.rep == NULL ==> sender.first <= |s.root| && WalkFrom(s, sender.want, sender.first) == NULL)
              && (sender.rep != NULL ==> sender.rep == WalkFrom(s, sender.want, |s.root|))
  {
    ReachableInv(s);
    var sender := s.senders[t];
    assert SenderKnows(s, sender);
    match sender {
      case Found(_, want, _, target) => KnownIsWalked(s, want, target);
      case Taken(_, want, _, target, _) => KnownIsWalked(s, want, target);
      case Filled(_, want, _, target, _) => KnownIsWalked(s, want, target);
      case Caching(_, want, _, rep, first) =>
        if rep == NULL { WalkMisses(s, want, first); } else { KnownIsWalked(s, want, rep); }
      case _ =>
    }
  }

  /** freeMsg's findTarget always returns the representative of its node's home, from the cache
      or by a walk, whoever registers meanwhile: its assertion never fires, and the push goes
      to the home's free list. And a free list holds nodes of its own location only. */
  lemma {:induction false} FreeFindsHome(s: State, c: nat)
    requires Reachable(s) && c < |s.cores|
    ensures var h := s.cores[c].handler;
            h.Storing? || h.Returning? ==>
              && h.node in s.nodes && h.rep != NULL && h.rep in s.loc && s.loc[h.rep] == s.nodes[h.node].home
              && h.rep == WalkFrom(s, s.nodes[h.node].home, |s.root|)
    ensures s.cores[c].handler.Returning? ==>
              var x := s.cores[c].handler.node;
              x in s.nodes && s.nodes[x].home < |Step(s, Handle(c)).cores|
              && x == Step(s, Handle(c)).cores[s.nodes[x].home].fhead
    ensures forall x :: x in s.cores[c].free ==> x in s.nodes && s.nodes[x].home == c
  {
    ReachableInv(s);
    var h := s.cores[c].handler;
    assert HandlerKnows(s, h);
    if h.Storing? || h.Returning? {
      KnownIsWalked(s, s.nodes[h.node].home, h.rep);
    }
    if h.Returning? { FreePushes(s, c); }
    FreeHomesOnly(s, c);
  }

  lemma {:induction false} FreePushes(s: State, c: nat)
    requires RootOk(s) && c < |s.cores| && s.cores[c].handler.Returning? && HandlerKnows(s, s.cores[c].handler)
    ensures var x := s.cores[c].handler.node;
            x in s.nodes && s.nodes[x].home < |Step(s, Handle(c)).cores|
            && x == Step(s, Handle(c)).cores[s.nodes[x].home].fhead
  {
    var x, rep := s.cores[c].handler.node, s.cores[c].handler.rep;
    assert Step(s, Handle(c)) == DoFree(s, c, x, rep);
  }

  lemma {:induction false} FreeHomesOnly(s: State, c: nat)
    requires Owned(s) && Homes(s) && c < |s.cores|
    ensures forall x :: x in s.cores[c].free ==> x in s.nodes && s.nodes[x].home == c
  {
    assert CoreLists(s.nodes, s.cores[c]);
    forall x | x in s.cores[c].free ensures x in s.nodes && s.nodes[x].home == c {
      var i :| 0 <= i < |s.cores[c].free| && s.cores[c].free[i] == x;
      assert Linked(s.nodes, s.cores[c].free, i);
      assert Holds(s, InFreeList(c), x);
      assert HomeOk(s, x);
    }
  }

  // ----- last in, first out

  function Bottom<T>(xs: seq<T>, k: nat): seq<T>
    requires k <= |xs|
  {
    xs[|xs| - k..]
  }

  function Backlog(s: State, c: nat): nat {
    if c < |s.cores| then |s.cores[c].queue| else 0
  }

  /** The messages queued on a core, next to be served first. */
  ghost function Queued(s: State, c: nat): seq<Msg>
    requires c < |s.cores|
  {
    Contents(s.nodes, s.cores[c].queue)
  }

  lemma {:induction false} QueuedStays(s: State, a: Action, c: nat, x: nat)
    requires Owned(s) && c < |s.cores| && x in s.cores[c].queue
    ensures x in s.nodes && x in Step(s, a).nodes && MsgOf(Step(s, a).nodes[x]) == MsgOf(s.nodes[x])
  {
    QueuedExists(s, c, x);
    if a.Fill? && a.t < |s.senders| && SenderNode(s.senders[a.t]) == x { SenderHolds(s, a.t); }
    StepNode(s, a, x);
  }

  lemma {:induction false} QueuedExists(s: State, c: nat, x: nat)
    requires Owned(s) && c < |s.cores| && x in s.cores[c].queue
    ensures x in s.nodes && NULL < x < s.brk && s.owner[x] == InQueue(c)
  {
    assert CoreLists(s.nodes, s.cores[c]);
    var i :| 0 <= i < |s.cores[c].queue| && s.cores[c].queue[i] == x;
    assert Linked(s.nodes, s.cores[c].queue, i);
    assert Holds(s, InQueue(c), x);
  }

  /** A queue after a push, a pop, or neither. */
  predicate OneMove<T(==)>(q: seq<T>, p: seq<T>) {
    p == q || p == Tail(q) || (p != [] && p[1..] == q)
  }

  lemma {:induction false} EnqueueMove(s: State, t: nat, c: nat)
    requires c < |s.cores|
    ensures |DoEnqueue(s, t).cores| == |s.cores| && OneMove(s.cores[c].queue, DoEnqueue(s, t).cores[c].queue)
  {
    if DoEnqueue(s, t) != s {
      assert ([s.senders[t].node] + s.cores[c].queue)[1..] == s.cores[c].queue;
    }
  }

  lemma {:induction false} FreeMove(s: State, d: nat, x: nat, rep: nat, c: nat)
    requires c < |s.cores| && d < |s.cores|
    ensures |DoFree(s, d, x, rep).cores| == |s.cores| && DoFree(s, d, x, rep).cores[c].queue == s.cores[c].queue
  {
  }

  lemma {:induction false} HandleMove(s: State, d: nat, c: nat)
    requires c < |s.cores|
    ensures |DoHandle(s, d).cores| == |s.cores| && OneMove(s.cores[c].queue, DoHandle(s, d).cores[c].queue)
  {
    if d < |s.cores| {
      match s.cores[d].handler {
        case Polling =>
        case Returning(x, rep) => FreeMove(s, d, x, rep, c);
        case _ =>
          HandleUnmoved(s, d);
          assert SameLists(s.cores[c], DoHandle(s, d).cores[c]);
      }
    }
  }

  /** A step pushes onto the queue, pops from it or leaves it alone. */
  lemma {:induction false} QueueStep(s: State, a: Action, c: nat)
    requires c < |s.cores|
    ensures |Step(s, a).cores| == |s.cores|
    ensures var q, p := s.cores[c].queue, Step(s, a).cores[c].queue;
            OneMove(q, p)
  {
    match a {
      case Enqueue(t) => EnqueueMove(s, t, c);
      case Handle(d) => HandleMove(s, d, c);
      case Alloc(_, _) =>
      case Fill(_) =>
      case _ =>
        QuietUnmoved(s, a);
        assert SameLists(s.cores[c], Step(s, a).cores[c]);
    }
  }

  lemma {:induction false} StepBottom(s: State, a: Action, c: nat, k: nat)
    requires Owned(s) && c < |s.cores| && k <= |s.cores[c].queue|
    requires |Step(s, a).cores| == |s.cores| && k <= |Step(s, a).cores[c].queue|
    ensures Bottom(Queued(Step(s, a), c), k) == Bottom(Queued(s, c), k)
  {
    var r := Step(s, a);
    var q, p := s.cores[c].queue, r.cores[c].queue;
    QueueStep(s, a, c);
    forall x | x in q ensures x in s.nodes && x in r.nodes && MsgOf(r.nodes[x]) == MsgOf(s.nodes[x]) {
      QueuedStays(s, a, c, x);
    }
    SameContents(s.nodes, r.nodes, q, p, k);
  }

  lemma {:induction false} SameFromBottom(q: seq<nat>, p: seq<nat>, k: nat, i: nat)
    requires i < k <= |q| && k <= |p| && OneMove(q, p)
    ensures p[|p| - k + i] == q[|q| - k + i]
  {
    if p != [] && p[1..] == q {
      assert p[1..][|q| - k + i] == p[|p| - k + i];
    }
  }

  lemma {:induction false} BottomAt(nodes: map<nat, Node>, xs: seq<nat>, k: nat, i: nat)
    requires i < k <= |xs| && xs[|xs| - k + i] in nodes
    ensures Bottom(Contents(nodes, xs), k)[i] == MsgOf(nodes[xs[|xs| - k + i]])
  {
  }

  lemma {:induction false} SameContents(n: map<nat, Node>, m: map<nat, Node>, q: seq<nat>, p: seq<nat>, k: nat)
    requires k <= |q| && k <= |p| && OneMove(q, p)
    requires forall x :: x in q ==> x in n && x in m && MsgOf(m[x]) == MsgOf(n[x])
    ensures Bottom(Contents(m, p), k) == Bottom(Contents(n, q), k)
  {
    forall i | 0 <= i < k ensures Bottom(Contents(m, p), k)[i] == Bottom(Contents(n, q), k)[i] {
      SameFromBottom(q, p, k, i);
      assert q[|q| - k + i] in q;
      BottomAt(m, p, k, i);
      BottomAt(n, q, k, i);
    }
  }

  /** Last in, first out: as long as a core's queue keeps at least k messages, the k oldest
      ones wait untouched and in order, whatever is enqueued and served above them. */
  lemma {:induction false} LastInFirstOut(s: State, acts: seq<Action>, c: nat, k: nat)
    requires Inv(s) && c < |s.cores|
    requires forall i :: 0 <= i <= |acts| ==> k <= Backlog(Run(s, acts[..i]), c)
    ensures Inv(Run(s, acts)) && c < |Run(s, acts).cores|
    ensures k <= Backlog(Run(s, acts), c) && k <= Backlog(s, c)
    ensures Bottom(Queued(Run(s, acts), c), k) == Bottom(Queued(s, c), k)
  {
    assert acts[..|acts|] == acts && acts[..0] == [];
    if acts != [] {
      var front := acts[..|acts| - 1];
      forall i | 0 <= i <= |front| ensures acts[..i] == front[..i] {}
      LastInFirstOut(s, front, c, k);
      StepInv(Run(s, front), acts[|acts| - 1]);
      QueueStep(Run(s, front), acts[|acts| - 1], c);
      StepBottom(Run(s, front), acts[|acts| - 1], c, k);
    }
  }
}
