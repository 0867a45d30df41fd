/** Every step of the message-manager machine keeps lists in order and nodes in one place. */
module MsgMgrOwnership {
  import opened Common
  import opened MsgMgr
  import opened MsgMgrState

  // ----- lists in memory

  /** A list does not notice changes to nodes that are not on it. */
  lemma {:induction false} ListFrame(n: map<nat, Node>, m: map<nat, Node>, head: nat, xs: seq<nat>)
    requires IsList(n, head, xs)
    requires forall x :: x in xs && x in n ==> x in m && m[x].next == n[x].next
    ensures IsList(m, head, xs)
  {
    forall i | 0 <= i < |xs| ensures Linked(m, xs, i) {
      assert Linked(n, xs, i);
    }
  }

  lemma {:induction false} ListPush(n: map<nat, Node>, head: nat, xs: seq<nat>, x: nat, m: map<nat, Node>)
    requires IsList(n, head, xs) && x !in xs && x != NULL
    requires x in m && m[x].next == head
    requires forall y :: y in xs && y in n ==> y in m && m[y].next == n[y].next
    ensures IsList(m, x, [x] + xs)
  {
    var ys := [x] + xs;
    assert Linked(m, ys, 0);
    forall i | 0 < i < |ys| ensures Linked(m, ys, i) {
      assert ys[i] == xs[i - 1] && Linked(n, xs, i - 1);
    }
  }

  lemma {:induction false} ListPop(n: map<nat, Node>, head: nat, xs: seq<nat>)
    requires IsList(n, head, xs) && head != NULL
    ensures xs != [] && xs[0] == head && head in n
    ensures IsList(n, n[head].next, Tail(xs)) && head !in Tail(xs)
    ensures xs == [head] + Tail(xs)
  {
    assert Linked(n, xs, 0);
    var ys := Tail(xs);
    forall i | 0 <= i < |ys| ensures Linked(n, ys, i) {
      assert ys[i] == xs[i + 1] && Linked(n, xs, i + 1);
    }
  }

  // ----- every step keeps the places

  /** In r, x is at its new place and everything else is where it was in s. */
  ghost predicate Relocated(s: State, r: State, x: nat, to: Place) {
    forall p, y :: Holds(r, p, y) <==> if y == x then p == to else Holds(s, p, y)
  }

  lemma {:induction false} OwnedByMove(s: State, r: State, x: nat, to: Place)
    requires Owned(s) && Relocated(s, r, x, to)
    requires r.owner == s.owner[x := to] && r.nodes.Keys == s.nodes.Keys + {x}
    requires NULL < x < r.brk && s.brk <= r.brk
    requires forall c :: 0 <= c < |r.cores| ==> CoreLists(r.nodes, r.cores[c])
    ensures Owned(r)
  {
    assert Holds(r, to, x);
    forall y | y in r.nodes ensures NULL < y < r.brk && Holds(r, r.owner[y], y) {
      if y != x {
        assert Holds(s, s.owner[y], y);
      }
    }
    forall p, y | Holds(r, p, y) ensures y in r.owner && r.owner[y] == p {
      if y != x {
        assert Holds(s, p, y);
      }
    }
  }

  ghost predicate SameLists(a: Core, b: Core) {
    && b.qhead == a.qhead && b.fhead == a.fhead && b.queue == a.queue && b.free == a.free
    && HandlerNode(b.handler) == HandlerNode(a.handler)
  }

  /** Steps that move no node and change no list. */
  ghost predicate Unmoved(s: State, r: State) {
    && r.nodes == s.nodes && r.brk >= s.brk && r.owner == s.owner
    && |r.cores| == |s.cores| && |r.senders| == |s.senders|
    && (forall c :: 0 <= c < |s.cores| ==> SameLists(s.cores[c], r.cores[c]))
    && (forall t :: 0 <= t < |s.senders| ==> SenderNode(r.senders[t]) == SenderNode(s.senders[t]))
  }

  lemma {:induction false} CoreUnmoved(s: State, c: nat, core: Core)
    requires c < |s.cores| && SameLists(s.cores[c], core)
    ensures Unmoved(s, s.(cores := s.cores[c := core]))
  {
  }

  lemma {:induction false} SenderUnmoved(s: State, t: nat, sender: Sender)
    requires t < |s.senders| && SenderNode(s.senders[t]) == SenderNode(sender)
    ensures Unmoved(s, s.(senders := s.senders[t := sender]))
  {
  }

  lemma {:induction false} UnmovedTwice(s: State, q: State, r: State)
    requires Unmoved(s, q) && Unmoved(q, r)
    ensures Unmoved(s, r)
  {
    forall c | 0 <= c < |s.cores| ensures SameLists(s.cores[c], r.cores[c]) {
      assert SameLists(s.cores[c], q.cores[c]) && SameLists(q.cores[c], r.cores[c]);
    }
  }

  lemma {:induction false} OwnedUnmoved(s: State, r: State)
    requires Owned(s) && Unmoved(s, r)
    ensures Owned(r)
  {
    forall p, y ensures Holds(r, p, y) <==> Holds(s, p, y) {
      match p {
        case InQueue(c) => assert c < |s.cores| ==> SameLists(s.cores[c], r.cores[c]);
        case InFreeList(c) => assert c < |s.cores| ==> SameLists(s.cores[c], r.cores[c]);
        case WithSender(t) =>
        case WithHandler(c) => assert c < |s.cores| ==> SameLists(s.cores[c], r.cores[c]);
      }
    }
    assert forall y :: y in r.nodes ==> Holds(s, s.owner[y], y);
    forall c | 0 <= c < |r.cores| ensures CoreLists(r.nodes, r.cores[c]) {
      assert CoreLists(s.nodes, s.cores[c]) && SameLists(s.cores[c], r.cores[c]);
    }
  }

  /** Overwriting a node that is on no list, or making a new one, keeps every list. */
  lemma {:induction false} ListsSurvive(s: State, m: map<nat, Node>, x: nat)
    requires Owned(s)
    requires x in s.owner ==> s.owner[x].WithSender? || s.owner[x].WithHandler?
    requires forall y :: y in s.nodes && y != x ==> y in m && m[y].next == s.nodes[y].next
    ensures forall c :: 0 <= c < |s.cores| ==> CoreLists(m, s.cores[c])
    ensures forall c :: 0 <= c < |s.cores| ==> x !in s.cores[c].queue && x !in s.cores[c].free
  {
    forall c | 0 <= c < |s.cores|
      ensures CoreLists(m, s.cores[c]) && x !in s.cores[c].queue && x !in s.cores[c].free
    {
      var core := s.cores[c];
      assert CoreLists(s.nodes, core);
      NotOnList(s, c, x);
      ListFrame(s.nodes, m, core.qhead, core.queue);
      ListFrame(s.nodes, m, core.fhead, core.free);
    }
  }

  lemma {:induction false} NotOnList(s: State, c: nat, x: nat)
    requires Owned(s) && c < |s.cores| && CoreLists(s.nodes, s.cores[c])
    requires x in s.owner ==> s.owner[x].WithSender? || s.owner[x].WithHandler?
    ensures x !in s.cores[c].queue && x !in s.cores[c].free
  {
    if x in s.cores[c].queue {
      var i :| 0 <= i < |s.cores[c].queue| && s.cores[c].queue[i] == x;
      assert Linked(s.nodes, s.cores[c].queue, i);
      assert Holds(s, InQueue(c), x);
      assert false;
    }
    if x in s.cores[c].free {
      var i :| 0 <= i < |s.cores[c].free| && s.cores[c].free[i] == x;
      assert Linked(s.nodes, s.cores[c].free, i);
      assert Holds(s, InFreeList(c), x);
      assert false;
    }
  }

  /** The top of the own free list, about to be popped by sender t. */
  ghost predicate Pops(s: State, t: nat, garbage: Node) {
    && t < |s.senders| && s.senders[t].Found? && s.senders[t].home < |s.cores|
    && |garbage.args| == MAXARGS && s.cores[s.senders[t].home].fhead != NULL
  }

  lemma {:induction false} PopTop(s: State, t: nat, garbage: Node)
    requires Owned(s) && Pops(s, t, garbage)
    ensures var home, x := s.senders[t].home, s.cores[s.senders[t].home].fhead;
            && x in s.nodes && Holds(s, InFreeList(home), x) && x !in Tail(s.cores[home].free)
            && s.cores[home].free == [x] + Tail(s.cores[home].free)
            && IsList(s.nodes, s.nodes[x].next, Tail(s.cores[home].free))
  {
    var core := s.cores[s.senders[t].home];
    assert CoreLists(s.nodes, core);
    ListPop(s.nodes, core.fhead, core.free);
  }

  lemma {:induction false} PopHolds(s: State, t: nat, garbage: Node, p: Place, y: nat)
    requires Owned(s) && Pops(s, t, garbage)
    ensures var x := s.cores[s.senders[t].home].fhead;
            Holds(DoAlloc(s, t, garbage), p, y) <==> if y == x then p == WithSender(t) else Holds(s, p, y)
  {
    PopTop(s, t, garbage);
    assert Holds(s, p, y) ==> y in s.owner && s.owner[y] == p;
  }

  lemma {:induction false} PopOwned(s: State, t: nat, garbage: Node)
    requires Owned(s) && Pops(s, t, garbage)
    ensures Owned(DoAlloc(s, t, garbage))
  {
    var r, x := DoAlloc(s, t, garbage), s.cores[s.senders[t].home].fhead;
    PopTop(s, t, garbage);
    forall p, y ensures Holds(r, p, y) <==> if y == x then p == WithSender(t) else Holds(s, p, y) {
      PopHolds(s, t, garbage, p, y);
    }
    forall c | 0 <= c < |r.cores| ensures CoreLists(r.nodes, r.cores[c]) {
      assert CoreLists(s.nodes, s.cores[c]);
    }
    assert s.nodes.Keys + {x} == s.nodes.Keys;
    OwnedByMove(s, r, x, WithSender(t));
  }

  lemma {:induction false} MallocOwned(s: State, t: nat, garbage: Node)
    requires Owned(s) && t < |s.senders| && s.senders[t].Found? && s.senders[t].home < |s.cores|
    requires |garbage.args| == MAXARGS && s.cores[s.senders[t].home].fhead == NULL
    ensures Owned(DoAlloc(s, t, garbage))
  {
    var r, x := DoAlloc(s, t, garbage), s.brk;
    assert x !in s.owner;
    ListsSurvive(s, r.nodes, x);
    forall p, y ensures Holds(r, p, y) <==> if y == x then p == WithSender(t) else Holds(s, p, y) {
      assert Holds(s, p, y) ==> y in s.owner && s.owner[y] == p;
    }
    OwnedByMove(s, r, x, WithSender(t));
  }

  lemma {:induction false} FillHolds(s: State, t: nat)
    requires Owned(s) && DoFill(s, t) != s
    ensures var x := s.senders[t].node;
            && x in s.nodes && NULL < x < s.brk && Holds(s, WithSender(t), x) && s.owner[x] == WithSender(t)
            && forall p, y :: Holds(DoFill(s, t), p, y) <==> Holds(s, p, y)
  {
    var r, x := DoFill(s, t), s.senders[t].node;
    assert NULL < x;
    assert Holds(s, WithSender(t), x);
    forall p, y ensures Holds(r, p, y) <==> Holds(s, p, y) {
      match p {
        case WithSender(u) => assert u < |s.senders| ==> SenderNode(r.senders[u]) == SenderNode(s.senders[u]);
        case _ =>
      }
    }
  }

  lemma {:induction false} FillOwned(s: State, t: nat)
    requires Owned(s)
    ensures Owned(DoFill(s, t))
  {
    var r := DoFill(s, t);
    if r != s {
      var x := s.senders[t].node;
      FillHolds(s, t);
      ListsSurvive(s, r.nodes, x);
      assert s.nodes.Keys + {x} == s.nodes.Keys && r.nodes.Keys == s.nodes.Keys + {x};
      assert forall y :: y in s.nodes ==> Holds(s, s.owner[y], y);
      assert forall c :: 0 <= c < |s.cores| ==> CoreLists(r.nodes, s.cores[c]);
    }
  }

  lemma {:induction false} EnqueueHolds(s: State, t: nat, p: Place, y: nat)
    requires Owned(s) && DoEnqueue(s, t) != s
    ensures var x, c := s.senders[t].node, LocOf(s, s.senders[t].target);
            Holds(DoEnqueue(s, t), p, y) <==> if y == x then p == InQueue(c) else Holds(s, p, y)
  {
    var x := s.senders[t].node;
    assert NULL < x;
    assert Holds(s, WithSender(t), x);
    assert Holds(s, p, y) ==> y in s.owner && s.owner[y] == p;
    match p {
      case InQueue(d) =>
      case InFreeList(d) =>
      case WithSender(_) =>
      case WithHandler(d) =>
    }
  }

  lemma {:induction false} EnqueueLists(s: State, t: nat)
    requires Owned(s) && DoEnqueue(s, t) != s
    ensures var r := DoEnqueue(s, t); forall c :: 0 <= c < |r.cores| ==> CoreLists(r.nodes, r.cores[c])
  {
    var x, c := s.senders[t].node, LocOf(s, s.senders[t].target);
    assert NULL < x;
    assert Holds(s, WithSender(t), x);
    var r, core := DoEnqueue(s, t), s.cores[c];
    ListsSurvive(s, r.nodes, x);
    assert CoreLists(s.nodes, core);
    ListPush(s.nodes, core.qhead, core.queue, x, r.nodes);
  }

  lemma {:induction false} EnqueueOwned(s: State, t: nat)
    requires Owned(s)
    ensures Owned(DoEnqueue(s, t))
  {
    var r := DoEnqueue(s, t);
    if r != s {
      var x, c := s.senders[t].node, LocOf(s, s.senders[t].target);
      forall p, y ensures Holds(r, p, y) <==> if y == x then p == InQueue(c) else Holds(s, p, y) {
        EnqueueHolds(s, t, p, y);
      }
      EnqueueLists(s, t);
      assert s.nodes.Keys + {x} == s.nodes.Keys;
      OwnedByMove(s, r, x, InQueue(c));
    }
  }

  lemma {:induction false} DequeueTop(s: State, c: nat)
    requires Owned(s) && c < |s.cores| && s.cores[c].qhead != NULL
    ensures var x, queue := s.cores[c].qhead, s.cores[c].queue;
            && x in s.nodes && Holds(s, InQueue(c), x) && x !in Tail(queue) && queue == [x] + Tail(queue)
            && IsList(s.nodes, s.nodes[x].next, Tail(queue))
  {
    var core := s.cores[c];
    assert CoreLists(s.nodes, core);
    ListPop(s.nodes, core.qhead, core.queue);
  }

  lemma {:induction false} DequeueHolds(s: State, c: nat, p: Place, y: nat)
    requires Owned(s) && c < |s.cores| && s.cores[c].handler.Polling? && s.cores[c].qhead != NULL
    ensures Holds(DoDequeue(s, c), p, y) <==> if y == s.cores[c].qhead then p == WithHandler(c) else Holds(s, p, y)
  {
    DequeueTop(s, c);
    assert Holds(s, p, y) ==> y in s.owner && s.owner[y] == p;
    match p {
      case InQueue(d) =>
      case InFreeList(d) =>
      case WithSender(_) =>
      case WithHandler(d) =>
    }
  }

  lemma {:induction false} PolledOwned(s: State, c: nat)
    requires Owned(s) && c < |s.cores| && s.cores[c].handler.Polling? && s.cores[c].qhead != NULL
    ensures Owned(DoDequeue(s, c))
  {
    var r, x := DoDequeue(s, c), s.cores[c].qhead;
    DequeueTop(s, c);
    forall p, y ensures Holds(r, p, y) <==> if y == x then p == WithHandler(c) else Holds(s, p, y) {
      DequeueHolds(s, c, p, y);
    }
    forall d | 0 <= d < |r.cores| ensures CoreLists(r.nodes, r.cores[d]) {
      assert CoreLists(s.nodes, s.cores[d]);
    }
    assert s.nodes.Keys + {x} == s.nodes.Keys;
    OwnedByMove(s, r, x, WithHandler(c));
  }

  lemma {:induction false} DequeueOwned(s: State, c: nat)
    requires Owned(s) && c < |s.cores| && s.cores[c].handler.Polling?
    ensures Owned(DoDequeue(s, c))
  {
    if s.cores[c].qhead == NULL {
      SetUnmoved(s, c, Enabling);
      OwnedUnmoved(s, DoDequeue(s, c));
    } else {
      PolledOwned(s, c);
    }
  }

  lemma {:induction false} FreeHolds(s: State, c: nat, x: nat, rep: nat, p: Place, y: nat)
    requires Owned(s) && c < |s.cores| && s.cores[c].handler == Returning(x, rep)
    requires x in s.nodes && LocOf(s, rep) < |s.cores|
    ensures Holds(DoFree(s, c, x, rep), p, y) <==> if y == x then p == InFreeList(LocOf(s, rep)) else Holds(s, p, y)
  {
    assert Holds(s, WithHandler(c), x);
    assert Holds(s, p, y) ==> y in s.owner && s.owner[y] == p;
    match p {
      case InQueue(d) =>
      case InFreeList(d) =>
      case WithSender(_) =>
      case WithHandler(d) =>
    }
  }

  lemma {:induction false} FreeLists(s: State, c: nat, x: nat, rep: nat)
    requires Owned(s) && c < |s.cores| && s.cores[c].handler == Returning(x, rep)
    requires x in s.nodes && LocOf(s, rep) < |s.cores|
    ensures var r := DoFree(s, c, x, rep); forall d :: 0 <= d < |r.cores| ==> CoreLists(r.nodes, r.cores[d])
  {
    var r, h := DoFree(s, c, x, rep), LocOf(s, rep);
    assert Holds(s, WithHandler(c), x);
    ListsSurvive(s, r.nodes, x);
    var core := s.cores[h];
    assert CoreLists(s.nodes, core);
    ListPush(s.nodes, core.fhead, core.free, x, r.nodes);
    forall d | 0 <= d < |r.cores| ensures CoreLists(r.nodes, r.cores[d]) {
      assert CoreLists(r.nodes, s.cores[d]);
    }
  }

  lemma {:induction false} FreeOwned(s: State, c: nat, x: nat, rep: nat)
    requires Owned(s) && c < |s.cores| && s.cores[c].handler == Returning(x, rep)
    requires x in s.nodes && LocOf(s, rep) < |s.cores|
    ensures Owned(DoFree(s, c, x, rep))
  {
    var r, h := DoFree(s, c, x, rep), LocOf(s, rep);
    FreeLists(s, c, x, rep);
    forall p, y ensures Holds(r, p, y) <==> if y == x then p == InFreeList(h) else Holds(s, p, y) {
      FreeHolds(s, c, x, rep, p, y);
    }
    assert s.nodes.Keys + {x} == s.nodes.Keys;
    OwnedByMove(s, r, x, InFreeList(h));
  }

  lemma {:induction false} HandleOwned(s: State, c: nat)
    requires Owned(s)
    ensures Owned(DoHandle(s, c))
  {
    var r := DoHandle(s, c);
    if r != s {
      match s.cores[c].handler {
        case Polling => DequeueOwned(s, c);
        case Returning(x, rep) => FreeOwned(s, c, x, rep);
        case _ => HandleUnmoved(s, c); OwnedUnmoved(s, r);
      }
    }
  }

  lemma {:induction false} SetUnmoved(s: State, c: nat, handler: Handler)
    requires c < |s.cores| && HandlerNode(handler) == HandlerNode(s.cores[c].handler)
    ensures Unmoved(s, SetHandler(s, c, handler))
  {
    CoreUnmoved(s, c, s.cores[c].(handler := handler));
  }

  lemma {:induction false} CacheUnmoved(s: State, c: nat, l: nat, rep: nat)
    ensures Unmoved(s, CacheRep(s, c, l, rep))
  {
    if c < |s.cores| && l < |s.cores[c].reps| {
      CoreUnmoved(s, c, s.cores[c].(reps := s.cores[c].reps[l := rep]));
    }
  }

  /** The three steps of freeMsg's findTarget. */
  lemma {:induction false} FindHomeUnmoved(s: State, c: nat)
    requires c < |s.cores|
    requires s.cores[c].handler.Freeing? || s.cores[c].handler.Seeking? || s.cores[c].handler.Storing?
    ensures Unmoved(s, DoHandle(s, c))
  {
    var x := s.cores[c].handler.node;
    if DoHandle(s, c) != s {
      if s.cores[c].handler.Storing? {
        var rep := s.cores[c].handler.rep;
        var q := CacheRep(s, c, s.nodes[x].home, rep);
        CacheUnmoved(s, c, s.nodes[x].home, rep);
        SetUnmoved(q, c, Returning(x, rep));
        UnmovedTwice(s, q, DoHandle(s, c));
      } else {
        SetUnmoved(s, c, DoHandle(s, c).cores[c].handler);
      }
    }
  }

  lemma {:induction false} HandleUnmoved(s: State, c: nat)
    requires c < |s.cores| && !s.cores[c].handler.Polling? && !s.cores[c].handler.Returning?
    ensures Unmoved(s, DoHandle(s, c))
  {
    var core := s.cores[c];
    match core.handler {
      case Off => CoreUnmoved(s, c, core);
      case Entered => CoreUnmoved(s, c, core.(pending := false, handler := Polling));
      case Running(x) => if x in s.nodes { CoreUnmoved(s, c, DoCall(s, c, x).cores[c]); }
      case Enabling => SetUnmoved(s, c, Off);
      case _ => FindHomeUnmoved(s, c);
    }
  }

  lemma {:induction false} AllocOwned(s: State, t: nat, garbage: Node)
    requires Owned(s)
    ensures Owned(DoAlloc(s, t, garbage))
  {
    if DoAlloc(s, t, garbage) != s {
      var home := s.senders[t].home;
      if s.cores[home].fhead == NULL {
        MallocOwned(s, t, garbage);
      } else {
        PopOwned(s, t, garbage);
      }
    }
  }

  lemma {:induction false} QuietOwned(s: State, a: Action)
    requires Owned(s) && !a.Alloc? && !a.Fill? && !a.Enqueue? && !a.Handle?
    ensures Owned(Step(s, a))
  {
    QuietUnmoved(s, a);
    OwnedUnmoved(s, Step(s, a));
  }

  lemma {:induction false} QuietUnmoved(s: State, a: Action)
    requires !a.Alloc? && !a.Fill? && !a.Enqueue? && !a.Handle?
    ensures Unmoved(s, Step(s, a))
  {
    match a {
      case Register(c) =>
      case Find(t, home, want, msg) => FindUnmoved(s, t, home, want, msg);
      case Walk(t) => if DoWalk(s, t) != s { SenderUnmoved(s, t, DoWalk(s, t).senders[t]); }
      case Store(t) => StoreUnmoved(s, t);
      case Notify(t) => NotifyUnmoved(s, t);
      case Ipi(c) => PendingUnmoved(s, c);
      case Deliver(c) => if DoDeliver(s, c) != s { SetUnmoved(s, c, Entered); }
    }
  }

  lemma {:induction false} PendingUnmoved(s: State, c: nat)
    ensures Unmoved(s, SetPending(s, c))
  {
    if c < |s.cores| { CoreUnmoved(s, c, s.cores[c].(pending := true)); }
  }

  lemma {:induction false} NotifyUnmoved(s: State, t: nat)
    ensures Unmoved(s, DoNotify(s, t))
  {
    if DoNotify(s, t) != s {
      var q := SetPending(s, LocOf(s, s.senders[t].target));
      PendingUnmoved(s, LocOf(s, s.senders[t].target));
      SenderUnmoved(q, t, Idle);
      UnmovedTwice(s, q, DoNotify(s, t));
    }
  }

  lemma {:induction false} AcceptUnmoved(s: State, t: nat, home: nat, want: nat, msg: Msg, rep: nat)
    requires t < |s.senders| && want < |s.cores| && SenderNode(s.senders[t]) == NULL
    ensures Unmoved(s, Accept(s, t, home, want, msg, rep))
  {
    var q := s.(senders := s.senders[t := Found(home, want, msg, rep)]);
    SenderUnmoved(s, t, Found(home, want, msg, rep));
    CoreUnmoved(q, want, q.cores[want].(accepted := q.cores[want].accepted + multiset{msg}));
    UnmovedTwice(s, q, Accept(s, t, home, want, msg, rep));
  }

  lemma {:induction false} FindUnmoved(s: State, t: nat, home: nat, want: nat, msg: Msg)
    ensures Unmoved(s, DoFind(s, t, home, want, msg))
  {
    if DoFind(s, t, home, want, msg) != s {
      if s.cores[home].reps[want] != NULL {
        AcceptUnmoved(s, t, home, want, msg, s.cores[home].reps[want]);
      } else {
        SenderUnmoved(s, t, Walking(home, want, msg, |s.root|, |s.root|));
      }
    }
  }

  lemma {:induction false} StoreUnmoved(s: State, t: nat)
    ensures Unmoved(s, DoStore(s, t))
  {
    if DoStore(s, t) != s {
      var Caching(home, want, msg, rep, first) := s.senders[t];
      var q := CacheRep(s, home, want, rep);
      CacheUnmoved(s, home, want, rep);
      if rep == NULL {
        SenderUnmoved(q, t, Idle);
      } else {
        AcceptUnmoved(q, t, home, want, msg, rep);
      }
      UnmovedTwice(s, q, DoStore(s, t));
    }
  }

  lemma {:induction false} StepOwned(s: State, a: Action)
    requires Owned(s)
    ensures Owned(Step(s, a))
  {
    match a {
      case Alloc(t, garbage) => AllocOwned(s, t, garbage);
      case Fill(t) => FillOwned(s, t);
      case Enqueue(t) => EnqueueOwned(s, t);
      case Handle(c) => HandleOwned(s, c);
      case _ => QuietOwned(s, a);
    }
  }

  lemma {:induction false} SenderHolds(s: State, t: nat)
    requires Owned(s) && t < |s.senders| && SenderNode(s.senders[t]) in s.nodes
    ensures s.owner[SenderNode(s.senders[t])] == WithSender(t)
  {
    var x := SenderNode(s.senders[t]);
    assert NULL < x;
    assert Holds(s, WithSender(t), x);
  }

  lemma {:induction false} HandlerHolds(s: State, c: nat)
    requires Owned(s) && c < |s.cores| && HandlerNode(s.cores[c].handler) in s.nodes
    ensures s.owner[HandlerNode(s.cores[c].handler)] == WithHandler(c)
  {
    var x := HandlerNode(s.cores[c].handler);
    assert NULL < x;
    assert Holds(s, WithHandler(c), x);
  }
}
