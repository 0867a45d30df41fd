/** Every step of the message-manager machine keeps the books: no accepted message is lost,
    repeated or changed between findTarget and its handler. */
module MsgMgrAccounts {
  import opened Common
  import opened MsgMgr
  import opened MsgMgrState
  import opened MsgMgrOwnership
  import opened MsgMgrLookup

  // ----- what senders carry

  lemma {:induction false} Regroup(head: multiset<Msg>, before: multiset<Msg>, old0: multiset<Msg>,
                                   after: multiset<Msg>, new0: multiset<Msg>)
    requires before + old0 == after + new0
    ensures (head + before) + old0 == (head + after) + new0
  {
    assert (head + before) + old0 == head + (before + old0);
    assert (head + after) + new0 == head + (after + new0);
  }

  lemma {:induction false} CarriedFirst(senders: seq<Sender>, c: nat)
    requires senders != []
    ensures Carried(senders, c) == Load(senders[0], c) + Carried(senders[1..], c)
  {
  }

  lemma {:induction false} CarriedUpdate(senders: seq<Sender>, t: nat, sender: Sender, c: nat)
    requires t < |senders|
    ensures Carried(senders[t := sender], c) + Load(senders[t], c) == Carried(senders, c) + Load(sender, c)
  {
    var after := senders[t := sender];
    CarriedFirst(senders, c);
    CarriedFirst(after, c);
    if t == 0 {
      assert after[1..] == senders[1..];
    } else {
      assert after[1..] == senders[1..][t - 1 := sender];
      CarriedUpdate(senders[1..], t - 1, sender, c);
      Regroup(Load(senders[0], c), Carried(after[1..], c), Load(senders[t], c),
              Carried(senders[1..], c), Load(sender, c));
    }
  }

  lemma {:induction false} Cancel(a: multiset<Msg>, b: multiset<Msg>, x: multiset<Msg>)
    requires a + x == b + x
    ensures a == b
  {
    assert a == (a + x) - x && b == (b + x) - x;
  }

  lemma {:induction false} CarriedSame(senders: seq<Sender>, t: nat, sender: Sender, c: nat)
    requires t < |senders| && Load(sender, c) == Load(senders[t], c)
    ensures Carried(senders[t := sender], c) == Carried(senders, c)
  {
    CarriedUpdate(senders, t, sender, c);
    Cancel(Carried(senders[t := sender], c), Carried(senders, c), Load(sender, c));
  }

  lemma {:induction false} IdleCarryNothing(senders: seq<Sender>, c: nat)
    requires forall t :: 0 <= t < |senders| ==> senders[t].Idle?
    ensures Carried(senders, c) == multiset{}
  {
    if senders != [] {
      IdleCarryNothing(senders[1..], c);
    }
  }

  // ----- accounts of one location

  lemma {:induction false} ContentsSame(n: map<nat, Node>, m: map<nat, Node>, xs: seq<nat>)
    requires forall y :: y in xs ==> (y in m <==> y in n) && (y in n ==> MsgOf(m[y]) == MsgOf(n[y]))
    ensures Contents(m, xs) == Contents(n, xs)
  {
    forall i | 0 <= i < |xs| ensures Contents(m, xs)[i] == Contents(n, xs)[i] {
      assert xs[i] in xs;
    }
  }

  lemma {:induction false} AccountFrame(n: map<nat, Node>, m: map<nat, Node>, core: Core, carried: multiset<Msg>)
    requires Accounted(n, core, carried)
    requires forall y :: y in core.queue || y == HandlerNode(core.handler) ==>
               (y in m <==> y in n) && (y in n ==> MsgOf(m[y]) == MsgOf(n[y]))
    ensures Accounted(m, core, carried)
  {
    ContentsSame(n, m, core.queue);
    assert InHand(m, core) == InHand(n, core) by {
      assert core.handler.Running? ==> core.handler.node == HandlerNode(core.handler);
    }
  }

  /** Memory may change where a sender holds it, or anywhere but in the messages. */
  lemma {:induction false} AccountsFrame(s: State, m: map<nat, Node>, x: nat, d: nat)
    requires Owned(s) && Accounts(s) && NULL !in m && d < |s.cores|
    requires x in s.owner ==> s.owner[x].WithSender?
    requires forall y :: y != x ==> (y in m <==> y in s.nodes) && (y in s.nodes ==> MsgOf(m[y]) == MsgOf(s.nodes[y]))
    ensures Accounted(m, s.cores[d], Carried(s.senders, d))
  {
    assert CoreLists(s.nodes, s.cores[d]) && Accounted(s.nodes, s.cores[d], Carried(s.senders, d));
    NotOnList(s, d, x);
    if HandlerNode(s.cores[d].handler) == x != NULL {
      assert Holds(s, WithHandler(d), x);
      assert false;
    }
    AccountFrame(s.nodes, m, s.cores[d], Carried(s.senders, d));
  }

  lemma {:induction false} ContentsPush(nodes: map<nat, Node>, x: nat, xs: seq<nat>)
    requires x in nodes
    ensures multiset(Contents(nodes, [x] + xs)) == multiset{MsgOf(nodes[x])} + multiset(Contents(nodes, xs))
  {
    assert Contents(nodes, [x] + xs) == [MsgOf(nodes[x])] + Contents(nodes, xs);
  }

  /** What the books of a location depend on, but for the memory. */
  ghost predicate SameBooks(a: Core, b: Core) {
    && b.queue == a.queue && b.accepted == a.accepted && b.delivered == a.delivered
    && (b.handler == a.handler || !(a.handler.Running? || b.handler.Running?))
  }

  lemma {:induction false} BooksKept(nodes: map<nat, Node>, a: Core, b: Core, carried: multiset<Msg>)
    requires Accounted(nodes, a, carried) && SameBooks(a, b)
    ensures Accounted(nodes, b, carried)
  {
  }

  /** Steps that change neither memory nor books nor what is carried. */
  ghost predicate Unbooked(s: State, r: State) {
    && r.nodes == s.nodes && |r.cores| == |s.cores|
    && (forall c :: 0 <= c < |s.cores| ==> SameBooks(s.cores[c], r.cores[c]))
    && (forall c :: 0 <= c < |s.cores| ==> Carried(r.senders, c) == Carried(s.senders, c))
  }

  lemma {:induction false} UnbookedAccounts(s: State, r: State)
    requires Accounts(s) && Unbooked(s, r)
    ensures Accounts(r)
  {
    forall d | 0 <= d < |r.cores| ensures Accounted(r.nodes, r.cores[d], Carried(r.senders, d)) {
      assert SameBooks(s.cores[d], r.cores[d]) && Carried(r.senders, d) == Carried(s.senders, d);
      BooksKept(r.nodes, s.cores[d], r.cores[d], Carried(s.senders, d));
    }
  }

  lemma {:induction false} CoreUnbooked(s: State, c: nat, core: Core)
    requires c < |s.cores| && SameBooks(s.cores[c], core)
    ensures Unbooked(s, s.(cores := s.cores[c := core]))
  {
  }

  predicate Loaded(sender: Sender) { sender.Found? || sender.Taken? || sender.Filled? }

  predicate SameLoad(a: Sender, b: Sender) {
    Loaded(a) == Loaded(b) && (Loaded(a) ==> a.want == b.want && a.msg == b.msg)
  }

  lemma {:induction false} SenderUnbooked(s: State, t: nat, sender: Sender)
    requires t < |s.senders| && SameLoad(s.senders[t], sender)
    ensures Unbooked(s, s.(senders := s.senders[t := sender]))
  {
    forall c | 0 <= c < |s.cores| ensures Carried(s.senders[t := sender], c) == Carried(s.senders, c) {
      CarriedSame(s.senders, t, sender, c);
    }
  }

  lemma {:induction false} SenderAccounts(s: State, t: nat, sender: Sender)
    requires Accounts(s) && t < |s.senders| && SameLoad(s.senders[t], sender)
    ensures Accounts(s.(senders := s.senders[t := sender]))
  {
    SenderUnbooked(s, t, sender);
    UnbookedAccounts(s, s.(senders := s.senders[t := sender]));
  }

  lemma {:induction false} CoreAccounts(s: State, c: nat, core: Core)
    requires Accounts(s) && c < |s.cores| && SameBooks(s.cores[c], core)
    ensures Accounts(s.(cores := s.cores[c := core]))
  {
    CoreUnbooked(s, c, core);
    UnbookedAccounts(s, s.(cores := s.cores[c := core]));
  }

  // ----- senders' steps

  lemma {:induction false} AcceptAccount(nodes: map<nat, Node>, a: Core, b: Core, before: multiset<Msg>,
                                         after: multiset<Msg>, msg: Msg)
    requires Accounted(nodes, a, before) && after == before + multiset{msg}
    requires b.accepted == a.accepted + multiset{msg} && b.delivered == a.delivered
    requires b.queue == a.queue && b.handler == a.handler
    ensures Accounted(nodes, b, after)
  {
    var rest := a.delivered + multiset(Contents(nodes, a.queue)) + InHand(nodes, a);
    assert (rest + before) + multiset{msg} == rest + after;
  }

  /** findTarget accepts: what the location has accepted and what is carried for it grow together. */
  lemma {:induction false} AcceptAccounts(s: State, t: nat, home: nat, want: nat, msg: Msg, rep: nat)
    requires Accounts(s) && t < |s.senders| && want < |s.cores|
    requires !s.senders[t].Found? && !s.senders[t].Taken? && !s.senders[t].Filled?
    ensures Accounts(Accept(s, t, home, want, msg, rep))
  {
    var r := Accept(s, t, home, want, msg, rep);
    forall d | 0 <= d < |r.cores| ensures Accounted(r.nodes, r.cores[d], Carried(r.senders, d)) {
      assert Accounted(s.nodes, s.cores[d], Carried(s.senders, d));
      CarriedUpdate(s.senders, t, Found(home, want, msg, rep), d);
      assert Carried(r.senders, d) == Carried(r.senders, d) + Load(s.senders[t], d);
      if d == want {
        AcceptAccount(s.nodes, s.cores[d], r.cores[d], Carried(s.senders, d), Carried(r.senders, d), msg);
      } else {
        assert Carried(s.senders, d) + Load(Found(home, want, msg, rep), d) == Carried(s.senders, d);
      }
    }
  }

  lemma {:induction false} FindAccounts(s: State, t: nat, home: nat, want: nat, msg: Msg)
    requires Accounts(s)
    ensures Accounts(DoFind(s, t, home, want, msg))
  {
    if DoFind(s, t, home, want, msg) != s {
      if s.cores[home].reps[want] != NULL {
        AcceptAccounts(s, t, home, want, msg, s.cores[home].reps[want]);
      } else {
        SenderAccounts(s, t, Walking(home, want, msg, |s.root|, |s.root|));
      }
    }
  }

  lemma {:induction false} WalkAccounts(s: State, t: nat)
    requires Accounts(s)
    ensures Accounts(DoWalk(s, t))
  {
    if DoWalk(s, t) != s {
      var Walking(home, want, msg, at, first) := s.senders[t];
      if at == 0 {
        SenderAccounts(s, t, Caching(home, want, msg, NULL, first));
      } else if s.loc[s.root[at - 1]] == want {
        SenderAccounts(s, t, Caching(home, want, msg, s.root[at - 1], first));
      } else {
        SenderAccounts(s, t, Walking(home, want, msg, at - 1, first));
      }
    }
  }

  lemma {:induction false} CacheAccounts(s: State, c: nat, l: nat, rep: nat)
    requires Accounts(s)
    ensures Accounts(CacheRep(s, c, l, rep))
  {
    if c < |s.cores| && l < |s.cores[c].reps| {
      CoreAccounts(s, c, s.cores[c].(reps := s.cores[c].reps[l := rep]));
    }
  }

  lemma {:induction false} StoreAccounts(s: State, t: nat)
    requires Accounts(s)
    ensures Accounts(DoStore(s, t))
  {
    if DoStore(s, t) != s {
      var Caching(home, want, msg, rep, first) := s.senders[t];
      CacheAccounts(s, home, want, rep);
      StoredAccounts(s, CacheRep(s, home, want, rep), t);
    }
  }

  lemma {:induction false} StoredAccounts(s: State, q: State, t: nat)
    requires t < |s.senders| == |q.senders| && s.senders[t].Caching? && q.senders[t] == s.senders[t]
    requires s.senders[t].want < |s.cores| == |q.cores| && Accounts(q)
    requires q == CacheRep(s, s.senders[t].home, s.senders[t].want, s.senders[t].rep)
    ensures Accounts(DoStore(s, t))
  {
    var Caching(home, want, msg, rep, first) := s.senders[t];
    if rep == NULL {
      SenderAccounts(q, t, Idle);
    } else {
      AcceptAccounts(q, t, home, want, msg, rep);
    }
  }

  lemma {:induction false} PopAccounts(s: State, t: nat, garbage: Node)
    requires Accounts(s) && DoAlloc(s, t, garbage) != s && DoAlloc(s, t, garbage).nodes == s.nodes
    requires s.brk !in s.nodes
    ensures Accounts(DoAlloc(s, t, garbage))
  {
    var r, home := DoAlloc(s, t, garbage), s.senders[t].home;
    var q := s.(cores := s.cores[home := r.cores[home]]);
    CoreAccounts(s, home, r.cores[home]);
    SenderAccounts(q, t, r.senders[t]);
    AccountsOf(q.(senders := q.senders[t := r.senders[t]]), r);
  }

  /** Accounts depend on memory, cores and senders only. */
  lemma {:induction false} AccountsOf(s: State, r: State)
    requires Accounts(s) && r.nodes == s.nodes && r.cores == s.cores && r.senders == s.senders
    ensures Accounts(r)
  {
    forall d | 0 <= d < |r.cores| ensures Accounted(r.nodes, r.cores[d], Carried(r.senders, d)) {
      assert Accounted(s.nodes, s.cores[d], Carried(s.senders, d));
    }
  }

  lemma {:induction false} NewNodeAccount(s: State, garbage: Node, d: nat)
    requires Owned(s) && Accounts(s) && d < |s.cores|
    ensures Accounted(s.nodes[s.brk := garbage], s.cores[d], Carried(s.senders, d))
  {
    assert s.brk !in s.nodes && NULL !in s.nodes;
    AccountsFrame(s, s.nodes[s.brk := garbage], s.brk, d);
  }

  /** New memory is in nobody's books. */
  lemma {:induction false} NewNodeAccounts(s: State, garbage: Node)
    requires Owned(s) && Accounts(s)
    ensures Accounts(s.(nodes := s.nodes[s.brk := garbage]))
  {
    forall d | 0 <= d < |s.cores| ensures Accounted(s.nodes[s.brk := garbage], s.cores[d], Carried(s.senders, d)) {
      NewNodeAccount(s, garbage, d);
    }
  }

  lemma {:induction false} MallocAccounts(s: State, t: nat, garbage: Node)
    requires Owned(s) && Accounts(s) && DoAlloc(s, t, garbage) != s && DoAlloc(s, t, garbage).nodes != s.nodes
    ensures Accounts(DoAlloc(s, t, garbage))
  {
    var Found(home, want, msg, target) := s.senders[t];
    var q := s.(nodes := s.nodes[s.brk := garbage]);
    NewNodeAccounts(s, garbage);
    SenderAccounts(q, t, Taken(home, want, msg, target, s.brk));
    AccountsOf(q.(senders := q.senders[t := Taken(home, want, msg, target, s.brk)]), DoAlloc(s, t, garbage));
  }

  lemma {:induction false} FillAccounts(s: State, t: nat)
    requires Owned(s) && Accounts(s) && DoFill(s, t) != s
    ensures Accounts(DoFill(s, t))
  {
    var r := DoFill(s, t);
    SenderHolds(s, t);
    var q := s.(nodes := r.nodes);
    forall d | 0 <= d < |s.cores| ensures Accounted(q.nodes, s.cores[d], Carried(s.senders, d)) {
      AccountsFrame(s, q.nodes, s.senders[t].node, d);
    }
    assert Accounts(q);
    SenderAccounts(q, t, r.senders[t]);
  }

  /** The message moves from what is carried to the queue. */
  lemma {:induction false} EnqueueAccount(nodes: map<nat, Node>, a: Core, b: Core, x: nat, before: multiset<Msg>,
                                          after: multiset<Msg>)
    requires Accounted(nodes, a, before) && x in nodes && before == after + multiset{MsgOf(nodes[x])}
    requires b.queue == [x] + a.queue && b.handler == a.handler
    requires b.accepted == a.accepted && b.delivered == a.delivered
    ensures Accounted(nodes, b, after)
  {
    ContentsPush(nodes, x, a.queue);
  }

  /** The memory after an enqueue, for every location's old books. */
  lemma {:induction false} RelinkAccounts(s: State, t: nat, d: nat)
    requires Owned(s) && Accounts(s) && DoEnqueue(s, t) != s && d < |s.cores|
    ensures Accounted(DoEnqueue(s, t).nodes, s.cores[d], Carried(s.senders, d))
  {
    SenderHolds(s, t);
    AccountsFrame(s, DoEnqueue(s, t).nodes, s.senders[t].node, d);
  }

  lemma {:induction false} EnqueueCarried(s: State, t: nat, d: nat)
    requires DoEnqueue(s, t) != s
    ensures Carried(s.senders, d) ==
            Carried(DoEnqueue(s, t).senders, d) +
            if d == s.senders[t].want then multiset{s.senders[t].msg} else multiset{}
  {
    CarriedUpdate(s.senders, t, DoEnqueue(s, t).senders[t], d);
    assert Carried(s.senders, d) + multiset{} == Carried(s.senders, d);
  }

  lemma {:induction false} EnqueueTarget(s: State, t: nat)
    requires Lookup(s) && DoEnqueue(s, t) != s
    ensures var r, c := DoEnqueue(s, t), s.senders[t].want;
            && LocOf(s, s.senders[t].target) == c && s.senders[t].node in r.nodes
            && MsgOf(r.nodes[s.senders[t].node]) == s.senders[t].msg
  {
    assert SenderKnows(s, s.senders[t]);
  }

  lemma {:induction false} EnqueueAccounts(s: State, t: nat)
    requires Owned(s) && Lookup(s) && Accounts(s) && DoEnqueue(s, t) != s
    ensures Accounts(DoEnqueue(s, t))
  {
    var r, x, c := DoEnqueue(s, t), s.senders[t].node, s.senders[t].want;
    EnqueueTarget(s, t);
    forall d | 0 <= d < |r.cores| ensures Accounted(r.nodes, r.cores[d], Carried(r.senders, d)) {
      RelinkAccounts(s, t, d);
      EnqueueCarried(s, t, d);
      if d == c {
        EnqueueAccount(r.nodes, s.cores[c], r.cores[c], x, Carried(s.senders, c), Carried(r.senders, c));
      } else {
        assert r.cores[d] == s.cores[d] && Carried(r.senders, d) == Carried(s.senders, d);
      }
    }
  }

  lemma {:induction false} PendingAccounts(s: State, c: nat)
    requires Accounts(s)
    ensures Accounts(SetPending(s, c))
  {
    if c < |s.cores| { CoreAccounts(s, c, s.cores[c].(pending := true)); }
  }

  lemma {:induction false} NotifyAccounts(s: State, t: nat)
    requires Accounts(s)
    ensures Accounts(DoNotify(s, t))
  {
    if DoNotify(s, t) != s {
      PendingAccounts(s, LocOf(s, s.senders[t].target));
      SenderAccounts(SetPending(s, LocOf(s, s.senders[t].target)), t, Idle);
    }
  }

  // ----- handlers' steps

  lemma {:induction false} SetAccounts(s: State, c: nat, handler: Handler)
    requires Accounts(s) && c < |s.cores| && !s.cores[c].handler.Running? && !handler.Running?
    ensures Accounts(SetHandler(s, c, handler))
  {
    CoreAccounts(s, c, s.cores[c].(handler := handler));
  }

  lemma {:induction false} DequeueAccount(nodes: map<nat, Node>, a: Core, b: Core, x: nat, carried: multiset<Msg>)
    requires Accounted(nodes, a, carried) && x in nodes && a.queue == [x] + b.queue && !a.handler.Running?
    requires b.accepted == a.accepted && b.delivered == a.delivered && b.handler == Running(x)
    ensures Accounted(nodes, b, carried)
  {
    ContentsPush(nodes, x, b.queue);
  }

  lemma {:induction false} DequeueAccounts(s: State, c: nat)
    requires Owned(s) && Accounts(s) && c < |s.cores| && s.cores[c].handler.Polling?
    ensures Accounts(DoHandle(s, c))
  {
    assert DoHandle(s, c) == DoDequeue(s, c);
    var r, core := DoDequeue(s, c), s.cores[c];
    assert CoreLists(s.nodes, core);
    if core.qhead == NULL {
      SetAccounts(s, c, Enabling);
    } else {
      ListPop(s.nodes, core.qhead, core.queue);
      forall d | 0 <= d < |r.cores| ensures Accounted(r.nodes, r.cores[d], Carried(r.senders, d)) {
        assert Accounted(s.nodes, s.cores[d], Carried(s.senders, d));
        if d == c {
          DequeueAccount(s.nodes, core, r.cores[c], core.qhead, Carried(s.senders, c));
        }
      }
    }
  }

  lemma {:induction false} CallAccounts(s: State, c: nat, x: nat)
    requires Accounts(s) && c < |s.cores| && s.cores[c].handler == Running(x)
    ensures Accounts(DoHandle(s, c))
  {
    assert DoHandle(s, c) == DoCall(s, c, x);
    var r := DoCall(s, c, x);
    forall d | 0 <= d < |r.cores| ensures Accounted(r.nodes, r.cores[d], Carried(r.senders, d)) {
      assert Accounted(s.nodes, s.cores[d], Carried(s.senders, d));
    }
  }

  lemma {:induction false} StoreHomeAccounts(s: State, c: nat, x: nat, rep: nat)
    requires Accounts(s) && c < |s.cores| && s.cores[c].handler == Storing(x, rep)
    ensures Accounts(DoHandle(s, c))
  {
    assert DoHandle(s, c) == DoStoreHome(s, c, x, rep);
    if x in s.nodes {
      CacheAccounts(s, c, s.nodes[x].home, rep);
      SetAccounts(CacheRep(s, c, s.nodes[x].home, rep), c, Returning(x, rep));
    }
  }

  lemma {:induction false} FreeBooks(s: State, c: nat, x: nat, rep: nat)
    requires c < |s.cores| && s.cores[c].handler == Returning(x, rep) && DoFree(s, c, x, rep) != s
    ensures Unbooked(s.(nodes := DoFree(s, c, x, rep).nodes), DoFree(s, c, x, rep))
  {
  }

  lemma {:induction false} FreeRelinks(s: State, c: nat, x: nat, rep: nat)
    requires Owned(s) && Accounts(s) && c < |s.cores| && DoFree(s, c, x, rep) != s
    ensures Accounts(s.(nodes := DoFree(s, c, x, rep).nodes))
  {
    var m := DoFree(s, c, x, rep).nodes;
    forall d | 0 <= d < |s.cores| ensures Accounted(m, s.cores[d], Carried(s.senders, d)) {
      AccountsFrame(s, m, s.brk, d);
    }
  }

  lemma {:induction false} FreeAccounts(s: State, c: nat, x: nat, rep: nat)
    requires Owned(s) && Accounts(s) && c < |s.cores| && s.cores[c].handler == Returning(x, rep)
    ensures Accounts(DoHandle(s, c))
  {
    var r := DoFree(s, c, x, rep);
    assert DoHandle(s, c) == r;
    if r != s {
      FreeRelinks(s, c, x, rep);
      FreeBooks(s, c, x, rep);
      UnbookedAccounts(s.(nodes := r.nodes), r);
    }
  }

  lemma {:induction false} EnterAccounts(s: State, c: nat)
    requires Accounts(s) && c < |s.cores| && s.cores[c].handler.Entered?
    ensures Accounts(DoHandle(s, c))
  {
    CoreAccounts(s, c, s.cores[c].(pending := false, handler := Polling));
  }

  lemma {:induction false} LookHomeAccounts(s: State, c: nat, x: nat)
    requires Accounts(s) && c < |s.cores| && s.cores[c].handler == Freeing(x)
    ensures Accounts(DoHandle(s, c))
  {
    assert DoHandle(s, c) == DoLookHome(s, c, x);
    if DoLookHome(s, c, x) != s {
      var rep := s.cores[c].reps[s.nodes[x].home];
      SetAccounts(s, c, if rep != NULL then Returning(x, rep) else Seeking(x, |s.root|));
    }
  }

  lemma {:induction false} SeekHomeAccounts(s: State, c: nat, x: nat, at: nat)
    requires Accounts(s) && c < |s.cores| && s.cores[c].handler == Seeking(x, at)
    ensures Accounts(DoHandle(s, c))
  {
    assert DoHandle(s, c) == DoSeekHome(s, c, x, at);
    if DoSeekHome(s, c, x, at) != s {
      SetAccounts(s, c, DoSeekHome(s, c, x, at).cores[c].handler);
    }
  }

  lemma {:induction false} EnableAccounts(s: State, c: nat)
    requires Accounts(s) && c < |s.cores| && s.cores[c].handler.Enabling?
    ensures Accounts(DoHandle(s, c))
  {
    SetAccounts(s, c, Off);
    assert DoHandle(s, c) == SetHandler(s, c, Off);
  }

  lemma {:induction false} HandleAccounts(s: State, c: nat)
    requires Owned(s) && Accounts(s) && c < |s.cores|
    ensures Accounts(DoHandle(s, c))
  {
    match s.cores[c].handler {
      case Off => assert DoHandle(s, c) == s;
      case Entered => EnterAccounts(s, c);
      case Polling => DequeueAccounts(s, c);
      case Running(x) => CallAccounts(s, c, x);
      case Freeing(x) => LookHomeAccounts(s, c, x);
      case Seeking(x, at) => SeekHomeAccounts(s, c, x, at);
      case Storing(x, rep) => StoreHomeAccounts(s, c, x, rep);
      case Returning(x, rep) => FreeAccounts(s, c, x, rep);
      case Enabling => EnableAccounts(s, c);
    }
  }

  lemma {:induction false} AllocAccounts(s: State, t: nat, garbage: Node)
    requires Owned(s) && Accounts(s)
    ensures Accounts(DoAlloc(s, t, garbage))
  {
    if DoAlloc(s, t, garbage) != s {
      if DoAlloc(s, t, garbage).nodes == s.nodes {
        PopAccounts(s, t, garbage);
      } else {
        MallocAccounts(s, t, garbage);
      }
    }
  }

  lemma {:induction false} RegisterAccounts(s: State, c: nat)
    requires Accounts(s)
    ensures Accounts(DoRegister(s, c))
  {
    UnbookedAccounts(s, DoRegister(s, c));
  }

  lemma {:induction false} StepAccounts(s: State, a: Action)
    requires Owned(s) && Lookup(s) && Accounts(s)
    ensures Accounts(Step(s, a))
  {
    match a {
      case Register(c) => RegisterAccounts(s, c);
      case Find(t, home, want, msg) => FindAccounts(s, t, home, want, msg);
      case Walk(t) => WalkAccounts(s, t);
      case Store(t) => StoreAccounts(s, t);
      case Alloc(t, garbage) => AllocAccounts(s, t, garbage);
      case Fill(t) => if DoFill(s, t) != s { FillAccounts(s, t); }
      case Enqueue(t) => if DoEnqueue(s, t) != s { EnqueueAccounts(s, t); }
      case Notify(t) => NotifyAccounts(s, t);
      case Ipi(c) => PendingAccounts(s, c);
      case Deliver(c) => if DoDeliver(s, c) != s { SetAccounts(s, c, Entered); }
      case Handle(c) => if c < |s.cores| { HandleAccounts(s, c); }
    }
  }
}
