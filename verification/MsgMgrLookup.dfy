/**
 Every step of the message-manager machine keeps the root's list, the caches, and what
 senders and handlers know from their walks along the list, whoever registers meanwhile.
 */
module MsgMgrLookup {
  import opened Common
  import opened MsgMgr
  import opened MsgMgrState
  import opened MsgMgrOwnership

  // ----- what a step leaves in place

  /** The root's list grows at its head only, and no representative changes its location. */
  ghost predicate Grows(s: State, r: State) {
    && |r.cores| == |s.cores| && |s.root| <= |r.root| && r.root[..|s.root|] == s.root
    && (forall x :: x in s.loc ==> x in r.loc && r.loc[x] == s.loc[x])
    && (forall c :: c in s.self ==> c in r.self && r.self[c] == s.self[c])
  }

  ghost predicate SameRoot(s: State, r: State) {
    r.root == s.root && r.loc == s.loc && r.self == s.self && |r.cores| == |s.cores| && r.brk >= s.brk
  }

  /** What a step of the handler of core c leaves as it was. */
  ghost predicate HandlerFrame(s: State, r: State, c: nat) {
    && SameRoot(s, r) && r.senders == s.senders
    && forall d :: 0 <= d < |s.cores| && d != c ==> r.cores[d].handler == s.cores[d].handler
  }

  lemma {:induction false} LookHomeFrame(s: State, c: nat, x: nat)
    requires c < |s.cores|
    ensures HandlerFrame(s, DoLookHome(s, c, x), c)
  {
  }

  lemma {:induction false} SeekHomeFrame(s: State, c: nat, x: nat, at: nat)
    requires c < |s.cores|
    ensures HandlerFrame(s, DoSeekHome(s, c, x, at), c)
  {
  }

  lemma {:induction false} StoreHomeFrame(s: State, c: nat, x: nat, rep: nat)
    requires c < |s.cores|
    ensures HandlerFrame(s, DoStoreHome(s, c, x, rep), c)
  {
  }

  lemma {:induction false} DequeueFrame(s: State, c: nat)
    requires c < |s.cores|
    ensures HandlerFrame(s, DoDequeue(s, c), c)
  {
  }

  lemma {:induction false} FreeFrame(s: State, c: nat, x: nat, rep: nat)
    requires c < |s.cores|
    ensures HandlerFrame(s, DoFree(s, c, x, rep), c)
  {
  }

  lemma {:induction false} HandleFrame(s: State, c: nat)
    ensures HandlerFrame(s, DoHandle(s, c), c)
  {
    if c < |s.cores| {
      match s.cores[c].handler {
        case Polling => DequeueFrame(s, c);
        case Returning(x, rep) => FreeFrame(s, c, x, rep);
        case Freeing(x) => LookHomeFrame(s, c, x);
        case Seeking(x, at) => SeekHomeFrame(s, c, x, at);
        case Storing(x, rep) => StoreHomeFrame(s, c, x, rep);
        case _ =>
      }
    }
  }

  /** What a step of sender t leaves as it was. */
  ghost predicate SenderFrame(s: State, r: State, t: nat) {
    && SameRoot(s, r) && |r.senders| == |s.senders|
    && (forall u :: 0 <= u < |s.senders| && u != t ==> r.senders[u] == s.senders[u])
    && (forall d :: 0 <= d < |s.cores| ==> r.cores[d].handler == s.cores[d].handler)
  }

  lemma {:induction false} AcceptFrame(s: State, t: nat, home: nat, want: nat, msg: Msg, rep: nat)
    requires t < |s.senders| && want < |s.cores|
    ensures SenderFrame(s, Accept(s, t, home, want, msg, rep), t)
  {
  }

  lemma {:induction false} CacheFrame(s: State, c: nat, l: nat, rep: nat, t: nat)
    ensures SenderFrame(s, CacheRep(s, c, l, rep), t) && CacheRep(s, c, l, rep).senders == s.senders
  {
  }

  lemma {:induction false} FindFrame(s: State, t: nat, home: nat, want: nat, msg: Msg)
    ensures SenderFrame(s, DoFind(s, t, home, want, msg), t)
  {
    if DoFind(s, t, home, want, msg) != s && s.cores[home].reps[want] != NULL {
      AcceptFrame(s, t, home, want, msg, s.cores[home].reps[want]);
    }
  }

  lemma {:induction false} StoreFrame(s: State, t: nat)
    ensures SenderFrame(s, DoStore(s, t), t)
  {
    if DoStore(s, t) != s {
      var Caching(home, want, msg, rep, first) := s.senders[t];
      var q := CacheRep(s, home, want, rep);
      CacheFrame(s, home, want, rep, t);
      if rep != NULL { AcceptFrame(q, t, home, want, msg, rep); }
    }
  }

  lemma {:induction false} AllocFrame(s: State, t: nat, garbage: Node)
    ensures SenderFrame(s, DoAlloc(s, t, garbage), t)
  {
  }

  lemma {:induction false} EnqueueFrame(s: State, t: nat)
    ensures SenderFrame(s, DoEnqueue(s, t), t)
  {
  }

  lemma {:induction false} WalkFrame(s: State, t: nat)
    ensures SenderFrame(s, DoWalk(s, t), t)
  {
  }

  lemma {:induction false} FillFrame(s: State, t: nat)
    ensures SenderFrame(s, DoFill(s, t), t)
  {
  }

  lemma {:induction false} NotifyFrame(s: State, t: nat)
    ensures SenderFrame(s, DoNotify(s, t), t)
  {
  }

  ghost predicate Acts(a: Action, t: nat) {
    && (a.Find? || a.Walk? || a.Store? || a.Alloc? || a.Fill? || a.Enqueue? || a.Notify?)
    && a.t == t
  }

  lemma {:induction false} SendFrame(s: State, a: Action, t: nat)
    requires Acts(a, t)
    ensures SenderFrame(s, Step(s, a), t)
  {
    match a {
      case Find(_, home, want, msg) => FindFrame(s, t, home, want, msg);
      case Walk(_) => WalkFrame(s, t);
      case Store(_) => StoreFrame(s, t);
      case Alloc(_, garbage) => AllocFrame(s, t, garbage);
      case Fill(_) => FillFrame(s, t);
      case Enqueue(_) => EnqueueFrame(s, t);
      case Notify(_) => NotifyFrame(s, t);
    }
  }

  lemma {:induction false} StepSameRoot(s: State, a: Action)
    requires !a.Register?
    ensures SameRoot(s, Step(s, a))
  {
    match a {
      case Handle(c) => HandleFrame(s, c);
      case Register(_) =>
      case Ipi(_) =>
      case Deliver(_) =>
      case _ => SendFrame(s, a, a.t);
    }
  }

  lemma {:induction false} RegisterGrows(s: State, c: nat)
    requires RootOk(s) && s.brk > 0
    ensures Grows(s, DoRegister(s, c))
    ensures DoRegister(s, c) != s ==> forall x :: x in DoRegister(s, c).root <==> x in s.root || x == s.brk
  {
    var r := DoRegister(s, c);
    if r != s {
      assert r.root[..|s.root|] == s.root;
    }
  }

  lemma {:induction false} RegisterRoot(s: State, c: nat)
    requires RootOk(s) && s.brk > 0
    ensures RootOk(DoRegister(s, c)) && Grows(s, DoRegister(s, c))
  {
    var r := DoRegister(s, c);
    RegisterGrows(s, c);
    if r != s {
      forall x | x in r.loc ensures NULL < x < r.brk && r.loc[x] in r.self && r.self[r.loc[x]] == x {
        assert x != s.brk ==> x in s.loc;
      }
      forall d | d in r.self
        ensures d < |r.cores| && r.self[d] in r.loc && r.loc[r.self[d]] == d && r.self[d] in r.root
      {
        assert d != c ==> d in s.self;
      }
    }
  }

  lemma {:induction false} StepRoot(s: State, a: Action)
    requires RootOk(s) && s.brk > 0
    ensures RootOk(Step(s, a)) && Grows(s, Step(s, a))
  {
    match a {
      case Register(c) => RegisterRoot(s, c);
      case _ => StepSameRoot(s, a);
    }
  }

  /** A message node keeps what it says and where it came from, unless its sender fills it. */
  ghost predicate SameNode(s: State, r: State, x: nat) {
    && x in s.nodes && x in r.nodes && r.nodes[x].home == s.nodes[x].home
    && MsgOf(r.nodes[x]) == MsgOf(s.nodes[x]) && |r.nodes[x].args| == |s.nodes[x].args|
  }

  lemma {:induction false} StepNode(s: State, a: Action, x: nat)
    requires x in s.nodes && x < s.brk
    requires a.Fill? && a.t < |s.senders| ==> SenderNode(s.senders[a.t]) != x
    ensures SameNode(s, Step(s, a), x)
  {
    match a {
      case Enqueue(t) => EnqueueNode(s, t, x);
      case Handle(c) => HandleNode(s, c, x);
      case _ =>
    }
  }

  lemma {:induction false} EnqueueNode(s: State, t: nat, x: nat)
    requires x in s.nodes
    ensures SameNode(s, DoEnqueue(s, t), x)
  {
  }

  lemma {:induction false} HandleNode(s: State, c: nat, x: nat)
    requires x in s.nodes
    ensures SameNode(s, DoHandle(s, c), x)
  {
  }

  // ----- caches

  lemma {:induction false} CacheGrows(s: State, r: State, core: Core)
    requires Grows(s, r) && CacheOk(s, core)
    ensures CacheOk(r, core)
  {
    forall l | 0 <= l < |core.reps| ensures core.reps[l] == NULL || Known(r, l, core.reps[l]) {
      assert core.reps[l] == NULL || Known(s, l, core.reps[l]);
    }
  }

  /** Storing NULL or the location's representative in a cache. */
  lemma {:induction false} CacheRepOk(s: State, c: nat, l: nat, rep: nat)
    requires CachesOk(s) && (rep == NULL || Known(s, l, rep))
    ensures CachesOk(CacheRep(s, c, l, rep))
  {
    var r := CacheRep(s, c, l, rep);
    forall d | 0 <= d < |r.cores| ensures CacheOk(r, r.cores[d]) {
      assert CacheOk(s, s.cores[d]);
      CacheGrows(s, r, s.cores[d]);
    }
  }

  /** Steps that change no cache. */
  lemma {:induction false} CachesSame(s: State, r: State)
    requires CachesOk(s) && Grows(s, r)
    requires forall d :: 0 <= d < |s.cores| ==> r.cores[d].reps == s.cores[d].reps
    ensures CachesOk(r)
  {
    forall d | 0 <= d < |r.cores| ensures CacheOk(r, r.cores[d]) {
      assert CacheOk(s, s.cores[d]);
      CacheGrows(s, r, s.cores[d]);
    }
  }

  lemma {:induction false} StoreCaches(s: State, t: nat)
    requires RootOk(s) && CachesOk(s) && Senders(s)
    ensures CachesOk(DoStore(s, t))
  {
    if DoStore(s, t) != s {
      var Caching(home, want, msg, rep, first) := s.senders[t];
      assert SenderKnows(s, s.senders[t]);
      CacheRepOk(s, home, want, rep);
      CachesSame(CacheRep(s, home, want, rep), DoStore(s, t));
    }
  }

  lemma {:induction false} StoreHomeCaches(s: State, c: nat, x: nat, rep: nat)
    requires CachesOk(s) && Handlers(s) && c < |s.cores| && s.cores[c].handler == Storing(x, rep)
    ensures CachesOk(DoStoreHome(s, c, x, rep))
  {
    assert HandlerKnows(s, s.cores[c].handler);
    CacheRepOk(s, c, s.nodes[x].home, rep);
    CachesSame(CacheRep(s, c, s.nodes[x].home, rep), DoStoreHome(s, c, x, rep));
  }

  lemma {:induction false} HandleCaches(s: State, c: nat)
    requires CachesOk(s) && Handlers(s)
    ensures CachesOk(DoHandle(s, c))
  {
    if c < |s.cores| && s.cores[c].handler.Storing? {
      StoreHomeCaches(s, c, s.cores[c].handler.node, s.cores[c].handler.rep);
    } else {
      HandleFrame(s, c);
      HandleReps(s, c);
      CachesSame(s, DoHandle(s, c));
    }
  }

  lemma {:induction false} HandleReps(s: State, c: nat)
    requires c < |s.cores| ==> !s.cores[c].handler.Storing?
    ensures |DoHandle(s, c).cores| == |s.cores|
    ensures forall d :: 0 <= d < |s.cores| ==> DoHandle(s, c).cores[d].reps == s.cores[d].reps
  {
    if c < |s.cores| {
      match s.cores[c].handler {
        case Returning(x, rep) => FreeReps(s, c, x, rep);
        case Freeing(x) => LookHomeReps(s, c, x);
        case Seeking(x, at) => SeekHomeReps(s, c, x, at);
        case _ =>
      }
    }
  }

  lemma {:induction false} LookHomeReps(s: State, c: nat, x: nat)
    requires c < |s.cores|
    ensures |DoLookHome(s, c, x).cores| == |s.cores|
    ensures forall d :: 0 <= d < |s.cores| ==> DoLookHome(s, c, x).cores[d].reps == s.cores[d].reps
  {
  }

  lemma {:induction false} SeekHomeReps(s: State, c: nat, x: nat, at: nat)
    requires c < |s.cores|
    ensures |DoSeekHome(s, c, x, at).cores| == |s.cores|
    ensures forall d :: 0 <= d < |s.cores| ==> DoSeekHome(s, c, x, at).cores[d].reps == s.cores[d].reps
  {
  }

  lemma {:induction false} FreeReps(s: State, c: nat, x: nat, rep: nat)
    requires c < |s.cores|
    ensures |DoFree(s, c, x, rep).cores| == |s.cores|
    ensures forall d :: 0 <= d < |s.cores| ==> DoFree(s, c, x, rep).cores[d].reps == s.cores[d].reps
  {
  }

  lemma {:induction false} SendReps(s: State, a: Action)
    requires !a.Store? && !a.Handle?
    ensures |Step(s, a).cores| == |s.cores|
    ensures forall d :: 0 <= d < |s.cores| ==> Step(s, a).cores[d].reps == s.cores[d].reps
  {
  }

  lemma {:induction false} StepCaches(s: State, a: Action)
    requires s.brk > 0 && RootOk(s) && CachesOk(s) && Senders(s) && Handlers(s)
    ensures CachesOk(Step(s, a))
  {
    match a {
      case Store(t) => StoreCaches(s, t);
      case Handle(c) => HandleCaches(s, c);
      case _ => StepRoot(s, a); SendReps(s, a); CachesSame(s, Step(s, a));
    }
  }

  // ----- homes

  lemma {:induction false} HomeGrows(s: State, r: State, x: nat)
    requires x in s.nodes && x in s.owner && HomeOk(s, x) && Grows(s, r)
    requires SameNode(s, r, x) && x in r.owner && r.owner[x] == s.owner[x]
    ensures HomeOk(r, x)
  {
  }

  /** Steps that move no node. */
  lemma {:induction false} QuietHomes(s: State, r: State)
    requires Homes(s) && Grows(s, r) && r.nodes == s.nodes && r.owner == s.owner
    ensures Homes(r)
  {
    forall x | x in r.nodes && x in r.owner ensures HomeOk(r, x) {
      HomeGrows(s, r, x);
    }
  }

  lemma {:induction false} AllocHomes(s: State, t: nat, garbage: Node)
    requires Owned(s) && Homes(s)
    ensures Homes(DoAlloc(s, t, garbage))
  {
    assert forall x :: x in s.nodes && x in s.owner ==> HomeOk(s, x);
  }

  lemma {:induction false} FillHomes(s: State, t: nat)
    requires Owned(s) && Homes(s)
    ensures Homes(DoFill(s, t))
  {
    if t < |s.senders| && SenderNode(s.senders[t]) in s.nodes { SenderHolds(s, t); }
    assert forall x :: x in s.nodes && x in s.owner ==> HomeOk(s, x);
  }

  lemma {:induction false} EnqueueHomes(s: State, t: nat)
    requires Owned(s) && Homes(s) && Senders(s)
    ensures Homes(DoEnqueue(s, t))
  {
    if t < |s.senders| { assert SenderKnows(s, s.senders[t]); }
    assert forall x :: x in s.nodes && x in s.owner ==> HomeOk(s, x);
  }

  /** A node changes hands, not into a free list. */
  lemma {:induction false} HandedHomes(s: State, x: nat, to: Place)
    requires Homes(s) && x in s.nodes && x in s.owner && HomeOk(s, x)
    requires !to.InFreeList? && (to.WithSender? || s.nodes[x].home in s.self)
    ensures Homes(s.(owner := s.owner[x := to]))
  {
    var r := s.(owner := s.owner[x := to]);
    forall y | y in r.nodes && y in r.owner ensures HomeOk(r, y) {
      if y != x { assert HomeOk(s, y); }
    }
  }

  lemma {:induction false} DequeueHomes(s: State, c: nat)
    requires Owned(s) && Homes(s) && c < |s.cores|
    ensures Homes(DoDequeue(s, c))
  {
    var r, x := DoDequeue(s, c), s.cores[c].qhead;
    DequeueFrame(s, c);
    if x == NULL {
      QuietHomes(s, r);
    } else {
      DequeueTop(s, c);
      assert HomeOk(s, x);
      HandedHomes(s, x, WithHandler(c));
      QuietHomes(s.(owner := s.owner[x := WithHandler(c)]), r);
    }
  }

  lemma {:induction false} FreeHomes(s: State, c: nat, x: nat, rep: nat)
    requires Owned(s) && Homes(s) && RootOk(s) && Handlers(s)
    requires c < |s.cores| && s.cores[c].handler == Returning(x, rep)
    ensures Homes(DoFree(s, c, x, rep))
  {
    var r := DoFree(s, c, x, rep);
    assert HandlerKnows(s, s.cores[c].handler);
    forall y | y in r.nodes && y in r.owner ensures HomeOk(r, y) {
      assert y in s.nodes && y in s.owner && HomeOk(s, y);
    }
  }

  lemma {:induction false} UnmovedHomes(s: State, c: nat)
    requires Homes(s) && c < |s.cores| && !s.cores[c].handler.Polling? && !s.cores[c].handler.Returning?
    ensures Homes(DoHandle(s, c))
  {
    HandleUnmoved(s, c);
    HandleFrame(s, c);
    QuietHomes(s, DoHandle(s, c));
  }

  lemma {:induction false} HandleHomes(s: State, c: nat)
    requires Owned(s) && Homes(s) && RootOk(s) && Handlers(s)
    ensures Homes(DoHandle(s, c))
  {
    if c < |s.cores| {
      match s.cores[c].handler {
        case Polling => DequeueHomes(s, c);
        case Returning(x, rep) => FreeHomes(s, c, x, rep);
        case _ => UnmovedHomes(s, c);
      }
    }
  }

  lemma {:induction false} StepHomes(s: State, a: Action)
    requires Owned(s) && Lookup(s)
    ensures Homes(Step(s, a))
  {
    match a {
      case Alloc(t, garbage) => AllocHomes(s, t, garbage);
      case Fill(t) => FillHomes(s, t);
      case Enqueue(t) => EnqueueHomes(s, t);
      case Handle(c) => HandleHomes(s, c);
      case _ =>
        QuietUnmoved(s, a);
        StepRoot(s, a);
        QuietHomes(s, Step(s, a));
    }
  }

  // ----- what senders know

  lemma {:induction false} PassedGrows(s: State, r: State, want: nat, at: nat, first: nat)
    requires RootOk(s) && Grows(s, r) && Passed(s, want, at, first)
    ensures Passed(r, want, at, first)
  {
    forall k | at <= k < first && r.root[k] in r.loc ensures r.loc[r.root[k]] != want {
      assert r.root[k] == r.root[..|s.root|][k] == s.root[k];
      assert s.root[k] in s.root;
    }
  }

  /** A sender that does not move keeps what it knows. */
  lemma {:induction false} SenderStays(s: State, r: State, sender: Sender)
    requires RootOk(s) && Grows(s, r) && SenderKnows(s, sender)
    requires SenderNode(sender) in s.nodes ==> SameNode(s, r, SenderNode(sender))
    ensures SenderKnows(r, sender)
  {
    match sender {
      case Walking(home, want, msg, at, first) => PassedGrows(s, r, want, at, first);
      case Caching(home, want, msg, rep, first) => if rep == NULL { PassedGrows(s, r, want, 0, first); }
      case _ =>
    }
  }

  lemma {:induction false} OthersStay(s: State, a: Action, u: nat)
    requires Owned(s) && RootOk(s) && Senders(s) && u < |s.senders|
    requires |Step(s, a).senders| == |s.senders| && Step(s, a).senders[u] == s.senders[u]
    requires a.Fill? ==> a.t != u
    ensures SenderKnows(Step(s, a), Step(s, a).senders[u])
  {
    var x := SenderNode(s.senders[u]);
    assert SenderKnows(s, s.senders[u]);
    StepRoot(s, a);
    if x in s.nodes {
      SenderHolds(s, u);
      if a.Fill? && a.t < |s.senders| && SenderNode(s.senders[a.t]) == x { SenderHolds(s, a.t); }
      StepNode(s, a, x);
    }
    SenderStays(s, Step(s, a), s.senders[u]);
  }

  lemma {:induction false} FindKnows(s: State, t: nat, home: nat, want: nat, msg: Msg)
    requires CachesOk(s) && t < |s.senders| && DoFind(s, t, home, want, msg) != s
    ensures SenderKnows(DoFind(s, t, home, want, msg), DoFind(s, t, home, want, msg).senders[t])
  {
    assert CacheOk(s, s.cores[home]);
    assert s.cores[home].reps[want] == NULL || Known(s, want, s.cores[home].reps[want]);
  }

  lemma {:induction false} WalkedOn(s: State, want: nat, at: nat, first: nat)
    requires RootOk(s) && Passed(s, want, at, first) && at > 0
    ensures s.root[at - 1] in s.loc
    ensures s.loc[s.root[at - 1]] != want ==> Passed(s, want, at - 1, first)
    ensures s.loc[s.root[at - 1]] == want ==> Known(s, want, s.root[at - 1]) && s.root[at - 1] != NULL
  {
    assert s.root[at - 1] in s.root;
  }

  lemma {:induction false} WalkKnows(s: State, t: nat)
    requires RootOk(s) && Senders(s) && t < |s.senders|
    ensures |DoWalk(s, t).senders| == |s.senders|
    ensures SenderKnows(DoWalk(s, t), DoWalk(s, t).senders[t])
  {
    WalkFrame(s, t);
    assert SenderKnows(s, s.senders[t]);
    if s.senders[t].Walking? && s.senders[t].at > 0 {
      WalkedOn(s, s.senders[t].want, s.senders[t].at, s.senders[t].first);
    }
    SenderInFrame(s, DoWalk(s, t), DoWalk(s, t).senders[t]);
  }

  /** What a sender knows depends on the root, the number of cores and its own node. */
  lemma {:induction false} SenderInFrame(s: State, r: State, sender: Sender)
    requires SenderKnows(s, sender) && SameRoot(s, r) && r.nodes == s.nodes
    ensures SenderKnows(r, sender)
  {
  }

  lemma {:induction false} StoreKnows(s: State, t: nat)
    requires Senders(s) && t < |s.senders| && DoStore(s, t) != s
    ensures SenderKnows(DoStore(s, t), DoStore(s, t).senders[t])
  {
    assert SenderKnows(s, s.senders[t]);
  }

  lemma {:induction false} AllocKnows(s: State, t: nat, garbage: Node)
    requires Senders(s) && t < |s.senders| && DoAlloc(s, t, garbage) != s
    ensures SenderKnows(DoAlloc(s, t, garbage), DoAlloc(s, t, garbage).senders[t])
  {
    assert SenderKnows(s, s.senders[t]);
  }

  /** A filled node is the sender's message. */
  lemma {:induction false} FillKnows(s: State, t: nat)
    requires Senders(s) && t < |s.senders| && DoFill(s, t) != s
    ensures SenderKnows(DoFill(s, t), DoFill(s, t).senders[t])
  {
    assert SenderKnows(s, s.senders[t]);
    var Taken(home, want, msg, target, x) := s.senders[t];
    assert (msg.args + s.nodes[x].args[|msg.args|..])[..|msg.args|] == msg.args;
  }

  lemma {:induction false} EnqueueKnows(s: State, t: nat)
    requires RootOk(s) && Senders(s) && t < |s.senders| && DoEnqueue(s, t) != s
    ensures SenderKnows(DoEnqueue(s, t), DoEnqueue(s, t).senders[t])
  {
    assert SenderKnows(s, s.senders[t]);
  }

  /** The sender that takes the step. */
  lemma {:induction false} ActorKnows(s: State, a: Action, t: nat)
    requires Owned(s) && RootOk(s) && CachesOk(s) && Senders(s) && t < |s.senders| && Step(s, a) != s
    requires |Step(s, a).senders| == |s.senders|
    requires a.Find? || a.Walk? || a.Store? || a.Alloc? || a.Fill? || a.Enqueue? || a.Notify?
    requires a.t == t
    ensures SenderKnows(Step(s, a), Step(s, a).senders[t])
  {
    match a {
      case Find(_, home, want, msg) => FindKnows(s, t, home, want, msg);
      case Walk(_) => WalkKnows(s, t);
      case Store(_) => StoreKnows(s, t);
      case Alloc(_, garbage) => AllocKnows(s, t, garbage);
      case Fill(_) => FillKnows(s, t);
      case Enqueue(_) => EnqueueKnows(s, t);
      case Notify(_) =>
    }
  }

  lemma {:induction false} OtherSenders(s: State, a: Action)
    ensures |Step(s, a).senders| == |s.senders|
    ensures forall u :: 0 <= u < |s.senders| && !Acts(a, u) ==> Step(s, a).senders[u] == s.senders[u]
  {
    match a {
      case Handle(c) => HandleFrame(s, c);
      case Register(_) =>
      case Ipi(_) =>
      case Deliver(_) =>
      case _ => SendFrame(s, a, a.t);
    }
  }

  lemma {:induction false} StepSenders(s: State, a: Action)
    requires Owned(s) && RootOk(s) && CachesOk(s) && Senders(s)
    ensures Senders(Step(s, a))
  {
    var r := Step(s, a);
    OtherSenders(s, a);
    if r != s {
      forall u | 0 <= u < |r.senders| ensures SenderKnows(r, r.senders[u]) {
        if Acts(a, u) {
          ActorKnows(s, a, u);
        } else {
          OthersStay(s, a, u);
        }
      }
    }
  }

  // ----- what handlers know

  lemma {:induction false} PrefixKept(s: State, r: State, rep: nat, at: nat)
    requires Grows(s, r) && at <= |s.root| && rep in s.root[..at]
    ensures rep in r.root[..at]
  {
    var k :| 0 <= k < at && s.root[..at][k] == rep;
    assert r.root[k] == r.root[..|s.root|][k];
    assert r.root[..at][k] == rep;
  }

  /** A handler that does not move keeps what it knows. */
  lemma {:induction false} HandlerStays(s: State, r: State, handler: Handler)
    requires Grows(s, r) && HandlerKnows(s, handler)
    requires HandlerNode(handler) in s.nodes ==> SameNode(s, r, HandlerNode(handler))
    ensures HandlerKnows(r, handler)
  {
    if handler.Seeking? {
      PrefixKept(s, r, s.self[s.nodes[handler.node].home], handler.at);
    }
  }

  lemma {:induction false} OtherHandlerStays(s: State, a: Action, c: nat)
    requires Owned(s) && RootOk(s) && Handlers(s) && c < |s.cores|
    requires |Step(s, a).cores| == |s.cores| && Step(s, a).cores[c].handler == s.cores[c].handler
    ensures HandlerKnows(Step(s, a), Step(s, a).cores[c].handler)
  {
    var x := HandlerNode(s.cores[c].handler);
    assert HandlerKnows(s, s.cores[c].handler);
    StepRoot(s, a);
    if x in s.nodes {
      HandlerHolds(s, c);
      if a.Fill? && a.t < |s.senders| && SenderNode(s.senders[a.t]) == x { SenderHolds(s, a.t); }
      StepNode(s, a, x);
    }
    HandlerStays(s, Step(s, a), s.cores[c].handler);
  }

  /** The node in a handler's hand comes from a location with a representative. */
  lemma {:induction false} HandHome(s: State, c: nat)
    requires Owned(s) && Homes(s) && c < |s.cores| && HandlerNode(s.cores[c].handler) in s.nodes
    ensures s.nodes[HandlerNode(s.cores[c].handler)].home in s.self
  {
    HandlerHolds(s, c);
    assert HomeOk(s, HandlerNode(s.cores[c].handler));
  }

  lemma {:induction false} LookHomeKnows(s: State, c: nat, x: nat)
    requires Owned(s) && RootOk(s) && CachesOk(s) && Homes(s) && Handlers(s)
    requires c < |s.cores| && s.cores[c].handler == Freeing(x)
    ensures HandlerKnows(DoLookHome(s, c, x), DoLookHome(s, c, x).cores[c].handler)
  {
    assert HandlerKnows(s, s.cores[c].handler);
    HandHome(s, c);
    assert CacheOk(s, s.cores[c]);
    var h := s.nodes[x].home;
    assert s.root[..|s.root|] == s.root;
    assert s.cores[c].reps[h] == NULL || Known(s, h, s.cores[c].reps[h]);
  }

  lemma {:induction false} SeekHomeKnows(s: State, c: nat, x: nat, at: nat)
    requires RootOk(s) && Handlers(s) && c < |s.cores| && s.cores[c].handler == Seeking(x, at)
    ensures HandlerKnows(DoSeekHome(s, c, x, at), DoSeekHome(s, c, x, at).cores[c].handler)
  {
    assert HandlerKnows(s, s.cores[c].handler);
    var h := s.nodes[x].home;
    var k :| 0 <= k < at && s.root[..at][k] == s.self[h];
    assert s.root[at - 1] in s.root;
    if s.loc[s.root[at - 1]] != h {
      assert s.root[..at - 1][k] == s.self[h];
    }
  }

  lemma {:induction false} StoreHomeKnows(s: State, c: nat, x: nat, rep: nat)
    requires Handlers(s) && c < |s.cores| && s.cores[c].handler == Storing(x, rep)
    ensures HandlerKnows(DoStoreHome(s, c, x, rep), DoStoreHome(s, c, x, rep).cores[c].handler)
  {
    assert HandlerKnows(s, s.cores[c].handler);
  }

  lemma {:induction false} PlainHandlerKnows(s: State, c: nat)
    requires Owned(s) && Handlers(s) && c < |s.cores|
    requires var h := s.cores[c].handler; h.Off? || h.Entered? || h.Polling? || h.Running? || h.Enabling?
    ensures HandlerKnows(DoHandle(s, c), DoHandle(s, c).cores[c].handler)
  {
    assert HandlerKnows(s, s.cores[c].handler);
  }

  lemma {:induction false} OwnHandlerKnows(s: State, c: nat)
    requires Owned(s) && Lookup(s) && c < |s.cores|
    ensures |DoHandle(s, c).cores| == |s.cores|
    ensures HandlerKnows(DoHandle(s, c), DoHandle(s, c).cores[c].handler)
  {
    HandleFrame(s, c);
    assert HandlerKnows(s, s.cores[c].handler);
    match s.cores[c].handler {
      case Freeing(x) => LookHomeKnows(s, c, x);
      case Seeking(x, at) => SeekHomeKnows(s, c, x, at);
      case Storing(x, rep) => StoreHomeKnows(s, c, x, rep);
      case Returning(x, rep) => FreeDone(s, c, x, rep);
      case _ => PlainHandlerKnows(s, c);
    }
  }

  /** The representative that findTarget returned for the home is there, so the push happens. */
  lemma {:induction false} FreeDone(s: State, c: nat, x: nat, rep: nat)
    requires RootOk(s) && c < |s.cores| && x in s.nodes && Known(s, s.nodes[x].home, rep)
    ensures DoFree(s, c, x, rep).cores[c].handler == Polling
  {
  }

  lemma {:induction false} OtherHandlers(s: State, a: Action)
    ensures |Step(s, a).cores| == |s.cores|
    ensures forall c :: 0 <= c < |s.cores| && a != Handle(c) && a != Deliver(c) ==>
              Step(s, a).cores[c].handler == s.cores[c].handler
  {
    match a {
      case Handle(c) => HandleFrame(s, c);
      case Register(_) =>
      case Ipi(_) =>
      case Deliver(_) =>
      case _ => SendFrame(s, a, a.t);
    }
  }

  lemma {:induction false} StepHandlers(s: State, a: Action)
    requires Owned(s) && Lookup(s)
    ensures Handlers(Step(s, a))
  {
    var r := Step(s, a);
    OtherHandlers(s, a);
    forall c | 0 <= c < |r.cores| ensures HandlerKnows(r, r.cores[c].handler) {
      if a == Handle(c) {
        OwnHandlerKnows(s, c);
      } else if r.cores[c].handler == s.cores[c].handler {
        OtherHandlerStays(s, a, c);
      }
    }
  }

  lemma {:induction false} StepLookup(s: State, a: Action)
    requires Owned(s) && Lookup(s)
    ensures Lookup(Step(s, a))
  {
    StepRoot(s, a);
    StepCaches(s, a);
    StepHomes(s, a);
    StepSenders(s, a);
    StepHandlers(s, a);
  }
}
