/** The invariant of the message-manager machine holds in every run. */
module MsgMgrInvariant {
  import opened Common
  import opened MsgMgr
  import opened MsgMgrState
  import opened MsgMgrOwnership
  import opened MsgMgrLookup
  import opened MsgMgrAccounts

  lemma {:induction false} InitAccounts(n: nat, m: nat)
    ensures Accounts(Init(n, m))
  {
    var s := Init(n, m);
    forall c | 0 <= c < n ensures Accounted(s.nodes, s.cores[c], Carried(s.senders, c)) {
      assert Contents(s.nodes, []) == [];
      IdleCarryNothing(s.senders, c);
    }
  }

  lemma {:induction false} InitOwned(n: nat, m: nat)
    ensures Owned(Init(n, m)) && Awake(Init(n, m))
  {
  }

  lemma {:induction false} InitLookup(n: nat, m: nat)
    ensures Lookup(Init(n, m))
  {
  }

  lemma {:induction false} InitInv(n: nat, m: nat)
    ensures Inv(Init(n, m))
  {
    InitOwned(n, m);
    InitLookup(n, m);
    InitAccounts(n, m);
  }

  // ----- every step keeps the wakeups

  /** A sender that has to dispatch an IPI goes on having to until it has done so. */
  lemma {:induction false} NotifiedStays(s: State, a: Action, c: nat)
    requires Lookup(s) && s.brk > 0 && c < |s.cores| && Notified(s, c)
    ensures |Step(s, a).cores| == |s.cores|
    ensures var r := Step(s, a); Notified(r, c) || r.cores[c].pending
  {
    var t :| 0 <= t < |s.senders| && s.senders[t].Notifying? && LocOf(s, s.senders[t].target) == c;
    var r := Step(s, a);
    assert SenderKnows(s, s.senders[t]);
    StepRoot(s, a);
    if a != Notify(t) {
      NotifyingStays(s, a, t);
      assert r.senders[t].Notifying? && LocOf(r, r.senders[t].target) == c;
    }
  }

  lemma {:induction false} NotifyingStays(s: State, a: Action, t: nat)
    requires t < |s.senders| && s.senders[t].Notifying? && a != Notify(t)
    ensures t < |Step(s, a).senders| && Step(s, a).senders[t] == s.senders[t]
  {
    OtherSenders(s, a);
  }

  /** The head is NULL exactly when the queue is empty, and names a node otherwise. */
  lemma {:induction false} HeadOf(s: State, c: nat)
    requires Owned(s) && c < |s.cores|
    ensures s.cores[c].qhead == NULL <==> s.cores[c].queue == []
    ensures s.cores[c].queue != [] ==> s.cores[c].qhead in s.nodes
  {
    assert CoreLists(s.nodes, s.cores[c]);
    assert s.cores[c].queue != [] ==> Linked(s.nodes, s.cores[c].queue, 0);
  }

  /** What keeps a handler polling: it goes on, unless it finds the queue empty; and a pending
      IPI is only acknowledged by a handler that will poll. */
  ghost predicate GoesOn(a: Core, b: Core) {
    && (Busy(a.handler) ==> Busy(b.handler) || b.queue == [])
    && (a.pending ==> b.pending || Busy(b.handler))
  }

  lemma {:induction false} FreeGoesOn(s: State, c: nat, x: nat, rep: nat, d: nat)
    requires c < |s.cores| && s.cores[c].handler == Returning(x, rep) && d < |s.cores|
    ensures |DoFree(s, c, x, rep).cores| == |s.cores| && GoesOn(s.cores[d], DoFree(s, c, x, rep).cores[d])
  {
  }

  lemma {:induction false} SetGoesOn(s: State, c: nat, handler: Handler, d: nat)
    requires c < |s.cores| && d < |s.cores| && Busy(handler)
    ensures |SetHandler(s, c, handler).cores| == |s.cores| && GoesOn(s.cores[d], SetHandler(s, c, handler).cores[d])
  {
  }

  lemma {:induction false} StoreHomeGoesOn(s: State, c: nat, x: nat, rep: nat, d: nat)
    requires c < |s.cores| && d < |s.cores| && s.cores[c].handler == Storing(x, rep)
    ensures |DoStoreHome(s, c, x, rep).cores| == |s.cores| && GoesOn(s.cores[d], DoStoreHome(s, c, x, rep).cores[d])
  {
    if x in s.nodes {
      SetGoesOn(CacheRep(s, c, s.nodes[x].home, rep), c, Returning(x, rep), d);
    }
  }

  lemma {:induction false} LookHomeGoesOn(s: State, c: nat, x: nat, d: nat)
    requires c < |s.cores| && d < |s.cores|
    ensures |DoLookHome(s, c, x).cores| == |s.cores| && GoesOn(s.cores[d], DoLookHome(s, c, x).cores[d])
  {
    if DoLookHome(s, c, x) != s {
      var rep := s.cores[c].reps[s.nodes[x].home];
      SetGoesOn(s, c, if rep != NULL then Returning(x, rep) else Seeking(x, |s.root|), d);
    }
  }

  lemma {:induction false} SeekHomeGoesOn(s: State, c: nat, x: nat, at: nat, d: nat)
    requires c < |s.cores| && d < |s.cores|
    ensures |DoSeekHome(s, c, x, at).cores| == |s.cores| && GoesOn(s.cores[d], DoSeekHome(s, c, x, at).cores[d])
  {
  }

  lemma {:induction false} PlainGoesOn(s: State, c: nat, d: nat)
    requires Owned(s) && c < |s.cores| && d < |s.cores|
    requires var h := s.cores[c].handler; h.Off? || h.Entered? || h.Polling? || h.Running? || h.Enabling?
    ensures |DoHandle(s, c).cores| == |s.cores| && GoesOn(s.cores[d], DoHandle(s, c).cores[d])
  {
    HeadOf(s, d);
  }

  lemma {:induction false} HandlerGoesOn(s: State, c: nat, d: nat)
    requires Owned(s) && d < |s.cores|
    ensures |DoHandle(s, c).cores| == |s.cores| && GoesOn(s.cores[d], DoHandle(s, c).cores[d])
  {
    if c < |s.cores| {
      match s.cores[c].handler {
        case Returning(x, rep) => FreeGoesOn(s, c, x, rep, d);
        case Freeing(x) => LookHomeGoesOn(s, c, x, d);
        case Seeking(x, at) => SeekHomeGoesOn(s, c, x, at, d);
        case Storing(x, rep) => StoreHomeGoesOn(s, c, x, rep, d);
        case _ => PlainGoesOn(s, c, d);
      }
    }
  }

  lemma {:induction false} AcceptPending(s: State, t: nat, home: nat, want: nat, msg: Msg, rep: nat, c: nat)
    requires t < |s.senders| && want < |s.cores| && c < |s.cores|
    ensures |Accept(s, t, home, want, msg, rep).cores| == |s.cores|
    ensures GoesOn(s.cores[c], Accept(s, t, home, want, msg, rep).cores[c])
  {
  }

  lemma {:induction false} FindPending(s: State, t: nat, home: nat, want: nat, msg: Msg, c: nat)
    requires c < |s.cores|
    ensures |DoFind(s, t, home, want, msg).cores| == |s.cores|
    ensures GoesOn(s.cores[c], DoFind(s, t, home, want, msg).cores[c])
  {
    if DoFind(s, t, home, want, msg) != s && s.cores[home].reps[want] != NULL {
      AcceptPending(s, t, home, want, msg, s.cores[home].reps[want], c);
    }
  }

  lemma {:induction false} CachePending(s: State, d: nat, l: nat, rep: nat, c: nat)
    requires c < |s.cores|
    ensures var q := CacheRep(s, d, l, rep);
            && |q.cores| == |s.cores| && q.cores[c].handler == s.cores[c].handler
            && q.cores[c].queue == s.cores[c].queue && q.cores[c].pending == s.cores[c].pending
  {
  }

  lemma {:induction false} StorePending(s: State, t: nat, c: nat)
    requires c < |s.cores|
    ensures |DoStore(s, t).cores| == |s.cores| && GoesOn(s.cores[c], DoStore(s, t).cores[c])
  {
    if DoStore(s, t) != s {
      var Caching(home, want, msg, rep, first) := s.senders[t];
      CachePending(s, home, want, rep, c);
      if rep != NULL { AcceptPending(CacheRep(s, home, want, rep), t, home, want, msg, rep, c); }
    }
  }

  /** Steps of senders and interrupts never take a pending IPI back. */
  lemma {:induction false} PendingStays(s: State, a: Action, c: nat)
    requires c < |s.cores| && !a.Handle?
    ensures |Step(s, a).cores| == |s.cores| && GoesOn(s.cores[c], Step(s, a).cores[c])
  {
    match a {
      case Find(t, home, want, msg) => FindPending(s, t, home, want, msg, c);
      case Store(t) => StorePending(s, t, c);
      case _ =>
    }
  }

  lemma {:induction false} BusyStays(s: State, a: Action, c: nat)
    requires Owned(s) && c < |s.cores|
    ensures |Step(s, a).cores| == |s.cores| && GoesOn(s.cores[c], Step(s, a).cores[c])
  {
    match a {
      case Handle(d) => HandlerGoesOn(s, d, c);
      case _ => PendingStays(s, a, c);
    }
  }

  /** A queue that becomes non-empty leaves its sender with the duty to notify. */
  lemma {:induction false} FirstNotifies(s: State, t: nat, c: nat)
    requires Owned(s) && c < |s.cores| && s.cores[c].queue == []
    ensures var r := DoEnqueue(s, t); |r.cores| == |s.cores| && (r.cores[c].queue == [] || Notified(r, c))
  {
    HeadOf(s, c);
    var r := DoEnqueue(s, t);
    if r.cores[c].queue != [] {
      assert r.senders[t].Notifying? && LocOf(r, r.senders[t].target) == c;
    }
  }

  lemma {:induction false} EmptyStays(s: State, a: Action, c: nat)
    requires Owned(s) && c < |s.cores| && s.cores[c].queue == [] && !a.Enqueue?
    ensures |Step(s, a).cores| == |s.cores| && Step(s, a).cores[c].queue == []
  {
    match a {
      case Handle(d) =>
        HandleFrame(s, d);
        HandleKeepsEmpty(s, d, c);
      case Alloc(t, garbage) =>
      case Fill(_) =>
      case Enqueue(_) =>
      case _ =>
        QuietUnmoved(s, a);
        assert SameLists(s.cores[c], Step(s, a).cores[c]);
    }
  }

  lemma {:induction false} HandleKeepsEmpty(s: State, d: nat, c: nat)
    requires c < |s.cores| == |DoHandle(s, d).cores| && s.cores[c].queue == []
    ensures DoHandle(s, d).cores[c].queue == []
  {
    if d < |s.cores| && !s.cores[d].handler.Polling? && !s.cores[d].handler.Returning? {
      HandleUnmoved(s, d);
      assert SameLists(s.cores[c], DoHandle(s, d).cores[c]);
    }
  }

  lemma {:induction false} StepAwake(s: State, a: Action)
    requires Owned(s) && Lookup(s) && Awake(s)
    ensures Awake(Step(s, a))
  {
    var r := Step(s, a);
    StepRoot(s, a);
    forall c | 0 <= c < |r.cores| ensures r.cores[c].queue == [] || WillWake(r, c) {
      assert s.cores[c].queue == [] || WillWake(s, c);
      if s.cores[c].queue == [] {
        if a.Enqueue? { FirstNotifies(s, a.t, c); } else { EmptyStays(s, a, c); }
      } else if Notified(s, c) {
        NotifiedStays(s, a, c);
      } else {
        BusyStays(s, a, c);
      }
    }
  }

  // ----- every run

  lemma {:induction false} StepInv(s: State, a: Action)
    requires Inv(s)
    ensures Inv(Step(s, a))
  {
    StepOwned(s, a);
    StepLookup(s, a);
    StepAccounts(s, a);
    StepAwake(s, a);
  }

  lemma {:induction false} RunInv(cores: nat, senders: nat, acts: seq<Action>)
    ensures Inv(Run(Init(cores, senders), acts))
  {
    if acts == [] {
      InitInv(cores, senders);
    } else {
      RunInv(cores, senders, acts[..|acts| - 1]);
      StepInv(Run(Init(cores, senders), acts[..|acts| - 1]), acts[|acts| - 1]);
    }
  }
}
