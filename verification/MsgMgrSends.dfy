/**
 The message manager's books against the calls themselves: over every run, what handlers are
 called with is what msg0 to msg3 were called with, for that location.
 */
module MsgMgrSends {
  import opened Common
  import opened MsgMgr
  import opened MsgMgrState
  import opened MsgMgrAccounts
  import opened MsgMgrInvariant
  import opened MsgMgrLookup
  import opened MsgMgrTheorems

  /** Sender t may call msg0, msg1, msg2 or msg3 on core `home`: it is in no other call, and the
      core has its representative. */
  predicate CanSend(s: State, t: nat, home: nat, want: nat, msg: Msg) {
    && t < |s.senders| && s.senders[t].Idle? && home in s.self && home < |s.cores| && want < |s.cores|
    && |msg.args| <= 3
  }

  /** A call begins with its own location and message, either with the representative of the
      location or at the head of the root's list; a call that cannot begin changes nothing. */
  lemma {:induction false} SendBegins(s: State, t: nat, home: nat, want: nat, msg: Msg)
    requires Inv(s)
    ensures var r := Step(s, Find(t, home, want, msg));
            if CanSend(s, t, home, want, msg) then
              && t < |r.senders| == |s.senders|
              && (|| r.senders[t] == Walking(home, want, msg, |s.root|, |s.root|)
                  || (want in s.self && r.senders[t] == Found(home, want, msg, s.self[want])))
              && forall u :: 0 <= u < |s.senders| && u != t ==> r.senders[u] == s.senders[u]
            else r == s
  {
    if home < |s.cores| { assert CacheOk(s, s.cores[home]); }
  }

  /** allocMsg takes the top of its own core's free list, and new memory only if that is empty;
      the call goes on with its own message. */
  lemma {:induction false} AllocReuses(s: State, t: nat, garbage: Node)
    requires Inv(s) && t < |s.senders| && s.senders[t].Found? && |garbage.args| == MAXARGS
    ensures var r, sender := Step(s, Alloc(t, garbage)), s.senders[t];
            && sender.home < |s.cores| == |r.cores| && t < |r.senders| && r.senders[t].Taken?
            && (var x, free := r.senders[t].node, s.cores[sender.home].free;
                && r.senders[t] == Taken(sender.home, sender.want, sender.msg, sender.target, x)
                && (free != [] ==> x == free[0] && r.cores[sender.home].free == free[1..] && r.nodes == s.nodes)
                && (free == [] ==> x !in s.nodes && r.nodes == s.nodes[x := garbage]))
  {
    assert SenderKnows(s, s.senders[t]);
    assert CoreLists(s.nodes, s.cores[s.senders[t].home]);
    var free := s.cores[s.senders[t].home].free;
    if free != [] { assert Linked(s.nodes, free, 0); }
  }

  lemma {:induction false} EnqueueIs(s: State, t: nat, c: nat)
    requires t < |s.senders| && s.senders[t].Filled? && LocOf(s, s.senders[t].target) == c < |s.cores|
    requires s.senders[t].node in s.nodes
    ensures var r := DoEnqueue(s, t);
            && |r.cores| == |s.cores| && t < |r.senders|
            && r.cores[c].queue == [s.senders[t].node] + s.cores[c].queue
            && r.senders[t] == if s.cores[c].qhead == NULL then Notifying(s.senders[t].target) else Idle
  {
  }

  lemma {:induction false} FilledKnows(s: State, t: nat)
    requires Inv(s) && t < |s.senders| && s.senders[t].Filled?
    ensures var sender := s.senders[t];
            && LocOf(s, sender.target) == sender.want < |s.cores| && sender.node in s.nodes
            && (s.cores[sender.want].qhead == NULL <==> s.cores[sender.want].queue == [])
  {
    assert SenderKnows(s, s.senders[t]);
    HeadOf(s, s.senders[t].want);
  }

  /** enqueueMsg: a sender has to dispatch an IPI exactly if it found the queue empty. */
  lemma {:induction false} EnqueueNotifies(s: State, t: nat)
    requires Inv(s) && t < |s.senders| && s.senders[t].Filled?
    ensures var r, want := DoEnqueue(s, t), s.senders[t].want;
            && want < |s.cores| == |r.cores| && t < |r.senders|
            && r.cores[want].queue == [s.senders[t].node] + s.cores[want].queue
            && r.senders[t] == if s.cores[want].queue == [] then Notifying(s.senders[t].target) else Idle
  {
    FilledKnows(s, t);
    EnqueueIs(s, t, s.senders[t].want);
  }

  // ----- the calls of a run

  /** The messages of all calls for location c among the actions. */
  function Asked(acts: seq<Action>, c: nat): multiset<Msg> {
    if acts == [] then multiset{}
    else
      var a := acts[|acts| - 1];
      Asked(acts[..|acts| - 1], c) + if a.Find? && a.want == c then multiset{a.msg} else multiset{}
  }

  function SentBy(s: State, a: Action, c: nat): multiset<Msg> {
    if a.Find? && a.want == c && CanSend(s, a.t, a.home, a.want, a.msg) then multiset{a.msg} else multiset{}
  }

  /** The messages of the calls for location c that began. */
  function Sent(s: State, acts: seq<Action>, c: nat): multiset<Msg> {
    if acts == [] then multiset{}
    else
      var front, a := acts[..|acts| - 1], acts[|acts| - 1];
      Sent(s, front, c) + SentBy(Run(s, front), a, c)
  }

  function RefusedBy(s: State, a: Action, c: nat): multiset<Msg> {
    if a.Store? && a.t < |s.senders| && s.senders[a.t].Caching? && s.senders[a.t].want == c < |s.cores|
       && s.senders[a.t].rep == NULL
    then multiset{s.senders[a.t].msg} else multiset{}
  }

  /** The messages of the calls for location c that returned EBBRC_NOTFOUND. */
  function Refused(s: State, acts: seq<Action>, c: nat): multiset<Msg> {
    if acts == [] then multiset{}
    else
      var front, a := acts[..|acts| - 1], acts[|acts| - 1];
      Refused(s, front, c) + RefusedBy(Run(s, front), a, c)
  }

  lemma {:induction false} SentWasAsked(s: State, acts: seq<Action>, c: nat)
    ensures Sent(s, acts, c) <= Asked(acts, c)
  {
    if acts != [] {
      SentWasAsked(s, acts[..|acts| - 1], c);
    }
  }

  // ----- calls whose findTarget is under way

  predicate Looking(sender: Sender) { sender.Walking? || sender.Caching? }

  predicate SameQuest(a: Sender, b: Sender) {
    Looking(a) == Looking(b) && (Looking(a) ==> a.want == b.want && a.msg == b.msg)
  }

  function Quest(sender: Sender, c: nat): multiset<Msg> {
    if Looking(sender) && sender.want == c then multiset{sender.msg} else multiset{}
  }

  /** The messages of the calls for location c that are looking for its representative. */
  function Quests(senders: seq<Sender>, c: nat): multiset<Msg> {
    if senders == [] then multiset{} else Quest(senders[0], c) + Quests(senders[1..], c)
  }

  lemma {:induction false} QuestsUpdate(senders: seq<Sender>, t: nat, sender: Sender, c: nat)
    requires t < |senders|
    ensures Quests(senders[t := sender], c) + Quest(senders[t], c) == Quests(senders, c) + Quest(sender, c)
  {
    var after := senders[t := sender];
    if t == 0 {
      assert after[1..] == senders[1..];
    } else {
      assert after[1..] == senders[1..][t - 1 := sender];
      QuestsUpdate(senders[1..], t - 1, sender, c);
      Regroup(Quest(senders[0], c), Quests(after[1..], c), Quest(senders[t], c),
              Quests(senders[1..], c), Quest(sender, c));
    }
  }

  lemma {:induction false} QuestsSame(senders: seq<Sender>, t: nat, sender: Sender, c: nat)
    requires t < |senders| && Quest(sender, c) == Quest(senders[t], c)
    ensures Quests(senders[t := sender], c) == Quests(senders, c)
  {
    QuestsUpdate(senders, t, sender, c);
    Cancel(Quests(senders[t := sender], c), Quests(senders, c), Quest(sender, c));
  }

  lemma {:induction false} NoQuests(senders: seq<Sender>, c: nat)
    requires forall t :: 0 <= t < |senders| ==> !senders[t].Walking? && !senders[t].Caching?
    ensures Quests(senders, c) == multiset{}
  {
    if senders != [] {
      NoQuests(senders[1..], c);
    }
  }

  // ----- one step

  /** What a location accepts and what is on its way to it, after a step. */
  ghost predicate Booked(s: State, r: State, c: nat, sent: multiset<Msg>, refused: multiset<Msg>)
    requires c < |s.cores| && c < |r.cores|
  {
    (r.cores[c].accepted + Quests(r.senders, c)) + refused == (s.cores[c].accepted + Quests(s.senders, c)) + sent
  }

  lemma {:induction false} QuestBegins(s: State, t: nat, sender: Sender, c: nat)
    requires t < |s.senders| && s.senders[t].Idle? && c < |s.cores|
    ensures Booked(s, s.(senders := s.senders[t := sender]), c, Quest(sender, c), multiset{})
  {
    QuestsUpdate(s.senders, t, sender, c);
    assert Quest(s.senders[t], c) == multiset{};
    assert Quests(s.senders[t := sender], c) == Quests(s.senders, c) + Quest(sender, c);
    Regroup(s.cores[c].accepted, Quests(s.senders[t := sender], c), multiset{}, Quests(s.senders, c), Quest(sender, c));
  }

  lemma {:induction false} FindBooked(s: State, t: nat, home: nat, want: nat, msg: Msg, c: nat)
    requires c < |s.cores| && CanSend(s, t, home, want, msg) && want < |s.cores[home].reps|
    ensures |DoFind(s, t, home, want, msg).cores| == |s.cores|
    ensures Booked(s, DoFind(s, t, home, want, msg), c, if want == c then multiset{msg} else multiset{}, multiset{})
  {
    var rep := s.cores[home].reps[want];
    if rep != NULL {
      AcceptBooked(s, t, home, want, msg, rep, c);
    } else {
      QuestBegins(s, t, Walking(home, want, msg, |s.root|, |s.root|), c);
    }
  }

  lemma {:induction false} AcceptBooks(s: State, t: nat, home: nat, want: nat, msg: Msg, rep: nat, c: nat)
    requires t < |s.senders| && want < |s.cores| && c < |s.cores|
    ensures var r := Accept(s, t, home, want, msg, rep);
            && |r.cores| == |s.cores|
            && r.cores[c].accepted == s.cores[c].accepted + (if c == want then multiset{msg} else multiset{})
            && Quests(r.senders, c) + Quest(s.senders[t], c) == Quests(s.senders, c)
  {
    var found := Found(home, want, msg, rep);
    QuestsUpdate(s.senders, t, found, c);
    assert Quest(found, c) == multiset{};
    assert s.cores[c].accepted + multiset{} == s.cores[c].accepted;
  }

  lemma {:induction false} Shift(accepted: multiset<Msg>, quests: multiset<Msg>, quests': multiset<Msg>,
                                 own: multiset<Msg>, msgs: multiset<Msg>)
    requires quests' + own == quests
    ensures ((accepted + msgs) + quests') + own == (accepted + quests) + msgs
  {
    assert ((accepted + msgs) + quests') + own == (accepted + msgs) + (quests' + own);
  }

  /** An acceptance takes the message out of the quests if it was there, and into the books. */
  lemma {:induction false} AcceptBooked(s: State, t: nat, home: nat, want: nat, msg: Msg, rep: nat, c: nat)
    requires t < |s.senders| && want < |s.cores| && c < |s.cores|
    requires s.senders[t].Idle? || (s.senders[t].Caching? && s.senders[t].want == want && s.senders[t].msg == msg)
    ensures |Accept(s, t, home, want, msg, rep).cores| == |s.cores|
    ensures Booked(s, Accept(s, t, home, want, msg, rep), c,
                   if s.senders[t].Idle? && want == c then multiset{msg} else multiset{}, multiset{})
  {
    var r := Accept(s, t, home, want, msg, rep);
    var own, msgs := Quest(s.senders[t], c), if c == want then multiset{msg} else multiset{};
    AcceptBooks(s, t, home, want, msg, rep, c);
    Shift(s.cores[c].accepted, Quests(s.senders, c), Quests(r.senders, c), own, msgs);
    if s.senders[t].Caching? {
      assert own == msgs;
      Cancel(r.cores[c].accepted + Quests(r.senders, c), s.cores[c].accepted + Quests(s.senders, c), own);
    }
  }

  lemma {:induction false} CacheBooks(s: State, d: nat, l: nat, rep: nat, c: nat)
    requires c < |s.cores|
    ensures var q := CacheRep(s, d, l, rep);
            |q.cores| == |s.cores| && q.senders == s.senders && q.cores[c].accepted == s.cores[c].accepted
  {
  }

  lemma {:induction false} QuestEnds(s: State, q: State, t: nat, c: nat)
    requires t < |s.senders| && q.senders == s.senders && c < |s.cores| == |q.cores|
    requires q.cores[c].accepted == s.cores[c].accepted
    ensures Booked(s, q.(senders := q.senders[t := Idle]), c, multiset{}, Quest(s.senders[t], c))
  {
    QuestsUpdate(s.senders, t, Idle, c);
    assert Quest(Idle, c) == multiset{};
    Regroup(s.cores[c].accepted, Quests(q.senders[t := Idle], c), Quest(s.senders[t], c), Quests(s.senders, c),
            multiset{});
  }

  lemma {:induction false} StoreBooked(s: State, t: nat, c: nat)
    requires c < |s.cores|
    ensures |DoStore(s, t).cores| == |s.cores|
    ensures Booked(s, DoStore(s, t), c, multiset{}, RefusedBy(s, Store(t), c))
  {
    if t < |s.senders| && s.senders[t].Caching? && s.senders[t].want < |s.cores| {
      var Caching(home, want, msg, rep, first) := s.senders[t];
      var q := CacheRep(s, home, want, rep);
      CacheBooks(s, home, want, rep, c);
      if rep == NULL {
        QuestEnds(s, q, t, c);
      } else {
        AcceptBooked(q, t, home, want, msg, rep, c);
      }
    }
  }

  lemma {:induction false} WalkSender(s: State, t: nat)
    ensures var r := DoWalk(s, t);
            r == s || (t < |s.senders| == |r.senders| && r == s.(senders := s.senders[t := r.senders[t]])
                       && SameQuest(r.senders[t], s.senders[t]))
  {
  }

  lemma {:induction false} WalkBooked(s: State, t: nat, c: nat)
    requires c < |s.cores|
    ensures |DoWalk(s, t).cores| == |s.cores|
    ensures Booked(s, DoWalk(s, t), c, multiset{}, multiset{})
  {
    var r := DoWalk(s, t);
    WalkSender(s, t);
    if r != s { QuestsSame(s.senders, t, r.senders[t], c); }
  }

  /** Steps of a call behind findTarget. */
  lemma {:induction false} LaterBooked(s: State, a: Action, c: nat)
    requires c < |s.cores| && (a.Alloc? || a.Fill? || a.Enqueue? || a.Notify?)
    ensures |Step(s, a).cores| == |s.cores|
    ensures Booked(s, Step(s, a), c, multiset{}, multiset{})
  {
    LaterSender(s, a);
    LaterCore(s, a, c);
    if a.t < |s.senders| {
      QuestsSame(s.senders, a.t, Step(s, a).senders[a.t], c);
    }
  }

  /** Only sender t changes among the senders, and it has no quest before or after. */
  ghost predicate NoQuestMoves(s: State, r: State, t: nat) {
    if t < |s.senders| then
      && |r.senders| == |s.senders| && r.senders == s.senders[t := r.senders[t]]
      && SameQuest(r.senders[t], s.senders[t])
    else r == s
  }

  lemma {:induction false} AllocSender(s: State, t: nat, garbage: Node)
    ensures NoQuestMoves(s, DoAlloc(s, t, garbage), t)
  {
  }

  lemma {:induction false} FillSender(s: State, t: nat)
    ensures NoQuestMoves(s, DoFill(s, t), t)
  {
  }

  lemma {:induction false} EnqueueSender(s: State, t: nat)
    ensures NoQuestMoves(s, DoEnqueue(s, t), t)
  {
  }

  lemma {:induction false} NotifySender(s: State, t: nat)
    ensures NoQuestMoves(s, DoNotify(s, t), t)
  {
  }

  lemma {:induction false} LaterSender(s: State, a: Action)
    requires a.Alloc? || a.Fill? || a.Enqueue? || a.Notify?
    ensures NoQuestMoves(s, Step(s, a), a.t)
  {
    match a {
      case Alloc(t, garbage) => AllocSender(s, t, garbage);
      case Fill(t) => FillSender(s, t);
      case Enqueue(t) => EnqueueSender(s, t);
      case Notify(t) => NotifySender(s, t);
    }
  }

  lemma {:induction false} LaterCore(s: State, a: Action, c: nat)
    requires c < |s.cores| && (a.Alloc? || a.Fill? || a.Enqueue? || a.Notify?)
    ensures |Step(s, a).cores| == |s.cores| && Step(s, a).cores[c].accepted == s.cores[c].accepted
  {
  }

  lemma {:induction false} HandlerBooked(s: State, d: nat, c: nat)
    requires c < |s.cores|
    ensures var r := DoHandle(s, d);
            |r.cores| == |s.cores| && r.senders == s.senders && r.cores[c].accepted == s.cores[c].accepted
  {
    if d < |s.cores| {
      match s.cores[d].handler {
        case Storing(x, rep) => StoreHomeBooked(s, d, x, rep, c);
        case Returning(x, rep) => FreeBooked(s, d, x, rep, c);
        case _ =>
      }
    }
  }

  lemma {:induction false} StoreHomeBooked(s: State, d: nat, x: nat, rep: nat, c: nat)
    requires c < |s.cores| && d < |s.cores|
    ensures var r := DoStoreHome(s, d, x, rep);
            |r.cores| == |s.cores| && r.senders == s.senders && r.cores[c].accepted == s.cores[c].accepted
  {
    if x in s.nodes { CacheBooks(s, d, s.nodes[x].home, rep, c); }
  }

  lemma {:induction false} FreeBooked(s: State, d: nat, x: nat, rep: nat, c: nat)
    requires c < |s.cores| && d < |s.cores|
    ensures var r := DoFree(s, d, x, rep);
            |r.cores| == |s.cores| && r.senders == s.senders && r.cores[c].accepted == s.cores[c].accepted
  {
  }

  lemma {:induction false} OutsideBooked(s: State, a: Action, c: nat)
    requires c < |s.cores| && (a.Register? || a.Ipi? || a.Deliver?)
    ensures var r := Step(s, a);
            |r.cores| == |s.cores| && r.senders == s.senders && r.cores[c].accepted == s.cores[c].accepted
  {
  }

  lemma {:induction false} AnyFindBooked(s: State, t: nat, home: nat, want: nat, msg: Msg, c: nat)
    requires Inv(s) && c < |s.cores|
    ensures var a := Find(t, home, want, msg);
            |Step(s, a).cores| == |s.cores| && Booked(s, Step(s, a), c, SentBy(s, a, c), multiset{})
  {
    SendBegins(s, t, home, want, msg);
    if CanSend(s, t, home, want, msg) {
      assert CacheOk(s, s.cores[home]);
      FindBooked(s, t, home, want, msg, c);
    }
  }

  lemma {:induction false} StepBooked(s: State, a: Action, c: nat)
    requires Inv(s) && c < |s.cores|
    ensures |Step(s, a).cores| == |s.cores|
    ensures Booked(s, Step(s, a), c, SentBy(s, a, c), RefusedBy(s, a, c))
  {
    match a {
      case Find(t, home, want, msg) => AnyFindBooked(s, t, home, want, msg, c);
      case Walk(t) => WalkBooked(s, t, c);
      case Store(t) => StoreBooked(s, t, c);
      case Handle(d) => HandlerBooked(s, d, c);
      case Alloc(_, _) => LaterBooked(s, a, c);
      case Fill(_) => LaterBooked(s, a, c);
      case Enqueue(_) => LaterBooked(s, a, c);
      case Notify(_) => LaterBooked(s, a, c);
      case _ => OutsideBooked(s, a, c);
    }
  }

  // ----- every run

  lemma {:induction false} MoveOver(x: multiset<Msg>, y: multiset<Msg>, refused: multiset<Msg>, sent: multiset<Msg>,
                                    refused': multiset<Msg>, sent': multiset<Msg>)
    requires x + refused == sent && y + refused' == x + sent'
    ensures y + (refused + refused') == sent + sent'
  {
    assert y + (refused + refused') == (y + refused') + refused;
    assert sent + sent' == (x + sent') + refused;
  }

  /** Over every run, the calls for a location that began were accepted or refused, or are still
      looking for its representative. */
  lemma {:induction false} SendsAccounted(cores: nat, senders: nat, acts: seq<Action>, c: nat)
    requires c < |Run(Init(cores, senders), acts).cores|
    ensures var s := Run(Init(cores, senders), acts);
            (s.cores[c].accepted + Quests(s.senders, c)) + Refused(Init(cores, senders), acts, c)
            == Sent(Init(cores, senders), acts, c)
  {
    var s0 := Init(cores, senders);
    if acts == [] {
      NoQuests(s0.senders, c);
    } else {
      var front, a := acts[..|acts| - 1], acts[|acts| - 1];
      var s, r := Run(s0, front), Run(s0, acts);
      RunInv(cores, senders, front);
      CoresStay(s, a);
      SendsAccounted(cores, senders, front, c);
      StepBooked(s, a, c);
      MoveOver(s.cores[c].accepted + Quests(s.senders, c), r.cores[c].accepted + Quests(r.senders, c),
               Refused(s0, front, c), Sent(s0, front, c), RefusedBy(s, a, c), SentBy(s, a, c));
    }
  }

  lemma {:induction false} CoresStay(s: State, a: Action)
    requires Inv(s)
    ensures |Step(s, a).cores| == |s.cores|
  {
    StepRoot(s, a);
  }

  /** Over every run, what the handlers of a location were called with is among the messages of
      the calls for that location, each as often at most as it was sent. */
  lemma {:induction false} DeliveredWasSent(cores: nat, senders: nat, acts: seq<Action>, c: nat)
    requires c < |Run(Init(cores, senders), acts).cores|
    ensures var s := Run(Init(cores, senders), acts);
            && s.cores[c].delivered <= Sent(Init(cores, senders), acts, c)
            && s.cores[c].delivered <= Asked(acts, c)
  {
    var s := Run(Init(cores, senders), acts);
    SendsAccounted(cores, senders, acts, c);
    SentWasAsked(Init(cores, senders), acts, c);
    assert Reachable(s);
    ExactlyOnceDelivery(s, c);
  }

  /** When nobody is under way, what the handlers of a location were called with is, message by
      message, what the calls for it that began were given, less those that were refused. */
  lemma {:induction false} EverySendDelivered(cores: nat, senders: nat, acts: seq<Action>, c: nat)
    requires c < |Run(Init(cores, senders), acts).cores|
    requires var s := Run(Init(cores, senders), acts);
             && (forall t :: 0 <= t < |s.senders| ==> s.senders[t].Idle?)
             && !s.cores[c].pending && s.cores[c].handler.Off?
    ensures var s := Run(Init(cores, senders), acts);
            s.cores[c].delivered + Refused(Init(cores, senders), acts, c) == Sent(Init(cores, senders), acts, c)
  {
    var s := Run(Init(cores, senders), acts);
    assert Reachable(s);
    SendsAccounted(cores, senders, acts, c);
    QuiescentMeansDelivered(s, c);
    NoQuests(s.senders, c);
    assert s.cores[c].accepted + multiset{} == s.cores[c].accepted;
  }

  // ----- refusals

  /** A call for a registered location has the location's node before it, or has found it. */
  ghost predicate WillFind(s: State, sender: Sender, c: nat) {
    match sender
    case Walking(_, want, _, at, _) =>
      want == c ==> at <= |s.root| && c in s.self && s.self[c] in s.root[..at]
    case Caching(_, want, _, rep, _) => want == c ==> rep != NULL
    case _ => true
  }

  ghost predicate AllWillFind(s: State, c: nat) {
    forall t :: 0 <= t < |s.senders| ==> WillFind(s, s.senders[t], c)
  }

  /** A walk that has the location's node before it does not pass it. */
  lemma {:induction false} NotPassed(s: State, c: nat, at: nat)
    requires RootOk(s) && c in s.self && 0 < at <= |s.root| && s.self[c] in s.root[..at]
    ensures s.root[at - 1] in s.loc && (s.loc[s.root[at - 1]] != c ==> s.self[c] in s.root[..at - 1])
  {
    assert s.root[..at] == s.root[..at - 1] + [s.root[at - 1]];
    assert s.root[at - 1] in s.root;
  }

  lemma {:induction false} WalkFindsIt(s: State, t: nat, c: nat)
    requires RootOk(s) && c in s.self && t < |s.senders| && WillFind(s, s.senders[t], c)
    ensures |DoWalk(s, t).senders| == |s.senders| && WillFind(DoWalk(s, t), DoWalk(s, t).senders[t], c)
  {
    if DoWalk(s, t) != s {
      var Walking(home, want, msg, at, first) := s.senders[t];
      if want == c && at > 0 { NotPassed(s, c, at); }
    }
  }

  /** Registrations only prepend to the list. */
  lemma {:induction false} StillWillFind(s: State, r: State, sender: Sender, c: nat)
    requires c in s.self && WillFind(s, sender, c)
    requires s.root <= r.root && c in r.self && r.self[c] == s.self[c]
    ensures WillFind(r, sender, c)
  {
    if sender.Walking? && sender.want == c {
      assert r.root[..sender.at] == s.root[..sender.at];
    }
  }

  lemma {:induction false} StepRootPrefix(s: State, a: Action)
    requires Inv(s)
    ensures s.root <= Step(s, a).root
    ensures forall l :: l in s.self ==> l in Step(s, a).self && Step(s, a).self[l] == s.self[l]
  {
    if !a.Register? { StepSameRoot(s, a); }
  }

  /** The step of a sender of its own. */
  lemma {:induction false} OwnWillFind(s: State, a: Action, t: nat, c: nat)
    requires Inv(s) && c in s.self && AllWillFind(s, c) && t < |s.senders| == |Step(s, a).senders|
    requires Acts(a, t)
    ensures WillFind(Step(s, a), Step(s, a).senders[t], c)
  {
    assert WillFind(s, s.senders[t], c);
    match a {
      case Find(_, home, want, msg) =>
        SendBegins(s, t, home, want, msg);
        StepSameRoot(s, a);
        assert s.root[..|s.root|] == s.root;
      case Walk(_) => WalkFindsIt(s, t, c);
      case Store(_) => StoreWillFind(s, t, c);
      case _ => LaterSender(s, a);
    }
  }

  lemma {:induction false} StoreWillFind(s: State, t: nat, c: nat)
    requires t < |s.senders| == |DoStore(s, t).senders| && WillFind(s, s.senders[t], c)
    ensures WillFind(DoStore(s, t), DoStore(s, t).senders[t], c)
  {
  }

  lemma {:induction false} StepWillFind(s: State, a: Action, c: nat)
    requires Inv(s) && c in s.self && AllWillFind(s, c)
    ensures c in Step(s, a).self && AllWillFind(Step(s, a), c)
    ensures RefusedBy(s, a, c) == multiset{}
  {
    var r := Step(s, a);
    StepRootPrefix(s, a);
    OtherSenders(s, a);
    forall u | 0 <= u < |r.senders| ensures WillFind(r, r.senders[u], c) {
      assert WillFind(s, s.senders[u], c);
      if Acts(a, u) {
        OwnWillFind(s, a, u, c);
      } else {
        StillWillFind(s, r, s.senders[u], c);
      }
    }
  }

  /** From a state in which the location is registered and no call for it is looking for its
      representative, whatever runs, no call for it is refused. */
  lemma {:induction false} RegisteredNotRefused(s: State, acts: seq<Action>, c: nat)
    requires Inv(s) && c in s.self && AllWillFind(s, c)
    ensures Refused(s, acts, c) == multiset{}
    ensures Inv(Run(s, acts)) && c in Run(s, acts).self && AllWillFind(Run(s, acts), c)
  {
    if acts != [] {
      var front, a := acts[..|acts| - 1], acts[|acts| - 1];
      RegisteredNotRefused(s, front, c);
      StepWillFind(Run(s, front), a, c);
      StepInv(Run(s, front), a);
    }
  }
}
