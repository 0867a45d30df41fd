/** What holds in every reachable state of the message-manager machine. */
module MsgMgrState {
  import opened Common
  import opened MsgMgr

  // ----- lists in memory

  ghost predicate Linked(nodes: map<nat, Node>, xs: seq<nat>, i: nat)
    requires i < |xs|
  {
    xs[i] != NULL && xs[i] in nodes && nodes[xs[i]].next == At(xs, i + 1)
  }

  /** The chain of next fields that starts at head is xs, without repetition. */
  ghost predicate IsList(nodes: map<nat, Node>, head: nat, xs: seq<nat>) {
    && head == At(xs, 0)
    && (forall i :: 0 <= i < |xs| ==> Linked(nodes, xs, i))
    && (forall i, j :: 0 <= i < j < |xs| ==> xs[i] != xs[j])
  }

  ghost predicate CoreLists(nodes: map<nat, Node>, core: Core) {
    IsList(nodes, core.qhead, core.queue) && IsList(nodes, core.fhead, core.free)
  }

  // ----- who holds which node

  function SenderNode(sender: Sender): nat {
    if sender.Taken? || sender.Filled? then sender.node else NULL
  }

  function HandlerNode(handler: Handler): nat {
    if handler.Off? || handler.Entered? || handler.Polling? || handler.Enabling? then NULL else handler.node
  }

  predicate Holds(s: State, p: Place, x: nat) {
    x != NULL &&
    match p
    case InQueue(c) => c < |s.cores| && x in s.cores[c].queue
    case InFreeList(c) => c < |s.cores| && x in s.cores[c].free
    case WithSender(t) => t < |s.senders| && SenderNode(s.senders[t]) == x
    case WithHandler(c) => c < |s.cores| && HandlerNode(s.cores[c].handler) == x
  }

  /** The heads begin the lists, without repetition, and every node is in exactly one place. */
  ghost predicate Owned(s: State) {
    && s.owner.Keys == s.nodes.Keys && s.brk > 0
    && (forall x :: x in s.nodes ==> NULL < x < s.brk && Holds(s, s.owner[x], x))
    && (forall p, x :: Holds(s, p, x) ==> x in s.owner && s.owner[x] == p)
    && (forall c :: 0 <= c < |s.cores| ==> CoreLists(s.nodes, s.cores[c]))
  }

  // ----- representatives, caches and walks

  /** Every location has at most one representative, which is on the root's list. */
  ghost predicate RootOk(s: State) {
    && (forall r :: r in s.root ==> r in s.loc)
    && (forall r :: r in s.loc ==> NULL < r < s.brk && s.loc[r] in s.self && s.self[s.loc[r]] == r)
    && (forall c :: c in s.self ==>
          c < |s.cores| && s.self[c] in s.loc && s.loc[s.self[c]] == c && s.self[c] in s.root)
  }

  /** rep is the representative of location l. */
  predicate Known(s: State, l: nat, rep: nat) {
    l in s.self && s.self[l] == rep
  }

  ghost predicate CacheOk(s: State, core: Core) {
    && |core.reps| == |s.cores|
    && forall l :: 0 <= l < |core.reps| ==> core.reps[l] == NULL || Known(s, l, core.reps[l])
  }

  ghost predicate CachesOk(s: State) {
    forall c :: 0 <= c < |s.cores| ==> CacheOk(s, s.cores[c])
  }

  /** A walk for a location that began at node `first` has passed all nodes behind `at`
      without finding it. */
  ghost predicate Passed(s: State, want: nat, at: nat, first: nat) {
    && at <= first <= |s.root|
    && forall k :: at <= k < first && s.root[k] in s.loc ==> s.loc[s.root[k]] != want
  }

  /** A send that findTarget may accept or has accepted. */
  ghost predicate SendOk(s: State, home: nat, want: nat, msg: Msg) {
    home in s.self && want < |s.cores| && |msg.args| <= MAXARGS
  }

  ghost predicate SenderKnows(s: State, sender: Sender) {
    match sender
    case Idle => true
    case Walking(home, want, msg, at, first) => SendOk(s, home, want, msg) && Passed(s, want, at, first)
    case Caching(home, want, msg, rep, first) =>
      SendOk(s, home, want, msg) && if rep == NULL then Passed(s, want, 0, first) else Known(s, want, rep)
    case Found(home, want, msg, target) => SendOk(s, home, want, msg) && Known(s, want, target)
    case Taken(home, want, msg, target, x) =>
      SendOk(s, home, want, msg) && Known(s, want, target) && x in s.nodes
    case Filled(home, want, msg, target, x) =>
      && SendOk(s, home, want, msg) && Known(s, want, target)
      && x in s.nodes && s.nodes[x].home == home && MsgOf(s.nodes[x]) == msg
    case Notifying(target) => target in s.loc
  }

  ghost predicate HandlerKnows(s: State, handler: Handler) {
    match handler
    case Running(x) => x in s.nodes
    case Freeing(x) => x in s.nodes
    case Seeking(x, at) =>
      && x in s.nodes && s.nodes[x].home in s.self
      && at <= |s.root| && s.self[s.nodes[x].home] in s.root[..at]
    case Storing(x, rep) => x in s.nodes && Known(s, s.nodes[x].home, rep)
    case Returning(x, rep) => x in s.nodes && Known(s, s.nodes[x].home, rep)
    case _ => true
  }

  ghost predicate Senders(s: State) {
    forall t :: 0 <= t < |s.senders| ==> SenderKnows(s, s.senders[t])
  }

  ghost predicate Handlers(s: State) {
    forall c :: 0 <= c < |s.cores| ==> HandlerKnows(s, s.cores[c].handler)
  }

  /** The home of a node that has left its first sender has a representative; a free list
      holds only nodes of its own location. */
  ghost predicate HomeOk(s: State, x: nat)
    requires x in s.nodes && x in s.owner
  {
    && |s.nodes[x].args| == MAXARGS
    && match s.owner[x]
       case WithSender(_) => true
       case InFreeList(c) => s.nodes[x].home == c && c in s.self
       case _ => s.nodes[x].home in s.self
  }

  ghost predicate Homes(s: State) {
    forall x :: x in s.nodes && x in s.owner ==> HomeOk(s, x)
  }

  ghost predicate Lookup(s: State) {
    RootOk(s) && CachesOk(s) && Homes(s) && Senders(s) && Handlers(s)
  }

  // ----- accounts

  /** Messages of the nodes of a list, and of the node that a handler still has to be called for. */
  ghost function Contents(nodes: map<nat, Node>, xs: seq<nat>): seq<Msg> {
    seq(|xs|, i requires 0 <= i < |xs| => if xs[i] in nodes then MsgOf(nodes[xs[i]]) else Msg(0, []))
  }

  ghost function InHand(nodes: map<nat, Node>, core: Core): multiset<Msg> {
    if core.handler.Running? && core.handler.node in nodes
    then multiset{MsgOf(nodes[core.handler.node])} else multiset{}
  }

  /** The accepted message that a sender has not yet enqueued, if it is for location c. */
  ghost function Load(sender: Sender, c: nat): multiset<Msg> {
    if (sender.Found? || sender.Taken? || sender.Filled?) && sender.want == c then multiset{sender.msg} else multiset{}
  }

  ghost function Carried(senders: seq<Sender>, c: nat): multiset<Msg> {
    if senders == [] then multiset{} else Load(senders[0], c) + Carried(senders[1..], c)
  }

  /** What was accepted for a location was delivered, is queued, is in its handler's hand or
      is still carried by senders. */
  ghost predicate Accounted(nodes: map<nat, Node>, core: Core, carried: multiset<Msg>) {
    core.accepted == core.delivered + multiset(Contents(nodes, core.queue)) + InHand(nodes, core) + carried
  }

  ghost predicate Accounts(s: State) {
    forall c :: 0 <= c < |s.cores| ==> Accounted(s.nodes, s.cores[c], Carried(s.senders, c))
  }

  // ----- wakeups

  /** A sender is about to dispatch an IPI to core c. */
  ghost predicate Notified(s: State, c: nat) {
    exists t :: 0 <= t < |s.senders| && s.senders[t].Notifying? && LocOf(s, s.senders[t].target) == c
  }

  ghost predicate Busy(handler: Handler) {
    !handler.Off? && !handler.Enabling?
  }

  /** The handler will poll the queue again, or somebody makes sure that it starts. */
  ghost predicate WillWake(s: State, c: nat)
    requires c < |s.cores|
  {
    s.cores[c].pending || Busy(s.cores[c].handler) || Notified(s, c)
  }

  ghost predicate Awake(s: State) {
    forall c :: 0 <= c < |s.cores| ==> s.cores[c].queue == [] || WillWake(s, c)
  }

  ghost predicate Inv(s: State) {
    Owned(s) && Lookup(s) && Accounts(s) && Awake(s)
  }
}
