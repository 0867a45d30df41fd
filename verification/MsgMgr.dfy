/**
 The cross-core message manager of l1/MsgMgrPrim.c as a machine: senders and one interrupt
 handler per core take turns, each critical section is one step, and a list is the chain of
 `next` fields that starts at its head. The interrupt controller latches at most one
 pending IPI per core. A representative registers itself by prepending to the root's list,
 which findTarget walks without a lock, node by node, when its cache has no entry.
 */
module MsgMgr {
  import opened Common

  const MAXARGS: nat := 3

  /** A MsgStore in memory. */
  datatype Node = Node(next: nat, home: nat, id: nat, numargs: nat, args: seq<nat>)

  /** A message as its sender gives it and as its handler is to receive it. */
  datatype Msg = Msg(id: nat, args: seq<nat>)

  /** A call of msg0..msg3 on core `home` for core `want`: nothing; at node `at` of the root's
      list, whose head was node `first`; before storing the result of the walk in the cache;
      target found; MsgStore taken from the free list or from malloc; filled in; enqueued on
      an empty queue and about to dispatch the IPI. */
  datatype Sender =
    | Idle
    | Walking(home: nat, want: nat, msg: Msg, at: nat, first: nat)
    | Caching(home: nat, want: nat, msg: Msg, rep: nat, first: nat)
    | Found(home: nat, want: nat, msg: Msg, target: nat)
    | Taken(home: nat, want: nat, msg: Msg, target: nat, node: nat)
    | Filled(home: nat, want: nat, msg: Msg, target: nat, node: nat)
    | Notifying(target: nat)

  /** handleEvent on a core: not running; before ackIPI; before a dequeue; before calling the
      message's handler; then freeMsg: before looking for the home, at a node of the root's
      list, before storing the result in the cache, before the push; before enableIPI. */
  datatype Handler =
    | Off
    | Entered
    | Polling
    | Running(node: nat)
    | Freeing(node: nat)
    | Seeking(node: nat, at: nat)
    | Storing(node: nat, rep: nat)
    | Returning(node: nat, rep: nat)
    | Enabling

  /** Where a node can be. */
  datatype Place = InQueue(core: nat) | InFreeList(core: nat) | WithSender(t: nat) | WithHandler(core: nat)

  /** One event location: its representative's list heads and cache, the interrupt latch and
      the handler; then history: the lists that begin at the heads, and what findTarget
      accepted for the location and what was delivered there. */
  datatype Core = Core(
    qhead: nat,
    fhead: nat,
    reps: seq<nat>,
    pending: bool,
    handler: Handler,
    queue: seq<nat>,
    free: seq<nat>,
    accepted: multiset<Msg>,
    delivered: multiset<Msg>)

  /** The root's list in the order of registration (node k is the k-th, its next is node
      k - 1, and 0 is NULL), the eventLoc of every representative, the representative that a
      call on a core runs on; the MsgStores in memory, the next unused address, the event
      locations, the senders; then history: the place of each MsgStore. */
  datatype State = State(
    root: seq<nat>,
    loc: map<nat, nat>,
    self: map<nat, nat>,
    nodes: map<nat, Node>,
    brk: nat,
    cores: seq<Core>,
    senders: seq<Sender>,
    owner: map<nat, Place>)

  /** One step of the system. An action that is not enabled does nothing. */
  datatype Action =
    | Register(core: nat)
    | Find(t: nat, home: nat, want: nat, msg: Msg)
    | Walk(t: nat)
    | Store(t: nat)
    | Alloc(t: nat, garbage: Node)
    | Fill(t: nat)
    | Enqueue(t: nat)
    | Notify(t: nat)
    | Ipi(core: nat)
    | Deliver(core: nat)
    | Handle(core: nat)

  /** LRT_PIC_MAX_PICS event locations, no representative yet. */
  function Init(cores: nat, senders: nat): State {
    State([], map[], map[], map[], 1,
          seq(cores, _ => Core(NULL, NULL, seq(cores, _ => NULL), false, Off, [], [], multiset{}, multiset{})),
          seq(senders, _ => Idle), map[])
  }

  /** createRep on a core: a new representative with the core as its eventLoc is prepended to
      the root's list. Every core does this once. */
  function DoRegister(s: State, c: nat): State {
    if c < |s.cores| && c !in s.self
    then s.(root := s.root + [s.brk], loc := s.loc[s.brk := c], self := s.self[c := s.brk], brk := s.brk + 1)
    else s
  }

  /** findTarget returns a representative: the message is accepted. */
  function Accept(s: State, t: nat, home: nat, want: nat, msg: Msg, rep: nat): State
    requires t < |s.senders| && want < |s.cores|
  {
    s.(cores := s.cores[want := s.cores[want].(accepted := s.cores[want].accepted + multiset{msg})],
       senders := s.senders[t := Found(home, want, msg, rep)])
  }

  /** A send begins with findTarget: the cached representative, or a walk from the list's head. */
  function DoFind(s: State, t: nat, home: nat, want: nat, msg: Msg): State {
    if t < |s.senders| && s.senders[t].Idle? && home in s.self && home < |s.cores| && want < |s.cores|
       && want < |s.cores[home].reps| && |msg.args| <= MAXARGS
    then
      if s.cores[home].reps[want] != NULL
      then Accept(s, t, home, want, msg, s.cores[home].reps[want])
      else s.(senders := s.senders[t := Walking(home, want, msg, |s.root|, |s.root|)])
    else s
  }

  /** One node of the walk: the end, the representative looked for, or on to the next. */
  function DoWalk(s: State, t: nat): State {
    if t < |s.senders| && s.senders[t].Walking? then
      var Walking(home, want, msg, at, first) := s.senders[t];
      if at == 0 then s.(senders := s.senders[t := Caching(home, want, msg, NULL, first)])
      else if at <= |s.root| && s.root[at - 1] in s.loc then
        if s.loc[s.root[at - 1]] == want
        then s.(senders := s.senders[t := Caching(home, want, msg, s.root[at - 1], first)])
        else s.(senders := s.senders[t := Walking(home, want, msg, at - 1, first)])
      else s
    else s
  }

  function CacheRep(s: State, c: nat, l: nat, rep: nat): State {
    if c < |s.cores| && l < |s.cores[c].reps|
    then s.(cores := s.cores[c := s.cores[c].(reps := s.cores[c].reps[l := rep])])
    else s
  }

  /** The result of the walk is cached; the message is accepted, or refused (EBBRC_NOTFOUND). */
  function DoStore(s: State, t: nat): State {
    if t < |s.senders| && s.senders[t].Caching? && s.senders[t].want < |s.cores| then
      var Caching(home, want, msg, rep, first) := s.senders[t];
      var r := CacheRep(s, home, want, rep);
      if rep == NULL then r.(senders := r.senders[t := Idle]) else Accept(r, t, home, want, msg, rep)
    else s
  }

  /** allocMsg: pop the free list of the own core, or take new memory of unknown contents. */
  function DoAlloc(s: State, t: nat, garbage: Node): State {
    if t < |s.senders| && s.senders[t].Found? && |garbage.args| == MAXARGS && s.senders[t].home < |s.cores| then
      var Found(home, want, msg, target) := s.senders[t];
      var core := s.cores[home];
      var x := core.fhead;
      if x != NULL && x in s.nodes then
        s.(cores := s.cores[home := core.(fhead := s.nodes[x].next, free := Tail(core.free))],
           owner := s.owner[x := WithSender(t)], senders := s.senders[t := Taken(home, want, msg, target, x)])
      else
        s.(nodes := s.nodes[s.brk := garbage], brk := s.brk + 1,
           owner := s.owner[s.brk := WithSender(t)],
           senders := s.senders[t := Taken(home, want, msg, target, s.brk)])
    else s
  }

  /** The stores to home, id, numargs and the first numargs words of args. */
  function FillNode(n: Node, home: nat, msg: Msg): Node
    requires |msg.args| <= |n.args|
  {
    n.(home := home, id := msg.id, numargs := |msg.args|, args := msg.args + n.args[|msg.args|..])
  }

  function DoFill(s: State, t: nat): State {
    if t < |s.senders| && s.senders[t].Taken? then
      var Taken(home, want, msg, target, x) := s.senders[t];
      if x in s.nodes && |msg.args| <= |s.nodes[x].args| then
        s.(nodes := s.nodes[x := FillNode(s.nodes[x], home, msg)],
           senders := s.senders[t := Filled(home, want, msg, target, x)])
      else s
    else s
  }

  /** The event location of a representative; a value that is none for anything else. */
  function LocOf(s: State, rep: nat): nat {
    if rep in s.loc then s.loc[rep] else |s.cores|
  }

  /** The critical section of enqueueMsg; an IPI has to follow if the queue was empty. */
  function DoEnqueue(s: State, t: nat): State {
    if t < |s.senders| && s.senders[t].Filled? then
      var x, c := s.senders[t].node, LocOf(s, s.senders[t].target);
      if c < |s.cores| && x in s.nodes then
        var core := s.cores[c];
        s.(nodes := s.nodes[x := s.nodes[x].(next := core.qhead)],
           cores := s.cores[c := core.(qhead := x, queue := [x] + core.queue)],
           owner := s.owner[x := InQueue(c)],
           senders := s.senders[t := if core.qhead == NULL then Notifying(s.senders[t].target) else Idle])
      else s
    else s
  }

  function SetPending(s: State, c: nat): State {
    if c < |s.cores| then s.(cores := s.cores[c := s.cores[c].(pending := true)]) else s
  }

  /** dispatchIPI to the target's eventLoc. */
  function DoNotify(s: State, t: nat): State {
    if t < |s.senders| && s.senders[t].Notifying?
    then SetPending(s, LocOf(s, s.senders[t].target)).(senders := s.senders[t := Idle])
    else s
  }

  /** A pending IPI starts the handler of its core unless it is running already. */
  function DoDeliver(s: State, c: nat): State {
    if c < |s.cores| && s.cores[c].pending && s.cores[c].handler.Off?
    then s.(cores := s.cores[c := s.cores[c].(handler := Entered)])
    else s
  }

  /** What the handler is called with: the first numargs words of args. */
  function MsgOf(n: Node): Msg {
    Msg(n.id, if n.numargs <= |n.args| then n.args[..n.numargs] else n.args)
  }

  /** The critical section of dequeueMsgHead. */
  function DoDequeue(s: State, c: nat): State
    requires c < |s.cores|
  {
    var core := s.cores[c];
    var x := core.qhead;
    if x != NULL && x in s.nodes then
      s.(cores := s.cores[c := core.(qhead := s.nodes[x].next, queue := Tail(core.queue), handler := Running(x))],
         owner := s.owner[x := WithHandler(c)])
    else s.(cores := s.cores[c := core.(handler := Enabling)])
  }

  function SetHandler(s: State, c: nat, handler: Handler): State
    requires c < |s.cores|
  {
    s.(cores := s.cores[c := s.cores[c].(handler := handler)])
  }

  /** freeMsg looks for the home of its node: the cached representative, or a walk. */
  function DoLookHome(s: State, c: nat, x: nat): State
    requires c < |s.cores|
  {
    if x in s.nodes && s.nodes[x].home < |s.cores[c].reps| then
      var rep := s.cores[c].reps[s.nodes[x].home];
      SetHandler(s, c, if rep != NULL then Returning(x, rep) else Seeking(x, |s.root|))
    else s
  }

  function DoSeekHome(s: State, c: nat, x: nat, at: nat): State
    requires c < |s.cores|
  {
    if at == 0 then SetHandler(s, c, Storing(x, NULL))
    else if x in s.nodes && at <= |s.root| && s.root[at - 1] in s.loc then
      var rep := s.root[at - 1];
      SetHandler(s, c, if s.loc[rep] == s.nodes[x].home then Storing(x, rep) else Seeking(x, at - 1))
    else s
  }

  function DoStoreHome(s: State, c: nat, x: nat, rep: nat): State
    requires c < |s.cores|
  {
    if x in s.nodes then SetHandler(CacheRep(s, c, s.nodes[x].home, rep), c, Returning(x, rep)) else s
  }

  /** The push of freeMsg onto the free list of the representative that findTarget returned;
      with none the code stops at its assertion. */
  function DoFree(s: State, c: nat, x: nat, rep: nat): State
    requires c < |s.cores|
  {
    var h := LocOf(s, rep);
    if x in s.nodes && h < |s.cores| then
      var cores := s.cores[c := s.cores[c].(handler := Polling)];
      s.(nodes := s.nodes[x := s.nodes[x].(next := s.cores[h].fhead)],
         cores := cores[h := cores[h].(fhead := x, free := [x] + cores[h].free)],
         owner := s.owner[x := InFreeList(h)])
    else s
  }

  /** The message's handler is called. */
  function DoCall(s: State, c: nat, x: nat): State
    requires c < |s.cores|
  {
    var core := s.cores[c];
    if x in s.nodes then
      s.(cores := s.cores[c := core.(delivered := core.delivered + multiset{MsgOf(s.nodes[x])}, handler := Freeing(x))])
    else s
  }

  /** The next step of handleEvent on core c. */
  function DoHandle(s: State, c: nat): State {
    if c < |s.cores| then
      match s.cores[c].handler
      case Off => s
      case Entered => s.(cores := s.cores[c := s.cores[c].(pending := false, handler := Polling)])
      case Polling => DoDequeue(s, c)
      case Running(x) => DoCall(s, c, x)
      case Freeing(x) => DoLookHome(s, c, x)
      case Seeking(x, at) => DoSeekHome(s, c, x, at)
      case Storing(x, rep) => DoStoreHome(s, c, x, rep)
      case Returning(x, rep) => DoFree(s, c, x, rep)
      case Enabling => SetHandler(s, c, Off)
    else s
  }

  function Step(s: State, a: Action): State {
    match a
    case Register(c) => DoRegister(s, c)
    case Find(t, home, want, msg) => DoFind(s, t, home, want, msg)
    case Walk(t) => DoWalk(s, t)
    case Store(t) => DoStore(s, t)
    case Alloc(t, garbage) => DoAlloc(s, t, garbage)
    case Fill(t) => DoFill(s, t)
    case Enqueue(t) => DoEnqueue(s, t)
    case Notify(t) => DoNotify(s, t)
    case Ipi(c) => SetPending(s, c)
    case Deliver(c) => DoDeliver(s, c)
    case Handle(c) => DoHandle(s, c)
  }

  /** The state after the actions happened in this order. */
  function Run(s: State, acts: seq<Action>): State {
    if acts == [] then s else Step(Run(s, acts[..|acts| - 1]), acts[|acts| - 1])
  }
}
