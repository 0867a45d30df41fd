/**
 The message manager's representative and its linked lists in place, one call at a time
 (l1/MsgMgrPrim.c): what a call does when nothing interleaves with it. The machine in module
 MsgMgr takes the same critical sections as its steps.
 */
module MsgMgrPrim {
  import opened Common
  import opened MsgMgr

  type Args = a: seq<nat> | |a| == MAXARGS witness [0, 0, 0]

  class MsgStore {
    var next: MsgStore?
    var home: nat
    var id: nat
    var numargs: nat
    var args: Args

    /** What the message says. */
    function Said(): Msg
      reads `id, `numargs, `args
    {
      MsgOf(Node(NULL, 0, id, numargs, args))
    }
  }

  function NodeAt(xs: seq<MsgStore>, i: nat): MsgStore? {
    if i < |xs| then xs[i] else null
  }

  predicate Distinct<T(==)>(xs: seq<T>) {
    forall i, j :: 0 <= i < j < |xs| ==> xs[i] != xs[j]
  }

  /** Of the nodes q with their messages said, done were served with the given calls and
      rest were not. */
  ghost predicate Split(q: seq<MsgStore>, said: seq<Msg>, done: seq<MsgStore>, rest: seq<MsgStore>, calls: seq<Msg>) {
    && q == done + rest && Distinct(rest)
    && |said| == |q| && |calls| == |done| && calls == said[..|done|]
  }

  lemma {:induction false} SplitNext(q: seq<MsgStore>, said: seq<Msg>, done: seq<MsgStore>, rest: seq<MsgStore>,
                                     calls: seq<Msg>)
    requires Split(q, said, done, rest, calls) && rest != []
    ensures rest == [rest[0]] + Tail(rest) && rest[0] !in Tail(rest) && q[|done|] == rest[0] && rest[0] in q
    ensures Split(q, said, done + [rest[0]], Tail(rest), calls + [said[|done|]])
  {
  }

  /** The nodes that the list from head runs through, each once. */
  ghost predicate Chain(head: MsgStore?, xs: seq<MsgStore>)
    reads xs`next
  {
    && head == NodeAt(xs, 0)
    && (forall i :: 0 <= i < |xs| ==> xs[i].next == NodeAt(xs, i + 1))
    && Distinct(xs)
  }

  /** The first representative for a location in the order of the root's list. */
  function FindOn(list: seq<Rep>, loc: nat): (r: Rep?)
    ensures r != null ==> r in list && r.eventLoc == loc
    ensures r == null ==> forall x :: x in list ==> x.eventLoc != loc
  {
    if list == [] then null
    else if list[0].eventLoc == loc then list[0]
    else FindOn(list[1..], loc)
  }

  /** Adding a representative for a new location leaves the caches right. */
  lemma {:induction false} CacheGrows(self: Rep, list: seq<Rep>, r: Rep)
    requires self.CacheOk(list) && FindOn(list, r.eventLoc) == null
    ensures self.CacheOk([r] + list)
  {
    assert ([r] + list)[1..] == list;
  }

  class Rep {
    const eventLoc: nat
    var msgqueue: MsgStore?
    var freelist: MsgStore?
    /** Cached representatives by location. */
    var reps: seq<Rep?>
    ghost var queue: seq<MsgStore>
    ghost var free: seq<MsgStore>

    ghost predicate QueueOk()
      reads `msgqueue, `queue, queue`next
    {
      Chain(msgqueue, queue)
    }

    ghost predicate FreeOk()
      reads `freelist, `free, free`next, free`home
    {
      Chain(freelist, free) && forall x :: x in free ==> x.home == eventLoc
    }

    /** A cached representative is the one that a walk of the root's list finds. */
    ghost predicate CacheOk(list: seq<Rep>)
      reads `reps
    {
      forall l :: 0 <= l < |reps| ==> reps[l] == null || reps[l] == FindOn(list, l)
    }

    constructor (loc: nat, pics: nat)
      ensures eventLoc == loc && QueueOk() && FreeOk() && queue == [] && free == []
      ensures |reps| == pics && forall list :: CacheOk(list)
    {
      eventLoc := loc;
      msgqueue, freelist, queue, free := null, null, [], [];
      reps := seq(pics, _ => null);
    }

    /** findTarget: the cached representative, or else the one a walk finds, which is cached. */
    method FindTarget(list: seq<Rep>, loc: nat) returns (target: Rep?)
      requires loc < |reps| && CacheOk(list)
      modifies this`reps
      ensures target == FindOn(list, loc)
      ensures reps == old(reps)[loc := target] && CacheOk(list)
    {
      target := reps[loc];
      if target == null {
        var node := 0;
        while node < |list|
          invariant node <= |list| && target == null && FindOn(list, loc) == FindOn(list[node..], loc)
          invariant reps == old(reps)
        {
          assert list[node..][1..] == list[node + 1..];
          if list[node].eventLoc == loc {
            target := list[node];
            break;
          }
          node := node + 1;
        }
        reps := reps[loc := target];
      }
    }

    /** enqueueMsg on the target; an IPI is dispatched if the result is true. */
    method EnqueueMsg(msg: MsgStore) returns (queueempty: bool)
      requires QueueOk() && msg !in queue
      modifies this`msgqueue, this`queue, msg`next
      ensures QueueOk() && queue == [msg] + old(queue)
      ensures queueempty <==> old(queue) == []
    {
      queueempty := msgqueue == null;
      msg.next := msgqueue;
      msgqueue := msg;
      queue := [msg] + queue;
    }

    method DequeueMsgHead() returns (msg: MsgStore?)
      requires QueueOk()
      modifies this`msgqueue, this`queue
      ensures QueueOk() && msg == NodeAt(old(queue), 0)
      ensures queue == if msg == null then [] else old(queue)[1..]
      ensures msg == null <==> old(queue) == []
    {
      msg := msgqueue;
      if msg != null {
        msgqueue := msg.next;
        queue := queue[1..];
      }
    }

    /** allocMsg: the top of the own free list, or new memory when it is empty. */
    method AllocMsg() returns (msg: MsgStore)
      requires FreeOk()
      modifies this`freelist, this`free, free`home
      ensures FreeOk() && msg.home == eventLoc && msg !in free
      ensures forall x :: x in old(free) ==> x.home == old(x.home)
      ensures if old(free) == [] then fresh(msg) && free == [] else msg == old(free)[0] && free == old(free)[1..]
    {
      if freelist != null {
        msg := freelist;
        freelist := msg.next;
        free := free[1..];
      } else {
        msg := new MsgStore;
      }
      msg.home := eventLoc;
    }

    /** freeMsg: onto the free list of the node's home. */
    method FreeMsg(list: seq<Rep>, msg: MsgStore)
      requires msg.home < |reps| && CacheOk(list) && FindOn(list, msg.home) != null
      requires FindOn(list, msg.home).FreeOk() && msg !in FindOn(list, msg.home).free
      modifies this`reps, msg`next, FindOn(list, msg.home)`freelist, FindOn(list, msg.home)`free
      ensures |reps| == old(|reps|) && CacheOk(list)
      ensures var target := FindOn(list, msg.home); target.FreeOk() && target.free == [msg] + old(target.free)
    {
      var target := FindTarget(list, msg.home);
      msg.next := target.freelist;
      target.freelist := msg;
      target.free := [msg] + target.free;
    }

    /** The tail of msg0 to msg3: the message is stored and enqueued on this target. */
    method Post(msg: MsgStore, id: nat, a: seq<nat>) returns (notify: bool)
      requires QueueOk() && msg !in queue && |a| <= MAXARGS
      modifies this`msgqueue, this`queue, msg`next, msg`id, msg`numargs, msg`args
      ensures QueueOk() && queue == [msg] + old(queue) && msg.Said() == Msg(id, a)
      ensures notify <==> old(queue) == []
    {
      msg.id, msg.numargs := id, |a|;
      msg.args := a + msg.args[|a|..];
      notify := EnqueueMsg(msg);
    }

    /** msg0 to msg3. Refused, with nothing sent, exactly when no representative is found;
        otherwise the message sits on top of the target's queue. */
    method Send(list: seq<Rep>, loc: nat, id: nat, a: seq<nat>) returns (found: bool, notify: bool)
      requires loc < |reps| && |a| <= MAXARGS && CacheOk(list) && FreeOk()
      requires FindOn(list, loc) != null ==>
                 FindOn(list, loc).QueueOk() && forall x :: x in free ==> x !in FindOn(list, loc).queue
      modifies this`reps, this`freelist, this`free, free
      modifies if FindOn(list, loc) == null then {} else {FindOn(list, loc)}
      ensures found <==> FindOn(list, loc) != null
      ensures !found ==> free == old(free) && queue == old(queue)
      ensures found ==>
                var target := FindOn(list, loc);
                && target.QueueOk() && target.queue != [] && target.queue[1..] == old(target.queue)
                && target.queue[0].Said() == Msg(id, a) && target.queue[0].home == eventLoc
                && (notify <==> old(target.queue) == [])
                && FreeOk() && free == Tail(old(free))
                && (if old(free) == [] then fresh(target.queue[0]) else target.queue[0] == old(free)[0])
    {
      var target := FindTarget(list, loc);
      if target == null {
        return false, false;
      }
      var msg := AllocMsg();
      notify := target.Post(msg, id, a);
      found := true;
    }

    /** The switch on numargs: the call that the message's handler receives. */
    method Dispatch(msg: MsgStore) returns (call: Msg)
      requires msg.numargs <= MAXARGS
      ensures call == msg.Said()
    {
      if msg.numargs == 0 {
        call := Msg(msg.id, []);
      } else if msg.numargs == 1 {
        call := Msg(msg.id, [msg.args[0]]);
      } else if msg.numargs == 2 {
        call := Msg(msg.id, [msg.args[0], msg.args[1]]);
      } else {
        call := Msg(msg.id, [msg.args[0], msg.args[1], msg.args[2]]);
      }
    }

    /** freeMsg seen over all representatives. */
    method Release(list: seq<Rep>, msg: MsgStore, ghost done: seq<MsgStore>, ghost rest: seq<MsgStore>)
      requires CacheOk(list) && FreeListsOk(list) && msg.home < |reps|
      requires Freed(list, done) && Returnable(list, [msg] + rest) && msg !in rest
      modifies this`reps, msg`next, list`freelist, list`free
      ensures |reps| == old(|reps|) && CacheOk(list) && FreeListsOk(list)
      ensures Freed(list, done + [msg]) && Returnable(list, rest)
    {
      assert msg in [msg] + rest;
      ghost var target := FindOn(list, msg.home);
      FreeMsg(list, msg);
      forall x | x in rest ensures FindOn(list, x.home) != null && forall r :: r in list ==> x !in r.free {
        assert x in [msg] + rest;
      }
    }

    /** While handleEvent runs: the served nodes are free, those to be served are in use. */
    ghost predicate Serving(list: seq<Rep>, done: seq<MsgStore>, rest: seq<MsgStore>)
      reads `msgqueue, `queue, queue`next, `reps
      reads list`freelist, list`free, FreeNodes(list)`next, FreeNodes(list)`home
      reads done`home, rest`home, rest`numargs
    {
      && QueueOk() && CacheOk(list) && FreeListsOk(list) && Freed(list, done) && Returnable(list, rest)
      && forall x :: x in rest ==> x.home < |reps| && x.numargs <= MAXARGS
    }

    /** The served node goes home. */
    method PutBack(list: seq<Rep>, msg: MsgStore, ghost done: seq<MsgStore>)
      requires Serving(list, done, [msg] + queue) && msg !in queue
      modifies this`reps, msg`next, list`freelist, list`free
      ensures Serving(list, done + [msg], queue)
    {
      assert msg in [msg] + queue;
      assert forall x :: x in queue ==> x in [msg] + queue;
      Release(list, msg, done, queue);
    }

    /** The next dequeue, which leaves everything else as it is. */
    method Next(list: seq<Rep>, ghost done: seq<MsgStore>) returns (msg: MsgStore?)
      requires Serving(list, done, queue)
      modifies this`msgqueue, this`queue
      ensures Serving(list, done, old(queue))
      ensures msg == NodeAt(old(queue), 0) && queue == Tail(old(queue))
    {
      msg := DequeueMsgHead();
    }

    /** One turn of handleEvent's loop. */
    method Turn(list: seq<Rep>, msg: MsgStore, ghost done: seq<MsgStore>)
      returns (call: Msg, next: MsgStore?)
      requires Serving(list, done, [msg] + queue) && msg !in queue
      modifies this`msgqueue, this`queue, this`reps, msg`next, list`freelist, list`free
      ensures Serving(list, done + [msg], old(queue))
      ensures next == NodeAt(old(queue), 0) && queue == Tail(old(queue))
      ensures call == old(msg.Said())
    {
      assert msg in [msg] + queue;
      call := Dispatch(msg);
      PutBack(list, msg, done);
      next := Next(list, done + [msg]);
    }

    /** One turn of handleEvent's loop, seen over all nodes q and what they say: the rest loses
        its first node to those done. */
    method Round(list: seq<Rep>, msg: MsgStore, calls: seq<Msg>, ghost q: seq<MsgStore>, ghost said: seq<Msg>,
                 ghost done: seq<MsgStore>, ghost rest: seq<MsgStore>)
      returns (calls': seq<Msg>, next: MsgStore?)
      requires Split(q, said, done, rest, calls) && Say(q, said) && Serving(list, done, rest)
      requires msg == NodeAt(rest, 0) && queue == Tail(rest)
      modifies this`msgqueue, this`queue, this`reps, msg`next, list`freelist, list`free
      ensures Split(q, said, done + [msg], Tail(rest), calls') && Say(q, said)
      ensures Serving(list, done + [msg], Tail(rest))
      ensures next == NodeAt(Tail(rest), 0) && queue == Tail(Tail(rest))
    {
      SplitNext(q, said, done, rest, calls);
      var call;
      call, next := Turn(list, msg, done);
      calls' := calls + [call];
    }

    /** handleEvent's loop, entered with the first node of q in hand; the messages say `said`. */
    method Drain(list: seq<Rep>, first: MsgStore?, ghost q: seq<MsgStore>, ghost said: seq<Msg>)
      returns (calls: seq<Msg>)
      requires Serving(list, [], q) && Distinct(q) && first == NodeAt(q, 0) && queue == Tail(q)
      requires Say(q, said)
      modifies this`msgqueue, this`queue, this`reps, q`next, list`freelist, list`free
      ensures queue == [] && Serving(list, q, []) && calls == said
    {
      ghost var done: seq<MsgStore>, rest := [], q;
      var msg := first;
      calls := [];
      while msg != null
        invariant Split(q, said, done, rest, calls)
        invariant msg == NodeAt(rest, 0) && queue == Tail(rest)
        invariant Serving(list, done, rest) && Say(q, said)
        decreases |rest|
      {
        ghost var m := rest[0];
        assert m in q;
        calls, msg := Round(list, msg, calls, q, said, done, rest);
        done, rest := done + [m], Tail(rest);
      }
      assert done == q && calls == said;
    }

    /** handleEvent between ackIPI and enableIPI: every queued message is delivered once, top
        first, with what it says, and its node ends on the free list of its home. */
    method HandleEvent(list: seq<Rep>) returns (calls: seq<Msg>)
      requires Serving(list, [], queue)
      modifies this`msgqueue, this`queue, this`reps, queue`next, list`freelist, list`free
      ensures queue == [] && msgqueue == null && Serving(list, old(queue), [])
      ensures |calls| == |old(queue)| && forall i :: 0 <= i < |calls| ==> calls[i] == old(queue[i].Said())
    {
      ghost var q := queue;
      ghost var said := seq(|q|, i requires 0 <= i < |q| reads q => q[i].Said());
      var msg := Next(list, []);
      calls := Drain(list, msg, q, said);
    }
  }

  /** What the messages say, one by one. */
  ghost predicate Say(q: seq<MsgStore>, said: seq<Msg>)
    reads q`id, q`numargs, q`args
  {
    |said| == |q| && forall i :: 0 <= i < |q| ==> q[i].Said() == said[i]
  }

  ghost function FreeNodes(list: seq<Rep>): set<MsgStore>
    reads list`free
  {
    set i, k | 0 <= i < |list| && 0 <= k < |list[i].free| :: list[i].free[k]
  }

  /** Every free list is in order and holds nodes of its own core only. */
  ghost predicate FreeListsOk(list: seq<Rep>)
    reads list`freelist, list`free, FreeNodes(list)`next, FreeNodes(list)`home
  {
    && (forall i :: 0 <= i < |list| ==> list[i].FreeOk())
    && (forall i, j :: 0 <= i < j < |list| ==> list[i].eventLoc != list[j].eventLoc)
  }

  /** Nodes in use whose homes have representatives. */
  ghost predicate Returnable(list: seq<Rep>, xs: seq<MsgStore>)
    reads xs`home, list`free
  {
    forall x :: x in xs ==> FindOn(list, x.home) != null && forall r :: r in list ==> x !in r.free
  }

  /** Nodes on the free lists of their homes. */
  ghost predicate Freed(list: seq<Rep>, xs: seq<MsgStore>)
    reads xs`home, list`free
  {
    forall x :: x in xs ==> var target := FindOn(list, x.home); target != null && x in target.free
  }
}
