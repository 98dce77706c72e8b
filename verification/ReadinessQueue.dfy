/** The readiness queue as linked nodes on the heap, each call of src/poll.rs run to its end before
    the next: the class refines `QueueModel`. */
module ReadinessQueue {
  import opened QM = QueueModel

  class ReadinessNode {
    var nextAll: ReadinessNode?
    var prevAll: ReadinessNode?
    var nextReady: ReadinessNode?
    var events: Ready
    var queued: bool
    var refCount: nat
    var token: nat
    var interest: Ready
    var opts: PollOpt

    constructor (token: nat, interest: Ready, opts: PollOpt, refCount: nat)
      ensures nextAll == prevAll == nextReady == null
      ensures Info() == QM.Info({}, false, refCount, token, interest, opts)
    {
      nextAll, prevAll, nextReady := null, null, null;
      events, queued, this.refCount := {}, false, refCount;
      this.token, this.interest, this.opts := token, interest, opts;
    }

    function Info(): Info
      reads this
    {
      QM.Info(events, queued, refCount, token, interest, opts)
    }

    /** `RegistrationData::disable` */
    method Disable()
      modifies this`interest, this`opts
      ensures Info() == Disabled(old(Info()))
    {
      interest, opts := {}, PollOpt(false, false);
    }
  }

  /** The element at `i`, null outside the sequence. */
  ghost function At(s: seq<ReadinessNode>, i: int): ReadinessNode? {
    if 0 <= i < |s| then s[i] else null
  }

  /** From `head`, the ready links lead through exactly `s`. */
  ghost predicate ReadyChain(head: ReadinessNode?, s: seq<ReadinessNode>)
    reads s`nextReady
  {
    && head == At(s, 0)
    && forall i {:trigger s[i].nextReady} | 0 <= i < |s| :: s[i].nextReady == At(s, i + 1)
  }

  /** From `head`, the ownership links lead through exactly `s`, forwards and backwards. */
  ghost predicate AllChain(head: ReadinessNode?, s: seq<ReadinessNode>)
    reads s`nextAll, s`prevAll
  {
    && head == At(s, 0)
    && (forall i {:trigger s[i].nextAll} | 0 <= i < |s| :: s[i].nextAll == At(s, i + 1))
    && (forall i {:trigger s[i].prevAll} | 0 <= i < |s| :: s[i].prevAll == At(s, i - 1))
    && Distinct(s)
  }

  lemma RemovedAt(s: seq<ReadinessNode>, k: nat)
    requires Distinct(s) && k < |s|
    ensures forall x :: x in s[..k] + s[k + 1..] <==> x in s && x != s[k]
  {
    forall x | x in s && x != s[k]
      ensures x in s[..k] + s[k + 1..]
    {
      var i :| 0 <= i < |s| && s[i] == x;
      assert i < k ==> s[..k][i] == x;
      assert i > k ==> s[k + 1..][i - k - 1] == x;
    }
  }

  class ReadinessQueue {
    var headAll: ReadinessNode?
    var headReady: ReadinessNode?
    ghost var all: seq<ReadinessNode>
    ghost var ready: seq<ReadinessNode>
    ghost var handles: multiset<ReadinessNode>

    ghost function Abs(): Model<ReadinessNode>
      reads this, all
    {
      Model(map n | n in all :: n.Info(), ready, handles)
    }

    /** The links are right, whether or not a poll is under way. */
    ghost predicate Linked()
      reads this, all`nextAll, all`prevAll, ready`nextReady
    {
      && AllChain(headAll, all)
      && (forall n <- ready :: n in all)
      && ReadyChain(headReady, ready)
    }

    ghost predicate Valid()
      reads this, all, ready
    {
      Linked() && QM.Valid(Abs())
    }

    constructor ()
      ensures Valid() && Abs() == Model(map[], [], multiset{})
    {
      headAll, headReady := null, null;
      all, ready, handles := [], [], multiset{};
    }

    /** `new_readiness_node` with one reference: in front of the list of all nodes. */
    method NewNode(token: nat, interest: Ready, opts: PollOpt) returns (n: ReadinessNode)
      requires Valid() && Drop !in interest
      modifies this`headAll, this`all, this`handles, all`prevAll
      ensures Valid() && fresh(n)
      ensures n !in old(Abs()).nodes && Abs() == QM.NewNode(old(Abs()), n, token, interest, opts)
    {
      hide QM.Valid, Linked, QM.NewNode;
      ghost var was := Abs();
      n := new ReadinessNode(token, interest, opts, 1);
      NewNodeKeepsValid(was, n, token, interest, opts);
      AddNode(n);
    }

    /** The new node becomes one of the queue's. */
    method AddNode(n: ReadinessNode)
      requires Linked() && n !in all && n.prevAll == null
                && n.Info() == QM.Info({}, false, 1, n.token, n.interest, n.opts)
      modifies this`headAll, this`all, this`handles, n`nextAll, all`prevAll
      ensures Linked() && Abs() == QM.NewNode(old(Abs()), n, n.token, n.interest, n.opts)
    {
      hide ReadyChain, AllChain, QM.NewNode;
      ghost var was := Abs();
      LinkFirst(n);
      handles := handles + multiset{n};
      assert Abs().nodes.Keys == was.nodes.Keys + {n};
      AddedNode(was, Abs(), n, n.token, n.interest, n.opts);
    }

    /** Put a new node in front of the list of all nodes. */
    method LinkFirst(n: ReadinessNode)
      requires AllChain(headAll, all) && n !in all && n.prevAll == null
      modifies this`headAll, this`all, n`nextAll, all`prevAll
      ensures all == [n] + old(all) && AllChain(headAll, all)
    {
      n.nextAll := headAll;
      if headAll != null {
        headAll.prevAll := n;
      }
      headAll := n;
      all := [n] + all;
    }

    /** `ReadinessNode::unlink`: take `n` out of the list of all nodes. */
    method Unlink(n: ReadinessNode, ghost k: nat)
      requires AllChain(headAll, all) && k < |all| && all[k] == n
      modifies this`headAll, this`all, all`nextAll, all`prevAll
      ensures all == old(all)[..k] + old(all)[k + 1..]
      ensures AllChain(headAll, all)
    {
      ghost var was := all;
      if n.nextAll != null {
        n.nextAll.prevAll := n.prevAll;
      }
      var prev := n.prevAll;
      n.prevAll := null;
      if prev != null {
        prev.nextAll := n.nextAll;
      } else {
        headAll := n.nextAll;
      }
      n.nextAll := null;
      all := was[..k] + was[k + 1..];
      forall i | 0 <= i < |all|
        ensures all[i].nextAll == At(all, i + 1) && all[i].prevAll == At(all, i - 1)
      {
        assert all[i] == was[if i < k then i else i + 1];
      }
    }

    /** `prepend_readiness_node`, with no other thread about. */
    method Prepend(n: ReadinessNode)
      requires n !in ready && ReadyChain(headReady, ready)
      modifies this`headReady, this`ready, n`nextReady
      ensures ready == [n] + old(ready) && ReadyChain(headReady, ready)
    {
      n.nextReady := headReady;
      headReady := n;
      ready := [n] + ready;
    }

    /** `queue_for_processing` */
    method Enqueue(n: ReadinessNode)
      requires Linked() && n in all && (n in ready ==> n.queued)
      modifies this`headReady, this`ready, n`nextReady, n`queued
      ensures Linked() && Abs() == QM.Enqueue(old(Abs()), n)
    {
      hide AllChain, ReadyChain;
      ghost var was := Abs();
      if !n.queued {
        n.queued := true;
        Prepend(n);
        assert Abs().nodes == QM.Enqueue(was, n).nodes;
      }
    }

    method SetReadiness(n: ReadinessNode, readiness: Ready)
      requires Valid() && n in handles && Drop !in readiness
      modifies this`headReady, this`ready, n`nextReady, n`queued, n`events
      ensures Valid() && n in old(Abs()).nodes && Abs() == QM.SetReadiness(old(Abs()), n, readiness)
    {
      hide QM.Valid, AllChain, ReadyChain;
      HandleFacts(n);
      SetReadinessKeepsValid(Abs(), n, readiness);
      Store(n, readiness);
    }

    /** What a live handle says about its node. */
    lemma HandleFacts(n: ReadinessNode)
      requires Valid() && n in handles
      ensures n in all && (n in ready <==> n.queued) && 0 < n.refCount == handles[n]
    {
      assert InfoOk(Abs(), n);
    }

    /** `set_readiness`, also for the private drop bit. */
    method Store(n: ReadinessNode, readiness: Ready)
      requires Linked() && n in all && (n in ready ==> n.queued)
      modifies this`headReady, this`ready, n`nextReady, n`queued, n`events
      ensures Linked() && Abs() == QM.SetReadiness(old(Abs()), n, readiness)
    {
      hide AllChain, ReadyChain;
      ghost var was := Abs();
      n.events := readiness;
      assert Abs() == was.(nodes := was.nodes[n := was.nodes[n].(events := readiness)]);
      if readiness != {} {
        Enqueue(n);
      }
    }

    method StoreData(n: ReadinessNode, token: nat, interest: Ready, opts: PollOpt)
      requires n in all
      modifies n`token, n`interest, n`opts
      ensures n in old(Abs()).nodes && var i := old(Abs()).nodes[n].(token := token, interest := interest,
                opts := opts);
              Abs() == old(Abs()).(nodes := old(Abs()).nodes[n := i])
    {
      n.token, n.interest, n.opts := token, interest, opts;
    }

    /** `update` refuses a registration of another `Poll`. */
    method Update(poll: ReadinessQueue, n: ReadinessNode, token: nat, interest: Ready, opts: PollOpt) returns (ok: bool)
      requires Valid() && n in handles && Drop !in interest
      modifies this`headReady, this`ready, n`nextReady, n`queued, n`token, n`interest, n`opts
      ensures Valid() && n in old(Abs()).nodes
      ensures ok <==> poll == this
      ensures Abs() == if ok then QM.Update(old(Abs()), n, token, interest, opts) else old(Abs())
    {
      hide QM.Valid, AllChain, ReadyChain;
      HandleFacts(n);
      UpdateKeepsValid(Abs(), n, token, interest, opts);
      if poll != this {
        return false;
      }
      StoreData(n, token, interest, opts);
      if n.events != {} {
        Enqueue(n);
      }
      ok := true;
    }

    /** `RegistrationInner::clone` */
    method CloneHandle(n: ReadinessNode)
      requires Valid() && n in handles
      modifies this`handles, n`refCount
      ensures Valid() && n in old(Abs()).nodes && Abs() == QM.CloneHandle(old(Abs()), n)
    {
      hide QM.Valid, AllChain, ReadyChain;
      HandleFacts(n);
      CloneKeepsValid(Abs(), n);
      ghost var was := Abs();
      n.refCount := n.refCount + 1;
      handles := handles + multiset{n};
      assert Abs().nodes == QM.CloneHandle(was, n).nodes;
    }

    /** One reference less; the count before. */
    method TakeHandle(n: ReadinessNode) returns (oldSize: nat)
      requires n in all && 0 < n.refCount
      modifies this`handles, n`refCount
      ensures n in old(Abs()).nodes && oldSize == old(Abs()).nodes[n].refs > 0
      ensures var i := old(Abs()).nodes[n].(refs := oldSize - 1);
              Abs() == old(Abs()).(nodes := old(Abs()).nodes[n := i], handles := old(handles) - multiset{n})
    {
      oldSize := n.refCount;
      n.refCount := n.refCount - 1;
      handles := handles - multiset{n};
    }

    /** `RegistrationInner::drop` */
    method DropHandle(n: ReadinessNode)
      requires Valid() && n in handles
      modifies this`handles, this`headReady, this`ready, n`refCount, n`nextReady, n`queued, n`events
      ensures Valid()
      ensures n in old(Abs()).nodes && 0 < old(Abs()).nodes[n].refs && Abs() == QM.DropHandle(old(Abs()), n)
    {
      hide QM.Valid, AllChain, ReadyChain;
      HandleFacts(n);
      DropKeepsValid(Abs(), n);
      var oldSize := TakeHandle(n);
      if oldSize != 1 {
        return;
      }
      Store(n, {Drop});
    }

    /** `Registration::new`: a node with two handles left, one in each of the values returned. */
    method Register(token: nat, interest: Ready, opts: PollOpt) returns (n: ReadinessNode)
      requires Valid() && Drop !in interest
      modifies this`headAll, this`headReady, this`all, this`ready, this`handles, all`prevAll
      ensures Valid() && fresh(n) && n !in old(Abs()).nodes
      ensures Abs() == Added(old(Abs()), n, token, interest, opts, 2)
    {
      hide QM.Valid, Linked, QM.NewNode, QM.CloneHandle, QM.DropHandle;
      ghost var was := Abs();
      n := NewNode(token, interest, opts);
      RegisterModel(was, n, token, interest, opts);
      CloneHandle(n);
      CloneHandle(n);
      DropHandle(n);
    }

    /** `Registration::drop`, followed by the drop of its handle. */
    method DropRegistration(n: ReadinessNode)
      requires Valid() && n in handles
      modifies this`handles, this`headReady, this`ready,
               n`refCount, n`nextReady, n`queued, n`events, n`interest, n`opts
      ensures Valid() && n in old(Abs()).nodes
      ensures var m := QM.Disable(old(Abs()), n); 0 < m.nodes[n].refs && Abs() == QM.DropHandle(m, n)
    {
      hide QM.Valid, AllChain, ReadyChain;
      HandleFacts(n);
      DisableKeepsValid(Abs(), n);
      ghost var was := Abs();
      n.Disable();
      assert Abs() == QM.Disable(was, n);
      DropHandle(n);
    }

    /** The body of the loop of `ReadinessQueue::poll`, for a node taken off the swapped-out list. */
    method PollNode(n: ReadinessNode) returns (dst: seq<Event>)
      requires Linked() && n in all && n !in ready && n.queued
      modifies this`headAll, this`headReady, this`all, this`ready, all`nextAll, all`prevAll,
               n`nextReady, n`queued, n`interest, n`opts
      ensures Linked() && n in old(Abs()).nodes
      ensures Abs() == QM.PollNode(old(Abs()), n) && dst == EventsOf(ReportsOf(old(Abs()), n))
    {
      hide Linked;
      ghost var was := Abs();
      dst := [];
      var opts := n.opts;
      var events := (n.interest + {Drop}) * n.events;

      if Drop !in events {
        if opts.edge || events == {} {
          n.queued := false;
          events := (n.interest + {Drop}) * n.events;
        } else {
          Requeue(n);
        }
      }

      if Drop in events {
        Release(n);
      } else if events != {} {
        dst := [Event(events, n.token)];
        if opts.oneshot {
          n.Disable();
        }
      }
      assert n in Abs().nodes ==> Abs().nodes == was.nodes[n := n.Info()];
    }

    /** A level-triggered node goes back on the list for the next poll. */
    method Requeue(n: ReadinessNode)
      requires Linked() && n in all && n !in ready
      modifies this`headReady, this`ready, n`nextReady
      ensures Linked() && ready == [n] + old(ready)
    {
      hide AllChain, ReadyChain;
      Prepend(n);
    }

    /** `unlink_node`: the node leaves the queue for good. */
    method Release(n: ReadinessNode)
      requires Linked() && n in all && n !in ready
      modifies this`headAll, this`all, all`nextAll, all`prevAll
      ensures Linked() && n in old(Abs()).nodes && Abs() == old(Abs()).(nodes := old(Abs()).nodes - {n})
    {
      hide ReadyChain, AllChain, Distinct;
      ghost var was := Abs();
      ghost var k := Position(n);
      RemovedAt(all, k);
      Unlink(n, k);
      assert Abs().nodes.Keys == was.nodes.Keys - {n};
    }

    lemma Position(n: ReadinessNode) returns (k: nat)
      requires Linked() && n in all
      ensures k < |all| && all[k] == n && Distinct(all)
    {
      k :| 0 <= k < |all| && all[k] == n;
    }

    /** The rest of a swapped-out list: `node` leads through `rest`, all queued and not on the new list. */
    ghost predicate Swapped(node: ReadinessNode?, rest: seq<ReadinessNode>)
      reads this, rest
    {
      && ReadyChain(node, rest) && Distinct(rest)
      && (node == null <==> rest == []) && (rest != [] ==> node == rest[0])
      && forall n <- rest :: n in all && n !in ready && n.queued
    }

    /** `ReadyList::next`, and the loop's body for the node it yields. */
    method PollNext(n: ReadinessNode, ghost rest: seq<ReadinessNode>) returns (node: ReadinessNode?, dst: seq<Event>)
      requires Linked() && Swapped(n, rest)
      modifies this`headAll, this`headReady, this`all, this`ready, all`nextAll, all`prevAll,
               n`nextReady, n`queued, n`interest, n`opts
      ensures Linked() && Swapped(node, rest[1..])
      ensures n in old(Abs()).nodes && Abs() == QM.PollNode(old(Abs()), n) && dst == EventsOf(ReportsOf(old(Abs()), n))
    {
      hide AllChain, ReportsOf, QM.PollNode, Linked;
      assert rest[0] in rest && forall x <- rest[1..] :: x in rest && x != n;
      ghost var was := Abs();
      node := n.nextReady;
      UnlinkReady(n);
      dst := PollNode(n);
      forall x | x in rest[1..]
        ensures x in all && x !in ready
      {
        PollNodeOthers(was, n, x);
        assert x in Abs().nodes <==> x in all;
      }
    }

    /** A node off the new list may change its ready link. */
    method UnlinkReady(n: ReadinessNode)
      requires Linked() && n in all && n !in ready
      modifies n`nextReady
      ensures Linked() && n.nextReady == null && Abs() == old(Abs())
    {
      n.nextReady := null;
    }

    lemma EmptyChain()
      ensures ReadyChain(null, [])
    {
    }

    /** `ReadinessQueue::poll` */
    method Poll() returns (dst: seq<Event>)
      requires Valid()
      modifies this`headAll, this`headReady, this`all, this`ready, all
      ensures Valid()
      ensures Abs() == QM.Poll(old(Abs())).0 && dst == EventsOf(QM.Poll(old(Abs())).1)
    {
      hide QM.Valid, AllChain, ReadyChain, PollAll, QM.PollNode, ReportsOf;
      ghost var was := Abs();
      ReadyFacts();
      PollKeepsValid(was);

      // `take_ready`
      var node := headReady;
      ghost var rest := ready;
      headReady, ready := null, [];
      EmptyChain();
      assert Abs() == was.(ready := []);
      dst := [];

      while node != null
        invariant Linked() && Swapped(node, rest)
        invariant Abs().nodes.Keys <= was.nodes.Keys
        invariant PollAll(Abs(), rest).0 == QM.Poll(was).0
        invariant dst + EventsOf(PollAll(Abs(), rest).1) == EventsOf(QM.Poll(was).1)
        decreases |rest|
      {
        PollAllSplit(Abs(), rest);
        assert forall i | 0 <= i < |all| :: all[i] in Abs().nodes.Keys;
        assert node in rest && node in Abs().nodes.Keys;
        var events;
        node, events := PollNext(node, rest);
        rest := rest[1..];
        dst := dst + events;
      }
      PollAllEmpty(Abs());
    }

    /** What a valid queue says about the nodes on its list. */
    lemma ReadyFacts()
      requires Valid()
      ensures Distinct(ready) && forall n <- ready :: n in all && n.queued
      ensures headReady == At(ready, 0)
    {
      forall n | n in ready
        ensures n.queued
      {
        assert InfoOk(Abs(), n);
      }
    }
  }
}
