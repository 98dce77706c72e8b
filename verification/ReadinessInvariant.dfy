/** The steps of `ReadinessSteps` keep ownership and the shape of the chains. */
module ReadinessInvariant {
  import opened ReadinessSteps

  /** What `Owned` and `Chained` say about one member, for use where it matters. */
  lemma OwnedNode(s: State, n: Node)
    requires Owned(s) && n in s.nodes
    ensures NodeOk(s, n)
    ensures s.nodes[n].owner.Pusher? ==> ProducerOk(s, s.nodes[n].owner.pid)
  {
    assert NodeOk(s, n);
    if s.nodes[n].owner.Pusher? {
      assert ProducerOk(s, s.nodes[n].owner.pid);
    }
  }

  lemma OwnedProducer(s: State, p: Pid)
    requires Owned(s) && p in s.producers
    ensures ProducerOk(s, p)
    ensures s.producers[p].Pushing? ==> NodeOk(s, s.producers[p].node)
  {
    assert ProducerOk(s, p);
    if s.producers[p].Pushing? {
      assert NodeOk(s, s.producers[p].node);
    }
  }

  // ----- steps that move no node -----

  /** Nothing changes hands: `queued`, `owner` and `next` of every node, the chains, the pushes
      under way and what the poller holds stay the same. */
  predicate Quiet(s: State, s': State) {
    && s'.nodes.Keys == s.nodes.Keys
    && (forall n {:trigger s'.nodes[n]} | n in s.nodes ::
          && s'.nodes[n].queued == s.nodes[n].queued
          && s'.nodes[n].owner == s.nodes[n].owner
          && s'.nodes[n].next == s.nodes[n].next)
    && s'.hist.chain == s.hist.chain && s'.hist.drained == s.hist.drained
    && LinkFor(s'.head) == LinkFor(s.head) && s'.batch == s.batch
    && (forall p {:trigger s'.producers[p]} | p in s'.producers ::
          match s'.producers[p]
          case Stored(n) => n in s.nodes
          case Pushing(n, push) =>
            && p in s.producers && s.producers[p].Pushing? && s.producers[p].node == n
            && (push.Prepending? ==> push == s.producers[p].push)
          case Waking(_) => true)
    && (forall p {:trigger s.producers[p]} | p in s.producers && s.producers[p].Pushing? ::
          p in s'.producers && s'.producers[p].Pushing? && s'.producers[p].node == s.producers[p].node)
    && PollerOk(s')
    && (forall n {:trigger Holds(s'.poller, n)} | n in s.nodes :: Holds(s'.poller, n) <==> Holds(s.poller, n))
  }

  lemma QuietKeepsOwned(s: State, s': State)
    requires Owned(s) && Quiet(s, s')
    ensures Owned(s')
  {
    forall n | n in s'.nodes
      ensures NodeOk(s', n)
    {
      OwnedNode(s, n);
      assert Holds(s'.poller, n) <==> Holds(s.poller, n);
    }
    forall p | p in s'.producers
      ensures ProducerOk(s', p)
    {
      if s'.producers[p].Pushing? {
        OwnedProducer(s, p);
      }
    }
  }

  lemma QuietKeepsChained(s: State, s': State)
    requires Chained(s) && Quiet(s, s')
    ensures Chained(s')
  {
    forall i | 0 <= i < |s.hist.chain|
      ensures LinkOk(s', s'.hist.chain, i)
    {
      assert LinkOk(s, s.hist.chain, i);
    }
    forall i | 0 <= i < |s.hist.drained|
      ensures LinkOk(s', s'.hist.drained, i)
    {
      assert LinkOk(s, s.hist.drained, i);
    }
  }

  lemma StoreIsQuiet(s: State, p: Pid, n: Node, ready: Ready)
    requires Owned(s) && CanStore(s, p, n, ready)
    ensures Quiet(s, Store(s, p, n, ready))
  {
    OwnedEverywhere(s);
  }

  /** The facts behind `Quiet`'s own quantifiers. */
  lemma OwnedEverywhere(s: State)
    requires Owned(s)
    ensures forall p {:trigger s.producers[p]} | p in s.producers :: ProducerOk(s, p)
    ensures PollerOk(s)
  {
    forall p | p in s.producers
      ensures ProducerOk(s, p)
    {
      OwnedProducer(s, p);
    }
  }

  lemma OtherProducerStepsAreQuiet(s: State, p: Pid, n: Node)
    requires Owned(s)
    ensures n in s.nodes ==> Quiet(s, StoreNone(s, n))
    ensures CanPush(s, p) && s.producers[p].push.LoadingHead? ==> Quiet(s, LoadHead(s, p))
    ensures CanWake(s, p) ==> Quiet(s, Wake(s, p))
  {
    OwnedEverywhere(s);
  }

  lemma RegistrationStepsAreQuiet(s: State, n: Node, reg: Registration)
    requires Owned(s)
    ensures s.poller.Outside? && n in s.nodes ==> Quiet(s, UpdateBegin(s, n, reg))
    ensures s.poller.UpdateReading? ==> s.poller.node in s.nodes && Quiet(s, UpdateRead(s))
    ensures PollerPushes(s) && s.poller.push.LoadingHead? ==> Quiet(s, PollerLoadHead(s))
  {
    OwnedEverywhere(s);
  }

  lemma PollStartIsQuiet(s: State)
    requires Owned(s)
    ensures s.poller.Outside? ==> Quiet(s, PollBegin(s))
    ensures s.poller.CheckingEmpty? ==> Quiet(s, CheckEmpty(s))
    ensures s.poller.Preparing? ==> Quiet(s, Prepare(s))
  {
    hide Owned;
    OwnedEverywhere(s);
  }

  lemma SelectIsQuiet(s: State)
    requires Owned(s)
    ensures s.poller.Selecting? ==> Quiet(s, SelectReturn(s, false)) && Quiet(s, SelectFail(s))
    ensures s.poller.Selecting? && s.byteUnread ==> Quiet(s, SelectReturn(s, true))
    ensures s.poller.CleaningUp? ==> Quiet(s, CleanUp(s))
  {
    hide Owned;
    OwnedEverywhere(s);
  }

  lemma ReadingIsQuiet(s: State)
    requires Owned(s)
    ensures s.poller.ReadingQueued? ==> s.poller.node in s.nodes && Quiet(s, ReadQueued(s))
    ensures s.poller.ReadingEvents? ==> s.poller.node in s.nodes && Quiet(s, ReadEvents(s))
  {
    hide Owned;
    OwnedEverywhere(s);
    if s.poller.ReadingQueued? {
      OwnedNode(s, s.poller.node);
    }
  }

  lemma ReportingIsQuiet(s: State)
    requires Owned(s)
    ensures s.poller.Rereading? ==> s.poller.node in s.nodes && Quiet(s, Reread(s))
    ensures s.poller.Reporting? ==> s.poller.node in s.nodes && Quiet(s, Report(s))
  {
    hide Owned;
    OwnedEverywhere(s);
  }

  // ----- steps that move a node -----

  lemma ClaimKeepsOwned(s: State, p: Pid)
    requires Owned(s) && CanClaim(s, p)
    ensures Owned(Claim(s, p))
  {
    var s' := Claim(s, p);
    OwnedNode(s, s.producers[p].node);
    forall m | m in s'.nodes
      ensures NodeOk(s', m)
    {
      OwnedNode(s, m);
    }
    forall q | q in s'.producers
      ensures ProducerOk(s', q)
    {
      OwnedProducer(s, q);
    }
  }

  lemma UpdateClaimKeepsOwned(s: State)
    requires Owned(s) && s.poller.UpdateQueuing? && s.poller.node in s.nodes
    ensures Owned(UpdateClaim(s))
  {
    var s' := UpdateClaim(s);
    OwnedNode(s, s.poller.node);
    forall m | m in s'.nodes
      ensures NodeOk(s', m)
    {
      OwnedNode(s, m);
    }
    forall q | q in s'.producers
      ensures ProducerOk(s', q)
    {
      OwnedProducer(s, q);
    }
  }

  lemma LinkKeepsOwned(s: State, p: Pid)
    requires Owned(s) && CanPush(s, p) && s.producers[p].push.Linking?
    ensures Owned(Link(s, p))
  {
    var s' := Link(s, p);
    OwnedProducer(s, p);
    forall m | m in s'.nodes
      ensures NodeOk(s', m)
    {
      OwnedNode(s, m);
    }
    forall q | q in s'.producers
      ensures ProducerOk(s', q)
    {
      OwnedProducer(s, q);
    }
  }

  lemma PollerLinkKeepsOwned(s: State)
    requires Owned(s) && PollerPushes(s) && s.poller.push.Linking?
    ensures Owned(PollerLink(s))
  {
    var s' := PollerLink(s);
    OwnedNode(s, s.poller.node);
    forall m | m in s'.nodes
      ensures NodeOk(s', m)
    {
      OwnedNode(s, m);
    }
    forall q | q in s'.producers
      ensures ProducerOk(s', q)
    {
      OwnedProducer(s, q);
    }
  }

  lemma PrependKeepsNode(s: State, p: Pid, m: Node)
    requires Owned(s) && CanPush(s, p) && s.producers[p].push.Prepending? && m in s.nodes
    ensures NodeOk(Prepend(s, p), m)
  {
    hide Owned;
    OwnedProducer(s, p);
    OwnedNode(s, m);
  }

  lemma PrependKeepsOwned(s: State, p: Pid)
    requires Owned(s) && CanPush(s, p) && s.producers[p].push.Prepending?
    ensures Owned(Prepend(s, p))
  {
    var s' := Prepend(s, p);
    OwnedProducer(s, p);
    forall m | m in s'.nodes
      ensures NodeOk(s', m)
    {
      PrependKeepsNode(s, p, m);
    }
    forall q | q in s'.producers
      ensures ProducerOk(s', q)
    {
      OwnedProducer(s, q);
    }
  }

  lemma PollerPrependKeepsOwned(s: State)
    requires Owned(s) && PollerPushes(s) && s.poller.push.Prepending?
    ensures Owned(PollerPrepend(s))
  {
    var s' := PollerPrepend(s);
    OwnedNode(s, s.poller.node);
    forall m | m in s'.nodes
      ensures NodeOk(s', m)
    {
      OwnedNode(s, m);
    }
    forall q | q in s'.producers
      ensures ProducerOk(s', q)
    {
      OwnedProducer(s, q);
    }
  }

  lemma NewNodeKeepsOwned(s: State, n: Node, reg: Registration)
    requires Owned(s) && Chained(s) && s.poller.Outside? && n !in s.nodes
    ensures Owned(NewNode(s, n, reg))
  {
    var s' := NewNode(s, n, reg);
    ChainedNodes(s);
    forall m | m in s'.nodes
      ensures NodeOk(s', m)
    {
      if m != n {
        OwnedNode(s, m);
      }
    }
    forall q | q in s'.producers
      ensures ProducerOk(s', q)
    {
      OwnedProducer(s, q);
    }
  }

  /** Chains are made of nodes. */
  lemma ChainedNodes(s: State)
    requires Chained(s)
    ensures forall n <- s.hist.chain :: n in s.nodes
    ensures forall n <- s.hist.drained :: n in s.nodes
  {
    forall n | n in s.hist.chain
      ensures n in s.nodes
    {
      var i :| 0 <= i < |s.hist.chain| && s.hist.chain[i] == n;
      assert LinkOk(s, s.hist.chain, i);
    }
    forall n | n in s.hist.drained
      ensures n in s.nodes
    {
      var i :| 0 <= i < |s.hist.drained| && s.hist.drained[i] == n;
      assert LinkOk(s, s.hist.drained, i);
    }
  }

  lemma TakeKeepsOwned(s: State)
    requires Owned(s) && s.poller.Taking? && s.hist.drained == []
    ensures Owned(Take(s))
  {
    var s' := Take(s);
    forall m | m in s'.nodes
      ensures NodeOk(s', m)
    {
      OwnedNode(s, m);
    }
    forall q | q in s'.producers
      ensures ProducerOk(s', q)
    {
      OwnedProducer(s, q);
    }
  }

  lemma NextNodeKeepsOwned(s: State)
    requires Owned(s) && Chained(s) && s.poller.Draining?
    ensures s.batch.To? ==> s.batch.node in s.nodes
    ensures Owned(NextNode(s))
  {
    if s.batch.To? {
      assert LinkOk(s, s.hist.drained, 0);
      var n := s.batch.node;
      OwnedNode(s, n);
      var s' := NextNode(s);
      forall m | m in s'.nodes
        ensures NodeOk(s', m)
      {
        OwnedNode(s, m);
        assert m in s.hist.drained <==> m == n || m in s.hist.drained[1..];
      }
      forall q | q in s'.producers
        ensures ProducerOk(s', q)
      {
        OwnedProducer(s, q);
      }
    } else {
      QuietKeepsOwned(s, NextNode(s)) by {
        OwnedEverywhere(s);
      }
    }
  }

  lemma DequeueKeepsOwned(s: State)
    requires Owned(s) && s.poller.Dequeuing? && s.poller.node in s.nodes
    ensures Owned(Dequeue(s))
    ensures Dequeue(s).poller == Rereading(s.poller.node)
  {
    var s' := Dequeue(s);
    OwnedNode(s, s.poller.node);
    forall m | m in s'.nodes
      ensures NodeOk(s', m)
    {
      OwnedNode(s, m);
    }
    forall q | q in s'.producers
      ensures ProducerOk(s', q)
    {
      OwnedProducer(s, q);
    }
  }

  // ----- chains -----

  lemma FrameChain(s: State, s': State, p: Ptr, c: seq<Node>)
    requires IsChain(s, p, c)
    requires forall n <- c :: n in s'.nodes && (n in s.nodes ==> s'.nodes[n].next == s.nodes[n].next)
    ensures IsChain(s', p, c)
  {
    forall i | 0 <= i < |c|
      ensures LinkOk(s', c, i)
    {
      assert LinkOk(s, c, i);
    }
  }

  lemma FrameChained(s: State, s': State)
    requires Chained(s)
    requires LinkFor(s'.head) == LinkFor(s.head) && s'.batch == s.batch
    requires s'.hist.chain == s.hist.chain && s'.hist.drained == s.hist.drained
    requires forall n <- s.hist.chain :: n in s'.nodes && (n in s.nodes ==> s'.nodes[n].next == s.nodes[n].next)
    requires forall n <- s.hist.drained :: n in s'.nodes && (n in s.nodes ==> s'.nodes[n].next == s.nodes[n].next)
    ensures Chained(s')
  {
    FrameChain(s, s', LinkFor(s.head), s.hist.chain);
    FrameChain(s, s', s.batch, s.hist.drained);
  }

  lemma ClaimKeepsChained(s: State, p: Pid)
    requires Chained(s) && CanClaim(s, p)
    ensures Chained(Claim(s, p))
  {
    ChainedNodes(s);
    FrameChained(s, Claim(s, p));
  }

  lemma UpdateClaimKeepsChained(s: State)
    requires Chained(s) && s.poller.UpdateQueuing? && s.poller.node in s.nodes
    ensures Chained(UpdateClaim(s))
  {
    ChainedNodes(s);
    FrameChained(s, UpdateClaim(s));
  }

  lemma DequeueKeepsChained(s: State)
    requires Chained(s) && s.poller.Dequeuing? && s.poller.node in s.nodes
    ensures Chained(Dequeue(s))
  {
    ChainedNodes(s);
    FrameChained(s, Dequeue(s));
  }

  lemma NewNodeKeepsChained(s: State, n: Node, reg: Registration)
    requires Chained(s) && s.poller.Outside? && n !in s.nodes
    ensures Chained(NewNode(s, n, reg))
  {
    ChainedNodes(s);
    FrameChained(s, NewNode(s, n, reg));
  }

  lemma LinkKeepsChained(s: State, p: Pid)
    requires Owned(s) && Chained(s) && CanPush(s, p) && s.producers[p].push.Linking?
    ensures Chained(Link(s, p))
  {
    OwnedProducer(s, p);
    ChainedNodes(s);
    FrameChained(s, Link(s, p));
  }

  lemma PollerLinkKeepsChained(s: State)
    requires Owned(s) && Chained(s) && PollerPushes(s) && s.poller.push.Linking?
    ensures Chained(PollerLink(s))
  {
    OwnedNode(s, s.poller.node);
    ChainedNodes(s);
    FrameChained(s, PollerLink(s));
  }

  /** A node whose link was written for the current head goes in front of the chain. */
  lemma PrependedKeepsChained(s: State, n: Node)
    requires Chained(s) && n in s.nodes && n !in s.hist.chain && n !in s.hist.drained
    requires s.nodes[n].next == LinkFor(s.head)
    ensures Chained(Prepended(s, n))
  {
    var s', c' := Prepended(s, n), [n] + s.hist.chain;
    ChainedNodes(s);
    forall i | 0 <= i < |c'|
      ensures LinkOk(s', c', i)
    {
      if i > 0 {
        assert LinkOk(s, s.hist.chain, i - 1);
      }
    }
    FrameChain(s, s', s.batch, s.hist.drained);
  }

  lemma PrependKeepsChained(s: State, p: Pid)
    requires Owned(s) && Chained(s) && CanPush(s, p) && s.producers[p].push.Prepending?
    ensures Chained(Prepend(s, p))
  {
    OwnedProducer(s, p);
    ChainedNodes(s);
    var s' := Prepend(s, p);
    if s.head == s.producers[p].push.curr {
      PrependedKeepsChained(s, s.producers[p].node);
      FrameChained(Prepended(s, s.producers[p].node), s') by {
        ChainedNodes(Prepended(s, s.producers[p].node));
      }
    } else {
      FrameChained(s, s');
    }
  }

  lemma PollerPrependKeepsChained(s: State)
    requires Owned(s) && Chained(s) && PollerPushes(s) && s.poller.push.Prepending?
    ensures Chained(PollerPrepend(s))
  {
    OwnedNode(s, s.poller.node);
    ChainedNodes(s);
    var s' := PollerPrepend(s);
    if s.head == s.poller.push.curr {
      PrependedKeepsChained(s, s.poller.node);
      FrameChained(Prepended(s, s.poller.node), s') by {
        ChainedNodes(Prepended(s, s.poller.node));
      }
    } else {
      FrameChained(s, s');
    }
  }

  lemma TakeKeepsChained(s: State)
    requires Chained(s) && s.poller.Taking?
    ensures Chained(Take(s))
  {
    ChainedNodes(s);
    FrameChain(s, Take(s), LinkFor(s.head), s.hist.chain);
  }

  lemma NextNodeKeepsChained(s: State)
    requires Owned(s) && Chained(s) && s.poller.Draining? && (s.batch.To? ==> s.batch.node in s.nodes)
    ensures Chained(NextNode(s))
  {
    ChainedNodes(s);
    var s', c := NextNode(s), s.hist.drained;
    if s.batch.To? {
      assert LinkOk(s, c, 0);
      OwnedNode(s, c[0]);
      FrameChain(s, s', LinkFor(s.head), s.hist.chain);
      forall i | 0 <= i < |c| - 1
        ensures LinkOk(s', c[1..], i)
      {
        assert LinkOk(s, c, i + 1);
      }
    } else {
      FrameChained(s, s');
    }
  }
}
