/** The guarantees of the readiness queue, for every state of every run of `ReadinessSteps`. */
module ReadinessTheorems {
  import opened ReadinessSteps
  import opened ReadinessInvariant
  import opened ReadinessQueueRuns

  // ----- no notification is lost -----

  /** The poller's step from `s` reads the events of `n`. */
  predicate ReadsEvents(s: State, s': State, n: Node) {
    || (s.poller.ReadingEvents? && s.poller.node == n && n in s.nodes && s' == ReadEvents(s))
    || (s.poller == Rereading(n) && n in s.nodes && s' == Reread(s))
  }

  lemma UnseenStays(s: State, s': State, n: Node)
    requires Step(s, s') && n in s.nodes && s.nodes[n].unseen && !ReadsEvents(s, s', n)
    ensures n in s'.nodes && s'.nodes[n].unseen
  {
    hide SleepStep, DrainStep;
    if p, m, ready :| ProducerStepBy(s, p, m, ready, s') {
      UnseenStaysByProducer(s, p, m, ready, s', n);
    } else if m, reg :| RegistrationStepFor(s, m, reg, s') {
    } else {
      UnseenStaysInPoll(s, s', n);
    }
  }

  lemma UnseenStaysByProducer(s: State, p: Pid, m: Node, ready: Ready, s': State, n: Node)
    requires ProducerStepBy(s, p, m, ready, s') && n in s.nodes && s.nodes[n].unseen
    ensures n in s'.nodes && s'.nodes[n].unseen
  {
  }

  lemma UnseenStaysInPoll(s: State, s': State, n: Node)
    requires (SleepStep(s, s') || DrainStep(s, s')) && n in s.nodes && s.nodes[n].unseen && !ReadsEvents(s, s', n)
    ensures n in s'.nodes && s'.nodes[n].unseen
  {
  }

  lemma {:induction false} UnseenUntilRead(states: seq<State>, i: nat, k: nat, n: Node)
    requires Run(states) && i <= k < |states|
    requires n in states[i].nodes && states[i].nodes[n].unseen
    requires forall j {:trigger states[j]} | i <= j < k :: !ReadsEvents(states[j], states[j + 1], n)
    ensures n in states[k].nodes && states[k].nodes[n].unseen
    decreases k - i
  {
    hide Step, ReadsEvents;
    if i < k {
      UnseenUntilRead(states, i, k - 1, n);
      var j := k - 1;
      assert Step(states[j], states[j + 1]);
      assert !ReadsEvents(states[j], states[j + 1], n);
      UnseenStays(states[k - 1], states[k], n);
    }
  }

  /** Once a producer has stored a non-empty readiness, then until the poller reads the node's
      events, the node is queued and on its way through the queue, or the poller is about to read
      it again after dequeuing it, or a storing thread has yet to try to queue it. */
  lemma NoNotificationLost(states: seq<State>, i: nat, k: nat, p: Pid, n: Node, ready: Ready)
    requires Run(states) && i < k < |states|
    requires CanStore(states[i], p, n, ready) && states[i + 1] == Store(states[i], p, n, ready)
    requires forall j {:trigger states[j]} | i < j < k :: !ReadsEvents(states[j], states[j + 1], n)
    ensures var s := states[k];
            && n in s.nodes
            && (|| (s.nodes[n].queued && InQueue(s, n))
                || s.poller == Rereading(n)
                || exists q :: q in s.producers && s.producers[q] == Stored(n))
  {
    hide Step;
    UnseenUntilRead(states, i + 1, k, n);
    RunKeepsInvariant(states, k);
    assert OnItsWay(states[k], n);
    QueuedIsOwned(states[k], n);
  }

  // ----- single ownership -----

  /** Some producer is pushing `n`, or the head's chain, the poller's list or the poller itself has it. */
  ghost predicate InQueue(s: State, n: Node) {
    || (exists p :: Pushes(s, p, n))
    || n in s.hist.chain
    || n in s.hist.drained
    || Holds(s.poller, n)
  }

  predicate Pushes(s: State, p: Pid, n: Node) {
    p in s.producers && s.producers[p].Pushing? && s.producers[p].node == n
  }

  /** No two of the four at once, and not two producers. */
  ghost predicate InOnePlace(s: State, n: Node) {
    && (forall p, q :: Pushes(s, p, n) && Pushes(s, q, n) ==> p == q)
    && !((exists p :: Pushes(s, p, n)) && (n in s.hist.chain || n in s.hist.drained || Holds(s.poller, n)))
    && !(n in s.hist.chain && (n in s.hist.drained || Holds(s.poller, n)))
    && !(n in s.hist.drained && Holds(s.poller, n))
  }

  lemma QueuedIsOwned(s: State, n: Node)
    requires Owned(s) && n in s.nodes
    ensures s.nodes[n].queued <==> InQueue(s, n)
    ensures s.nodes[n].queued <==> s.nodes[n].owner != Free
    ensures InOnePlace(s, n)
  {
    OwnedNode(s, n);
    if s.nodes[n].owner.Pusher? {
      assert Pushes(s, s.nodes[n].owner.pid, n);
    }
    forall p | Pushes(s, p, n)
      ensures s.nodes[n].owner == Pusher(p)
    {
      OwnedProducer(s, p);
    }
  }

  /** `queued` is set exactly when the node is in one place of the queue, and it is in one place
      only; the head leads through exactly the nodes of `chain`, the poller's pointer through
      exactly those of `drained`, without repetition and without the sleep token. */
  lemma SingleOwnership(states: seq<State>, k: nat, n: Node)
    requires Run(states) && k < |states| && n in states[k].nodes
    ensures states[k].nodes[n].queued <==> InQueue(states[k], n)
    ensures InOnePlace(states[k], n)
    ensures IsChain(states[k], LinkFor(states[k].head), states[k].hist.chain)
    ensures IsChain(states[k], states[k].batch, states[k].hist.drained)
  {
    RunKeepsInvariant(states, k);
    QueuedIsOwned(states[k], n);
  }

  /** So the poller's dequeuing compare-and-swap succeeds the first time. */
  lemma DequeueSucceedsAtOnce(states: seq<State>, k: nat)
    requires Run(states) && k < |states| && states[k].poller.Dequeuing?
    ensures var s := states[k];
            && s.poller.node in s.nodes && s.nodes[s.poller.node].queued && s.poller.wasQueued
            && Dequeue(s).poller == Rereading(s.poller.node)
  {
    RunKeepsInvariant(states, k);
    DequeueKeepsOwned(states[k]);
    OwnedNode(states[k], states[k].poller.node);
  }

  /** One poll goes through exactly the nodes it swapped out at its start, each once, although
      level-triggered nodes go back on the queue meanwhile, and reports each at most once. */
  lemma OneReportPerPoll(states: seq<State>, k: nat)
    requires Run(states) && k < |states|
    ensures var h := states[k].hist;
            && (forall i | 0 <= i < |h.reported| :: h.reported[i].node in h.swapped)
            && (forall i, j | 0 <= i < j < |h.reported| :: h.reported[i].node != h.reported[j].node)
            && h.taken <= h.swapped && (!InDrain(states[k].poller) ==> h.taken == h.swapped)
  {
    RunKeepsInvariant(states, k);
  }

  // ----- no lost wakeup -----

  /** While the poller sleeps and its token is gone, the awakener's byte is unread or a producer is
      about to write it; and no sleep is ended by two producers. */
  lemma NoLostWakeup(states: seq<State>, k: nat)
    requires Run(states) && k < |states|
    ensures var s := states[k];
            && (s.poller == Selecting(true) && s.head != SleepToken ==>
                  s.byteUnread || exists p :: p in s.producers && s.producers[p].Waking?)
            && (forall i, j | 0 <= i < j < |s.hist.told| :: s.hist.told[i] != s.hist.told[j])
            && (forall i | 0 <= i < |s.hist.told| :: s.hist.told[i] <= s.hist.sleeps)
  {
    RunKeepsInvariant(states, k);
  }

  /** Put together: when no producer is in the middle of a call, a sleeping poller with an unread
      notification has been woken. */
  lemma NeverSleepsOnANotification(states: seq<State>, k: nat, n: Node)
    requires Run(states) && k < |states|
    requires n in states[k].nodes && states[k].nodes[n].unseen
    requires states[k].poller == Selecting(true) && states[k].producers == map[]
    ensures states[k].byteUnread
  {
    RunKeepsInvariant(states, k);
    var s := states[k];
    OwnedNode(s, n);
    assert OnItsWay(s, n);
    assert n in s.hist.chain;
    assert s.head.To?;
  }

  // ----- the poller's own pushes -----

  /** When the poller's own push succeeds, it is told that a wakeup is needed exactly when a `select`
      has failed while the sleep token was in place and nothing has been queued since; that is never
      so in the loop of `poll`. */
  lemma NeedsWakeupExactly(states: seq<State>, k: nat)
    requires Run(states) && k < |states|
    requires PollerPushes(states[k]) && states[k].poller.push == Prepending(states[k].head)
    ensures NeedsWakeup(states[k]) <==> states[k].hist.failedAsleep && states[k].hist.chain == []
    ensures NeedsWakeup(states[k]) ==> states[k].poller.UpdatePushing?
  {
    RunKeepsInvariant(states, k);
  }

  ghost predicate Reachable(s: State) {
    exists states :: Run(states) && states[|states| - 1] == s
  }

  lemma ReachStep(s: State, s': State)
    requires Reachable(s) && Step(s, s')
    ensures Reachable(s')
  {
    hide Step;
    var states :| Run(states) && states[|states| - 1] == s;
    var longer := states + [s'];
    forall i {:trigger longer[i + 1]} | 0 <= i < |longer| - 1
      ensures Step(longer[i], longer[i + 1])
    {
      if i < |states| - 1 {
        assert Step(states[i], states[i + 1]);
      }
    }
    assert Run(longer);
  }

  lemma ReachProducerStep(s: State, p: Pid, n: Node, ready: Ready, s': State)
    requires Reachable(s) && ProducerStepBy(s, p, n, ready, s')
    ensures Reachable(s')
  {
    hide ProducerStepBy;
    assert ProducerStep(s, s');
    ReachStep(s, s');
  }

  lemma ReachRegistrationStep(s: State, n: Node, reg: Registration, s': State)
    requires Reachable(s) && RegistrationStepFor(s, n, reg, s')
    ensures Reachable(s')
  {
    hide RegistrationStepFor;
    assert RegistrationStep(s, s');
    ReachStep(s, s');
  }

  /** An empty queue, one node, and a `select` that fails after the poller has prepared to sleep. */
  lemma FailedSleep(reg: Registration)
    ensures Reachable(State(map[0 := NodeState({}, false, Null, reg, Free, false)], SleepToken, Null, false, map[],
              Outside,
                            History([], [], 1, [], true, {}, {}, [])))
  {
    var h := History([], [], 0, [], false, {}, {}, []);
    var s0 := State(map[], Null, Null, false, map[], Outside, h);
    assert Run([s0]);
    var s1 := NewNode(s0, 0, reg);
    ReachRegistrationStep(s0, 0, reg, s1);
    ReachStep(s1, PollBegin(s1));
    var s2 := PollBegin(s1);
    ReachStep(s2, CheckEmpty(s2));
    var s3 := CheckEmpty(s2);
    ReachStep(s3, Prepare(s3));
    var s4 := Prepare(s3);
    ReachStep(s4, SelectFail(s4));
    assert s1.nodes == map[0 := NodeState({}, false, Null, reg, Free, false)];
  }

  /** In that case the assertion in `update` does fail: the push says that a wakeup is needed. */
  lemma NeedsWakeupCanHappen(reg: Registration)
    ensures exists s :: Reachable(s) && NeedsWakeup(s)
  {
    FailedSleep(reg);
    var node := NodeState({}, false, Null, reg, Free, false);
    var s0 := State(map[0 := node], SleepToken, Null, false, map[], Outside, History([], [], 1, [], true, {}, {}, []));
    var s1 := Store(s0, 0, 0, {1});
    ReachProducerStep(s0, 0, 0, {1}, s1);
    var s2 := UpdateBegin(s1, 0, reg);
    ReachRegistrationStep(s1, 0, reg, s2);
    var s3 := UpdateRead(s2);
    ReachRegistrationStep(s2, 0, reg, s3);
    var s4 := UpdateClaim(s3);
    ReachRegistrationStep(s3, 0, reg, s4);
    var s5 := PollerLoadHead(s4);
    ReachRegistrationStep(s4, 0, reg, s5);
    var s6 := PollerLink(s5);
    ReachRegistrationStep(s5, 0, reg, s6);
    assert NeedsWakeup(s6);
  }
}
