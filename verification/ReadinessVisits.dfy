/** What the poller of `ReadinessSteps` does with each node, in every interleaving: which events it pushes,
    which nodes it puts back, and what an update or an empty queue makes it do. */
module ReadinessVisits {
  import opened ReadinessSteps
  import opened ReadinessInvariant
  import opened ReadinessQueueRuns
  import opened ReadinessTheorems

  // ----- what the steps of others leave alone -----

  /** No node goes, and the poller and the events it has pushed stay the same. */
  predicate LeavesVisit(s: State, s': State) {
    && s'.poller == s.poller && s'.hist.reported == s.hist.reported
    && forall n {:trigger s.nodes[n]} | n in s.nodes :: n in s'.nodes && s'.nodes[n].reg == s.nodes[n].reg
  }

  lemma ProducerLeavesVisit(s: State, p: Pid, m: Node, ready: Ready, s': State)
    requires ProducerStepBy(s, p, m, ready, s')
    ensures LeavesVisit(s, s')
  {
    if p in s.producers {
      match s.producers[p]
      case Stored(_) =>
      case Pushing(_, push) =>
        if push.LoadingHead? {
        } else if push.Linking? {
        } else {
        }
      case Waking(_) =>
    }
  }

  lemma ProducerKeepsQueued(s: State, p: Pid, m: Node, ready: Ready, s': State, n: Node)
    requires ProducerStepBy(s, p, m, ready, s') && n in s.nodes
    ensures n in s'.nodes && (s.nodes[n].queued ==> s'.nodes[n].queued)
    ensures s'.nodes[n].queued && !s.nodes[n].queued ==> p in s.producers && s.producers[p] == Stored(n)
    ensures n in s.hist.chain ==> n in s'.hist.chain
  {
    if p in s.producers {
      match s.producers[p]
      case Stored(_) =>
      case Pushing(_, push) =>
        if push.LoadingHead? {
        } else if push.Linking? {
        } else {
        }
      case Waking(_) =>
    }
  }

  // ----- the event of a visit -----

  /** The bits a read of `n` finds. */
  function Found(s: State, n: Node): Ready
    requires n in s.nodes
  {
    s.nodes[n].events * s.nodes[n].reg.interest
  }

  /** The poller is about to read `n` for the last time before it is done with it: again after dequeuing
      it, or the first time if it is level-triggered and ready. */
  predicate LastRead(s: State, n: Node) {
    && n in s.nodes
    && (|| s.poller == Rereading(n)
        || (s.poller.ReadingEvents? && s.poller.node == n && !s.nodes[n].reg.edge && Found(s, n) != {}))
  }

  /** The poller has read `seen` for the last time and is not yet done with `n`. */
  predicate InVisit(s: State, n: Node, seen: Ready, reg: Registration, reported: seq<Event>) {
    && (s.poller.Requeuing? || s.poller.Reporting?) && s.poller.node == n && s.poller.seen == seen
    && n in s.nodes && s.nodes[n].reg == reg && s.hist.reported == reported
  }

  /** The poller is done with `n`. */
  predicate Visited(s: State, n: Node, seen: Ready, reg: Registration, reported: seq<Event>) {
    && s.poller.Draining? && n in s.nodes
    && s.hist.reported == reported + (if seen == {} then [] else [Event(n, seen, reg.token)])
    && s.nodes[n].reg.token == reg.token
    && (if seen != {} && reg.oneshot then s.nodes[n].reg.interest == {} else s.nodes[n].reg == reg)
  }

  lemma StartVisit(s: State, s': State, n: Node)
    requires LastRead(s, n) && Step(s, s') && s'.poller != s.poller
    ensures InVisit(s', n, Found(s, n), s.nodes[n].reg, s.hist.reported)
  {
    hide ProducerStepBy;
    if p, m, ready :| ProducerStepBy(s, p, m, ready, s') {
      ProducerLeavesVisit(s, p, m, ready, s');
    }
  }

  lemma PushStep(s: State, m: Node, r: Registration, s': State,
                 n: Node, seen: Ready, reg: Registration, reported: seq<Event>)
    requires InVisit(s, n, seen, reg, reported) && RegistrationStepFor(s, m, r, s')
    ensures InVisit(s', n, seen, reg, reported)
  {
  }

  lemma VisitStep(s: State, s': State, n: Node, seen: Ready, reg: Registration, reported: seq<Event>)
    requires InVisit(s, n, seen, reg, reported) && Step(s, s')
    ensures InVisit(s', n, seen, reg, reported) || Visited(s', n, seen, reg, reported)
  {
    hide ProducerStepBy, RegistrationStepFor;
    if p, m, ready :| ProducerStepBy(s, p, m, ready, s') {
      ProducerLeavesVisit(s, p, m, ready, s');
    } else if m, r :| RegistrationStepFor(s, m, r, s') {
      PushStep(s, m, r, s', n, seen, reg, reported);
    }
  }

  lemma {:induction false} VisitGoesOn(states: seq<State>, j: nat, k: nat, n: Node)
    requires Run(states) && j < k < |states| && LastRead(states[j], n) && states[j + 1].poller != states[j].poller
    requires forall i | j < i < k :: !states[i].poller.Draining?
    ensures var seen, reg, reported := Found(states[j], n), states[j].nodes[n].reg, states[j].hist.reported;
            InVisit(states[k], n, seen, reg, reported) || Visited(states[k], n, seen, reg, reported)
    decreases k
  {
    hide Step, Init, InVisit, Visited;
    var i := k - 1;
    assert Step(states[i], states[i + 1]);
    if i == j {
      StartVisit(states[j], states[k], n);
    } else {
      VisitGoesOn(states, j, i, n);
      NotVisited(states[i], n, Found(states[j], n), states[j].nodes[n].reg, states[j].hist.reported);
      VisitStep(states[i], states[k], n, Found(states[j], n), states[j].nodes[n].reg, states[j].hist.reported);
    }
  }

  lemma NotVisited(s: State, n: Node, seen: Ready, reg: Registration, reported: seq<Event>)
    requires !s.poller.Draining?
    ensures !Visited(s, n, seen, reg, reported)
  {
  }

  /** In every interleaving: when the poller is done with a node, it has pushed exactly one event for it if
      its last read found bits the node's interest asks for, with these bits and the node's token, and none
      if it found nothing; a oneshot node that got an event has lost its interest, and nothing else of the
      registration has changed. */
  lemma VisitReports(states: seq<State>, j: nat, k: nat, n: Node)
    requires Run(states) && j < k < |states| && LastRead(states[j], n) && states[j + 1].poller != states[j].poller
    requires (forall i | j < i < k :: !states[i].poller.Draining?) && states[k].poller.Draining?
    ensures n in states[k].nodes
    ensures var seen, reg := states[j].nodes[n].events * states[j].nodes[n].reg.interest, states[j].nodes[n].reg;
            && states[k].hist.reported
               == states[j].hist.reported + (if seen == {} then [] else [Event(n, seen, reg.token)])
            && states[k].nodes[n].reg.token == reg.token
            && (if seen != {} && reg.oneshot then states[k].nodes[n].reg.interest == {}
                else states[k].nodes[n].reg == reg)
  {
    hide Step, Init;
    VisitGoesOn(states, j, k, n);
  }

  // ----- which nodes go back on the list -----

  /** A level-triggered node that was ready at the first read: about to be put back, or back. */
  predicate GoingBack(s: State, n: Node) {
    (s.poller.Requeuing? && s.poller.node == n) || n in s.hist.chain
  }

  lemma GoingBackStep(s: State, s': State, n: Node)
    requires GoingBack(s, n) && Step(s, s') && InDrain(s.poller) && n in s.nodes
    ensures GoingBack(s', n) && n in s'.nodes
  {
    hide ProducerStepBy;
    if p, m, ready :| ProducerStepBy(s, p, m, ready, s') {
      ProducerLeavesVisit(s, p, m, ready, s');
      ProducerKeepsQueued(s, p, m, ready, s', n);
    } else if m, r :| RegistrationStepFor(s, m, r, s') {
    }
  }

  lemma StartGoingBack(s: State, s': State, n: Node)
    requires s.poller.ReadingEvents? && LastRead(s, n) && Step(s, s') && s'.poller != s.poller
    ensures GoingBack(s', n) && n in s'.nodes && InDrain(s'.poller)
  {
    hide ProducerStepBy;
    if p, m, ready :| ProducerStepBy(s, p, m, ready, s') {
      ProducerLeavesVisit(s, p, m, ready, s');
    }
  }

  /** A level-triggered node that is ready when the poller first reads it is on the list for the next poll
      as soon as the poller is done with it, and to the end of the poll. */
  lemma {:induction false} LevelGoesBack(states: seq<State>, j: nat, k: nat, n: Node)
    requires Run(states) && j < k < |states|
    requires states[j].poller.ReadingEvents? && LastRead(states[j], n) && states[j + 1].poller != states[j].poller
    requires forall i | j < i < k :: InDrain(states[i].poller)
    ensures GoingBack(states[k], n) && n in states[k].nodes
    ensures !states[k].poller.Requeuing? ==> n in states[k].hist.chain
    decreases k
  {
    hide Step, Init, LastRead;
    var i := k - 1;
    assert Step(states[i], states[i + 1]);
    if i == j {
      StartGoingBack(states[j], states[k], n);
    } else {
      LevelGoesBack(states, j, i, n);
      GoingBackStep(states[i], states[k], n);
    }
  }

  predicate WorthRequeuing(s: State) {
    s.poller.Requeuing? ==>
      s.poller.node in s.nodes && !s.nodes[s.poller.node].reg.edge && s.poller.seen != {}
  }

  lemma WorthStep(s: State, s': State)
    requires WorthRequeuing(s) && Step(s, s')
    ensures WorthRequeuing(s')
  {
    hide ProducerStepBy;
    if p, m, ready :| ProducerStepBy(s, p, m, ready, s') {
      ProducerLeavesVisit(s, p, m, ready, s');
    } else if m, r :| RegistrationStepFor(s, m, r, s') {
    }
  }

  /** The poller puts back only nodes that are level-triggered and ready; all others it dequeues. */
  lemma {:induction false} RequeuesOnlyReady(states: seq<State>, k: nat)
    requires Run(states) && k < |states|
    ensures WorthRequeuing(states[k])
  {
    hide Step;
    if k > 0 {
      var i := k - 1;
      RequeuesOnlyReady(states, i);
      assert Step(states[i], states[i + 1]);
      WorthStep(states[i], states[k]);
    }
  }

  /** Some thread has stored a readiness of `n` and has yet to try to queue it. */
  ghost predicate ToBeQueued(s: State, n: Node) {
    exists p :: p in s.producers && s.producers[p] == Stored(n)
  }

  lemma VisitStepQueued(s: State, s': State, n: Node)
    requires (s.poller.Requeuing? || s.poller.Reporting?) && s.poller.node == n && n in s.nodes && Step(s, s')
    ensures n in s'.nodes && (s.nodes[n].queued ==> s'.nodes[n].queued)
    ensures s'.nodes[n].queued && !s.nodes[n].queued ==> ToBeQueued(s, n)
  {
    hide ProducerStepBy;
    if p, m, ready :| ProducerStepBy(s, p, m, ready, s') {
      ProducerKeepsQueued(s, p, m, ready, s', n);
    } else if m, r :| RegistrationStepFor(s, m, r, s') {
    }
  }

  lemma StartQueued(s: State, s': State, n: Node)
    requires LastRead(s, n) && Step(s, s') && s'.poller != s.poller
    ensures n in s'.nodes && s'.nodes[n].queued == s.nodes[n].queued
  {
    hide ProducerStepBy;
    if p, m, ready :| ProducerStepBy(s, p, m, ready, s') {
      ProducerLeavesVisit(s, p, m, ready, s');
    }
  }

  /** After the last read the poller itself neither queues nor dequeues: the node is queued when the poller
      is done with it exactly if it was queued at that read, unless a producer queues it meanwhile. */
  lemma {:induction false} QueuedExactly(states: seq<State>, j: nat, k: nat, n: Node)
    requires Run(states) && j < k < |states| && LastRead(states[j], n) && states[j + 1].poller != states[j].poller
    requires forall i | j < i < k :: !states[i].poller.Draining?
    ensures n in states[k].nodes && (states[j].nodes[n].queued ==> states[k].nodes[n].queued)
    ensures (forall i | j < i < k :: !ToBeQueued(states[i], n)) ==>
              (states[k].nodes[n].queued <==> states[j].nodes[n].queued)
    decreases k
  {
    hide Step, Init, LastRead, ToBeQueued;
    var i := k - 1;
    assert Step(states[i], states[i + 1]);
    if i == j {
      StartQueued(states[j], states[k], n);
    } else {
      QueuedExactly(states, j, i, n);
      VisitGoesOn(states, j, i, n);
      VisitStepQueued(states[i], states[k], n);
    }
  }

  // ----- a level-triggered node can be forgotten -----

  /** Nobody has `n` queued or is about to. */
  ghost predicate Forgotten(s: State, n: Node) {
    && n in s.nodes && !s.nodes[n].queued && !ToBeQueued(s, n)
    && !((s.poller.Rereading? || s.poller.Reporting? || s.poller.UpdateReading? || s.poller.UpdateQueuing?)
         && s.poller.node == n)
  }

  /** Then no poll ever looks at it again, until it is updated or a readiness is stored. */
  lemma ForgottenStep(s: State, s': State, n: Node)
    requires Owned(s) && Chained(s) && Forgotten(s, n) && Step(s, s')
    requires !ToBeQueued(s', n) && s'.poller != UpdateReading(n)
    ensures Forgotten(s', n)
  {
    hide ProducerStepBy, RegistrationStepFor, SleepStep, DrainStep, Owned, Chained, ToBeQueued, Forgotten;
    if p, m, ready :| ProducerStepBy(s, p, m, ready, s') {
      ForgottenByProducer(s, p, m, ready, s', n);
    } else if m, r :| RegistrationStepFor(s, m, r, s') {
      ForgottenByRegistration(s, m, r, s', n);
    } else if SleepStep(s, s') {
      ForgottenBySleep(s, s', n);
    } else {
      ForgottenByDrain(s, s', n);
    }
  }

  lemma ForgottenByProducer(s: State, p: Pid, m: Node, ready: Ready, s': State, n: Node)
    requires Forgotten(s, n) && ProducerStepBy(s, p, m, ready, s') && !ToBeQueued(s', n)
    ensures Forgotten(s', n)
  {
    hide ProducerStepBy;
    ProducerLeavesVisit(s, p, m, ready, s');
    ProducerKeepsQueued(s, p, m, ready, s', n);
  }

  lemma ForgottenByRegistration(s: State, m: Node, r: Registration, s': State, n: Node)
    requires Owned(s) && Forgotten(s, n) && RegistrationStepFor(s, m, r, s')
    requires !ToBeQueued(s', n) && s'.poller != UpdateReading(n)
    ensures Forgotten(s', n)
  {
    hide Owned, ToBeQueued;
    OwnedNode(s, n);
  }

  lemma ForgottenBySleep(s: State, s': State, n: Node)
    requires Forgotten(s, n) && SleepStep(s, s') && !ToBeQueued(s', n)
    ensures Forgotten(s', n)
  {
    hide ToBeQueued;
  }

  lemma ForgottenByDrain(s: State, s': State, n: Node)
    requires Owned(s) && Chained(s) && Forgotten(s, n) && DrainStep(s, s') && !ToBeQueued(s', n)
    ensures Forgotten(s', n)
  {
    hide Owned, Chained, ToBeQueued;
    OwnedNode(s, n);
    if s.poller.Draining? && s.batch.To? {
      FirstOfBatch(s);
    }
  }

  lemma FirstOfBatch(s: State)
    requires Chained(s) && s.batch.To?
    ensures s.batch.node in s.hist.drained
  {
  }

  /** The node of the failing run: level-triggered, interested in bit 1. */
  function Wanting(events: Ready, queued: bool, owner: Owner, unseen: bool): NodeState {
    NodeState(events, queued, Null, Registration(7, {1}, false, false), owner, unseen)
  }

  function With(node: NodeState, head: Ptr, producers: map<Pid, Producer>, poller: Poller, hist: History): State {
    State(map[0 := node], head, Null, false, producers, poller, hist)
  }

  /** A node queued for a readiness it has no interest in. */
  lemma ReachQueued()
    ensures Reachable(With(Wanting({2}, true, Chain, true), To(0), map[], Outside,
                           History([0], [], 0, [], false, {}, {}, [])))
  {
    hide Reachable, Step, ProducerStepBy, RegistrationStepFor;
    var h := History([], [], 0, [], false, {}, {}, []);
    var s0 := State(map[], Null, Null, false, map[], Outside, h);
    ReachInit(s0);
    var s1 := With(Wanting({}, false, Free, false), Null, map[], Outside, h);
    assert RegistrationStepFor(s0, 0, Registration(7, {1}, false, false), s1) by {
      StepNew(s0, s1);
    }
    ReachRegistrationStep(s0, 0, Registration(7, {1}, false, false), s1);
    ReachPushed(s1);
  }

  lemma ReachInit(s: State)
    requires Init(s)
    ensures Reachable(s)
  {
    assert Run([s]);
  }

  lemma StepNew(s: State, s': State)
    requires s == State(map[], Null, Null, false, map[], Outside, History([], [], 0, [], false, {}, {}, []))
    requires s' == With(Wanting({}, false, Free, false), Null, map[], Outside, s.hist)
    ensures RegistrationStepFor(s, 0, Registration(7, {1}, false, false), s')
  {
    assert s'.nodes == map[][0 := Wanting({}, false, Free, false)];
  }

  lemma ReachPushed(s1: State)
    requires Reachable(s1)
    requires s1 == With(Wanting({}, false, Free, false), Null, map[], Outside,
                        History([], [], 0, [], false, {}, {}, []))
    ensures Reachable(With(Wanting({2}, true, Chain, true), To(0), map[], Outside,
                           History([0], [], 0, [], false, {}, {}, [])))
  {
    hide Reachable, Step;
    var s2 := With(Wanting({2}, false, Free, true), Null, map[0 := Stored(0)], Outside, s1.hist);
    assert Store(s1, 0, 0, {2}) == s2;
    ReachProducerStep(s1, 0, 0, {2}, s2);
    var s3 := With(Wanting({2}, true, Pusher(0), true), Null, map[0 := Pushing(0, LoadingHead)], Outside, s1.hist);
    assert Claim(s2, 0) == s3;
    ReachProducerStep(s2, 0, 0, {2}, s3);
    var s4 := s3.(producers := map[0 := Pushing(0, Linking(Null))]);
    assert LoadHead(s3, 0) == s4;
    ReachProducerStep(s3, 0, 0, {2}, s4);
    var s5 := s3.(producers := map[0 := Pushing(0, Prepending(Null))]);
    assert Link(s4, 0) == s5;
    ReachProducerStep(s4, 0, 0, {2}, s5);
    var s6 := With(Wanting({2}, true, Chain, true), To(0), map[], Outside, s1.hist.(chain := [0]));
    assert s5.producers - {0} == map[] && [0] + s5.hist.chain == [0];
    assert Prepend(s5, 0) == s6;
    ReachProducerStep(s5, 0, 0, {2}, s6);
  }

  /** A poll has taken it off the list, read it and found nothing. */
  lemma ReachDequeuing()
    ensures Reachable(With(Wanting({2}, true, Hand, false), Null, map[], Dequeuing(0, true),
                           History([], [], 0, [], false, {0}, {0}, [])))
  {
    hide Reachable, Step;
    ReachQueued();
    var s1 := With(Wanting({2}, true, Chain, true), To(0), map[], Outside, History([0], [], 0, [], false, {}, {}, []));
    var s2 := PollBegin(s1);
    ReachBySleep(s1, s2);
    var s3 := CheckEmpty(s2);
    ReachBySleep(s2, s3);
    var s4 := SelectReturn(s3, false);
    ReachBySleep(s3, s4);
    var s5 := Take(s4);
    ReachBySleep(s4, s5);
    assert s5.nodes == map[0 := Wanting({2}, true, Batch, true)];
    assert s5.hist.swapped == {0};
    var s6 := NextNode(s5);
    ReachByDrain(s5, s6);
    assert s6 == With(Wanting({2}, true, Hand, true), Null, map[], ReadingQueued(0),
                      History([], [], 0, [], false, {0}, {0}, []));
    var s7 := ReadQueued(s6);
    ReachByDrain(s6, s7);
    ReachByDrain(s7, ReadEvents(s7));
    assert s7.nodes[0].PollEvents() == {};
    assert ReadEvents(s7).nodes == map[0 := Wanting({2}, true, Hand, false)];
  }

  lemma ReachBySleep(s: State, s': State)
    requires Reachable(s) && SleepStep(s, s')
    ensures Reachable(s')
  {
    hide SleepStep, Reachable, ProducerStep, RegistrationStep, DrainStep;
    ReachStep(s, s');
  }

  lemma ReachByDrain(s: State, s': State)
    requires Reachable(s) && DrainStep(s, s')
    ensures Reachable(s')
  {
    hide SleepStep, Reachable, ProducerStep, RegistrationStep, DrainStep;
    ReachStep(s, s');
  }

  /** It happens: a readiness stored between the poller's first read and its dequeuing is reported once, and
      the level-triggered node, still ready, is then forgotten. */
  lemma LevelCanBeForgotten()
    ensures exists s :: Reachable(s) && Forgotten(s, 0) && s.poller == Outside && s.producers == map[]
                        && !s.nodes[0].reg.edge && s.nodes[0].events * s.nodes[0].reg.interest == {1}
  {
    hide Reachable, Step;
    ReachDequeuing();
    var h := History([], [], 0, [], false, {0}, {0}, []);
    var s1 := With(Wanting({2}, true, Hand, false), Null, map[], Dequeuing(0, true), h);
    var s2 := With(Wanting({1}, true, Hand, true), Null, map[0 := Stored(0)], Dequeuing(0, true), h);
    assert Store(s1, 0, 0, {1}) == s2;
    ReachProducerStep(s1, 0, 0, {1}, s2);
    var s3 := s2.(producers := map[]);
    assert s2.producers - {0} == map[];
    ReachProducerStep(s2, 0, 0, {1}, s3);
    var s4 := With(Wanting({1}, false, Free, true), Null, map[], Rereading(0), h);
    assert Dequeue(s3) == s4;
    ReachByDrain(s3, s4);
    var s5 := With(Wanting({1}, false, Free, false), Null, map[], Reporting(0, {1}), h);
    assert s4.nodes[0].PollEvents() == {1};
    assert Reread(s4) == s5;
    ReachByDrain(s4, s5);
    var s6 := s5.(poller := Draining, hist := h.(reported := [Event(0, {1}, 7)]));
    assert Report(s5) == s6;
    ReachByDrain(s5, s6);
    var s7 := s6.(poller := Outside);
    ReachByDrain(s6, s7);
    assert Forgotten(s7, 0);
  }

  // ----- what is read is what was last stored -----

  /** The step stores readiness `ready` in `n`. */
  ghost predicate IsStore(s: State, s': State, n: Node, ready: Ready) {
    || (exists p :: CanStore(s, p, n, ready) && s' == Store(s, p, n, ready))
    || (n in s.nodes && ready == {} && s' == StoreNone(s, n))
  }

  ghost predicate Stores(s: State, s': State, n: Node) {
    exists ready :: IsStore(s, s', n, ready)
  }

  lemma StoreIsStored(s: State, s': State, n: Node, ready: Ready)
    requires IsStore(s, s', n, ready)
    ensures n in s'.nodes && s'.nodes[n].events == ready
  {
  }

  lemma ProducerEvents(s: State, p: Pid, m: Node, ready: Ready, s': State, n: Node)
    requires ProducerStepBy(s, p, m, ready, s') && n in s.nodes
    ensures n in s'.nodes
    ensures s'.nodes[n].events == s.nodes[n].events || IsStore(s, s', n, ready) || IsStore(s, s', n, {})
  {
    if p in s.producers {
      match s.producers[p]
      case Stored(_) =>
      case Pushing(_, push) =>
      case Waking(_) =>
    }
  }

  lemma StepKeepsEvents(s: State, s': State, n: Node)
    requires Step(s, s') && n in s.nodes && !Stores(s, s', n)
    ensures n in s'.nodes && s'.nodes[n].events == s.nodes[n].events
  {
    hide ProducerStepBy, IsStore;
    if p, m, ready :| ProducerStepBy(s, p, m, ready, s') {
      ProducerEvents(s, p, m, ready, s', n);
    } else if m, r :| RegistrationStepFor(s, m, r, s') {
    }
  }

  ghost predicate StoresAt(states: seq<State>, i: nat, n: Node)
    requires i + 1 < |states|
  {
    Stores(states[i], states[i + 1], n)
  }

  /** The readiness of a node is the one last stored, by any thread. */
  lemma {:induction false} EventsAreLastStored(states: seq<State>, i: nat, k: nat, n: Node, ready: Ready)
    requires Run(states) && i < k < |states| && IsStore(states[i], states[i + 1], n, ready)
    requires forall j {:trigger StoresAt(states, j, n)} | i < j < k :: !StoresAt(states, j, n)
    ensures n in states[k].nodes && states[k].nodes[n].events == ready
    decreases k
  {
    hide Step, Init, Stores, IsStore;
    if i + 1 == k {
      StoreIsStored(states[i], states[k], n, ready);
    } else {
      var j := k - 1;
      EventsAreLastStored(states, i, j, n, ready);
      assert Step(states[j], states[j + 1]);
      assert !StoresAt(states, j, n);
      StepKeepsEvents(states[j], states[k], n);
    }
  }

  // ----- the registration is that of the last update -----

  /** The step updates the registration of `n`. */
  predicate Updates(s: State, s': State, n: Node) {
    s.poller.Outside? && s'.poller == UpdateReading(n)
  }

  /** The step reports `n`, which is oneshot. */
  predicate Disarms(s: State, s': State, n: Node) {
    s.poller.Reporting? && s.poller.node == n && s.poller.seen != {} && s'.poller.Draining?
    && n in s.nodes && s.nodes[n].reg.oneshot
  }

  lemma StepKeepsRegistration(s: State, s': State, n: Node)
    requires Step(s, s') && n in s.nodes && !Updates(s, s', n) && !Disarms(s, s', n)
    ensures n in s'.nodes && s'.nodes[n].reg == s.nodes[n].reg
  {
    hide ProducerStepBy;
    if p, m, ready :| ProducerStepBy(s, p, m, ready, s') {
      ProducerLeavesVisit(s, p, m, ready, s');
    } else if m, r :| RegistrationStepFor(s, m, r, s') {
    }
  }

  predicate ChangesAt(states: seq<State>, i: nat, n: Node)
    requires i + 1 < |states|
  {
    Updates(states[i], states[i + 1], n) || Disarms(states[i], states[i + 1], n)
  }

  /** A node's registration is that of its creation or its last update, until an event disarms it. */
  lemma {:induction false} RegistrationIsLastUpdate(states: seq<State>, i: nat, k: nat, n: Node, reg: Registration)
    requires Run(states) && i < k < |states| && states[i].poller.Outside?
    requires (n in states[i].nodes && states[i + 1] == UpdateBegin(states[i], n, reg))
             || (n !in states[i].nodes && states[i + 1] == NewNode(states[i], n, reg))
    requires forall j {:trigger ChangesAt(states, j, n)} | i < j < k :: !ChangesAt(states, j, n)
    ensures n in states[k].nodes && states[k].nodes[n].reg == reg
    decreases k
  {
    hide Step, Init, Updates, Disarms;
    if i + 1 < k {
      var j := k - 1;
      RegistrationIsLastUpdate(states, i, j, n, reg);
      assert Step(states[j], states[j + 1]);
      assert !ChangesAt(states, j, n);
      StepKeepsRegistration(states[j], states[k], n);
    }
  }

  // ----- an update puts a ready node on the list -----

  predicate InUpdate(s: State, n: Node) {
    && n in s.nodes
    && ((s.poller == UpdateQueuing(n)) || (s.poller.UpdatePushing? && s.poller.node == n && s.nodes[n].queued))
  }

  lemma UpdateStep(s: State, s': State, n: Node)
    requires InUpdate(s, n) && Step(s, s')
    ensures InUpdate(s', n) || (s'.poller.Outside? && n in s'.nodes && s'.nodes[n].queued)
  {
    hide ProducerStepBy;
    if p, m, ready :| ProducerStepBy(s, p, m, ready, s') {
      ProducerLeavesVisit(s, p, m, ready, s');
      ProducerKeepsQueued(s, p, m, ready, s', n);
    } else if m, r :| RegistrationStepFor(s, m, r, s') {
    }
  }

  lemma StartUpdate(s: State, s': State, n: Node)
    requires s.poller == UpdateReading(n) && n in s.nodes && s.nodes[n].events != {}
    requires Step(s, s') && s'.poller != s.poller
    ensures InUpdate(s', n)
  {
    hide ProducerStepBy;
    if p, m, ready :| ProducerStepBy(s, p, m, ready, s') {
      ProducerLeavesVisit(s, p, m, ready, s');
    }
  }

  /** When an update that found its node ready returns, the node is queued. */
  lemma {:induction false} UpdateQueues(states: seq<State>, j: nat, k: nat, n: Node)
    requires Run(states) && j < k < |states|
    requires states[j].poller == UpdateReading(n) && n in states[j].nodes && states[j].nodes[n].events != {}
    requires states[j + 1].poller != states[j].poller && forall i | j < i < k :: !states[i].poller.Outside?
    ensures InUpdate(states[k], n) || (states[k].poller.Outside? && n in states[k].nodes && states[k].nodes[n].queued)
    decreases k
  {
    hide Step, Init;
    var i := k - 1;
    assert Step(states[i], states[i + 1]);
    if i == j {
      StartUpdate(states[j], states[k], n);
    } else {
      UpdateQueues(states, j, i, n);
      UpdateStep(states[i], states[k], n);
    }
  }

  // ----- blocking -----

  /** A poll lets `select` block if and only if the list was empty when it put the sleep token in place. */
  lemma BlocksExactlyWhenEmpty(s: State, s': State)
    requires Step(s, s') && !s.poller.Selecting? && s'.poller.Selecting?
    ensures s'.poller.asleep <==> s.head == Null
    ensures s'.poller.asleep ==> s'.head == SleepToken
  {
    hide ProducerStepBy;
    if p, m, ready :| ProducerStepBy(s, p, m, ready, s') {
      ProducerLeavesVisit(s, p, m, ready, s');
    }
  }

  // ----- the awakener's byte -----

  /** The step writes the byte. */
  ghost predicate Writes(s: State, s': State) {
    exists p :: CanWake(s, p) && s' == Wake(s, p)
  }

  /** The step drains the awakener. */
  predicate Drains(s: State, s': State) {
    s.poller.CleaningUp? && s'.poller.Taking?
  }

  lemma ProducerByte(s: State, p: Pid, m: Node, ready: Ready, s': State)
    requires ProducerStepBy(s, p, m, ready, s') && s'.byteUnread
    ensures s.byteUnread || Writes(s, s')
  {
    if p in s.producers {
      match s.producers[p]
      case Stored(_) =>
      case Pushing(_, push) =>
      case Waking(_) =>
    }
  }

  lemma ByteStep(s: State, s': State)
    requires Step(s, s') && s'.byteUnread
    ensures !Drains(s, s') && (s.byteUnread || Writes(s, s'))
  {
    hide ProducerStepBy, Writes;
    if p, m, ready :| ProducerStepBy(s, p, m, ready, s') {
      ProducerLeavesVisit(s, p, m, ready, s');
      ProducerByte(s, p, m, ready, s');
    } else if m, r :| RegistrationStepFor(s, m, r, s') {
    }
  }

  predicate DrainsAt(states: seq<State>, i: nat)
    requires i + 1 < |states|
  {
    Drains(states[i], states[i + 1])
  }

  /** The awakener's byte is there only because a producer has written it since it was last drained. */
  lemma {:induction false} ByteSince(states: seq<State>, k: nat) returns (j: nat)
    requires Run(states) && k < |states| && states[k].byteUnread
    ensures j < k && Writes(states[j], states[j + 1])
    ensures forall i {:trigger DrainsAt(states, i)} | j <= i < k :: !DrainsAt(states, i)
  {
    hide Step, Drains, Writes;
    var i := k - 1;
    assert Step(states[i], states[i + 1]);
    ByteStep(states[i], states[k]);
    if states[i].byteUnread {
      j := ByteSince(states, i);
    } else {
      j := i;
    }
  }
}
