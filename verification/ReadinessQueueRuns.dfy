/** What the readiness queue guarantees in every interleaving. */
module ReadinessQueueRuns {
  import opened ReadinessSteps
  import opened ReadinessInvariant

  // ----- what a step leaves alone -----

  /** A push by anyone but the drain loop: only the chain's front, and the record of who was told. */
  predicate OnlyPushes(s: State, s': State) {
    && s'.hist == s.hist.(chain := s'.hist.chain, told := s'.hist.told)
    && (s'.head == s.head || s'.head.To?)
    && (s'.hist.told == s.hist.told
        || (s.head == SleepToken && s'.head.To? && s'.hist.told == s.hist.told + [s.hist.sleeps]))
  }

  lemma ProducerFrame(s: State, s': State)
    requires ProducerStep(s, s')
    ensures s'.poller == s.poller && OnlyPushes(s, s')
    ensures s.byteUnread ==> s'.byteUnread
  {
    var p, n, ready :| ProducerStepBy(s, p, n, ready, s');
    ProducerFrameBy(s, p, n, ready, s');
  }

  lemma ProducerFrameBy(s: State, p: Pid, n: Node, ready: Ready, s': State)
    requires ProducerStepBy(s, p, n, ready, s')
    ensures s'.poller == s.poller && OnlyPushes(s, s')
    ensures s.byteUnread ==> s'.byteUnread
    ensures forall q | q in s.producers && q != p :: q in s'.producers && s'.producers[q] == s.producers[q]
    ensures s.head == SleepToken && s'.head != SleepToken ==> p in s'.producers && s'.producers[p].Waking?
    ensures p in s.producers && s.producers[p].Waking? && !s'.byteUnread ==>
              p in s'.producers && s'.producers[p] == s.producers[p]
  {
    if p in s.producers {
      match s.producers[p]
      case Stored(_) =>
      case Pushing(_, push) =>
        if push.LoadingHead? {
        } else if push.Linking? {
        } else {
        }
      case Waking(_) =>
    }
  }

  lemma RegistrationFrame(s: State, s': State)
    requires RegistrationStep(s, s')
    ensures OnlyPushes(s, s') && s'.producers == s.producers && s'.byteUnread == s.byteUnread
    ensures s'.hist.told == s.hist.told
    ensures !s.poller.Selecting? && !s.poller.CleaningUp? && !s.poller.Taking? && !s'.poller.Selecting?
    ensures InDrain(s'.poller) <==> InDrain(s.poller)
    ensures InDrain(s.poller) ==> s.poller.Requeuing? && !s'.poller.Draining? && s'.poller.node == s.poller.node
  {
    var n, reg :| RegistrationStepFor(s, n, reg, s');
  }

  lemma DrainFrame(s: State, s': State)
    requires DrainStep(s, s')
    ensures s'.head == s.head && s'.producers == s.producers && s'.byteUnread == s.byteUnread
    ensures s'.hist == s.hist.(drained := s'.hist.drained, taken := s'.hist.taken, reported := s'.hist.reported)
    ensures InDrain(s.poller) && (InDrain(s'.poller) || s'.poller.Outside?)
  {
  }

  // ----- sleeping and waking -----

  lemma StepKeepsPhased(s: State, s': State)
    requires Invariant(s) && Step(s, s')
    ensures Phased(s')
  {
    hide Owned, Wakeable, ToldOnce, NothingLost, ReportedOnce, ProducerStep, RegistrationStep, DrainStep, SleepStep;
    if ProducerStep(s, s') {
      ProducerFrame(s, s');
    } else if RegistrationStep(s, s') {
      RegistrationFrame(s, s');
    } else if SleepStep(s, s') {
      SleepKeepsPhased(s, s');
    } else {
      DrainFrame(s, s');
      DrainEnds(s, s');
    }
  }

  lemma SleepKeepsPhased(s: State, s': State)
    requires Phased(s) && SleepStep(s, s')
    ensures Phased(s')
  {
    if s.poller.Outside? {
    } else if s.poller.CheckingEmpty? {
    } else if s.poller.Preparing? {
    } else if s.poller.Selecting? {
    } else if s.poller.CleaningUp? {
    } else {
    }
  }

  lemma SleepKeepsToldOnce(s: State, s': State)
    requires Phased(s) && ToldOnce(s) && SleepStep(s, s')
    ensures ToldOnce(s')
  {
    if s.poller.Outside? {
    } else if s.poller.CheckingEmpty? {
    } else if s.poller.Preparing? {
    } else if s.poller.Selecting? {
    } else if s.poller.CleaningUp? {
    } else {
    }
  }

  lemma DrainEnds(s: State, s': State)
    requires Chained(s) && DrainStep(s, s')
    ensures s'.poller.Outside? ==> s'.hist.drained == []
  {
  }

  lemma StepKeepsToldOnce(s: State, s': State)
    requires Invariant(s) && Step(s, s')
    ensures ToldOnce(s')
  {
    hide Owned, Chained, Wakeable, NothingLost, ReportedOnce, ProducerStep, RegistrationStep, DrainStep, SleepStep;
    if ProducerStep(s, s') {
      ProducerFrame(s, s');
    } else if RegistrationStep(s, s') {
      RegistrationFrame(s, s');
    } else if SleepStep(s, s') {
      SleepKeepsToldOnce(s, s');
    } else {
      DrainFrame(s, s');
    }
  }

  /** A producer that replaces the sleep token is then about to wake; one that stops being about to
      wake has written the byte. */
  lemma ProducerKeepsWaking(s: State, s': State)
    requires ProducerStep(s, s')
    ensures s.head == SleepToken && s'.head != SleepToken ==> exists p :: p in s'.producers && s'.producers[p].Waking?
    ensures (exists p :: p in s.producers && s.producers[p].Waking?) ==>
              s'.byteUnread || exists p :: p in s'.producers && s'.producers[p].Waking?
  {
    hide ProducerStepBy;
    var p, n, ready :| ProducerStepBy(s, p, n, ready, s');
    ProducerFrameBy(s, p, n, ready, s');
    if q :| q in s.producers && s.producers[q].Waking? {
      assert s'.byteUnread || (q in s'.producers && s'.producers[q].Waking?);
    }
  }

  lemma StepKeepsWakeable(s: State, s': State)
    requires Invariant(s) && Step(s, s')
    ensures Wakeable(s')
  {
    hide Owned, Chained, ToldOnce, NothingLost, ReportedOnce, ProducerStep, RegistrationStep, DrainStep;
    if ProducerStep(s, s') {
      ProducerFrame(s, s');
      ProducerKeepsWaking(s, s');
    } else if RegistrationStep(s, s') {
      RegistrationFrame(s, s');
    } else if DrainStep(s, s') {
      DrainFrame(s, s');
    }
  }

  // ----- one report per poll -----

  lemma StepKeepsReportedOnce(s: State, s': State)
    requires Invariant(s) && Step(s, s')
    ensures ReportedOnce(s')
  {
    hide Owned, Chained, Wakeable, ToldOnce, NothingLost, ProducerStep, RegistrationStep, DrainStep, SleepStep;
    if ProducerStep(s, s') {
      ProducerFrame(s, s');
    } else if RegistrationStep(s, s') {
      RegistrationFrame(s, s');
    } else if SleepStep(s, s') {
      SleepKeepsReportedOnce(s, s');
    } else {
      DrainKeepsReportedOnce(s, s');
    }
  }

  lemma SleepKeepsReportedOnce(s: State, s': State)
    requires ReportedOnce(s) && SleepStep(s, s')
    ensures ReportedOnce(s')
  {
    if !s.poller.Taking? {
      assert !InDrain(s'.poller) && s'.hist.reported == s.hist.reported && s'.hist.drained == s.hist.drained;
    }
  }

  lemma DrainKeepsReportedOnce(s: State, s': State)
    requires ReportedOnce(s) && Chained(s) && DrainStep(s, s')
    ensures ReportedOnce(s')
  {
    if s.poller.Draining? && s.batch.To? {
      var c := s.hist.drained;
      assert c[0] == s.batch.node;
      assert forall n <- c[1..] :: n in c && n != c[0];
    }
  }

  // ----- no notification is lost -----

  lemma ProducerKeepsOnItsWay(s: State, p: Pid, m: Node, ready: Ready, s': State, n: Node)
    requires Owned(s) && NothingLost(s) && ProducerStepBy(s, p, m, ready, s')
    requires n in s'.nodes && s'.nodes[n].unseen
    ensures OnItsWay(s', n)
  {
    hide Owned;
    ProducerFrameBy(s, p, m, ready, s');
    if p in s.producers {
      OwnedProducer(s, p);
    }
    OwnedNode(s, n);
    if s.nodes[n].unseen {
      assert OnItsWay(s, n);
      if q :| q in s.producers && s.producers[q] == Stored(n) {
        if q != p {
          assert q in s'.producers && s'.producers[q] == Stored(n);
        }
      }
    } else {
      assert s'.producers[p] == Stored(n);
    }
  }

  lemma RegistrationKeepsNothingLost(s: State, n: Node, reg: Registration, s': State)
    requires NothingLost(s) && RegistrationStepFor(s, n, reg, s')
    ensures NothingLost(s')
  {
    forall m | m in s'.nodes && s'.nodes[m].unseen
      ensures OnItsWay(s', m)
    {
      assert OnItsWay(s, m);
    }
  }

  lemma SleepKeepsNothingLost(s: State, s': State)
    requires NothingLost(s) && SleepStep(s, s')
    ensures NothingLost(s')
  {
    forall m | m in s'.nodes && s'.nodes[m].unseen
      ensures OnItsWay(s', m)
    {
      assert OnItsWay(s, m);
    }
  }

  lemma DrainKeepsNothingLost(s: State, s': State)
    requires NothingLost(s) && DrainStep(s, s')
    ensures NothingLost(s')
  {
    forall m | m in s'.nodes && s'.nodes[m].unseen
      ensures OnItsWay(s', m)
    {
      assert OnItsWay(s, m);
    }
  }

  lemma StepKeepsNothingLost(s: State, s': State)
    requires Invariant(s) && Step(s, s')
    ensures NothingLost(s')
  {
    hide Owned, Chained, Phased, Wakeable, ToldOnce, ReportedOnce, ProducerStepBy, RegistrationStepFor, DrainStep,
        SleepStep;
    if ProducerStep(s, s') {
      var p, m, ready :| ProducerStepBy(s, p, m, ready, s');
      forall n | n in s'.nodes && s'.nodes[n].unseen
        ensures OnItsWay(s', n)
      {
        ProducerKeepsOnItsWay(s, p, m, ready, s', n);
      }
    } else if RegistrationStep(s, s') {
      var n, reg :| RegistrationStepFor(s, n, reg, s');
      RegistrationKeepsNothingLost(s, n, reg, s');
    } else if SleepStep(s, s') {
      SleepKeepsNothingLost(s, s');
    } else {
      DrainKeepsNothingLost(s, s');
    }
  }

  // ----- ownership and chains -----

  lemma ProducerKeepsShape(s: State, p: Pid, n: Node, ready: Ready, s': State)
    requires Owned(s) && Chained(s) && ProducerStepBy(s, p, n, ready, s')
    ensures Owned(s') && Chained(s')
  {
    hide Owned, Chained, Quiet;
    if CanStore(s, p, n, ready) && s' == Store(s, p, n, ready) {
      StoreIsQuiet(s, p, n, ready);
      QuietKeepsShape(s, s');
    } else if CanClaim(s, p) && s' == Claim(s, p) {
      ClaimKeepsOwned(s, p);
      ClaimKeepsChained(s, p);
    } else if CanPush(s, p) && s.producers[p].push.Linking? && s' == Link(s, p) {
      LinkKeepsOwned(s, p);
      LinkKeepsChained(s, p);
    } else if CanPush(s, p) && s.producers[p].push.Prepending? && s' == Prepend(s, p) {
      PrependKeepsOwned(s, p);
      PrependKeepsChained(s, p);
    } else {
      OtherProducerStepsAreQuiet(s, p, n);
      QuietKeepsShape(s, s');
    }
  }

  lemma QuietKeepsShape(s: State, s': State)
    requires Owned(s) && Chained(s) && Quiet(s, s')
    ensures Owned(s') && Chained(s')
  {
    QuietKeepsOwned(s, s');
    QuietKeepsChained(s, s');
  }

  lemma RegistrationKeepsShape(s: State, n: Node, reg: Registration, s': State)
    requires Owned(s) && Chained(s) && RegistrationStepFor(s, n, reg, s')
    ensures Owned(s') && Chained(s')
  {
    hide Owned, Chained, Quiet;
    if s.poller.Outside? && n !in s.nodes && s' == NewNode(s, n, reg) {
      NewNodeKeepsOwned(s, n, reg);
      NewNodeKeepsChained(s, n, reg);
    } else if s.poller.UpdateQueuing? {
      UpdateClaimKeepsOwned(s);
      UpdateClaimKeepsChained(s);
    } else if PollerPushes(s) && s.poller.push.Linking? {
      PollerLinkKeepsOwned(s);
      PollerLinkKeepsChained(s);
    } else if PollerPushes(s) && s.poller.push.Prepending? {
      PollerPrependKeepsOwned(s);
      PollerPrependKeepsChained(s);
    } else {
      RegistrationStepsAreQuiet(s, n, reg);
      QuietKeepsShape(s, s');
    }
  }

  lemma SleepKeepsShape(s: State, s': State)
    requires Owned(s) && Chained(s) && Phased(s) && SleepStep(s, s')
    ensures Owned(s') && Chained(s')
  {
    hide Owned, Chained, Quiet;
    if s.poller.Taking? {
      TakeKeepsOwned(s);
      TakeKeepsChained(s);
    } else {
      PollStartIsQuiet(s);
      SelectIsQuiet(s);
      QuietKeepsShape(s, s');
    }
  }

  lemma DrainKeepsShape(s: State, s': State)
    requires Owned(s) && Chained(s) && DrainStep(s, s')
    ensures Owned(s') && Chained(s')
  {
    hide Owned, Chained, Quiet;
    if s.poller.Draining? {
      NextNodeKeepsOwned(s);
      NextNodeKeepsChained(s);
    } else if s.poller.Dequeuing? {
      DequeueKeepsOwned(s);
      DequeueKeepsChained(s);
    } else {
      ReadingIsQuiet(s);
      ReportingIsQuiet(s);
      QuietKeepsShape(s, s');
    }
  }

  // ----- every run -----

  lemma StepKeepsInvariant(s: State, s': State)
    requires Invariant(s) && Step(s, s')
    ensures Invariant(s')
  {
    StepKeepsPhased(s, s');
    StepKeepsToldOnce(s, s');
    StepKeepsWakeable(s, s');
    StepKeepsReportedOnce(s, s');
    StepKeepsNothingLost(s, s');
    hide Owned, Chained, Phased, Wakeable, ToldOnce, NothingLost, ReportedOnce,
         ProducerStepBy, RegistrationStepFor, DrainStep, SleepStep;
    if ProducerStep(s, s') {
      var p, m, ready :| ProducerStepBy(s, p, m, ready, s');
      ProducerKeepsShape(s, p, m, ready, s');
    } else if RegistrationStep(s, s') {
      var n, reg :| RegistrationStepFor(s, n, reg, s');
      RegistrationKeepsShape(s, n, reg, s');
    } else if SleepStep(s, s') {
      SleepKeepsShape(s, s');
    } else {
      DrainKeepsShape(s, s');
    }
  }

  lemma {:induction false} RunKeepsInvariant(states: seq<State>, k: nat)
    requires Run(states) && k < |states|
    ensures Invariant(states[k])
  {
    hide Step;
    if k == 0 {
      InitInvariant(states[0]);
    } else {
      RunKeepsInvariant(states, k - 1);
      var i := k - 1;
      assert Step(states[i], states[i + 1]);
      StepKeepsInvariant(states[k - 1], states[k]);
    }
  }

  lemma InitInvariant(s: State)
    requires Init(s)
    ensures Invariant(s)
  {
  }
}
