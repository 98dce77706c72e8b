/** The steps of `Channel` keep its invariant; what that means for every run. */
module ChannelRuns {
  import opened Channel

  // ----- senders -----

  /** A call that is about to set readable stays there unless it is the one that moves. */
  lemma StillAboutToSet<M>(s: State<M>, s': State<M>, c: nat)
    requires forall d | d in s.calls && d != c :: d in s'.calls && s'.calls[d] == s.calls[d]
    requires c in s.calls ==> !s.calls[c].AboutToSet()
    ensures (exists d :: d in s.calls && s.calls[d].AboutToSet())
              ==> exists d :: d in s'.calls && s'.calls[d].AboutToSet()
  {
    if d :| d in s.calls && s.calls[d].AboutToSet() {
      assert d in s'.calls && s'.calls[d].AboutToSet();
    }
  }

  /** Senders leave the receiver, the registration and the other calls alone. */
  lemma SenderFrame<M>(s: State<M>, act: Act, c: nat, h: nat, s': State<M>)
    requires SenderStepBy(s, act, c, h, s')
    ensures s'.receiver == s.receiver && s'.registered == s.registered && s'.missed == s.missed
    ensures forall d | d in s.calls && d != c :: d in s'.calls && s'.calls[d] == s.calls[d]
  {
    match act
    case Sends =>
    case Increments =>
    case SetsReadable =>
    case QueuesNode =>
    case Clones =>
    case Drops =>
  }

  /** What the call that moves does to the node. */
  lemma SenderQueues<M>(s: State<M>, act: Act, c: nat, h: nat, s': State<M>)
    requires SenderStepBy(s, act, c, h, s')
    ensures s.queued ==> s'.queued
    ensures s'.readable && !s.readable ==> c in s'.calls && s'.calls[c].AboutToQueue()
    ensures c in s.calls && s.calls[c].AboutToQueue() ==> s'.queued || (c in s'.calls && s'.calls[c] == s.calls[c])
  {
    match act
    case Sends =>
    case Increments =>
    case SetsReadable =>
    case QueuesNode =>
    case Clones =>
    case Drops =>
  }

  lemma SendKeeps<M>(s: State<M>, c: nat, h: nat, m: M)
    requires Invariant(s) && c !in s.calls && h in s.handles
    ensures Invariant(Send(s, c, h, m))
  {
    SentAdded(s.calls, c, h);
    StillAboutToSet(s, Send(s, c, h, m), c);
  }

  lemma IncrementBalance<M>(s: State<M>, c: nat)
    requires Handled(s) && c in s.calls && (s.calls[c].Sent? || s.calls[c].Dropping?)
    ensures Balance(Increment(s, c)) == Balance(s) + 1
  {
    SentRemoved(s.calls, c, if s.calls[c].Sent? then Storing(s.calls[c].handle) else DropStoring);
  }

  lemma IncrementKeepsHandled<M>(s: State<M>, c: nat)
    requires Handled(s) && c in s.calls && (s.calls[c].Sent? || s.calls[c].Dropping?)
    ensures Handled(Increment(s, c))
  {
  }

  lemma IncrementKeeps<M>(s: State<M>, c: nat)
    requires Invariant(s) && Fits(s) && c in s.calls && (s.calls[c].Sent? || s.calls[c].Dropping?)
    ensures Invariant(Increment(s, c))
  {
    hide Handled;
    var s' := Increment(s, c);
    IncrementBalance(s, c);
    IncrementKeepsHandled(s, c);
    WrapAdd(Balance(s), 1);
    BalanceFits(s);
    if Balance(s) == 0 {
      assert s'.calls[c].AboutToSet();
    } else {
      StillAboutToSet(s, s', c);
    }
  }

  lemma SetReadableKeeps<M>(s: State<M>, c: nat)
    requires Invariant(s) && c in s.calls && s.calls[c].AboutToSet()
    ensures Invariant(SetReadable(s, c))
  {
    SentRemoved(s.calls, c, if s.calls[c].Storing? then Queueing(s.calls[c].handle) else DropQueueing);
  }

  lemma QueueNodeKeeps<M>(s: State<M>, c: nat)
    requires Invariant(s) && c in s.calls && s.calls[c].AboutToQueue()
    ensures Invariant(QueueNode(s, c))
  {
    SentRemoved(s.calls, c, DropQueueing);
    StillAboutToSet(s, QueueNode(s, c), c);
  }

  lemma CloneKeeps<M>(s: State<M>, h: nat)
    requires Invariant(s) && s.handles != {} && h !in s.handles
    ensures Invariant(Clone(s, h))
  {
  }

  lemma DropKeepsHandled<M>(s: State<M>, c: nat, h: nat)
    requires Handled(s) && c !in s.calls && Droppable(s, h)
    ensures 0 < s.senders && Handled(Drop(s, c, h))
  {
    var rest := s.handles - {h};
    assert s.handles == rest + {h};
    if s.senders == 1 {
      assert rest == {};
    }
  }

  lemma DropKeeps<M>(s: State<M>, c: nat, h: nat)
    requires Invariant(s) && c !in s.calls && Droppable(s, h) && 0 < s.senders
    ensures Invariant(Drop(s, c, h))
  {
    hide Handled;
    DropKeepsHandled(s, c, h);
    SentUnchanged(s.calls, c, Dropping);
    StillAboutToSet(s, Drop(s, c, h), c);
  }

  lemma SenderStepKeeps<M>(s: State<M>, act: Act, c: nat, h: nat, s': State<M>)
    requires Invariant(s) && Fits(s) && SenderStepBy(s, act, c, h, s')
    ensures Invariant(s')
  {
    hide Invariant;
    match act
    case Sends => SendKeeps(s, c, h, s'.queue[|s.queue|]);
    case Increments => IncrementKeeps(s, c);
    case SetsReadable => SetReadableKeeps(s, c);
    case QueuesNode => QueueNodeKeeps(s, c);
    case Clones => CloneKeeps(s, h);
    case Drops => DropKeeps(s, c, h);
  }

  // ----- the receiver -----

  lemma DecrementKeeps<M>(s: State<M>)
    requires Invariant(s) && Fits(s) && AboutToDecrement(s.receiver)
    ensures Invariant(Decrement(s))
  {
    WrapAdd(Balance(s), -1);
    BalanceFits(s);
  }

  lemma TryRecvKeeps<M>(s: State<M>)
    requires Invariant(s) && s.receiver.Idle? && s.queue != []
    ensures Invariant(TryRecv(s))
  {
  }

  lemma LoadKeeps<M>(s: State<M>)
    requires Invariant(s) && Fits(s) && s.receiver.Received?
    ensures Invariant(Load(s))
  {
    BalanceFits(s);
  }

  lemma ClearKeeps<M>(s: State<M>)
    requires Invariant(s) && s.receiver == Loaded(1)
    ensures Invariant(Clear(s))
  {
  }

  lemma ResetKeeps<M>(s: State<M>)
    requires Invariant(s)
    ensures s.receiver.Resetting? ==> Invariant(Reset(s))
    ensures s.receiver.Requeueing? ==> Invariant(Requeue(s))
  {
  }

  lemma RegisterLoadKeeps<M>(s: State<M>)
    requires Invariant(s) && Fits(s) && s.receiver.Idle? && !s.registered
    ensures Invariant(RegisterLoad(s))
  {
    BalanceFits(s);
  }

  lemma RegisterFillKeeps<M>(s: State<M>)
    requires Invariant(s) && Fits(s) && s.receiver.Registering?
    ensures Invariant(RegisterFill(s))
  {
    BalanceFits(s);
  }

  lemma ReceiverStepKeeps<M>(s: State<M>, s': State<M>)
    requires Invariant(s) && Fits(s) && ReceiverStep(s, s')
    ensures Invariant(s')
  {
    hide Invariant, Fits;
    if AboutToDecrement(s.receiver) {
      DecrementKeeps(s);
    } else if s.receiver.Idle? && !s.registered && s' == RegisterLoad(s) {
      RegisterLoadKeeps(s);
    } else if s.receiver.Registering? {
      RegisterFillKeeps(s);
    } else if s.receiver.Idle? {
      TryRecvKeeps(s);
    } else if s.receiver.Received? {
      LoadKeeps(s);
    } else if s.receiver == Loaded(1) {
      ClearKeeps(s);
    } else {
      ResetKeeps(s);
    }
  }

  // ----- every run -----

  lemma InitInvariant<M>(s: State<M>)
    requires Init(s)
    ensures Invariant(s)
  {
    assert SentCalls(s.calls) == {};
  }

  lemma {:induction false} RunKeepsInvariant<M>(states: seq<State<M>>, k: nat)
    requires Run(states) && k < |states|
    ensures Invariant(states[k])
  {
    hide Invariant, Step, Init;
    if k == 0 {
      InitInvariant(states[0]);
    } else {
      RunKeepsInvariant(states, k - 1);
      var i := k - 1;
      assert Step(states[i], states[i + 1]);
      StepKeepsInvariant(states[k - 1], states[k]);
    }
  }

  lemma StepKeepsInvariant<M>(s: State<M>, s': State<M>)
    requires Invariant(s) && Fits(s) && Step(s, s')
    ensures Invariant(s')
  {
    hide Invariant, SenderStepBy, ReceiverStep;
    if act, c, h :| SenderStepBy(s, act, c, h, s') {
      SenderStepKeeps(s, act, c, h, s');
    } else {
      ReceiverStepKeeps(s, s');
    }
  }

  /** In every interleaving, `pending` is the balance modulo a word; and a registered receiver with a
      positive balance is readable, or a sender is about to make it so, or the receiver is inside a
      `dec` that has unset readiness and will look again, if and only if no `register` has missed it. */
  lemma ReadinessNeverDropsAMessage<M>(states: seq<State<M>>, k: nat)
    requires Run(states) && k < |states|
    ensures var s := states[k];
            && s.pending == Wrap(Balance(s))
            && (s.missed ==> s.registered)
            && (s.registered ==>
                  (!s.missed <==> (Balance(s) > 0 ==>
                     || s.readable
                     || (exists c :: c in s.calls && s.calls[c].AboutToSet())
                     || s.receiver.Cleared? || s.receiver.Resetting?)))
  {
    RunKeepsInvariant(states, k);
  }

  /** The step publishes the handle of a `register` that overlooks messages. */
  predicate Overlooking<M>(s: State<M>, s': State<M>) {
    s.receiver.Registering? && s'.registered && Overlooks(s)
  }

  /** The step is that of a `dec` that has loaded 1 and unsets readiness. */
  predicate Clearing<M>(s: State<M>, s': State<M>) {
    s.receiver == Loaded(1) && s'.receiver.Cleared?
  }

  predicate OverlooksAt<M>(states: seq<State<M>>, i: nat)
    requires i + 1 < |states|
  {
    Overlooking(states[i], states[i + 1])
  }

  predicate ClearsAt<M>(states: seq<State<M>>, i: nat)
    requires i + 1 < |states|
  {
    Clearing(states[i], states[i + 1])
  }

  ghost predicate MissedSince<M>(states: seq<State<M>>, k: nat)
    requires k < |states|
  {
    exists f {:trigger OverlooksAt(states, f)} ::
      0 <= f < k && OverlooksAt(states, f)
          && forall j {:trigger ClearsAt(states, j)} | f < j < k :: !ClearsAt(states, j)
  }

  lemma MissedSinceStep<M>(states: seq<State<M>>, i: nat)
    requires i + 1 < |states|
    ensures MissedSince(states, i + 1) <==> OverlooksAt(states, i) || (MissedSince(states, i) && !ClearsAt(states, i))
  {
    hide OverlooksAt, ClearsAt;
  }

  lemma MissedBySender<M>(s: State<M>, act: Act, c: nat, h: nat, s': State<M>)
    requires RegisteringOk(s) && SenderStepBy(s, act, c, h, s')
    ensures s'.missed == s.missed && !Overlooking(s, s') && !Clearing(s, s')
  {
    hide SenderStepBy;
    SenderFrame(s, act, c, h, s');
  }

  lemma MissedByReceiver<M>(s: State<M>, s': State<M>)
    requires RegisteringOk(s) && MissedOk(s) && ReceiverStep(s, s')
    ensures s'.missed <==> Overlooking(s, s') || (s.missed && !Clearing(s, s'))
  {
  }

  /** What one step does to `missed`. */
  lemma MissedStep<M>(s: State<M>, s': State<M>)
    requires Invariant(s) && Step(s, s')
    ensures s'.missed <==> Overlooking(s, s') || (s.missed && !Clearing(s, s'))
  {
    hide SenderStepBy, ReceiverStep, Overlooking, Clearing;
    if act, c, h :| SenderStepBy(s, act, c, h, s') {
      MissedBySender(s, act, c, h, s');
    } else {
      MissedByReceiver(s, s');
    }
  }

  /** Messages are missed from a `register` that overlooks them until a `dec` loads 1. */
  lemma {:induction false} MissedExactly<M>(states: seq<State<M>>, k: nat)
    requires Run(states) && k < |states|
    ensures states[k].missed <==> MissedSince(states, k)
  {
    hide Invariant, Init, Step, Overlooking, Clearing, MissedSince;
    if k == 0 {
      InitNotMissed(states);
    } else {
      var i := k - 1;
      MissedExactly(states, i);
      RunKeepsInvariant(states, i);
      assert Step(states[i], states[i + 1]);
      MissedStep(states[i], states[k]);
      MissedSinceStep(states, i);
    }
  }

  lemma InitNotMissed<M>(states: seq<State<M>>)
    requires Run(states)
    ensures !states[0].missed && !MissedSince(states, 0)
  {
  }

  /** When nobody is in the middle of a call, messages in the queue or a disconnection mean readable,
      unless and only unless a `register` has missed them. */
  lemma QuietMeansReadable<M>(states: seq<State<M>>, k: nat)
    requires Run(states) && k < |states|
    requires states[k].registered && states[k].calls == map[] && states[k].receiver.Idle?
    requires states[k].queue != [] || states[k].handles == {}
    ensures states[k].readable <==> !states[k].missed
    ensures states[k].handles == {} ==> states[k].dropCounted
  {
    RunKeepsInvariant(states, k);
    assert SentCalls(states[k].calls) == {};
    DropWasCounted(states, k);
  }

  ghost predicate DropSeen<M>(s: State<M>) {
    s.handles == {} ==> s.dropCounted || exists c :: c in s.calls && s.calls[c].Dropping?
  }

  /** Once the last handle is gone, its drop is being counted or has been. */
  lemma {:induction false} DropWasCounted<M>(states: seq<State<M>>, k: nat)
    requires Run(states) && k < |states|
    ensures DropSeen(states[k])
  {
    hide Accounted, Noticed, LoadedOk, SenderStepBy, ReceiverStep, DropSeen;
    if k > 0 {
      DropWasCounted(states, k - 1);
      var i := k - 1;
      assert Step(states[i], states[i + 1]);
      RunKeepsInvariant(states, i);
      if act, c, h :| SenderStepBy(states[i], act, c, h, states[k]) {
        DroppingStays(states[i], act, c, h, states[k]);
      } else {
        ReceiverLeavesDrops(states[i], states[k]);
      }
    } else {
      assert DropSeen(states[0]) by {
        InitDropSeen(states[0]);
      }
    }
  }

  lemma InitDropSeen<M>(s: State<M>)
    requires Init(s)
    ensures DropSeen(s)
  {
  }

  lemma ReceiverLeavesDrops<M>(s: State<M>, s': State<M>)
    requires DropSeen(s) && ReceiverStep(s, s')
    ensures DropSeen(s')
  {
    if s.handles == {} && !s.dropCounted {
      var c :| c in s.calls && s.calls[c].Dropping?;
      assert c in s'.calls && s'.calls[c].Dropping?;
    }
  }

  lemma DroppingStays<M>(s: State<M>, act: Act, c: nat, h: nat, s': State<M>)
    requires Handled(s) && SenderStepBy(s, act, c, h, s')
    requires DropSeen(s)
    ensures DropSeen(s')
  {
    hide Handled, SenderStepBy;
    DropFrame(s, act, c, h, s');
    if d :| d in s.calls && s.calls[d].Dropping? {
      assert s'.dropCounted || (d in s'.calls && s'.calls[d].Dropping?);
    }
  }

  lemma DropFrame<M>(s: State<M>, act: Act, c: nat, h: nat, s': State<M>)
    requires Handled(s) && SenderStepBy(s, act, c, h, s')
    ensures s.dropCounted ==> s'.dropCounted
    ensures s.handles != {} && s'.handles == {} ==> c in s'.calls && s'.calls[c].Dropping?
    ensures forall d | d in s.calls && d != c :: d in s'.calls && s'.calls[d] == s.calls[d]
    ensures c in s.calls && s.calls[c].Dropping? ==> s'.dropCounted || (c in s'.calls && s'.calls[c] == s.calls[c])
  {
    match act
    case Sends =>
    case Increments =>
    case SetsReadable =>
    case QueuesNode =>
    case Clones =>
    case Drops =>
      if s'.handles == {} {
        assert s.handles == {h};
      }
  }

  // ----- registering while senders are at work -----

  /** With no sender at work between its two steps, `register` never overlooks a message. */
  lemma UndisturbedRegister<M>(states: seq<State<M>>, k: nat)
    requires Run(states) && k < |states| && states[k].receiver.Idle? && !states[k].registered
    ensures !RegisterFill(RegisterLoad(states[k])).missed
  {
    RunKeepsInvariant(states, k);
  }

  /** `register` leaves no counted message unnoticed exactly if it does not overlook one: it saw the
      counter above zero, or the counter is still zero when the handle is published, or a sender that
      found the counter at zero has yet to look for the handle. */
  lemma RegisterNoticesExactly<M>(states: seq<State<M>>, k: nat)
    requires Run(states) && k < |states| && states[k].receiver.Registering?
    ensures var s := RegisterFill(states[k]);
            (Balance(s) > 0 ==> s.readable || exists c :: c in s.calls && s.calls[c].AboutToSet())
                <==> !Overlooks(states[k])
  {
    RunKeepsInvariant(states, k);
    BalanceFits(states[k]);
  }

  /** Overlooked messages stay so whatever the senders do: only the receiver's own receives help. */
  lemma OverlookedBySenders<M>(s: State<M>, act: Act, c: nat, h: nat, s': State<M>)
    requires Invariant(s) && Fits(s) && SenderStepBy(s, act, c, h, s')
    requires s.registered && !s.readable && Balance(s) > 0 && forall d <- s.calls :: !s.calls[d].AboutToSet()
    ensures s'.registered && !s'.readable && Balance(s') > 0 && forall d <- s'.calls :: !s'.calls[d].AboutToSet()
  {
    hide Handled, Noticed;
    BalanceFits(s);
    match act
    case Sends => SentAdded(s.calls, c, h);
    case Increments => IncrementBalance(s, c);
    case SetsReadable =>
    case QueuesNode => SentRemoved(s.calls, c, Dropping);
    case Clones =>
    case Drops => SentUnchanged(s.calls, c, Dropping);
  }

  ghost predicate Reachable<M(!new)>(s: State<M>) {
    exists states :: Run(states) && states[|states| - 1] == s
  }

  lemma ReachStep<M(!new)>(s: State<M>, s': State<M>)
    requires Reachable(s) && Step(s, s') && Fits(s')
    ensures Reachable(s')
  {
    hide Init, Step, Fits;
    var states :| Run(states) && states[|states| - 1] == s;
    var longer := states + [s'];
    forall i {:trigger longer[i + 1]} | 0 <= i < |longer| - 1
      ensures Step(longer[i], longer[i + 1])
    {
      if i < |states| - 1 {
        assert Step(states[i], states[i + 1]);
      }
    }
    assert Run(longer);
  }

  lemma ReachBySender<M(!new)>(s: State<M>, act: Act, c: nat, h: nat, s': State<M>)
    requires Reachable(s) && SenderStepBy(s, act, c, h, s') && Fits(s')
    ensures Reachable(s')
  {
    hide SenderStepBy, ReceiverStep, Fits, Reachable;
    assert Step(s, s');
    ReachStep(s, s');
  }

  lemma ReachByReceiver<M(!new)>(s: State<M>, s': State<M>)
    requires Reachable(s) && ReceiverStep(s, s') && Fits(s')
    ensures Reachable(s')
  {
    hide SenderStepBy, ReceiverStep, Fits, Reachable;
    ReachStep(s, s');
  }

  /** A new channel whose receiver has started to register. */
  lemma ReachRegistering<M(!new)>()
    ensures Reachable<M>(State([], 0, 1, {0}, map[], Registering(0), false, false, false, false, false))
  {
    var s0: State<M> := State([], 0, 1, {0}, map[], Idle, false, false, false, false, false);
    assert Run([s0]);
    ReachByReceiver(s0, RegisterLoad(s0));
  }

  /** It happens: one message, sent while the receiver registers, and nobody ever told. */
  lemma RegisterCanOverlook<M(!new)>(m: M)
    ensures Reachable(State([m], 1, 1, {0}, map[], Idle, true, false, false, false, true))
  {
    hide Reachable;
    ReachRegistering<M>();
    var s1: State<M> := State([], 0, 1, {0}, map[], Registering(0), false, false, false, false, false);
    var s2 := s1.(queue := [m], calls := map[0 := Sent(0)]);
    ReachBySender(s1, Sends, 0, 0, s2);
    var s3 := s2.(pending := 1, calls := map[0 := Storing(0)]);
    ReachBySender(s2, Increments, 0, 0, s3);
    var s4 := s3.(calls := map[]);
    assert s3.calls - {0} == map[];
    ReachBySender(s3, SetsReadable, 0, 0, s4);
    ReachByReceiver(s4, RegisterFill(s4));
  }

  // ----- the node is queued -----

  /** A readable node is queued, or a thread is about to queue it. */
  ghost predicate QueuedOk<M>(s: State<M>) {
    s.readable ==>
      || s.queued || s.receiver.Requeueing?
      || exists c :: c in s.calls && s.calls[c].AboutToQueue()
  }

  lemma SenderKeepsQueued<M>(s: State<M>, act: Act, c: nat, h: nat, s': State<M>)
    requires SenderStepBy(s, act, c, h, s') && QueuedOk(s)
    ensures QueuedOk(s')
  {
    hide SenderStepBy;
    SenderFrame(s, act, c, h, s');
    SenderQueues(s, act, c, h, s');
    if d :| d in s.calls && s.calls[d].AboutToQueue() {
      assert s'.queued || (d in s'.calls && s'.calls[d].AboutToQueue());
    }
  }

  lemma ReceiverKeepsQueued<M>(s: State<M>, s': State<M>)
    requires ReceiverStep(s, s') && QueuedOk(s)
    ensures QueuedOk(s')
  {
    assert s'.calls == s.calls;
  }

  /** In every run, setting a receiver readable also queues its node. */
  lemma {:induction false} ReadableIsQueued<M>(states: seq<State<M>>, k: nat)
    requires Run(states) && k < |states|
    ensures QueuedOk(states[k])
  {
    hide Init, SenderStepBy, ReceiverStep, QueuedOk;
    if k == 0 {
      InitQueued(states[0]);
    } else {
      var i := k - 1;
      ReadableIsQueued(states, i);
      assert Step(states[i], states[i + 1]);
      if act, c, h :| SenderStepBy(states[i], act, c, h, states[k]) {
        SenderKeepsQueued(states[i], act, c, h, states[k]);
      } else {
        ReceiverKeepsQueued(states[i], states[k]);
      }
    }
  }

  lemma InitQueued<M>(s: State<M>)
    requires Init(s)
    ensures QueuedOk(s)
  {
  }

  // ----- after disconnection -----

  /** Disconnected, with every call over: a `dec` under way has seen at least 2, so none unsets
      readiness, and none repairs it. */
  predicate Disconnected<M>(s: State<M>) {
    && s.registered && s.handles == {} && s.calls == map[] && s.dropCounted
    && (s.readable <==> !s.missed)
    && (s.receiver.Idle? || s.receiver.Received? || (s.receiver.Loaded? && s.receiver.first >= 2))
  }

  lemma ReceiverStaysDisconnected<M>(s: State<M>, s': State<M>)
    requires Accounted(s) && Fits(s) && Disconnected(s) && ReceiverStep(s, s')
    ensures Disconnected(s') && s'.missed == s.missed
  {
    BalanceFits(s);
    assert SentCalls(s.calls) == {};
  }

  /** Senders act through a handle or within a call. */
  lemma SenderIsThere<M>(s: State<M>, act: Act, c: nat, h: nat, s': State<M>)
    requires SenderStepBy(s, act, c, h, s')
    ensures s.handles != {} || s.calls != map[]
  {
  }

  /** From then on readiness never changes: the receiver stays readable through every receive, or, if
      a `register` has missed messages, is never told. */
  lemma {:induction false} DisconnectedStaysReadable<M>(states: seq<State<M>>, i: nat, k: nat)
    requires Run(states) && i <= k < |states|
    requires states[i].registered && states[i].receiver.Idle?
    requires states[i].handles == {} && states[i].calls == map[]
    ensures states[k].readable <==> !states[i].missed
    ensures Disconnected(states[k]) && states[k].missed == states[i].missed
    decreases k - i
  {
    hide Handled, Noticed, LoadedOk, RegisteringOk, MissedOk, SenderStepBy, ReceiverStep, Init;
    if i == k {
      QuietMeansReadable(states, i);
    } else {
      DisconnectedStaysReadable(states, i, k - 1);
      RunKeepsInvariant(states, k - 1);
      var j := k - 1;
      assert Step(states[j], states[j + 1]);
      if act, c, h :| SenderStepBy(states[j], act, c, h, states[k]) {
        SenderIsThere(states[j], act, c, h, states[k]);
      } else {
        ReceiverStaysDisconnected(states[j], states[k]);
      }
    }
  }
}
