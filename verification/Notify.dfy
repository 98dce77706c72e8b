/** `EventLoop::notify` of src/deprecated/event_loop.rs on top of the channel of `Channel`: the
    receiver's node is registered edge-triggered and oneshot, a poll that reports it disarms it, and
    `notify` re-registers it after handling at most `messages_per_tick` messages. */
module Notify {
  import opened Channel
  import opened ChannelRuns

  /** Where the event loop is. It is also the channel's receiver and the poller. */
  datatype Loop =
    | BeforePoll
    | Rereading               // has dequeued the node: about to read its readiness
    | Notifying(left: nat)    // may still handle `left` messages
    | Rearming                // has re-armed the registration: about to read the readiness
    | RearmQueueing           // found it readable: about to queue the node

  /** `own` is the sender that the event loop keeps for itself; `armed` says that the registration's
      interest is not disabled; `cap` is `messages_per_tick`. */
  datatype State<M> = State(ch: Channel.State<M>, loop: Loop, armed: bool, own: nat, cap: nat)

  predicate Init<M(==)>(s: State<M>) {
    && s.loop == BeforePoll && s.armed && s.own in s.ch.handles
    && s.ch == Channel.State([], 0, 1, {s.own}, map[], Idle, true, false, false, false, false)
  }

  function PollDequeue<M>(s: State<M>): State<M>
    requires s.loop.BeforePoll? && s.ch.queued
  {
    s.(ch := s.ch.(queued := false), loop := Rereading)
  }

  function PollReread<M>(s: State<M>): State<M>
    requires s.loop.Rereading?
  {
    if s.armed && s.ch.readable then s.(armed := false, loop := Notifying(s.cap)) else s.(loop := BeforePoll)
  }

  function NotifyRecv<M>(s: State<M>): State<M>
    requires s.loop.Notifying? && s.loop.left > 0 && s.ch.receiver.Idle? && s.ch.queue != []
  {
    s.(ch := TryRecv(s.ch), loop := Notifying(s.loop.left - 1))
  }

  function NotifyStop<M>(s: State<M>): State<M>
    requires s.loop.Notifying? && s.ch.receiver.Idle? && (s.loop.left == 0 || s.ch.queue == [])
  {
    s.(armed := true, loop := Rearming)
  }

  function RearmRead<M>(s: State<M>): State<M>
    requires s.loop.Rearming?
  {
    s.(loop := if s.ch.readable then RearmQueueing else BeforePoll)
  }

  function RearmQueue<M>(s: State<M>): State<M>
    requires s.loop.RearmQueueing?
  {
    s.(ch := s.ch.(queued := true), loop := BeforePoll)
  }

  /** A sender acts; the event loop keeps its own sender. */
  ghost predicate SenderActs<M>(s: State<M>, s': State<M>) {
    s' == s.(ch := s'.ch) && s.own in s'.ch.handles && exists act, c, h :: SenderStepBy(s.ch, act, c, h, s'.ch)
  }

  /** The event loop continues the `dec` of a message it has taken. */
  ghost predicate DecGoesOn<M>(s: State<M>, s': State<M>) {
    s.loop.Notifying? && !s.ch.receiver.Idle? && s' == s.(ch := s'.ch) && ReceiverStep(s.ch, s'.ch)
  }

  ghost predicate LoopStep<M>(s: State<M>, s': State<M>) {
    || (s.loop.BeforePoll? && s.ch.queued && s' == PollDequeue(s))
    || (s.loop.Rereading? && s' == PollReread(s))
    || (s.loop.Notifying? && s.loop.left > 0 && s.ch.receiver.Idle? && s.ch.queue != [] && s' == NotifyRecv(s))
    || DecGoesOn(s, s')
    || (s.loop.Notifying? && s.ch.receiver.Idle? && (s.loop.left == 0 || s.ch.queue == []) && s' == NotifyStop(s))
    || (s.loop.Rearming? && s' == RearmRead(s))
    || (s.loop.RearmQueueing? && s' == RearmQueue(s))
  }

  ghost predicate Run<M>(states: seq<State<M>>) {
    && states != []
    && Init(states[0])
    && (forall i | 0 <= i < |states| :: Fits(states[i].ch))
    && forall i {:trigger states[i + 1]} | 0 <= i < |states| - 1 ::
         SenderActs(states[i], states[i + 1]) || LoopStep(states[i], states[i + 1])
  }

  // ----- the invariant -----

  /** Before a poll the registration is armed, and a readable node is queued or about to be. */
  ghost predicate Invariant<M>(s: State<M>) {
    && Channel.Invariant(s.ch) && s.ch.registered && !s.ch.missed && s.own in s.ch.handles
    && (!s.loop.Notifying? ==> s.ch.receiver.Idle?)
    && (s.loop.Notifying? <==> !s.armed)
    && !s.ch.receiver.Registering?
    && (s.loop.BeforePoll? ==> OnItsWay(s.ch))
  }

  ghost predicate OnItsWay<M>(s: Channel.State<M>) {
    s.readable ==> s.queued || exists c :: c in s.calls && s.calls[c].AboutToQueue()
  }

  lemma SenderKeepsQueueing<M>(s: Channel.State<M>, act: Act, c: nat, h: nat, s': Channel.State<M>)
    requires SenderStepBy(s, act, c, h, s') && s.registered && OnItsWay(s)
    ensures OnItsWay(s')
  {
    hide SenderStepBy;
    SenderFrame(s, act, c, h, s');
    SenderQueues(s, act, c, h, s');
    if d :| d in s.calls && s.calls[d].AboutToQueue() {
      assert s'.queued || (d in s'.calls && s'.calls[d].AboutToQueue());
    }
  }

  lemma SenderActsKeeps<M>(s: State<M>, s': State<M>)
    requires Invariant(s) && Fits(s.ch) && SenderActs(s, s')
    ensures Invariant(s')
  {
    hide Channel.Invariant, SenderStepBy;
    var act, c, h :| SenderStepBy(s.ch, act, c, h, s'.ch);
    SenderStepKeeps(s.ch, act, c, h, s'.ch);
    SenderFrame(s.ch, act, c, h, s'.ch);
    if s.loop.BeforePoll? {
      SenderKeepsQueueing(s.ch, act, c, h, s'.ch);
    }
  }

  lemma LoopStepKeeps<M>(s: State<M>, s': State<M>)
    requires Invariant(s) && Fits(s.ch) && LoopStep(s, s')
    ensures Invariant(s')
  {
    hide Channel.Invariant, Fits;
    if DecGoesOn(s, s') {
      ReceiverStepKeeps(s.ch, s'.ch);
    } else if s.loop.Notifying? && s.loop.left > 0 && s.ch.receiver.Idle? && s.ch.queue != [] {
      ReceiverStepKeeps(s.ch, s'.ch);
    } else {
      QueuedIsFree(s.ch, s'.ch);
    }
  }

  /** The channel's invariant does not depend on `queued`. */
  lemma QueuedIsFree<M>(s: Channel.State<M>, s': Channel.State<M>)
    requires Channel.Invariant(s) && s' == s.(queued := s'.queued)
    ensures Channel.Invariant(s')
  {
  }

  lemma InitInvariant<M>(s: State<M>)
    requires Init(s)
    ensures Invariant(s)
  {
    assert SentCalls(s.ch.calls) == {};
  }

  lemma {:induction false} RunKeepsInvariant<M>(states: seq<State<M>>, k: nat)
    requires Run(states) && k < |states|
    ensures Invariant(states[k])
  {
    hide Invariant, Init, SenderActs, LoopStep, Fits;
    if k == 0 {
      InitInvariant(states[0]);
    } else {
      RunKeepsInvariant(states, k - 1);
      var i := k - 1;
      assert SenderActs(states[i], states[i + 1]) || LoopStep(states[i], states[i + 1]);
      if SenderActs(states[i], states[i + 1]) {
        SenderActsKeeps(states[k - 1], states[k]);
      } else {
        LoopStepKeeps(states[k - 1], states[k]);
      }
    }
  }

  /** Whenever the event loop is about to poll while the channel holds messages, the receiver's node
      is queued, so the poll does not block, or some sender is still inside its `send`; and with no
      sender inside a call, the poll calls `notify` again. */
  lemma WaitingMessagesAreNoticed<M>(states: seq<State<M>>, k: nat)
    requires Run(states) && k < |states|
    requires states[k].loop.BeforePoll? && states[k].ch.queue != []
    ensures states[k].ch.queued || exists c :: c in states[k].ch.calls && states[k].ch.calls[c].Sending()
    ensures states[k].ch.calls == map[] ==>
              states[k].ch.queued && PollReread(PollDequeue(states[k])).loop == Notifying(states[k].cap)
  {
    RunKeepsInvariant(states, k);
    var s := states[k].ch;
    if c :| c in s.calls {
      assert s.calls[c].Sending();
    } else {
      assert s.calls == map[];
      assert SentCalls(s.calls) == {};
    }
  }

  // ----- at most `messages_per_tick` messages -----

  /** The step takes a message off the queue. */
  predicate Takes<M>(s: State<M>, s': State<M>) {
    s.ch.receiver.Idle? && s'.ch.receiver.Received?
  }

  /** The messages taken by the steps from `i` to `k`. */
  function Taken<M>(states: seq<State<M>>, i: nat, k: nat): nat
    requires i <= k < |states|
    decreases k
  {
    if i == k then 0 else Taken(states, i, k - 1) + if Takes(states[k - 1], states[k]) then 1 else 0
  }

  lemma StepLeft<M>(s: State<M>, s': State<M>)
    requires Invariant(s) && (SenderActs(s, s') || LoopStep(s, s')) && s.loop.Notifying? && s'.loop.Notifying?
    ensures s'.cap == s.cap && s'.loop.left + (if Takes(s, s') then 1 else 0) == s.loop.left
  {
    hide Channel.Invariant, SenderStepBy;
    if SenderActs(s, s') {
      var act, c, h :| SenderStepBy(s.ch, act, c, h, s'.ch);
      SenderFrame(s.ch, act, c, h, s'.ch);
    }
  }

  /** One call of `notify` takes at most `messages_per_tick` messages; it starts with all of them left. */
  lemma {:induction false} TakesAtMostCap<M>(states: seq<State<M>>, i: nat, k: nat)
    requires Run(states) && 0 < i <= k < |states|
    requires !states[i - 1].loop.Notifying? && forall j | i <= j <= k :: states[j].loop.Notifying?
    ensures states[k].cap == states[i].cap && Taken(states, i, k) + states[k].loop.left == states[i].cap
    decreases k
  {
    hide Invariant, Init, SenderActs, LoopStep, Fits;
    if i < k {
      TakesAtMostCap(states, i, k - 1);
      var j := k - 1;
      assert SenderActs(states[j], states[j + 1]) || LoopStep(states[j], states[j + 1]);
      RunKeepsInvariant(states, j);
      StepLeft(states[j], states[k]);
    } else {
      var j := i - 1;
      assert SenderActs(states[j], states[j + 1]) || LoopStep(states[j], states[j + 1]);
      StartsWithCap(states[j], states[i]);
    }
  }

  lemma StartsWithCap<M>(s: State<M>, s': State<M>)
    requires SenderActs(s, s') || LoopStep(s, s')
    requires !s.loop.Notifying? && s'.loop.Notifying?
    ensures s'.loop.left == s'.cap
  {
    hide SenderStepBy;
  }

  // ----- `notify` on its own -----

  /** Readable exactly when there is a message to receive or a disconnection to tell. */
  predicate Truthful<M>(s: Channel.State<M>) {
    s.readable <==> s.queue != [] || s.dropCounted
  }

  lemma QuietCounts<M>(s: Channel.State<M>)
    requires Channel.Invariant(s) && Fits(s) && s.receiver.Idle? && s.queue != []
    requires s.calls == map[] && s.registered && !s.missed
    ensures s.readable && s.pending == |s.queue| + if s.dropCounted then 1 else 0
  {
    BalanceFits(s);
    assert SentCalls(s.calls) == {};
  }

  /** `Receiver::try_recv` on a non-empty queue, with its whole `dec`. Without interference the receiver is
      readable afterwards exactly when something is left to tell. */
  method ReceiveOne<M>(s: Channel.State<M>) returns (s': Channel.State<M>)
    requires Channel.Invariant(s) && Fits(s) && s.receiver.Idle? && s.queue != []
    ensures Channel.Invariant(s') && s'.receiver.Idle?
    ensures s'.queue == s.queue[1..] && s'.calls == s.calls && s'.handles == s.handles
    ensures s'.registered == s.registered && (s'.missed ==> s.missed) && s'.dropCounted == s.dropCounted
    ensures s.calls == map[] && s.registered && !s.missed ==> Truthful(s')
  {
    hide Channel.Invariant;
    if s.calls == map[] && s.registered && !s.missed {
      QuietCounts(s);
    }
    s' := TryRecv(s);
    ReceiverStepKeeps(s, s');
    var loaded := Load(s');
    ReceiverStepKeeps(s', loaded);
    s' := loaded;
    if s'.receiver.first == 1 {
      var cleared := Clear(s');
      ReceiverStepKeeps(s', cleared);
      s' := cleared;
    }
    var decremented := Decrement(s');
    ReceiverStepKeeps(s', decremented);
    s' := decremented;
    if s'.receiver.Resetting? {
      var reset := Reset(s');
      ReceiverStepKeeps(s', reset);
      s' := reset;
      if s'.receiver.Requeueing? {
        var requeued := Requeue(s');
        ReceiverStepKeeps(s', requeued);
        s' := requeued;
      }
    }
  }

  /** Without interference, `notify` handles the oldest messages in order, as many as the cap allows,
      and leaves the node queued if messages remain. */
  method NotifyAlone<M>(s: State<M>) returns (s': State<M>, handled: seq<M>)
    requires Invariant(s) && Fits(s.ch) && s.loop == Notifying(s.cap) && s.ch.receiver.Idle?
    ensures Invariant(s') && s'.loop.BeforePoll?
    ensures handled + s'.ch.queue == s.ch.queue
    ensures |handled| == if s.cap <= |s.ch.queue| then s.cap else |s.ch.queue|
    ensures s.ch.calls == map[] && s'.ch.queue != [] ==> s'.ch.queued
    ensures s.ch.calls == map[] && handled != [] ==> (s'.ch.readable <==> s'.ch.queue != [])
  {
    handled := [];
    var ch := s.ch;
    for i := 0 to s.cap
      invariant Channel.Invariant(ch) && Fits(ch) && ch.receiver.Idle?
      invariant handled + ch.queue == s.ch.queue && |handled| == i
      invariant ch.calls == s.ch.calls && ch.handles == s.ch.handles && ch.registered == s.ch.registered
      invariant (ch.missed ==> s.ch.missed) && ch.dropCounted == s.ch.dropCounted
      invariant s.ch.calls == map[] && handled != [] ==> Truthful(ch)
    {
      if ch.queue == [] {
        break;
      }
      handled := handled + [ch.queue[0]];
      ch := ReceiveOne(ch);
    }
    var rearmed := s.(ch := ch, armed := true, loop := Rearming);
    s' := RearmRead(rearmed);
    if s'.loop.RearmQueueing? {
      s' := RearmQueue(s');
      QueuedIsFree(ch, s'.ch);
    }
    if s.ch.calls == map[] && s'.ch.queue != [] {
      assert SentCalls(ch.calls) == {};
    }
  }
}
