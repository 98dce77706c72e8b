/** The readiness counter of src/channel.rs, one step per atomic operation: any number of senders
    race with the one receiver on `pending` and on the readiness of the receiver's node. */
module Channel {

  const WORD: nat := 0x1_0000_0000_0000_0000

  /** The counter is a machine word; it wraps. */
  function Wrap(x: int): nat {
    x % WORD
  }

  /** A call of `send`, or the drop of the last sender. */
  datatype Call =
    | Sent(handle: nat)      // the message is in the queue; about to increment `pending`
    | Storing(handle: nat)   // found `pending` at zero: about to set readable
    | Queueing(handle: nat)  // has stored readable: about to queue the node
    | Dropping               // `senders` has reached zero: about to increment `pending`
    | DropStoring
    | DropQueueing
  {
    predicate Sending() {
      Sent? || Storing? || Queueing?
    }

    predicate AboutToSet() {
      Storing? || DropStoring?
    }

    predicate AboutToQueue() {
      Queueing? || DropQueueing?
    }
  }

  datatype Receiver =
    | Idle
    | Received                // has taken a message: about to load `pending`
    | Loaded(first: nat)
    | Cleared                 // loaded 1 and unset readiness: about to decrement
    | Resetting               // more messages had arrived: about to set readable again
    | Requeueing
    | Registering(seen: nat)  // inside `register`: has loaded `pending`, about to publish the handle

  /** `queue` is the mpsc queue; `readable` and `queued` belong to the receiver's node;
      `dropCounted` records that the last sender's drop has incremented `pending`, `missed` that
      a `register` has overlooked messages and no `dec` has looked at readiness since. */
  datatype State<M> = State(queue: seq<M>, pending: nat, senders: nat, handles: set<nat>, calls: map<nat, Call>,
                            receiver: Receiver, registered: bool, readable: bool, queued: bool,
                            dropCounted: bool, missed: bool)

  /** `channel()`: one sender, nothing sent. */
  predicate Init<M(==)>(s: State<M>) {
    |s.handles| == 1 && s == State([], 0, 1, s.handles, map[], Idle, false, false, false, false, false)
  }

  /** A machine holds fewer than 2^62 messages and calls under way. */
  predicate Fits<M>(s: State<M>) {
    |s.queue| + |s.calls| < 0x4000_0000_0000_0000
  }

  // ----- senders -----

  function Send<M>(s: State<M>, c: nat, h: nat, m: M): State<M>
    requires c !in s.calls && h in s.handles
  {
    s.(queue := s.queue + [m], calls := s.calls[c := Sent(h)])
  }

  /** The `fetch_add` of `inc`. */
  function Increment<M>(s: State<M>, c: nat): State<M>
    requires c in s.calls && (s.calls[c].Sent? || s.calls[c].Dropping?)
  {
    var next := if s.calls[c].Sent? then Storing(s.calls[c].handle) else DropStoring;
    s.(pending := Wrap(s.pending + 1),
       calls := if s.pending == 0 then s.calls[c := next] else s.calls - {c},
       dropCounted := s.dropCounted || s.calls[c].Dropping?)
  }

  function SetReadable<M>(s: State<M>, c: nat): State<M>
    requires c in s.calls && s.calls[c].AboutToSet()
  {
    if s.registered then
      var next := if s.calls[c].Storing? then Queueing(s.calls[c].handle) else DropQueueing;
      s.(readable := true, calls := s.calls[c := next])
    else s.(calls := s.calls - {c})
  }

  function QueueNode<M>(s: State<M>, c: nat): State<M>
    requires c in s.calls && s.calls[c].AboutToQueue()
  {
    s.(queued := true, calls := s.calls - {c})
  }

  function Clone<M>(s: State<M>, h: nat): State<M>
    requires s.handles != {} && h !in s.handles
  {
    s.(handles := s.handles + {h}, senders := s.senders + 1)
  }

  /** A handle is dropped only when no call is using it. */
  predicate Droppable<M>(s: State<M>, h: nat) {
    h in s.handles && forall c <- s.calls :: s.calls[c].Sending() ==> s.calls[c].handle != h
  }

  function Drop<M>(s: State<M>, c: nat, h: nat): State<M>
    requires c !in s.calls && Droppable(s, h) && 0 < s.senders
  {
    s.(handles := s.handles - {h}, senders := s.senders - 1,
       calls := if s.senders == 1 then s.calls[c := Dropping] else s.calls)
  }

  /** The atomic operations of senders. */
  datatype Act = Sends | Increments | SetsReadable | QueuesNode | Clones | Drops

  predicate SenderStepBy<M(==)>(s: State<M>, act: Act, c: nat, h: nat, s': State<M>) {
    match act
    case Sends => c !in s.calls && h in s.handles && |s'.queue| == |s.queue| + 1
        && s' == Send(s, c, h, s'.queue[|s.queue|])
    case Increments => c in s.calls && (s.calls[c].Sent? || s.calls[c].Dropping?) && s' == Increment(s, c)
    case SetsReadable => c in s.calls && s.calls[c].AboutToSet() && s' == SetReadable(s, c)
    case QueuesNode => c in s.calls && s.calls[c].AboutToQueue() && s' == QueueNode(s, c)
    case Clones => s.handles != {} && h !in s.handles && s' == Clone(s, h)
    case Drops => c !in s.calls && Droppable(s, h) && 0 < s.senders && s' == Drop(s, c, h)
  }

  // ----- the receiver -----

  function TryRecv<M>(s: State<M>): State<M>
    requires s.receiver.Idle? && s.queue != []
  {
    s.(queue := s.queue[1..], receiver := Received)
  }

  function Load<M>(s: State<M>): State<M>
    requires s.receiver.Received?
  {
    s.(receiver := Loaded(s.pending))
  }

  function Clear<M>(s: State<M>): State<M>
    requires s.receiver == Loaded(1)
  {
    s.(readable := if s.registered then false else s.readable, receiver := Cleared, missed := false)
  }

  predicate AboutToDecrement(r: Receiver) {
    r.Cleared? || (r.Loaded? && r.first != 1)
  }

  function Decrement<M>(s: State<M>): State<M>
    requires AboutToDecrement(s.receiver)
  {
    s.(pending := Wrap(s.pending - 1),
       receiver := if s.receiver.Cleared? && s.pending > 1 then Resetting else Idle)
  }

  function Reset<M>(s: State<M>): State<M>
    requires s.receiver.Resetting?
  {
    if s.registered then s.(readable := true, receiver := Requeueing) else s.(receiver := Idle)
  }

  function Requeue<M>(s: State<M>): State<M>
    requires s.receiver.Requeueing?
  {
    s.(queued := true, receiver := Idle)
  }

  /** `register` looks at the counter first and sets its new node readable if it is not zero. */
  function RegisterLoad<M>(s: State<M>): State<M>
    requires s.receiver.Idle? && !s.registered
  {
    s.(readable := s.pending > 0, queued := s.pending > 0, receiver := Registering(s.pending))
  }

  /** Messages have been counted since the counter was seen at zero, and no sender is left that found
      it at zero and has yet to look for the registration. */
  predicate Overlooks<M>(s: State<M>)
    requires s.receiver.Registering?
  {
    s.receiver.seen == 0 && s.pending > 0 && forall c <- s.calls :: !s.calls[c].AboutToSet()
  }

  /** Only then can senders find the readiness handle. */
  function RegisterFill<M>(s: State<M>): State<M>
    requires s.receiver.Registering?
  {
    s.(registered := true, receiver := Idle, missed := s.missed || Overlooks(s))
  }

  predicate ReceiverStep<M(==)>(s: State<M>, s': State<M>) {
    || (s.receiver.Idle? && s.queue != [] && s' == TryRecv(s))
    || (s.receiver.Received? && s' == Load(s))
    || (s.receiver == Loaded(1) && s' == Clear(s))
    || (AboutToDecrement(s.receiver) && s' == Decrement(s))
    || (s.receiver.Resetting? && s' == Reset(s))
    || (s.receiver.Requeueing? && s' == Requeue(s))
    || (s.receiver.Idle? && !s.registered && s' == RegisterLoad(s))
    || (s.receiver.Registering? && s' == RegisterFill(s))
  }

  ghost predicate Step<M>(s: State<M>, s': State<M>) {
    (exists act, c, h :: SenderStepBy(s, act, c, h, s')) || ReceiverStep(s, s')
  }

  ghost predicate Run<M>(states: seq<State<M>>) {
    && states != []
    && Init(states[0])
    && (forall i | 0 <= i < |states| :: Fits(states[i]))
    && forall i {:trigger states[i + 1]} | 0 <= i < |states| - 1 :: Step(states[i], states[i + 1])
  }

  // ----- accounting -----

  /** Sends whose message is in the queue but not yet counted. */
  function SentCalls(calls: map<nat, Call>): set<nat> {
    set c | c in calls && calls[c].Sent?
  }

  /** A message taken but not yet discounted. */
  predicate Undiscounted(r: Receiver) {
    r.Received? || r.Loaded? || r.Cleared?
  }

  /** Messages in the queue, minus sends not yet counted, plus a receive not yet discounted, plus one
      once the last sender's drop has been counted. */
  function Balance<M>(s: State<M>): int {
    |s.queue| - |SentCalls(s.calls)| + (if Undiscounted(s.receiver) then 1 else 0) + (if s.dropCounted then 1 else 0)
  }

  predicate Accounted<M>(s: State<M>) {
    s.pending == Wrap(Balance(s))
  }

  /** `senders` counts the handles; calls use live handles; the last drop happens once, at the end. */
  predicate Handled<M>(s: State<M>) {
    && s.senders == |s.handles|
    && (forall c {:trigger s.calls[c]} | c in s.calls && s.calls[c].Sending() :: s.calls[c].handle in s.handles)
    && (s.handles != {} ==> !s.dropCounted && forall c <- s.calls :: s.calls[c].Sending())
    && (forall c, d | c in s.calls && d in s.calls :: s.calls[c].Dropping? && s.calls[d].Dropping? ==> c == d)
    && (s.dropCounted ==> forall c <- s.calls :: !s.calls[c].Dropping?)
  }

  /** Positive balance means readable, or about to be, unless a `register` overlooked it. */
  ghost predicate Noticed<M>(s: State<M>) {
    s.registered && Balance(s) > 0 && !s.missed ==>
      || s.readable
      || (exists c :: c in s.calls && s.calls[c].AboutToSet())
      || s.receiver.Cleared?
      || s.receiver.Resetting?
  }

  /** Once `dec` has loaded 1, at least one counted message is left until it decrements. */
  predicate LoadedOk<M>(s: State<M>) {
    s.receiver == Loaded(1) || s.receiver.Cleared? ==> Balance(s) >= 1
  }

  predicate RegisteringOk<M>(s: State<M>) {
    s.receiver.Registering? ==>
      && !s.registered
      && (s.readable <==> s.receiver.seen > 0)
      && (s.receiver.seen == 0 ==> Balance(s) >= 0)
  }

  /** What overlooked messages leave behind. */
  predicate MissedOk<M>(s: State<M>) {
    s.missed ==>
      && s.registered && !s.readable && Balance(s) > 0
      && (forall c <- s.calls :: !s.calls[c].AboutToSet())
      && (s.receiver.Idle? || s.receiver.Received? || (s.receiver.Loaded? && 1 <= s.receiver.first <= Balance(s)))
  }

  ghost predicate Invariant<M>(s: State<M>) {
    Accounted(s) && Handled(s) && Noticed(s) && LoadedOk(s) && RegisteringOk(s) && MissedOk(s)
  }

  lemma SentAdded(calls: map<nat, Call>, c: nat, h: nat)
    requires c !in calls
    ensures |SentCalls(calls[c := Sent(h)])| == |SentCalls(calls)| + 1
  {
    assert SentCalls(calls[c := Sent(h)]) == SentCalls(calls) + {c};
  }

  lemma SentRemoved(calls: map<nat, Call>, c: nat, call: Call)
    requires c in calls && !call.Sent?
    ensures |SentCalls(calls - {c})| == |SentCalls(calls[c := call])|
    ensures |SentCalls(calls - {c})| == |SentCalls(calls)| - if calls[c].Sent? then 1 else 0
  {
    assert SentCalls(calls - {c}) == SentCalls(calls[c := call]) == SentCalls(calls) - {c};
  }

  lemma SentUnchanged(calls: map<nat, Call>, c: nat, call: Call)
    requires c !in calls && !call.Sent?
    ensures |SentCalls(calls[c := call])| == |SentCalls(calls)|
  {
    assert SentCalls(calls[c := call]) == SentCalls(calls);
  }

  /** The balance stays within half a word, so tests of the wrapped counter tell the truth. */
  lemma BalanceFits<M>(s: State<M>)
    requires Fits(s)
    ensures -0x4000_0000_0000_0000 < Balance(s) < 0x4000_0000_0000_0002
    ensures Balance(s) >= 0 ==> Wrap(Balance(s)) == Balance(s)
    ensures Balance(s) < 0 ==> Wrap(Balance(s)) == Balance(s) + WORD
  {
    assert SentCalls(s.calls) <= s.calls.Keys;
    SubsetSize(SentCalls(s.calls), s.calls.Keys);
  }

  lemma SubsetSize(a: set<nat>, b: set<nat>)
    requires a <= b
    ensures |a| <= |b|
  {
    assert b == a + (b - a);
  }

  lemma WrapAdd(x: int, d: int)
    ensures Wrap(Wrap(x) + d) == Wrap(x + d)
  {
    var q := x / WORD;
    assert Wrap(x) == x - q * WORD;
  }
}
