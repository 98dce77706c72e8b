/** The lock-free readiness queue of src/poll.rs, one step per atomic operation. Any number of
    producers and the one poller interleave freely; all handles of a node stay alive. */
module ReadinessSteps {

  type Node = nat
  type Pid = nat
  type Ready = set<nat>

  /** A pointer to a readiness node. The sleep token is a node of its own, never queued. */
  datatype Ptr = Null | SleepToken | To(node: Node)

  /** Registration data, touched by the poller's thread only. */
  datatype Registration = Registration(token: nat, interest: Ready, edge: bool, oneshot: bool)

  /** An event pushed by the poller, and the node it is for. */
  datatype Event = Event(node: Node, kind: Ready, token: nat)

  /** `prepend_readiness_node`: load the head, write the node's link, compare-and-swap the head. */
  datatype Push = LoadingHead | Linking(curr: Ptr) | Prepending(curr: Ptr)

  /** A call of `set_readiness` with a non-empty readiness, after its store. */
  datatype Producer =
    | Stored(node: Node)               // about to claim `queued`
    | Pushing(node: Node, push: Push)  // has claimed it
    | Waking(sleep: nat)               // has replaced the sleep token: about to wake the poller

  datatype Poller =
    | Outside
    // `Poll::poll`
    | CheckingEmpty
    | Preparing
    | Selecting(asleep: bool)
    | CleaningUp
    | Taking
    // the loop of `ReadinessQueue::poll`
    | Draining
    | ReadingQueued(node: Node)
    | ReadingEvents(node: Node, wasQueued: bool)
    | Dequeuing(node: Node, wasQueued: bool)
    | Rereading(node: Node)
    | Requeuing(node: Node, push: Push, seen: Ready)
    | Reporting(node: Node, seen: Ready)
    // `RegistrationInner::update`
    | UpdateReading(node: Node)
    | UpdateQueuing(node: Node)
    | UpdatePushing(node: Node, push: Push)

  /** Who may touch a queued node's link. */
  datatype Owner = Free | Pusher(pid: Pid) | Chain | Batch | Hand

  /** A node's fields, with two of history: its owner, and whether a non-empty readiness has been
      stored since the poller last read `events`. */
  datatype NodeState = NodeState(events: Ready, queued: bool, next: Ptr, reg: Registration,
                                 owner: Owner, unseen: bool) {
    /** `poll_events` */
    function PollEvents(): Ready {
      events * reg.interest
    }
  }

  /** What the head and the poller's list stand for; how often the poller has put the sleep token in
      place and for which of these sleeps a producer was told to wake it; whether a `select` has
      failed with the sleep token in place; the nodes swapped out by the current poll, and which of
      them it has taken off its list and reported. */
  datatype History = History(chain: seq<Node>, drained: seq<Node>, sleeps: nat, told: seq<nat>, failedAsleep: bool,
                             swapped: set<Node>, taken: set<Node>, reported: seq<Event>)

  datatype State = State(nodes: map<Node, NodeState>, head: Ptr, batch: Ptr, byteUnread: bool,
                         producers: map<Pid, Producer>, poller: Poller, hist: History)

  predicate Init(s: State) {
    s == State(map[], Null, Null, false, map[], Outside, History([], [], 0, [], false, {}, {}, []))
  }

  function LinkFor(curr: Ptr): Ptr {
    if curr == SleepToken then Null else curr
  }

  function SetNode(s: State, n: Node, node: NodeState): State {
    s.(nodes := s.nodes[n := node])
  }

  /** A successful compare-and-swap of the head in `prepend_readiness_node`. */
  function Prepended(s: State, n: Node): State
    requires n in s.nodes
  {
    SetNode(s, n, s.nodes[n].(owner := Chain)).(head := To(n), hist := s.hist.(chain := [n] + s.hist.chain))
  }

  // ----- steps of a producer -----

  predicate CanStore(s: State, p: Pid, n: Node, ready: Ready) {
    p !in s.producers && n in s.nodes && ready != {}
  }

  function Store(s: State, p: Pid, n: Node, ready: Ready): State
    requires CanStore(s, p, n, ready)
  {
    SetNode(s, n, s.nodes[n].(events := ready, unseen := true)).(producers := s.producers[p := Stored(n)])
  }

  function StoreNone(s: State, n: Node): State
    requires n in s.nodes
  {
    SetNode(s, n, s.nodes[n].(events := {}))
  }

  predicate CanClaim(s: State, p: Pid) {
    p in s.producers && s.producers[p].Stored? && s.producers[p].node in s.nodes
  }

  function Claim(s: State, p: Pid): State
    requires CanClaim(s, p)
  {
    var n := s.producers[p].node;
    if s.nodes[n].queued then s.(producers := s.producers - {p})
    else
      SetNode(s, n, s.nodes[n].(queued := true, owner := Pusher(p)))
      .(producers := s.producers[p := Pushing(n, LoadingHead)])
  }

  predicate CanPush(s: State, p: Pid) {
    p in s.producers && s.producers[p].Pushing? && s.producers[p].node in s.nodes
  }

  function LoadHead(s: State, p: Pid): State
    requires CanPush(s, p) && s.producers[p].push.LoadingHead?
  {
    s.(producers := s.producers[p := Pushing(s.producers[p].node, Linking(s.head))])
  }

  function Link(s: State, p: Pid): State
    requires CanPush(s, p) && s.producers[p].push.Linking?
  {
    var n, curr := s.producers[p].node, s.producers[p].push.curr;
    SetNode(s, n, s.nodes[n].(next := LinkFor(curr))).(producers := s.producers[p := Pushing(n, Prepending(curr))])
  }

  function Prepend(s: State, p: Pid): State
    requires CanPush(s, p) && s.producers[p].push.Prepending?
  {
    var n, curr := s.producers[p].node, s.producers[p].push.curr;
    if s.head != curr then s.(producers := s.producers[p := Pushing(n, Linking(s.head))])
    else if curr != SleepToken then Prepended(s, n).(producers := s.producers - {p})
    else
      var s' := Prepended(s, n);
      s'.(producers := s.producers[p := Waking(s.hist.sleeps)], hist := s'.hist.(told := s.hist.told + [s.hist.sleeps]))
  }

  predicate CanWake(s: State, p: Pid) {
    p in s.producers && s.producers[p].Waking?
  }

  function Wake(s: State, p: Pid): State
    requires CanWake(s, p)
  {
    s.(byteUnread := true, producers := s.producers - {p})
  }

  // ----- steps of the poller: `Registration::new` and `update` -----

  function NewNode(s: State, n: Node, reg: Registration): State
    requires s.poller.Outside? && n !in s.nodes
  {
    SetNode(s, n, NodeState({}, false, Null, reg, Free, false))
  }

  function UpdateBegin(s: State, n: Node, reg: Registration): State
    requires s.poller.Outside? && n in s.nodes
  {
    SetNode(s, n, s.nodes[n].(reg := reg)).(poller := UpdateReading(n))
  }

  function UpdateRead(s: State): State
    requires s.poller.UpdateReading? && s.poller.node in s.nodes
  {
    s.(poller := if s.nodes[s.poller.node].events == {} then Outside else UpdateQueuing(s.poller.node))
  }

  function UpdateClaim(s: State): State
    requires s.poller.UpdateQueuing? && s.poller.node in s.nodes
  {
    var n := s.poller.node;
    if s.nodes[n].queued then s.(poller := Outside)
    else SetNode(s, n, s.nodes[n].(queued := true, owner := Hand)).(poller := UpdatePushing(n, LoadingHead))
  }

  /** The poller pushes a node it holds, in `update` or for a level-triggered node in `poll`. */
  predicate PollerPushes(s: State) {
    (s.poller.UpdatePushing? || s.poller.Requeuing?) && s.poller.node in s.nodes
  }

  function PollerLoadHead(s: State): State
    requires PollerPushes(s) && s.poller.push.LoadingHead?
  {
    s.(poller := s.poller.(push := Linking(s.head)))
  }

  function PollerLink(s: State): State
    requires PollerPushes(s) && s.poller.push.Linking?
  {
    var n, curr := s.poller.node, s.poller.push.curr;
    SetNode(s, n, s.nodes[n].(next := LinkFor(curr))).(poller := s.poller.(push := Prepending(curr)))
  }

  /** Whether the poller's own push succeeds on the sleep token: the `needs_wakeup` that both
      callers assert to be false. */
  predicate NeedsWakeup(s: State) {
    PollerPushes(s) && s.poller.push.Prepending? && s.head == s.poller.push.curr == SleepToken
  }

  function PollerPrepend(s: State): State
    requires PollerPushes(s) && s.poller.push.Prepending?
  {
    if s.head != s.poller.push.curr then s.(poller := s.poller.(push := Linking(s.head)))
    else
      var next := if s.poller.UpdatePushing? then Outside else Reporting(s.poller.node, s.poller.seen);
      Prepended(s, s.poller.node).(poller := next)
  }

  // ----- steps of the poller: `Poll::poll` -----

  function PollBegin(s: State): State
    requires s.poller.Outside?
  {
    s.(poller := CheckingEmpty)
  }

  function CheckEmpty(s: State): State
    requires s.poller.CheckingEmpty?
  {
    s.(poller := if s.head != Null then Selecting(false) else Preparing)
  }

  function Prepare(s: State): State
    requires s.poller.Preparing?
  {
    if s.head == Null then
      s.(head := SleepToken, poller := Selecting(true), hist := s.hist.(sleeps := s.hist.sleeps + 1))
    else s.(poller := Selecting(false))
  }

  /** `select` may return for any reason; it reports the awakener only when its byte is unread. */
  function SelectReturn(s: State, awoken: bool): State
    requires s.poller.Selecting? && (awoken ==> s.byteUnread)
  {
    s.(poller := if awoken then CleaningUp else Taking)
  }

  function SelectFail(s: State): State
    requires s.poller.Selecting?
  {
    s.(poller := Outside, hist := s.hist.(failedAsleep := s.head == SleepToken))
  }

  function CleanUp(s: State): State
    requires s.poller.CleaningUp?
  {
    s.(byteUnread := false, poller := Taking)
  }

  function Take(s: State): State
    requires s.poller.Taking?
  {
    s.(nodes := map n | n in s.nodes :: if s.nodes[n].owner == Chain then s.nodes[n].(owner := Batch) else s.nodes[n],
       batch := LinkFor(s.head), head := Null, poller := Draining,
       hist := s.hist.(chain := [], drained := s.hist.chain, failedAsleep := false,
                      swapped := (set n | n in s.hist.chain), taken := {}, reported := []))
  }

  // ----- steps of the poller: the loop of `ReadinessQueue::poll` -----

  function Tail(c: seq<Node>): seq<Node> {
    if c == [] then [] else c[1..]
  }

  function NextNode(s: State): State
    requires s.poller.Draining? && (s.batch.To? ==> s.batch.node in s.nodes)
  {
    if !s.batch.To? then s.(poller := Outside)
    else
      var n := s.batch.node;
      SetNode(s, n, s.nodes[n].(next := Null, owner := Hand))
      .(batch := s.nodes[n].next, poller := ReadingQueued(n),
        hist := s.hist.(drained := Tail(s.hist.drained), taken := s.hist.taken + {n}))
  }

  function ReadQueued(s: State): State
    requires s.poller.ReadingQueued? && s.poller.node in s.nodes
  {
    s.(poller := ReadingEvents(s.poller.node, s.nodes[s.poller.node].queued))
  }

  function ReadEvents(s: State): State
    requires s.poller.ReadingEvents? && s.poller.node in s.nodes
  {
    var n := s.poller.node;
    var seen := s.nodes[n].PollEvents();
    var off := s.nodes[n].reg.edge || seen == {};
    SetNode(s, n, s.nodes[n].(unseen := false))
    .(poller := if off then Dequeuing(n, s.poller.wasQueued) else Requeuing(n, LoadingHead, seen))
  }

  function Dequeue(s: State): State
    requires s.poller.Dequeuing? && s.poller.node in s.nodes
  {
    var n := s.poller.node;
    if s.nodes[n].queued == s.poller.wasQueued then
      SetNode(s, n, s.nodes[n].(queued := false, owner := Free)).(poller := Rereading(n))
    else s.(poller := ReadingEvents(n, s.nodes[n].queued))
  }

  function Reread(s: State): State
    requires s.poller.Rereading? && s.poller.node in s.nodes
  {
    var n := s.poller.node;
    SetNode(s, n, s.nodes[n].(unseen := false)).(poller := Reporting(n, s.nodes[n].PollEvents()))
  }

  function Report(s: State): State
    requires s.poller.Reporting? && s.poller.node in s.nodes
  {
    var n := s.poller.node;
    if s.poller.seen == {} then s.(poller := Draining)
    else
      SetNode(s, n, s.nodes[n].(reg := if s.nodes[n].reg.oneshot then Disabled(s.nodes[n].reg) else s.nodes[n].reg))
      .(poller := Draining,
        hist := s.hist.(reported := s.hist.reported + [Event(n, s.poller.seen, s.nodes[n].reg.token)]))
  }

  /** `RegistrationData::disable` */
  function Disabled(reg: Registration): Registration {
    reg.(interest := {}, edge := false, oneshot := false)
  }

  // ----- runs -----

  /** A step of producer `p`; the other arguments are its call's node and readiness. */
  predicate ProducerStepBy(s: State, p: Pid, n: Node, ready: Ready, s': State) {
    || (CanStore(s, p, n, ready) && s' == Store(s, p, n, ready))
    || (n in s.nodes && s' == StoreNone(s, n))
    || (CanClaim(s, p) && s' == Claim(s, p))
    || (CanPush(s, p) && s.producers[p].push.LoadingHead? && s' == LoadHead(s, p))
    || (CanPush(s, p) && s.producers[p].push.Linking? && s' == Link(s, p))
    || (CanPush(s, p) && s.producers[p].push.Prepending? && s' == Prepend(s, p))
    || (CanWake(s, p) && s' == Wake(s, p))
  }

  ghost predicate ProducerStep(s: State, s': State) {
    exists p, n, ready :: ProducerStepBy(s, p, n, ready, s')
  }

  /** A step of the poller's thread for node `n`, or its push of a node it holds. */
  predicate RegistrationStepFor(s: State, n: Node, reg: Registration, s': State) {
    || (s.poller.Outside? && n !in s.nodes && s' == NewNode(s, n, reg))
    || (s.poller.Outside? && n in s.nodes && s' == UpdateBegin(s, n, reg))
    || (s.poller.UpdateReading? && s.poller.node in s.nodes && s' == UpdateRead(s))
    || (s.poller.UpdateQueuing? && s.poller.node in s.nodes && s' == UpdateClaim(s))
    || (PollerPushes(s) && s.poller.push.LoadingHead? && s' == PollerLoadHead(s))
    || (PollerPushes(s) && s.poller.push.Linking? && s' == PollerLink(s))
    || (PollerPushes(s) && s.poller.push.Prepending? && s' == PollerPrepend(s))
  }

  ghost predicate RegistrationStep(s: State, s': State) {
    exists n, reg :: RegistrationStepFor(s, n, reg, s')
  }

  ghost predicate SleepStep(s: State, s': State) {
    || (s.poller.Outside? && s' == PollBegin(s))
    || (s.poller.CheckingEmpty? && s' == CheckEmpty(s))
    || (s.poller.Preparing? && s' == Prepare(s))
    || (s.poller.Selecting? && s' == SelectReturn(s, false))
    || (s.poller.Selecting? && s.byteUnread && s' == SelectReturn(s, true))
    || (s.poller.Selecting? && s' == SelectFail(s))
    || (s.poller.CleaningUp? && s' == CleanUp(s))
    || (s.poller.Taking? && s' == Take(s))
  }

  ghost predicate DrainStep(s: State, s': State) {
    || (s.poller.Draining? && (s.batch.To? ==> s.batch.node in s.nodes) && s' == NextNode(s))
    || (s.poller.ReadingQueued? && s.poller.node in s.nodes && s' == ReadQueued(s))
    || (s.poller.ReadingEvents? && s.poller.node in s.nodes && s' == ReadEvents(s))
    || (s.poller.Dequeuing? && s.poller.node in s.nodes && s' == Dequeue(s))
    || (s.poller.Rereading? && s.poller.node in s.nodes && s' == Reread(s))
    || (s.poller.Reporting? && s.poller.node in s.nodes && s' == Report(s))
  }

  ghost predicate Step(s: State, s': State) {
    ProducerStep(s, s') || RegistrationStep(s, s') || SleepStep(s, s') || DrainStep(s, s')
  }

  ghost predicate Run(states: seq<State>) {
    && states != []
    && Init(states[0])
    && forall i {:trigger states[i + 1]} | 0 <= i < |states| - 1 :: Step(states[i], states[i + 1])
  }

  // ----- the invariant: ownership -----

  predicate Holds(poller: Poller, n: Node) {
    && (poller.ReadingQueued? || poller.ReadingEvents? || poller.Dequeuing? || poller.Requeuing?
        || poller.UpdatePushing?)
    && poller.node == n
  }

  /** The recorded owner of a node is right, and the node is queued exactly when it has one. */
  predicate NodeOk(s: State, n: Node)
    requires n in s.nodes
  {
    var node := s.nodes[n];
    && (node.queued <==> node.owner != Free)
    && (node.owner == Chain <==> n in s.hist.chain)
    && (node.owner == Batch <==> n in s.hist.drained)
    && (node.owner == Hand <==> Holds(s.poller, n))
    && (node.owner.Pusher? ==>
          var p := node.owner.pid; p in s.producers && s.producers[p].Pushing? && s.producers[p].node == n)
  }

  predicate PushOk(s: State, n: Node, push: Push)
    requires n in s.nodes
  {
    push.Prepending? ==> s.nodes[n].next == LinkFor(push.curr)
  }

  predicate ProducerOk(s: State, p: Pid)
    requires p in s.producers
  {
    match s.producers[p]
    case Stored(n) => n in s.nodes
    case Pushing(n, push) => n in s.nodes && s.nodes[n].owner == Pusher(p) && PushOk(s, n, push)
    case Waking(_) => true
  }

  predicate PollerOk(s: State) {
    match s.poller
    case Outside => true
    case CheckingEmpty => true
    case Preparing => true
    case Selecting(_) => true
    case CleaningUp => true
    case Taking => true
    case Draining => true
    case ReadingQueued(n) => n in s.nodes
    case ReadingEvents(n, wasQueued) => n in s.nodes && wasQueued
    case Dequeuing(n, wasQueued) => n in s.nodes && wasQueued
    case Rereading(n) => n in s.nodes
    case Requeuing(n, push, _) => n in s.nodes && PushOk(s, n, push)
    case Reporting(n, _) => n in s.nodes
    case UpdateReading(n) => n in s.nodes
    case UpdateQueuing(n) => n in s.nodes
    case UpdatePushing(n, push) => n in s.nodes && PushOk(s, n, push)
  }

  predicate Owned(s: State) {
    && (forall n {:trigger NodeOk(s, n)} | n in s.nodes :: NodeOk(s, n))
    && (forall p {:trigger ProducerOk(s, p)} | p in s.producers :: ProducerOk(s, p))
    && PollerOk(s)
  }

  // ----- the invariant: chains -----

  /** The pointer to position `i` of a chain, null past its end. */
  function At(c: seq<Node>, i: nat): Ptr {
    if i < |c| then To(c[i]) else Null
  }

  predicate LinkOk(s: State, c: seq<Node>, i: nat)
    requires i < |c|
  {
    c[i] in s.nodes && s.nodes[c[i]].next == At(c, i + 1)
  }

  /** From `p`, the links lead through exactly the nodes of `c`, and never through the sleep token. */
  predicate IsChain(s: State, p: Ptr, c: seq<Node>) {
    && p == At(c, 0)
    && (forall i {:trigger LinkOk(s, c, i)} | 0 <= i < |c| :: LinkOk(s, c, i))
    && (forall i, j | 0 <= i < j < |c| :: c[i] != c[j])
  }

  predicate Chained(s: State) {
    IsChain(s, LinkFor(s.head), s.hist.chain) && IsChain(s, s.batch, s.hist.drained)
  }

  // ----- the invariant: sleeping and waking -----

  /** The poller is in the loop over a swapped-out chain. */
  predicate InDrain(poller: Poller) {
    || poller.Draining? || poller.ReadingQueued? || poller.ReadingEvents? || poller.Dequeuing?
    || poller.Rereading? || poller.Requeuing? || poller.Reporting?
  }

  /** The sleep token is in place only between `prepare_for_sleep` and `take_ready`, or after a
      failed `select`. */
  predicate Phased(s: State) {
    && (!InDrain(s.poller) ==> s.hist.drained == [])
    && (s.hist.failedAsleep ==> !InDrain(s.poller) && s.head != Null)
    && (s.head == SleepToken ==>
          s.hist.failedAsleep || s.poller == Selecting(true) || s.poller.CleaningUp? || s.poller.Taking?)
  }

  /** A sleeping poller whose token has been replaced has been woken or is about to be. */
  ghost predicate Wakeable(s: State) {
    s.poller == Selecting(true) && s.head != SleepToken ==>
      s.byteUnread || exists p :: p in s.producers && s.producers[p].Waking?
  }

  /** Producers are told to wake at most once per sleep. */
  predicate ToldOnce(s: State) {
    && (forall i, j | 0 <= i < j < |s.hist.told| :: s.hist.told[i] < s.hist.told[j])
    && (forall i | 0 <= i < |s.hist.told| :: s.hist.told[i] <= s.hist.sleeps)
    && (s.head == SleepToken ==> forall i | 0 <= i < |s.hist.told| :: s.hist.told[i] < s.hist.sleeps)
  }

  // ----- the invariant: notifications -----

  /** A stored readiness that the poller has not read since is still on its way to a read. */
  ghost predicate OnItsWay(s: State, n: Node)
    requires n in s.nodes
  {
    || s.nodes[n].owner != Free
    || s.poller == Rereading(n)
    || exists p :: p in s.producers && s.producers[p] == Stored(n)
  }

  ghost predicate NothingLost(s: State) {
    forall n {:trigger OnItsWay(s, n)} | n in s.nodes :: s.nodes[n].unseen ==> OnItsWay(s, n)
  }

  /** The current poll goes once through the nodes it swapped out. */
  predicate ReportedOnce(s: State) {
    && (forall i, j | 0 <= i < j < |s.hist.reported| :: s.hist.reported[i].node != s.hist.reported[j].node)
    && (forall i | 0 <= i < |s.hist.reported| :: s.hist.reported[i].node in s.hist.taken)
    && s.hist.taken <= s.hist.swapped
    && (forall n <- s.hist.drained :: n in s.hist.swapped && n !in s.hist.taken)
    && (forall n <- s.hist.swapped :: n in s.hist.taken || n in s.hist.drained)
    && (InDrain(s.poller) && !s.poller.Draining? ==>
          && s.poller.node in s.hist.taken
          && forall i | 0 <= i < |s.hist.reported| :: s.hist.reported[i].node != s.poller.node)
  }

  ghost predicate Invariant(s: State) {
    Owned(s) && Chained(s) && Phased(s) && Wakeable(s) && ToldOnce(s) && NothingLost(s) && ReportedOnce(s)
  }
}
