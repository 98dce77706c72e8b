/** The readiness queue of src/poll.rs with one API call per step: a map of nodes and the list of
    those queued. The class in `ReadinessQueue` refines it. */
module QueueModel {

  /** The bits of `Ready`; `Drop` is private to the queue. */
  datatype Bit = Readable | Writable | Error | Hup | Drop
  type Ready = set<Bit>

  datatype PollOpt = PollOpt(edge: bool, oneshot: bool)
  datatype Event = Event(kind: Ready, token: nat)

  datatype Info = Info(events: Ready, queued: bool, refs: nat, token: nat, interest: Ready, opts: PollOpt)

  /** `handles` holds each node once per live `RegistrationInner`. */
  datatype Model<N(==)> = Model(nodes: map<N, Info>, ready: seq<N>, handles: multiset<N>)

  /** An event pushed by `poll`, and the node it is for. */
  datatype Report<N> = Report(node: N, event: Event)

  // ----- the calls -----

  function Disabled(i: Info): Info {
    i.(interest := {}, opts := PollOpt(false, false))
  }

  /** `queue_for_processing` */
  function Enqueue<N>(m: Model<N>, n: N): Model<N>
    requires n in m.nodes
  {
    if m.nodes[n].queued then m
    else m.(nodes := m.nodes[n := m.nodes[n].(queued := true)], ready := [n] + m.ready)
  }

  function SetReadiness<N>(m: Model<N>, n: N, ready: Ready): Model<N>
    requires n in m.nodes
  {
    var m' := m.(nodes := m.nodes[n := m.nodes[n].(events := ready)]);
    if ready == {} then m' else Enqueue(m', n)
  }

  function Update<N>(m: Model<N>, n: N, token: nat, interest: Ready, opts: PollOpt): Model<N>
    requires n in m.nodes
  {
    var m' := m.(nodes := m.nodes[n := m.nodes[n].(token := token, interest := interest, opts := opts)]);
    if m.nodes[n].events == {} then m' else Enqueue(m', n)
  }

  function NewNode<N>(m: Model<N>, n: N, token: nat, interest: Ready, opts: PollOpt): Model<N> {
    m.(nodes := m.nodes[n := Info({}, false, 1, token, interest, opts)], handles := m.handles + multiset{n})
  }

  function CloneHandle<N>(m: Model<N>, n: N): Model<N>
    requires n in m.nodes
  {
    m.(nodes := m.nodes[n := m.nodes[n].(refs := m.nodes[n].refs + 1)], handles := m.handles + multiset{n})
  }

  /** The last handle to go tells the queue to release the node. */
  function DropHandle<N>(m: Model<N>, n: N): Model<N>
    requires n in m.nodes && 0 < m.nodes[n].refs
  {
    var m' := m.(nodes := m.nodes[n := m.nodes[n].(refs := m.nodes[n].refs - 1)], handles := m.handles - multiset{n});
    if m.nodes[n].refs != 1 then m' else SetReadiness(m', n, {Drop})
  }

  /** Dropping a `Registration` disables the node before its handle goes. */
  function Disable<N>(m: Model<N>, n: N): Model<N>
    requires n in m.nodes
  {
    m.(nodes := m.nodes[n := Disabled(m.nodes[n])])
  }

  /** A new node `n` with `refs` handles. */
  function Added<N>(m: Model<N>, n: N, token: nat, interest: Ready, opts: PollOpt, refs: nat): Model<N> {
    m.(nodes := m.nodes[n := Info({}, false, refs, token, interest, opts)],
        handles := m.handles[n := m.handles[n] + refs])
  }

  lemma CloneAdds<N>(m: Model<N>, n: N, token: nat, interest: Ready, opts: PollOpt, refs: nat)
    ensures CloneHandle(Added(m, n, token, interest, opts, refs), n) == Added(m, n, token, interest, opts, refs + 1)
  {
  }

  lemma DropSubtracts<N>(m: Model<N>, n: N, token: nat, interest: Ready, opts: PollOpt, refs: nat)
    requires 1 < refs
    ensures DropHandle(Added(m, n, token, interest, opts, refs), n) == Added(m, n, token, interest, opts, refs - 1)
  {
    hide SetReadiness;
    assert m.handles[n := m.handles[n] + refs] - multiset{n} == m.handles[n := m.handles[n] + refs - 1];
  }

  /** `Registration::new` makes a node with one handle, clones the handle twice and lets the first one
      go. Two are left: the registration's and the readiness setter's. */
  lemma RegisterModel<N>(m: Model<N>, n: N, token: nat, interest: Ready, opts: PollOpt)
    requires n !in m.nodes
    ensures var m1 := NewNode(m, n, token, interest, opts);
            && n in m1.nodes && n in m1.handles
            && var m2 := CloneHandle(m1, n);
            && n in m2.nodes && n in m2.handles
            && var m3 := CloneHandle(m2, n);
            && n in m3.nodes && n in m3.handles && 0 < m3.nodes[n].refs
            && DropHandle(m3, n) == Added(m, n, token, interest, opts, 2)
  {
    hide CloneHandle, DropHandle;
    assert NewNode(m, n, token, interest, opts) == Added(m, n, token, interest, opts, 1);
    CloneAdds(m, n, token, interest, opts, 1);
    CloneAdds(m, n, token, interest, opts, 2);
    DropSubtracts(m, n, token, interest, opts, 3);
  }

  // ----- `poll` -----

  function PollEvents(i: Info): Ready {
    (i.interest + {Drop}) * i.events
  }

  predicate Released(i: Info) {
    Drop in PollEvents(i)
  }

  predicate Requeued(i: Info) {
    !Released(i) && !i.opts.edge && PollEvents(i) != {}
  }

  predicate Reported(i: Info) {
    !Released(i) && PollEvents(i) != {}
  }

  /** What one poll leaves of a node that is not released. */
  function Polled(i: Info): Info {
    var i' := i.(queued := Requeued(i));
    if Reported(i) && i.opts.oneshot then Disabled(i') else i'
  }

  /** The body of the loop, for one node taken off the list. */
  function PollNode<N>(m: Model<N>, n: N): Model<N>
    requires n in m.nodes
  {
    var i := m.nodes[n];
    if Released(i) then m.(nodes := m.nodes - {n})
    else m.(nodes := m.nodes[n := Polled(i)], ready := if Requeued(i) then [n] + m.ready else m.ready)
  }

  function ReportsOf<N>(m: Model<N>, n: N): seq<Report<N>>
    requires n in m.nodes
  {
    var i := m.nodes[n];
    if Reported(i) then [Report(n, Event(PollEvents(i), i.token))] else []
  }

  predicate Distinct<N(==)>(s: seq<N>) {
    forall i, j | 0 <= i < j < |s| :: s[i] != s[j]
  }

  /** The loop over the nodes swapped out. */
  function PollAll<N>(m: Model<N>, batch: seq<N>): (r: (Model<N>, seq<Report<N>>))
    requires Distinct(batch) && forall n <- batch :: n in m.nodes
    decreases |batch|
  {
    if batch == [] then (m, [])
    else
      var rest := PollAll(PollNode(m, batch[0]), batch[1..]);
      (rest.0, ReportsOf(m, batch[0]) + rest.1)
  }

  function EventsOf<N>(rs: seq<Report<N>>): (es: seq<Event>)
    ensures |es| == |rs| && forall i | 0 <= i < |rs| :: es[i] == rs[i].event
  {
    seq(|rs|, i requires 0 <= i < |rs| => rs[i].event)
  }

  lemma EventsConcat<N>(a: seq<Report<N>>, b: seq<Report<N>>)
    ensures EventsOf(a + b) == EventsOf(a) + EventsOf(b)
  {
  }

  lemma PollAllSplit<N>(m: Model<N>, batch: seq<N>)
    requires Distinct(batch) && batch != [] && forall n <- batch :: n in m.nodes
    ensures var m1 := PollNode(m, batch[0]);
            && (forall n <- batch[1..] :: n in m1.nodes) && m1.nodes.Keys <= m.nodes.Keys
            && PollAll(m, batch).0 == PollAll(m1, batch[1..]).0
            && EventsOf(PollAll(m, batch).1) == EventsOf(ReportsOf(m, batch[0])) + EventsOf(PollAll(m1, batch[1..]).1)
  {
    hide EventsOf, ReportsOf;
    assert forall x <- batch[1..] :: x != batch[0] && x in batch;
    EventsConcat(ReportsOf(m, batch[0]), PollAll(PollNode(m, batch[0]), batch[1..]).1);
  }

  lemma PollNodeOthers<N>(m: Model<N>, n: N, x: N)
    requires n in m.nodes && x != n
    ensures x in PollNode(m, n).nodes <==> x in m.nodes
    ensures x in PollNode(m, n).ready <==> x in m.ready
  {
  }

  lemma PollAllEmpty<N>(m: Model<N>)
    ensures PollAll(m, []) == (m, []) && EventsOf(PollAll(m, []).1) == []
  {
  }

  function Poll<N>(m: Model<N>): (Model<N>, seq<Report<N>>)
    requires Valid(m)
  {
    PollAll(m.(ready := []), m.ready)
  }

  // ----- validity -----

  predicate InfoOk<N>(m: Model<N>, n: N)
    requires n in m.nodes
  {
    var i := m.nodes[n];
    && (i.queued <==> n in m.ready)
    && i.refs == m.handles[n]
    && (i.refs == 0 ==> i.events == {Drop} && i.queued)
    && (i.refs > 0 ==> Drop !in i.events)
    && Drop !in i.interest
    && (!i.opts.edge && i.refs > 0 && PollEvents(i) != {} ==> i.queued)
  }

  predicate Valid<N>(m: Model<N>) {
    && Distinct(m.ready)
    && (forall n <- m.ready :: n in m.nodes)
    && (forall n {:trigger InfoOk(m, n)} | n in m.nodes :: InfoOk(m, n))
    && (forall n <- m.handles :: n in m.nodes)
  }

  // ----- a poll is pointwise -----

  /** Whatever the order of the list, a poll treats each node by itself: those released are gone, the
      others of the batch are polled once, the rest are untouched. */
  lemma {:induction false} PollAllNodes<N>(m: Model<N>, batch: seq<N>, n: N)
    requires Distinct(batch) && forall b <- batch :: b in m.nodes
    requires n in m.nodes
    ensures var m' := PollAll(m, batch).0;
            && m'.handles == m.handles
            && (n in m'.nodes <==> !(n in batch && Released(m.nodes[n])))
            && (n in m'.nodes ==> m'.nodes[n] == if n in batch then Polled(m.nodes[n]) else m.nodes[n])
            && (n in m'.ready <==> n in m.ready || (n in batch && Requeued(m.nodes[n])))
    decreases |batch|
  {
    if batch != [] {
      var b := batch[0];
      var m1 := PollNode(m, b);
      assert forall x <- batch[1..] :: x != b && x in batch;
      if n in m1.nodes {
        PollAllNodes(m1, batch[1..], n);
      } else {
        PollAllGone(m1, batch[1..], n);
      }
      assert n in batch <==> n == b || n in batch[1..];
    }
  }

  lemma {:induction false} PollAllGone<N>(m: Model<N>, batch: seq<N>, n: N)
    requires Distinct(batch) && forall b <- batch :: b in m.nodes
    requires n !in m.nodes
    ensures var m' := PollAll(m, batch).0;
            n !in m'.nodes && m'.handles == m.handles && (n in m'.ready <==> n in m.ready)
    decreases |batch|
  {
    if batch != [] {
      PollAllGone(PollNode(m, batch[0]), batch[1..], n);
    }
  }

  /** Each node of the batch is put back at most once. */
  lemma {:induction false} PollAllDistinct<N>(m: Model<N>, batch: seq<N>)
    requires Distinct(m.ready) && Distinct(batch) && forall b <- batch :: b in m.nodes && b !in m.ready
    ensures Distinct(PollAll(m, batch).0.ready)
    decreases |batch|
  {
    if batch != [] {
      PollAllDistinct(PollNode(m, batch[0]), batch[1..]);
    }
  }

  /** Distinct nodes of the batch, each with the readiness its interest asks for. */
  predicate ReportsOnly<N>(rs: seq<Report<N>>, m: Model<N>, batch: seq<N>)
    requires forall n <- batch :: n in m.nodes
  {
    && (forall i, j | 0 <= i < j < |rs| :: rs[i].node != rs[j].node)
    && (forall i | 0 <= i < |rs| ::
          && rs[i].node in batch && Reported(m.nodes[rs[i].node])
          && rs[i].event == Event(PollEvents(m.nodes[rs[i].node]), m.nodes[rs[i].node].token))
  }

  ghost predicate HasReport<N>(rs: seq<Report<N>>, n: N) {
    exists i :: 0 <= i < |rs| && rs[i].node == n
  }

  lemma PrependReports<N>(m: Model<N>, batch: seq<N>, rest: seq<Report<N>>)
    requires Distinct(batch) && batch != [] && forall b <- batch :: b in m.nodes
    requires forall b <- batch[1..] :: b in PollNode(m, batch[0]).nodes
    requires ReportsOnly(rest, PollNode(m, batch[0]), batch[1..])
    ensures ReportsOnly(ReportsOf(m, batch[0]) + rest, m, batch)
  {
    assert forall x <- batch[1..] :: x != batch[0] && x in batch;
  }

  lemma {:induction false} PollAllReportsOnly<N>(m: Model<N>, batch: seq<N>)
    requires Distinct(batch) && forall b <- batch :: b in m.nodes
    ensures ReportsOnly(PollAll(m, batch).1, m, batch)
    decreases |batch|
  {
    if batch != [] {
      assert forall x <- batch[1..] :: x != batch[0] && x in batch;
      PollAllReportsOnly(PollNode(m, batch[0]), batch[1..]);
      PrependReports(m, batch, PollAll(PollNode(m, batch[0]), batch[1..]).1);
    }
  }

  lemma {:induction false} PollAllHasReport<N>(m: Model<N>, batch: seq<N>, n: N)
    requires Distinct(batch) && forall b <- batch :: b in m.nodes
    requires n in batch && Reported(m.nodes[n])
    ensures HasReport(PollAll(m, batch).1, n)
    decreases |batch|
  {
    var b, m1 := batch[0], PollNode(m, batch[0]);
    assert forall x <- batch[1..] :: x != b && x in batch;
    var rest := PollAll(m1, batch[1..]).1;
    if n == b {
      assert PollAll(m, batch).1[0].node == n;
    } else {
      PollAllHasReport(m1, batch[1..], n);
      var i :| 0 <= i < |rest| && rest[i].node == n;
      assert PollAll(m, batch).1[i + |ReportsOf(m, b)|].node == n;
    }
  }

  /** The events of a poll: one for each queued node that has readiness its interest asks for, with
      exactly that readiness, and none for any other node. */
  lemma PollReports<N>(m: Model<N>)
    requires Valid(m)
    ensures ReportsOnly(Poll(m).1, m, m.ready)
    ensures forall n <- m.ready :: HasReport(Poll(m).1, n) <==> Reported(m.nodes[n])
  {
    var taken := m.(ready := []);
    PollAllReportsOnly(taken, m.ready);
    forall n | n in m.ready && Reported(m.nodes[n])
      ensures HasReport(Poll(m).1, n)
    {
      PollAllHasReport(taken, m.ready, n);
    }
  }

  /** On the fields of a node with a handle: it gets an event if and only if its interest and its readiness
      meet, with exactly the bits they share and its token. */
  lemma ReportExactly<N>(m: Model<N>, n: N)
    requires Valid(m) && n in m.ready && m.nodes[n].refs > 0
    ensures HasReport(Poll(m).1, n) <==> m.nodes[n].events * m.nodes[n].interest != {}
    ensures forall i | 0 <= i < |Poll(m).1| && Poll(m).1[i].node == n ::
              Poll(m).1[i].event == Event(m.nodes[n].events * m.nodes[n].interest, m.nodes[n].token)
  {
    PollReports(m);
    assert InfoOk(m, n);
    assert PollEvents(m.nodes[n]) == m.nodes[n].events * m.nodes[n].interest;
  }

  /** What a poll leaves of such a node: it stays on the list exactly if it is level-triggered and got an
      event; a oneshot node that got one loses its interest; nothing else changes. */
  lemma PollLeaves<N>(m: Model<N>, n: N)
    requires Valid(m) && n in m.ready && m.nodes[n].refs > 0
    ensures n in Poll(m).0.nodes
    ensures var i, i' := m.nodes[n], Poll(m).0.nodes[n];
            var got := i.events * i.interest != {};
            && (i'.queued <==> got && !i.opts.edge)
            && i'.events == i.events && i'.refs == i.refs && i'.token == i.token
            && i'.interest == (if got && i.opts.oneshot then {} else i.interest)
            && i'.opts == if got && i.opts.oneshot then PollOpt(false, false) else i.opts
  {
    PollNodeFacts(m, n);
    assert InfoOk(m, n);
    assert PollEvents(m.nodes[n]) == m.nodes[n].events * m.nodes[n].interest;
  }

  /** Events come in the order of the list. */
  lemma {:induction false} PollAllInOrder<N>(m: Model<N>, batch: seq<N>, i: nat, j: nat) returns (a: nat, b: nat)
    requires Distinct(batch) && (forall x <- batch :: x in m.nodes) && i < j < |PollAll(m, batch).1|
    ensures a < b < |batch| && batch[a] == PollAll(m, batch).1[i].node && batch[b] == PollAll(m, batch).1[j].node
    decreases |batch|
  {
    var m1, first := PollNode(m, batch[0]), ReportsOf(m, batch[0]);
    assert forall x <- batch[1..] :: x != batch[0] && x in batch;
    var rest := PollAll(m1, batch[1..]).1;
    if i < |first| {
      PollAllReportsOnly(m1, batch[1..]);
      var node := rest[j - |first|].node;
      var k :| 0 <= k < |batch[1..]| && batch[1..][k] == node;
      a, b := 0, k + 1;
    } else {
      a, b := PollAllInOrder(m1, batch[1..], i - |first|, j - |first|);
      a, b := a + 1, b + 1;
    }
  }

  // ----- every call keeps the model valid -----

  lemma EnqueueKeepsValid<N>(m: Model<N>, n: N, i: Info)
    requires Valid(m) && n in m.nodes && i.queued == m.nodes[n].queued
    requires InfoOk(Enqueue(m.(nodes := m.nodes[n := i]), n), n)
    ensures Valid(Enqueue(m.(nodes := m.nodes[n := i]), n))
  {
    var m' := Enqueue(m.(nodes := m.nodes[n := i]), n);
    assert InfoOk(m, n);
    forall x | x in m'.nodes
      ensures InfoOk(m', x)
    {
      assert InfoOk(m, x);
    }
  }

  lemma StoreKeepsValid<N>(m: Model<N>, n: N, i: Info)
    requires Valid(m) && n in m.nodes && InfoOk(m.(nodes := m.nodes[n := i]), n)
    ensures Valid(m.(nodes := m.nodes[n := i]))
  {
    var m' := m.(nodes := m.nodes[n := i]);
    forall x | x in m'.nodes
      ensures InfoOk(m', x)
    {
      assert InfoOk(m, x);
    }
  }

  /** A call through a live handle; the drop bit cannot be made by callers. */
  lemma SetReadinessKeepsValid<N>(m: Model<N>, n: N, ready: Ready)
    requires Valid(m) && n in m.handles && Drop !in ready
    ensures n in m.nodes && Valid(SetReadiness(m, n, ready))
  {
    assert InfoOk(m, n);
    var i := m.nodes[n].(events := ready);
    if ready == {} {
      StoreKeepsValid(m, n, i);
    } else {
      EnqueueKeepsValid(m, n, i);
    }
  }

  lemma UpdateKeepsValid<N>(m: Model<N>, n: N, token: nat, interest: Ready, opts: PollOpt)
    requires Valid(m) && n in m.handles && Drop !in interest
    ensures n in m.nodes && Valid(Update(m, n, token, interest, opts))
  {
    assert InfoOk(m, n);
    var i := m.nodes[n].(token := token, interest := interest, opts := opts);
    if i.events == {} {
      StoreKeepsValid(m, n, i);
    } else {
      EnqueueKeepsValid(m, n, i);
    }
  }

  lemma NewNodeKeepsValid<N>(m: Model<N>, n: N, token: nat, interest: Ready, opts: PollOpt)
    requires Valid(m) && n !in m.nodes && Drop !in interest
    ensures Valid(NewNode(m, n, token, interest, opts))
  {
    var m' := NewNode(m, n, token, interest, opts);
    forall x | x in m'.nodes
      ensures InfoOk(m', x)
    {
      assert x != n ==> InfoOk(m, x);
    }
  }

  lemma AddedNode<N>(m: Model<N>, m': Model<N>, n: N, token: nat, interest: Ready, opts: PollOpt)
    requires m'.nodes.Keys == m.nodes.Keys + {n}
    requires forall x | x in m.nodes :: x != n && m'.nodes[x] == m.nodes[x]
    requires m'.nodes[n] == Info({}, false, 1, token, interest, opts)
    requires m'.ready == m.ready && m'.handles == m.handles + multiset{n}
    ensures m' == NewNode(m, n, token, interest, opts)
  {
  }

  lemma CloneKeepsValid<N>(m: Model<N>, n: N)
    requires Valid(m) && n in m.handles
    ensures n in m.nodes && Valid(CloneHandle(m, n))
  {
    var m' := CloneHandle(m, n);
    forall x | x in m'.nodes
      ensures InfoOk(m', x)
    {
      assert InfoOk(m, x);
    }
  }

  lemma DropKeepsValid<N>(m: Model<N>, n: N)
    requires Valid(m) && n in m.handles
    ensures n in m.nodes && 0 < m.nodes[n].refs && Valid(DropHandle(m, n))
  {
    assert InfoOk(m, n);
    var m' := DropHandle(m, n);
    forall x | x in m'.nodes
      ensures InfoOk(m', x)
    {
      assert InfoOk(m, x);
    }
  }

  lemma DisableKeepsValid<N>(m: Model<N>, n: N)
    requires Valid(m) && n in m.handles
    ensures n in m.nodes && Valid(Disable(m, n))
  {
    assert InfoOk(m, n);
    StoreKeepsValid(m, n, Disabled(m.nodes[n]));
  }

  lemma PollNodeFacts<N>(m: Model<N>, n: N)
    requires Valid(m)
    ensures var m' := Poll(m).0;
            && m'.handles == m.handles
            && (n in m'.nodes <==> n in m.nodes && m.nodes[n].refs > 0)
            && (n in m'.nodes ==> InfoOk(m', n))
            && (n in m'.nodes ==> m'.nodes[n] == if n in m.ready then Polled(m.nodes[n]) else m.nodes[n])
            && (n in m'.ready ==> n in m'.nodes)
  {
    var taken := m.(ready := []);
    if n in m.nodes {
      assert InfoOk(m, n);
      PollAllNodes(taken, m.ready, n);
    } else {
      PollAllGone(taken, m.ready, n);
    }
  }

  /** After a poll exactly the nodes that still have a handle are left, and it is valid. */
  lemma PollKeepsValid<N>(m: Model<N>)
    requires Valid(m)
    ensures Valid(Poll(m).0)
    ensures forall n :: n in Poll(m).0.nodes <==> n in m.nodes && m.nodes[n].refs > 0
  {
    hide InfoOk;
    var m' := Poll(m).0;
    PollAllDistinct(m.(ready := []), m.ready);
    forall n
      ensures n in m'.nodes <==> n in m.nodes && m.nodes[n].refs > 0
    {
      PollNodeFacts(m, n);
    }
    forall n | n in m'.nodes
      ensures InfoOk(m', n)
    {
      PollNodeFacts(m, n);
    }
    forall n | n in m'.ready
      ensures n in m'.nodes
    {
      PollNodeFacts(m, n);
    }
    forall n | n in m'.handles
      ensures n in m'.nodes
    {
      HandleKeepsNode(m, n);
    }
  }

  lemma HandleKeepsNode<N>(m: Model<N>, n: N)
    requires Valid(m) && n in Poll(m).0.handles
    ensures n in Poll(m).0.nodes
  {
    PollNodeFacts(m, n);
    assert InfoOk(m, n);
  }

  // ----- runs -----

  datatype Op<N> =
    | OpNew(node: N, token: nat, interest: Ready, opts: PollOpt)
    | OpClone(node: N)
    | OpDrop(node: N)
    | OpDisable(node: N)
    | OpSet(node: N, ready: Ready)
    | OpUpdate(node: N, token: nat, interest: Ready, opts: PollOpt)
    | OpPoll

  predicate Allowed<N>(m: Model<N>, op: Op<N>) {
    match op
    case OpNew(n, _, interest, _) => n !in m.nodes && Drop !in interest
    case OpClone(n) => n in m.handles && n in m.nodes
    case OpDrop(n) => n in m.handles && n in m.nodes && 0 < m.nodes[n].refs
    case OpDisable(n) => n in m.handles && n in m.nodes
    case OpSet(n, ready) => n in m.handles && n in m.nodes && Drop !in ready
    case OpUpdate(n, _, interest, _) => n in m.handles && n in m.nodes && Drop !in interest
    case OpPoll => true
  }

  function Apply<N>(m: Model<N>, op: Op<N>): Model<N>
    requires Valid(m) && Allowed(m, op)
  {
    match op
    case OpNew(n, token, interest, opts) => NewNode(m, n, token, interest, opts)
    case OpClone(n) => CloneHandle(m, n)
    case OpDrop(n) => DropHandle(m, n)
    case OpDisable(n) => Disable(m, n)
    case OpSet(n, ready) => SetReadiness(m, n, ready)
    case OpUpdate(n, token, interest, opts) => Update(m, n, token, interest, opts)
    case OpPoll => Poll(m).0
  }

  lemma ApplyKeepsValid<N>(m: Model<N>, op: Op<N>)
    requires Valid(m) && Allowed(m, op)
    ensures Valid(Apply(m, op))
  {
    hide Valid;
    match op
    case OpNew(n, token, interest, opts) => NewNodeKeepsValid(m, n, token, interest, opts);
    case OpClone(n) => CloneKeepsValid(m, n);
    case OpDrop(n) => DropKeepsValid(m, n);
    case OpDisable(n) => DisableKeepsValid(m, n);
    case OpSet(n, ready) => SetReadinessKeepsValid(m, n, ready);
    case OpUpdate(n, token, interest, opts) => UpdateKeepsValid(m, n, token, interest, opts);
    case OpPoll => PollKeepsValid(m);
  }

  /** A run from the empty queue. `Apply` is defined on valid models; every run stays valid. */
  ghost predicate Run<N(!new)>(ms: seq<Model<N>>, ops: seq<Op<N>>) {
    && |ms| == |ops| + 1
    && ms[0] == Model(map[], [], multiset{})
    && forall i {:trigger ops[i]} | 0 <= i < |ops| ::
         Valid(ms[i]) ==> Allowed(ms[i], ops[i]) && ms[i + 1] == Apply(ms[i], ops[i])
  }

  lemma {:induction false} RunIsValid<N(!new)>(ms: seq<Model<N>>, ops: seq<Op<N>>, k: nat)
    requires Run(ms, ops) && k < |ms|
    ensures Valid(ms[k])
    ensures k < |ops| ==> Allowed(ms[k], ops[k]) && ms[k + 1] == Apply(ms[k], ops[k])
  {
    hide Allowed, Apply;
    if k > 0 {
      RunIsValid(ms, ops, k - 1);
      ApplyKeepsValid(ms[k - 1], ops[k - 1]);
    }
    if k < |ops| {
      assert ops[k] == ops[k];
    }
  }

  /** `n` gets an event from call `op`. */
  predicate ReportsNode<N>(m: Model<N>, op: Op<N>, n: N) {
    op.OpPoll? && n in m.ready && n in m.nodes && Reported(m.nodes[n])
  }

  // ----- level-triggered nodes -----

  /** After every call, a node that is not edge-triggered and has readiness its interest asks for is
      in the list for the next poll. */
  lemma LevelStaysQueued<N(!new)>(ms: seq<Model<N>>, ops: seq<Op<N>>, k: nat, n: N)
    requires Run(ms, ops) && k < |ms| && n in ms[k].nodes
    requires !ms[k].nodes[n].opts.edge && ms[k].nodes[n].events * ms[k].nodes[n].interest != {}
    ensures n in ms[k].ready
  {
    RunIsValid(ms, ops, k);
    assert InfoOk(ms[k], n);
  }

  lemma NodeFacts<N>(m: Model<N>, n: N)
    requires Valid(m) && n in m.nodes
    ensures m.nodes[n].refs == m.handles[n]
    ensures m.nodes[n].refs == 0 <==> Released(m.nodes[n])
  {
    assert InfoOk(m, n);
  }

  // ----- edge-triggered nodes -----

  /** A call that may give an edge-triggered node a new event. */
  predicate Triggers<N(==)>(op: Op<N>, n: N) {
    (op.OpSet? && op.node == n && op.ready != {}) || (op.OpUpdate? && op.node == n)
  }

  function TriggerCount<N(==)>(ops: seq<Op<N>>, n: N): nat {
    if ops == [] then 0 else TriggerCount(ops[..|ops| - 1], n) + if Triggers(ops[|ops| - 1], n) then 1 else 0
  }

  function ReportCount<N>(ms: seq<Model<N>>, ops: seq<Op<N>>, n: N): nat
    requires |ms| == |ops| + 1
  {
    if ops == [] then 0
    else ReportCount(ms[..|ops|], ops[..|ops| - 1], n) + if ReportsNode(ms[|ops| - 1], ops[|ops| - 1], n) then 1 else 0
  }

  predicate Pending<N>(m: Model<N>, n: N) {
    n in m.nodes && m.nodes[n].queued && m.nodes[n].refs > 0
  }

  /** Edge-triggered, or disabled. */
  predicate EdgeOnly<N>(m: Model<N>, n: N) {
    n in m.nodes ==> m.nodes[n].opts.edge || m.nodes[n].interest == {}
  }

  lemma EdgePoll<N>(m: Model<N>, n: N)
    requires Valid(m) && EdgeOnly(m, n)
    ensures (if ReportsNode(m, OpPoll, n) then 1 else 0) + (if Pending(Poll(m).0, n) then 1 else 0)
            <= if Pending(m, n) then 1 else 0
  {
    hide Poll, PollAll;
    if n in m.nodes {
      assert InfoOk(m, n);
    }
    PollNodeFacts(m, n);
  }

  lemma EnqueueKeepsPending<N>(m: Model<N>, x: N, n: N)
    requires x in m.nodes
    ensures Pending(Enqueue(m, x), n) ==> Pending(m, n) || x == n
  {
  }

  /** The last drop queues the node, but leaves no handle. */
  lemma DropKeepsPending<N>(m: Model<N>, x: N, n: N)
    requires x in m.nodes && 0 < m.nodes[x].refs
    ensures Pending(DropHandle(m, x), n) ==> Pending(m, n)
  {
  }

  lemma CloneKeepsPending<N>(m: Model<N>, x: N, n: N)
    requires Valid(m) && x in m.handles && x in m.nodes
    ensures Pending(CloneHandle(m, x), n) ==> Pending(m, n)
  {
    hide Valid;
    NodeFacts(m, x);
  }

  /** Between polls only a triggering call makes a node pending. */
  lemma CallKeepsPending<N>(m: Model<N>, op: Op<N>, n: N)
    requires Valid(m) && Allowed(m, op) && !op.OpPoll?
    ensures Pending(Apply(m, op), n) ==> Pending(m, n) || Triggers(op, n)
  {
    hide Poll, Valid, Enqueue, DropHandle, CloneHandle;
    match op
    case OpNew(_, _, _, _) =>
    case OpClone(x) => CloneKeepsPending(m, x, n);
    case OpDrop(x) => DropKeepsPending(m, x, n);
    case OpDisable(_) =>
    case OpSet(x, ready) => EnqueueKeepsPending(m.(nodes := m.nodes[x := m.nodes[x].(events := ready)]), x, n);
    case OpUpdate(x, token, interest, opts) =>
      var i := m.nodes[x].(token := token, interest := interest, opts := opts);
      EnqueueKeepsPending(m.(nodes := m.nodes[x := i]), x, n);
  }

  lemma EdgeStep<N>(m: Model<N>, op: Op<N>, n: N)
    requires Valid(m) && Allowed(m, op) && EdgeOnly(m, n)
    ensures (if ReportsNode(m, op, n) then 1 else 0) + (if Pending(Apply(m, op), n) then 1 else 0)
            <= (if Pending(m, n) then 1 else 0) + if Triggers(op, n) then 1 else 0
  {
    hide Poll, Valid, Pending;
    if op.OpPoll? {
      EdgePoll(m, n);
    } else {
      CallKeepsPending(m, op, n);
    }
  }

  /** Over a whole run, an edge-triggered node gets at most one event per non-empty `set_readiness`
      or update. */
  lemma {:induction false} EdgeEventsAreTriggered<N(!new)>(ms: seq<Model<N>>, ops: seq<Op<N>>, n: N)
    requires Run(ms, ops) && forall k {:trigger ms[k]} | 0 <= k < |ms| :: EdgeOnly(ms[k], n)
    ensures ReportCount(ms, ops, n) + (if Pending(ms[|ops|], n) then 1 else 0) <= TriggerCount(ops, n)
    decreases |ops|
  {
    if ops != [] {
      var k := |ops| - 1;
      RunPrefix(ms, ops);
      EdgeEventsAreTriggered(ms[..|ops|], ops[..k], n);
      RunIsValid(ms, ops, k);
      EdgeStep(ms[k], ops[k], n);
    }
  }

  lemma RunPrefix<N(!new)>(ms: seq<Model<N>>, ops: seq<Op<N>>)
    requires Run(ms, ops) && ops != []
    ensures Run(ms[..|ops|], ops[..|ops| - 1])
  {
    hide Valid, Allowed, Apply;
    forall i {:trigger ops[..|ops| - 1][i]} | 0 <= i < |ops| - 1
      ensures Valid(ms[i]) ==> Allowed(ms[i], ops[i]) && ms[i + 1] == Apply(ms[i], ops[i])
    {
      assert ops[i] == ops[i];
    }
  }

  // ----- oneshot nodes -----

  /** Disabled by its event until it is updated. */
  predicate Disarmed<N>(m: Model<N>, n: N) {
    n in m.nodes ==> m.nodes[n].interest == {}
  }

  lemma DisarmedStep<N>(m: Model<N>, op: Op<N>, n: N)
    requires Valid(m) && Allowed(m, op) && Disarmed(m, n)
    requires !(op.OpUpdate? && op.node == n) && !(op.OpNew? && op.node == n)
    ensures Disarmed(Apply(m, op), n) && !ReportsNode(m, op, n)
  {
    hide Poll, PollAll, Valid;
    if op.OpPoll? {
      PollNodeFacts(m, n);
      if n in m.nodes {
        NodeFacts(m, n);
      }
    }
  }


  lemma {:induction false} DisarmedUntilUpdate<N(!new)>(ms: seq<Model<N>>, ops: seq<Op<N>>, i: nat, j: nat, n: N)
    requires Run(ms, ops) && i <= j <= |ops| && Disarmed(ms[i], n)
    requires forall k | i <= k < j :: !(ops[k].OpUpdate? && ops[k].node == n) && !(ops[k].OpNew? && ops[k].node == n)
    ensures Disarmed(ms[j], n)
    decreases j - i
  {
    if i < j {
      DisarmedUntilUpdate(ms, ops, i, j - 1, n);
      RunIsValid(ms, ops, j - 1);
      DisarmedStep(ms[j - 1], ops[j - 1], n);
    }
  }

  /** A oneshot node gets at most one event between updates. */
  lemma OneshotOncePerUpdate<N(!new)>(ms: seq<Model<N>>, ops: seq<Op<N>>, i: nat, j: nat, n: N)
    requires Run(ms, ops) && i < j < |ops|
    requires ReportsNode(ms[i], ops[i], n) && ms[i].nodes[n].opts.oneshot && ReportsNode(ms[j], ops[j], n)
    ensures exists k :: i < k < j && (ops[k].OpUpdate? || ops[k].OpNew?) && ops[k].node == n
  {
    RunIsValid(ms, ops, i);
    RunIsValid(ms, ops, j);
    PollNodeFacts(ms[i], n);
    assert InfoOk(ms[j], n);
    if forall k | i < k < j :: !((ops[k].OpUpdate? || ops[k].OpNew?) && ops[k].node == n) {
      DisarmedUntilUpdate(ms, ops, i + 1, j, n);
    }
  }

  // ----- the life of a node -----

  /** The reference count is the number of live handles. A node whose last handle has gone is never
      reported, and the next poll releases it; a node with a handle is never released. */
  lemma NodeLife<N(!new)>(ms: seq<Model<N>>, ops: seq<Op<N>>, k: nat, n: N)
    requires Run(ms, ops) && k < |ops| && n in ms[k].nodes
    ensures ms[k].nodes[n].refs == ms[k].handles[n]
    ensures n !in ms[k].handles ==> !ReportsNode(ms[k], ops[k], n)
    ensures ops[k].OpPoll? && n !in ms[k].handles ==> n !in ms[k + 1].nodes
    ensures n in ms[k].handles || !ops[k].OpPoll? ==> n in ms[k + 1].nodes
  {
    RunIsValid(ms, ops, k);
    assert InfoOk(ms[k], n);
    if ops[k].OpPoll? {
      PollNodeFacts(ms[k], n);
    }
  }

  // ----- a poll reports what was last said -----

  lemma TriggeredStep<N>(m: Model<N>, op: Op<N>, n: N)
    requires Valid(m) && Allowed(m, op) && Triggers(op, n)
    ensures n in Apply(m, op).nodes
    ensures Apply(m, op).nodes[n].events != {} ==>
              Apply(m, op).ready == if n in m.ready then m.ready else [n] + m.ready
  {
    assert InfoOk(m, n);
  }

  /** A non-empty `set_readiness`, or an update of a ready node, puts the node in front of the list, unless
      it is there already. */
  lemma TriggeredIsQueued<N(!new)>(ms: seq<Model<N>>, ops: seq<Op<N>>, k: nat, n: N)
    requires Run(ms, ops) && k < |ops| && Triggers(ops[k], n)
    ensures n in ms[k + 1].nodes
    ensures ms[k + 1].nodes[n].events != {} ==>
              ms[k + 1].ready == if n in ms[k].ready then ms[k].ready else [n] + ms[k].ready
  {
    hide Apply, Allowed, Valid;
    RunIsValid(ms, ops, k);
    TriggeredStep(ms[k], ops[k], n);
  }

  predicate Sets<N(==)>(op: Op<N>, n: N) {
    (op.OpSet? || op.OpNew?) && op.node == n
  }

  predicate Describes<N(==)>(op: Op<N>, n: N) {
    (op.OpUpdate? || op.OpNew? || op.OpDisable?) && op.node == n
  }

  lemma DropKeeps<N>(m: Model<N>, x: N, n: N)
    requires x in m.nodes && 0 < m.nodes[x].refs && n in DropHandle(m, x).nodes && DropHandle(m, x).nodes[n].refs > 0
    ensures n in m.nodes && m.nodes[n].refs > 0
    ensures var i, i' := m.nodes[n], DropHandle(m, x).nodes[n]; i' == i.(refs := i'.refs, queued := i'.queued)
  {
  }

  lemma CloneKeeps<N>(m: Model<N>, x: N, n: N)
    requires Valid(m) && x in m.handles && x in m.nodes
    requires n in CloneHandle(m, x).nodes && CloneHandle(m, x).nodes[n].refs > 0
    ensures n in m.nodes && m.nodes[n].refs > 0
    ensures CloneHandle(m, x).nodes[n] == m.nodes[n].(refs := CloneHandle(m, x).nodes[n].refs)
  {
    hide Valid;
    NodeFacts(m, x);
  }

  lemma PollKeepsFields<N>(m: Model<N>, n: N)
    requires Valid(m) && n in Poll(m).0.nodes && Poll(m).0.nodes[n].refs > 0
    ensures n in m.nodes && m.nodes[n].refs > 0 && Poll(m).0.nodes[n].events == m.nodes[n].events
    ensures !Disarms(m, OpPoll, n) ==>
              var i, i' := m.nodes[n], Poll(m).0.nodes[n];
              i'.token == i.token && i'.interest == i.interest && i'.opts == i.opts
  {
    hide Poll, Valid;
    PollNodeFacts(m, n);
  }

  lemma KeepsEvents<N>(m: Model<N>, op: Op<N>, n: N)
    requires Valid(m) && Allowed(m, op) && !Sets(op, n)
    requires n in Apply(m, op).nodes && Apply(m, op).nodes[n].refs > 0
    ensures n in m.nodes && m.nodes[n].refs > 0 && Apply(m, op).nodes[n].events == m.nodes[n].events
  {
    hide Poll, Valid, Enqueue, DropHandle, CloneHandle, Disarms;
    match op
    case OpNew(_, _, _, _) =>
    case OpClone(x) => CloneKeeps(m, x, n);
    case OpDrop(x) => DropKeeps(m, x, n);
    case OpDisable(_) =>
    case OpSet(x, ready) => SetKeeps(m, x, ready, n);
    case OpUpdate(x, token, interest, opts) => UpdateKeeps(m, x, token, interest, opts, n);
    case OpPoll => PollKeepsFields(m, n);
  }

  lemma SetKeeps<N>(m: Model<N>, x: N, ready: Ready, n: N)
    requires x in m.nodes && n in SetReadiness(m, x, ready).nodes
    ensures n in m.nodes
    ensures var i, i' := m.nodes[n], SetReadiness(m, x, ready).nodes[n];
            i' == i.(queued := i'.queued, events := if n == x then ready else i.events)
  {
  }

  lemma UpdateKeeps<N>(m: Model<N>, x: N, token: nat, interest: Ready, opts: PollOpt, n: N)
    requires x in m.nodes && n in Update(m, x, token, interest, opts).nodes
    ensures n in m.nodes
    ensures var i, i' := m.nodes[n], Update(m, x, token, interest, opts).nodes[n];
            i' == if n == x then i.(queued := i'.queued, token := token, interest := interest, opts := opts)
                  else i.(queued := i'.queued)
  {
  }

  /** The readiness of a node with a handle is the one last set. */
  lemma {:induction false} EventsAreLastSet<N(!new)>(ms: seq<Model<N>>, ops: seq<Op<N>>, i: nat, k: nat, n: N)
    requires Run(ms, ops) && i < k < |ms| && ops[i].OpSet? && ops[i].node == n
    requires forall j | i < j < k :: !Sets(ops[j], n)
    requires n in ms[k].nodes && ms[k].nodes[n].refs > 0
    ensures ms[k].nodes[n].events == ops[i].ready
    decreases k
  {
    hide Allowed, Valid, Sets;
    RunIsValid(ms, ops, k - 1);
    if i < k - 1 {
      KeepsEvents(ms[k - 1], ops[k - 1], n);
      EventsAreLastSet(ms, ops, i, k - 1, n);
    } else {
      SetIsStored(ms[i], ops[i]);
    }
  }

  lemma SetIsStored<N>(m: Model<N>, op: Op<N>)
    requires Valid(m) && Allowed(m, op) && op.OpSet?
    ensures op.node in Apply(m, op).nodes && Apply(m, op).nodes[op.node].events == op.ready
  {
  }

  /** A node's event disarms it. */
  predicate Disarms<N>(m: Model<N>, op: Op<N>, n: N) {
    ReportsNode(m, op, n) && m.nodes[n].opts.oneshot
  }

  lemma KeepsData<N>(m: Model<N>, op: Op<N>, n: N)
    requires Valid(m) && Allowed(m, op) && !Describes(op, n) && !Disarms(m, op, n)
    requires n in Apply(m, op).nodes && Apply(m, op).nodes[n].refs > 0
    ensures n in m.nodes && m.nodes[n].refs > 0
    ensures var i, i' := m.nodes[n], Apply(m, op).nodes[n];
            i'.token == i.token && i'.interest == i.interest && i'.opts == i.opts
  {
    hide Poll, Valid, Enqueue, DropHandle, CloneHandle, Disarms;
    match op
    case OpNew(_, _, _, _) =>
    case OpClone(x) => CloneKeeps(m, x, n);
    case OpDrop(x) => DropKeeps(m, x, n);
    case OpDisable(_) =>
    case OpSet(x, ready) => SetKeeps(m, x, ready, n);
    case OpUpdate(x, token, interest, opts) => UpdateKeeps(m, x, token, interest, opts, n);
    case OpPoll => PollKeepsFields(m, n);
  }

  /** Its token, interest and options are those of its creation or last update, until an event disarms it. */
  lemma {:induction false} DataIsLastUpdate<N(!new)>(ms: seq<Model<N>>, ops: seq<Op<N>>, i: nat, k: nat, n: N)
    requires Run(ms, ops) && i < k < |ms| && (ops[i].OpUpdate? || ops[i].OpNew?) && ops[i].node == n
    requires forall j {:trigger ops[j]} | i < j < k :: !Describes(ops[j], n) && !Disarms(ms[j], ops[j], n)
    requires n in ms[k].nodes && ms[k].nodes[n].refs > 0
    ensures var info := ms[k].nodes[n];
            info.token == ops[i].token && info.interest == ops[i].interest && info.opts == ops[i].opts
    decreases k
  {
    hide Allowed, Valid, Describes, Disarms;
    RunIsValid(ms, ops, k - 1);
    if i < k - 1 {
      assert ops[k - 1] == ops[k - 1];
      KeepsData(ms[k - 1], ops[k - 1], n);
      DataIsLastUpdate(ms, ops, i, k - 1, n);
    } else {
      UpdateIsStored(ms[i], ops[i]);
    }
  }

  lemma UpdateIsStored<N>(m: Model<N>, op: Op<N>)
    requires Valid(m) && Allowed(m, op) && (op.OpUpdate? || op.OpNew?)
    ensures op.node in Apply(m, op).nodes
    ensures var info := Apply(m, op).nodes[op.node];
            info.token == op.token && info.interest == op.interest && info.opts == op.opts
  {
  }

  /** Together: a poll reports a queued node exactly if the readiness last set and the interest of the last
      update meet, with the bits they share and the token of that update. */
  lemma PollReportsLast<N(!new)>(ms: seq<Model<N>>, ops: seq<Op<N>>, i: nat, j: nat, k: nat, n: N)
    requires Run(ms, ops) && i < k < |ops| && j < k && ops[k].OpPoll?
    requires ops[i].OpSet? && ops[i].node == n && forall x | i < x < k :: !Sets(ops[x], n)
    requires (ops[j].OpUpdate? || ops[j].OpNew?) && ops[j].node == n
    requires forall x {:trigger ops[x]} | j < x < k :: !Describes(ops[x], n) && !Disarms(ms[x], ops[x], n)
    requires n in ms[k].ready && n in ms[k].nodes && ms[k].nodes[n].refs > 0
    ensures Valid(ms[k])
    ensures HasReport(Poll(ms[k]).1, n) <==> ops[i].ready * ops[j].interest != {}
    ensures forall x | 0 <= x < |Poll(ms[k]).1| && Poll(ms[k]).1[x].node == n ::
              Poll(ms[k]).1[x].event == Event(ops[i].ready * ops[j].interest, ops[j].token)
  {
    hide Allowed, Apply, Valid, Sets, Describes, Disarms, Poll, HasReport;
    RunIsValid(ms, ops, k);
    EventsAreLastSet(ms, ops, i, k, n);
    DataIsLastUpdate(ms, ops, j, k, n);
    ReportExactly(ms[k], n);
  }

  /** After its registration is dropped a node is silent until it is updated. */
  lemma DisabledIsSilent<N(!new)>(ms: seq<Model<N>>, ops: seq<Op<N>>, i: nat, j: nat, n: N)
    requires Run(ms, ops) && i < j < |ops| && ops[i] == OpDisable(n)
    requires forall k | i < k < j :: !(ops[k].OpUpdate? && ops[k].node == n) && !(ops[k].OpNew? && ops[k].node == n)
    ensures !ReportsNode(ms[j], ops[j], n)
  {
    RunIsValid(ms, ops, i);
    assert Disarmed(ms[i + 1], n);
    DisarmedUntilUpdate(ms, ops, i + 1, j, n);
    RunIsValid(ms, ops, j);
    if ops[j].OpPoll? {
      DisarmedStep(ms[j], ops[j], n);
    }
  }
}
