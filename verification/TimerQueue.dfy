/** The simple form of the timer: a set of live timeouts, each with a tick and the serial number
    of its insertion. Polling takes the smallest tick, the newest timeout first among equals. */
module TimerQueue {

  /** `Timeout`: a slab token and the tick the timeout is due at. */
  datatype Handle = Handle(token: nat, tick: nat)

  datatype Item<T> = Item(handle: Handle, state: T)

  /** `live` is keyed by insertion serial number; `now` is the timer's current tick. */
  datatype Queue<T> = Queue(now: nat, live: map<nat, Item<T>>, nextId: nat)

  function Empty<T>(): Queue<T> {
    Queue(0, map[], 0)
  }

  function Max(x: nat, y: nat): nat {
    if x < y then y else x
  }

  predicate WellFormed<T>(q: Queue<T>) {
    && (forall id <- q.live :: id < q.nextId && q.now <= q.live[id].handle.tick)
    && (forall i, j | i in q.live && j in q.live :: q.live[i].handle.token == q.live[j].handle.token ==> i == j)
  }

  predicate TokenFree<T>(q: Queue<T>, token: nat) {
    forall id <- q.live :: q.live[id].handle.token != token
  }

  /** `id` is due before every other live timeout: smaller tick, or same tick and newer. */
  predicate IsNext<T>(q: Queue<T>, id: nat) {
    && id in q.live
    && forall j <- q.live ::
         || q.live[id].handle.tick < q.live[j].handle.tick
         || (q.live[id].handle.tick == q.live[j].handle.tick && j <= id)
  }

  /** The live timeout `id` carries `state`. */
  ghost predicate Carries<T>(q: Queue<T>, id: nat, state: T) {
    id in q.live && q.live[id].state == state
  }

  /** What a caller of the timer can see of one call. A new timeout is identified by its serial number. */
  datatype Op<T> =
    | Inserted(id: nat, handle: Handle, state: T)
    | Rejected
    | Cancelled(id: nat, handle: Handle)
    | CancelMissed(handle: Handle)
    | Fired(id: nat, target: nat)
    | PolledNone(target: nat)

  ghost predicate Step<T>(q: Queue<T>, op: Op<T>, q': Queue<T>) {
    match op
    case Inserted(id, handle, state) =>
      && id == q.nextId
      && q.now < handle.tick
      && TokenFree(q, handle.token)
      && q' == q.(live := q.live[id := Item(handle, state)], nextId := id + 1)
    case Rejected =>
      q' == q
    case Cancelled(id, handle) =>
      && id in q.live
      && q.live[id].handle == handle
      && q' == q.(live := q.live - {id})
    case CancelMissed(handle) =>
      && (forall id <- q.live :: q.live[id].handle != handle)
      && q' == q
    case Fired(id, target) =>
      && IsNext(q, id)
      && q.live[id].handle.tick <= Max(target, q.now)
      && q' == q.(now := q.live[id].handle.tick, live := q.live - {id})
    case PolledNone(target) =>
      && (forall id <- q.live :: Max(target, q.now) < q.live[id].handle.tick)
      && q' == q.(now := Max(target, q.now) + 1)
  }

  lemma InsertedStep<T>(q: Queue<T>, handle: Handle, state: T)
    requires q.now < handle.tick && TokenFree(q, handle.token)
    ensures Step(q, Inserted(q.nextId, handle, state),
                 q.(live := q.live[q.nextId := Item(handle, state)], nextId := q.nextId + 1))
  {
  }

  lemma RejectedStep<T>(q: Queue<T>)
    ensures Step(q, Rejected, q)
  {
  }

  /** Walking to the tick of the next timeout and taking it is one step. */
  lemma FiredStep<T>(q: Queue<T>, tick: nat, id: nat, target: nat)
    requires IsNext(q.(now := tick), id) && q.live[id].handle.tick == tick <= Max(target, q.now)
    ensures Step(q, Fired(id, target), q.(now := tick, live := q.live - {id}))
  {
  }

  lemma NoneStep<T>(q: Queue<T>, target: nat)
    requires forall id <- q.live :: Max(target, q.now) < q.live[id].handle.tick
    ensures Step(q, PolledNone(target), q.(now := Max(target, q.now) + 1))
  {
  }

  lemma StepKeepsWellFormed<T>(q: Queue<T>, op: Op<T>, q': Queue<T>)
    requires WellFormed(q) && Step(q, op, q')
    ensures WellFormed(q')
    ensures q.now <= q'.now && q.nextId <= q'.nextId
  {
  }

  /** A whole run from the empty timer: `ops[i]` leads from `qs[i]` to `qs[i + 1]`. */
  ghost predicate Run<T>(qs: seq<Queue<T>>, ops: seq<Op<T>>) {
    && |qs| == |ops| + 1
    && qs[0] == Empty()
    && forall i | 0 <= i < |ops| :: Step(qs[i], ops[i], qs[i + 1])
  }

  lemma {:induction false} RunKeepsWellFormed<T>(qs: seq<Queue<T>>, ops: seq<Op<T>>, i: nat, j: nat)
    requires Run(qs, ops) && i <= j < |qs|
    ensures WellFormed(qs[j])
    ensures qs[i].now <= qs[j].now && qs[i].nextId <= qs[j].nextId
    decreases j
  {
    if j > 0 {
      if i < j {
        RunKeepsWellFormed(qs, ops, i, j - 1);
      } else {
        RunKeepsWellFormed(qs, ops, j - 1, j - 1);
      }
      StepKeepsWellFormed(qs[j - 1], ops[j - 1], qs[j]);
    }
  }

  /** A timeout that is live at `j` and not newer than `i` was already live, unchanged, at `i`. */
  lemma {:induction false} LiveSince<T>(qs: seq<Queue<T>>, ops: seq<Op<T>>, i: nat, j: nat, id: nat)
    requires Run(qs, ops) && i <= j < |qs|
    requires id in qs[j].live && id < qs[i].nextId
    ensures id in qs[i].live && qs[i].live[id] == qs[j].live[id]
    decreases j - i
  {
    if i < j {
      RunKeepsWellFormed(qs, ops, i, j - 1);
      assert Step(qs[j - 1], ops[j - 1], qs[j]);
      LiveSince(qs, ops, i, j - 1, id);
    }
  }

  /** A timeout accepted after `i` is due strictly after the time shown at `i`. */
  lemma {:induction false} NewerIsLater<T>(qs: seq<Queue<T>>, ops: seq<Op<T>>, i: nat, j: nat, id: nat)
    requires Run(qs, ops) && i <= j < |qs|
    requires id in qs[j].live && qs[i].nextId <= id
    ensures qs[i].now < qs[j].live[id].handle.tick
    decreases j - i
  {
    RunKeepsWellFormed(qs, ops, i, j);
    if i < j {
      RunKeepsWellFormed(qs, ops, i, j - 1);
      assert Step(qs[j - 1], ops[j - 1], qs[j]);
      if id in qs[j - 1].live {
        NewerIsLater(qs, ops, i, j - 1, id);
      }
    }
  }

  /** Over a whole run, under any mix of inserts, cancels and polls, timeouts fire in order of
      their ticks, and newest first among equal ticks. */
  lemma FiresInOrder<T>(qs: seq<Queue<T>>, ops: seq<Op<T>>, i: nat, j: nat)
    requires Run(qs, ops) && i < j < |ops|
    requires ops[i].Fired? && ops[j].Fired?
    ensures var a, b := ops[i].id, ops[j].id;
            && a in qs[i].live && b in qs[j].live
            && var s, t := qs[i].live[a].handle.tick, qs[j].live[b].handle.tick;
            s < t || (s == t && b < a)
  {
    var a, b := ops[i].id, ops[j].id;
    assert Step(qs[i], ops[i], qs[i + 1]) && Step(qs[j], ops[j], qs[j + 1]);
    RunKeepsWellFormed(qs, ops, i + 1, j);
    if b < qs[i + 1].nextId {
      LiveSince(qs, ops, i + 1, j, b);
    } else {
      NewerIsLater(qs, ops, i + 1, j, b);
    }
  }

  predicate Retires<T>(op: Op<T>, id: nat) {
    (op.Fired? || op.Cancelled?) && op.id == id
  }

  /** How often `id` has fired or been cancelled. */
  function Retirements<T>(ops: seq<Op<T>>, id: nat): nat {
    if ops == [] then 0
    else Retirements(ops[..|ops| - 1], id) + if Retires(ops[|ops| - 1], id) then 1 else 0
  }

  lemma RunPrefix<T>(qs: seq<Queue<T>>, ops: seq<Op<T>>)
    requires Run(qs, ops) && 0 < |ops|
    ensures Run(qs[..|ops|], ops[..|ops| - 1])
    ensures Step(qs[|ops| - 1], ops[|ops| - 1], qs[|ops|])
  {
    forall i | 0 <= i < |ops| - 1
      ensures Step(qs[..|ops|][i], ops[..|ops| - 1][i], qs[..|ops|][i + 1])
    {
      assert Step(qs[i], ops[i], qs[i + 1]);
    }
  }

  lemma OnceStep<T>(q: Queue<T>, op: Op<T>, q': Queue<T>, id: nat)
    requires WellFormed(q) && Step(q, op, q')
    ensures (if Retires(op, id) then 1 else 0) + (if id in q'.live then 1 else 0) - (if id in q.live then 1 else 0)
         == (if id < q'.nextId then 1 else 0) - if id < q.nextId then 1 else 0
  {
  }

  /** Every accepted timeout is live, or fired once, or cancelled once, and never two of these. */
  lemma {:induction false} ExactlyOnce<T>(qs: seq<Queue<T>>, ops: seq<Op<T>>, id: nat)
    requires Run(qs, ops)
    ensures var last := qs[|ops|];
            Retirements(ops, id) + (if id in last.live then 1 else 0) == if id < last.nextId then 1 else 0
    decreases |ops|
  {
    hide Step, WellFormed;
    if |ops| > 0 {
      RunPrefix(qs, ops);
      ExactlyOnce(qs[..|ops|], ops[..|ops| - 1], id);
      RunKeepsWellFormed(qs, ops, 0, |ops| - 1);
      OnceStep(qs[|ops| - 1], ops[|ops| - 1], qs[|ops|], id);
    }
  }

  /** A handle whose timeout has fired is dead for ever: later cancels with it find nothing and
      change nothing, even after the slab has handed its token to another timeout. */
  lemma FiredHandleIsDead<T>(qs: seq<Queue<T>>, ops: seq<Op<T>>, i: nat, j: nat)
    requires Run(qs, ops) && i < j < |qs|
    requires ops[i].Fired?
    ensures ops[i].id in qs[i].live
    ensures forall id <- qs[j].live :: qs[j].live[id].handle != qs[i].live[ops[i].id].handle
  {
    var a := ops[i].id;
    assert Step(qs[i], ops[i], qs[i + 1]);
    var handle := qs[i].live[a].handle;
    RunKeepsWellFormed(qs, ops, 0, i);
    forall id | id in qs[j].live
      ensures qs[j].live[id].handle != handle
    {
      if id < qs[i + 1].nextId {
        LiveSince(qs, ops, i + 1, j, id);
      } else {
        NewerIsLater(qs, ops, i + 1, j, id);
      }
    }
  }

  /** So a cancel with such a handle is always a miss. */
  lemma FiredHandleCannotCancel<T>(qs: seq<Queue<T>>, ops: seq<Op<T>>, i: nat, j: nat)
    requires Run(qs, ops) && i < j < |ops|
    requires ops[i].Fired? && ops[i].id in qs[i].live
    ensures !(ops[j].Cancelled? && ops[j].handle == qs[i].live[ops[i].id].handle)
  {
    FiredHandleIsDead(qs, ops, i, j);
    assert Step(qs[j], ops[j], qs[j + 1]);
  }

  /** A cancelled handle has no such protection: once the slab reuses its token for another timeout
      of the same tick, cancelling again removes the other timeout. */
  lemma CancelledHandleCanHitAnother<T>(state: T)
    ensures exists qs: seq<Queue<T>>, ops: seq<Op<T>> ::
              && Run(qs, ops) && |ops| == 4
              && ops[1] == Cancelled(0, Handle(0, 1))
              && ops[3] == Cancelled(1, Handle(0, 1))
  {
    var handle := Handle(0, 1);
    var item := Item(handle, state);
    var ops := [Inserted(0, handle, state), Cancelled(0, handle), Inserted(1, handle, state), Cancelled(1, handle)];
    var e: map<nat, Item<T>> := map[];
    var qs := [Empty(), Queue(0, e[0 := item], 1), Queue(0, e, 1), Queue(0, e[1 := item], 2), Queue(0, e, 2)];
    assert Step(qs[0], ops[0], qs[1]);
    assert Step(qs[1], ops[1], qs[2]);
    assert Step(qs[2], ops[2], qs[3]);
    assert Step(qs[3], ops[3], qs[4]);
    assert Run(qs, ops);
  }

  /** A timeout live at `j` and newer than `i` was inserted in between. */
  lemma {:induction false} InsertedBetween<T>(qs: seq<Queue<T>>, ops: seq<Op<T>>, i: nat, j: nat, id: nat)
            returns (k: nat)
    requires Run(qs, ops) && i <= j < |qs|
    requires id in qs[j].live && qs[i].nextId <= id
    ensures i <= k < j && ops[k].Inserted? && ops[k].id == id && ops[k].handle == qs[j].live[id].handle
    decreases j - i
  {
    RunKeepsWellFormed(qs, ops, 0, i);
    assert i < j;
    assert Step(qs[j - 1], ops[j - 1], qs[j]);
    if id in qs[j - 1].live {
      RunKeepsWellFormed(qs, ops, 0, j - 1);
      k := InsertedBetween(qs, ops, i, j - 1, id);
    } else {
      k := j - 1;
    }
  }

  /** Exactly then: after a cancel, its handle names a live timeout again if and only if a timeout
      inserted since then got the same token and the same tick and is still live. */
  lemma CancelledHandleHitsExactly<T>(qs: seq<Queue<T>>, ops: seq<Op<T>>, i: nat, j: nat)
    requires Run(qs, ops) && i < j < |qs| && ops[i].Cancelled?
    ensures (exists id :: id in qs[j].live && qs[j].live[id].handle == ops[i].handle) <==>
            (exists k :: i < k < j && ops[k].Inserted? && ops[k].handle == ops[i].handle && ops[k].id in qs[j].live)
  {
    assert Step(qs[i], ops[i], qs[i + 1]);
    RunKeepsWellFormed(qs, ops, 0, i);
    if id :| id in qs[j].live && qs[j].live[id].handle == ops[i].handle {
      if id < qs[i + 1].nextId {
        LiveSince(qs, ops, i + 1, j, id);
      } else {
        var k := InsertedBetween(qs, ops, i + 1, j, id);
      }
    }
    if k :| i < k < j && ops[k].Inserted? && ops[k].handle == ops[i].handle && ops[k].id in qs[j].live {
      assert Step(qs[k], ops[k], qs[k + 1]);
      LiveSince(qs, ops, k + 1, j, ops[k].id);
    }
  }

  /** Draining: a block of polls with the same target that ends in "none" fires every timeout due
      by then, whatever else happened before the block. */
  lemma {:induction false} DrainLeavesNothingDue<T>(qs: seq<Queue<T>>, ops: seq<Op<T>>, i: nat, target: nat)
    requires Run(qs, ops) && i < |ops|
    requires forall k | i <= k < |ops| :: ops[k] == PolledNone(target) || (ops[k].Fired? && ops[k].target == target)
    requires ops[|ops| - 1] == PolledNone(target)
    ensures forall id | id in qs[i].live && qs[i].live[id].handle.tick <= target ::
              exists k :: i <= k < |ops| && ops[k] == Fired(id, target)
    decreases |ops| - i
  {
    assert Step(qs[i], ops[i], qs[i + 1]);
    if i + 1 < |ops| {
      DrainLeavesNothingDue(qs, ops, i + 1, target);
    }
  }

  // ----- firing early -----

  /** Every empty poll steps the timer one tick past its target, even past the clock: with the clock at
      tick 0 all along, a timeout due at tick `n` fires after `n` empty polls. */
  lemma CanFireEarly<T>(state: T, n: nat)
    requires 0 < n
    ensures exists qs: seq<Queue<T>>, ops: seq<Op<T>> ::
              Run(qs, ops) && ops == [Inserted(0, Handle(0, n), state)] + seq(n, _ => PolledNone(0)) + [Fired(0, 0)]
  {
    var ops := [Inserted(0, Handle(0, n), state)] + seq(n, _ => PolledNone(0)) + [Fired(0, 0)];
    var none: map<nat, Item<T>> := map[];
    var live := none[0 := Item(Handle(0, n), state)];
    var qs := [Empty()] + seq(n + 1, now requires 0 <= now => Queue(now, live, 1)) + [Queue(n, none, 1)];
    forall i | 0 <= i < |ops|
      ensures Step(qs[i], ops[i], qs[i + 1])
    {
      if i == 0 {
        assert qs[1] == Queue(0, live, 1);
      } else if i <= n {
        assert ops[i] == PolledNone(0) && qs[i] == Queue(i - 1, live, 1) && qs[i + 1] == Queue(i, live, 1);
      } else {
        assert qs[i] == Queue(n, live, 1) && qs[i + 1] == Queue(n, none, 1);
        assert live - {0} == none;
      }
    }
    assert Run(qs, ops);
  }

  /** A poll fires a timeout before the clock has reached its tick exactly when the timer has run ahead
      of the clock and stands on that tick. */
  lemma FiresEarlyExactly<T>(qs: seq<Queue<T>>, ops: seq<Op<T>>, i: nat)
    requires Run(qs, ops) && i < |ops| && ops[i].Fired?
    ensures ops[i].id in qs[i].live
    ensures var due := qs[i].live[ops[i].id].handle.tick;
            ops[i].target < due <==> ops[i].target < qs[i].now == due
  {
    RunKeepsWellFormed(qs, ops, 0, i);
    assert Step(qs[i], ops[i], qs[i + 1]);
  }

  /** The latest clock tick a poll has been given. */
  function LatestTarget<T>(ops: seq<Op<T>>): nat {
    if ops == [] then 0
    else
      var op := ops[|ops| - 1];
      Max(LatestTarget(ops[..|ops| - 1]), if op.Fired? || op.PolledNone? then op.target else 0)
  }

  function EmptyPolls<T>(ops: seq<Op<T>>): nat {
    if ops == [] then 0
    else EmptyPolls(ops[..|ops| - 1]) + if ops[|ops| - 1].PolledNone? then 1 else 0
  }

  /** The timer runs ahead of the clock by at most one tick for every empty poll. */
  lemma {:induction false} AheadByEmptyPolls<T>(qs: seq<Queue<T>>, ops: seq<Op<T>>)
    requires Run(qs, ops)
    ensures qs[|ops|].now <= LatestTarget(ops) + EmptyPolls(ops)
    decreases |ops|
  {
    if |ops| > 0 {
      RunPrefix(qs, ops);
      AheadByEmptyPolls(qs[..|ops|], ops[..|ops| - 1]);
    }
  }
}
