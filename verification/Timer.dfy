/** `Timer` of src/timer.rs, method by method, proved against the simple queue of `TimerQueue`. */
module Timer {
  import opened Ticks
  import opened TimerQueue
  import opened SlotLists
  import opened TimerWheel
  import opened TimerFreshness
  import opened TimerTight
  import Wakeup

  /** `usize::next_power_of_two` as the number of bits below it. */
  function NextPowerOfTwoBits(n: nat): (bits: nat)
    ensures 1 <= Pow2(bits) && n <= Pow2(bits)
    ensures bits == 0 || Pow2(bits - 1) < n
    ensures Pow2(bits) == 1 || Pow2(bits) / 2 < n
  {
    NextPow2From(n, 0)
  }

  /** The smallest `next_tick` of a wheel, none for a wheel without slots. */
  function MinNextTick(wheel: seq<WheelEntry>): (r: Option<u64>)
    ensures r.None? <==> wheel == []
    ensures r.Some? ==> forall i | 0 <= i < |wheel| :: r.value <= wheel[i].nextTick
    ensures r.Some? ==> exists i :: 0 <= i < |wheel| && r.value == wheel[i].nextTick
  {
    if wheel == [] then None
    else
      var rest := MinNextTick(wheel[1..]);
      assert wheel == [wheel[0]] + wheel[1..];
      if rest.None? || wheel[0].nextTick <= rest.value then Some(wheel[0].nextTick) else rest
  }

  /** A slab with a vacancy has a vacant token. */
  lemma {:induction false} VacantToken<E>(entries: map<nat, E>, capacity: nat)
    requires forall t <- entries :: t < capacity
    ensures |entries| <= capacity
    ensures |entries| < capacity ==> exists t: nat :: t < capacity && t !in entries
  {
    if capacity > 0 {
      var c := capacity - 1;
      if c in entries {
        var smaller := entries - {c};
        assert entries.Keys == smaller.Keys + {c};
        assert |entries.Keys| == |smaller.Keys| + 1;
        VacantToken(smaller, c);
        if |entries| < capacity {
          var t: nat :| t < c && t !in smaller;
          assert t !in entries;
        }
      } else {
        VacantToken(entries, c);
      }
    } else {
      assert entries.Keys == {};
    }
  }

  class Timer<T> {
    const tickMs: u64
    const mask: nat
    const capacity: nat
    ghost const slotBits: nat

    var entries: map<nat, Entry<T>>
    var wheel: seq<WheelEntry>
    var tick: u64
    var next: nat
    var registered: bool

    /** Serial numbers of the live entries, the queue the wheel stands for, and the calls made to
        the wakeup protocol. */
    ghost var ids: map<nat, nat>
    ghost var queue: Queue<T>
    ghost var requests: seq<Request>

    ghost function Now(): State<T>
      reads this
    {
      State(mask, capacity, entries, wheel, tick, next)
    }

    ghost predicate Valid()
      reads this
    {
      && mask + 1 == Pow2(slotBits)
      && Sound(Now(), ids, queue)
    }

    /** Sizes are rounded up to powers of two; larger ones overflow a machine word. */
    constructor (tickMs: u64, numSlots: nat, capacity: nat)
      requires numSlots <= Pow2(63) && capacity <= Pow2(63)
      ensures Valid() && CacheFull(Now()) && Fresh(Now()) && Tight(Now())
      ensures this.tickMs == tickMs
      ensures numSlots <= mask + 1 && (mask == 0 || (mask + 1) / 2 < numSlots)
      ensures capacity <= this.capacity && (this.capacity == 1 || this.capacity / 2 < capacity)
      ensures queue == Empty() && !registered && requests == []
    {
      hide Pow2, NextPow2From, NextPowerOfTwoBits, Sound, CacheFull, BitAnd;
      var slotBits := NextPowerOfTwoBits(numSlots);
      var capacityBits := NextPowerOfTwoBits(capacity);
      this.tickMs := tickMs;
      this.slotBits := slotBits;
      this.mask := Pow2(slotBits) - 1;
      this.capacity := Pow2(capacityBits);
      this.entries := map[];
      this.wheel := seq(Pow2(slotBits), _ => WheelEntry(TICK_MAX, EMPTY));
      this.tick := 0;
      this.next := EMPTY;
      this.registered := false;
      this.ids := map[];
      this.queue := Empty();
      this.requests := [];
      new;
      CapacityFits(capacityBits, capacity);
      EmptyIsSound(Now());
      NewIsFresh(Now());
      NewIsTight(Now());
    }

    /** Always targets at least one tick in the future; `tick + 1` must fit in a word. */
    method SetTimeoutAt(delayFromStart: Duration, state: T) returns (r: Result<Handle>)
      requires Valid() && delayFromStart.Valid() && 0 < tickMs && tick < TICK_MAX
      modifies this`entries, this`wheel, this`ids, this`queue, this`requests
      ensures Valid() && (old(CacheFull(Now())) ==> CacheFull(Now()))
      ensures r.Ok? <==> |old(entries)| < capacity
      ensures r.Ok? ==>
                && r.value.tick == Max(DurationToTick(delayFromStart, tickMs), tick + 1)
                && Step(old(queue), Inserted(old(queue).nextId, r.value, state), queue)
                && requests == old(requests) + if registered then [Schedule(r.value.tick)] else []
      ensures r.Ok? ==> FreshUnlessDue(old(Now()), r.value.tick, Now())
      ensures old(Tight(Now())) ==> Tight(Now())
      ensures r.Overflow? ==> Step(old(queue), Rejected, queue) && requests == old(requests)
    {
      hide Sound, Step, CacheFull, BitAnd, FreshUnlessDue, Tight;
      WalkFacts(Now(), ids, queue);
      var tick := DurationToTick(delayFromStart, tickMs);
      if tick <= this.tick {
        tick := this.tick + 1;
      }
      r := Insert(tick, state);
    }

    /** The slab's `insert`: any vacant token, none when every token is taken. */
    method SlabInsert(entry: Entry<T>) returns (r: Option<nat>)
      requires forall t <- entries :: t < capacity
      modifies this`entries
      ensures r.Some? <==> |old(entries)| < capacity
      ensures r.Some? ==> r.value < capacity && r.value !in old(entries) && entries == old(entries)[r.value := entry]
      ensures r.None? ==> entries == old(entries)
    {
      if |entries| == capacity {
        return None;
      }
      VacantToken(entries, capacity);
      var token: nat :| token < capacity && token !in entries;
      entries := entries[token := entry];
      r := Some(token);
    }

    method Insert(tick: u64, state: T) returns (r: Result<Handle>)
      requires Valid() && this.tick < tick
      modifies this`entries, this`wheel, this`ids, this`queue, this`requests
      ensures Valid() && (old(CacheFull(Now())) ==> CacheFull(Now()))
      ensures r.Ok? <==> |old(entries)| < capacity
      ensures r.Ok? ==>
                && r.value.tick == tick
                && Step(old(queue), Inserted(old(queue).nextId, r.value, state), queue)
                && requests == old(requests) + if registered then [Schedule(tick)] else []
      ensures r.Ok? ==> FreshUnlessDue(old(Now()), r.value.tick, Now())
      ensures old(Tight(Now())) ==> Tight(Now())
      ensures r.Overflow? ==> Step(old(queue), Rejected, queue) && requests == old(requests)
    {
      hide Sound, Step, CacheFull, IsInsertion, Fresh, DueNow, Lost, Tight, BitAnd;
      ghost var was := Now();
      InsertFacts(was, ids, queue, SlotFor(mask, tick));
      var inserted := LinkFirst(tick, state);
      if inserted.None? {
        RejectedStep(queue);
        return Overflow;
      }
      var token := inserted.value;
      InsertionKeepsSound(was, ids, queue, token, tick, state, Now());
      if Fresh(was) {
        WalkFacts(was, ids, queue);
        InsertionFresh(was, token, tick, state, Now());
      }
      if Tight(was) {
        InsertionTight(was, token, tick, state, Now());
      }
      InsertedStep(queue, Handle(token, tick), state);
      ids := ids[token := queue.nextId];
      queue := queue.(live := queue.live[queue.nextId := Item(Handle(token, tick), state)], nextId := queue.nextId + 1);

      ScheduleReadiness(tick);
      r := Ok(Handle(token, tick));
    }

    /** The first half of `insert`: take a slab token and put the entry in front of its slot's list. */
    method LinkFirst(tick: u64, state: T) returns (r: Option<nat>)
      requires |wheel| == mask + 1 && EMPTY !in entries && forall t <- entries :: t < capacity
      requires var head := wheel[SlotFor(mask, tick)].head; head != EMPTY ==> head in entries
      modifies this`entries, this`wheel
      ensures r.Some? <==> |old(entries)| < capacity
      ensures r.Some? ==>
                && r.value < capacity && r.value !in old(entries)
                && IsInsertion(old(Now()), r.value, tick, state, Now())
      ensures r.None? ==> entries == old(entries) && wheel == old(wheel)
    {
      hide BitAnd;
      var slot := SlotFor(mask, tick);
      var curr := wheel[slot];
      r := SlabInsert(Entry(state, EntryLinks(tick, EMPTY, curr.head)));
      if r.None? {
        return;
      }
      if curr.head != EMPTY {
        entries := entries[curr.head := entries[curr.head].(links := entries[curr.head].links.(prev := r.value))];
      }
      wheel := wheel[slot := WheelEntry(Min(tick, curr.nextTick), r.value)];
      assert entries.Keys == old(entries).Keys + {r.value};
    }

    method CancelTimeout(timeout: Handle) returns (r: Option<T>, ghost id: nat)
      requires Valid()
      modifies this`entries, this`wheel, this`next, this`ids, this`queue
      ensures Valid() && (old(CacheFull(Now())) ==> CacheFull(Now()))
      ensures r.Some? ==> Step(old(queue), Cancelled(id, timeout), queue) && Carries(old(queue), id, r.value)
      ensures r.Some? ==> FreshUnlessLast(old(Now()), timeout.token, Now())
      ensures r.Some? && old(Tight(Now())) ==> (Tight(Now()) <==> !old(OnlyCached(Now(), timeout.token)))
      ensures r.None? ==> Step(old(queue), CancelMissed(timeout), queue) && Now() == old(Now())
    {
      id := 0;
      if timeout.token !in entries {
        HandleOf(timeout);
        return None, id;
      }
      var links := entries[timeout.token].links;
      if links.tick != timeout.tick {
        HandleOf(timeout);
        return None, id;
      }
      id := ids[timeout.token];
      ghost var was := Now();
      ghost var idsBefore := ids;
      CancelFacts(was, ids, queue, timeout.token);
      var state := Remove(links, timeout.token);
      if Fresh(was) {
        RemovalFresh(was, idsBefore, timeout.token, Now());
      }
      if Tight(was) {
        RemovalTight(was, timeout.token, Now());
      }
      r := Some(state);
    }

    /** A handle names a live timeout exactly when the slab has its token with its tick. */
    lemma HandleOf(timeout: Handle)
      requires Valid()
      ensures (exists id :: id in queue.live && queue.live[id].handle == timeout)
              <==> timeout.token in entries && entries[timeout.token].links.tick == timeout.tick
    {
      if timeout.token in entries {
        assert ids[timeout.token] in queue.live;
      }
    }

    method Unlink(links: EntryLinks, token: nat)
      requires Neighbours(Now(), ids, token) && entries[token].links == links && |wheel| == mask + 1
      modifies this`entries, this`wheel, this`next
      ensures entries.Keys == old(entries).Keys
      ensures forall t {:trigger entries[t]} | t in entries && t != token ::
                && entries[t].state == old(entries)[t].state
                && var was := old(entries)[t].links;
                entries[t].links == EntryLinks(was.tick,
                                               if links.next != EMPTY && t == links.next then links.prev else was.prev,
                                               if links.prev != EMPTY && t == links.prev then links.next else was.next)
      ensures entries[token].state == old(entries)[token].state
      ensures var slot := SlotFor(mask, links.tick);
              wheel == if links.prev != EMPTY then old(wheel)
                       else old(wheel)[slot := old(wheel)[slot].(head := links.next)]
      ensures next == if old(next) == token then links.next else old(next)
    {
      if links.prev == EMPTY {
        var slot := SlotFor(mask, links.tick);
        wheel := wheel[slot := wheel[slot].(head := links.next)];
      } else {
        entries := entries[links.prev := entries[links.prev].(links := entries[links.prev].links.(next := links.next))];
      }

      if links.next != EMPTY {
        entries := entries[links.next := entries[links.next].(links := entries[links.next].links.(prev := links.prev))];
        if token == next {
          next := links.next;
        }
      } else if token == next {
        next := EMPTY;
      }
    }

    /** `unlink` and the slab's `remove`, as both `cancel_timeout` and `poll_to` call them. */
    method Remove(links: EntryLinks, token: nat) returns (state: T)
      requires Valid() && token in entries && entries[token].links == links
      modifies this`entries, this`wheel, this`next, this`ids, this`queue
      ensures Valid() && (old(CacheFull(Now())) ==> CacheFull(Now()))
      ensures IsRemoval(old(Now()), token, Now())
      ensures old(ids[token]) in old(queue).live
                && old(queue).live[old(ids[token])] == Item(Handle(token, links.tick), state)
      ensures queue == old(queue).(live := old(queue).live - {old(ids[token])})
    {
      hide Sound, CacheFull, BitAnd;
      ghost var was := Now();
      RemoveFacts(was, ids, queue, token);
      Unlink(links, token);
      state := entries[token].state;
      entries := entries - {token};

      assert IsRemoval(was, token, Now());
      RemovalKeepsSound(was, ids, queue, token, Now());
      queue := queue.(live := queue.live - {ids[token]});
      ids := ids - {token};
    }

    method Poll(elapsed: Duration) returns (r: Option<T>, ghost id: nat)
      requires Valid() && elapsed.Valid() && 0 < tickMs && tick < TICK_MAX && DurationToTick(elapsed, tickMs) < TICK_MAX
      modifies this`entries, this`wheel, this`tick, this`next, this`ids, this`queue, this`requests
      ensures Valid() && (old(Fresh(Now())) ==> Fresh(Now())) && StaysStale(old(Now()), Now())
      ensures r.Some? ==>
                && Step(old(queue), Fired(id, DurationToTick(elapsed, tickMs)), queue)
                && Carries(old(queue), id, r.value)
                && requests == old(requests)
      ensures r.None? ==>
                && Step(old(queue), PolledNone(DurationToTick(elapsed, tickMs)), queue)
                && CacheFull(Now())
                && requests == old(requests) + if registered then [UnsetReadiness, Schedule(NextTick().value)] else []
      ensures r.Some? && old(Fresh(Now())) ==> DueIsSilent()
      ensures old(Fresh(Now()) && Tight(Now())) ==> Tight(Now()) && (r.None? ==> IsEarliest(queue, NextTick().value))
      ensures r.None? && old(Lost(Now())) && tick - old(tick) <= mask ==>
                (NextTick().value < tick <==> !CursorDue(Now()))
    {
      hide Sound, Step, CacheFull, Fresh, Lost, StaysStale, CursorDue, DueIsSilent, Tight, IsEarliest;
      r, id := PollTo(DurationToTick(elapsed, tickMs));
    }

    /** Refines the simple queue. The effective target is the later of the argument and the current
        tick; `tick` must be able to step past it. */
    method PollTo(target: u64) returns (r: Option<T>, ghost id: nat)
      requires Valid() && target < TICK_MAX && tick < TICK_MAX
      modifies this`entries, this`wheel, this`tick, this`next, this`ids, this`queue, this`requests
      ensures Valid() && (old(Fresh(Now())) ==> Fresh(Now())) && StaysStale(old(Now()), Now())
      ensures r.Some? ==>
                && Step(old(queue), Fired(id, target), queue)
                && Carries(old(queue), id, r.value)
                && requests == old(requests)
      ensures r.None? ==>
                && Step(old(queue), PolledNone(target), queue)
                && CacheFull(Now())
                && requests == old(requests) + if registered then [UnsetReadiness, Schedule(NextTick().value)] else []
      ensures r.Some? && old(Fresh(Now())) ==> DueIsSilent()
      ensures old(Fresh(Now()) && Tight(Now())) ==> Tight(Now()) && (r.None? ==> IsEarliest(queue, NextTick().value))
      ensures r.None? && old(Lost(Now())) && tick - old(tick) <= mask ==>
                (NextTick().value < tick <==> !CursorDue(Now()))
    {
      hide Sound, Step, IsNext, CacheFull, BitAnd, Fresh, DueNow, Lost, Stale, CursorDue, DueIsSilent, Tight, Ahead;
      WalkFacts(Now(), ids, queue);
      id := 0;
      var targetTick := target;
      if targetTick < tick {
        targetTick := tick;
      }

      while tick <= targetTick
        invariant Valid() && |wheel| == mask + 1
        invariant old(tick) <= tick <= targetTick + 1
        invariant queue == old(queue).(now := tick)
        invariant requests == old(requests)
        invariant (old(Fresh(Now())) ==> Fresh(Now())) && StaysStale(old(Now()), Now())
        invariant old(Fresh(Now()) && Tight(Now())) ==> Tight(Now())
        invariant targetTick < tick ==>
                    CacheFull(Now()) && forall i <- queue.live :: targetTick < queue.live[i].handle.tick
        decreases targetTick + 1 - tick, if next in ids then ids[next] + 1 else 0
      {
        WalkFacts(Now(), ids, queue);
        var curr := next;

        if curr == EMPTY {
          AdvanceTick();
        } else {
          StartWalk();
          var links := entries[curr].links;
          if links.tick <= tick {
            var state;
            state, id := Fire(links);
            FiredStep(old(queue), tick, id, target);
            return Some(state), id;
          } else {
            SkipEntry(links);
          }
        }
      }

      NoneStep(old(queue), target);
      NoMoreTimeouts();
      if Tight(Now()) {
        NextTickIsEarliest();
      }
      if old(Lost(Now())) && tick - old(tick) <= mask {
        LostIsStale(old(Now()));
        StaleIsPast(old(tick));
      }
      r := None;
    }

    /** `poll_to` on an entry that is due: take it out and return its state. */
    method Fire(links: EntryLinks) returns (state: T, ghost id: nat)
      requires Valid() && next in entries && entries[next].links == links && links.tick <= tick < TICK_MAX
      modifies this`entries, this`wheel, this`next, this`ids, this`queue
      ensures Valid() && StaysStale(old(Now()), Now())
      ensures IsNext(old(queue), id) && Carries(old(queue), id, state) && old(queue).live[id].handle.tick == tick
      ensures queue == old(queue).(live := old(queue).live - {id})
      ensures old(Fresh(Now()) && !DueNow(Now())) ==> Fresh(Now()) && DueIsSilent()
      ensures old(Fresh(Now()) && !DueNow(Now()) && Tight(Now())) ==> Tight(Now())
    {
      hide Sound, CacheFull, BitAnd, Fresh, DueNow, Stale, DueIsSilent, Tight, IsRemoval, Ahead;
      ghost var was, idsBefore, queueBefore, curr := Now(), ids, queue, next;
      DueFacts(was, ids, queue);
      id := ids[next];
      state := Remove(links, next);
      WalkStaysStale(was, idsBefore, queueBefore, slotBits, Now());
      if Fresh(was) && !DueNow(was) {
        FireFresh(was, curr, Now());
        StartedIsSilent();
        if Tight(was) {
          FireTight(was, curr, Now());
        }
      }
    }

    /** `poll_to` on reaching an entry: one at the head of its slot clears the slot's cached tick. */
    method StartWalk()
      requires Valid() && next in entries && tick < TICK_MAX
      modifies this`wheel
      ensures Valid() && |wheel| == mask + 1
      ensures old(Fresh(Now())) ==> Fresh(Now()) && !DueNow(Now())
      ensures StaysStale(old(Now()), Now()) && (old(Tight(Now())) ==> Tight(Now()))
    {
      hide Sound, CacheFull, BitAnd, Fresh, StaysStale, Tight;
      ghost var was := Now();
      WalkFacts(was, ids, queue);
      var slot := SlotFor(mask, tick);
      if next == wheel[slot].head {
        wheel := wheel[slot := wheel[slot].(nextTick := TICK_MAX)];
      }
      ResetKeepsSound(was, ids, queue, Now());
      WalkStaysStale(was, ids, queue, slotBits, Now());
      if Fresh(was) {
        ResetFresh(was, Now());
      }
      if Tight(was) {
        WalkTight(was, Now());
      }
    }

    /** `poll_to` on an entry that is not due: cache its tick and go on to the next entry. */
    method SkipEntry(links: EntryLinks)
      requires Valid() && next in entries && entries[next].links == links && tick < links.tick
      modifies this`wheel, this`next
      ensures Valid() && |wheel| == mask + 1
      ensures old(next) in ids && (next != EMPTY ==> next in ids && ids[next] < ids[old(next)])
      ensures old(Fresh(Now()) && !DueNow(Now())) ==> Fresh(Now())
      ensures StaysStale(old(Now()), Now()) && (old(Tight(Now())) ==> Tight(Now()))
    {
      hide Sound, CacheFull, BitAnd, Fresh, StaysStale, Tight;
      ghost var was := Now();
      WalkFacts(was, ids, queue);
      var slot := SlotFor(mask, tick);
      var nextTick := wheel[slot].nextTick;
      wheel := wheel[slot := wheel[slot].(nextTick := Min(nextTick, links.tick))];
      next := links.next;
      SkipKeepsSound(was, ids, queue, Now());
      WalkStaysStale(was, ids, queue, slotBits, Now());
      if Fresh(was) && !DueNow(was) {
        SkipFresh(was, ids, Now());
      }
      if Tight(was) {
        SkipTight(was, ids, Now());
      }
    }

    /** `poll_to` when the walk of a slot is over: the next tick, at the head of its slot. A head that
        is empty clears the slot's cached tick. */
    method AdvanceTick()
      requires Valid() && next == EMPTY && tick < TICK_MAX
      modifies this`tick, this`next, this`wheel, this`queue
      ensures Valid() && |wheel| == mask + 1 && CacheFull(Now())
      ensures (old(Fresh(Now())) ==> Fresh(Now())) && StaysStale(old(Now()), Now())
      ensures old(Tight(Now())) ==> Tight(Now())
      ensures tick == old(tick) + 1
      ensures queue == old(queue).(now := tick)
      ensures forall id <- queue.live :: old(tick) < queue.live[id].handle.tick
    {
      hide Sound, CacheFull, BitAnd, Fresh;
      ghost var was := Now();
      WalkFacts(was, ids, queue);
      tick := tick + 1;
      var slot := SlotFor(mask, tick);
      next := wheel[slot].head;
      if next == EMPTY {
        wheel := wheel[slot := wheel[slot].(nextTick := TICK_MAX)];
      }
      AdvanceKeepsSound(was, ids, queue, Now());
      AdvanceStaysStale(was, slotBits, Now());
      if Fresh(was) {
        AdvanceFresh(was, Now());
      }
      if Tight(was) {
        WalkTight(was, Now());
      }
      queue := queue.(now := tick);
    }

    /** The end of `poll_to`: unset readiness and schedule the next wakeup. */
    method NoMoreTimeouts()
      requires Valid()
      modifies this`requests
      ensures requests == old(requests) + if registered then [UnsetReadiness, Schedule(NextTick().value)] else []
    {
      hide Sound;
      if registered {
        requests := requests + [UnsetReadiness];
        var nt := NextTick();
        if nt.Some? {
          ScheduleReadiness(nt.value);
        }
      }
    }

    /** The wakeup protocol itself is modelled in `Wakeup`; here a call is recorded. */
    method ScheduleReadiness(tick: u64)
      modifies this`requests
      ensures requests == old(requests) + if registered then [Schedule(tick)] else []
    {
      if registered {
        requests := requests + [Schedule(tick)];
      }
    }

    /** `next_tick`'s first answer: the cursor stands on a slot that caches the current tick. */
    predicate ReadyNow()
      requires Valid()
      reads this
    {
      next != EMPTY && wheel[SlotFor(mask, entries[next].links.tick)].nextTick == tick
    }

    /** Next tick containing a timeout. */
    function NextTick(): (r: Option<u64>)
      requires Valid()
      reads this
      ensures r.Some?
    {
      if ReadyNow() then Some(tick) else MinNextTick(wheel)
    }

    /** Whenever the cache is full, `next_tick` is never later than the earliest live timeout, and
        it is never the value 0 that ends the wakeup thread. */
    lemma NextTickIsNeverLate()
      requires Valid() && CacheFull(Now())
      ensures 0 < NextTick().value
      ensures forall id <- queue.live :: NextTick().value <= queue.live[id].handle.tick
    {
      forall id | id in queue.live
        ensures NextTick().value <= queue.live[id].handle.tick
      {
        var t := queue.live[id].handle.token;
        assert ids[t] == id && Cached(Now(), t) && tick <= Now().entries[t].links.tick;
      }
    }

    /** When the cached ticks are ticks of live timeouts and cover all of them, `next_tick` is the tick of
        the earliest live timeout. */
    lemma NextTickIsEarliest()
      requires Valid() && CacheFull(Now()) && Tight(Now())
      ensures IsEarliest(queue, NextTick().value)
    {
      NextTickIsNeverLate();
      hide BitAnd, CacheFull;
      var i :| 0 <= i < |wheel| && wheel[i].nextTick == NextTick().value;
      if NextTick().value != TICK_MAX {
        assert Live(Now(), i, Now().wheel[i].nextTick);
        LiveIsLive(Now(), ids, queue, i, NextTick().value);
      }
    }

    /** On a fresh timer `next_tick` is the least cached tick. */
    lemma NextTickIsLeastCached(bound: u64)
      requires Valid() && Fresh(Now())
      ensures NextTick().value <= bound <==> exists i :: 0 <= i < |wheel| && wheel[i].nextTick <= bound
    {
      hide BitAnd;
    }

    /** In any state, `next_tick` is not later than a live timeout exactly when some slot caches a tick
        that is not. */
    lemma NextTickReachesExactly(id: nat)
      requires Valid() && id in queue.live
      ensures var due := queue.live[id].handle.tick;
              NextTick().value <= due <==> exists i :: 0 <= i < |wheel| && wheel[i].nextTick <= due
    {
      NoneOverdue(Now(), ids, queue);
    }

    /** So a timeout that is due now, on a fresh timer, is announced exactly when the current slot still
        caches the current tick: until a poll has started on that slot. */
    lemma NextTickWhenDue(id: nat)
      requires Valid() && Fresh(Now()) && id in queue.live && queue.live[id].handle.tick == tick < TICK_MAX
      ensures NextTick().value <= tick <==> DueNow(Now())
    {
      hide Sound, BitAnd, NextTick;
      NextTickReachesExactly(id);
      if DueNow(Now()) {
        assert wheel[SlotFor(mask, tick)].nextTick <= tick;
      }
    }

    /** No timeout that is due now is announced. */
    ghost predicate DueIsSilent()
      requires Valid()
      reads this
    {
      forall id <- queue.live :: queue.live[id].handle.tick == tick ==> tick < NextTick().value
    }

    /** Once a poll of a fresh timer has started on the current slot, what is still due there is not
        announced. */
    lemma StartedIsSilent()
      requires Valid() && Fresh(Now()) && !DueNow(Now()) && tick < TICK_MAX
      ensures DueIsSilent()
    {
      hide Sound, BitAnd, Fresh, DueNow, NextTick;
      forall id | id in queue.live && queue.live[id].handle.tick == tick
        ensures tick < NextTick().value
      {
        NextTickWhenDue(id);
      }
    }

    /** A slot lost less than a turn of the wheel ago puts `next_tick` in the past, except while the cursor
        stands on a slot due now. */
    lemma StaleIsPast(from: u64)
      requires Valid() && Stale(Now(), from) && from < tick && tick - from <= mask
      ensures NextTick().value < tick <==> !CursorDue(Now())
    {
      hide BitAnd;
      assert wheel[SlotFor(mask, from)].nextTick == from;
    }

    /** While the cache is fresh, `next_tick` is never in the past. */
    lemma NextTickIsNotPast()
      requires Valid() && Fresh(Now())
      ensures tick <= NextTick().value
    {
    }

    /** The tick handed to the wakeup protocol meets what `Wakeup` asks of the timer. */
    lemma NextTickIsWakeupBound()
      requires Valid() && CacheFull(Now())
      ensures Wakeup.IsBound(map id | id in queue.live :: queue.live[id].handle.tick as nat, NextTick().value)
    {
      NextTickIsNeverLate();
    }

    /** Following the links from the head of slot `s` visits exactly the entries whose tick is `s` modulo
        the number of slots, each once. */
    lemma SlotHoldsItsResidue(s: nat)
      requires Valid() && s <= mask
      ensures Linked(Links(Now()), ids) && (wheel[s].head == EMPTY || wheel[s].head in entries)
      ensures var chain := Chain(Links(Now()), ids, wheel[s].head);
              && (forall t :: t in chain <==> t in entries && entries[t].links.tick as nat % (mask + 1) == s)
              && (forall i, j | 0 <= i < j < |chain| :: chain[i] != chain[j])
    {
      hide BitAnd, Linked, CursorOk, CacheOk, Represents;
      var l := Links(Now());
      SlotChain(l, ids, s);
      forall t | t in entries
        ensures l.slot[t] == entries[t].links.tick as nat % (mask + 1)
      {
        MaskIsModulo(slotBits, entries[t].links.tick as nat);
      }
    }

    method Register() returns (ok: bool)
      requires Valid()
      modifies this`registered, this`requests
      ensures Valid() && registered
      ensures ok <==> !old(registered)
      ensures requests == old(requests) + if ok then [Schedule(NextTick().value)] else []
      ensures CacheFull(Now()) && Tight(Now()) ==> IsEarliest(queue, NextTick().value)
    {
      hide Sound, CacheFull, Tight, IsEarliest;
      ok := !registered;
      if ok {
        registered := true;
        ScheduleReadiness(NextTick().value);
      }
      if CacheFull(Now()) && Tight(Now()) {
        NextTickIsEarliest();
      }
    }
  }
}
