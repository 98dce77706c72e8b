/** When the cached ticks of a wheel stay out of the past. A `next_tick()` in the past makes every
    empty poll schedule an immediate wakeup again, the loop that the comment at
    src/timer.rs:246-250 means to rule out. */
module TimerFreshness {
  import opened Ticks
  import opened TimerQueue
  import opened SlotLists
  import opened TimerWheel

  /** No slot caches a past tick, and a slot that caches the current tick is about to be walked from
      its head, which clears the cache first. */
  predicate Fresh<T>(s: State<T>) {
    && |s.wheel| == s.mask + 1
    && (forall i {:trigger s.wheel[i]} | 0 <= i < |s.wheel| ::
          && s.tick <= s.wheel[i].nextTick
          && (s.wheel[i].nextTick == TICK_MAX || SlotFor(s.mask, s.wheel[i].nextTick) == i))
    && (DueNow(s) ==> s.next != EMPTY && s.next == s.wheel[SlotFor(s.mask, s.tick)].head)
  }

  /** The current slot caches the current tick. */
  predicate DueNow<T>(s: State<T>) {
    |s.wheel| == s.mask + 1 && s.wheel[SlotFor(s.mask, s.tick)].nextTick == s.tick < TICK_MAX
  }

  /** The cursor stands on an entry, and the current slot caches the current tick. */
  predicate CursorDue<T>(s: State<T>) {
    s.next != EMPTY && |s.wheel| == s.mask + 1 && s.wheel[SlotFor(s.mask, s.tick)].nextTick == s.tick
  }

  /** From `s` to `s'` the cache stays fresh unless the slot of `tick` is due now; then that slot is lost. */
  predicate FreshUnlessDue<T>(s: State<T>, tick: u64, s': State<T>) {
    Fresh(s) ==>
      if DueNow(s) && SlotFor(s.mask, tick) == SlotFor(s.mask, s.tick) then !Fresh(s') && Lost(s') else Fresh(s')
  }

  /** The entry is the last one the cursor has left to visit in a slot that is due now. */
  predicate LastDue<T>(s: State<T>, token: nat) {
    DueNow(s) && token == s.next && token in s.entries && s.entries[token].links.next == EMPTY
  }

  /** From `s` to `s'` the cache stays fresh unless `token` was the last entry of a slot due now. */
  predicate FreshUnlessLast<T>(s: State<T>, token: nat, s': State<T>) {
    Fresh(s) ==> if LastDue(s, token) then !Fresh(s') && Lost(s') else Fresh(s')
  }

  /** The current slot caches the current tick but its walk will not start at the head. */
  predicate Lost<T>(s: State<T>) {
    && |s.wheel| == s.mask + 1
    && DueNow(s)
    && (s.next == EMPTY || s.next != s.wheel[SlotFor(s.mask, s.tick)].head)
  }

  lemma NewIsFresh<T>(s: State<T>)
    requires IsNew(s)
    ensures Fresh(s)
  {
  }

  /** An insert keeps the cache fresh exactly when it does not go in front of a slot that is due now. */
  lemma InsertionFresh<T>(s: State<T>, token: nat, tick: u64, state: T, s': State<T>)
    requires Fresh(s) && IsInsertion(s, token, tick, state, s')
    requires token !in s.entries && s.tick < tick && (s.next != EMPTY ==> s.next in s.entries)
    ensures FreshUnlessDue(s, tick, s')
  {
    assert s'.next != token || s.next == EMPTY;
  }

  /** A cancel keeps the cache fresh exactly when it does not empty a slot that is due now. */
  lemma RemovalFresh<T>(s: State<T>, ids: map<nat, nat>, token: nat, s': State<T>)
    requires Fresh(s) && IsRemoval(s, token, s') && Neighbours(s, ids, token) && EMPTY !in s.entries
    requires s.next != EMPTY ==> s.next in s.entries && Ahead(s, ids, s.next)
    requires NewestOf(s, ids, SlotFor(s.mask, s.tick))
    requires s.entries[token].links.prev == EMPTY <==>
             s.wheel[SlotFor(s.mask, s.entries[token].links.tick)].head == token
    ensures FreshUnlessLast(s, token, s')
  {
    assert forall i {:trigger s'.wheel[i]} | 0 <= i < |s.wheel| :: s'.wheel[i].nextTick == s.wheel[i].nextTick;
    if DueNow(s) {
      assert ids[s.next] == ids[s.next];
    }
  }

  lemma AdvanceFresh<T>(s: State<T>, s': State<T>)
    requires Fresh(s) && IsAdvance(s, s')
    ensures Fresh(s')
  {
    forall i | 0 <= i < |s'.wheel|
      ensures s'.tick <= s'.wheel[i].nextTick
      ensures s'.wheel[i].nextTick == TICK_MAX || SlotFor(s.mask, s'.wheel[i].nextTick) == i
    {
      assert s.tick <= s.wheel[i].nextTick;
    }
  }

  /** Once a walk has begun, its slot caches only later ticks. */
  lemma ResetFresh<T>(s: State<T>, s': State<T>)
    requires Fresh(s) && IsReset(s, s') && s.tick < TICK_MAX
    ensures Fresh(s') && !DueNow(s')
  {
  }

  lemma SkipFresh<T>(s: State<T>, ids: map<nat, nat>, s': State<T>)
    requires ids.Keys == s.entries.Keys
    requires Fresh(s) && !DueNow(s) && s.tick < TICK_MAX && IsSkip(s, s') && Ahead(s, ids, s.next)
    ensures Fresh(s')
  {
  }

  /** Taking the entry under the cursor off its list, once the walk has begun. */
  lemma FireFresh<T>(s: State<T>, token: nat, s': State<T>)
    requires Fresh(s) && !DueNow(s) && IsRemoval(s, token, s')
    ensures Fresh(s') && !DueNow(s')
  {
  }

  /** A lost slot stays lost through the rest of its walk. */
  lemma WalkStaysLost<T>(s: State<T>, ids: map<nat, nat>, s': State<T>)
    requires Lost(s) && s.next in s.entries && Neighbours(s, ids, s.next) && EMPTY !in s.entries
    requires NewestOf(s, ids, SlotFor(s.mask, s.tick)) && Ahead(s, ids, s.next)
    requires s.entries[s.next].links.prev == EMPTY <==> s.wheel[SlotFor(s.mask, s.tick)].head == s.next
    requires IsReset(s, s') || IsSkip(s, s') || IsRemoval(s, s.next, s')
    ensures Lost(s')
  {
    assert ids[s.next] == ids[s.next];
  }

  /** The slot of tick `from` has been lost: its cached tick stays at `from`, until the wheel has turned
      round. */
  predicate Stale<T>(s: State<T>, from: u64) {
    && |s.wheel| == s.mask + 1 && from <= s.tick
    && if s.tick == from then Lost(s)
       else s.tick - from <= s.mask ==> s.wheel[SlotFor(s.mask, from)].nextTick == from
  }

  lemma LostIsStale<T>(s: State<T>)
    requires Lost(s)
    ensures Stale(s, s.tick)
  {
  }

  ghost predicate StaysStale<T>(s: State<T>, s': State<T>) {
    forall from: u64 {:trigger Stale(s', from)} | Stale(s, from) :: Stale(s', from)
  }

  /** Ticks less than a turn of the wheel apart have different slots. */
  lemma DistantSlots(bits: nat, from: nat, tick: nat)
    requires from < tick < from + Pow2(bits)
    ensures SlotFor(Pow2(bits) - 1, from) != SlotFor(Pow2(bits) - 1, tick)
  {
    hide BitAnd;
    MaskIsModulo(bits, from);
    MaskIsModulo(bits, tick);
    if from % Pow2(bits) == tick % Pow2(bits) {
      SameRemainder(from, tick, Pow2(bits));
    }
  }

  lemma SameRemainder(x: nat, y: nat, d: nat)
    requires 0 < d && x < y && x % d == y % d
    ensures x + d <= y
  {
    RemainderOf(x, d);
    RemainderOf(y, d);
    if y / d <= x / d {
      MulMonotone(y / d, x / d, d);
    } else {
      MulMonotone(x / d + 1, y / d, d);
      DivBounds(x, d);
    }
  }

  /** Every turn of a poll's loop leaves a lost slot stale: passing or firing an entry... */
  lemma WalkStaysStale<T>(s: State<T>, ids: map<nat, nat>, q: Queue<T>, bits: nat, s': State<T>)
    requires Sound(s, ids, q) && s.mask + 1 == Pow2(bits) && s.next in s.entries
    requires IsReset(s, s') || IsSkip(s, s') || IsRemoval(s, s.next, s')
    ensures StaysStale(s, s')
  {
    hide Sound, BitAnd;
    CancelFacts(s, ids, q, s.next);
    forall from: u64 | Stale(s, from)
      ensures Stale(s', from)
    {
      if s.tick == from {
        WalkStaysLost(s, ids, s');
      } else if s.tick - from <= s.mask {
        DistantSlots(bits, from, s.tick);
      }
    }
  }

  /** ...and moving on to the next tick. */
  lemma AdvanceStaysStale<T>(s: State<T>, bits: nat, s': State<T>)
    requires s.mask + 1 == Pow2(bits) && IsAdvance(s, s')
    ensures StaysStale(s, s')
  {
    hide BitAnd;
    forall from: u64 | Stale(s, from)
      ensures Stale(s', from)
    {
      if s'.tick - from <= s.mask {
        DistantSlots(bits, from, s'.tick);
      }
    }
  }

  /** The comment's own case, one call later: a timeout is cancelled after an empty poll has put the
      cursor on it. The next empty poll leaves the slot's cached tick behind, in the past, and no
      timeout is left at all. */
  lemma StuckAfterCancel<T>(state: T)
    ensures exists s0: State<T>, s1: State<T>, s2: State<T>, s3: State<T>, s4: State<T> ::
              && IsNew(s0)
              && IsInsertion(s0, 0, 1, state, s1)
              && IsAdvance(s1, s2)
              && IsRemoval(s2, 0, s3)
              && IsAdvance(s3, s4)
              && s4.tick == 2 && s4.entries == map[] && |s4.wheel| == 2 && s4.wheel[1].nextTick == 1
  {
    var none: map<nat, Entry<T>> := map[];
    var empty := WheelEntry(TICK_MAX, EMPTY);
    var s0 := State(1, 1, none, [empty, empty], 0, EMPTY);
    assert BitAnd(1, 1) == 1 && BitAnd(1, 2) == 0;
    var s1 := s0.(entries := none[0 := Entry(state, EntryLinks(1, EMPTY, EMPTY))], wheel := [empty, WheelEntry(1, 0)]);
    var s2 := s1.(tick := 1, next := 0);
    var s3 := s2.(entries := none, wheel := [empty, WheelEntry(1, EMPTY)], next := EMPTY);
    var s4 := s3.(tick := 2);
    assert s1.wheel == s0.wheel[1 := WheelEntry(1, 0)];
    assert IsInsertion(s0, 0, 1, state, s1);
    assert IsAdvance(s1, s2);
    assert s3.wheel == s2.wheel[1 := WheelEntry(1, EMPTY)];
    assert s3.entries.Keys == s2.entries.Keys - {0};
    assert IsRemoval(s2, 0, s3);
    assert s4.wheel == s3.wheel[0 := empty];
    assert IsAdvance(s3, s4);
  }

  /** The cache covers every live timeout only between drained polls. After a poll that returned one of
      two due timeouts, every cached tick is `TICK_MAX` though the other is due: a timer registered at
      this point asks for no wakeup. */
  lemma UncachedAfterPartialDrain<T>(state: T)
    ensures exists s0: State<T>, s1: State<T>, s2: State<T>, s3: State<T>, s4: State<T>, s5: State<T> ::
              && IsNew(s0)
              && IsInsertion(s0, 0, 1, state, s1)
              && IsInsertion(s1, 1, 1, state, s2)
              && IsAdvance(s2, s3)
              && IsReset(s3, s4)
              && IsRemoval(s4, 1, s5)
              && 0 in s5.entries && s5.entries[0].links.tick == s5.tick
              && forall i | 0 <= i < |s5.wheel| :: s5.wheel[i].nextTick == TICK_MAX
  {
    var none: map<nat, Entry<T>> := map[];
    var s0 := State(0, 2, none, [WheelEntry(TICK_MAX, EMPTY)], 0, EMPTY);
    var s1 := s0.(entries := map[0 := Entry(state, EntryLinks(1, EMPTY, EMPTY))], wheel := [WheelEntry(1, 0)]);
    var s2 := s0.(entries := map[0 := Entry(state, EntryLinks(1, 1, EMPTY)), 1 := Entry(state, EntryLinks(1, EMPTY,
        0))],
                  wheel := [WheelEntry(1, 1)]);
    var s3 := s2.(tick := 1, next := 1);
    var s4 := s3.(wheel := [WheelEntry(TICK_MAX, 1)]);
    var s5 := s4.(entries := s1.entries, wheel := [WheelEntry(TICK_MAX, 0)], next := 0);
    assert BitAnd(0, 1) == 0;
    assert s0.wheel[0 := WheelEntry(1, 0)] == s1.wheel && IsInsertion(s0, 0, 1, state, s1);
    assert s1.wheel[0 := WheelEntry(1, 1)] == s2.wheel && IsInsertion(s1, 1, 1, state, s2);
    assert IsAdvance(s2, s3) && s3.wheel[0 := WheelEntry(TICK_MAX, 1)] == s4.wheel && IsReset(s3, s4);
    assert s4.wheel[0 := WheelEntry(TICK_MAX, 0)] == s5.wheel && s5.entries.Keys == s4.entries.Keys - {1};
    assert IsRemoval(s4, 1, s5);
  }
}
