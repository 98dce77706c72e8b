/** When the cached ticks of a wheel are ticks of live entries, so that `next_tick` is the tick of the
    earliest timeout and not merely a bound. */
module TimerTight {
  import opened Ticks
  import opened TimerQueue
  import opened SlotLists
  import opened TimerWheel
  import opened TimerFreshness

  /** Some entry of slot `i` is due at `tick`. */
  ghost predicate Live<T>(s: State<T>, i: nat, tick: u64) {
    exists t :: t in s.entries && s.entries[t].links.tick == tick && SlotFor(s.mask, tick) == i
  }

  /** Every slot caches nothing or the tick of one of its entries. */
  ghost predicate Tight<T>(s: State<T>) {
    && |s.wheel| == s.mask + 1
    && forall i {:trigger s.wheel[i]} | 0 <= i < |s.wheel| ::
         s.wheel[i].nextTick == TICK_MAX || Live(s, i, s.wheel[i].nextTick)
  }

  lemma NewIsTight<T>(s: State<T>)
    requires IsNew(s)
    ensures Tight(s)
  {
  }

  /** Entries keep their ticks, whatever their links. */
  lemma StaysLive<T>(s: State<T>, s': State<T>, i: nat, tick: u64)
    requires s'.mask == s.mask && Live(s, i, tick)
    requires forall t {:trigger s.entries[t]} | t in s.entries && s.entries[t].links.tick == tick ::
               t in s'.entries && s'.entries[t].links.tick == tick
    ensures Live(s', i, tick)
  {
    var t :| t in s.entries && s.entries[t].links.tick == tick && SlotFor(s.mask, tick) == i;
    assert s'.entries[t].links.tick == tick;
  }

  lemma InsertionTight<T>(s: State<T>, token: nat, tick: u64, state: T, s': State<T>)
    requires Tight(s) && IsInsertion(s, token, tick, state, s') && token !in s.entries
    ensures Tight(s')
  {
    hide BitAnd;
    assert s'.entries[token].links.tick == tick;
    forall i | 0 <= i < |s'.wheel|
      ensures s'.wheel[i].nextTick == TICK_MAX || Live(s', i, s'.wheel[i].nextTick)
    {
      if s'.wheel[i].nextTick == s.wheel[i].nextTick != TICK_MAX {
        StaysLive(s, s', i, s.wheel[i].nextTick);
      }
    }
  }

  /** The steps of a walk that leave the entries alone. */
  lemma WalkTight<T>(s: State<T>, s': State<T>)
    requires Tight(s) && (IsAdvance(s, s') || IsReset(s, s'))
    ensures Tight(s')
  {
    hide BitAnd;
    forall i | 0 <= i < |s'.wheel|
      ensures s'.wheel[i].nextTick == TICK_MAX || Live(s', i, s'.wheel[i].nextTick)
    {
      if s'.wheel[i].nextTick == s.wheel[i].nextTick != TICK_MAX {
        StaysLive(s, s', i, s.wheel[i].nextTick);
      }
    }
  }

  lemma SkipTight<T>(s: State<T>, ids: map<nat, nat>, s': State<T>)
    requires ids.Keys == s.entries.Keys && s.next in s.entries
    requires Tight(s) && IsSkip(s, s') && Ahead(s, ids, s.next)
    ensures Tight(s')
  {
    hide BitAnd;
    assert s'.entries[s.next].links == s.entries[s.next].links;
    forall i | 0 <= i < |s'.wheel|
      ensures s'.wheel[i].nextTick == TICK_MAX || Live(s', i, s'.wheel[i].nextTick)
    {
      if s'.wheel[i].nextTick == s.wheel[i].nextTick != TICK_MAX {
        StaysLive(s, s', i, s.wheel[i].nextTick);
      }
    }
  }

  /** `token` is the only entry due at the tick its slot caches. */
  ghost predicate OnlyCached<T>(s: State<T>, token: nat) {
    && token in s.entries && |s.wheel| == s.mask + 1
    && var tick := s.entries[token].links.tick;
    && tick < TICK_MAX && s.wheel[SlotFor(s.mask, tick)].nextTick == tick
    && forall t | t in s.entries && t != token :: s.entries[t].links.tick != tick
  }

  /** Taking an entry out keeps a wheel tight exactly unless a slot goes on caching its tick alone. */
  lemma RemovalTight<T>(s: State<T>, token: nat, s': State<T>)
    requires Tight(s) && IsRemoval(s, token, s')
    ensures Tight(s') <==> !OnlyCached(s, token)
  {
    hide BitAnd;
    var tick := s.entries[token].links.tick;
    var slot := SlotFor(s.mask, tick);
    forall i | 0 <= i < |s'.wheel|
      ensures s'.wheel[i].nextTick == s.wheel[i].nextTick
      ensures i != slot && s.wheel[i].nextTick != TICK_MAX ==> Live(s', i, s'.wheel[i].nextTick)
    {
      if i != slot && s.wheel[i].nextTick != TICK_MAX {
        var t :| t in s.entries && s.entries[t].links.tick == s.wheel[i].nextTick
                 && SlotFor(s.mask, s.wheel[i].nextTick) == i;
        assert t != token && s'.entries[t].links.tick == s.wheel[i].nextTick;
      }
    }
    if s.wheel[slot].nextTick != TICK_MAX && !OnlyCached(s, token) {
      var cached := s.wheel[slot].nextTick;
      var t :| t in s.entries && s.entries[t].links.tick == cached && SlotFor(s.mask, cached) == slot;
      if t == token {
        var u :| u in s.entries && u != token && s.entries[u].links.tick == tick;
        assert s'.entries[u].links.tick == cached;
      } else {
        assert s'.entries[t].links.tick == cached;
      }
    }
    if OnlyCached(s, token) {
      assert s'.wheel[slot].nextTick == tick;
    }
  }

  /** Firing from a slot whose walk has begun: the slot no longer caches the current tick. */
  lemma FireTight<T>(s: State<T>, token: nat, s': State<T>)
    requires Tight(s) && !DueNow(s) && IsRemoval(s, token, s') && s.entries[token].links.tick == s.tick < TICK_MAX
    ensures Tight(s')
  {
    RemovalTight(s, token, s');
  }

  /** The tick of the earliest live timeout; none is later than every tick. */
  ghost predicate IsEarliest<T>(q: Queue<T>, tick: u64) {
    && (forall id <- q.live :: tick <= q.live[id].handle.tick)
    && (tick == TICK_MAX || exists id :: id in q.live && q.live[id].handle.tick == tick)
  }

  lemma LiveIsLive<T>(s: State<T>, ids: map<nat, nat>, q: Queue<T>, i: nat, tick: u64)
    requires Represents(s, ids, q) && Live(s, i, tick)
    ensures exists id :: id in q.live && q.live[id].handle.tick == tick
  {
    var t :| t in s.entries && s.entries[t].links.tick == tick && SlotFor(s.mask, tick) == i;
    assert q.live[ids[t]].handle.tick == tick;
  }
}
