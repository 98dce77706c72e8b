/** The hashed timer wheel of src/timer.rs: a slab of entries threaded into one doubly linked list
    per slot, a cursor that can stop in the middle of a list, and a cached tick per slot. */
module TimerWheel {
  import opened Ticks
  import opened TimerQueue
  import opened SlotLists

  const TICK_MAX: u64 := U64_MAX

  datatype Option<+V> = None | Some(value: V)
  datatype Result<+V> = Ok(value: V) | Overflow

  datatype EntryLinks = EntryLinks(tick: u64, prev: nat, next: nat)
  datatype Entry<T> = Entry(state: T, links: EntryLinks)
  datatype WheelEntry = WheelEntry(nextTick: u64, head: nat)

  /** What a call asks of the wakeup protocol. */
  datatype Request = UnsetReadiness | Schedule(tick: u64)

  function Min(x: u64, y: u64): u64 {
    if x <= y then x else y
  }

  // ----- slots -----

  function Pow2(k: nat): (p: nat)
    ensures 0 < p
  {
    if k == 0 then 1 else 2 * Pow2(k - 1)
  }

  /** `usize::next_power_of_two`, counting up from `k`. */
  function NextPow2From(n: nat, k: nat): (bits: nat)
    requires k == 0 || Pow2(k - 1) < n
    ensures n <= Pow2(bits)
    ensures bits == 0 || Pow2(bits - 1) < n
    decreases n - Pow2(k)
  {
    if n <= Pow2(k) then k else NextPow2From(n, k + 1)
  }

  /** The `&` of two machine words. */
  function BitAnd(x: nat, y: nat): (r: nat)
    ensures r <= x && r <= y
  {
    if x == 0 || y == 0 then 0
    else 2 * BitAnd(x / 2, y / 2) + if x % 2 == 1 && y % 2 == 1 then 1 else 0
  }

  lemma MaskHalves(p: nat, y: nat)
    requires 0 < p && 0 < y
    ensures BitAnd(2 * p - 1, y) == 2 * BitAnd(p - 1, y / 2) + y % 2
  {
    assert (2 * p - 1) / 2 == p - 1 && (2 * p - 1) % 2 == 1;
  }

  lemma ModuloUnique(x: nat, d: nat, q: nat, r: nat)
    requires 0 < d && r < d && x == d * q + r
    ensures x % d == r
  {
    QuotientAtLeast(q, x, d);
    QuotientAtLeast(q + 1, x, d);
    assert x / d == q;
    assert x == d * (x / d) + x % d;
  }

  lemma {:induction false} MaskRemainder(k: nat, tick: nat) returns (q: nat)
    ensures tick == Pow2(k) * q + BitAnd(Pow2(k) - 1, tick)
  {
    if k == 0 {
      q := tick;
    } else if tick == 0 {
      q := 0;
    } else {
      q := MaskRemainder(k - 1, tick / 2);
      MaskHalves(Pow2(k - 1), tick);
      DoubleRemainder(Pow2(k - 1), q, BitAnd(Pow2(k - 1) - 1, tick / 2), tick);
    }
  }

  lemma DoubleRemainder(p: nat, q: nat, r: nat, x: nat)
    requires x / 2 == p * q + r
    ensures x == (2 * p) * q + (2 * r + x % 2)
  {
    assert (2 * p) * q == 2 * (p * q);
  }

  /** With a power of two of slots, masking a tick is taking it modulo the number of slots. */
  lemma MaskIsModulo(k: nat, tick: nat)
    ensures BitAnd(Pow2(k) - 1, tick) == tick % Pow2(k)
  {
    var q := MaskRemainder(k, tick);
    ModuloUnique(tick, Pow2(k), q, BitAnd(Pow2(k) - 1, tick));
  }

  // ----- the state of a timer and its invariant -----

  /** The fields of a timer that its calls change, and the sizes fixed when it was built. */
  datatype State<T> = State(mask: nat, capacity: nat,
                            entries: map<nat, Entry<T>>, wheel: seq<WheelEntry>, tick: u64, next: nat)

  function SlotFor(mask: nat, tick: nat): (s: nat)
    ensures s <= mask
  {
    BitAnd(mask, tick)
  }

  /** The links of all entries, seen as plain lists. */
  ghost function Links<T>(s: State<T>): (l: Lists)
    ensures l.slot.Keys == l.next.Keys == l.prev.Keys == s.entries.Keys
    ensures |l.head| == |s.wheel|
  {
    Lists(map t | t in s.entries :: SlotFor(s.mask, s.entries[t].links.tick),
          map t | t in s.entries :: s.entries[t].links.next,
          map t | t in s.entries :: s.entries[t].links.prev,
          seq(|s.wheel|, i requires 0 <= i < |s.wheel| => s.wheel[i].head))
  }

  ghost predicate Structure<T>(s: State<T>, ids: map<nat, nat>) {
    && s.capacity < EMPTY
    && |s.wheel| == s.mask + 1
    && ids.Keys == s.entries.Keys
    && (forall t <- s.entries :: t < s.capacity)
    && Linked(Links(s), ids)
  }

  /** `t` has not been passed by the cursor's walk through the current slot. */
  predicate Ahead<T>(s: State<T>, ids: map<nat, nat>, t: nat)
    requires ids.Keys == s.entries.Keys && t in s.entries
  {
    && s.next in s.entries
    && SlotFor(s.mask, s.entries[t].links.tick) == SlotFor(s.mask, s.tick)
    && ids[t] <= ids[s.next]
  }

  /** No live entry is overdue, and those due now are still ahead of the cursor. */
  predicate CursorOk<T>(s: State<T>, ids: map<nat, nat>)
    requires ids.Keys == s.entries.Keys
  {
    && (s.next != EMPTY ==> s.next in s.entries && Ahead(s, ids, s.next))
    && (forall t {:trigger s.entries[t]} | t in s.entries :: s.tick <= s.entries[t].links.tick)
    && (forall t {:trigger Ahead(s, ids, t)} | t in s.entries :: s.entries[t].links.tick == s.tick ==> Ahead(s, ids, t))
  }

  /** `t`'s slot caches a tick that is not later than `t`'s. */
  predicate Cached<T>(s: State<T>, t: nat)
    requires |s.wheel| == s.mask + 1 && t in s.entries
  {
    s.wheel[SlotFor(s.mask, s.entries[t].links.tick)].nextTick <= s.entries[t].links.tick
  }

  /** In the middle of a walk, only entries ahead of the cursor may be missing from the cache. */
  predicate CacheOk<T>(s: State<T>, ids: map<nat, nat>)
    requires |s.wheel| == s.mask + 1 && ids.Keys == s.entries.Keys
  {
    && (forall t {:trigger Cached(s, t)} | t in s.entries :: Cached(s, t) || Ahead(s, ids, t))
    && (forall i | 0 <= i < |s.wheel| :: 0 < s.wheel[i].nextTick)
  }

  /** The cache covers every live entry. */
  predicate CacheFull<T>(s: State<T>) {
    && |s.wheel| == s.mask + 1
    && forall t {:trigger Cached(s, t)} | t in s.entries :: Cached(s, t)
  }

  /** The wheel holds exactly the live timeouts of `q`. */
  ghost predicate Represents<T>(s: State<T>, ids: map<nat, nat>, q: Queue<T>) {
    && ids.Keys == s.entries.Keys
    && q.now == s.tick
    && (forall t {:trigger ids[t]} | t in s.entries ::
          ids[t] in q.live && q.live[ids[t]] == Item(Handle(t, s.entries[t].links.tick), s.entries[t].state))
    && (forall id {:trigger q.live[id]} | id in q.live ::
          id < q.nextId && q.live[id].handle.token in s.entries && ids[q.live[id].handle.token] == id)
  }

  ghost predicate Sound<T>(s: State<T>, ids: map<nat, nat>, q: Queue<T>) {
    && Structure(s, ids)
    && CursorOk(s, ids)
    && CacheOk(s, ids)
    && Represents(s, ids, q)
  }

  // ----- removing an entry -----

  /** `s'` is `s` after `unlink` and the slab's `remove`: the neighbours of `token`, or the head of
      its slot, point past it, and so does the cursor if it stood on `token`. */
  ghost predicate IsRemoval<T>(s: State<T>, token: nat, s': State<T>) {
    && token in s.entries && |s.wheel| == s.mask + 1
    && var links, slot := s.entries[token].links, SlotFor(s.mask, s.entries[token].links.tick);
    && s'.entries.Keys == s.entries.Keys - {token}
    && (forall t {:trigger s'.entries[t]} | t in s'.entries ::
          && s'.entries[t].state == s.entries[t].state
          && var was := s.entries[t].links;
          s'.entries[t].links == EntryLinks(was.tick,
                                            if links.next != EMPTY && t == links.next then links.prev else was.prev,
                                            if links.prev != EMPTY && t == links.prev then links.next else was.next))
    && s' == s.(entries := s'.entries,
                wheel := if links.prev != EMPTY then s.wheel else s.wheel[slot := s.wheel[slot].(head := links.next)],
                next := if s.next == token then links.next else s.next)
  }

  /** What the lists say about one entry: its neighbours exist, and `next` is the next older entry
      of its slot. */
  predicate Neighbours<T>(s: State<T>, ids: map<nat, nat>, t: nat) {
    && ids.Keys == s.entries.Keys && t in s.entries
    && var links := s.entries[t].links;
    && (links.prev != EMPTY ==> links.prev in s.entries && links.prev != t && links.prev != links.next)
    && (links.next != EMPTY ==>
          && links.next in s.entries && ids[links.next] < ids[t]
          && SlotFor(s.mask, s.entries[links.next].links.tick) == SlotFor(s.mask, links.tick))
    && forall u {:trigger ids[u]} | u in s.entries ::
         SlotFor(s.mask, s.entries[u].links.tick) == SlotFor(s.mask, links.tick) && ids[u] < ids[t]
         ==> links.next != EMPTY && ids[u] <= ids[links.next]
  }

  lemma NeighboursOf<T>(s: State<T>, ids: map<nat, nat>, t: nat)
    requires Structure(s, ids) && t in s.entries
    ensures Neighbours(s, ids, t)
  {
    var l := Links(s);
    assert NextOk(l, ids, t) && PrevOk(l, ids, t);
    if l.prev[t] != EMPTY {
      assert NextOk(l, ids, l.prev[t]);
    }
    forall u | u in s.entries && SlotFor(s.mask, s.entries[u].links.tick) == SlotFor(s.mask, s.entries[t].links.tick)
      ensures l.slot[u] == l.slot[t]
    {
    }
  }

  lemma RemovalUnlinks<T>(s: State<T>, ids: map<nat, nat>, token: nat, s': State<T>)
    requires Neighbours(s, ids, token) && IsRemoval(s, token, s')
    ensures IsUnlink(Links(s), token, Links(s'))
  {
  }

  lemma RemovalKeepsStructure<T>(s: State<T>, ids: map<nat, nat>, token: nat, s': State<T>)
    requires Structure(s, ids) && IsRemoval(s, token, s')
    ensures Structure(s', ids - {token})
  {
    NeighboursOf(s, ids, token);
    RemovalUnlinks(s, ids, token, s');
    UnlinkKeepsLinked(Links(s), ids, token, Links(s'));
    RenumberKeepsLinked(Links(s'), ids, ids - {token});
  }

  /** Whatever was ahead of the cursor stays ahead when an entry is removed. */
  lemma RemovalKeepsAhead<T>(s: State<T>, ids: map<nat, nat>, token: nat, s': State<T>, t: nat)
    requires Neighbours(s, ids, token) && EMPTY !in s.entries && IsRemoval(s, token, s')
    requires forall u {:trigger ids[u]} | u in s.entries :: ids[u] == ids[token] ==> u == token
    requires s.next != EMPTY ==> s.next in s.entries && Ahead(s, ids, s.next)
    requires t in s.entries && t != token && Ahead(s, ids, t)
    ensures Ahead(s', ids - {token}, t)
  {
  }

  lemma RemovalKeepsCursor<T>(s: State<T>, ids: map<nat, nat>, token: nat, s': State<T>)
    requires Neighbours(s, ids, token) && EMPTY !in s.entries && IsRemoval(s, token, s')
    requires forall u {:trigger ids[u]} | u in s.entries :: ids[u] == ids[token] ==> u == token
    requires CursorOk(s, ids)
    ensures CursorOk(s', ids - {token})
  {
    forall t | t in s'.entries
      ensures s'.entries[t].links.tick == s'.tick ==> Ahead(s', ids - {token}, t)
    {
      if s.entries[t].links.tick == s.tick {
        assert Ahead(s, ids, t);
        RemovalKeepsAhead(s, ids, token, s', t);
      }
    }
  }

  lemma RemovalKeepsCache<T>(s: State<T>, ids: map<nat, nat>, token: nat, s': State<T>)
    requires Neighbours(s, ids, token) && EMPTY !in s.entries && IsRemoval(s, token, s')
    requires forall u {:trigger ids[u]} | u in s.entries :: ids[u] == ids[token] ==> u == token
    requires s.next != EMPTY ==> s.next in s.entries && Ahead(s, ids, s.next)
    requires CacheOk(s, ids)
    ensures CacheOk(s', ids - {token})
    ensures CacheFull(s) ==> CacheFull(s')
  {
    forall t | t in s'.entries
      ensures Cached(s', t) || Ahead(s', ids - {token}, t)
      ensures Cached(s, t) ==> Cached(s', t)
    {
      assert Cached(s, t) || Ahead(s, ids, t);
      if Ahead(s, ids, t) {
        RemovalKeepsAhead(s, ids, token, s', t);
      }
    }
  }

  lemma RemovalRepresents<T>(s: State<T>, ids: map<nat, nat>, q: Queue<T>, token: nat, s': State<T>)
    requires Represents(s, ids, q) && IsRemoval(s, token, s')
    ensures Represents(s', ids - {token}, q.(live := q.live - {ids[token]}))
  {
    var id := ids[token];
    forall t | t in s'.entries
      ensures ids[t] != id
    {
      assert q.live[ids[t]].handle.token == t && q.live[id].handle.token == token;
    }
  }

  lemma RemovalKeepsSound<T>(s: State<T>, ids: map<nat, nat>, q: Queue<T>, token: nat, s': State<T>)
    requires Sound(s, ids, q) && IsRemoval(s, token, s')
    ensures Sound(s', ids - {token}, q.(live := q.live - {ids[token]}))
    ensures CacheFull(s) ==> CacheFull(s')
  {
    NeighboursOf(s, ids, token);
    RemovalKeepsStructure(s, ids, token, s');
    RemovalKeepsCursor(s, ids, token, s');
    RemovalKeepsCache(s, ids, token, s');
    RemovalRepresents(s, ids, q, token, s');
  }

  // ----- adding an entry -----

  /** `s'` is `s` after `insert`: `token` heads its slot's list and the slot's cached tick covers it. */
  ghost predicate IsInsertion<T>(s: State<T>, token: nat, tick: u64, state: T, s': State<T>) {
    && |s.wheel| == s.mask + 1
    && var slot := SlotFor(s.mask, tick);
    && var head := s.wheel[slot].head;
    && s'.entries.Keys == s.entries.Keys + {token}
    && (forall t {:trigger s'.entries[t]} | t in s'.entries ::
          if t == token then
            s'.entries[t] == Entry(state, EntryLinks(tick, EMPTY, head))
          else
            && s'.entries[t].state == s.entries[t].state
            && s'.entries[t].links == s.entries[t].links.(prev := if t == head then token else s.entries[t].links.prev))
    && s' == s.(entries := s'.entries,
                wheel := s.wheel[slot := WheelEntry(Min(tick, s.wheel[slot].nextTick), token)])
  }

  lemma InsertionPushes<T>(s: State<T>, token: nat, tick: u64, state: T, s': State<T>)
    requires IsInsertion(s, token, tick, state, s') && token !in s.entries
    ensures IsPush(Links(s), token, SlotFor(s.mask, tick), Links(s'))
  {
    hide BitAnd;
  }

  lemma InsertionKeepsStructure<T>(s: State<T>, ids: map<nat, nat>, token: nat, tick: u64, state: T, s': State<T>,
            id: nat)
    requires Structure(s, ids) && IsInsertion(s, token, tick, state, s')
    requires token !in s.entries && token < s.capacity && forall t <- s.entries :: ids[t] < id
    ensures Structure(s', ids[token := id])
  {
    hide Linked, IsPush, BitAnd;
    InsertionPushes(s, token, tick, state, s');
    InsertionLinks(Links(s), ids, token, SlotFor(s.mask, tick), Links(s'), id);
  }

  lemma InsertionLinks(l: Lists, ids: map<nat, nat>, token: nat, slot: nat, l': Lists, id: nat)
    requires Linked(l, ids) && slot < |l.head| && IsPush(l, token, slot, l')
    requires token !in l.slot && token != EMPTY && forall t <- l.slot :: ids[t] < id
    ensures Linked(l', ids[token := id])
  {
    RenumberKeepsLinked(l, ids, ids[token := id]);
    PushKeepsLinked(l, ids[token := id], token, slot, l');
  }

  lemma InsertionKeepsCursor<T>(s: State<T>, ids: map<nat, nat>, token: nat, tick: u64, state: T, s': State<T>, id: nat)
    requires ids.Keys == s.entries.Keys && IsInsertion(s, token, tick, state, s')
    requires token !in s.entries && s.tick < tick && CursorOk(s, ids)
    ensures CursorOk(s', ids[token := id])
  {
    forall t | t in s'.entries
      ensures s'.entries[t].links.tick == s'.tick ==> Ahead(s', ids[token := id], t)
    {
      if t != token && s.entries[t].links.tick == s.tick {
        assert Ahead(s, ids, t);
      }
    }
  }

  lemma InsertionKeepsCache<T>(s: State<T>, ids: map<nat, nat>, token: nat, tick: u64, state: T, s': State<T>, id: nat)
    requires ids.Keys == s.entries.Keys && IsInsertion(s, token, tick, state, s')
    requires token !in s.entries && s.tick < tick && CacheOk(s, ids)
    ensures CacheOk(s', ids[token := id])
    ensures CacheFull(s) ==> CacheFull(s')
  {
    forall t | t in s'.entries
      ensures Cached(s', t) || Ahead(s', ids[token := id], t)
      ensures t != token && Cached(s, t) ==> Cached(s', t)
      ensures Cached(s', token)
    {
      if t != token {
        assert Cached(s, t) || Ahead(s, ids, t);
      }
    }
  }

  lemma InsertionKeepsSound<T>(s: State<T>, ids: map<nat, nat>, q: Queue<T>, token: nat, tick: u64, state: T,
            s': State<T>)
    requires Sound(s, ids, q) && IsInsertion(s, token, tick, state, s')
    requires token !in s.entries && token < s.capacity && s.tick < tick
    ensures Sound(s', ids[token := q.nextId],
                  q.(live := q.live[q.nextId := Item(Handle(token, tick), state)], nextId := q.nextId + 1))
    ensures CacheFull(s) ==> CacheFull(s')
  {
    var id := q.nextId;
    assert forall t <- s.entries :: ids[t] in q.live && ids[t] < id;
    InsertionKeepsStructure(s, ids, token, tick, state, s', id);
    InsertionKeepsCursor(s, ids, token, tick, state, s', id);
    InsertionKeepsCache(s, ids, token, tick, state, s', id);
    InsertionRepresents(s, ids, q, token, tick, state, s');
  }

  lemma InsertionRepresents<T>(s: State<T>, ids: map<nat, nat>, q: Queue<T>, token: nat, tick: u64, state: T,
            s': State<T>)
    requires Represents(s, ids, q) && IsInsertion(s, token, tick, state, s') && token !in s.entries
    ensures Represents(s', ids[token := q.nextId],
                       q.(live := q.live[q.nextId := Item(Handle(token, tick), state)], nextId := q.nextId + 1))
  {
  }

  // ----- walking -----

  /** A change of cached ticks only. */
  predicate SameHeads(a: seq<WheelEntry>, b: seq<WheelEntry>) {
    |a| == |b| && forall i {:trigger b[i]} | 0 <= i < |a| :: b[i].head == a[i].head
  }

  lemma WalkKeepsStructure<T>(s: State<T>, ids: map<nat, nat>, s': State<T>)
    requires Structure(s, ids) && SameHeads(s.wheel, s'.wheel)
    requires s' == s.(tick := s'.tick, next := s'.next, wheel := s'.wheel)
    ensures Structure(s', ids)
  {
    assert Links(s').head == Links(s).head;
    assert Links(s') == Links(s);
  }

  /** The head of a slot is its newest entry. */
  predicate NewestOf<T>(s: State<T>, ids: map<nat, nat>, slot: nat)
    requires ids.Keys == s.entries.Keys && slot < |s.wheel|
  {
    var h := s.wheel[slot].head;
    && (h != EMPTY ==> h in s.entries && SlotFor(s.mask, s.entries[h].links.tick) == slot)
    && forall t {:trigger ids[t]} | t in s.entries ::
         SlotFor(s.mask, s.entries[t].links.tick) == slot ==> h != EMPTY && ids[t] <= ids[h]
  }

  lemma HeadIsNewest<T>(s: State<T>, ids: map<nat, nat>, slot: nat)
    requires Structure(s, ids) && slot < |s.wheel|
    ensures NewestOf(s, ids, slot)
  {
    var l := Links(s);
    assert HeadOk(l, ids, slot);
    forall t | t in s.entries && SlotFor(s.mask, s.entries[t].links.tick) == slot
      ensures l.slot[t] == slot
    {
    }
  }

  lemma NoneOverdue<T>(s: State<T>, ids: map<nat, nat>, q: Queue<T>)
    requires Represents(s, ids, q) && CursorOk(s, ids)
    ensures forall id <- q.live :: s.tick <= q.live[id].handle.tick
  {
    forall id | id in q.live
      ensures s.tick <= q.live[id].handle.tick
    {
      var t := q.live[id].handle.token;
      assert ids[t] == id;
      assert s.tick <= s.entries[t].links.tick;
    }
  }

  /** The walk of a slot is over: go to the next tick and stand on the head of its slot. */
  ghost predicate IsAdvance<T>(s: State<T>, s': State<T>) {
    && |s.wheel| == s.mask + 1 && s.next == EMPTY && s.tick < TICK_MAX
    && var slot := SlotFor(s.mask, s.tick + 1);
    && var head := s.wheel[slot].head;
    s' == s.(tick := s.tick + 1,
             next := head,
             wheel := if head == EMPTY then s.wheel[slot := s.wheel[slot].(nextTick := TICK_MAX)] else s.wheel)
  }

  lemma AdvanceCursor<T>(s: State<T>, ids: map<nat, nat>, s': State<T>)
    requires ids.Keys == s.entries.Keys && IsAdvance(s, s') && EMPTY !in s.entries
    requires NewestOf(s, ids, SlotFor(s.mask, s.tick + 1)) && CursorOk(s, ids)
    ensures CursorOk(s', ids)
  {
    forall t | t in s.entries
      ensures s.tick < s.entries[t].links.tick
      ensures s.entries[t].links.tick == s.tick + 1 ==> Ahead(s', ids, t)
    {
      assert s.entries[t].links.tick == s.tick ==> Ahead(s, ids, t);
      assert ids[t] == ids[t];
    }
  }

  lemma AdvanceCache<T>(s: State<T>, ids: map<nat, nat>, s': State<T>)
    requires ids.Keys == s.entries.Keys && IsAdvance(s, s') && EMPTY !in s.entries
    requires NewestOf(s, ids, SlotFor(s.mask, s.tick + 1)) && CacheOk(s, ids)
    ensures CacheOk(s', ids) && CacheFull(s')
  {
    forall t | t in s.entries
      ensures Cached(s', t)
    {
      assert Cached(s, t) || Ahead(s, ids, t);
      assert ids[t] == ids[t];
    }
  }

  lemma AdvanceKeepsSound<T>(s: State<T>, ids: map<nat, nat>, q: Queue<T>, s': State<T>)
    requires Sound(s, ids, q) && IsAdvance(s, s')
    ensures Sound(s', ids, q.(now := s'.tick)) && CacheFull(s')
    ensures forall id <- q.live :: s.tick < q.live[id].handle.tick
  {
    WalkKeepsStructure(s, ids, s');
    HeadIsNewest(s, ids, SlotFor(s.mask, s.tick + 1));
    AdvanceCursor(s, ids, s');
    AdvanceCache(s, ids, s');
    NoneOverdue(s', ids, q.(now := s'.tick));
  }

  /** A walk that stands on the head of its slot starts the slot's cache afresh. */
  ghost predicate IsReset<T>(s: State<T>, s': State<T>) {
    && |s.wheel| == s.mask + 1 && s.next in s.entries
    && var slot := SlotFor(s.mask, s.tick);
    s' == if s.next == s.wheel[slot].head then s.(wheel := s.wheel[slot := s.wheel[slot].(nextTick := TICK_MAX)]) else s
  }

  lemma ResetCache<T>(s: State<T>, ids: map<nat, nat>, s': State<T>)
    requires ids.Keys == s.entries.Keys && IsReset(s, s') && EMPTY !in s.entries
    requires NewestOf(s, ids, SlotFor(s.mask, s.tick)) && CacheOk(s, ids)
    ensures CacheOk(s', ids)
  {
    forall t | t in s.entries
      ensures Cached(s', t) || Ahead(s', ids, t)
    {
      assert Cached(s, t) || Ahead(s, ids, t);
      assert ids[t] == ids[t];
    }
  }

  lemma ResetCursor<T>(s: State<T>, ids: map<nat, nat>, s': State<T>)
    requires ids.Keys == s.entries.Keys && IsReset(s, s') && CursorOk(s, ids)
    ensures CursorOk(s', ids)
  {
    forall t | t in s.entries && s.entries[t].links.tick == s.tick
      ensures Ahead(s', ids, t)
    {
      assert Ahead(s, ids, t);
    }
  }

  lemma ResetKeepsSound<T>(s: State<T>, ids: map<nat, nat>, q: Queue<T>, s': State<T>)
    requires Sound(s, ids, q) && IsReset(s, s')
    ensures Sound(s', ids, q)
  {
    WalkKeepsStructure(s, ids, s');
    HeadIsNewest(s, ids, SlotFor(s.mask, s.tick));
    ResetCache(s, ids, s');
    ResetCursor(s, ids, s');
  }

  /** The entry under the cursor is not due yet: note its tick in the cache and go on. */
  ghost predicate IsSkip<T>(s: State<T>, s': State<T>) {
    && |s.wheel| == s.mask + 1 && s.next in s.entries
    && var links, slot := s.entries[s.next].links, SlotFor(s.mask, s.tick);
    && s.tick < links.tick
    && s' == s.(next := links.next,
                wheel := s.wheel[slot := s.wheel[slot].(nextTick := Min(s.wheel[slot].nextTick, links.tick))])
  }

  lemma SkipAhead<T>(s: State<T>, ids: map<nat, nat>, s': State<T>, t: nat)
    requires IsSkip(s, s') && Neighbours(s, ids, s.next) && Ahead(s, ids, s.next)
    requires forall u {:trigger ids[u]} | u in s.entries :: ids[u] == ids[s.next] ==> u == s.next
    requires t in s.entries && t != s.next && Ahead(s, ids, t)
    ensures Ahead(s', ids, t)
  {
  }

  lemma SkipCursor<T>(s: State<T>, ids: map<nat, nat>, s': State<T>)
    requires IsSkip(s, s') && Neighbours(s, ids, s.next) && CursorOk(s, ids) && EMPTY !in s.entries
    requires forall u {:trigger ids[u]} | u in s.entries :: ids[u] == ids[s.next] ==> u == s.next
    ensures CursorOk(s', ids)
  {
    forall t | t in s.entries && s.entries[t].links.tick == s.tick
      ensures Ahead(s', ids, t)
    {
      assert Ahead(s, ids, t);
      SkipAhead(s, ids, s', t);
    }
  }

  lemma SkipCache<T>(s: State<T>, ids: map<nat, nat>, s': State<T>)
    requires IsSkip(s, s') && Neighbours(s, ids, s.next) && Ahead(s, ids, s.next) && CacheOk(s, ids)
    requires forall u {:trigger ids[u]} | u in s.entries :: ids[u] == ids[s.next] ==> u == s.next
    ensures CacheOk(s', ids)
  {
    forall t | t in s.entries
      ensures Cached(s', t) || Ahead(s', ids, t)
    {
      assert Cached(s, t) || Ahead(s, ids, t);
      if t != s.next && Ahead(s, ids, t) {
        SkipAhead(s, ids, s', t);
      }
    }
  }

  lemma SkipKeepsSound<T>(s: State<T>, ids: map<nat, nat>, q: Queue<T>, s': State<T>)
    requires Sound(s, ids, q) && IsSkip(s, s')
    ensures Sound(s', ids, q)
    ensures s'.next != EMPTY ==> s'.next in s.entries && ids[s'.next] < ids[s.next]
  {
    NeighboursOf(s, ids, s.next);
    WalkKeepsStructure(s, ids, s');
    SkipCursor(s, ids, s');
    SkipCache(s, ids, s');
  }

  /** An entry found due under the cursor is the next timeout of the queue. */
  lemma DueIsNext<T>(s: State<T>, ids: map<nat, nat>, q: Queue<T>)
    requires Represents(s, ids, q) && CursorOk(s, ids)
    requires s.next in s.entries && s.entries[s.next].links.tick <= s.tick
    ensures IsNext(q, ids[s.next]) && q.live[ids[s.next]].handle.tick == s.tick
  {
    forall j | j in q.live
      ensures s.tick < q.live[j].handle.tick || (s.tick == q.live[j].handle.tick && j <= ids[s.next])
    {
      var t := q.live[j].handle.token;
      assert ids[t] == j;
      assert s.entries[t].links.tick == s.tick ==> Ahead(s, ids, t);
    }
  }

  // ----- a new timer -----

  ghost predicate IsNew<T>(s: State<T>) {
    && s.capacity < EMPTY
    && s.entries == map[]
    && |s.wheel| == s.mask + 1
    && (forall i | 0 <= i < |s.wheel| :: s.wheel[i] == WheelEntry(TICK_MAX, EMPTY))
    && s.tick == 0 && s.next == EMPTY
  }

  lemma EmptyIsSound<T>(s: State<T>)
    requires IsNew(s)
    ensures Sound(s, map[], Empty()) && CacheFull(s)
  {
  }

  lemma {:induction false} Pow2Monotone(i: nat, j: nat)
    requires i <= j
    ensures Pow2(i) <= Pow2(j)
    decreases j - i
  {
    if i < j {
      Pow2Monotone(i, j - 1);
    }
  }

  /** Rounding a capacity of at most 2^63 up leaves every token below the empty token. */
  lemma CapacityFits(bits: nat, capacity: nat)
    requires capacity <= Pow2(63) && (bits == 0 || Pow2(bits - 1) < capacity)
    ensures Pow2(bits) < EMPTY
  {
    if 64 <= bits {
      Pow2Monotone(63, bits - 1);
    } else {
      Pow2Monotone(bits, 63);
      Pow2Of63();
    }
  }

  lemma {:induction false} Pow2Add(i: nat, j: nat)
    ensures Pow2(i + j) == Pow2(i) * Pow2(j)
  {
    if i > 0 {
      Pow2Add(i - 1, j);
      assert Pow2(i + j) == 2 * Pow2(i - 1 + j);
    }
  }

  lemma Pow2Of63()
    ensures Pow2(63) == 0x8000_0000_0000_0000
  {
    assert Pow2(7) == 128 by {
      assert Pow2(1) == 2 && Pow2(2) == 4 && Pow2(3) == 8 && Pow2(4) == 16;
      Pow2Add(4, 3);
    }
    assert Pow2(14) == 0x4000 by {
      Pow2Add(7, 7);
    }
    assert Pow2(21) == 0x20_0000 by {
      Pow2Add(14, 7);
    }
    assert Pow2(42) == 0x400_0000_0000 by {
      Pow2Add(21, 21);
    }
    Pow2Add(42, 21);
  }

  // ----- what the methods need to know -----

  lemma WalkFacts<T>(s: State<T>, ids: map<nat, nat>, q: Queue<T>)
    requires Sound(s, ids, q)
    ensures |s.wheel| == s.mask + 1 && ids.Keys == s.entries.Keys && q.now == s.tick
    ensures s.next != EMPTY ==> s.next in s.entries && Ahead(s, ids, s.next)
    ensures EMPTY !in s.entries
  {
  }

  lemma DueFacts<T>(s: State<T>, ids: map<nat, nat>, q: Queue<T>)
    requires Sound(s, ids, q) && s.next in s.entries && s.entries[s.next].links.tick <= s.tick
    ensures s.next in ids && IsNext(q, ids[s.next]) && q.live[ids[s.next]].handle.tick == s.tick
    ensures s.entries[s.next].links.tick == s.tick
  {
    DueIsNext(s, ids, q);
  }

  lemma InsertFacts<T>(s: State<T>, ids: map<nat, nat>, q: Queue<T>, slot: nat)
    requires Sound(s, ids, q) && slot <= s.mask
    ensures |s.wheel| == s.mask + 1 && q.now == s.tick
    ensures s.capacity < EMPTY && forall t <- s.entries :: t < s.capacity
    ensures s.wheel[slot].head != EMPTY ==> s.wheel[slot].head in s.entries
    ensures forall token | token !in s.entries :: TokenFree(q, token)
  {
    HeadIsNewest(s, ids, slot);
  }

  lemma RemoveFacts<T>(s: State<T>, ids: map<nat, nat>, q: Queue<T>, token: nat)
    requires Sound(s, ids, q) && token in s.entries
    ensures |s.wheel| == s.mask + 1 && Neighbours(s, ids, token)
    ensures ids[token] in q.live
    ensures q.live[ids[token]] == Item(Handle(token, s.entries[token].links.tick), s.entries[token].state)
  {
    NeighboursOf(s, ids, token);
  }

  lemma CancelFacts<T>(s: State<T>, ids: map<nat, nat>, q: Queue<T>, token: nat)
    requires Sound(s, ids, q) && token in s.entries
    ensures |s.wheel| == s.mask + 1 && EMPTY !in s.entries
    ensures Neighbours(s, ids, token) && NewestOf(s, ids, SlotFor(s.mask, s.tick))
    ensures s.next != EMPTY ==> s.next in s.entries && Ahead(s, ids, s.next)
    ensures s.entries[token].links.prev == EMPTY
            <==> s.wheel[SlotFor(s.mask, s.entries[token].links.tick)].head == token
  {
    NeighboursOf(s, ids, token);
    HeadIsNewest(s, ids, SlotFor(s.mask, s.tick));
    PrevEmptyAtHead(Links(s), ids, token);
  }

  lemma PrevEmptyAtHead(l: Lists, ids: map<nat, nat>, t: nat)
    requires Linked(l, ids) && t in l.slot
    ensures l.prev[t] == EMPTY <==> l.head[l.slot[t]] == t
  {
    assert PrevOk(l, ids, t) && HeadOk(l, ids, l.slot[t]);
    if l.prev[t] != EMPTY {
      assert NextOk(l, ids, l.prev[t]);
    }
  }
}
