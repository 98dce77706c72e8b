/** Doubly linked lists, one per slot, over integer tokens: the pure part of the timer wheel's links.
    Serial numbers (`ids`) order each list: newer entries come first. */
module SlotLists {

  const EMPTY: nat := 0xFFFF_FFFF_FFFF_FFFF

  /** `slot`, `next` and `prev` have the same keys: the members of all lists. */
  datatype Lists = Lists(slot: map<nat, nat>, next: map<nat, nat>, prev: map<nat, nat>, head: seq<nat>)

  /** The `next` link of `t` is the next older member of its slot. */
  predicate NextOk(l: Lists, ids: map<nat, nat>, t: nat)
    requires l.slot.Keys == l.next.Keys && l.slot.Keys <= ids.Keys && t in l.slot
  {
    var n := l.next[t];
    if n == EMPTY then
      forall u <- l.slot :: l.slot[u] == l.slot[t] ==> ids[t] <= ids[u]
    else
      && n in l.slot && l.slot[n] == l.slot[t] && ids[n] < ids[t]
      && forall u <- l.slot :: l.slot[u] == l.slot[t] ==> ids[u] <= ids[n] || ids[t] <= ids[u]
  }

  /** The `prev` link of `t` mirrors `next`; it is empty at the newest member only. */
  predicate PrevOk(l: Lists, ids: map<nat, nat>, t: nat)
    requires l.slot.Keys == l.next.Keys == l.prev.Keys && l.slot.Keys <= ids.Keys && t in l.slot
  {
    var p := l.prev[t];
    if p == EMPTY then
      forall u <- l.slot :: l.slot[u] == l.slot[t] ==> ids[u] <= ids[t]
    else
      p in l.slot && l.slot[p] == l.slot[t] && l.next[p] == t
  }

  /** The head of slot `s` is its newest member. */
  predicate HeadOk(l: Lists, ids: map<nat, nat>, s: nat)
    requires l.slot.Keys <= ids.Keys && s < |l.head|
  {
    var h := l.head[s];
    if h == EMPTY then
      forall u <- l.slot :: l.slot[u] != s
    else
      h in l.slot && l.slot[h] == s && forall u <- l.slot :: l.slot[u] == s ==> ids[u] <= ids[h]
  }

  /** Every slot's list threads exactly the members of the slot, newest first. */
  predicate Linked(l: Lists, ids: map<nat, nat>) {
    && l.slot.Keys == l.next.Keys == l.prev.Keys && l.slot.Keys <= ids.Keys
    && EMPTY !in l.slot
    && (forall t, u {:trigger ids[t], ids[u]} | t in l.slot && u in l.slot :: ids[t] == ids[u] ==> t == u)
    && (forall t {:trigger l.slot[t]} | t in l.slot :: l.slot[t] < |l.head|)
    && (forall t {:trigger NextOk(l, ids, t)} | t in l.slot :: NextOk(l, ids, t))
    && (forall t {:trigger PrevOk(l, ids, t)} | t in l.slot :: PrevOk(l, ids, t))
    && (forall s {:trigger HeadOk(l, ids, s)} | 0 <= s < |l.head| :: HeadOk(l, ids, s))
  }

  // ----- taking a member out -----

  /** `l'` is `l` without `token`: its neighbours' links, or the head, now point past it. */
  predicate IsUnlink(l: Lists, token: nat, l': Lists)
    requires l.slot.Keys == l.next.Keys == l.prev.Keys && token in l.slot && l.slot[token] < |l.head|
  {
    var p, n := l.prev[token], l.next[token];
    && l'.slot.Keys == l'.next.Keys == l'.prev.Keys == l.slot.Keys - {token}
    && (forall t {:trigger l'.slot[t]} | t in l'.slot :: l'.slot[t] == l.slot[t])
    && (forall t {:trigger l'.next[t]} | t in l'.slot :: l'.next[t] == if p != EMPTY && t == p then n else l.next[t])
    && (forall t {:trigger l'.prev[t]} | t in l'.slot :: l'.prev[t] == if n != EMPTY && t == n then p else l.prev[t])
    && l'.head == if p == EMPTY then l.head[l.slot[token] := n] else l.head
  }

  /** The two links of neighbours agree. */
  lemma NextMirrorsPrev(l: Lists, ids: map<nat, nat>, t: nat, u: nat)
    requires Linked(l, ids) && t in l.slot && u in l.slot
    ensures l.next[t] == u <==> l.prev[u] == t
  {
    assert NextOk(l, ids, t) && PrevOk(l, ids, u);
    var p := l.prev[u];
    if l.next[t] == u && p != EMPTY {
      assert NextOk(l, ids, p);
    }
  }

  lemma UnlinkNext(l: Lists, ids: map<nat, nat>, token: nat, l': Lists, t: nat)
    requires Linked(l, ids) && token in l.slot && IsUnlink(l, token, l') && t in l'.slot
    ensures NextOk(l', ids, t)
  {
    hide Linked;
    UnlinkFacts(l, ids, token, t);
  }

  lemma UnlinkFacts(l: Lists, ids: map<nat, nat>, token: nat, t: nat)
    requires Linked(l, ids) && token in l.slot && t in l.slot
    ensures l.slot.Keys == l.next.Keys == l.prev.Keys && l.slot.Keys <= ids.Keys && EMPTY !in l.slot
    ensures NextOk(l, ids, t) && NextOk(l, ids, token) && PrevOk(l, ids, t) && PrevOk(l, ids, token)
    ensures l.next[t] == token <==> l.prev[token] == t
    ensures l.next[token] == t <==> l.prev[t] == token
    ensures forall u <- l.slot :: ids[u] == ids[token] ==> u == token
  {
    NextMirrorsPrev(l, ids, t, token);
    NextMirrorsPrev(l, ids, token, t);
  }

  lemma UnlinkPrev(l: Lists, ids: map<nat, nat>, token: nat, l': Lists, t: nat)
    requires Linked(l, ids) && token in l.slot && IsUnlink(l, token, l') && t in l'.slot
    ensures PrevOk(l', ids, t)
  {
    hide Linked;
    UnlinkFacts(l, ids, token, t);
  }

  lemma UnlinkHead(l: Lists, ids: map<nat, nat>, token: nat, l': Lists, s: nat)
    requires Linked(l, ids) && token in l.slot && IsUnlink(l, token, l') && s < |l.head|
    ensures HeadOk(l', ids, s)
  {
    assert HeadOk(l, ids, s) && NextOk(l, ids, token) && PrevOk(l, ids, token);
    var p := l.prev[token];
    if p != EMPTY {
      assert NextOk(l, ids, p);
    }
  }

  lemma UnlinkKeepsLinked(l: Lists, ids: map<nat, nat>, token: nat, l': Lists)
    requires Linked(l, ids) && token in l.slot && IsUnlink(l, token, l')
    ensures Linked(l', ids)
  {
    assert NextOk(l, ids, token) && PrevOk(l, ids, token);
    forall t | t in l'.slot
      ensures NextOk(l', ids, t) && PrevOk(l', ids, t)
    {
      UnlinkNext(l, ids, token, l', t);
      UnlinkPrev(l, ids, token, l', t);
    }
    forall s | 0 <= s < |l'.head|
      ensures HeadOk(l', ids, s)
    {
      UnlinkHead(l, ids, token, l', s);
    }
  }

  // ----- adding a newest member -----

  /** `l'` is `l` with `token` in front of the list of slot `s`. */
  predicate IsPush(l: Lists, token: nat, s: nat, l': Lists)
    requires l.slot.Keys == l.next.Keys == l.prev.Keys && s < |l.head|
  {
    var h := l.head[s];
    && l'.slot.Keys == l'.next.Keys == l'.prev.Keys == l.slot.Keys + {token}
    && (forall t {:trigger l'.slot[t]} | t in l'.slot :: l'.slot[t] == if t == token then s else l.slot[t])
    && (forall t {:trigger l'.next[t]} | t in l'.slot :: l'.next[t] == if t == token then h else l.next[t])
    && (forall t {:trigger l'.prev[t]} | t in l'.slot ::
          l'.prev[t] == if t == token then EMPTY else if t == h then token else l.prev[t])
    && l'.head == l.head[s := token]
  }

  /** Only the serial numbers of members matter. */
  lemma RenumberKeepsLinked(l: Lists, ids: map<nat, nat>, ids': map<nat, nat>)
    requires Linked(l, ids)
    requires l.slot.Keys <= ids'.Keys && forall t {:trigger ids'[t]} | t in l.slot :: ids'[t] == ids[t]
    ensures Linked(l, ids')
  {
    forall t | t in l.slot
      ensures NextOk(l, ids', t) && PrevOk(l, ids', t)
    {
      assert NextOk(l, ids, t) && PrevOk(l, ids, t);
    }
    forall r | 0 <= r < |l.head|
      ensures HeadOk(l, ids', r)
    {
      assert HeadOk(l, ids, r);
    }
  }

  predicate IsNewest(l: Lists, ids: map<nat, nat>, token: nat)
    requires l.slot.Keys <= ids.Keys
  {
    && token !in l.slot && token != EMPTY && token in ids
    && forall u <- l.slot :: ids[u] < ids[token]
  }

  lemma PushNext(l: Lists, ids: map<nat, nat>, token: nat, s: nat, l': Lists, t: nat)
    requires l.slot.Keys == l.next.Keys == l.prev.Keys && l.slot.Keys <= ids.Keys && EMPTY !in l.slot
    requires s < |l.head| && IsPush(l, token, s, l') && t in l'.slot && IsNewest(l, ids, token)
    requires if t == token then HeadOk(l, ids, s) else NextOk(l, ids, t)
    ensures NextOk(l', ids, t)
  {
  }

  lemma PushPrev(l: Lists, ids: map<nat, nat>, token: nat, s: nat, l': Lists, t: nat)
    requires Linked(l, ids) && s < |l.head| && IsPush(l, token, s, l') && t in l'.slot
    requires IsNewest(l, ids, token)
    ensures PrevOk(l', ids, t)
  {
    assert HeadOk(l, ids, s);
    if t != token {
      assert PrevOk(l, ids, t);
    }
  }

  lemma PushHead(l: Lists, ids: map<nat, nat>, token: nat, s: nat, l': Lists, r: nat)
    requires Linked(l, ids) && s < |l.head| && IsPush(l, token, s, l') && r < |l.head|
    requires IsNewest(l, ids, token)
    ensures HeadOk(l', ids, r)
  {
    assert HeadOk(l, ids, r);
  }

  lemma PushKeepsLinked(l: Lists, ids: map<nat, nat>, token: nat, s: nat, l': Lists)
    requires Linked(l, ids) && s < |l.head| && IsPush(l, token, s, l')
    requires IsNewest(l, ids, token)
    ensures Linked(l', ids)
  {
    hide NextOk, PrevOk, HeadOk;
    forall t, u | t in l'.slot && u in l'.slot && ids[t] == ids[u]
      ensures t == u
    {
      assert t in l.slot || t == token;
      assert u in l.slot || u == token;
    }
    forall t | t in l'.slot
      ensures l'.slot[t] < |l'.head|
    {
      assert t in l.slot || t == token;
    }
    forall t | t in l'.slot
      ensures NextOk(l', ids, t) && PrevOk(l', ids, t)
    {
      if t == token {
        assert HeadOk(l, ids, s);
      } else {
        assert NextOk(l, ids, t);
      }
      PushNext(l, ids, token, s, l', t);
      PushPrev(l, ids, token, s, l', t);
    }
    forall r | 0 <= r < |l'.head|
      ensures HeadOk(l', ids, r)
    {
      PushHead(l, ids, token, s, l', r);
    }
  }

  // ----- reading a list off the links -----

  /** The list met by following `next` from `t`. It is finite because serial numbers fall. */
  function Chain(l: Lists, ids: map<nat, nat>, t: nat): (c: seq<nat>)
    requires Linked(l, ids) && (t == EMPTY || t in l.slot)
    decreases if t == EMPTY then 0 else ids[t] + 1
  {
    if t == EMPTY then []
    else
      assert NextOk(l, ids, t);
      [t] + Chain(l, ids, l.next[t])
  }

  /** From any member, `next` visits exactly the members of the slot that are not newer, each once,
      newest first. */
  lemma {:induction false} ChainIsRestOfSlot(l: Lists, ids: map<nat, nat>, t: nat)
    requires Linked(l, ids) && t in l.slot
    ensures var c := Chain(l, ids, t);
            && (forall u :: u in c <==> u in l.slot && l.slot[u] == l.slot[t] && ids[u] <= ids[t])
            && (forall i, j | 0 <= i < j < |c| :: ids[c[j]] < ids[c[i]])
    decreases ids[t]
  {
    assert NextOk(l, ids, t);
    var n := l.next[t];
    if n != EMPTY {
      ChainIsRestOfSlot(l, ids, n);
    }
  }

  /** So the list of slot `s` holds exactly the members of the slot, without repetition. */
  lemma SlotChain(l: Lists, ids: map<nat, nat>, s: nat)
    requires Linked(l, ids) && s < |l.head|
    ensures l.head[s] == EMPTY || l.head[s] in l.slot
    ensures var c := Chain(l, ids, l.head[s]);
            && (forall u :: u in c <==> u in l.slot && l.slot[u] == s)
            && (forall i, j | 0 <= i < j < |c| :: c[i] != c[j])
  {
    assert HeadOk(l, ids, s);
    if l.head[s] != EMPTY {
      ChainIsRestOfSlot(l, ids, l.head[s]);
    }
  }
}
