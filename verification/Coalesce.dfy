/** `Events::coalesce` of src/sys/unix/kqueue.rs: raw kernel events become one event per token. */
module Coalesce {
  import opened QueueModel

  datatype Filter = Read | Write | OtherFilter

  /** The fields of a `kevent` that are looked at: `udata` is the token, `error` and `eof` are flags. */
  datatype KEvent = KEvent(udata: nat, filter: Filter, error: bool, eof: bool, fflags: nat)

  // ----- the reference: what should come out -----

  /** What one raw event says about its token. */
  function Contribution(e: KEvent): Ready {
    (if e.error || (e.eof && e.fflags != 0) then {Error} else {})
    + (if e.filter.Read? then {Readable} else if e.filter.Write? then {Writable} else {})
    + (if e.eof then {Hup} else {})
  }

  /** The tokens other than the awakener's, in order of first appearance. */
  function FirstTokens(raw: seq<KEvent>, awakener: nat): seq<nat> {
    if raw == [] then []
    else
      var before, t := FirstTokens(raw[..|raw| - 1], awakener), raw[|raw| - 1].udata;
      if t == awakener || t in before then before else before + [t]
  }

  /** The union of the contributions to a token. */
  function KindOf(raw: seq<KEvent>, token: nat): Ready {
    if raw == [] then {}
    else KindOf(raw[..|raw| - 1], token) + if raw[|raw| - 1].udata == token then Contribution(raw[|raw| - 1]) else {}
  }

  predicate Occurs(raw: seq<KEvent>, token: nat) {
    exists i | 0 <= i < |raw| :: raw[i].udata == token
  }

  /** `i` is the first place in `raw` where `token` occurs. */
  predicate FirstAt(raw: seq<KEvent>, token: nat, i: nat) {
    i < |raw| && raw[i].udata == token && forall j | 0 <= j < i :: raw[j].udata != token
  }

  /** Each token once, exactly those that occur, the awakener's excepted. */
  lemma {:induction false} FirstTokensAreAll(raw: seq<KEvent>, awakener: nat)
    ensures var ts := FirstTokens(raw, awakener);
            && Distinct(ts)
            && (forall t :: t in ts <==> t != awakener && Occurs(raw, t))
  {
    if raw != [] {
      var before := raw[..|raw| - 1];
      FirstTokensAreAll(before, awakener);
      forall t
        ensures Occurs(raw, t) <==> Occurs(before, t) || raw[|raw| - 1].udata == t
      {
        if Occurs(before, t) {
          var i :| 0 <= i < |before| && before[i].udata == t;
          assert raw[i].udata == t;
        }
      }
    }
  }

  /** Earlier in the list means first seen earlier. */
  lemma {:induction false} FirstTokensInOrder(raw: seq<KEvent>, awakener: nat, a: nat, b: nat, i: nat, j: nat)
    requires a < b < |FirstTokens(raw, awakener)|
    requires FirstAt(raw, FirstTokens(raw, awakener)[a], i) && FirstAt(raw, FirstTokens(raw, awakener)[b], j)
    ensures i < j
  {
    var before, ts := raw[..|raw| - 1], FirstTokens(raw, awakener);
    FirstTokensAreAll(raw, awakener);
    FirstTokensAreAll(before, awakener);
    var s := FirstTokens(before, awakener);
    if b < |s| {
      FirstStays(raw, s[a], i);
      FirstStays(raw, s[b], j);
      FirstTokensInOrder(before, awakener, a, b, i, j);
    } else {
      assert Occurs(before, s[a]);
      FirstStays(raw, s[a], i);
    }
  }

  lemma FirstStays(raw: seq<KEvent>, token: nat, i: nat)
    requires raw != [] && FirstAt(raw, token, i) && Occurs(raw[..|raw| - 1], token)
    ensures FirstAt(raw[..|raw| - 1], token, i)
  {
    var before := raw[..|raw| - 1];
    var k :| 0 <= k < |before| && before[k].udata == token;
    assert raw[k].udata == token;
  }

  /** A bit is in a token's kind exactly when some raw event of the token contributes it. */
  lemma {:induction false} KindIsUnion(raw: seq<KEvent>, token: nat, bit: Bit)
    ensures bit in KindOf(raw, token) <==>
            exists i :: 0 <= i < |raw| && raw[i].udata == token && bit in Contribution(raw[i])
  {
    if raw != [] {
      var before := raw[..|raw| - 1];
      KindIsUnion(before, token, bit);
      if i :| 0 <= i < |before| && before[i].udata == token && bit in Contribution(before[i]) {
        assert raw[i].udata == token && bit in Contribution(raw[i]);
      }
    }
  }

  lemma {:induction false} KindOfMissing(raw: seq<KEvent>, token: nat)
    requires !Occurs(raw, token)
    ensures KindOf(raw, token) == {}
  {
    if raw != [] {
      var before := raw[..|raw| - 1];
      assert raw[|raw| - 1].udata != token;
      assert forall i | 0 <= i < |before| :: before[i] == raw[i];
      KindOfMissing(before, token);
    }
  }

  /** The events that should come out. */
  function Coalesced(raw: seq<KEvent>, awakener: nat): (es: seq<Event>)
    ensures |es| == |FirstTokens(raw, awakener)|
  {
    var ts := FirstTokens(raw, awakener);
    seq(|ts|, i requires 0 <= i < |ts| => Event(KindOf(raw, ts[i]), ts[i]))
  }

  /** Bit by bit, what an event says about the raw events of its token. */
  lemma EventBits(raw: seq<KEvent>, awakener: nat, k: nat)
    requires k < |Coalesced(raw, awakener)|
    ensures var kind, t := Coalesced(raw, awakener)[k].kind, Coalesced(raw, awakener)[k].token;
            && (Readable in kind <==> exists i :: 0 <= i < |raw| && raw[i].udata == t && raw[i].filter == Read)
            && (Writable in kind <==> exists i :: 0 <= i < |raw| && raw[i].udata == t && raw[i].filter == Write)
            && (Hup in kind <==> exists i :: 0 <= i < |raw| && raw[i].udata == t && raw[i].eof)
            && (Error in kind <==> exists i :: 0 <= i < |raw| && raw[i].udata == t
                                     && (raw[i].error || (raw[i].eof && raw[i].fflags != 0)))
            && Drop !in kind
  {
    var token := Coalesced(raw, awakener)[k].token;
    KindIsUnion(raw, token, Readable);
    KindIsUnion(raw, token, Writable);
    KindIsUnion(raw, token, Hup);
    KindIsUnion(raw, token, Error);
    KindIsUnion(raw, token, Drop);
  }

  /** One raw event more: its token, new or old, gains its contribution. */
  lemma CoalescedNext(raw: seq<KEvent>, k: nat, awakener: nat, idx: nat)
    requires k < |raw| && raw[k].udata != awakener
    requires var ts := FirstTokens(raw[..k], awakener);
             if raw[k].udata in ts then idx < |ts| && ts[idx] == raw[k].udata else idx == |ts|
    ensures var token, es := raw[k].udata, Coalesced(raw[..k], awakener);
            var base := if idx < |es| then es else es + [Event({}, token)];
            Coalesced(raw[..k + 1], awakener) == base[idx := Event(base[idx].kind + Contribution(raw[k]), token)]
  {
    var token, ts, es := raw[k].udata, FirstTokens(raw[..k], awakener), Coalesced(raw[..k], awakener);
    var base := if idx < |es| then es else es + [Event({}, token)];
    var next := base[idx := Event(base[idx].kind + Contribution(raw[k]), token)];
    OneMore(raw, k, awakener);
    FirstTokensAreAll(raw[..k], awakener);
    if token !in ts {
      KindOfMissing(raw[..k], token);
    }
    var ts', es' := FirstTokens(raw[..k + 1], awakener), Coalesced(raw[..k + 1], awakener);
    assert |es'| == |next|;
    forall i | 0 <= i < |es'|
      ensures es'[i] == next[i]
    {
      KindNext(raw, k, ts'[i]);
    }
  }

  lemma OneMore(raw: seq<KEvent>, k: nat, awakener: nat)
    requires k < |raw|
    ensures var before, t := FirstTokens(raw[..k], awakener), raw[k].udata;
            FirstTokens(raw[..k + 1], awakener) == if t == awakener || t in before then before else before + [t]
  {
    assert raw[..k + 1][..k] == raw[..k];
  }

  lemma OccursNext(raw: seq<KEvent>, k: nat, token: nat)
    requires k < |raw|
    ensures Occurs(raw[..k + 1], token) <==> Occurs(raw[..k], token) || raw[k].udata == token
  {
    if i :| 0 <= i < k && raw[..k][i].udata == token {
      assert raw[..k + 1][i].udata == token;
    }
    assert raw[..k + 1][k] == raw[k];
  }

  lemma KindNext(raw: seq<KEvent>, k: nat, token: nat)
    requires k < |raw|
    ensures KindOf(raw[..k + 1], token) == KindOf(raw[..k], token) + if raw[k].udata == token
              then Contribution(raw[k]) else {}
  {
    assert raw[..k + 1][..k] == raw[..k];
  }

  /** An event of the awakener changes nothing. */
  lemma CoalescedSkip(raw: seq<KEvent>, k: nat, awakener: nat)
    requires k < |raw| && raw[k].udata == awakener
    ensures FirstTokens(raw[..k + 1], awakener) == FirstTokens(raw[..k], awakener)
    ensures Coalesced(raw[..k + 1], awakener) == Coalesced(raw[..k], awakener)
  {
    OneMore(raw, k, awakener);
    FirstTokensAreAll(raw[..k], awakener);
    var ts := FirstTokens(raw[..k], awakener);
    forall i | 0 <= i < |ts|
      ensures KindOf(raw[..k + 1], ts[i]) == KindOf(raw[..k], ts[i])
    {
      assert ts[i] in ts;
      KindNext(raw, k, ts[i]);
    }
  }

  // ----- the code -----

  class Events {
    var sysEvents: seq<KEvent>
    var events: seq<Event>
    var eventMap: map<nat, nat>

    constructor (sysEvents: seq<KEvent>)
      ensures this.sysEvents == sysEvents && events == [] && eventMap == map[]
    {
      this.sysEvents := sysEvents;
      events, eventMap := [], map[];
    }

    /** The index map agrees with the positions of the tokens. */
    predicate Indexed(ts: seq<nat>)
      reads this
    {
      && (forall t <- eventMap :: t in ts)
      && (forall i | 0 <= i < |ts| :: ts[i] in eventMap && eventMap[ts[i]] == i)
    }

    method Insert(idx: nat, ready: Ready)
      requires idx < |events|
      modifies this`events
      ensures events == old(events)[idx := Event(old(events)[idx].kind + ready, old(events)[idx].token)]
    {
      events := events[idx := Event(events[idx].kind + ready, events[idx].token)];
    }

    /** The flags and the filter of one raw event, inserted into its token's event. */
    method Merge(idx: nat, e: KEvent)
      requires idx < |events|
      modifies this`events
      ensures events == old(events)[idx := Event(old(events)[idx].kind + Contribution(e), old(events)[idx].token)]
    {
      if e.error {
        Insert(idx, {Error});
      }
      if e.filter.Read? {
        Insert(idx, {Readable});
      } else if e.filter.Write? {
        Insert(idx, {Writable});
      }
      if e.eof {
        Insert(idx, {Hup});
        if e.fflags != 0 {
          Insert(idx, {Error});
        }
      }
      assert events[idx].kind == old(events)[idx].kind + Contribution(e);
    }

    method Coalesce(awakener: nat) returns (awoken: bool)
      modifies this`events, this`eventMap
      ensures awoken <==> Occurs(sysEvents, awakener)
      ensures events == Coalesced(sysEvents, awakener)
      ensures Indexed(FirstTokens(sysEvents, awakener))
    {
      hide KindOf, Contribution;
      awoken := false;
      events := [];
      eventMap := map[];

      for k := 0 to |sysEvents|
        invariant awoken <==> Occurs(sysEvents[..k], awakener)
        invariant events == Coalesced(sysEvents[..k], awakener)
        invariant Indexed(FirstTokens(sysEvents[..k], awakener))
      {
        var e := sysEvents[k];
        var token := e.udata;
        var len := |events|;
        OneMore(sysEvents, k, awakener);
        OccursNext(sysEvents, k, awakener);

        if token == awakener {
          awoken := true;
          CoalescedSkip(sysEvents, k, awakener);
          continue;
        }

        if token !in eventMap {
          eventMap := eventMap[token := len];
        }
        var idx := eventMap[token];
        if idx == len {
          events := events + [Event({}, token)];
        }
        CoalescedNext(sysEvents, k, awakener, idx);
        Merge(idx, e);
      }
      assert sysEvents[..|sysEvents|] == sysEvents;
    }
  }
}
