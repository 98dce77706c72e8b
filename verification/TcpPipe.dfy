/** The write side of the Windows TCP stream (src/sys/windows/tcp.rs) as a machine that consumes the
    answers of the system: what every run of it keeps. The class in `TcpWrite` refines it. */
module TcpPipe {

  newtype byte = x: int | 0 <= x < 256

  /** What the system says at once about an overlapped write. */
  datatype Outcome = Transferred(n: nat) | Scheduled | Refused

  /** The system: its answer to its `i`th overlapped write, one of `len` bytes. */
  type System = (nat, nat) -> Outcome

  /** A write that completes at once transfers something, unless there is nothing to transfer. */
  predicate Plausible(o: Outcome, len: nat) {
    o.Transferred? ==> o.n <= len && (o.n == 0 <==> len == 0)
  }

  ghost predicate Honest(os: System) {
    forall i, len :: Plausible(os(i, len), len)
  }

  /** `State` of a write: nothing under way, inside `schedule_write`, kept by the system from `pos` on,
      or an error. */
  datatype WriteState = Empty | Writing(buf: seq<byte>, pos: nat) | Pending(buf: seq<byte>, pos: nat) | Failed

  /** `accepted` are the bytes `writev` has taken. The system's side: its `answers` so far, the bytes it
      has `sent`, and those `inFlight` that it has yet to report on. */
  datatype Pipe = Pipe(write: WriteState, writable: bool, registered: bool, instantNotify: bool,
                       accepted: seq<byte>, answers: seq<Outcome>, sent: seq<byte>, inFlight: seq<byte>)

  function New(): Pipe {
    Pipe(Empty, false, false, false, [], [], [], [])
  }

  function Concat(bufs: seq<seq<byte>>): seq<byte> {
    if bufs == [] then [] else bufs[0] + Concat(bufs[1..])
  }

  // ----- the calls -----

  /** `register` of a connected stream, when the system grants instant notification or not. */
  function Registered(p: Pipe, interest: bool, granted: bool): Pipe {
    p.(registered := true,
       instantNotify := p.instantNotify || granted,
       writable := p.writable || (granted && interest && p.write.Empty?))
  }

  function Schedule(p: Pipe, buf: seq<byte>, pos: nat): Pipe {
    p.(write := Writing(buf, pos), writable := false)
  }

  predicate InBuffer(p: Pipe) {
    p.write.Writing? && p.write.pos <= |p.write.buf|
  }

  /** The system's side of one overlapped write. Without instant notification a completion follows even
      a write that is done at once. */
  function Handed(p: Pipe, o: Outcome, data: seq<byte>): Pipe
    requires Plausible(o, |data|)
  {
    var told := p.(answers := p.answers + [o]);
    if o.Refused? then told
    else if o.Transferred? && p.instantNotify then told.(sent := p.sent + data[..o.n])
    else told.(inFlight := data)
  }

  /** One turn of the loop of `schedule_write`. */
  function Turn(os: System, p: Pipe): (q: Pipe)
    requires Honest(os) && InBuffer(p)
    ensures q.write.Writing? ==> InBuffer(q) && q.write.buf == p.write.buf && p.write.pos < q.write.pos
  {
    var buf, pos := p.write.buf, p.write.pos;
    var o := os(|p.answers|, |buf| - pos);
    assert Plausible(o, |buf| - pos);
    var handed := Handed(p, o, buf[pos..]);
    if o.Refused? then handed.(write := Failed, writable := true)
    else if !(o.Transferred? && p.instantNotify) then handed.(write := Pending(buf, pos))
    else if o.n == |buf| - pos then handed.(write := Empty, writable := true)
    else handed.(write := Writing(buf, pos + o.n))
  }

  /** The loop. */
  function Drive(os: System, p: Pipe): (q: Pipe)
    requires Honest(os) && InBuffer(p)
    ensures !q.write.Writing?
    decreases |p.write.buf| - p.write.pos
  {
    var q := Turn(os, p);
    if q.write.Writing? then Drive(os, q) else q
  }

  predicate Accepts(p: Pipe) {
    p.write.Empty? && p.registered
  }

  function Written(os: System, p: Pipe, bufs: seq<seq<byte>>): Pipe
    requires Honest(os)
  {
    if !Accepts(p) || bufs == [] then p
    else Drive(os, Schedule(p, Concat(bufs), 0).(accepted := p.accepted + Concat(bufs)))
  }

  predicate Completes(p: Pipe, n: nat) {
    p.write.Pending? && n <= |p.inFlight| && p.write.pos + |p.inFlight| == |p.write.buf|
  }

  /** A completion reports that the first `n` bytes in flight are sent. */
  function Completed(os: System, p: Pipe, n: nat): Pipe
    requires Honest(os) && Completes(p, n)
  {
    var buf, pos := p.write.buf, p.write.pos + n;
    var told := p.(sent := p.sent + p.inFlight[..n], write := Empty);
    if pos == |buf| then told.(writable := true) else Drive(os, Schedule(told, buf, pos))
  }

  // ----- conservation -----

  function Unsent(w: WriteState): seq<byte>
    requires w.Writing? || w.Pending? ==> w.pos <= |w.buf|
  {
    if w.Writing? || w.Pending? then w.buf[w.pos..] else []
  }

  /** The bytes sent, then the unsent tail of the buffer, are the bytes accepted, in order; an error has
      happened exactly if the system refused a write; a stream with a write under way is not writable. */
  predicate Conserved(p: Pipe) {
    && (p.write.Writing? || p.write.Pending? ==> p.write.pos <= |p.write.buf| && !p.writable)
    && (p.write.Pending? ==> p.inFlight == Unsent(p.write))
    && (p.write.Failed? <==> Refused in p.answers)
    && p.sent <= p.accepted
    && (Refused !in p.answers ==> p.sent + Unsent(p.write) == p.accepted)
  }

  /** Moving `n` bytes from the unsent tail to the bytes sent changes nothing overall. */
  lemma MoveBytes(sent: seq<byte>, buf: seq<byte>, pos: nat, n: nat)
    requires pos + n <= |buf|
    ensures sent + buf[pos..][..n] + buf[pos + n..] == sent + buf[pos..]
  {
    assert buf[pos..][n..] == buf[pos + n..];
  }

  lemma TransferConserves(p: Pipe, o: Outcome, q: Pipe)
    requires InBuffer(p) && Conserved(p) && o.Transferred? && Plausible(o, |p.write.buf| - p.write.pos)
    requires var buf, pos := p.write.buf, p.write.pos;
             && q.sent == p.sent + buf[pos..][..o.n] && q.accepted == p.accepted && q.answers == p.answers + [o]
             && (if o.n == |buf| - pos then q.write == Empty else q.write == Writing(buf, pos + o.n) && !q.writable)
    ensures Conserved(q)
  {
    MoveBytes(p.sent, p.write.buf, p.write.pos, o.n);
  }

  lemma TurnConserves(os: System, p: Pipe)
    requires Honest(os) && InBuffer(p) && Conserved(p)
    ensures Conserved(Turn(os, p))
  {
    var buf, pos := p.write.buf, p.write.pos;
    var o := os(|p.answers|, |buf| - pos);
    assert Plausible(o, |buf| - pos);
    hide Honest;
    if o.Transferred? && p.instantNotify {
      hide Conserved;
      TransferConserves(p, o, Turn(os, p));
    } else if o.Refused? {
    } else {
    }
  }

  lemma {:induction false} DriveConserves(os: System, p: Pipe)
    requires Honest(os) && InBuffer(p) && Conserved(p)
    ensures Conserved(Drive(os, p))
    decreases |p.write.buf| - p.write.pos
  {
    hide Conserved;
    TurnConserves(os, p);
    if Turn(os, p).write.Writing? {
      DriveConserves(os, Turn(os, p));
    }
  }

  // ----- what the answers report -----

  function Total(answers: seq<Outcome>): nat {
    if answers == [] then 0 else (if answers[0].Transferred? then answers[0].n else 0) + Total(answers[1..])
  }

  /** `schedule_write` does what the system answers: it asks at least once, goes on exactly after partial
      transfers, ends as the last answer says, and has sent as many bytes as the answers report. */
  predicate Obeys(p: Pipe, got: seq<Outcome>, q: Pipe) {
    && got != [] && q.answers == p.answers + got
    && (forall i | 0 <= i < |got| - 1 :: got[i].Transferred? && p.instantNotify)
    && var last := got[|got| - 1];
    && (q.write.Failed? <==> last.Refused?)
    && (q.write.Empty? <==> last.Transferred? && p.instantNotify)
    && |q.sent| == |p.sent| + if p.instantNotify then Total(got) else 0
  }

  lemma TurnObeys(os: System, p: Pipe) returns (o: Outcome)
    requires Honest(os) && InBuffer(p)
    ensures var t := Turn(os, p);
            && t.answers == p.answers + [o] && t.instantNotify == p.instantNotify && t.accepted == p.accepted
            && (t.write.Writing? ==> o.Transferred? && p.instantNotify)
            && (t.write.Failed? <==> o.Refused?)
            && (t.write.Empty? || t.write.Writing? <==> o.Transferred? && p.instantNotify)
            && |t.sent| == |p.sent| + if p.instantNotify && o.Transferred? then o.n else 0
  {
    o := os(|p.answers|, |p.write.buf| - p.write.pos);
    assert Plausible(o, |p.write.buf| - p.write.pos);
  }

  lemma {:induction false} DriveObeys(os: System, p: Pipe) returns (got: seq<Outcome>)
    requires Honest(os) && InBuffer(p)
    ensures Obeys(p, got, Drive(os, p)) && Drive(os, p).accepted == p.accepted
    decreases |p.write.buf| - p.write.pos
  {
    hide Turn;
    var t := Turn(os, p);
    var o := TurnObeys(os, p);
    if t.write.Writing? {
      var rest := DriveObeys(os, t);
      got := [o] + rest;
      assert got[1..] == rest && p.answers + got == t.answers + rest;
      assert got[|got| - 1] == rest[|rest| - 1];
      assert forall i | 0 < i < |got| - 1 :: got[i] == rest[i - 1];
    } else {
      got := [o];
      assert Total(got[1..]) == 0;
    }
  }

  /** The loop, one turn unfolded. */
  lemma DriveUnfolds(os: System, p: Pipe, buf: seq<byte>, pos: nat)
    requires Honest(os) && pos <= |buf| && !p.writable
    ensures var o := os(|p.answers|, |buf| - pos);
            && Plausible(o, |buf| - pos)
            && var q, handed := Drive(os, Schedule(p, buf, pos)), Handed(p, o, buf[pos..]);
            if o.Refused? then q == handed.(write := Failed, writable := true)
            else if !(o.Transferred? && p.instantNotify) then q == handed.(write := Pending(buf, pos))
            else if o.n == |buf| - pos then q == handed.(write := Empty, writable := true)
            else pos + o.n <= |buf| && q == Drive(os, Schedule(handed, buf, pos + o.n))
  {
    var o := os(|p.answers|, |buf| - pos);
    assert Plausible(o, |buf| - pos);
    var s, t := Schedule(p, buf, pos), Turn(os, Schedule(p, buf, pos));
    if t.write.Writing? {
      assert t == Schedule(Handed(p, o, buf[pos..]), buf, pos + o.n);
    }
  }

  // ----- runs -----

  datatype Call = Register(interest: bool, granted: bool) | WriteV(bufs: seq<seq<byte>>) | WriteDone(n: nat)

  predicate Allowed(p: Pipe, call: Call) {
    call.WriteDone? ==> Completes(p, call.n)
  }

  function Apply(os: System, p: Pipe, call: Call): Pipe
    requires Honest(os) && Allowed(p, call)
  {
    match call
    case Register(interest, granted) => Registered(p, interest, granted)
    case WriteV(bufs) => Written(os, p, bufs)
    case WriteDone(n) => Completed(os, p, n)
  }

  ghost predicate RunFrom(os: System, start: Pipe, ps: seq<Pipe>, calls: seq<Call>) {
    && Honest(os)
    && |ps| == |calls| + 1 && ps[0] == start
    && forall i {:trigger calls[i]} | 0 <= i < |calls| :: Allowed(ps[i], calls[i])
        && ps[i + 1] == Apply(os, ps[i], calls[i])
  }

  /** Between calls the stream is not inside `schedule_write`. */
  predicate Settled(p: Pipe) {
    Conserved(p) && !p.write.Writing?
  }

  lemma RegisteredSettles(p: Pipe, interest: bool, granted: bool)
    requires Settled(p)
    ensures Settled(Registered(p, interest, granted))
  {
  }

  lemma WrittenSettles(os: System, p: Pipe, bufs: seq<seq<byte>>)
    requires Honest(os) && Settled(p)
    ensures Settled(Written(os, p, bufs))
  {
    hide Drive, Concat, Honest;
    if Accepts(p) && bufs != [] {
      var data := Concat(bufs);
      var s := Schedule(p, data, 0).(accepted := p.accepted + data);
      assert data[0..] == data;
      DriveConserves(os, s);
    }
  }

  lemma CompletedSettles(os: System, p: Pipe, n: nat)
    requires Honest(os) && Settled(p) && Completes(p, n)
    ensures Settled(Completed(os, p, n))
  {
    hide Drive, Honest;
    var buf, pos := p.write.buf, p.write.pos;
    MoveBytes(p.sent, buf, pos, n);
    var told := p.(sent := p.sent + p.inFlight[..n], write := Empty);
    if pos + n < |buf| {
      DriveConserves(os, Schedule(told, buf, pos + n));
    }
  }

  lemma ApplySettles(os: System, p: Pipe, call: Call)
    requires Honest(os) && Settled(p) && Allowed(p, call)
    ensures Settled(Apply(os, p, call))
  {
    hide Settled, Honest, Written, Completed, Registered;
    match call
    case Register(interest, granted) => RegisteredSettles(p, interest, granted);
    case WriteV(bufs) => WrittenSettles(os, p, bufs);
    case WriteDone(n) => CompletedSettles(os, p, n);
  }

  lemma {:induction false} RunSettles(os: System, start: Pipe, ps: seq<Pipe>, calls: seq<Call>, k: nat)
    requires Settled(start) && RunFrom(os, start, ps, calls) && k < |ps|
    ensures Settled(ps[k])
  {
    hide Settled, Apply, Allowed, Honest;
    if k > 0 {
      RunSettles(os, start, ps, calls, k - 1);
      assert calls[k - 1] == calls[k - 1];
      ApplySettles(os, ps[k - 1], calls[k - 1]);
    }
  }

  /** In every run with every system, what is sent is a prefix of what `writev` accepted; nothing is
      missing from it but the tail of a pending buffer, unless the system refused a write. A stream is
      writable only between writes, and always after a refusal. */
  lemma ByteStream(os: System, ps: seq<Pipe>, calls: seq<Call>, k: nat)
    requires RunFrom(os, New(), ps, calls) && k < |ps|
    ensures var p := ps[k];
            && p.sent <= p.accepted
            && (p.write.Writing? || p.write.Pending? ==> p.write.pos <= |p.write.buf|)
            && (Refused !in p.answers ==> p.sent + Unsent(p.write) == p.accepted)
            && (p.writable ==> p.write.Empty? || p.write.Failed?)
            && (Refused in p.answers <==> p.write.Failed?)
            && (Refused in p.answers ==> p.writable)
  {
    RunSettles(os, New(), ps, calls, k);
    if ps[k].write.Failed? {
      var i := FailedAtSomeCall(os, ps, calls, k);
      LossAfterRefusal(os, ps, calls, i, k);
    }
  }

  // ----- errors are for good -----

  lemma StaysFailed(os: System, p: Pipe, call: Call)
    requires Honest(os) && Allowed(p, call) && p.write.Failed?
    ensures var q := Apply(os, p, call);
            q.write.Failed? && q.sent == p.sent && q.accepted == p.accepted && (p.writable ==> q.writable)
  {
  }

  lemma {:induction false} NothingAfterFailure(os: System, start: Pipe, ps: seq<Pipe>, calls: seq<Call>, i: nat, k: nat)
    requires RunFrom(os, start, ps, calls) && i <= k < |ps| && ps[i].write.Failed?
    ensures ps[k].write.Failed? && (ps[i].writable ==> ps[k].writable)
    ensures ps[k].sent == ps[i].sent && ps[k].accepted == ps[i].accepted
    decreases k - i
  {
    hide Apply, Allowed, Honest;
    if i < k {
      NothingAfterFailure(os, start, ps, calls, i, k - 1);
      assert calls[k - 1] == calls[k - 1];
      StaysFailed(os, ps[k - 1], calls[k - 1]);
    }
  }

  /** `p` leads to a stream that takes another write. */
  ghost predicate CanAcceptAgain(os: System, p: Pipe) {
    exists ps, calls :: RunFrom(os, p, ps, calls) && Accepts(ps[|calls|])
  }

  lemma Recovers(os: System, p: Pipe)
    requires Honest(os) && Settled(p) && p.registered && !p.write.Failed?
    ensures CanAcceptAgain(os, p)
  {
    if p.write.Empty? {
      assert RunFrom(os, p, [p], []);
    } else {
      var call := WriteDone(|p.inFlight|);
      assert RunFrom(os, p, [p, Apply(os, p, call)], [call]);
      assert Accepts([p, Apply(os, p, call)][|[call]|]);
    }
  }

  /** In every run, a registered stream answers every later `writev` with "would block" if and only if
      the system has refused one of its writes. */
  lemma BlockedForGood(os: System, ps: seq<Pipe>, calls: seq<Call>, k: nat)
    requires RunFrom(os, New(), ps, calls) && k < |ps| && ps[k].registered
    ensures Refused in ps[k].answers <==> !CanAcceptAgain(os, ps[k])
  {
    RunSettles(os, New(), ps, calls, k);
    if ps[k].write.Failed? {
      if qs, more :| RunFrom(os, ps[k], qs, more) && Accepts(qs[|more|]) {
        NothingAfterFailure(os, ps[k], qs, more, 0, |more|);
      }
    } else {
      Recovers(os, ps[k]);
    }
  }

  // ----- the calls' effects over runs -----

  /** Buffers are gathered in order. */
  lemma {:induction false} ConcatAppends(a: seq<seq<byte>>, b: seq<seq<byte>>)
    ensures Concat(a + b) == Concat(a) + Concat(b)
  {
    if a == [] {
      assert a + b == b;
    } else {
      ConcatAppends(a[1..], b);
      assert (a + b)[0] == a[0] && (a + b)[1..] == a[1..] + b;
      assert Concat(a + b) == a[0] + Concat(a[1..] + b);
    }
  }

  lemma ConcatOne(x: seq<byte>)
    ensures Concat([x]) == x
  {
    assert [x][1..] == [];
  }

  /** The loop only adds to what is sent, and ends writable unless the system keeps the rest. */
  lemma {:induction false} DriveAdds(os: System, p: Pipe)
    requires Honest(os) && InBuffer(p) && !p.writable
    ensures var q := Drive(os, p);
            && p.sent <= q.sent && (q.writable <==> !q.write.Pending?)
            && q.registered == p.registered && q.instantNotify == p.instantNotify
    decreases |p.write.buf| - p.write.pos
  {
    hide Honest;
    var t := Turn(os, p);
    if t.write.Writing? {
      DriveAdds(os, t);
    }
  }

  /** A completion counts: the bytes it reports are sent, before any other. */
  lemma CompletedSends(os: System, p: Pipe, n: nat)
    requires Honest(os) && Completes(p, n)
    ensures p.sent + p.inFlight[..n] <= Completed(os, p, n).sent
  {
    hide Drive, Honest;
    var buf, pos := p.write.buf, p.write.pos + n;
    if pos < |buf| {
      DriveAdds(os, Schedule(p.(sent := p.sent + p.inFlight[..n], write := Empty), buf, pos));
    }
  }

  /** What one call does to the flags of a stream. */
  lemma CallFlags(os: System, p: Pipe, call: Call)
    requires Honest(os) && Settled(p) && Allowed(p, call) && (p.write.Failed? ==> p.writable)
    ensures var q := Apply(os, p, call);
            && (q.registered <==> p.registered || call.Register?)
            && (q.instantNotify <==> p.instantNotify || (call.Register? && call.granted))
            && (q.answers == [] ==> p.answers == [])
            && (q.writable <==> !q.write.Pending? && (p.writable || q.answers != p.answers || p.write.Pending?
                                                      || call == Register(true, true)))
            && p.answers <= q.answers
  {
    hide Drive, Honest;
    match call
    case Register(_, _) =>
    case WriteV(bufs) =>
      if Accepts(p) && bufs != [] {
        var s := Schedule(p, Concat(bufs), 0).(accepted := p.accepted + Concat(bufs));
        DriveAdds(os, s);
        var got := DriveObeys(os, s);
      }
    case WriteDone(n) =>
      var buf, pos := p.write.buf, p.write.pos + n;
      if pos < |buf| {
        var s := Schedule(p.(sent := p.sent + p.inFlight[..n], write := Empty), buf, pos);
        DriveAdds(os, s);
        var got := DriveObeys(os, s);
      }
  }

  /** A granted registration with an interest in writing is among the first `k` calls. */
  predicate Announced(calls: seq<Call>, k: nat)
    requires k <= |calls|
  {
    exists i :: 0 <= i < k && calls[i] == Register(true, true)
  }

  /** In every run a stream is writable if and only if no write is pending and it has been written to or
      was registered with an interest in writing. */
  lemma {:induction false} WritableExactly(os: System, ps: seq<Pipe>, calls: seq<Call>, k: nat)
    requires RunFrom(os, New(), ps, calls) && k < |ps|
    ensures var p := ps[k];
            && (p.writable <==> !p.write.Pending? && (p.answers != [] || Announced(calls, k)))
            && (p.write.Pending? ==> p.answers != [])
            && (p.registered <==> exists i :: 0 <= i < k && calls[i].Register?)
            && (p.instantNotify <==> exists i :: 0 <= i < k && calls[i].Register? && calls[i].granted)
  {
    hide Apply, Allowed, Honest, Settled;
    if k > 0 {
      var i := k - 1;
      WritableExactly(os, ps, calls, i);
      NewSettles();
      RunSettles(os, New(), ps, calls, i);
      ByteStream(os, ps, calls, i);
      assert calls[i] == calls[i];
      CallFlags(os, ps[i], calls[i]);
      PendingIsAnswered(os, ps[i], calls[i]);
    }
  }

  lemma NewSettles()
    ensures Settled(New())
  {
  }

  lemma PendingIsAnswered(os: System, p: Pipe, call: Call)
    requires Honest(os) && Settled(p) && Allowed(p, call)
    ensures Apply(os, p, call).write.Pending? ==> p.write.Pending? || Apply(os, p, call).answers != []
  {
    hide Drive, Honest;
    if call.WriteV? && Accepts(p) && call.bufs != [] {
      var s := Schedule(p, Concat(call.bufs), 0).(accepted := p.accepted + Concat(call.bufs));
      var got := DriveObeys(os, s);
    }
  }

  // ----- what an error loses -----

  /** A loop that ends in an error leaves the stream writable, and bytes unsent unless it had none. */
  lemma {:induction false} DriveFails(os: System, p: Pipe)
    requires Honest(os) && InBuffer(p) && Conserved(p)
    ensures var q := Drive(os, p);
            q.write.Failed? ==> q.writable && (|q.sent| < |q.accepted| <==> p.write.pos < |p.write.buf|)
    decreases |p.write.buf| - p.write.pos
  {
    hide Honest;
    var t := Turn(os, p);
    TurnConserves(os, p);
    if t.write.Writing? {
      DriveFails(os, t);
    }
  }

  /** The call hands no byte to the system. */
  predicate HasNoBytes(call: Call) {
    call.WriteV? && Concat(call.bufs) == []
  }

  /** The call that meets a refusal leaves the stream writable; it loses bytes unless it had none. */
  lemma FailingCall(os: System, p: Pipe, call: Call)
    requires Honest(os) && Settled(p) && Allowed(p, call)
    requires !p.write.Failed? && Apply(os, p, call).write.Failed?
    ensures var q := Apply(os, p, call);
            q.writable && (|q.sent| < |q.accepted| <==> !HasNoBytes(call))
  {
    hide Drive, Honest;
    match call
    case Register(_, _) =>
    case WriteV(bufs) =>
      var data := Concat(bufs);
      var s := Schedule(p, data, 0).(accepted := p.accepted + data);
      assert data[0..] == data;
      DriveFails(os, s);
    case WriteDone(n) =>
      var buf, pos := p.write.buf, p.write.pos;
      MoveBytes(p.sent, buf, pos, n);
      var told := p.(sent := p.sent + p.inFlight[..n], write := Empty);
      DriveFails(os, Schedule(told, buf, pos + n));
  }

  /** Call `i` of the run is the one whose write is refused. */
  predicate FailsAt(ps: seq<Pipe>, i: nat)
    requires i + 1 < |ps|
  {
    !ps[i].write.Failed? && ps[i + 1].write.Failed?
  }

  lemma {:induction false} FailedAtSomeCall(os: System, ps: seq<Pipe>, calls: seq<Call>, k: nat) returns (i: nat)
    requires RunFrom(os, New(), ps, calls) && k < |ps| && ps[k].write.Failed?
    ensures i < k && FailsAt(ps, i)
  {
    if ps[k - 1].write.Failed? {
      i := FailedAtSomeCall(os, ps, calls, k - 1);
    } else {
      i := k - 1;
    }
  }

  /** From a refused write on, the stream is writable, nothing more is accepted and nothing more is sent;
      what is sent is a proper prefix of what is accepted if and only if the refused write had bytes. */
  lemma LossAfterRefusal(os: System, ps: seq<Pipe>, calls: seq<Call>, i: nat, k: nat)
    requires RunFrom(os, New(), ps, calls) && i < k < |ps| && FailsAt(ps, i)
    ensures ps[k].writable && ps[k].sent == ps[i + 1].sent && ps[k].accepted == ps[i + 1].accepted
    ensures ps[k].sent < ps[k].accepted <==> !HasNoBytes(calls[i])
  {
    hide Apply, Allowed, Honest, HasNoBytes;
    RunSettles(os, New(), ps, calls, i);
    RunSettles(os, New(), ps, calls, k);
    assert calls[i] == calls[i];
    FailingCall(os, ps[i], calls[i]);
    NothingAfterFailure(os, New(), ps, calls, i + 1, k);
  }

  /** `p` leads to a stream that has sent all that `p` had accepted. */
  ghost predicate CanDeliver(os: System, p: Pipe) {
    exists ps: seq<Pipe>, calls: seq<Call> :: RunFrom(os, p, ps, calls) && p.accepted <= ps[|calls|].sent
  }

  lemma Delivers(os: System, p: Pipe)
    requires Honest(os) && Settled(p) && !p.write.Failed?
    ensures CanDeliver(os, p)
  {
    if p.write.Empty? {
      assert RunFrom(os, p, [p], []);
    } else {
      var call := WriteDone(|p.inFlight|);
      assert RunFrom(os, p, [p, Apply(os, p, call)], [call]);
      assert p.accepted <= [p, Apply(os, p, call)][|[call]|].sent;
    }
  }

  /** In every run, bytes that `writev` has accepted will never be sent if and only if a write that had
      bytes has been refused. */
  lemma LostForGood(os: System, ps: seq<Pipe>, calls: seq<Call>, k: nat)
    requires RunFrom(os, New(), ps, calls) && k < |ps|
    ensures !CanDeliver(os, ps[k]) <==> exists i :: 0 <= i < k && FailsAt(ps, i) && !HasNoBytes(calls[i])
  {
    hide HasNoBytes, Apply, Allowed, Honest, CanDeliver;
    RunSettles(os, New(), ps, calls, k);
    if ps[k].write.Failed? {
      var i := FailedAtSomeCall(os, ps, calls, k);
      LossAfterRefusal(os, ps, calls, i, k);
      DeliversOnlySent(os, ps[k]);
      forall j | 0 <= j < k && FailsAt(ps, j)
        ensures j == i
      {
        if j < i {
          NothingAfterFailure(os, New(), ps, calls, j + 1, i);
        } else if i < j {
          NothingAfterFailure(os, New(), ps, calls, i + 1, j);
        }
      }
    } else {
      Delivers(os, ps[k]);
      forall j | 0 <= j < k && FailsAt(ps, j)
        ensures false
      {
        NothingAfterFailure(os, New(), ps, calls, j + 1, k);
      }
    }
  }

  lemma DeliversOnlySent(os: System, p: Pipe)
    requires Honest(os) && Settled(p) && p.write.Failed?
    ensures CanDeliver(os, p) <==> p.sent == p.accepted
  {
    if p.sent == p.accepted {
      assert RunFrom(os, p, [p], []);
    }
    if ps: seq<Pipe>, calls: seq<Call> :| RunFrom(os, p, ps, calls) && p.accepted <= ps[|calls|].sent {
      NothingAfterFailure(os, p, ps, calls, 0, |calls|);
    }
  }

  /** A system that takes one byte of two and refuses the rest. */
  function Refusing(): (os: System)
    ensures Honest(os)
  {
    (i: nat, len: nat) => if len == 2 then Transferred(1) else Refused
  }

  lemma RefusingDrive(p: Pipe)
    requires !p.writable && p.instantNotify
    ensures Drive(Refusing(), Schedule(p, [1, 2], 0))
         == p.(write := Failed, writable := true, sent := p.sent + [1],
             answers := p.answers + [Transferred(1)] + [Refused])
  {
    hide Drive;
    var buf: seq<byte> := [1, 2];
    DriveUnfolds(Refusing(), p, buf, 0);
    var handed := Handed(p, Transferred(1), buf[0..]);
    DriveUnfolds(Refusing(), handed, buf, 1);
  }

  /** It happens: `writev` takes two bytes, one is sent, and the stream neither sends the other nor takes
      a byte again. */
  lemma AcceptedByteIsLost()
    ensures exists os: System, ps: seq<Pipe>, calls: seq<Call> ::
              && RunFrom(os, New(), ps, calls)
              && var p := ps[|calls|];
              p.registered && p.accepted == [1, 2] && p.sent == [1] && p.writable && !CanAcceptAgain(os, p)
  {
    hide Drive, CanAcceptAgain, Honest, Refusing, Written, Registered;
    var os, calls := Refusing(), [Register(false, true), WriteV([[1, 2]])];
    var p1 := Registered(New(), false, true);
    var p2 := Written(os, p1, [[1, 2]]);
    LosingWrite();
    var ps := [New(), p1, p2];
    assert Apply(os, New(), calls[0]) == p1 && Apply(os, p1, calls[1]) == p2;
    assert RunFrom(os, New(), ps, calls);
    BlockedForGood(os, ps, calls, 2);
    assert p2 == ps[|calls|];
  }

  lemma LosingWrite()
    ensures var p := Written(Refusing(), Registered(New(), false, true), [[1, 2]]);
            p.registered && p.accepted == [1, 2] && p.sent == [1] && p.writable && Refused in p.answers
  {
    hide Drive, Honest, Refusing;
    var bufs: seq<seq<byte>> := [[1, 2]];
    assert Concat(bufs) == [1, 2] by {
      assert bufs[1..] == [];
    }
    var p := Registered(New(), false, true);
    assert p.accepted + Concat(bufs) == [1, 2];
    var q := Written(Refusing(), p, bufs);
    assert q == Drive(Refusing(), Schedule(p.(accepted := [1, 2]), [1, 2], 0));
    RefusingDrive(p.(accepted := [1, 2]));
    assert q.answers[1] == Refused;
  }
}
