/** The write side of the Windows TCP stream (src/sys/windows/tcp.rs) and the pool its buffers come
    from (src/sys/windows/buffer_pool.rs). */
module TcpWrite {
  import opened TcpPipe

  /** `BufferPool`: returned buffers are kept, emptied, up to the capacity. */
  class BufferPool {
    const capacity: nat
    var pool: seq<seq<byte>>

    ghost predicate Valid()
      reads this
    {
      |pool| <= capacity && forall i | 0 <= i < |pool| :: pool[i] == []
    }

    constructor (capacity: nat)
      ensures Valid() && pool == [] && this.capacity == capacity
    {
      this.capacity := capacity;
      pool := [];
    }

    /** A buffer from the pool, or a new one: empty either way. */
    method Get() returns (buf: seq<byte>)
      requires Valid()
      modifies this`pool
      ensures Valid() && buf == []
      ensures |pool| == if |old(pool)| == 0 then 0 else |old(pool)| - 1
    {
      if |pool| == 0 {
        return [];
      }
      buf := pool[|pool| - 1];
      pool := pool[..|pool| - 1];
    }

    method Put(buf: seq<byte>)
      requires Valid()
      modifies this`pool
      ensures Valid()
      ensures pool == if |old(pool)| < capacity then old(pool) + [[]] else old(pool)
    {
      if |pool| < capacity {
        pool := pool + [buf[..0]];
      }
    }
  }

  datatype Result = Ok(len: nat) | WouldBlock

  /** `os` is the system the stream runs on. */
  class Stream {
    const pool: BufferPool
    const os: System
    var write: WriteState
    var registered: bool
    var instantNotify: bool
    var writable: bool

    ghost var accepted: seq<byte>
    ghost var answers: seq<Outcome>
    ghost var sent: seq<byte>
    ghost var inFlight: seq<byte>

    /** How often the system has been asked. */
    var asked: nat

    ghost function Abs(): Pipe
      reads this
    {
      Pipe(write, writable, registered, instantNotify, accepted, answers, sent, inFlight)
    }

    ghost predicate Valid()
      reads this, pool
    {
      pool.Valid() && Honest(os) && asked == |answers| && Settled(Abs())
    }

    constructor (pool: BufferPool, os: System)
      requires pool.Valid() && Honest(os)
      ensures Valid() && Abs() == New() && this.pool == pool && this.os == os
    {
      this.pool, this.os := pool, os;
      write, registered, instantNotify, writable := Empty, false, false, false;
      accepted, answers, sent, inFlight, asked := [], [], [], [], 0;
    }

    /** An idle stream is writable at once. */
    method Register(writableInterest: bool, granted: bool) returns (ok: bool)
      requires Valid()
      modifies this`registered, this`instantNotify, this`writable
      ensures Valid() && ok == granted
      ensures Abs() == Registered(old(Abs()), writableInterest, granted)
    {
      registered := true;
      if !granted {
        return false;
      }
      instantNotify := true;
      if writableInterest && write.Empty? {
        writable := true;
      }
      ok := true;
    }

    /** `write_overlapped` */
    method WriteOverlapped(data: seq<byte>) returns (o: Outcome)
      requires Honest(os) && asked == |answers|
      modifies this`asked, this`answers, this`sent, this`inFlight
      ensures o == os(|old(answers)|, |data|) && Plausible(o, |data|)
      ensures asked == |answers| && Abs() == Handed(old(Abs()), o, data)
    {
      o := os(asked, |data|);
      assert Plausible(o, |data|);
      asked := asked + 1;
      answers := answers + [o];
      if o.Transferred? && instantNotify {
        sent := sent + data[..o.n];
      } else if !o.Refused? {
        inFlight := data;
      }
    }

    /** Accepts everything or nothing: it refuses while a write is under way, after an error, and
        before the stream is registered. */
    method WriteV(bufs: seq<seq<byte>>) returns (r: Result)
      requires Valid()
      modifies this`write, this`writable, this`accepted, this`asked, this`answers, this`sent, this`inFlight, pool
      ensures Valid() && Abs() == Written(os, old(Abs()), bufs)
      ensures r == if Accepts(old(Abs())) then Ok(|Concat(bufs)|) else WouldBlock
      ensures accepted == old(accepted) + if r.Ok? then Concat(bufs) else []
    {
      if !write.Empty? {
        return WouldBlock;
      }
      if !registered {
        return WouldBlock;
      }
      if |bufs| == 0 {
        return Ok(0);
      }
      ghost var was := Abs();
      hide Drive, Settled, Honest;
      WrittenSettles(os, was, bufs);
      var intermediate := Gather(bufs);
      accepted := accepted + intermediate;
      ghost var answers := DriveObeys(os, Schedule(Abs(), intermediate, 0));
      ScheduleWrite(intermediate, 0);
      r := Ok(|intermediate|);
    }

    /** All buffers in one, from the pool. */
    method Gather(bufs: seq<seq<byte>>) returns (buf: seq<byte>)
      requires pool.Valid()
      modifies pool
      ensures pool.Valid() && buf == Concat(bufs)
    {
      buf := pool.Get();
      for i := 0 to |bufs|
        invariant pool.Valid() && buf + Concat(bufs[i..]) == Concat(bufs)
      {
        assert Concat(bufs[i..]) == bufs[i] + Concat(bufs[i + 1..]);
        buf := buf + bufs[i];
      }
    }

    /** Writes until the buffer is done, or the system keeps the rest, or an error. */
    method ScheduleWrite(buf: seq<byte>, start: nat)
      requires pool.Valid() && Honest(os) && asked == |answers| && start <= |buf|
      modifies this`write, this`writable, this`asked, this`answers, this`sent, this`inFlight, pool
      ensures pool.Valid() && asked == |answers|
      ensures Abs() == Drive(os, Schedule(old(Abs()), buf, start))
    {
      hide Drive, Honest, Handed;
      ghost var goal := Drive(os, Schedule(Abs(), buf, start));
      writable := false;
      var pos := start;
      while true
        invariant pool.Valid() && asked == |answers| && pos <= |buf|
        invariant Drive(os, Schedule(Abs(), buf, pos)) == goal && !writable
        decreases |buf| - pos
      {
        DriveUnfolds(os, Abs(), buf, pos);
        var ret := WriteOverlapped(buf[pos..]);
        if ret.Transferred? && instantNotify {
          if ret.n == |buf| - pos {
            writable := true;
            write := Empty;
            return;
          }
          pos := pos + ret.n;
        } else if !ret.Refused? {
          write := Pending(buf, pos);
          return;
        } else {
          write := Failed;
          writable := true;
          pool.Put(buf);
          return;
        }
      }
    }

    /** A completion reports that the system sent the first `n` of the bytes in flight. */
    method WriteDone(n: nat)
      requires Valid() && Completes(Abs(), n)
      modifies this`write, this`writable, this`asked, this`answers, this`sent, this`inFlight, pool
      ensures Valid() && Abs() == Completed(os, old(Abs()), n)
    {
      hide Drive, Settled, Honest;
      CompletedSettles(os, Abs(), n);
      sent := sent + inFlight[..n];

      var buf, pos := write.buf, write.pos;
      write := Empty;
      var newPos := pos + n;
      if newPos == |buf| {
        writable := true;
      } else {
        ScheduleWrite(buf, newPos);
      }
    }
  }
}
