/** A tunnel: two streams that take their buffer from one pool and copy in opposite
    directions (`dualStream`). */
module Tunnel {
  import opened Streams
  import opened Padding
  import opened Pump

  /** `bufferPool`: buffers come back as the last tunnel left them. No buffer is handed out
      while it is in use. */
  class BufferPool {
    var free: seq<array<byte>>

    ghost predicate Valid()
      reads this
    {
      && (forall i :: 0 <= i < |free| ==> free[i].Length == BUFFER_SIZE)
      && (forall i, j :: 0 <= i < j < |free| ==> free[i] != free[j])
    }

    constructor ()
      ensures Valid() && free == []
    {
      free := [];
    }

    method Remove(i: nat)
      requires Valid() && i < |free|
      modifies this
      ensures Valid() && old(free[i]) !in free && |free| == |old(free)| - 1
      ensures forall b :: b in free ==> b in old(free)
    {
      free := free[..i] + free[i + 1..];
    }

    /** Any buffer of the pool, or a new one; the pool may have lost some in the meantime. */
    method Get() returns (buf: array<byte>)
      requires Valid()
      modifies this
      ensures Valid() && buf.Length == BUFFER_SIZE && buf !in free
      ensures fresh(buf) || buf in old(free)
      ensures forall b :: b in free ==> b in old(free)
    {
      var lost: nat := *;
      while free != [] && lost > 0
        invariant Valid() && forall b :: b in free ==> b in old(free)
        decreases |free|
      {
        Remove(|free| - 1);
        lost := lost - 1;
      }
      var i: int := *;
      if 0 <= i < |free| {
        buf := free[i];
        Remove(i);
      } else {
        buf := new byte[BUFFER_SIZE](_ => 0);
      }
    }

    method Put(buf: array<byte>)
      requires Valid() && buf.Length == BUFFER_SIZE && buf !in free
      modifies this
      ensures Valid() && free == old(free) + [buf]
    {
      free := free + [buf];
    }
  }

  /** The local function `stream`: copy, give the buffer back, close the far side. */
  method Stream(w: Sink, r: Source, mode: Mode, pads: Pads, pool: BufferPool, onWrite: Tally)
    returns (err: Err)
    requires r.Valid() && pool.Valid()
    modifies w, r, pool, pool.free, onWrite
    ensures r.Valid() && pool.Valid() && fresh((set b | b in pool.free) - old(set b | b in pool.free))
    ensures Done(w.st, err) == Copied(old(w.st), r.script, old(r.at), mode, pads)
    ensures w.closed == (old(w.closed) || w.halfCloser)
    ensures Sum(onWrite.calls) - Sum(old(onWrite.calls)) == |w.st.taken| - |old(w.st.taken)|
  {
    var buf := pool.Get();
    var written;
    written, err := FlushingIoCopy(w, r, buf, mode, pads, onWrite);
    pool.Put(buf);
    if w.halfCloser {
      w.CloseWrite();
    }
  }

  /** `dualStream`. The two streams share no reader and no writer; here one runs after the
      other and so finds the buffer the first has filled. With padding the bytes for the
      client are framed and the bytes from the client unframed; the error returned is that
      of the stream towards the client. */
  method DualStream(toTarget: Sink, fromTarget: Source, fromClient: Source, toClient: Sink, padding: bool,
        pads: Pads, pool: BufferPool, up: Tally, down: Tally)
    returns (err: Err)
    requires fromTarget.Valid() && fromClient.Valid() && pool.Valid()
    requires toTarget != toClient && fromTarget != fromClient && up != down
    modifies toTarget, fromTarget, fromClient, toClient, pool, pool.free, up, down
    ensures var add, remove := if padding then AddPadding else NoPadding, if padding then RemovePadding else NoPadding;
            Done(toClient.st, err) == Copied(old(toClient.st), fromTarget.script, old(fromTarget.at), add, pads) &&
            toTarget.st == Copied(old(toTarget.st), fromClient.script, old(fromClient.at), remove, pads).dst
    ensures Sum(up.calls) - Sum(old(up.calls)) == |toTarget.st.taken| - |old(toTarget.st.taken)|
    ensures Sum(down.calls) - Sum(old(down.calls)) == |toClient.st.taken| - |old(toClient.st.taken)|
    ensures toClient.closed == (old(toClient.closed) || toClient.halfCloser)
    ensures toTarget.closed == (old(toTarget.closed) || toTarget.halfCloser)
  {
    var ignored;
    if padding {
      ignored := Stream(toTarget, fromClient, RemovePadding, pads, pool, up);
      err := Stream(toClient, fromTarget, AddPadding, pads, pool, down);
    } else {
      ignored := Stream(toTarget, fromClient, NoPadding, pads, pool, up);
      err := Stream(toClient, fromTarget, NoPadding, pads, pool, down);
    }
  }

  /** Two copies of the same source to equal writers agree in what they write and return,
      whatever their buffers held before: nothing of an earlier tunnel gets through. */
  method TwoRuns(w1: Sink, w2: Sink, r1: Source, r2: Source, buf1: array<byte>, buf2: array<byte>,
        mode: Mode, pads: Pads, t1: Tally, t2: Tally)
    returns (n1: nat, e1: Err, n2: nat, e2: Err)
    requires r1.Valid() && r2.Valid() && w1 != w2 && r1 != r2 && t1 != t2
    requires buf1.Length == buf2.Length == BUFFER_SIZE
    requires w1.st == w2.st && r1.script == r2.script && r1.at == r2.at
    modifies w1, w2, r1, r2, buf1, buf2, t1, t2
    ensures w1.st == w2.st && n1 == n2 && e1 == e2
  {
    n1, e1 := FlushingIoCopy(w1, r1, buf1, mode, pads, t1);
    n2, e2 := FlushingIoCopy(w2, r2, buf2, mode, pads, t2);
  }
}
