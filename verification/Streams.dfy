/** Byte streams as Go's `io` package sees them: a reader that hands out its bytes in
    whatever pieces it likes and then reports a sticky end, and a writer that may accept
    less than it was given, fail, or fail to flush. */
module Streams {

  type byte = x: int | 0 <= x < 256

  /** `Fault` stands for every error value this code never inspects. */
  datatype Err = Nil | EOF | UnexpectedEOF | ShortWrite | Fault(code: nat)

  type End = e: Err | e != Nil witness EOF

  /** Equality seen from outside: a proof by substitution that need not look at elements. */
  ghost predicate Same<T>(a: T, b: T) { a == b }

  function Min(a: nat, b: nat): nat { if a < b then a else b }

  // ---------------------------------------------------------------- readers

  /** What the reader will do on one call: offer at most `size` bytes, and report the end
      together with the last byte when `eager`. An offer of size 0 is an empty read. */
  datatype Offer = Offer(size: nat, eager: bool)

  /** All a reader will ever say: its bytes, an adversarial schedule for its calls, and the
      end. Once the schedule is used up it fills whatever room it is given. */
  datatype Script = Script(data: seq<byte>, plan: seq<Offer>, end: End)

  /** How far a reader has come in its bytes and in its schedule. */
  datatype Cursor = Cursor(pos: nat, turn: nat)

  predicate Within(s: Script, c: Cursor) { c.pos <= |s.data| && c.turn <= |s.plan| }

  function Start(): Cursor { Cursor(0, 0) }

  /** The end has been reported: it will be reported again for ever. */
  function Drained(s: Script): Cursor { Cursor(|s.data|, |s.plan|) }

  function Left(s: Script, c: Cursor): nat
    requires Within(s, c)
  {
    |s.data| - c.pos
  }

  /** Every read that does not report the end makes this smaller. */
  function Weight(s: Script, c: Cursor): nat
    requires Within(s, c)
  {
    |s.data| - c.pos + |s.plan| - c.turn
  }

  datatype Got = Got(n: nat, err: Err, at: Cursor)

  /** One call of `Read` with room for `room` bytes. */
  function ReadResult(s: Script, c: Cursor, room: nat): (g: Got)
    requires Within(s, c) && room > 0
    ensures g.n <= room && Within(s, g.at) && g.at.pos == c.pos + g.n
    ensures g.err == Nil ==> Weight(s, g.at) < Weight(s, c)
    ensures g.err != Nil ==> g.err == s.end && g.at == Drained(s)
  {
    if c.turn == |s.plan| then
      if c.pos == |s.data| then Got(0, s.end, c)
      else
        var n := Min(room, Left(s, c));
        Got(n, Nil, Cursor(c.pos + n, c.turn))
    else
      var o := s.plan[c.turn];
      var n := Min(Min(o.size, room), Left(s, c));
      if o.eager && n == Left(s, c) then Got(n, s.end, Drained(s))
      else Got(n, Nil, Cursor(c.pos + n, c.turn + 1))
  }

  /** The loop of `io.ReadAtLeast` once `n` of `want` bytes are in, before it translates a
      premature EOF. The count does not depend on the schedule: as many bytes as are
      wanted, or all there are. */
  function Collect(s: Script, c: Cursor, n: nat, want: nat): (g: Got)
    requires Within(s, c) && n <= want
    ensures Within(s, g.at) && g.n == n + Min(want - n, Left(s, c)) && g.at.pos == c.pos + g.n - n
    ensures g.err == if g.n == want then Nil else s.end
    ensures g.err != Nil ==> g.at == Drained(s)
    ensures Weight(s, g.at) <= Weight(s, c) && (want > n && g.err == Nil ==> Weight(s, g.at) < Weight(s, c))
    decreases Weight(s, c)
  {
    if n == want then Got(n, Nil, c)
    else
      var r := ReadResult(s, c, want - n);
      if n + r.n == want then Got(want, Nil, r.at)
      else if r.err != Nil then Got(n + r.n, r.err, r.at)
      else Collect(s, r.at, n + r.n, want)
  }

  /** One turn of that loop. */
  lemma CollectStep(s: Script, c: Cursor, n: nat, want: nat)
    requires Within(s, c) && n < want
    ensures var r := ReadResult(s, c, want - n);
            n + r.n <= want &&
            Collect(s, c, n, want) ==
            if r.err == Nil then Collect(s, r.at, n + r.n, want)
            else Got(n + r.n, if n + r.n == want then Nil else r.err, r.at)
  {
  }

  lemma CollectDone(s: Script, c: Cursor, want: nat)
    requires Within(s, c)
    ensures Collect(s, c, want, want) == Got(want, Nil, c)
  {
  }

  /** `io.ReadFull`: nothing wanted is success without a read; EOF only when nothing came;
      `ErrUnexpectedEOF` when EOF cut the data short; any other end is passed on as it is. */
  function FullResult(s: Script, c: Cursor, want: nat): (g: Got)
    requires Within(s, c)
    ensures Within(s, g.at) && g.n == Min(want, Left(s, c)) && g.at.pos == c.pos + g.n
    ensures g.err == Nil <==> Left(s, c) >= want
    ensures Left(s, c) < want ==>
              g.err == (if Left(s, c) > 0 && s.end == EOF then UnexpectedEOF else s.end) &&
              g.at == Drained(s)
    ensures Weight(s, g.at) <= Weight(s, c) && (want > 0 && g.err == Nil ==> Weight(s, g.at) < Weight(s, c))
  {
    var g := Collect(s, c, 0, want);
    if 0 < g.n < want && g.err == EOF then g.(err := UnexpectedEOF) else g
  }

  /** An `io.Reader` whose calls fill part of the caller's buffer. */
  class Source {
    const script: Script
    var at: Cursor

    ghost predicate Valid()
      reads this
    {
      Within(script, at)
    }

    constructor (script: Script)
      ensures this.script == script && at == Start() && Valid()
    {
      this.script, at := script, Start();
    }

    /** `Read(a[lo:hi])`. */
    method Read(a: array<byte>, lo: nat, hi: nat) returns (n: nat, err: Err)
      requires Valid() && lo < hi <= a.Length
      modifies this, a
      ensures Valid() && Got(n, err, at) == ReadResult(script, old(at), hi - lo)
      ensures forall i :: lo <= i < lo + n ==> a[i] == script.data[old(at.pos) + i - lo]
      ensures forall i :: 0 <= i < a.Length && !(lo <= i < lo + n) ==> a[i] == old(a[i])
    {
      var g := ReadResult(script, at, hi - lo);
      forall i | lo <= i < lo + g.n {
        a[i] := script.data[at.pos + i - lo];
      }
      n, err, at := g.n, g.err, g.at;
    }

    /** `io.ReadFull(this, a[0:want])`, with the loop of `io.ReadAtLeast`. */
    method ReadFull(a: array<byte>, want: nat) returns (n: nat, err: Err)
      requires Valid() && want <= a.Length
      modifies this, a
      ensures Valid() && Got(n, err, at) == FullResult(script, old(at), want)
      ensures forall i :: 0 <= i < n ==> a[i] == script.data[old(at.pos) + i]
      ensures forall i :: n <= i < a.Length ==> a[i] == old(a[i])
    {
      hide Collect, ReadResult;
      n, err := 0, Nil;
      while n < want && err == Nil
        invariant Valid() && n <= want && at.pos == old(at.pos) + n
        invariant err != Nil ==> err == script.end && at == Drained(script)
        invariant err == Nil ==> Collect(script, old(at), 0, want) == Collect(script, at, n, want)
        invariant err != Nil ==>
                    Collect(script, old(at), 0, want) == Got(n, if n == want then Nil else err, at)
        invariant forall i :: 0 <= i < n ==> a[i] == script.data[old(at.pos) + i]
        invariant forall i :: n <= i < a.Length ==> a[i] == old(a[i])
        decreases err == Nil, Weight(script, at)
      {
        CollectStep(script, at, n, want);
        var k: nat;
        k, err := Read(a, n, want);
        n := n + k;
      }
      CollectDone(script, at, want);
      if n == want {
        err := Nil;
      } else if n > 0 && err == EOF {
        err := UnexpectedEOF;
      }
    }
  }

  // ---------------------------------------------------------------- writers

  /** One call of `Write`: accept at most `limit` bytes and return `err`. */
  datatype WriteStep = WriteStep(limit: nat, err: Err)

  /** The bytes accepted so far and the fate of the coming writes and flushes; once a list
      is used up the writer is healthy. `flusher` tells whether it is an HTTP response
      writer, the only kind that is flushed. */
  datatype Writer = Writer(taken: seq<byte>, writes: seq<WriteStep>, flushes: seq<Err>, flusher: bool)

  datatype Put = Put(n: nat, err: Err, dst: Writer)

  function WriteResult(dst: Writer, p: seq<byte>): (w: Put)
    ensures w.n <= |p| && w.dst.taken == dst.taken + p[..w.n] && w.dst.flusher == dst.flusher
  {
    if dst.writes == [] then Put(|p|, Nil, dst.(taken := dst.taken + p))
    else
      var n := Min(dst.writes[0].limit, |p|);
      Put(n, dst.writes[0].err, dst.(taken := dst.taken + p[..n], writes := dst.writes[1..]))
  }

  function FlushResult(dst: Writer): (w: Put)
    ensures w.dst.taken == dst.taken && w.dst.flusher == dst.flusher
  {
    if dst.flushes == [] then Put(0, Nil, dst)
    else Put(0, dst.flushes[0], dst.(flushes := dst.flushes[1..]))
  }

  predicate Healthy(dst: Writer) { dst.writes == [] && dst.flushes == [] }

  class Sink {
    var st: Writer
    const halfCloser: bool  // does it offer CloseWrite?
    var closed: bool

    constructor (st: Writer, halfCloser: bool)
      ensures this.st == st && this.halfCloser == halfCloser && !closed
    {
      this.st, this.halfCloser, closed := st, halfCloser, false;
    }

    /** `Write(a[0:len])`. */
    method Write(a: array<byte>, len: nat) returns (n: nat, err: Err)
      requires len <= a.Length
      modifies this`st
      ensures var w := WriteResult(old(st), a[..len]);
              n == w.n && err == w.err && st == w.dst
    {
      var w := WriteResult(st, a[..len]);
      n, err, st := w.n, w.err, w.dst;
    }

    method Flush() returns (err: Err)
      modifies this`st
      ensures var w := FlushResult(old(st)); err == w.err && st == w.dst
    {
      var w := FlushResult(st);
      err, st := w.err, w.dst;
    }

    method CloseWrite()
      requires halfCloser
      modifies this`closed
      ensures closed
    {
      closed := true;
    }
  }
}
