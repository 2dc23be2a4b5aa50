/** The copy loop of a tunnel (`flushingIoCopy`), over one reused buffer, in its three
    modes; and the two streams of `dualStream`. */
module Pump {
  import opened Streams
  import opened Padding

  datatype Mode = NoPadding | AddPadding | RemovePadding

  type Pads = p: seq<byte> | |p| == NUM_FIRST_PADDINGS witness Zeros(NUM_FIRST_PADDINGS)

  // ------------------------------------------------ what one turn of the loop reads

  datatype Turned = Turned(chunk: seq<byte>, err: Err, at: Cursor)

  /** Room the encoder leaves for the payload, between header and padding. */
  function EncodeRoom(pad: byte): nat { BUFFER_SIZE - 2 * HEADER_SIZE - pad }

  function EncodeTurn(s: Script, c: Cursor, pad: byte): Turned
    requires Within(s, c)
  {
    var r := ReadResult(s, c, EncodeRoom(pad));
    var payload := s.data[c.pos..r.at.pos];
    Turned(if r.n == 0 then [] else FrameBytes(Frame(payload, pad)), r.err, r.at)
  }

  /** Where in the source the chunk of one turn lies. */
  datatype Span = Span(lo: nat, hi: nat, err: Err, at: Cursor)

  /** After a cut header the loop still reads as many bytes as the stale buffer asks for;
      nothing can come, so the turn is told here without the buffer. */
  function DecodeSpan(s: Script, c: Cursor): (d: Span)
    requires Within(s, c)
    ensures d.lo <= d.hi <= |s.data| && Within(s, d.at)
  {
    var h := FullResult(s, c, HEADER_SIZE);
    if h.n == 0 then Span(0, 0, h.err, h.at)
    else if h.n < HEADER_SIZE then Span(0, 0, s.end, h.at)
    else
      var b := FullResult(s, h.at, BodyLength(s.data[c.pos], s.data[c.pos + 1]));
      if b.n == 0 then Span(0, 0, b.err, b.at)
      else
        var j := FullResult(s, b.at, s.data[c.pos + 2]);
        Span(h.at.pos, b.at.pos, j.err, j.at)
  }

  function DecodeTurn(s: Script, c: Cursor): Turned
    requires Within(s, c)
  {
    var d := DecodeSpan(s, c);
    Turned(s.data[d.lo..d.hi], d.err, d.at)
  }

  function RawTurn(s: Script, c: Cursor): Turned
    requires Within(s, c)
  {
    var r := ReadResult(s, c, BUFFER_SIZE);
    Turned(s.data[c.pos..r.at.pos], r.err, r.at)
  }

  function Turn(mode: Mode, s: Script, c: Cursor, pads: Pads, slot: nat): (t: Turned)
    requires Within(s, c)
    ensures Within(s, t.at)
    ensures t.err == Nil ==> Weight(s, t.at) < Weight(s, c)
    ensures t.err != Nil ==> t.at == Drained(s)
  {
    if slot >= NUM_FIRST_PADDINGS || mode == NoPadding then RawTurn(s, c)
    else if mode == AddPadding then EncodeTurn(s, c, pads[slot])
    else DecodeTurn(s, c)
  }

  /** The chunks the loop would hand to a writer that never fails, and why it stops. */
  datatype Feed = Feed(chunks: seq<seq<byte>>, fin: Err)

  function Chunks(mode: Mode, s: Script, c: Cursor, pads: Pads, slot: nat): Feed
    requires Within(s, c)
    decreases Weight(s, c)
  {
    var t := Turn(mode, s, c, pads, slot);
    var here := if t.chunk == [] then [] else [t.chunk];
    if t.err != Nil then Feed(here, t.err)
    else
      var f := Chunks(mode, s, t.at, pads, slot + 1);
      Feed(here + f.chunks, f.fin)
  }

  // ------------------------------------------------ what the writer makes of it

  datatype Done = Done(dst: Writer, err: Err)

  /** One chunk through the writer: the write error comes first, then a flush error, then
      a short write nobody owned up to. */
  function Deliver1(dst: Writer, c: seq<byte>): Done {
    var w := WriteResult(dst, c);
    if w.err != Nil then Done(w.dst, w.err)
    else
      var f := if w.dst.flusher then FlushResult(w.dst) else Put(0, Nil, w.dst);
      if f.err != Nil then Done(f.dst, f.err)
      else Done(f.dst, if w.n != |c| then ShortWrite else Nil)
  }

  function Deliver(dst: Writer, f: Feed): Done
    decreases |f.chunks|
  {
    if f.chunks == [] then Done(dst, if f.fin == EOF then Nil else f.fin)
    else
      var d := Deliver1(dst, f.chunks[0]);
      if d.err != Nil then d else Deliver(d.dst, Feed(f.chunks[1..], f.fin))
  }

  /** The whole copy as a function of the two ends and the padding sizes. Neither the
      buffer nor what an earlier tunnel left in it appears here. */
  function Copied(dst: Writer, s: Script, c: Cursor, mode: Mode, pads: Pads): Done
    requires Within(s, c)
  {
    Deliver(dst, Chunks(mode, s, c, pads, 0))
  }

  // ------------------------------------------------ the loop itself

  /** The bytes reported to the `onWrite` callback, call by call. */
  class Tally {
    var calls: seq<nat>

    constructor ()
      ensures calls == []
    {
      calls := [];
    }

    method OnWrite(n: nat)
      modifies this
      ensures calls == old(calls) + [n]
    {
      calls := calls + [n];
    }
  }

  function Sum(ns: seq<nat>): nat {
    if ns == [] then 0 else Sum(ns[..|ns| - 1]) + ns[|ns| - 1]
  }

  lemma SumSnoc(ns: seq<nat>, n: nat)
    ensures Sum(ns + [n]) == Sum(ns) + n
  {
    assert (ns + [n])[..|ns|] == ns;
  }

  lemma DrainedTurn(mode: Mode, s: Script, pads: Pads, slot: nat)
    ensures Chunks(mode, s, Drained(s), pads, slot) == Feed([], s.end)
  {
  }

  /** What the buffer and the source are after the reading half of the loop body. A turn
      that ends the stream may end it one turn late, with nothing in between. */
  twostate predicate Filled(t: Turned, src: Source, buf: array<byte>, nr: nat, er: Err)
    reads src, buf
  {
    && nr <= buf.Length && Same(buf[..nr], t.chunk) && src.at == t.at
    && (er == t.err || (er == Nil && nr == 0 && t.at == Drained(src.script) && t.err == src.script.end))
  }

  /** Turns `nr` payload bytes that lie behind room for a header into a frame. */
  method PutFrame(buf: array<byte>, nr: nat, paddingSize: byte, ghost payload: seq<byte>)
    requires buf.Length == BUFFER_SIZE && nr == |payload|
    requires Fits(Frame(payload, paddingSize))
    requires forall k :: 3 <= k < 3 + nr ==> buf[k] == payload[k - 3]
    modifies buf
    ensures buf[..nr + 3 + paddingSize] == FrameBytes(Frame(payload, paddingSize))
  {
    buf[0] := nr / 256;
    buf[1] := nr % 256;
    buf[2] := paddingSize;
    var i := 0;
    while i < paddingSize
      invariant i <= paddingSize
      invariant buf[0] == nr / 256 && buf[1] == nr % 256 && buf[2] == paddingSize
      invariant forall k :: 3 <= k < 3 + nr ==> buf[k] == payload[k - 3]
      invariant forall k :: 3 + nr <= k < 3 + nr + i ==> buf[k] == 0
    {
      buf[3 + nr + i] := 0;
      i := i + 1;
    }
  }

  method FillFrame(src: Source, buf: array<byte>, paddingSize: byte) returns (nr: nat, er: Err)
    requires src.Valid() && buf.Length == BUFFER_SIZE
    modifies src, buf
    ensures src.Valid() && Filled(EncodeTurn(src.script, old(src.at), paddingSize), src, buf, nr, er)
    ensures er == Nil ==> Weight(src.script, src.at) < Weight(src.script, old(src.at))
  {
    hide FrameBytes, ReadResult;
    ghost var s, pos := src.script, src.at.pos;
    var maxRead := 65536 - 3 - paddingSize;
    nr, er := src.Read(buf, 3, maxRead);
    if nr > 0 {
      PutFrame(buf, nr, paddingSize, s.data[pos..src.at.pos]);
      nr := nr + 3 + paddingSize;
    } else {
      assert buf[..nr] == [];
    }
  }

  method FillUnframed(src: Source, buf: array<byte>) returns (nr: nat, er: Err)
    requires src.Valid() && buf.Length == BUFFER_SIZE
    modifies src, buf
    ensures src.Valid() && Filled(DecodeTurn(src.script, old(src.at)), src, buf, nr, er)
    ensures er == Nil ==> Weight(src.script, src.at) < Weight(src.script, old(src.at))
  {
    hide FullResult;
    ghost var s, c := src.script, src.at;
    ghost var t := DecodeSpan(s, c);
    nr, er := src.ReadFull(buf, 3);
    if nr > 0 {
      ghost var whole := nr == 3;
      nr := buf[0] as int * 256 + buf[1] as int;
      var paddingSize := buf[2];
      ghost var want := nr;
      assert whole ==> want == BodyLength(s.data[c.pos], s.data[c.pos + 1]) && paddingSize == s.data[c.pos + 2];
      nr, er := src.ReadFull(buf, nr);
      assert !whole ==> nr == 0 && t == Span(0, 0, s.end, Drained(s));
      if nr > 0 {
        assert s.data[t.lo..t.hi] == buf[..nr];
        var junk := new byte[256](_ => 0);
        var skipped: nat;
        skipped, er := src.ReadFull(junk, paddingSize);
        return;
      }
    }
    assert buf[..nr] == [] == s.data[t.lo..t.hi];
  }

  method Fill(src: Source, buf: array<byte>, mode: Mode, pads: Pads, slot: nat) returns (nr: nat, er: Err)
    requires src.Valid() && buf.Length == BUFFER_SIZE
    modifies src, buf
    ensures src.Valid() && Filled(Turn(mode, src.script, old(src.at), pads, slot), src, buf, nr, er)
    ensures er == Nil ==> Weight(src.script, src.at) < Weight(src.script, old(src.at))
  {
    if mode == AddPadding && slot < NUM_FIRST_PADDINGS {
      nr, er := FillFrame(src, buf, pads[slot]);
    } else if mode == RemovePadding && slot < NUM_FIRST_PADDINGS {
      nr, er := FillUnframed(src, buf);
    } else {
      nr, er := src.Read(buf, 0, BUFFER_SIZE);
      assert buf[..nr] == src.script.data[old(src.at.pos)..src.at.pos];
    }
  }

  /** One chunk that went through moves the delivery on by one turn. */
  lemma DeliverTurn(dst: Writer, mode: Mode, s: Script, c: Cursor, pads: Pads, slot: nat)
    requires Within(s, c)
    ensures var t := Turn(mode, s, c, pads, slot);
            var rest := if t.err == Nil then Chunks(mode, s, t.at, pads, slot + 1) else Feed([], t.err);
            var d := if t.chunk == [] then Done(dst, Nil) else Deliver1(dst, t.chunk);
            Same(Deliver(dst, Chunks(mode, s, c, pads, slot)), if d.err != Nil then d else Deliver(d.dst, rest))
  {
    var t := Turn(mode, s, c, pads, slot);
    var rest := if t.err == Nil then Chunks(mode, s, t.at, pads, slot + 1) else Feed([], t.err);
    var f := Chunks(mode, s, c, pads, slot);
    if t.chunk == [] {
      assert f.chunks == rest.chunks;
    } else {
      assert f.chunks == [t.chunk] + rest.chunks;
      assert f.chunks[1..] == rest.chunks;
    }
  }

  /** The writing half of the loop body: write, report, flush, and look for a short write. */
  method Emit(dst: Sink, buf: array<byte>, nr: nat, onWrite: Tally) returns (nw: nat, err: Err)
    requires nr <= buf.Length
    modifies dst`st, onWrite
    ensures Done(dst.st, err) == Deliver1(old(dst.st), buf[..nr])
    ensures old(dst.st.taken) <= dst.st.taken && nw == |dst.st.taken| - |old(dst.st.taken)|
    ensures onWrite.calls == if nw > 0 then old(onWrite.calls) + [nw] else old(onWrite.calls)
  {
    nw, err := dst.Write(buf, nr);
    if nw > 0 {
      onWrite.OnWrite(nw);
    }
    if err != Nil {
      return;
    }
    if dst.st.flusher {
      err := dst.Flush();
      if err != Nil {
        return;
      }
    }
    if nr != nw {
      err := ShortWrite;
    }
  }

  /** `flushingIoCopy`. The result is `Copied`, whatever the buffer held before; `written`
      and the callbacks count exactly the bytes the writer accepted. */
  method FlushingIoCopy(dst: Sink, src: Source, buf: array<byte>, mode: Mode, pads: Pads, onWrite: Tally)
    returns (written: nat, err: Err)
    requires src.Valid() && buf.Length == BUFFER_SIZE
    modifies dst`st, src, buf, onWrite
    ensures src.Valid()
    ensures Done(dst.st, err) == Copied(old(dst.st), src.script, old(src.at), mode, pads)
    ensures written == |dst.st.taken| - |old(dst.st.taken)|
    ensures Sum(onWrite.calls) == Sum(old(onWrite.calls)) + written
    ensures old(onWrite.calls) <= onWrite.calls
    ensures forall i :: |old(onWrite.calls)| <= i < |onWrite.calls| ==> onWrite.calls[i] > 0
  {
    hide Deliver1, Turn;
    ghost var goal := Copied(dst.st, src.script, src.at, mode, pads);
    var slot: nat := 0;
    written, err := 0, Nil;
    while true
      invariant src.Valid() && err == Nil
      invariant Same(Deliver(dst.st, Chunks(mode, src.script, src.at, pads, slot)), goal)
      invariant written == |dst.st.taken| - |old(dst.st.taken)|
      invariant Sum(onWrite.calls) == Sum(old(onWrite.calls)) + written
      invariant old(onWrite.calls) <= onWrite.calls
      invariant forall i :: |old(onWrite.calls)| <= i < |onWrite.calls| ==> onWrite.calls[i] > 0
      decreases Weight(src.script, src.at)
    {
      DeliverTurn(dst.st, mode, src.script, src.at, pads, slot);
      var nr, er := Fill(src, buf, mode, pads, slot);
      slot := slot + 1;
      DrainedTurn(mode, src.script, pads, slot);
      if nr > 0 {
        ghost var calls := onWrite.calls;
        var nw, ew := Emit(dst, buf, nr, onWrite);
        written := written + nw;
        SumSnoc(calls, nw);
        if ew != Nil {
          err := ew;
          break;
        }
      }
      if er != Nil {
        if er != EOF {
          err := er;
        }
        break;
      }
    }
  }
}
