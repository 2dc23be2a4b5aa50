/** What the copy loop as a function (`Pump.Copied`) means: the padding codec end to end,
    over every read schedule, every choice of padding, and every fault of the writers. */
module TunnelProofs {
  import opened Streams
  import opened Padding
  import opened Pump

  function Concat(cs: seq<seq<byte>>): seq<byte> {
    if cs == [] then [] else cs[0] + Concat(cs[1..])
  }

  lemma ConcatCons(c: seq<byte>, cs: seq<seq<byte>>)
    ensures Concat((if c == [] then [] else [c]) + cs) == c + Concat(cs)
  {
    if c == [] {
      assert [] + cs == cs;
    } else {
      assert ([c] + cs)[1..] == cs;
    }
  }

  function Rest(s: Script, c: Cursor): seq<byte>
    requires Within(s, c)
  {
    s.data[c.pos..]
  }

  /** Everything the loop would hand over, chunk after chunk, and why it stops. */
  function Produced(mode: Mode, s: Script, c: Cursor, pads: Pads, slot: nat): Plain
    requires Within(s, c)
    decreases Weight(s, c)
  {
    var t := Turn(mode, s, c, pads, slot);
    if t.err != Nil then Plain(t.chunk, t.err)
    else Prepend(t.chunk, Produced(mode, s, t.at, pads, slot + 1))
  }

  lemma {:induction false} ProducedIsConcat(mode: Mode, s: Script, c: Cursor, pads: Pads, slot: nat)
    requires Within(s, c)
    ensures var f := Chunks(mode, s, c, pads, slot);
            Same(Produced(mode, s, c, pads, slot), Plain(Concat(f.chunks), f.fin))
    decreases Weight(s, c)
  {
    var t := Turn(mode, s, c, pads, slot);
    if t.err != Nil {
      ConcatCons(t.chunk, []);
      var here := if t.chunk == [] then [] else [t.chunk];
      assert here + [] == here && t.chunk + [] == t.chunk;
    } else {
      ProducedIsConcat(mode, s, t.at, pads, slot + 1);
      ConcatCons(t.chunk, Chunks(mode, s, t.at, pads, slot + 1).chunks);
    }
  }

  lemma ProducedDrained(mode: Mode, s: Script, pads: Pads, slot: nat)
    ensures Same(Produced(mode, s, Drained(s), pads, slot), Plain([], s.end))
  {
  }

  // ------------------------------------------------ raw copying

  /** Raw copying hands on every byte, however the reads fall. */
  lemma {:induction false} RawProduces(mode: Mode, s: Script, c: Cursor, pads: Pads, slot: nat)
    requires Within(s, c) && (mode == NoPadding || slot >= NUM_FIRST_PADDINGS)
    ensures Produced(mode, s, c, pads, slot) == Plain(Rest(s, c), s.end)
    decreases Weight(s, c)
  {
    var t := RawTurn(s, c);
    if t.err == Nil {
      RawProduces(mode, s, t.at, pads, slot + 1);
    }
    assert Rest(s, c) == t.chunk + Rest(s, t.at);
  }

  // ------------------------------------------------ the decoder

  /** One turn of the decoder reads exactly the first frame of what is left. */
  ghost predicate ReadsAs(s: Script, t: Turned, h: Head)
    requires Within(s, t.at)
  {
    if h.Whole? then t.err == Nil && Same(t.chunk, h.payload) && Same(Rest(s, t.at), h.rest)
    else t.at == Drained(s) && Same(t.chunk, h.plain.out) &&
         (t.err == h.plain.err || (t.err == Nil && h.plain.err == s.end))
  }

  lemma SpanOfBody(s: Script, c: Cursor, n: nat, p: byte)
    requires Within(s, c) && Left(s, c) >= HEADER_SIZE
    requires n == BodyLength(s.data[c.pos], s.data[c.pos + 1]) && p == s.data[c.pos + 2]
    ensures var d, body, left := DecodeSpan(s, c), c.pos + HEADER_SIZE, Left(s, c) - HEADER_SIZE;
            if n == 0 then d.lo == d.hi && d.err == Nil && d.at.pos == body
            else if left < n then
              d.at == Drained(s) && (d.err == Nil || d.err == s.end) &&
              d.hi - d.lo == left && (left > 0 ==> d.lo == body)
            else if left < n + p then
              d.at == Drained(s) && d.lo == body && d.hi == body + n &&
              d.err == if left > n && s.end == EOF then UnexpectedEOF else s.end
            else d.err == Nil && d.lo == body && d.hi == body + n && d.at.pos == body + n + p
  {
  }

  lemma SpanOfCutHeader(s: Script, c: Cursor)
    requires Within(s, c) && Left(s, c) < HEADER_SIZE
    ensures DecodeSpan(s, c) == Span(0, 0, s.end, Drained(s))
  {
  }

  lemma RestSlice(s: Script, c: Cursor, i: nat, j: nat)
    requires Within(s, c) && i <= j <= Left(s, c)
    ensures Rest(s, c)[i..j] == s.data[c.pos + i..c.pos + j] && Rest(s, c)[j..] == s.data[c.pos + j..]
  {
  }

  lemma TurnReadsFirstFrame(s: Script, c: Cursor)
    requires Within(s, c)
    ensures ReadsAs(s, DecodeTurn(s, c), FirstFrame(Rest(s, c), s.end))
  {
    hide DecodeSpan;
    if Left(s, c) < HEADER_SIZE {
      SpanOfCutHeader(s, c);
    }
    var r, body := Rest(s, c), c.pos + HEADER_SIZE;
    if |r| >= HEADER_SIZE {
      var n, p := BodyLength(r[0], r[1]), r[2];
      SpanOfBody(s, c, n, p);
      var d := DecodeSpan(s, c);
      assert |r| < HEADER_SIZE + n ==> r[HEADER_SIZE..] == s.data[d.lo..d.hi];
      assert n == 0 ==> r[HEADER_SIZE..] == Rest(s, d.at);
      if |r| >= HEADER_SIZE + n {
        RestSlice(s, c, HEADER_SIZE, HEADER_SIZE + n);
        if |r| >= HEADER_SIZE + n + p {
          RestSlice(s, c, HEADER_SIZE, HEADER_SIZE + n + p);
        }
      }
    }
  }

  lemma DecoderCut(s: Script, c: Cursor, pads: Pads, slot: nat)
    requires Within(s, c) && slot < NUM_FIRST_PADDINGS
    requires FirstFrame(Rest(s, c), s.end).Cut?
    ensures Same(Produced(RemovePadding, s, c, pads, slot), FirstFrame(Rest(s, c), s.end).plain)
  {
    var t := DecodeTurn(s, c);
    TurnReadsFirstFrame(s, c);
    assert t == Turn(RemovePadding, s, c, pads, slot);
    assert t.chunk + [] == t.chunk;
    ProducedDrained(RemovePadding, s, pads, slot + 1);
  }

  lemma DecoderStep(s: Script, c: Cursor, pads: Pads, slot: nat)
    requires Within(s, c) && slot < NUM_FIRST_PADDINGS
    requires FirstFrame(Rest(s, c), s.end).Whole?
    ensures var h, at := FirstFrame(Rest(s, c), s.end), DecodeTurn(s, c).at;
            Weight(s, at) < Weight(s, c) && Same(h.rest, Rest(s, at)) &&
            Same(Produced(RemovePadding, s, c, pads, slot),
                 Prepend(h.payload, Produced(RemovePadding, s, at, pads, slot + 1)))
  {
    TurnReadsFirstFrame(s, c);
    assert DecodeTurn(s, c) == Turn(RemovePadding, s, c, pads, slot);
  }

  lemma DecodeWhole(r: seq<byte>, rest: seq<byte>, left: nat, end: End)
    requires FirstFrame(r, end).Whole? && Same(FirstFrame(r, end).rest, rest) && left > 0
    ensures Same(Decode(r, left, end), Prepend(FirstFrame(r, end).payload, Decode(rest, left - 1, end)))
  {
  }

  lemma DecoderTurn(s: Script, c: Cursor, pads: Pads, slot: nat, left: nat)
    returns (more: bool, p: seq<byte>, at: Cursor)
    requires Within(s, c) && slot < NUM_FIRST_PADDINGS && left > 0
    ensures Within(s, at)
    ensures more ==>
              Weight(s, at) < Weight(s, c) &&
              Produced(RemovePadding, s, c, pads, slot) == Prepend(p, Produced(RemovePadding, s, at, pads, slot + 1)) &&
              Decode(Rest(s, c), left, s.end) == Prepend(p, Decode(Rest(s, at), left - 1, s.end))
    ensures !more ==> Produced(RemovePadding, s, c, pads, slot) == Decode(Rest(s, c), left, s.end)
  {
    var h := FirstFrame(Rest(s, c), s.end);
    more, at := h.Whole?, DecodeTurn(s, c).at;
    if more {
      p := h.payload;
      DecoderStep(s, c, pads, slot);
      DecodeWhole(Rest(s, c), Rest(s, at), left, s.end);
    } else {
      p := [];
      DecoderCut(s, c, pads, slot);
    }
  }

  lemma DecoderRaw(s: Script, c: Cursor, pads: Pads)
    requires Within(s, c)
    ensures Produced(RemovePadding, s, c, pads, NUM_FIRST_PADDINGS) == Decode(Rest(s, c), 0, s.end)
  {
    RawProduces(RemovePadding, s, c, pads, NUM_FIRST_PADDINGS);
    hide Produced, Rest;
  }

  /** The decoder does not see how its input was cut into reads. */
  lemma {:induction false} DecoderProduces(s: Script, c: Cursor, pads: Pads, slot: nat, left: nat)
    requires Within(s, c) && slot + left == NUM_FIRST_PADDINGS
    ensures Produced(RemovePadding, s, c, pads, slot) == Decode(Rest(s, c), left, s.end)
    decreases Weight(s, c)
  {
    hide *;
    if left == 0 {
      DecoderRaw(s, c, pads);
    } else {
      var more, p, at := DecoderTurn(s, c, pads, slot, left);
      if more {
        DecoderProduces(s, at, pads, slot + 1, left - 1);
      }
    }
  }

  // ------------------------------------------------ the encoder

  /** The frames the encoder makes of its first reads: one for each read that brings data,
      while a read that brings none still uses up its turn. */
  function Frames(s: Script, c: Cursor, pads: Pads, slot: nat): seq<Frame>
    requires Within(s, c)
    decreases NUM_FIRST_PADDINGS - slot
  {
    if slot >= NUM_FIRST_PADDINGS then []
    else
      var r := ReadResult(s, c, EncodeRoom(pads[slot]));
      var later := if r.err != Nil then [] else Frames(s, r.at, pads, slot + 1);
      if r.n == 0 then later else [Frame(s.data[c.pos..r.at.pos], pads[slot])] + later
  }

  /** What is left to be sent raw after them. */
  function Tail(s: Script, c: Cursor, pads: Pads, slot: nat): seq<byte>
    requires Within(s, c)
    decreases NUM_FIRST_PADDINGS - slot
  {
    if slot >= NUM_FIRST_PADDINGS then Rest(s, c)
    else
      var r := ReadResult(s, c, EncodeRoom(pads[slot]));
      if r.err != Nil then [] else Tail(s, r.at, pads, slot + 1)
  }

  /** Does each of the first reads bring data, until the end is reported? */
  predicate NoEmptyRead(s: Script, c: Cursor, pads: Pads, slot: nat)
    requires Within(s, c)
    decreases NUM_FIRST_PADDINGS - slot
  {
    slot >= NUM_FIRST_PADDINGS ||
    var r := ReadResult(s, c, EncodeRoom(pads[slot]));
    r.err != Nil || (r.n > 0 && NoEmptyRead(s, r.at, pads, slot + 1))
  }

  lemma {:induction false} FramesFit(s: Script, c: Cursor, pads: Pads, slot: nat)
    requires Within(s, c) && slot <= NUM_FIRST_PADDINGS
    ensures AllFit(Frames(s, c, pads, slot)) && |Frames(s, c, pads, slot)| <= NUM_FIRST_PADDINGS - slot
    ensures NoEmptyRead(s, c, pads, slot) ==>
              Framed(Frames(s, c, pads, slot), Tail(s, c, pads, slot), NUM_FIRST_PADDINGS - slot)
    decreases NUM_FIRST_PADDINGS - slot
  {
    hide ReadResult;
    if slot < NUM_FIRST_PADDINGS {
      var r := ReadResult(s, c, EncodeRoom(pads[slot]));
      if r.err == Nil {
        FramesFit(s, r.at, pads, slot + 1);
      }
    }
  }

  lemma PayloadCons(f: Frame, fs: seq<Frame>)
    ensures Payload([f] + fs) == f.payload + Payload(fs)
  {
    assert ([f] + fs)[1..] == fs;
  }

  lemma RestDrained(s: Script)
    ensures Rest(s, Drained(s)) == []
  {
  }

  lemma JoinRest(s: Script, c: Cursor, at: Cursor, p: seq<byte>, tail: seq<byte>)
    requires Within(s, c) && Within(s, at) && c.pos <= at.pos && p + tail == Rest(s, at)
    ensures s.data[c.pos..at.pos] + p + tail == Rest(s, c)
    ensures c.pos == at.pos ==> p + tail == Rest(s, c)
  {
    assert s.data[c.pos..at.pos] + p + tail == s.data[c.pos..at.pos] + (p + tail);
  }

  /** Nothing of the payload is lost, doubled or moved by cutting it into frames. */
  lemma {:induction false} FramesCarryThePayload(s: Script, c: Cursor, pads: Pads, slot: nat)
    requires Within(s, c) && slot <= NUM_FIRST_PADDINGS
    ensures Payload(Frames(s, c, pads, slot)) + Tail(s, c, pads, slot) == Rest(s, c)
    decreases NUM_FIRST_PADDINGS - slot
  {
    hide ReadResult, Rest;
    if slot < NUM_FIRST_PADDINGS {
      var r := ReadResult(s, c, EncodeRoom(pads[slot]));
      var data := s.data[c.pos..r.at.pos];
      var later := if r.err != Nil then [] else Frames(s, r.at, pads, slot + 1);
      if r.err == Nil {
        FramesCarryThePayload(s, r.at, pads, slot + 1);
      } else {
        RestDrained(s);
      }
      if r.n > 0 {
        PayloadCons(Frame(data, pads[slot]), later);
      }
      JoinRest(s, c, r.at, Payload(later), Tail(s, c, pads, slot));
    }
  }

  lemma EncoderTurn(s: Script, c: Cursor, pads: Pads, slot: nat)
    requires Within(s, c) && slot < NUM_FIRST_PADDINGS
    ensures var r := ReadResult(s, c, EncodeRoom(pads[slot]));
            var chunk := if r.n == 0 then [] else FrameBytes(Frame(s.data[c.pos..r.at.pos], pads[slot]));
            Same(Produced(AddPadding, s, c, pads, slot),
                 if r.err != Nil then Plain(chunk, r.err)
                 else Prepend(chunk, Produced(AddPadding, s, r.at, pads, slot + 1)))
  {
    assert EncodeTurn(s, c, pads[slot]) == Turn(AddPadding, s, c, pads, slot);
  }

  lemma WireCons(f: Frame, fs: seq<Frame>, tail: seq<byte>)
    requires Fits(f) && AllFit(fs)
    ensures AllFit([f] + fs) && Wire([f] + fs, tail) == FrameBytes(f) + Wire(fs, tail)
  {
    assert ([f] + fs)[1..] == fs;
  }

  /** The encoder puts out the wire format of those frames and that tail. */
  lemma {:induction false} EncoderProduces(s: Script, c: Cursor, pads: Pads, slot: nat)
    requires Within(s, c) && slot <= NUM_FIRST_PADDINGS
    ensures AllFit(Frames(s, c, pads, slot))
    ensures Produced(AddPadding, s, c, pads, slot) ==
            Plain(Wire(Frames(s, c, pads, slot), Tail(s, c, pads, slot)), s.end)
    decreases NUM_FIRST_PADDINGS - slot
  {
    hide Produced, FrameBytes, ReadResult, Rest;
    FramesFit(s, c, pads, slot);
    if slot == NUM_FIRST_PADDINGS {
      RawProduces(AddPadding, s, c, pads, slot);
    } else {
      var r := ReadResult(s, c, EncodeRoom(pads[slot]));
      var f := Frame(s.data[c.pos..r.at.pos], pads[slot]);
      var fs := if r.err != Nil then [] else Frames(s, r.at, pads, slot + 1);
      EncoderTurn(s, c, pads, slot);
      if r.err == Nil {
        EncoderProduces(s, r.at, pads, slot + 1);
      }
      if r.n > 0 {
        WireCons(f, fs, Tail(s, c, pads, slot));
        assert FrameBytes(f) + [] == FrameBytes(f);
      }
    }
  }

  // ------------------------------------------------ faulty writers

  /** Whatever the writer does, it has accepted a prefix of what was meant for it. */
  lemma {:induction false} AcceptedIsPrefix(dst: Writer, f: Feed)
    ensures var d, k := Deliver(dst, f).dst, |Deliver(dst, f).dst.taken| - |dst.taken|;
            0 <= k <= |Concat(f.chunks)| && d.taken == dst.taken + Concat(f.chunks)[..k]
    decreases |f.chunks|
  {
    var d := Deliver(dst, f).dst;
    if f.chunks == [] {
      assert d.taken == dst.taken + [];
    } else {
      var c, g := f.chunks[0], Feed(f.chunks[1..], f.fin);
      var one := Deliver1(dst, c);
      var m := |one.dst.taken| - |dst.taken|;
      assert one.dst.taken == dst.taken + c[..m];
      if one.err != Nil {
        assert Concat(f.chunks)[..m] == c[..m];
      } else {
        assert c[..m] == c;
        AcceptedIsPrefix(one.dst, g);
        var k := |d.taken| - |one.dst.taken|;
        assert Concat(f.chunks)[..m + k] == c + Concat(g.chunks)[..k];
      }
    }
  }

  /** A copy that returns no error has delivered everything, and the source ended well. */
  lemma {:induction false} NoErrorMeansAll(dst: Writer, f: Feed)
    requires Deliver(dst, f).err == Nil
    ensures Deliver(dst, f).dst.taken == dst.taken + Concat(f.chunks)
    ensures f.fin == EOF || f.fin == Nil
    decreases |f.chunks|
  {
    if f.chunks != [] {
      NoErrorMeansAll(Deliver1(dst, f.chunks[0]).dst, Feed(f.chunks[1..], f.fin));
    }
  }

  /** The error that writing `n` bytes ends in: that of the write, or else that of the flush
      where there is one, or else a short write. */
  function FaultOf(dst: Writer, n: nat): Err {
    if dst.writes != [] && dst.writes[0].err != Nil then dst.writes[0].err
    else if dst.flusher && dst.flushes != [] && dst.flushes[0] != Nil then dst.flushes[0]
    else if dst.writes != [] && dst.writes[0].limit < n then ShortWrite
    else Nil
  }

  /** What one chunk leaves: the bytes the write accepted, whatever happens after it, and no
      flush after a write that failed. */
  lemma OneChunk(dst: Writer, c: seq<byte>)
    ensures var d := Deliver1(dst, c);
            var k := if dst.writes == [] || dst.writes[0].limit > |c| then |c| else dst.writes[0].limit;
            d.err == FaultOf(dst, |c|) && d.dst.taken == dst.taken + c[..k] &&
            d.dst.writes == (if dst.writes == [] then [] else dst.writes[1..]) &&
            d.dst.flushes ==
            if !dst.flusher || dst.flushes == [] || (dst.writes != [] && dst.writes[0].err != Nil) then dst.flushes
            else dst.flushes[1..]
  {
  }

  /** The first chunk that fails ends the copy with its error; a copy no chunk of which
      fails ends as its source did, with nil for EOF. */
  lemma {:induction false} FirstFaultEnds(dst: Writer, f: Feed, k: nat)
    requires k <= |f.chunks| && Deliver(dst, Feed(f.chunks[..k], EOF)).err == Nil
    ensures var before := Deliver(dst, Feed(f.chunks[..k], EOF)).dst;
            if k == |f.chunks| then Deliver(dst, f) == Done(before, if f.fin == EOF then Nil else f.fin)
            else FaultOf(before, |f.chunks[k]|) != Nil ==>
                   Deliver(dst, f).err == FaultOf(before, |f.chunks[k]|)
    decreases k
  {
    if k > 0 {
      var one := Deliver1(dst, f.chunks[0]).dst;
      assert f.chunks[..k][1..] == f.chunks[1..][..k - 1];
      FirstFaultEnds(one, Feed(f.chunks[1..], f.fin), k - 1);
    } else if f.chunks != [] {
      OneChunk(dst, f.chunks[0]);
    }
  }

  /** A writer without faults takes everything, and the copy returns the source's end. */
  lemma {:induction false} HealthyTakesAll(dst: Writer, f: Feed)
    requires Healthy(dst)
    ensures Deliver(dst, f).dst.taken == dst.taken + Concat(f.chunks)
    ensures Deliver(dst, f).err == if f.fin == EOF then Nil else f.fin
    decreases |f.chunks|
  {
    if f.chunks != [] {
      HealthyTakesAll(Deliver1(dst, f.chunks[0]).dst, Feed(f.chunks[1..], f.fin));
    }
  }

  // ------------------------------------------------ end to end

  /** What a copy added to its writer. */
  function Sent(dst: Writer, s: Script, mode: Mode, pads: Pads): (sent: seq<byte>)
    ensures Copied(dst, s, Start(), mode, pads).dst.taken == dst.taken + sent
  {
    AcceptedIsPrefix(dst, Chunks(mode, s, Start(), pads, 0));
    Copied(dst, s, Start(), mode, pads).dst.taken[|dst.taken|..]
  }

  /** A copy without faults sends exactly what the mode makes of the source, and returns
      nil for EOF and the error itself otherwise. */
  lemma CopyWithoutFaults(dst: Writer, s: Script, mode: Mode, pads: Pads)
    requires Healthy(dst)
    ensures Sent(dst, s, mode, pads) == Produced(mode, s, Start(), pads, 0).out
    ensures var fin := Produced(mode, s, Start(), pads, 0).err;
            Copied(dst, s, Start(), mode, pads).err == if fin == EOF then Nil else fin
  {
    var f := Chunks(mode, s, Start(), pads, 0);
    HealthyTakesAll(dst, f);
    ProducedIsConcat(mode, s, Start(), pads, 0);
    assert (dst.taken + Concat(f.chunks))[|dst.taken|..] == Concat(f.chunks);
  }

  /** Exact accounting: with any faults, what was sent is a prefix of what the mode makes of
      the source, and a copy that reports no error has sent all of it. */
  lemma CopyWithFaults(dst: Writer, s: Script, mode: Mode, pads: Pads)
    ensures Sent(dst, s, mode, pads) <= Produced(mode, s, Start(), pads, 0).out
    ensures Copied(dst, s, Start(), mode, pads).err == Nil ==>
              Sent(dst, s, mode, pads) == Produced(mode, s, Start(), pads, 0).out &&
              Produced(mode, s, Start(), pads, 0).err in {EOF, Nil}
  {
    var f := Chunks(mode, s, Start(), pads, 0);
    ProducedIsConcat(mode, s, Start(), pads, 0);
    AcceptedIsPrefix(dst, f);
    var k := |Deliver(dst, f).dst.taken| - |dst.taken|;
    assert (dst.taken + Concat(f.chunks)[..k])[|dst.taken|..] == Concat(f.chunks)[..k];
    if Deliver(dst, f).err == Nil {
      NoErrorMeansAll(dst, f);
      assert (dst.taken + Concat(f.chunks))[|dst.taken|..] == Concat(f.chunks);
    }
  }

  /** Does the encoder of this source send a stream its decoder can read? */
  predicate EncodesWell(s: Script, pads: Pads) {
    Framed(Frames(s, Start(), pads, 0), Tail(s, Start(), pads, 0), NUM_FIRST_PADDINGS)
  }

  /** A round trip can only go wrong by losing bytes, so the output alone decides. */
  lemma RoundTripOutput(frames: seq<Frame>, tail: seq<byte>, slots: nat, end: End)
    requires AllFit(frames) && |frames| <= slots
    ensures Decode(Wire(frames, tail), slots, end).out == Payload(frames) + tail
            <==> Framed(frames, tail, slots)
  {
    var left := slots - |frames|;
    DecodeWire(frames, tail, slots, left, end);
    DecodeLoses(tail, left, end);
    var d := Decode(tail, left, end);
    assert (Payload(frames) + d.out)[|Payload(frames)|..] == d.out;
    assert (Payload(frames) + tail)[|Payload(frames)|..] == tail;
  }

  /** Through an encoder and a decoder, for every payload, every padding and every way the
      two sources cut their reads: the payload arrives whole, with the end of the decoder's
      source, if and only if eight frames were sent or nothing was left to send raw. */
  lemma PaddingRoundTrip(a: Script, pads: Pads, wa: Writer, b: Script, wb: Writer, any: Pads)
    requires Healthy(wa) && Healthy(wb)
    requires b.data == Sent(wa, a, AddPadding, pads)
    ensures (Sent(wb, b, RemovePadding, any) == a.data &&
             Copied(wb, b, Start(), RemovePadding, any).err == if b.end == EOF then Nil else b.end)
            <==> EncodesWell(a, pads)
    ensures NoEmptyRead(a, Start(), pads, 0) ==> EncodesWell(a, pads)
  {
    var fs, tail := Frames(a, Start(), pads, 0), Tail(a, Start(), pads, 0);
    CopyWithoutFaults(wa, a, AddPadding, pads);
    EncoderProduces(a, Start(), pads, 0);
    CopyWithoutFaults(wb, b, RemovePadding, any);
    DecoderProduces(b, Start(), any, 0, NUM_FIRST_PADDINGS);
    FramesFit(a, Start(), pads, 0);
    FramesCarryThePayload(a, Start(), pads, 0);
    assert Rest(b, Start()) == b.data && Rest(a, Start()) == a.data;
    RoundTrip(fs, tail, NUM_FIRST_PADDINGS, b.end);
    RoundTripOutput(fs, tail, NUM_FIRST_PADDINGS, b.end);
  }

  lemma {:induction false} SilentReads(s: Script, pads: Pads, slot: nat)
    requires slot <= NUM_FIRST_PADDINGS == |s.plan| && s.data != []
    requires forall i :: 0 <= i < |s.plan| ==> s.plan[i] == Offer(0, false)
    ensures Frames(s, Cursor(0, slot), pads, slot) == []
    ensures Tail(s, Cursor(0, slot), pads, slot) == s.data
    decreases NUM_FIRST_PADDINGS - slot
  {
    if slot < NUM_FIRST_PADDINGS {
      SilentReads(s, pads, slot + 1);
    }
  }

  /** The condition is needed: a source whose first eight reads bring nothing has spent
      all its frames, its one byte goes out raw, and the decoder loses it. */
  lemma EmptyReadsBreakRoundTrip(pads: Pads)
    ensures !EncodesWell(Script([7], seq(NUM_FIRST_PADDINGS, _ => Offer(0, false)), EOF), pads)
  {
    SilentReads(Script([7], seq(NUM_FIRST_PADDINGS, _ => Offer(0, false)), EOF), pads, 0);
  }

  lemma PrefixIsCut(p: seq<byte>, w: seq<byte>)
    requires p <= w
    ensures p == w[..|p|]
  {
  }

  /** Safety of a whole tunnel: whatever the two writers do, wherever the stream between
      them is cut, and however it ends, only a prefix of the payload comes out. */
  lemma TunnelDeliversPrefix(a: Script, pads: Pads, wa: Writer, b: Script, wb: Writer, any: Pads)
    requires EncodesWell(a, pads)
    requires b.data <= Sent(wa, a, AddPadding, pads)
    ensures Sent(wb, b, RemovePadding, any) <= a.data
  {
    hide Sent, Produced, Decode, Frames, Tail;
    var fs, tail := Frames(a, Start(), pads, 0), Tail(a, Start(), pads, 0);
    CopyWithFaults(wa, a, AddPadding, pads);
    EncoderProduces(a, Start(), pads, 0);
    CopyWithFaults(wb, b, RemovePadding, any);
    DecoderProduces(b, Start(), any, 0, NUM_FIRST_PADDINGS);
    FramesCarryThePayload(a, Start(), pads, 0);
    assert Rest(b, Start()) == b.data && Rest(a, Start()) == a.data;
    PrefixIsCut(b.data, Wire(fs, tail));
    Truncation(fs, tail, NUM_FIRST_PADDINGS, |b.data|, b.end);
  }

  /** The price of padding: the encoder counts the payload and between 3 and 258 bytes for
      each of at most eight frames, whatever its reads bring, empty ones included. */
  lemma EncoderCounts(a: Script, pads: Pads, wa: Writer)
    requires Healthy(wa)
    ensures |Sent(wa, a, AddPadding, pads)| == |a.data| + Overhead(Frames(a, Start(), pads, 0))
    ensures Overhead(Frames(a, Start(), pads, 0)) <= 2064
  {
    var fs, tail := Frames(a, Start(), pads, 0), Tail(a, Start(), pads, 0);
    CopyWithoutFaults(wa, a, AddPadding, pads);
    EncoderProduces(a, Start(), pads, 0);
    FramesFit(a, Start(), pads, 0);
    FramesCarryThePayload(a, Start(), pads, 0);
    assert Rest(a, Start()) == a.data;
    WireSize(fs, tail);
  }

  lemma DecodedSize(frames: seq<Frame>, tail: seq<byte>, slots: nat, end: End)
    requires AllFit(frames) && |frames| <= slots
    ensures |Decode(Wire(frames, tail), slots, end).out| <= |Payload(frames) + tail|
    ensures |Decode(Wire(frames, tail), slots, end).out| == |Payload(frames) + tail| <==> Framed(frames, tail, slots)
  {
    var left := slots - |frames|;
    DecodeWire(frames, tail, slots, left, end);
    DecodeLoses(tail, left, end);
  }

  /** The decoder counts the payload and nothing else, exactly when the stream it reads is
      one the encoder framed well; otherwise it counts less. */
  lemma CountedBytes(a: Script, pads: Pads, wa: Writer, b: Script, wb: Writer, any: Pads)
    requires Healthy(wa) && Healthy(wb)
    requires b.data == Sent(wa, a, AddPadding, pads)
    ensures |Sent(wa, a, AddPadding, pads)| == |a.data| + Overhead(Frames(a, Start(), pads, 0))
    ensures Overhead(Frames(a, Start(), pads, 0)) <= 2064
    ensures |Sent(wb, b, RemovePadding, any)| <= |a.data|
    ensures |Sent(wb, b, RemovePadding, any)| == |a.data| <==> EncodesWell(a, pads)
  {
    EncoderCounts(a, pads, wa);
    var fs, tail := Frames(a, Start(), pads, 0), Tail(a, Start(), pads, 0);
    CopyWithoutFaults(wa, a, AddPadding, pads);
    EncoderProduces(a, Start(), pads, 0);
    CopyWithoutFaults(wb, b, RemovePadding, any);
    DecoderProduces(b, Start(), any, 0, NUM_FIRST_PADDINGS);
    FramesFit(a, Start(), pads, 0);
    FramesCarryThePayload(a, Start(), pads, 0);
    assert Rest(b, Start()) == b.data && Rest(a, Start()) == a.data;
    DecodedSize(fs, tail, NUM_FIRST_PADDINGS, b.end);
  }
}
