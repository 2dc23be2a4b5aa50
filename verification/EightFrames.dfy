/** The padding format in figures: how many frames there are, where each of them begins and
    ends, and what it costs. */
module EightFrames {
  import opened Streams
  import opened Padding
  import opened Pump
  import opened TunnelProofs

  /** Room for the payload in a buffer of 65536 bytes, as the bounds of the read leave it. */
  function Room(pad: byte): nat { 65530 - pad as int }

  function Repeated(c: byte, n: nat): seq<byte> { seq(n, _ => c) }

  /** Each of the first eight turns of the encoder frames what its read brought. */
  lemma EncoderTurnInFigures(s: Script, c: Cursor, pads: Pads, slot: nat)
    requires Within(s, c) && slot < 8
    ensures |pads| == 8
    ensures var r := ReadResult(s, c, Room(pads[slot]));
            var p := s.data[c.pos..c.pos + r.n];
            var frame := [r.n / 256, r.n % 256, pads[slot]] + p + Repeated(0, pads[slot]);
            Turn(AddPadding, s, c, pads, slot) == Turned(if r.n == 0 then [] else frame, r.err, r.at)
  {
    hide ReadResult;
    assert EncodeTurn(s, c, pads[slot]) == Turn(AddPadding, s, c, pads, slot);
    assert Zeros(pads[slot]) == Repeated(0, pads[slot]);
  }

  /** Each later turn, of the encoder and of the decoder, passes on what one read into the
      whole buffer brought. */
  lemma LaterTurns(s: Script, c: Cursor, pads: Pads, slot: nat)
    requires Within(s, c) && slot >= 8
    ensures var r := ReadResult(s, c, 65536);
            var raw := Turned(s.data[c.pos..c.pos + r.n], r.err, r.at);
            Turn(AddPadding, s, c, pads, slot) == raw && Turn(RemovePadding, s, c, pads, slot) == raw
  {
    hide ReadResult;
    assert RawTurn(s, c) == Turn(AddPadding, s, c, pads, slot);
  }

  // ------------------------------------------------ the encoder

  /** The reader after the first `k` reads of the encoder. */
  function ReadAt(s: Script, pads: seq<byte>, k: nat): (c: Cursor)
    requires k <= |pads|
    ensures Within(s, c)
  {
    if k == 0 then Cursor(0, 0) else ReadResult(s, ReadAt(s, pads, k - 1), Room(pads[k - 1])).at
  }

  /** Does each of the first eight reads bring data and no end? */
  predicate EightReads(s: Script, pads: seq<byte>)
    requires |pads| == 8
  {
    forall k :: 0 <= k < 8 ==>
      var r := ReadResult(s, ReadAt(s, pads, k), Room(pads[k]));
      r.n > 0 && r.err == Nil
  }

  /** What the `k`th read brought, with its padding. */
  function FrameOfRead(s: Script, pads: seq<byte>, k: nat): (f: Frame)
    requires k < |pads|
  {
    Frame(s.data[ReadAt(s, pads, k).pos..ReadAt(s, pads, k + 1).pos], pads[k])
  }

  function FramesOfReads(s: Script, pads: seq<byte>, k: nat): (fs: seq<Frame>)
    requires k <= |pads| == 8
    ensures |fs| == 8 - k && forall j :: k <= j < 8 ==> fs[j - k] == FrameOfRead(s, pads, j)
    decreases 8 - k
  {
    if k == 8 then [] else [FrameOfRead(s, pads, k)] + FramesOfReads(s, pads, k + 1)
  }

  lemma NextFrame(s: Script, pads: Pads, k: nat)
    requires |pads| == 8 && EightReads(s, pads) && k < 8
    ensures Frames(s, ReadAt(s, pads, k), pads, k) ==
            [FrameOfRead(s, pads, k)] + Frames(s, ReadAt(s, pads, k + 1), pads, k + 1)
    ensures Tail(s, ReadAt(s, pads, k), pads, k) == Tail(s, ReadAt(s, pads, k + 1), pads, k + 1)
  {
    hide ReadResult;
    var r := ReadResult(s, ReadAt(s, pads, k), Room(pads[k]));
    assert r.n > 0 && r.err == Nil && r.at == ReadAt(s, pads, k + 1);
  }

  lemma {:induction false} FramesFrom(s: Script, pads: Pads, k: nat)
    requires |pads| == 8 && EightReads(s, pads) && k <= 8
    ensures Frames(s, ReadAt(s, pads, k), pads, k) == FramesOfReads(s, pads, k)
    ensures Tail(s, ReadAt(s, pads, k), pads, k) == Tail(s, ReadAt(s, pads, 8), pads, 8)
    decreases 8 - k
  {
    hide EightReads, Frames, Tail, ReadAt, FrameOfRead;
    if k < 8 {
      NextFrame(s, pads, k);
      FramesFrom(s, pads, k + 1);
    } else {
      assert Frames(s, ReadAt(s, pads, k), pads, k) == [] by {
        FramesFit(s, ReadAt(s, pads, k), pads, k);
      }
    }
  }

  lemma OverheadFrom(fs: seq<Frame>, i: nat)
    requires i < |fs|
    ensures Overhead(fs[i..]) == 3 + fs[i].pad + Overhead(fs[i + 1..])
  {
    assert fs[i..][1..] == fs[i + 1..];
  }

  lemma OverheadOfEight(fs: seq<Frame>)
    requires |fs| == 8
    ensures Overhead(fs) == 24 + fs[0].pad + fs[1].pad + fs[2].pad + fs[3].pad
                            + fs[4].pad + fs[5].pad + fs[6].pad + fs[7].pad
  {
    assert fs[0..] == fs;
    OverheadFrom(fs, 0);
    OverheadFrom(fs, 1);
    OverheadFrom(fs, 2);
    OverheadFrom(fs, 3);
    OverheadFrom(fs, 4);
    OverheadFrom(fs, 5);
    OverheadFrom(fs, 6);
    OverheadFrom(fs, 7);
  }

  lemma EncoderSends(s: Script, pads: Pads, dst: Writer)
    requires Healthy(dst)
    ensures AllFit(Frames(s, Start(), pads, 0))
    ensures Sent(dst, s, AddPadding, pads) == Wire(Frames(s, Start(), pads, 0), Tail(s, Start(), pads, 0))
  {
    hide Sent, Produced, Frames, Tail, Wire, Fits;
    CopyWithoutFaults(dst, s, AddPadding, pads);
    EncoderProduces(s, Start(), pads, 0);
  }

  lemma EightFramesOfReads(s: Script, pads: Pads)
    requires |pads| == 8 && EightReads(s, pads)
    ensures Frames(s, Start(), pads, 0) == FramesOfReads(s, pads, 0)
    ensures Tail(s, Start(), pads, 0) == s.data[ReadAt(s, pads, 8).pos..]
  {
    hide EightReads, Frames, ReadResult, FramesOfReads;
    assert ReadAt(s, pads, 0) == Start();
    FramesFrom(s, pads, 0);
  }

  /** A source whose first eight reads bring data is sent in exactly eight frames, one for
      each read, and everything after them raw. */
  lemma EightFramesAreSent(s: Script, pads: Pads, dst: Writer)
    requires |pads| == 8 && EightReads(s, pads) && Healthy(dst)
    ensures var fs := FramesOfReads(s, pads, 0);
            AllFit(fs) && Sent(dst, s, AddPadding, pads) == Wire(fs, s.data[ReadAt(s, pads, 8).pos..])
  {
    hide EightReads, Frames, Tail, Sent, ReadAt, FramesOfReads, Wire, Fits;
    EncoderSends(s, pads, dst);
    EightFramesOfReads(s, pads);
  }

  /** The cost is eight headers and the eight paddings; 2064 bytes are reached when every
      padding is the longest there is. */
  lemma CostOfEightFrames(s: Script, pads: Pads, dst: Writer)
    requires |pads| == 8 && EightReads(s, pads) && Healthy(dst)
    ensures |Sent(dst, s, AddPadding, pads)| ==
            |s.data| + 24 + pads[0] as int + pads[1] as int + pads[2] as int + pads[3] as int
            + pads[4] as int + pads[5] as int + pads[6] as int + pads[7] as int
    ensures (forall k :: 0 <= k < 8 ==> pads[k] == 255) ==>
              |Sent(dst, s, AddPadding, pads)| == |s.data| + 2064
  {
    hide EightReads, Frames, Sent, ReadAt, Overhead;
    EncoderCounts(s, pads, dst);
    EightFramesOfReads(s, pads);
    OverheadOfEight(FramesOfReads(s, pads, 0));
  }

  lemma {:induction false} OneByteAt(s: Script, pads: Pads, k: nat)
    requires |pads| == 8 && k <= 8 <= |s.plan| && 8 <= |s.data|
    requires forall i :: 0 <= i < 8 ==> s.plan[i] == Offer(1, false)
    ensures ReadAt(s, pads, k) == Cursor(k, k)
  {
    if k > 0 {
      OneByteAt(s, pads, k - 1);
    }
  }

  /** A source that brings eight single bytes has each of them framed, the eighth too. */
  lemma OneByteReads(s: Script, pads: Pads)
    requires |pads| == 8 && 8 <= |s.plan| && 8 <= |s.data|
    requires forall i :: 0 <= i < 8 ==> s.plan[i] == Offer(1, false)
    ensures EightReads(s, pads)
    ensures forall k :: 0 <= k < 8 ==> FrameOfRead(s, pads, k) == Frame([s.data[k]], pads[k])
    ensures s.data[ReadAt(s, pads, 8).pos..] == s.data[8..]
  {
    hide ReadAt;
    forall k | 0 <= k <= 8
      ensures ReadAt(s, pads, k) == Cursor(k, k)
    {
      OneByteAt(s, pads, k);
    }
  }

  // ------------------------------------------------ the decoder

  lemma DecodeRaw(s: seq<byte>, end: End)
    ensures Decode(s, 0, end) == Plain(s, end)
  {
  }

  /** Of a longer stream of frames the decoder unframes the first eight; what follows comes
      out as it is, frames or not. */
  lemma EightFramesAreRead(fs: seq<Frame>, more: seq<byte>, s: Script, dst: Writer, any: Pads)
    requires |fs| == 8 && AllFit(fs) && s.data == Wire(fs, more) && Healthy(dst)
    ensures Sent(dst, s, RemovePadding, any) == Payload(fs) + more
  {
    hide Sent, Produced, Decode, Wire;
    CopyWithoutFaults(dst, s, RemovePadding, any);
    DecoderProduces(s, Start(), any, 0, 8);
    assert Rest(s, Start()) == s.data;
    DecodeWire(fs, more, 8, 0, s.end);
    DecodeRaw(more, s.end);
  }
}
