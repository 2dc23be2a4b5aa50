/** The NaiveProxy padding format on the wire, read without regard to how the bytes were
    cut into pieces: at most eight frames, each a two-byte big-endian length, a one-byte
    padding size, the payload and that much padding; raw bytes after the eighth frame. */
module Padding {
  import opened Streams

  const BUFFER_SIZE := 65536
  const HEADER_SIZE := 3
  const NUM_FIRST_PADDINGS := 8

  datatype Frame = Frame(payload: seq<byte>, pad: byte)

  /** What one `Read` into the encoder's part of the buffer can have produced. */
  predicate Fits(f: Frame) { 0 < |f.payload| <= BUFFER_SIZE - 2 * HEADER_SIZE - f.pad }

  predicate AllFit(frames: seq<Frame>) { forall f | f in frames :: Fits(f) }

  function Zeros(n: nat): seq<byte> { seq(n, _ => 0) }

  function FrameSize(f: Frame): nat { HEADER_SIZE + |f.payload| + f.pad }

  /** The payload length a header announces, most significant byte first. */
  function BodyLength(hi: byte, lo: byte): nat { hi as int * 256 + lo as int }

  function FrameBytes(f: Frame): (s: seq<byte>)
    requires Fits(f)
    ensures |s| == FrameSize(f) && s[3..3 + |f.payload|] == f.payload
    ensures BodyLength(s[0], s[1]) == |f.payload| && s[2] == f.pad
  {
    [|f.payload| / 256, |f.payload| % 256, f.pad] + f.payload + Zeros(f.pad)
  }

  function Wire(frames: seq<Frame>, tail: seq<byte>): seq<byte>
    requires AllFit(frames)
  {
    if frames == [] then tail else FrameBytes(frames[0]) + Wire(frames[1..], tail)
  }

  function Payload(frames: seq<Frame>): seq<byte> {
    if frames == [] then [] else frames[0].payload + Payload(frames[1..])
  }

  /** Bytes the format adds to the payload. */
  function Overhead(frames: seq<Frame>): nat {
    if frames == [] then 0 else HEADER_SIZE + frames[0].pad + Overhead(frames[1..])
  }

  datatype Plain = Plain(out: seq<byte>, err: Err)

  function Prepend(p: seq<byte>, d: Plain): Plain { Plain(p + d.out, d.err) }

  lemma PrependTwice(p: seq<byte>, q: seq<byte>, d: Plain)
    ensures Prepend(p, Prepend(q, d)) == Prepend(p + q, d)
  {
    assert p + (q + d.out) == (p + q) + d.out;
  }

  /** What the first frame of a byte stream turns out to be. */
  datatype Head = Cut(plain: Plain) | Whole(payload: seq<byte>, rest: seq<byte>)

  /** A zero length is a frame of three bytes whatever its padding size says; a cut header
      yields nothing; a cut payload yields the part that came; only a cut inside the
      padding turns EOF into an error. */
  function FirstFrame(s: seq<byte>, end: End): (h: Head)
    ensures h.Whole? ==> |h.payload| + |h.rest| + HEADER_SIZE <= |s|
  {
    if |s| < HEADER_SIZE then Cut(Plain([], end))
    else
      var n, p := BodyLength(s[0], s[1]), s[2];
      var body := HEADER_SIZE + n;
      if n == 0 then Whole([], s[HEADER_SIZE..])
      else if |s| < body then Cut(Plain(s[HEADER_SIZE..], end))
      else if |s| < body + p then
        Cut(Plain(s[HEADER_SIZE..body], if |s| > body && end == EOF then UnexpectedEOF else end))
      else Whole(s[HEADER_SIZE..body], s[body + p..])
  }

  /** The bytes of a frame: length and padding size in front, nothing but zeros behind. */
  lemma FrameLayout(f: Frame)
    requires Fits(f)
    ensures var s, n := FrameBytes(f), |f.payload|;
            |s| == 3 + n + f.pad as int &&
            s[0] as int == n / 256 && s[1] as int == n % 256 && s[2] == f.pad &&
            s[3..3 + n] == f.payload && forall i :: 3 + n <= i < |s| ==> s[i] == 0
  {
  }

  /** A header is read most significant byte first, and announces the payload and then
      the padding to be dropped. */
  lemma HeaderIsBigEndian(s: seq<byte>, end: End)
    requires |s| >= 3
    ensures var n, p: int := 256 * s[0] as int + s[1] as int, s[2];
            FirstFrame(s, end).Whole? <==> n == 0 || |s| >= 3 + n + p
    ensures var n, p: int := 256 * s[0] as int + s[1] as int, s[2];
            FirstFrame(s, end).Whole? ==>
              FirstFrame(s, end) == if n == 0 then Whole([], s[3..]) else Whole(s[3..3 + n], s[3 + n + p..])
  {
  }

  /** What the decoder makes of the byte stream `s` that ends with `end`, with `slots`
      frames still to come. */
  function Decode(s: seq<byte>, slots: nat, end: End): Plain
    decreases slots
  {
    if slots == 0 then Plain(s, end)
    else
      var h := FirstFrame(s, end);
      if h.Cut? then h.plain else Prepend(h.payload, Decode(h.rest, slots - 1, end))
  }

  // ------------------------------------------------------------ one frame

  lemma FirstFrameWhole(f: Frame, more: seq<byte>, end: End)
    requires Fits(f)
    ensures FirstFrame(FrameBytes(f) + more, end) == Whole(f.payload, more)
  {
    var s := FrameBytes(f) + more;
    assert s[0] == FrameBytes(f)[0] && s[1] == FrameBytes(f)[1] && s[2] == f.pad;
    assert s[3..] == f.payload + (Zeros(f.pad) + more);
    assert s[3..][..|f.payload|] == f.payload;
    assert s[3..][|f.payload|..] == Zeros(f.pad) + more;
    assert (Zeros(f.pad) + more)[f.pad..] == more;
  }

  predicate CutInPadding(f: Frame, i: nat) {
    HEADER_SIZE + |f.payload| < i < FrameSize(f)
  }

  /** A frame cut after `i` bytes gives up the payload bytes that came, and reports an
      error of its own only when the cut falls inside the padding. */
  lemma FirstFrameCut(f: Frame, i: nat, end: End)
    requires Fits(f) && i < FrameSize(f)
    ensures FirstFrame(FrameBytes(f)[..i], end) ==
            Cut(Plain(f.payload[..CarriedByFrame(f, i)],
                      if CutInPadding(f, i) && end == EOF then UnexpectedEOF else end))
  {
    var s := FrameBytes(f)[..i];
    if i >= 3 {
      assert s[0] == FrameBytes(f)[0] && s[1] == FrameBytes(f)[1] && s[2] == f.pad;
      assert s[3..] == FrameBytes(f)[3..i] == (f.payload + Zeros(f.pad))[..i - 3];
      if i < 3 + |f.payload| {
        assert s[3..] == f.payload[..i - 3];
      } else {
        assert s[3..][..|f.payload|] == f.payload == f.payload[..|f.payload|];
      }
    }
  }

  function CarriedByFrame(f: Frame, i: nat): nat {
    if i <= HEADER_SIZE then 0 else Min(i - HEADER_SIZE, |f.payload|)
  }

  // ------------------------------------------------------------ whole streams

  /** Is the stream one the decoder reads as it was written? Either all eight frames were
      sent or nothing follows the frames there are. */
  predicate Framed(frames: seq<Frame>, tail: seq<byte>, slots: nat) {
    |frames| <= slots && (|frames| == slots || tail == [])
  }

  lemma DecodeFrame(f: Frame, more: seq<byte>, slots: nat, end: End)
    requires Fits(f) && slots > 0
    ensures Decode(FrameBytes(f) + more, slots, end) == Prepend(f.payload, Decode(more, slots - 1, end))
  {
    FirstFrameWhole(f, more, end);
  }

  function Unframe(frames: seq<Frame>, d: Plain): Plain {
    if frames == [] then d else Prepend(frames[0].payload, Unframe(frames[1..], d))
  }

  lemma {:induction false} UnframePayload(frames: seq<Frame>, d: Plain)
    ensures Unframe(frames, d) == Prepend(Payload(frames), d)
  {
    if frames == [] {
      assert [] + d.out == d.out;
    } else {
      UnframePayload(frames[1..], d);
      PrependTwice(frames[0].payload, Payload(frames[1..]), d);
    }
  }

  lemma {:induction false} DecodeFrames(frames: seq<Frame>, tail: seq<byte>, slots: nat, left: nat, end: End)
    requires AllFit(frames) && slots == |frames| + left
    ensures Decode(Wire(frames, tail), slots, end) == Unframe(frames, Decode(tail, left, end))
  {
    hide Decode, FirstFrame, FrameBytes;
    if frames != [] {
      DecodeFrame(frames[0], Wire(frames[1..], tail), slots, end);
      DecodeFrames(frames[1..], tail, slots - 1, left, end);
    }
  }

  lemma DecodeWire(frames: seq<Frame>, tail: seq<byte>, slots: nat, left: nat, end: End)
    requires AllFit(frames) && slots == |frames| + left
    ensures Decode(Wire(frames, tail), slots, end) == Prepend(Payload(frames), Decode(tail, left, end))
  {
    DecodeFrames(frames, tail, slots, left, end);
    UnframePayload(frames, Decode(tail, left, end));
  }

  /** Unframed bytes put through the frame decoder never come out as they were. */
  lemma {:induction false} DecodeLoses(s: seq<byte>, slots: nat, end: End)
    ensures |Decode(s, slots, end).out| <= |s|
    ensures slots > 0 && s != [] ==> |Decode(s, slots, end).out| < |s|
    decreases slots
  {
    if slots > 0 {
      var h := FirstFrame(s, end);
      if h.Whole? {
        DecodeLoses(h.rest, slots - 1, end);
      }
    }
  }

  lemma OnlyPlain(p: seq<byte>, tail: seq<byte>, d: Plain, end: End)
    requires |d.out| <= |tail|
    ensures Prepend(p, d) == Plain(p + tail, end) <==> d == Plain(tail, end)
  {
    assert (p + d.out)[|p|..] == d.out && (p + tail)[|p|..] == tail;
  }

  /** The round trip: decoding returns payload and end exactly, if and only if the stream
      is framed. */
  lemma RoundTrip(frames: seq<Frame>, tail: seq<byte>, slots: nat, end: End)
    requires AllFit(frames) && |frames| <= slots
    ensures Decode(Wire(frames, tail), slots, end) == Plain(Payload(frames) + tail, end)
            <==> Framed(frames, tail, slots)
  {
    var left := slots - |frames|;
    DecodeWire(frames, tail, slots, left, end);
    DecodeLoses(tail, left, end);
    OnlyPlain(Payload(frames), tail, Decode(tail, left, end), end);
  }

  lemma PrependMonotone(p: seq<byte>, d: Plain, e: Plain)
    requires d.out <= e.out
    ensures Prepend(p, d).out <= Prepend(p, e).out
  {
  }

  lemma PrependStarts(p: seq<byte>, d: Plain)
    ensures p <= Prepend(p, d).out
  {
  }

  lemma SliceAppend(s: seq<byte>, t: seq<byte>, i: nat, j: nat)
    requires i <= j <= |s|
    ensures (s + t)[i..j] == s[i..j] && (s + t)[j..] == s[j..] + t
  {
  }

  lemma CutBodyMonotone(s: seq<byte>, t: seq<byte>, body: nat)
    requires HEADER_SIZE <= |s| < body
    ensures s[HEADER_SIZE..] <= (s + t)[HEADER_SIZE..]
    ensures |s + t| >= body ==> s[HEADER_SIZE..] <= (s + t)[HEADER_SIZE..body]
  {
  }

  lemma FirstFrameMonotone(s: seq<byte>, t: seq<byte>, e1: End, e2: End)
    ensures var h, g := FirstFrame(s, e1), FirstFrame(s + t, e2);
            if h.Whole? then g == Whole(h.payload, h.rest + t)
            else h.plain.out <= if g.Whole? then g.payload else g.plain.out
  {
    if |s| >= HEADER_SIZE {
      assert (s + t)[0] == s[0] && (s + t)[1] == s[1] && (s + t)[2] == s[2];
      var n, p := BodyLength(s[0], s[1]), s[2];
      if n == 0 {
        SliceAppend(s, t, HEADER_SIZE, HEADER_SIZE);
      } else if |s| < HEADER_SIZE + n {
        CutBodyMonotone(s, t, HEADER_SIZE + n);
      } else {
        SliceAppend(s, t, HEADER_SIZE, HEADER_SIZE + n);
        if |s| >= HEADER_SIZE + n + p {
          SliceAppend(s, t, HEADER_SIZE + n, HEADER_SIZE + n + p);
        }
      }
    }
  }

  /** Seeing more of any stream, well formed or not, only ever adds to the output. */
  lemma {:induction false} DecodeMonotone(s: seq<byte>, t: seq<byte>, slots: nat, e1: End, e2: End)
    ensures Decode(s, slots, e1).out <= Decode(s + t, slots, e2).out
    decreases slots
  {
    if slots > 0 {
      hide FirstFrame, Prepend;
      var h, g := FirstFrame(s, e1), FirstFrame(s + t, e2);
      FirstFrameMonotone(s, t, e1, e2);
      if h.Whole? {
        DecodeMonotone(h.rest, t, slots - 1, e1, e2);
        PrependMonotone(h.payload, Decode(h.rest, slots - 1, e1), Decode(g.rest, slots - 1, e2));
      } else if g.Whole? {
        PrependStarts(g.payload, Decode(g.rest, slots - 1, e2));
      }
    }
  }

  /** How many payload bytes the first `i` bytes of a framed stream carry. */
  function Carried(frames: seq<Frame>, i: nat): nat {
    if frames == [] then i
    else if i < FrameSize(frames[0]) then CarriedByFrame(frames[0], i)
    else |frames[0].payload| + Carried(frames[1..], i - FrameSize(frames[0]))
  }

  predicate CutInsidePadding(frames: seq<Frame>, i: nat) {
    frames != [] &&
    if i < FrameSize(frames[0]) then CutInPadding(frames[0], i)
    else CutInsidePadding(frames[1..], i - FrameSize(frames[0]))
  }

  /** The same cut seen frame by frame. */
  function CutWire(frames: seq<Frame>, tail: seq<byte>, i: nat, end: End): Plain {
    if frames == [] then Plain(tail[..Min(i, |tail|)], end)
    else
      var f, size := frames[0], FrameSize(frames[0]);
      if i < size then
        Plain(f.payload[..CarriedByFrame(f, i)], if CutInPadding(f, i) && end == EOF then UnexpectedEOF else end)
      else Prepend(f.payload, CutWire(frames[1..], tail, i - size, end))
  }

  lemma DecodeCutFrame(f: Frame, more: seq<byte>, slots: nat, i: nat, end: End)
    requires Fits(f) && slots > 0 && i <= FrameSize(f) + |more|
    ensures i < FrameSize(f) ==>
              Decode((FrameBytes(f) + more)[..i], slots, end) ==
              Plain(f.payload[..CarriedByFrame(f, i)], if CutInPadding(f, i) && end == EOF then UnexpectedEOF else end)
    ensures i >= FrameSize(f) ==>
              Decode((FrameBytes(f) + more)[..i], slots, end) ==
              Prepend(f.payload, Decode(more[..i - FrameSize(f)], slots - 1, end))
  {
    var s := (FrameBytes(f) + more)[..i];
    if i < FrameSize(f) {
      assert s == FrameBytes(f)[..i];
      FirstFrameCut(f, i, end);
    } else {
      assert s == FrameBytes(f) + more[..i - FrameSize(f)];
      DecodeFrame(f, more[..i - FrameSize(f)], slots, end);
    }
  }

  lemma DecodeCutTail(tail: seq<byte>, slots: nat, i: nat, end: End)
    requires Framed([], tail, slots) && i <= |tail|
    ensures Decode(tail[..i], slots, end) == Plain(tail[..i], end)
  {
  }

  lemma {:induction false} DecodeCutWire(frames: seq<Frame>, tail: seq<byte>, slots: nat, i: nat, end: End)
    requires AllFit(frames) && Framed(frames, tail, slots) && i <= |Wire(frames, tail)|
    ensures Decode(Wire(frames, tail)[..i], slots, end) == CutWire(frames, tail, i, end)
  {
    hide Decode, FirstFrame, FrameBytes;
    if frames == [] {
      DecodeCutTail(tail, slots, i, end);
    } else {
      var j := i - FrameSize(frames[0]);
      DecodeCutFrame(frames[0], Wire(frames[1..], tail), slots, i, end);
      if j >= 0 {
        DecodeCutWire(frames[1..], tail, slots - 1, j, end);
      }
    }
  }

  lemma CarriedIsPart(f: Frame, i: nat)
    ensures CarriedByFrame(f, i) <= |f.payload|
  {
  }

  lemma PrefixAppend(p: seq<byte>, q: seq<byte>, i: nat)
    requires i <= |q|
    ensures (p + q)[..|p| + i] == p + q[..i]
  {
  }

  lemma {:induction false} CutWirePayload(frames: seq<Frame>, tail: seq<byte>, i: nat, end: End)
    requires AllFit(frames) && i <= |Wire(frames, tail)|
    ensures Carried(frames, i) <= |Payload(frames) + tail|
    ensures CutWire(frames, tail, i, end) ==
            Plain((Payload(frames) + tail)[..Carried(frames, i)],
                  if CutInsidePadding(frames, i) && end == EOF then UnexpectedEOF else end)
  {
    hide FrameBytes, CutInPadding, CarriedByFrame, FrameSize, Fits;
    if frames == [] {
      assert Payload(frames) + tail == tail;
    } else {
      var f, fs, size := frames[0], frames[1..], FrameSize(frames[0]);
      var more := Payload(fs) + tail;
      assert Payload(frames) + tail == f.payload + more;
      if i < size {
        assert CarriedByFrame(f, i) <= |f.payload| by { CarriedIsPart(f, i); }
        SliceAppend(f.payload, more, 0, CarriedByFrame(f, i));
      } else {
        CutWirePayload(fs, tail, i - size, end);
        PrefixAppend(f.payload, more, Carried(fs, i - size));
      }
    }
  }

  /** Truncation: a framed stream cut anywhere decodes to exactly the payload bytes that
      came before the cut. A cut at EOF passes for a clean end except inside padding. */
  lemma Truncation(frames: seq<Frame>, tail: seq<byte>, slots: nat, i: nat, end: End)
    requires AllFit(frames) && Framed(frames, tail, slots) && i <= |Wire(frames, tail)|
    ensures Carried(frames, i) <= |Payload(frames) + tail|
    ensures Decode(Wire(frames, tail)[..i], slots, end) ==
            Plain((Payload(frames) + tail)[..Carried(frames, i)],
                  if CutInsidePadding(frames, i) && end == EOF then UnexpectedEOF else end)
  {
    DecodeCutWire(frames, tail, slots, i, end);
    CutWirePayload(frames, tail, i, end);
  }

  /** Framing adds its overhead and nothing else: never more than 258 bytes a frame. */
  lemma {:induction false} WireSize(frames: seq<Frame>, tail: seq<byte>)
    requires AllFit(frames)
    ensures |Wire(frames, tail)| == |Payload(frames) + tail| + Overhead(frames)
    ensures 3 * |frames| <= Overhead(frames) <= 258 * |frames|
  {
    if frames != [] {
      WireSize(frames[1..], tail);
    }
  }
}
