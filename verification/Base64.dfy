/** The standard base64 encoding (section 4 of RFC 4648): its text form, a decoder that says
    what it had written when it met an error, and the loops that fill a buffer. */
module Base64 {
  import opened Streams

  const PAD: byte := 61   // '='

  /** The six bits of a character, or -1. */
  function Value(c: byte): int {
    if 65 <= c <= 90 then c - 65
    else if 97 <= c <= 122 then c - 97 + 26
    else if 48 <= c <= 57 then c - 48 + 52
    else if c == 43 then 62
    else if c == 47 then 63
    else -1
  }

  /** The character for six bits: A-Z, a-z, 0-9, '+', '/'. */
  function Digit(v: int): (c: byte)
    requires 0 <= v < 64
    ensures Value(c) == v && c != PAD && c != 32
  {
    if v < 26 then 65 + v
    else if v < 52 then 97 + (v - 26)
    else if v < 62 then 48 + (v - 52)
    else if v == 62 then 43
    else 47
  }

  predicate IsDigit(c: byte) { Value(c) >= 0 }

  /** One to three bytes as four characters. */
  function Group(s: seq<byte>): (g: seq<byte>)
    requires 1 <= |s| <= 3
    ensures |g| == 4
  {
    if |s| == 1 then [Digit(s[0] / 4), Digit(s[0] % 4 * 16), PAD, PAD]
    else if |s| == 2 then [Digit(s[0] / 4), Digit(s[0] % 4 * 16 + s[1] / 16), Digit(s[1] % 16 * 4), PAD]
    else [Digit(s[0] / 4), Digit(s[0] % 4 * 16 + s[1] / 16), Digit(s[1] % 16 * 4 + s[2] / 64), Digit(s[2] % 64)]
  }

  function Encode(s: seq<byte>): seq<byte> {
    if |s| == 0 then [] else if |s| <= 3 then Group(s) else Group(s[..3]) + Encode(s[3..])
  }

  function EncodedLen(n: nat): nat { (n + 2) / 3 * 4 }

  function DecodedLen(n: nat): nat { n / 4 * 3 }

  /** The bytes of one group of four characters, and whether it may be followed by more;
      nothing for four characters that are no group. Spare bits are not checked. */
  function Ungroup(g: seq<byte>): (r: (seq<byte>, bool))
    requires |g| == 4
    ensures |r.0| <= 3 && (r.1 ==> |r.0| == 3)
  {
    var a, b, c, d := Value(g[0]), Value(g[1]), Value(g[2]), Value(g[3]);
    if a < 0 || b < 0 then ([], false)
    else if c >= 0 && d >= 0 then ([a * 4 + b / 16, b % 16 * 16 + c / 4, c % 4 * 64 + d], true)
    else if c >= 0 && g[3] == PAD then ([a * 4 + b / 16, b % 16 * 16 + c / 4], false)
    else if g[2] == PAD && g[3] == PAD then ([a * 4 + b / 16], false)
    else ([], false)
  }

  /** What the decoder has written when it stops, and whether it met no error. */
  datatype Decoded = Decoded(bytes: seq<byte>, ok: bool)

  function Decode(s: seq<byte>): (r: Decoded)
    ensures |r.bytes| <= DecodedLen(|s|)
    decreases |s|
  {
    if s == [] then Decoded([], true)
    else if |s| < 4 then Decoded([], false)
    else
      var (bytes, more) := Ungroup(s[..4]);
      if more then
        var rest := Decode(s[4..]);
        Decoded(bytes + rest.bytes, rest.ok)
      else Decoded(bytes, bytes != [] && |s| == 4)
  }

  // ---------------------------------------------------------------- round trip

  /** Two neighbouring digits give back the byte they share. */
  lemma Neighbours(x: byte, y: byte, z: byte)
    ensures x / 4 * 4 + (x % 4 * 16 + y / 16) / 16 == x
    ensures (x % 4 * 16 + y / 16) % 16 * 16 + (y % 16 * 4 + z / 64) / 4 == y
    ensures (y % 16 * 4 + z / 64) % 4 * 64 + z % 64 == z
  {
  }

  lemma PadIsNoDigit()
    ensures Value(PAD) < 0
  {
  }

  lemma UngroupGroup(s: seq<byte>)
    requires 1 <= |s| <= 3
    ensures Ungroup(Group(s)) == (s, |s| == 3)
  {
    hide Digit, Value;
    assert Value(PAD) < 0 by { PadIsNoDigit(); }
    if |s| == 1 {
      Neighbours(s[0], 0, 0);
      assert s == [s[0]];
    } else if |s| == 2 {
      Neighbours(s[0], s[1], 0);
      assert s == [s[0], s[1]];
    } else {
      Neighbours(s[0], s[1], s[2]);
      assert s == [s[0], s[1], s[2]];
    }
  }

  lemma {:induction false} DecodeEncode(s: seq<byte>)
    ensures Decode(Encode(s)) == Decoded(s, true)
    decreases |s|
  {
    hide Group, Ungroup;
    if |s| > 3 {
      UngroupGroup(s[..3]);
      DecodeEncode(s[3..]);
      assert Encode(s)[..4] == Group(s[..3]);
      assert Encode(s)[4..] == Encode(s[3..]);
    } else if s != [] {
      UngroupGroup(s);
      assert Encode(s)[..4] == Group(s);
    }
  }

  /** Different bytes have different encodings. */
  lemma EncodeInjective(s: seq<byte>, t: seq<byte>)
    requires Encode(s) == Encode(t)
    ensures s == t
  {
    DecodeEncode(s);
    DecodeEncode(t);
  }

  predicate InAlphabet(c: byte) { IsDigit(c) || c == PAD }

  lemma GroupText(s: seq<byte>, i: nat)
    requires 1 <= |s| <= 3 && i < 4
    ensures InAlphabet(Group(s)[i])
  {
    hide Digit, Value;
  }

  lemma NoSpace()
    ensures !InAlphabet(32)
  {
  }

  /** An encoding consists of digits and padding characters, so it holds no space, and its
      length is the one the caller reserved. */
  lemma {:induction false} EncodedText(s: seq<byte>)
    ensures |Encode(s)| == EncodedLen(|s|)
    ensures forall i :: 0 <= i < |Encode(s)| ==> InAlphabet(Encode(s)[i])
    ensures 32 !in Encode(s)
    decreases |s|
  {
    hide Group, InAlphabet;
    assert !InAlphabet(32) by { NoSpace(); }
    if s != [] {
      var head, tail := if |s| > 3 then s[..3] else s, if |s| > 3 then s[3..] else [];
      assert Encode(s) == Group(head) + Encode(tail);
      EncodedText(tail);
      forall i | 0 <= i < 4 ensures InAlphabet(Group(head)[i]) {
        GroupText(head, i);
      }
    }
  }

  // ---------------------------------------------------------------- buffers

  lemma EncodeMore(src: seq<byte>)
    requires |src| > 3
    ensures Encode(src) == Group(src[..3]) + Encode(src[3..]) && |Group(src[..3])| == 4
  {
  }

  lemma EncodeLast(src: seq<byte>)
    requires 1 <= |src| <= 3
    ensures Encode(src) == Group(src) && |Group(src)| == 4
  {
  }

  /** The `k`-th group of up to three bytes. */
  function Bytes(src: seq<byte>, k: nat): (g: seq<byte>)
    requires 3 * k < |src|
    ensures 1 <= |g| <= 3
  {
    if |src| - 3 * k < 3 then src[3 * k..] else src[3 * k..3 * k + 3]
  }

  lemma Shifted(a: seq<byte>, b: seq<byte>, i: nat)
    requires |a| == 4 && i + 4 <= |b|
    ensures (a + b)[i + 4..i + 8] == b[i..i + 4]
  {
  }

  /** The `k`-th group of four characters stands for the `k`-th group of bytes. */
  lemma {:induction false} EncodeAt(src: seq<byte>, k: nat)
    requires 3 * k < |src|
    ensures 4 * k + 4 <= |Encode(src)| && Encode(src)[4 * k..4 * k + 4] == Group(Bytes(src, k))
    decreases k
  {
    hide Group, Encode;
    if |src| <= 3 {
      EncodeLast(src);
      assert Bytes(src, k) == src && k == 0;
    } else {
      EncodeMore(src);
      if k > 0 {
        EncodeAt(src[3..], k - 1);
        assert Bytes(src[3..], k - 1) == Bytes(src, k);
        Shifted(Group(src[..3]), Encode(src[3..]), 4 * k - 4);
      }
    }
  }

  /** Fills `dst` with the encoding of `src`. */
  method EncodeInto(dst: array<byte>, src: seq<byte>)
    requires dst.Length == EncodedLen(|src|)
    modifies dst
    ensures dst[..] == Encode(src)
  {
    hide Group, Encode;
    EncodedText(src);
    var si, di := 0, 0;
    var k := 0;
    while si < |src|
      invariant 0 <= di <= dst.Length && 0 <= si <= |src|
      invariant if si < |src| then si == 3 * k && di == 4 * k else di == dst.Length
      invariant forall i :: 0 <= i < di ==> dst[i] == Encode(src)[i]
    {
      EncodeAt(src, k);
      var g := Group(Bytes(src, k));
      assert forall i :: 0 <= i < 4 ==> g[i] == Encode(src)[di..di + 4][i];
      dst[di], dst[di + 1], dst[di + 2], dst[di + 3] := g[0], g[1], g[2], g[3];
      si, di, k := si + |Bytes(src, k)|, di + 4, k + 1;
    }
  }

  /** The decoder has read `si` characters and written `n` bytes. */
  ghost predicate Reached(src: seq<byte>, si: nat, n: nat) {
    && si <= |src| && n <= |Decode(src).bytes|
    && Decode(src[si..]) == Decoded(Decode(src).bytes[n..], Decode(src).ok)
  }

  lemma ReachedStep(src: seq<byte>, si: nat, n: nat)
    requires Reached(src, si, n) && si + 4 <= |src|
    ensures var (bytes, more) := Ungroup(src[si..si + 4]);
            var all := Decode(src);
            n + |bytes| <= |all.bytes| &&
            (forall k :: 0 <= k < |bytes| ==> all.bytes[n + k] == bytes[k]) &&
            if more then Reached(src, si + 4, n + |bytes|)
            else |all.bytes| == n + |bytes| && all.ok == (bytes != [] && si + 4 == |src|)
  {
    hide Ungroup;
    var t := src[si..];
    assert t[..4] == src[si..si + 4] && t[4..] == src[si + 4..];
    var (bytes, more) := Ungroup(t[..4]);
    assert Decode(src).bytes[n..] == bytes + if more then Decode(t[4..]).bytes else [];
    assert forall k :: 0 <= k < |bytes| ==> Decode(src).bytes[n..][k] == bytes[k];
    if more {
      assert Decode(src).bytes[n + |bytes|..] == Decode(src).bytes[n..][|bytes|..];
    }
  }

  lemma ReachedEnd(src: seq<byte>, si: nat, n: nat)
    requires Reached(src, si, n) && |src| - si < 4
    ensures |Decode(src).bytes| == n && Decode(src).ok == (si == |src|)
  {
  }

  lemma ReachedStart(src: seq<byte>)
    ensures Reached(src, 0, 0)
  {
    assert src[0..] == src && Decode(src).bytes[0..] == Decode(src).bytes;
  }

  /** Decodes `src` into a buffer that may be longer than what comes out; the rest of the
      buffer is left as it was. */
  method DecodeInto(dst: array<byte>, src: seq<byte>) returns (n: nat, ok: bool)
    requires dst.Length >= DecodedLen(|src|)
    modifies dst
    ensures n <= dst.Length && Decoded(dst[..n], ok) == Decode(src)
    ensures forall i :: n <= i < dst.Length ==> dst[i] == old(dst[i])
  {
    hide Decode, Ungroup, Reached;
    ghost var all := Decode(src);
    var si := 0;
    n := 0;
    assert Reached(src, 0, 0) by { ReachedStart(src); }
    while |src| - si >= 4
      invariant 0 <= si <= |src| && n <= |all.bytes| && Reached(src, si, n)
      invariant forall i :: 0 <= i < n ==> dst[i] == all.bytes[i]
      invariant forall i :: n <= i < dst.Length ==> dst[i] == old(dst[i])
    {
      var (bytes, more) := Ungroup(src[si..si + 4]);
      ReachedStep(src, si, n);
      if |bytes| > 2 { dst[n + 2] := bytes[2]; }
      if |bytes| > 1 { dst[n + 1] := bytes[1]; }
      if |bytes| > 0 { dst[n] := bytes[0]; }
      n, si := n + |bytes|, si + 4;
      if !more {
        assert dst[..n] == all.bytes;
        return n, bytes != [] && si == |src|;
      }
    }
    ReachedEnd(src, si, n);
    assert dst[..n] == all.bytes;
    ok := si == |src|;
  }

  // ---------------------------------------------------------------- against the standard's words

  const UPPER := "ABCDEFGHIJKLMNOPQRSTUVWXYZ"
  const LOWER := "abcdefghijklmnopqrstuvwxyz"

  /** Table 1 of RFC 4648. */
  const ALPHABET := UPPER + LOWER + "0123456789" + "+/"

  lemma UpperAt(v: int)
    requires 0 <= v < 26
    ensures UPPER[v] as int == 65 + v
  {
  }

  lemma LowerAt(v: int)
    requires 0 <= v < 26
    ensures LOWER[v] as int == 97 + v
  {
  }

  lemma DigitAt(v: int)
    requires 0 <= v < 10
    ensures "0123456789"[v] as int == 48 + v
  {
  }

  lemma DigitIsInTable(v: int)
    requires 0 <= v < 64
    ensures Digit(v) == ALPHABET[v] as int
  {
    if v < 26 {
      UpperAt(v);
    } else if v < 52 {
      LowerAt(v - 26);
    } else if v < 62 {
      DigitAt(v - 52);
    }
  }

  /** Bit `j` of a byte, the most significant first. */
  function BitOf(b: byte, j: nat): int
    requires j < 8
  {
    if j == 0 then b / 128 else if j == 1 then b / 64 % 2 else if j == 2 then b / 32 % 2
    else if j == 3 then b / 16 % 2 else if j == 4 then b / 8 % 2 else if j == 5 then b / 4 % 2
    else if j == 6 then b / 2 % 2 else b % 2
  }

  /** Bit `i` of a text of bytes, with zeros past its end. */
  function BitAt(s: seq<byte>, i: nat): int {
    if i / 8 < |s| then BitOf(s[i / 8], i % 8) else 0
  }

  /** The number formed by the bits 6k to 6k + 5. */
  function SixBits(s: seq<byte>, k: nat): int {
    32 * BitAt(s, 6 * k) + 16 * BitAt(s, 6 * k + 1) + 8 * BitAt(s, 6 * k + 2)
    + 4 * BitAt(s, 6 * k + 3) + 2 * BitAt(s, 6 * k + 4) + BitAt(s, 6 * k + 5)
  }

  lemma Upper2(b: byte)
    ensures b / 64 == 2 * BitOf(b, 0) + BitOf(b, 1) && b / 128 == BitOf(b, 0)
  {
  }

  lemma Upper4(b: byte)
    ensures b / 16 == 8 * BitOf(b, 0) + 4 * BitOf(b, 1) + 2 * BitOf(b, 2) + BitOf(b, 3)
  {
    Upper2(b);
    assert b / 16 == 2 * (b / 32) + b / 16 % 2 && b / 32 == 2 * (b / 64) + b / 32 % 2;
  }

  lemma Upper6(b: byte)
    ensures b / 4 == 32 * BitOf(b, 0) + 16 * BitOf(b, 1) + 8 * BitOf(b, 2) + 4 * BitOf(b, 3)
                     + 2 * BitOf(b, 4) + BitOf(b, 5)
  {
    Upper4(b);
    assert b / 4 == 2 * (b / 8) + b / 4 % 2 && b / 8 == 2 * (b / 16) + b / 8 % 2;
  }

  lemma AllBits(b: byte)
    ensures b == 4 * (b / 4) + 2 * BitOf(b, 6) + BitOf(b, 7)
  {
    assert b == 2 * (b / 2) + b % 2 && b / 2 == 2 * (b / 4) + b / 2 % 2;
  }

  /** The parts of a byte that a group is made of, by their bits. */
  lemma PartsByBits(b: byte)
    ensures b / 4 == 32 * BitOf(b, 0) + 16 * BitOf(b, 1) + 8 * BitOf(b, 2) + 4 * BitOf(b, 3)
                     + 2 * BitOf(b, 4) + BitOf(b, 5)
    ensures b % 4 == 2 * BitOf(b, 6) + BitOf(b, 7)
    ensures b / 16 == 8 * BitOf(b, 0) + 4 * BitOf(b, 1) + 2 * BitOf(b, 2) + BitOf(b, 3)
    ensures b % 16 == 8 * BitOf(b, 4) + 4 * BitOf(b, 5) + 2 * BitOf(b, 6) + BitOf(b, 7)
    ensures b / 64 == 2 * BitOf(b, 0) + BitOf(b, 1)
    ensures b % 64 == 32 * BitOf(b, 2) + 16 * BitOf(b, 3) + 8 * BitOf(b, 4) + 4 * BitOf(b, 5)
                      + 2 * BitOf(b, 6) + BitOf(b, 7)
  {
    Upper2(b);
    Upper4(b);
    Upper6(b);
    AllBits(b);
    hide BitOf;
    assert b == 4 * (b / 4) + b % 4 && b == 16 * (b / 16) + b % 16 && b == 64 * (b / 64) + b % 64;
  }

  lemma BitInByte(s: seq<byte>, q: nat, j: nat)
    requires j < 8
    ensures BitAt(s, 8 * q + j) == if q < |s| then BitOf(s[q], j) else 0
  {
    assert (8 * q + j) / 8 == q && (8 * q + j) % 8 == j;
  }

  /** The four numbers in up to three bytes. */
  lemma FirstSix(s: seq<byte>)
    requires 1 <= |s|
    ensures SixBits(s, 0) == s[0] / 4
  {
    hide BitOf, BitAt;
    PartsByBits(s[0]);
    BitInByte(s, 0, 0);
    BitInByte(s, 0, 1);
    BitInByte(s, 0, 2);
    BitInByte(s, 0, 3);
    BitInByte(s, 0, 4);
    BitInByte(s, 0, 5);
  }

  lemma SecondSix(s: seq<byte>)
    requires 1 <= |s|
    ensures SixBits(s, 1) == s[0] % 4 * 16 + if |s| > 1 then s[1] / 16 else 0
  {
    hide BitOf, BitAt;
    PartsByBits(s[0]);
    if |s| > 1 {
      PartsByBits(s[1]);
    }
    BitInByte(s, 0, 6);
    BitInByte(s, 0, 7);
    BitInByte(s, 1, 0);
    BitInByte(s, 1, 1);
    BitInByte(s, 1, 2);
    BitInByte(s, 1, 3);
  }

  lemma ThirdSix(s: seq<byte>)
    requires 2 <= |s|
    ensures SixBits(s, 2) == s[1] % 16 * 4 + if |s| > 2 then s[2] / 64 else 0
  {
    hide BitOf, BitAt;
    PartsByBits(s[1]);
    if |s| > 2 {
      PartsByBits(s[2]);
    }
    BitInByte(s, 1, 4);
    BitInByte(s, 1, 5);
    BitInByte(s, 1, 6);
    BitInByte(s, 1, 7);
    BitInByte(s, 2, 0);
    BitInByte(s, 2, 1);
  }

  lemma FourthSix(s: seq<byte>)
    requires 3 <= |s|
    ensures SixBits(s, 3) == s[2] % 64
  {
    hide BitOf, BitAt;
    PartsByBits(s[2]);
    BitInByte(s, 2, 2);
    BitInByte(s, 2, 3);
    BitInByte(s, 2, 4);
    BitInByte(s, 2, 5);
    BitInByte(s, 2, 6);
    BitInByte(s, 2, 7);
  }

  /** What the group has at each of its four places. */
  lemma GroupIsSixBits(s: seq<byte>, k: nat)
    requires 1 <= |s| <= 3 && k < 4
    ensures 6 * k < 8 * |s| ==> 0 <= SixBits(s, k) < 64 && Group(s)[k] == Digit(SixBits(s, k))
    ensures 6 * k >= 8 * |s| ==> Group(s)[k] == PAD
  {
    hide SixBits, Digit;
    FirstSix(s);
    SecondSix(s);
    if |s| > 1 {
      ThirdSix(s);
    }
    if |s| > 2 {
      FourthSix(s);
    }
  }

  /** Three bytes are 24 bits, or four numbers. */
  lemma BitsOfRest(s: seq<byte>, i: nat)
    requires |s| >= 3
    ensures BitAt(s, i + 24) == BitAt(s[3..], i)
  {
    assert (i + 24) / 8 == i / 8 + 3 && (i + 24) % 8 == i % 8;
  }

  lemma SixBitsOfRest(s: seq<byte>, k: nat)
    requires |s| >= 3
    ensures SixBits(s, k + 4) == SixBits(s[3..], k)
  {
    hide BitAt;
    BitsOfRest(s, 6 * k);
    BitsOfRest(s, 6 * k + 1);
    BitsOfRest(s, 6 * k + 2);
    BitsOfRest(s, 6 * k + 3);
    BitsOfRest(s, 6 * k + 4);
    BitsOfRest(s, 6 * k + 5);
  }

  lemma SixBitsOfFirst(s: seq<byte>, k: nat)
    requires |s| >= 3 && k < 4
    ensures SixBits(s, k) == SixBits(s[..3], k)
  {
    hide BitOf;
  }

  lemma {:induction false} EncodedDigit(s: seq<byte>, k: nat)
    requires k < |Encode(s)|
    ensures 6 * k < 8 * |s| ==> 0 <= SixBits(s, k) < 64 && Encode(s)[k] == Digit(SixBits(s, k))
    ensures 6 * k >= 8 * |s| ==> Encode(s)[k] == PAD
    decreases |s|
  {
    hide SixBits, Group, Digit;
    if |s| <= 3 {
      GroupIsSixBits(s, k);
    } else if k < 4 {
      SixBitsOfFirst(s, k);
      GroupIsSixBits(s[..3], k);
    } else {
      SixBitsOfRest(s, k - 4);
      EncodedDigit(s[3..], k - 4);
    }
  }

  /** The encoding in the words of section 4 of RFC 4648: the `k`-th character is the one the
      table has for the bits 6k to 6k + 5, and '=' behind the last of these. */
  lemma EncodedCharacter(s: seq<byte>, k: nat)
    requires k < |Encode(s)|
    ensures 6 * k < 8 * |s| ==>
              0 <= SixBits(s, k) < 64 &&
              Encode(s)[k] as char ==
              ("ABCDEFGHIJKLMNOPQRSTUVWXYZ" + "abcdefghijklmnopqrstuvwxyz" + "0123456789" + "+/")[SixBits(s, k)]
    ensures 6 * k >= 8 * |s| ==> Encode(s)[k] as char == '='
  {
    hide SixBits, Encode, Digit;
    EncodedDigit(s, k);
    if 6 * k < 8 * |s| {
      DigitIsInTable(SixBits(s, k));
    }
  }

  lemma ShortVectors()
    ensures Group([102]) == [90, 103, 61, 61]
    ensures Group([102, 111]) == [90, 109, 56, 61]
    ensures Group([102, 111, 111]) == [90, 109, 57, 118]
    ensures Group([98]) == [89, 103, 61, 61]
    ensures Group([98, 97]) == [89, 109, 69, 61]
    ensures Group([98, 97, 114]) == [89, 109, 70, 121]
  {
  }

  lemma EncodeFoo(s: seq<byte>)
    requires 1 <= |s| <= 3
    ensures Encode([102, 111, 111] + s) == Group([102, 111, 111]) + Group(s)
  {
    hide Group;
    EncodeMore([102, 111, 111] + s);
    EncodeLast(s);
    assert ([102, 111, 111] + s)[..3] == [102, 111, 111] && ([102, 111, 111] + s)[3..] == s;
  }

  /** The test vectors of section 10 of RFC 4648, up to "foobar" and "Zm9vYmFy". */
  lemma TestVectors()
    ensures Encode([]) == []
    ensures Encode([102]) == [90, 103, 61, 61]
    ensures Encode([102, 111]) == [90, 109, 56, 61]
    ensures Encode([102, 111, 111]) == [90, 109, 57, 118]
    ensures Encode([102, 111, 111, 98]) == [90, 109, 57, 118, 89, 103, 61, 61]
    ensures Encode([102, 111, 111, 98, 97]) == [90, 109, 57, 118, 89, 109, 69, 61]
    ensures Encode([102, 111, 111, 98, 97, 114]) == [90, 109, 57, 118, 89, 109, 70, 121]
  {
    ShortVectors();
    EncodeLast([102]);
    EncodeLast([102, 111]);
    EncodeLast([102, 111, 111]);
    EncodeFoo([98]);
    EncodeFoo([98, 97]);
    EncodeFoo([98, 97, 114]);
    assert Encode([]) == [];
    hide Group, Encode;
    assert [102, 111, 111] + [98] == [102, 111, 111, 98] && [102, 111, 111] + [98, 97] == [102, 111, 111, 98, 97];
    assert [102, 111, 111] + [98, 97, 114] == [102, 111, 111, 98, 97, 114];
  }

  // ---------------------------------------------------------------- what the decoder accepts

  lemma DigitOfValue(c: byte)
    requires IsDigit(c)
    ensures 0 <= Value(c) < 64 && Digit(Value(c)) == c
  {
  }

  /** The table's characters are the digits. */
  lemma IsDigitExactly(c: byte)
    ensures IsDigit(c) <==> c as char in ALPHABET
  {
    hide Value, Digit;
    if IsDigit(c) {
      DigitOfValue(c);
      DigitIsInTable(Value(c));
    }
    if c as char in ALPHABET {
      var v :| 0 <= v < |ALPHABET| && ALPHABET[v] == c as char;
      DigitIsInTable(v);
    }
  }

  /** Whole groups of four, characters of the table, and up to two '=' at the end. */
  ghost predicate WellFormed(s: seq<byte>, pads: nat) {
    && |s| % 4 == 0 && pads <= 2 && pads <= |s|
    && (forall i :: 0 <= i < |s| - pads ==> s[i] as char in ALPHABET)
    && (forall i :: |s| - pads <= i < |s| ==> s[i] as char == '=')
  }

  lemma WellFormedMore(s: seq<byte>, pads: nat)
    requires |s| > 4
    ensures WellFormed(s, pads) <==>
            WellFormed(s[4..], pads) && forall i :: 0 <= i < 4 ==> s[i] as char in ALPHABET
  {
    hide ALPHABET;
    if WellFormed(s, pads) {
      assert forall i :: 0 <= i < |s| - 4 ==> s[4..][i] == s[i + 4];
    }
    if WellFormed(s[4..], pads) && forall i :: 0 <= i < 4 ==> s[i] as char in ALPHABET {
      forall i | 4 <= i < |s| ensures s[i] == s[4..][i - 4] {
      }
    }
  }

  /** What makes a group of four acceptable, and what lets another follow it. */
  lemma GroupAccepted(g: seq<byte>)
    requires |g| == 4
    ensures Ungroup(g).1 <==> forall i :: 0 <= i < 4 ==> IsDigit(g[i])
    ensures Ungroup(g).0 != [] <==>
            IsDigit(g[0]) && IsDigit(g[1]) &&
            ((IsDigit(g[2]) && (IsDigit(g[3]) || g[3] == PAD)) || (g[2] == PAD && g[3] == PAD))
  {
    PadIsNoDigit();
  }

  lemma LastGroup(s: seq<byte>)
    requires |s| == 4 && forall i :: 0 <= i < |s| ==> (IsDigit(s[i]) <==> s[i] as char in ALPHABET)
    ensures Decode(s).ok <==> exists pads :: WellFormed(s, pads)
  {
    hide ALPHABET, Ungroup, Value;
    assert s[..4] == s && s[4..] == [];
    GroupAccepted(s);
    if Decode(s).ok {
      assert WellFormed(s, if IsDigit(s[3]) then 0 else if IsDigit(s[2]) then 1 else 2);
    }
    if pads :| WellFormed(s, pads) {
      assert s[0] as char in ALPHABET && s[1] as char in ALPHABET;
    }
  }

  lemma DecodeMore(s: seq<byte>)
    requires |s| > 4
    ensures Decode(s).ok <==> Ungroup(s[..4]).1 && Decode(s[4..]).ok
  {
  }

  ghost predicate Accepted(s: seq<byte>) { exists pads :: WellFormed(s, pads) }

  predicate InTable(c: byte) { c as char in ALPHABET }

  lemma AcceptedMore(s: seq<byte>)
    requires |s| > 4
    ensures Accepted(s) <==> Accepted(s[4..]) && forall i :: 0 <= i < 4 ==> InTable(s[i])
  {
    hide ALPHABET, WellFormed;
    forall pads
      ensures WellFormed(s, pads) <==> WellFormed(s[4..], pads) && forall i :: 0 <= i < 4 ==> InTable(s[i])
    {
      WellFormedMore(s, pads);
    }
  }

  lemma FourDigits(s: seq<byte>)
    requires |s| >= 4
    ensures Ungroup(s[..4]).1 <==> forall i :: 0 <= i < 4 ==> InTable(s[i])
  {
    hide ALPHABET, Ungroup, IsDigit;
    GroupAccepted(s[..4]);
    forall i | 0 <= i < 4 ensures IsDigit(s[..4][i]) <==> InTable(s[i]) {
      IsDigitExactly(s[i]);
    }
    assert forall i :: 0 <= i < 4 ==> s[..4][i] == s[i];
  }

  lemma ShortAccepted(s: seq<byte>)
    requires |s| <= 4 && forall i :: 0 <= i < |s| ==> (IsDigit(s[i]) <==> s[i] as char in ALPHABET)
    ensures Decode(s).ok <==> exists pads :: WellFormed(s, pads)
  {
    hide ALPHABET, Ungroup, Value;
    if s == [] {
      assert WellFormed(s, 0);
    } else if |s| == 4 {
      LastGroup(s);
    }
  }

  /** The decoder accepts exactly these. */
  lemma {:induction false} DecodeAcceptsExactly(s: seq<byte>)
    ensures Decode(s).ok <==> exists pads :: WellFormed(s, pads)
    decreases |s|
  {
    if |s| <= 4 {
      forall i | 0 <= i < |s| ensures IsDigit(s[i]) <==> s[i] as char in ALPHABET {
        IsDigitExactly(s[i]);
      }
      ShortAccepted(s);
    } else {
      hide ALPHABET, Ungroup, Value, WellFormed, Decode, InTable;
      DecodeMore(s);
      FourDigits(s);
      DecodeAcceptsExactly(s[4..]);
      AcceptedMore(s);
    }
  }
}
