/** Network prefixes: masking byte by byte, as `net.IPNet.Contains` does it, is comparing a
    prefix of the bits (section 3.1 of RFC 4632). */
module Networks {

  /** An address in 4 or 16 bytes. */
  type Ip = seq<bv8>

  /** A network in 4 or 16 bytes whose mask has this many leading ones. */
  datatype Network = Network(base: Ip, ones: nat)

  /** The first bytes of an IPv4 address in IPv6 form. */
  const MAPPED: Ip := [0, 0, 0, 0, 0, 0, 0, 0, 0, 0, 0xff, 0xff]

  /** An IPv4 address in IPv6 form is the IPv4 address. */
  function Shorten(ip: Ip): Ip {
    if |ip| == 16 && ip[..12] == MAPPED then ip[12..] else ip
  }

  // ---------------------------------------------------------------- bits

  function TopBit(j: nat): bv8 {
    if j == 0 then 0x80 else if j == 1 then 0x40 else if j == 2 then 0x20 else if j == 3 then 0x10
    else if j == 4 then 0x08 else if j == 5 then 0x04 else if j == 6 then 0x02 else 0x01
  }

  /** A byte whose first `n` bits are ones. */
  function Ones(n: nat): bv8 {
    if n == 0 then 0 else if n == 1 then 0x80 else if n == 2 then 0xc0 else if n == 3 then 0xe0
    else if n == 4 then 0xf0 else if n == 5 then 0xf8 else if n == 6 then 0xfc else if n == 7 then 0xfe else 0xff
  }

  predicate HasBit(b: bv8, j: nat) { b & TopBit(j) != 0 }

  predicate SameUnder(a: bv8, b: bv8, mask: bv8) { a & mask == b & mask }

  lemma NoMask(a: bv8, b: bv8)
    ensures SameUnder(a, b, 0)
  {
  }

  lemma TopMask(a: bv8, b: bv8)
    ensures SameUnder(a, b, 0x80) <==> HasBit(a, 0) == HasBit(b, 0)
  {
  }

  lemma FirstBit(a: bv8, b: bv8)
    ensures SameUnder(a, b, Ones(1)) <==> SameUnder(a, b, Ones(0)) && HasBit(a, 0) == HasBit(b, 0)
  {
    hide SameUnder, HasBit, TopBit;
    NoMask(a, b);
    TopMask(a, b);
    assert Ones(0) == 0 && Ones(1) == 0x80;
  }

  lemma SecondBit(a: bv8, b: bv8)
    ensures SameUnder(a, b, Ones(2)) <==> SameUnder(a, b, Ones(1)) && HasBit(a, 1) == HasBit(b, 1)
  {
  }

  lemma ThirdBit(a: bv8, b: bv8)
    ensures SameUnder(a, b, Ones(3)) <==> SameUnder(a, b, Ones(2)) && HasBit(a, 2) == HasBit(b, 2)
  {
  }

  lemma FourthBit(a: bv8, b: bv8)
    ensures SameUnder(a, b, Ones(4)) <==> SameUnder(a, b, Ones(3)) && HasBit(a, 3) == HasBit(b, 3)
  {
  }

  lemma FifthBit(a: bv8, b: bv8)
    ensures SameUnder(a, b, Ones(5)) <==> SameUnder(a, b, Ones(4)) && HasBit(a, 4) == HasBit(b, 4)
  {
  }

  lemma SixthBit(a: bv8, b: bv8)
    ensures SameUnder(a, b, Ones(6)) <==> SameUnder(a, b, Ones(5)) && HasBit(a, 5) == HasBit(b, 5)
  {
  }

  lemma SeventhBit(a: bv8, b: bv8)
    ensures SameUnder(a, b, Ones(7)) <==> SameUnder(a, b, Ones(6)) && HasBit(a, 6) == HasBit(b, 6)
  {
  }

  lemma EighthBit(a: bv8, b: bv8)
    ensures SameUnder(a, b, Ones(8)) <==> SameUnder(a, b, Ones(7)) && HasBit(a, 7) == HasBit(b, 7)
  {
  }

  /** One more bit, for each of the eight places. */
  lemma OneMoreBit(a: bv8, b: bv8, n: nat)
    requires n < 8
    ensures SameUnder(a, b, Ones(n + 1)) <==> SameUnder(a, b, Ones(n)) && HasBit(a, n) == HasBit(b, n)
  {
    hide SameUnder, HasBit, Ones;
    if n == 0 {
      FirstBit(a, b);
    } else if n == 1 {
      SecondBit(a, b);
    } else if n == 2 {
      ThirdBit(a, b);
    } else if n == 3 {
      FourthBit(a, b);
    } else if n == 4 {
      FifthBit(a, b);
    } else if n == 5 {
      SixthBit(a, b);
    } else if n == 6 {
      SeventhBit(a, b);
    } else {
      EighthBit(a, b);
    }
  }

  lemma {:induction false} MaskedByte(a: bv8, b: bv8, n: nat)
    requires n <= 8
    ensures SameUnder(a, b, Ones(n)) <==> forall j :: 0 <= j < n ==> HasBit(a, j) == HasBit(b, j)
  {
    hide HasBit;
    if n > 0 {
      hide SameUnder, Ones;
      MaskedByte(a, b, n - 1);
      OneMoreBit(a, b, n - 1);
    }
  }

  // ---------------------------------------------------------------- networks

  /** The first `ones` bits are the same; bit `j` of byte `i` is bit `8 * i + j`. */
  ghost predicate SamePrefix(a: Ip, b: Ip, ones: nat)
    requires |a| == |b|
  {
    forall i, j :: 0 <= i < |a| && 0 <= j < 8 && 8 * i + j < ones ==> HasBit(a[i], j) == HasBit(b[i], j)
  }

  /** A network of IPv4 addresses in IPv6 form is the IPv4 network: its base is shortened
      like an address, and the last four bytes of its mask are left. */
  function ShortenNetwork(n: Network): Network {
    if Shorten(n.base) == n.base then n
    else Network(Shorten(n.base), if n.ones < 96 then 0 else n.ones - 96)
  }

  ghost predicate HasPrefix(n: Network, x: Ip) {
    |x| == |n.base| && SamePrefix(x, n.base, n.ones)
  }

  /** The address has the network's first bits, both shortened where they can be. */
  ghost predicate Inside(n: Network, ip: Ip) { HasPrefix(ShortenNetwork(n), Shorten(ip)) }

  /** How many bits of byte `i` the mask covers. */
  function Covered(ones: nat, i: nat): (n: nat)
    ensures n <= 8
  {
    if ones <= 8 * i then 0 else if ones - 8 * i < 8 then ones - 8 * i else 8
  }

  /** Byte `i` of the mask, as `net.CIDRMask` fills it. */
  function MaskByte(ones: nat, i: nat): bv8 { Ones(Covered(ones, i)) }

  predicate SameMasked(a: Ip, b: Ip, ones: nat, i: nat)
    requires i < |a| == |b|
  {
    SameUnder(a[i], b[i], MaskByte(ones, i))
  }

  lemma PrefixIsMask(a: Ip, b: Ip, ones: nat)
    requires |a| == |b|
    ensures SamePrefix(a, b, ones) <==> forall i :: 0 <= i < |a| ==> SameMasked(a, b, ones, i)
  {
    hide HasBit, SameUnder, Ones;
    forall i | 0 <= i < |a|
      ensures SameMasked(a, b, ones, i) <==>
              forall j :: 0 <= j < Covered(ones, i) ==> HasBit(a[i], j) == HasBit(b[i], j)
    {
      MaskedByte(a[i], b[i], Covered(ones, i));
    }
  }

  /** `net.IPNet.Contains`. */
  method Contains(n: Network, ip: Ip) returns (r: bool)
    ensures r <==> Inside(n, ip)
  {
    hide SameMasked, SamePrefix;
    var m, x := ShortenNetwork(n), Shorten(ip);
    if |x| != |m.base| {
      return false;
    }
    PrefixIsMask(x, m.base, m.ones);
    for i := 0 to |x|
      invariant forall j :: 0 <= j < i ==> SameMasked(x, m.base, m.ones, j)
    {
      if !SameMasked(x, m.base, m.ones, i) {
        return false;
      }
    }
    return true;
  }

  // ---------------------------------------------------------------- the ranges denied by default

  const ZEROS: Ip := [0, 0, 0, 0, 0, 0, 0, 0, 0, 0, 0, 0]

  /** 10.0.0.0/8, 127.0.0.0/8, 172.16.0.0/12, 192.168.0.0/16, ::1/128 and fe80::/10. */
  const PRIVATE: seq<Network> := [
    Network([10, 0, 0, 0], 8),
    Network([127, 0, 0, 0], 8),
    Network([172, 16, 0, 0], 12),
    Network([192, 168, 0, 0], 16),
    Network(ZEROS + [0, 0, 0, 1], 128),
    Network([0xfe, 0x80] + ZEROS + [0, 0], 10)
  ]

  predicate PrivateAddress(ip: Ip) {
    var x := Shorten(ip);
    || (|x| == 4 && (x[0] == 10 || x[0] == 127 || (x[0] == 172 && 16 <= x[1] <= 31) || (x[0] == 192 && x[1] == 168)))
    || (|x| == 16 && (x == ZEROS + [0, 0, 0, 1] || (x[0] == 0xfe && 0x80 <= x[1] <= 0xbf)))
  }

  ghost predicate InPrivateRange(ip: Ip) {
    exists i :: 0 <= i < |PRIVATE| && Inside(PRIVATE[i], ip)
  }

  ghost predicate AllMasked(x: Ip, n: Network)
    requires |x| == |n.base|
  {
    forall i :: 0 <= i < |n.base| ==> SameMasked(x, n.base, n.ones, i)
  }

  lemma InsideIsMasked(n: Network, ip: Ip)
    requires ShortenNetwork(n) == n
    ensures Inside(n, ip) <==>
            |Shorten(ip)| == |n.base| && AllMasked(Shorten(ip), n)
  {
    hide SamePrefix, SameMasked;
    if |Shorten(ip)| == |n.base| {
      PrefixIsMask(Shorten(ip), n.base, n.ones);
    }
  }

  lemma FullMask(a: bv8, b: bv8)
    ensures SameUnder(a, b, 0xff) <==> a == b
  {
  }

  /** Masking with no ones hides a byte, with eight shows it. */
  lemma WholeByte(a: bv8, b: bv8)
    ensures SameUnder(a, b, Ones(0)) && (SameUnder(a, b, Ones(8)) <==> a == b)
  {
    hide SameUnder;
    NoMask(a, b);
    FullMask(a, b);
    assert Ones(0) == 0 && Ones(8) == 0xff;
  }

  lemma Short(x: Ip, b: Ip, ones: nat)
    requires |x| == 4 == |b| && ones <= 16
    ensures AllMasked(x, Network(b, ones)) <==> SameMasked(x, b, ones, 0) && SameMasked(x, b, ones, 1)
  {
    hide SameUnder, Ones;
    WholeByte(x[2], b[2]);
    WholeByte(x[3], b[3]);
  }

  lemma FirstByteOnly(x: Ip, b: Ip)
    requires |x| == 4 == |b|
    ensures AllMasked(x, Network(b, 8)) <==> x[0] == b[0]
  {
    hide SameUnder, Ones, AllMasked;
    Short(x, b, 8);
    WholeByte(x[0], b[0]);
    WholeByte(x[1], b[1]);
  }

  lemma TwoBytes(x: Ip, b: Ip)
    requires |x| == 4 == |b|
    ensures AllMasked(x, Network(b, 16)) <==> x[0] == b[0] && x[1] == b[1]
  {
    hide SameUnder, Ones, AllMasked;
    Short(x, b, 16);
    WholeByte(x[0], b[0]);
    WholeByte(x[1], b[1]);
  }

  lemma UpperHalf(b: bv8)
    ensures SameUnder(b, 16, Ones(4)) <==> 16 <= b <= 31
  {
  }

  lemma OneAndAHalfBytes(x: Ip)
    requires |x| == 4
    ensures AllMasked(x, Network([172, 16, 0, 0], 12)) <==> x[0] == 172 && 16 <= x[1] <= 31
  {
    Short(x, [172, 16, 0, 0], 12);
    hide AllMasked;
    WholeByte(x[0], 172);
    UpperHalf(x[1]);
  }

  lemma UpperTwo(b: bv8)
    ensures SameUnder(b, 0x80, Ones(2)) <==> 0x80 <= b <= 0xbf
  {
  }

  lemma LinkLocal(x: Ip)
    requires |x| == 16
    ensures AllMasked(x, Network([0xfe, 0x80] + ZEROS + [0, 0], 10)) <==> x[0] == 0xfe && 0x80 <= x[1] <= 0xbf
  {
    var b: Ip := [0xfe, 0x80] + ZEROS + [0, 0];
    WholeByte(x[0], 0xfe);
    assert SameUnder(x[1], 0x80, Ones(2)) <==> 0x80 <= x[1] <= 0xbf by { UpperTwo(x[1]); }
    hide SameUnder, Ones;
    forall i | 2 <= i < 16 ensures SameMasked(x, b, 10, i) {
      WholeByte(x[i], b[i]);
    }
    assert SameMasked(x, b, 10, 0) <==> x[0] == 0xfe;
    assert SameMasked(x, b, 10, 1) <==> 0x80 <= x[1] <= 0xbf;
  }

  lemma Loopback(x: Ip)
    requires |x| == 16
    ensures AllMasked(x, Network(ZEROS + [0, 0, 0, 1], 128)) <==> x == ZEROS + [0, 0, 0, 1]
  {
    hide SameUnder, Ones;
    var b: Ip := ZEROS + [0, 0, 0, 1];
    forall i | 0 <= i < 16 ensures SameMasked(x, b, 128, i) <==> x[i] == b[i] {
      WholeByte(x[i], b[i]);
    }
  }

  /** The six networks, written out as ranges of addresses. */
  lemma PrivateRanges(ip: Ip)
    requires |ip| == 4 || |ip| == 16
    ensures InPrivateRange(ip) <==> PrivateAddress(ip)
  {
    hide AllMasked, SamePrefix;
    var x := Shorten(ip);
    assert PRIVATE[4].base[..12] == PRIVATE[4].base[..12] && PRIVATE[4].base[10] == 0 && PRIVATE[5].base[0] == 0xfe;
    forall i | 0 <= i < |PRIVATE|
      ensures Inside(PRIVATE[i], ip) <==> |x| == |PRIVATE[i].base| && AllMasked(x, PRIVATE[i])
    {
      InsideIsMasked(PRIVATE[i], ip);
    }
    assert InPrivateRange(ip) <==>
      || Inside(PRIVATE[0], ip) || Inside(PRIVATE[1], ip) || Inside(PRIVATE[2], ip)
      || Inside(PRIVATE[3], ip) || Inside(PRIVATE[4], ip) || Inside(PRIVATE[5], ip);
    if |x| == 4 {
      FirstByteOnly(x, PRIVATE[0].base);
      FirstByteOnly(x, PRIVATE[1].base);
      OneAndAHalfBytes(x);
      TwoBytes(x, PRIVATE[3].base);
    } else {
      Loopback(x);
      LinkLocal(x);
    }
  }

  /** An IPv4 address in 16 bytes, ::ffff:a.b.c.d, is in the networks its four bytes are in. */
  lemma MappedAddress(n: Network, a: Ip)
    requires |a| == 4
    ensures Inside(n, [0, 0, 0, 0, 0, 0, 0, 0, 0, 0, 0xff, 0xff] + a) <==> Inside(n, a)
  {
    var ip: Ip := [0, 0, 0, 0, 0, 0, 0, 0, 0, 0, 0xff, 0xff] + a;
    assert ip[..12] == [0, 0, 0, 0, 0, 0, 0, 0, 0, 0, 0xff, 0xff] && ip[12..] == a;
  }

  /** Any other address in 16 bytes is in no IPv4 network. */
  lemma NotMapped(n: Network, ip: Ip)
    requires |ip| == 16 && ip[..12] != [0, 0, 0, 0, 0, 0, 0, 0, 0, 0, 0xff, 0xff] && |n.base| == 4
    ensures !Inside(n, ip)
  {
  }

  /** An IPv4 network written in IPv6 form, as in ::ffff:0:0/96, holds the same addresses as
      the network it stands for. */
  lemma MappedNetwork(a: Ip, ones: nat, ip: Ip)
    requires |a| == 4
    ensures Inside(Network([0, 0, 0, 0, 0, 0, 0, 0, 0, 0, 0xff, 0xff] + a, 96 + ones), ip) <==>
            Inside(Network(a, ones), ip)
  {
    assert (MAPPED + a)[..12] == MAPPED && (MAPPED + a)[12..] == a;
    assert Shorten(MAPPED + a) == a;
  }

  /** With a shorter prefix it holds all IPv4 addresses, in four bytes or in sixteen. */
  lemma WideMappedNetwork(a: Ip, ones: nat, ip: Ip)
    requires |a| == 4 && ones <= 96
    ensures Inside(Network([0, 0, 0, 0, 0, 0, 0, 0, 0, 0, 0xff, 0xff] + a, ones), ip) <==>
            |ip| == 4 || (|ip| == 16 && ip[..12] == [0, 0, 0, 0, 0, 0, 0, 0, 0, 0, 0xff, 0xff])
  {
    assert (MAPPED + a)[..12] == MAPPED && (MAPPED + a)[12..] == a;
    assert Shorten(MAPPED + a) == a;
  }

  // ---------------------------------------------------------------- networks in figures

  lemma OneBitQuotient(a: bv8, b: bv8)
    ensures SameUnder(a, b, Ones(1)) <==> a / 128 == b / 128
  {
  }

  lemma TwoBitQuotient(a: bv8, b: bv8)
    ensures SameUnder(a, b, Ones(2)) <==> a / 64 == b / 64
  {
  }

  lemma ThreeBitQuotient(a: bv8, b: bv8)
    ensures SameUnder(a, b, Ones(3)) <==> a / 32 == b / 32
  {
  }

  lemma FourBitQuotient(a: bv8, b: bv8)
    ensures SameUnder(a, b, Ones(4)) <==> a / 16 == b / 16
  {
  }

  lemma FiveBitQuotient(a: bv8, b: bv8)
    ensures SameUnder(a, b, Ones(5)) <==> a / 8 == b / 8
  {
  }

  lemma SixBitQuotient(a: bv8, b: bv8)
    ensures SameUnder(a, b, Ones(6)) <==> a / 4 == b / 4
  {
  }

  lemma SevenBitQuotient(a: bv8, b: bv8)
    ensures SameUnder(a, b, Ones(7)) <==> a / 2 == b / 2
  {
  }

  /** A byte by what is left of it when its last `8 - n` bits are dropped. */
  predicate SameQuotient(a: bv8, b: bv8, n: nat) {
    if n == 1 then a / 128 == b / 128 else if n == 2 then a / 64 == b / 64 else if n == 3 then a / 32 == b / 32
    else if n == 4 then a / 16 == b / 16 else if n == 5 then a / 8 == b / 8 else if n == 6 then a / 4 == b / 4
    else n != 7 || a / 2 == b / 2
  }

  lemma MaskIsQuotient(a: bv8, b: bv8, n: nat)
    requires 1 <= n <= 7
    ensures SameUnder(a, b, Ones(n)) <==> SameQuotient(a, b, n)
  {
    hide SameUnder, Ones;
    if n == 1 {
      OneBitQuotient(a, b);
    } else if n == 2 {
      TwoBitQuotient(a, b);
    } else if n == 3 {
      ThreeBitQuotient(a, b);
    } else if n == 4 {
      FourBitQuotient(a, b);
    } else if n == 5 {
      FiveBitQuotient(a, b);
    } else if n == 6 {
      SixBitQuotient(a, b);
    } else {
      SevenBitQuotient(a, b);
    }
  }

  /** An address is in a network exactly when the bytes that the prefix covers whole are the
      same, and the next one is the same up to its last bits. */
  lemma InsideInFigures(n: Network, ip: Ip)
    requires |ip| == |n.base| && Shorten(ip) == ip && Shorten(n.base) == n.base && n.ones <= 8 * |ip|
    ensures Inside(n, ip) <==>
            (forall i :: 0 <= i < n.ones / 8 ==> ip[i] == n.base[i]) &&
            (n.ones % 8 > 0 ==> SameQuotient(ip[n.ones / 8], n.base[n.ones / 8], n.ones % 8))
  {
    hide SameUnder, Ones, SameQuotient, SamePrefix;
    PrefixIsMask(ip, n.base, n.ones);
    var k, r := n.ones / 8, n.ones % 8;
    forall i | 0 <= i < |ip|
      ensures i < k ==> (SameMasked(ip, n.base, n.ones, i) <==> ip[i] == n.base[i])
      ensures i == k && r > 0 ==> (SameMasked(ip, n.base, n.ones, i) <==> SameQuotient(ip[i], n.base[i], r))
      ensures i > k || (i == k && r == 0) ==> SameMasked(ip, n.base, n.ones, i)
    {
      WholeByte(ip[i], n.base[i]);
      if i == k && r > 0 {
        MaskIsQuotient(ip[i], n.base[i], r);
      }
    }
  }
}
