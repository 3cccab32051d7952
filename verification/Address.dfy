/** IPv4 addresses, CIDR arithmetic and the address blocks that `Config::validate` relies on. */
module Address {
  import opened Wrappers
  import opened Text

  type Ipv4 = a: nat | a < 0x1_0000_0000
  type PrefixLen = l: nat | l <= 32

  // ipnet::IpNet. An IPv6 network never survives validation, so its content is not needed.
  datatype IpNet = V4(addr: Ipv4, len: PrefixLen) | V6

  function Octet(a: Ipv4, i: nat): (o: nat)
    requires i < 4
    ensures o < 256
  {
    if i == 0 then a / 0x100_0000
    else if i == 1 then a / 0x1_0000 % 0x100
    else if i == 2 then a / 0x100 % 0x100
    else a % 0x100
  }

  function FromOctets(o: seq<nat>): (a: Ipv4)
    requires |o| == 4 && forall i :: 0 <= i < 4 ==> o[i] < 256
  {
    o[0] * 0x100_0000 + o[1] * 0x1_0000 + o[2] * 0x100 + o[3]
  }

  function Octets(a: Ipv4): (o: seq<nat>)
    ensures |o| == 4 && forall i :: 0 <= i < 4 ==> o[i] < 256
  {
    [Octet(a, 0), Octet(a, 1), Octet(a, 2), Octet(a, 3)]
  }

  lemma OctetsRoundTrip(a: Ipv4)
    ensures FromOctets(Octets(a)) == a
  {
    assert a == a / 0x100 * 0x100 + a % 0x100;
    assert a / 0x100 / 0x100 == a / 0x1_0000;
    assert a / 0x1_0000 / 0x100 == a / 0x100_0000;
  }

  function Pow2(n: nat): (p: nat)
    ensures p >= 1
  {
    if n == 0 then 1 else 2 * Pow2(n - 1)
  }

  function BlockSize(len: PrefixLen): (b: nat)
    ensures b >= 1
  {
    Pow2(32 - len)
  }

  // The address with its host bits cleared.
  function Masked(a: Ipv4, len: PrefixLen): (n: Ipv4)
    ensures n <= a < n + BlockSize(len)
    ensures n == a / BlockSize(len) * BlockSize(len)
  {
    DivMod(a, BlockSize(len));
    a / BlockSize(len) * BlockSize(len)
  }

  function Netmask(len: PrefixLen): Ipv4 {
    BlockFits(len);
    0x1_0000_0000 - BlockSize(len)
  }

  lemma BlockFits(len: PrefixLen)
    ensures BlockSize(len) <= 0x1_0000_0000
  {
    PowerSplit(32, 32 - len);
    Multiples(0, Pow2(len), BlockSize(len));
    PowerSplit(32, 16);
    assert Pow2(16) == 0x1_0000 by { Powers(); }
  }

  lemma DivMod(a: nat, b: nat)
    requires b > 0
    ensures 0 <= a / b * b <= a < a / b * b + b
  {
    assert a == a / b * b + a % b;
  }

  function Network(net: IpNet): Ipv4
    requires net.V4?
  {
    Masked(net.addr, net.len)
  }

  // ipnet compares the candidate with the first and the last address of the network.
  predicate InSubnet(net: IpNet, a: Ipv4) {
    net.V4? && Network(net) <= a < Network(net) + BlockSize(net.len)
  }

  // nftables compares the masked candidate with the masked prefix instead: the same set.
  lemma InSubnetIsMaskEquality(net: IpNet, a: Ipv4)
    requires net.V4?
    ensures InSubnet(net, a) <==> Masked(a, net.len) == Network(net)
  {
    var b := BlockSize(net.len);
    if InSubnet(net, a) {
      DivUnique(a, b, net.addr / b);
    }
  }

  lemma DivUnique(a: nat, b: nat, q: nat)
    requires b > 0 && q * b <= a < q * b + b
    ensures a / b == q
  {
    DivMod(a, b);
    Multiples(q, a / b, b);
    Multiples(a / b, q, b);
  }

  // Multiples of one size are ordered as their factors, and at least one size apart.
  lemma Multiples(p: nat, q: nat, size: nat)
    requires size > 0
    ensures p * size < q * size <==> p < q
    ensures p < q ==> p * size + size <= q * size
  {
    var low, high := if p < q then p else q, if p < q then q else p;
    Distributes(low, high - low, size);
    Distributes(1, high - low - 1, size);
  }

  lemma Distributes(a: nat, b: int, c: nat)
    ensures (a + b) * c == a * c + b * c
    ensures b >= 0 ==> b * c >= 0
  {
  }

  // Ipv4Addr::is_private, the three blocks of section 3 of RFC 1918.
  predicate IsPrivate(a: Ipv4) {
    || Octet(a, 0) == 10
    || (Octet(a, 0) == 172 && 16 <= Octet(a, 1) <= 31)
    || (Octet(a, 0) == 192 && Octet(a, 1) == 168)
  }

  predicate IsLoopback(a: Ipv4) { Octet(a, 0) == 127 }

  // The test `validate` applies to a controller source: 100.64.0.0/10, section 7 of RFC 6598.
  predicate IsTailnetSource(a: Ipv4) {
    Octet(a, 0) == 100 && 64 <= Octet(a, 1) <= 127
  }

  lemma {:induction false} PowerSplit(h: nat, k: nat)
    requires k <= h
    ensures Pow2(h) == Pow2(h - k) * Pow2(k)
  {
    if k < h {
      PowerSplit(h - 1, k);
    }
  }

  lemma FourMore(n: nat)
    ensures Pow2(n + 4) == 16 * Pow2(n)
  {
    assert Pow2(n + 4) == 2 * Pow2(n + 3);
    assert Pow2(n + 3) == 2 * Pow2(n + 2);
    assert Pow2(n + 2) == 2 * Pow2(n + 1);
  }

  lemma Powers()
    ensures Pow2(16) == 0x1_0000 && Pow2(17) == 0x2_0000 && Pow2(19) == 0x8_0000
    ensures Pow2(20) == 0x10_0000 && Pow2(24) == 0x100_0000 && Pow2(25) == 0x200_0000
  {
    FourMore(0);
    FourMore(4);
    FourMore(8);
    FourMore(12);
    FourMore(15);
    FourMore(16);
    FourMore(20);
    FourMore(21);
  }

  // How far an aligned block can reach: `base` is an odd multiple of 2^bits, and the network starts
  // between `base` and the next multiple.
  lemma AlignedBlock(q: nat, h: nat, base: nat, odd: nat, bits: nat)
    requires base == (2 * odd + 1) * Pow2(bits)
    requires base <= q * Pow2(h) < base + Pow2(bits)
    ensures h <= bits
    ensures q * Pow2(h) + Pow2(h) <= base + Pow2(bits)
  {
    if h <= bits {
      PowerSplit(bits, h);
      StopsInTime(q, Pow2(h), 2 * odd + 1, Pow2(bits - h));
    } else {
      PowerSplit(h, bits);
      NotAMultiple(q, Pow2(h - bits - 1), odd, Pow2(bits));
      assert false;
    }
  }

  lemma StopsInTime(q: nat, size: nat, k: nat, ratio: nat)
    requires size > 0
    requires q * size < k * (ratio * size) + ratio * size
    ensures q * size + size <= k * (ratio * size) + ratio * size
  {
    Distributes(k, 1, ratio * size);
    Regroup(1, k + 1, ratio, size);
    Multiples(q, (k + 1) * ratio, size);
  }

  // An even multiple of `size` does not lie in [odd, odd + 1) multiples of it.
  lemma NotAMultiple(q: nat, r: nat, odd: nat, size: nat)
    requires size > 0
    ensures !((2 * odd + 1) * size <= q * (2 * r * size) < (2 * odd + 1) * size + size)
  {
    Regroup(q, r, 2, size);
    var m := q * r;
    assert q * (2 * r * size) == 2 * m * size;
    Multiples(2 * m, 2 * odd + 1, size);
    Multiples(2 * odd + 1, 2 * m, size);
  }

  lemma Regroup(a: nat, b: nat, c: nat, d: nat)
    ensures a * (b * c * d) == c * (a * b) * d
    ensures a * (b * (c * d)) == a * (b * c) * d
  {
    assert a * (b * c * d) == a * (b * c) * d == a * b * c * d;
  }

  const TEN := 0x0A00_0000
  const ONE_SEVEN_TWO := 0xAC10_0000
  const ONE_NINE_TWO := 0xC0A8_0000

  predicate Within(a: Ipv4, first: Ipv4, size: nat) { first <= a < first + size }

  // The validated network address alone bounds the prefix and the block every guest address lies in:
  // 10.0.0.0/7, 172.16.0.0/12 or 192.168.0.0/13.
  lemma GuestBlock(net: IpNet, a: Ipv4)
    requires net.V4? && IsPrivate(Network(net)) && InSubnet(net, a)
    ensures Octet(Network(net), 0) == 10 ==> net.len >= 7 && Within(a, TEN, 0x200_0000)
    ensures Octet(Network(net), 0) == 172 ==> net.len >= 12 && Within(a, ONE_SEVEN_TWO, 0x10_0000)
    ensures Octet(Network(net), 0) == 192 ==> net.len >= 13 && Within(a, ONE_NINE_TWO, 0x8_0000)
  {
    Powers();
    if Octet(Network(net), 0) == 10 {
      BlockReach(net, a, TEN, 2, 25);
    } else if Octet(Network(net), 0) == 172 {
      BlockReach(net, a, ONE_SEVEN_TWO, 1376, 20);
    } else {
      BlockReach(net, a, ONE_NINE_TWO, 3082, 19);
    }
  }

  lemma BlockReach(net: IpNet, a: Ipv4, base: Ipv4, odd: nat, bits: nat)
    requires InSubnet(net, a) && base == (2 * odd + 1) * Pow2(bits) && base <= Network(net) < base + Pow2(bits)
    ensures 32 - net.len <= bits && Within(a, base, Pow2(bits))
  {
    AlignedBlock(net.addr / BlockSize(net.len), 32 - net.len, base, odd, bits);
  }

  // No address of a validated guest subnet passes the controller-source test.
  lemma GuestNeverTailnetSource(net: IpNet, a: Ipv4)
    requires net.V4? && IsPrivate(Network(net)) && InSubnet(net, a)
    ensures !IsTailnetSource(a)
  {
    GuestBlock(net, a);
  }

  // The octet tests of validation are the blocks they stand for: one for controller sources, three for
  // guest networks.
  lemma OctetTestsAreBlocks(a: Ipv4)
    ensures IsTailnetSource(a) <==> InSubnet(V4(0x6440_0000, 10), a)
    ensures IsPrivate(a) <==>
            InSubnet(V4(TEN, 8), a) || InSubnet(V4(ONE_SEVEN_TWO, 12), a) || InSubnet(V4(ONE_NINE_TWO, 16), a)
  {
    Powers();
    FourMore(18);
    assert Pow2(22) == 0x40_0000;
    OctetsRoundTrip(a);
    assert Masked(0x6440_0000, 10) == 0x6440_0000;
    assert Masked(TEN, 8) == TEN && Masked(ONE_SEVEN_TWO, 12) == ONE_SEVEN_TWO && Masked(ONE_NINE_TWO, 16) == ONE_NINE_TWO;
  }

  // The netmask clears exactly the host bits: what it keeps of an address decides membership.
  lemma NetmaskSelects(net: IpNet, a: Ipv4)
    requires net.V4?
    ensures var size := 0x1_0000_0000 - Netmask(net.len);
            size > 0 && (InSubnet(net, a) <==> a - a % size == Network(net))
  {
    InSubnetIsMaskEquality(net, a);
    DivMod(a, BlockSize(net.len));
  }

  // The prefix length from which the whole block is private: 8, 12 or 16 bits.
  function PrivatePrefix(network: Ipv4): PrefixLen {
    if Octet(network, 0) == 10 then 8 else if Octet(network, 0) == 172 then 12 else 16
  }

  // `validate` looks at the network address only; this is exactly when that is enough.
  lemma AllGuestsPrivateIff(net: IpNet)
    requires net.V4? && IsPrivate(Network(net))
    ensures (forall a: Ipv4 :: InSubnet(net, a) ==> IsPrivate(a)) <==> net.len >= PrivatePrefix(Network(net))
  {
    var n := Network(net);
    var h := 32 - net.len;
    Powers();
    GuestBlock(net, n);
    if net.len >= PrivatePrefix(n) {
      forall a: Ipv4 | InSubnet(net, a)
        ensures IsPrivate(a)
      {
        StaysInBlock(net, a);
      }
    } else if Octet(n, 0) == 10 {
      // Only 10.0.0.0/7 is left, and it reaches one block further.
      assert h == 25;
      OutsideWitness(net, 0x100_0000);
    } else {
      PowerSplit(h, 17);
      Multiples(0, Pow2(h - 17), Pow2(17));
      OutsideWitness(net, 0x1_0000);
    }
  }

  lemma OutsideWitness(net: IpNet, skip: nat)
    requires net.V4? && skip < BlockSize(net.len)
    requires || (Octet(Network(net), 0) == 10 && skip == 0x100_0000)
             || (Octet(Network(net), 0) == 192 && Octet(Network(net), 1) == 168 && skip == 0x1_0000)
    ensures exists a: Ipv4 :: InSubnet(net, a) && !IsPrivate(a)
  {
    var a: Ipv4 := Network(net) + skip;
    assert InSubnet(net, a);
  }

  // A network at least as small as a block lies in the block of its first address.
  lemma SameBlock(net: IpNet, a: Ipv4, bits: nat)
    requires InSubnet(net, a) && 32 - net.len <= bits
    ensures a / Pow2(bits) == Network(net) / Pow2(bits)
  {
    var h := 32 - net.len;
    PowerSplit(bits, h);
    TopBits(net.addr / BlockSize(net.len), BlockSize(net.len), Pow2(bits - h), Pow2(bits), a);
  }

  lemma TopBits(q: nat, size: nat, ratio: nat, block: nat, a: nat)
    requires size > 0 && block > 0 && block == ratio * size && q * size <= a < q * size + size
    ensures a / block == q * size / block
  {
    var n := q * size;
    var k := n / block;
    DivMod(n, block);
    StopsInTime(q, size, k, ratio);
    DivUnique(a, block, k);
  }

  lemma StaysInBlock(net: IpNet, a: Ipv4)
    requires net.V4? && IsPrivate(Network(net)) && InSubnet(net, a)
    requires net.len >= PrivatePrefix(Network(net))
    ensures IsPrivate(a)
  {
    Powers();
    SameBlock(net, a, 32 - PrivatePrefix(Network(net)));
    PrivateByBlock(Network(net));
    PrivateByBlock(a);
  }

  lemma PrivateByBlock(a: Ipv4)
    ensures Octet(a, 0) == 10 <==> a / 0x100_0000 == 10
    ensures Octet(a, 0) == 172 && 16 <= Octet(a, 1) <= 31 <==> a / 0x10_0000 == 2753
    ensures Octet(a, 0) == 192 && Octet(a, 1) == 168 <==> a / 0x1_0000 == 49320
  {
    assert a / 0x100_0000 == a / 0x1_0000 / 0x100 && a / 0x10_0000 == a / 0x1_0000 / 0x10;
  }

  // Guest addresses share their first octet exactly when the prefix is at least eight bits long.
  lemma SharedFirstOctet(net: IpNet, a: Ipv4)
    requires net.V4? && net.len >= 8 && InSubnet(net, a)
    ensures Octet(a, 0) == Octet(Network(net), 0)
  {
    Powers();
    SameBlock(net, a, 24);
  }

  // Dotted-quad text, as Ipv4Addr prints and parses it.
  function Dotted(a: Ipv4): (s: string)
    ensures s != []
  {
    Join(DottedParts(a), '.')
  }

  function DottedParts(a: Ipv4): (parts: seq<string>)
    ensures |parts| == 4
    ensures forall i, c :: 0 <= i < 4 && c in parts[i] ==> IsDigit(c)
  {
    [Decimal(Octet(a, 0)), Decimal(Octet(a, 1)), Decimal(Octet(a, 2)), Decimal(Octet(a, 3))]
  }

  function ParseDotted(s: string): Option<Ipv4> {
    var parts := Split(s, '.');
    if |parts| != 4 then None
    else match (ParseDecimal(parts[0]), ParseDecimal(parts[1]), ParseDecimal(parts[2]), ParseDecimal(parts[3]))
      case (Some(a), Some(b), Some(c), Some(d)) =>
        if a < 256 && b < 256 && c < 256 && d < 256 then Some(FromOctets([a, b, c, d])) else None
      case _ => None
  }

  lemma DottedRoundTrip(a: Ipv4)
    ensures ParseDotted(Dotted(a)) == Some(a)
    ensures forall c :: c in Dotted(a) ==> IsDigit(c) || c == '.'
  {
    var parts := DottedParts(a);
    SplitJoin(parts, '.');
    forall i | 0 <= i < 4
      ensures ParseDecimal(parts[i]) == Some(Octet(a, i))
    {
      DecimalRoundTrip(Octet(a, i));
    }
    OctetsRoundTrip(a);
    assert Octets(a) == [Octet(a, 0), Octet(a, 1), Octet(a, 2), Octet(a, 3)];
    forall c | c in Dotted(a)
      ensures IsDigit(c) || c == '.'
    {
      if !IsDigit(c) && c != '.' {
        JoinAvoids(parts, '.', c);
      }
    }
  }
}
