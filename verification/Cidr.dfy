/**
Address blocks as byte strings, the way `net.IPNet` holds them, and the two-point overlap test.
An IPv4 address is four bytes; a sixteen-byte address that maps an IPv4 one is the same address.
*/
module Cidr {
  type Byte = bv8
  type IP = seq<Byte>

  datatype IPNet = IPNet(ip: IP, mask: seq<Byte>)

  const V4_IN_V6_PREFIX: seq<Byte> := [0, 0, 0, 0, 0, 0, 0, 0, 0, 0, 0xff, 0xff]

  /** `IP.To4`, as the address it stands for: four bytes, or sixteen that map no IPv4 address. */
  function Canonical(ip: IP): IP {
    if |ip| == 16 && ip[..12] == V4_IN_V6_PREFIX then ip[12..] else ip
  }

  /** The network number and mask that `Contains` works with; both are empty for a malformed block. */
  function NumberAndMask(n: IPNet): (r: (IP, seq<Byte>))
    ensures |r.0| == |r.1|
  {
    var ip := Canonical(n.ip);
    if |ip| != 4 && |ip| != 16 then ([], [])
    else if |n.mask| == |ip| then (ip, n.mask)
    else if |n.mask| == 16 && |ip| == 4 then (ip, n.mask[12..])
    else ([], [])
  }

  predicate SameUnder(x: Byte, y: Byte, m: Byte) {
    x & m == y & m
  }

  /** Byte by byte under the mask. */
  predicate Agree(a: IP, b: IP, mask: seq<Byte>)
    requires |a| == |b| == |mask|
  {
    forall i | 0 <= i < |a| :: SameUnder(a[i], b[i], mask[i])
  }

  predicate Contains(n: IPNet, ip: IP) {
    var (number, mask) := NumberAndMask(n);
    var x := Canonical(ip);
    |x| == |number| && Agree(number, x, mask)
  }

  predicate CidrsOverlap(a: IPNet, b: IPNet) {
    Contains(a, b.ip) || Contains(b, a.ip)
  }

  // ---------------------------------------------------------------------------------------
  // Prefix masks
  // ---------------------------------------------------------------------------------------

  /** Byte `i` of `net.CIDRMask(ones, ·)`: the leading `ones` bits of the mask are set. */
  function MaskByte(ones: nat, i: nat): Byte {
    if ones >= 8 * i + 8 then 0xff
    else if ones <= 8 * i then 0
    else Leading(ones - 8 * i)
  }

  function Leading(k: nat): Byte
    requires k <= 8
  {
    match k
    case 0 => 0x00 case 1 => 0x80 case 2 => 0xc0 case 3 => 0xe0 case 4 => 0xf0
    case 5 => 0xf8 case 6 => 0xfc case 7 => 0xfe case 8 => 0xff
  }

  function Mask(ones: nat, bytes: nat): seq<Byte> {
    seq(bytes, i requires 0 <= i => MaskByte(ones, i))
  }

  /** What `net.ParseCIDR` yields for an address and a prefix length. */
  predicate PrefixBlock(n: IPNet, ones: nat) {
    (|n.ip| == 4 || |n.ip| == 16) && ones <= 8 * |n.ip| && n.mask == Mask(ones, |n.ip|)
  }

  ghost predicate Block(n: IPNet) {
    exists ones :: PrefixBlock(n, ones)
  }

  /** The prefix length in terms of the canonical address. */
  function Ones(n: IPNet, ones: nat): nat {
    if |n.ip| == 16 && |Canonical(n.ip)| == 4 then if ones < 96 then 0 else ones - 96 else ones
  }

  lemma BlockParts(n: IPNet, ones: nat)
    requires PrefixBlock(n, ones)
    ensures NumberAndMask(n) == (Canonical(n.ip), Mask(Ones(n, ones), |Canonical(n.ip)|))
    ensures |Canonical(n.ip)| == 4 || |Canonical(n.ip)| == 16
    ensures Ones(n, ones) <= 8 * |Canonical(n.ip)|
  {
    var m := Canonical(n.ip);
    assert NumberAndMask(n).1 == Mask(Ones(n, ones), |m|);
  }

  /** Of two prefix masks the shorter one is contained in the longer, byte by byte. */
  lemma MasksNest(p: nat, q: nat, i: nat)
    requires p <= q
    ensures MaskByte(p, i) & MaskByte(q, i) == MaskByte(p, i)
  {
    if 8 * i < p < 8 * i + 8 && q < 8 * i + 8 {
      LeadingNest(p - 8 * i, q - 8 * i);
    }
  }

  lemma LeadingNest(j: nat, k: nat)
    requires j <= k <= 8
    ensures Leading(j) & Leading(k) == Leading(j)
  {
  }

  /** An address in both blocks puts the network number of the longer prefix into the shorter block. */
  lemma NestedAgree(a: IP, b: IP, x: IP, p: nat, q: nat)
    requires |a| == |b| == |x| && p <= q
    requires Agree(a, x, Mask(p, |x|)) && Agree(b, x, Mask(q, |x|))
    ensures Agree(a, b, Mask(p, |x|))
  {
    forall i | 0 <= i < |a| ensures SameUnder(a[i], b[i], Mask(p, |x|)[i]) {
      MasksNest(p, q, i);
      assert SameUnder(a[i], x[i], Mask(p, |x|)[i]) && SameUnder(b[i], x[i], Mask(q, |x|)[i]);
      ByteNest(a[i], b[i], x[i], MaskByte(p, i), MaskByte(q, i));
    }
  }

  lemma ByteNest(a: Byte, b: Byte, x: Byte, m: Byte, n: Byte)
    requires m & n == m && SameUnder(a, x, m) && SameUnder(b, x, n)
    ensures SameUnder(a, b, m)
  {
    assert b & m == (b & n) & m;
    assert x & m == (x & n) & m;
  }

  ghost predicate Meet(a: IPNet, b: IPNet) {
    exists ip :: Contains(a, ip) && Contains(b, ip)
  }

  lemma OverlapFromCommon(a: IPNet, b: IPNet, p: nat, q: nat, ip: IP)
    requires PrefixBlock(a, p) && PrefixBlock(b, q) && Contains(a, ip) && Contains(b, ip)
    ensures CidrsOverlap(a, b)
  {
    BlockParts(a, p);
    BlockParts(b, q);
    var x := Canonical(ip);
    if Ones(a, p) <= Ones(b, q) {
      NestedAgree(Canonical(a.ip), Canonical(b.ip), x, Ones(a, p), Ones(b, q));
    } else {
      NestedAgree(Canonical(b.ip), Canonical(a.ip), x, Ones(b, q), Ones(a, p));
    }
  }

  /** The two-point test is complete: it is true exactly when some address lies in both blocks. */
  lemma OverlapIsMeeting(a: IPNet, b: IPNet)
    requires Block(a) && Block(b)
    ensures CidrsOverlap(a, b) <==> Meet(a, b)
  {
    var p :| PrefixBlock(a, p);
    var q :| PrefixBlock(b, q);
    BlockParts(a, p);
    BlockParts(b, q);
    assert Contains(a, a.ip) && Contains(b, b.ip);
    if Meet(a, b) {
      var ip :| Contains(a, ip) && Contains(b, ip);
      OverlapFromCommon(a, b, p, q, ip);
    }
  }

  // ---------------------------------------------------------------------------------------
  // The block as a set of bit strings
  // ---------------------------------------------------------------------------------------

  function BitMask(j: nat): Byte
    requires j < 8
  {
    match j
    case 0 => 0x80 case 1 => 0x40 case 2 => 0x20 case 3 => 0x10
    case 4 => 0x08 case 5 => 0x04 case 6 => 0x02 case 7 => 0x01
  }

  predicate ByteBit(x: Byte, j: nat)
    requires j < 8
  {
    x & BitMask(j) != 0
  }

  /** Bit `k` of an address, counted from the most significant one. */
  predicate Bit(ip: IP, k: nat)
    requires k < 8 * |ip|
  {
    ByteBit(ip[k / 8], k % 8)
  }

  /** The first `ones` bits are the same. */
  predicate SamePrefix(a: IP, b: IP, ones: nat)
    requires |a| == |b| && ones <= 8 * |a|
  {
    forall k | 0 <= k < ones :: Bit(a, k) == Bit(b, k)
  }

  lemma MaskedDifference(x: Byte, y: Byte, m: Byte)
    ensures SameUnder(x, y, m) <==> (x ^ y) & m == 0
  {
  }

  lemma BitDifference(x: Byte, y: Byte, j: nat)
    requires j < 8
    ensures ByteBit(x, j) == ByteBit(y, j) <==> !ByteBit(x ^ y, j)
  {
    MaskedDifference(x, y, BitMask(j));
  }

  /** The difference `d` of two bytes vanishes on the first `k` bits. */
  predicate Vanishes(d: Byte, k: nat) {
    k <= 8 && d & Leading(k) == 0
  }

  predicate Differs(d: Byte, j: nat) {
    j < 8 && ByteBit(d, j)
  }

  lemma OneMoreBit(d: Byte, k: nat)
    requires 0 < k <= 8
    ensures Vanishes(d, k) <==> Vanishes(d, k - 1) && !Differs(d, k - 1)
  {
  }

  lemma {:induction false} VanishesBitwise(d: Byte, k: nat)
    requires k <= 8
    ensures Vanishes(d, k) <==> forall j: nat | j < k :: !Differs(d, j)
  {
    if k == 0 {
    } else {
      VanishesBitwise(d, k - 1);
      OneMoreBit(d, k);
    }
  }

  lemma MaskIsLeading(ones: nat, i: nat)
    ensures MaskByte(ones, i) == Leading(Covered(ones, i))
  {
  }

  lemma ByteAgrees(x: Byte, y: Byte, ones: nat, i: nat)
    ensures SameUnder(x, y, MaskByte(ones, i)) <==> Vanishes(x ^ y, Covered(ones, i))
  {
    MaskedDifference(x, y, MaskByte(ones, i));
    MaskIsLeading(ones, i);
  }

  /** How many bits of byte `i` the prefix covers. */
  function Covered(ones: nat, i: nat): nat {
    if ones >= 8 * i + 8 then 8 else if ones <= 8 * i then 0 else ones - 8 * i
  }

  predicate ByteOk(a: IP, b: IP, ones: nat, i: nat)
    requires |a| == |b| && i < |a|
  {
    Vanishes(a[i] ^ b[i], Covered(ones, i))
  }

  /** Bit `k` lies in byte `k / 8`, which agrees as far as the prefix covers it. */
  lemma BitOfByte(a: IP, b: IP, ones: nat, k: nat)
    requires |a| == |b| && k < ones <= 8 * |a| && ByteOk(a, b, ones, k / 8)
    ensures Bit(a, k) == Bit(b, k)
  {
    VanishesBitwise(a[k / 8] ^ b[k / 8], Covered(ones, k / 8));
    assert !Differs(a[k / 8] ^ b[k / 8], k % 8);
    BitDifference(a[k / 8], b[k / 8], k % 8);
  }

  lemma ByteOfBits(a: IP, b: IP, ones: nat, i: nat)
    requires |a| == |b| && ones <= 8 * |a| && i < |a| && SamePrefix(a, b, ones)
    ensures ByteOk(a, b, ones, i)
  {
    var d := a[i] ^ b[i];
    forall j: nat | j < Covered(ones, i) ensures !Differs(d, j) {
      assert (8 * i + j) / 8 == i && (8 * i + j) % 8 == j;
      assert Bit(a, 8 * i + j) == Bit(b, 8 * i + j);
      BitDifference(a[i], b[i], j);
    }
    VanishesBitwise(d, Covered(ones, i));
  }

  lemma ByteOfAgree(a: IP, b: IP, ones: nat, i: nat)
    requires |a| == |b| && i < |a|
    ensures SameUnder(a[i], b[i], Mask(ones, |a|)[i]) <==> ByteOk(a, b, ones, i)
  {
    ByteAgrees(a[i], b[i], ones, i);
  }

  lemma AgreeIsSamePrefix(a: IP, b: IP, ones: nat)
    requires |a| == |b| && ones <= 8 * |a|
    ensures Agree(a, b, Mask(ones, |a|)) <==> SamePrefix(a, b, ones)
  {
    if Agree(a, b, Mask(ones, |a|)) {
      forall k | 0 <= k < ones ensures Bit(a, k) == Bit(b, k) {
        ByteOfAgree(a, b, ones, k / 8);
        BitOfByte(a, b, ones, k);
      }
    }
    if SamePrefix(a, b, ones) {
      forall i | 0 <= i < |a| ensures SameUnder(a[i], b[i], Mask(ones, |a|)[i]) {
        ByteOfBits(a, b, ones, i);
        ByteOfAgree(a, b, ones, i);
      }
    }
  }

  /** A block holds exactly the addresses of its family that share its prefix. */
  lemma ContainsIsSamePrefix(n: IPNet, ones: nat, ip: IP)
    requires PrefixBlock(n, ones)
    ensures var x := Canonical(n.ip); var y := Canonical(ip);
      Ones(n, ones) <= 8 * |x| && (Contains(n, ip) <==> |y| == |x| && SamePrefix(x, y, Ones(n, ones)))
  {
    BlockParts(n, ones);
    if |Canonical(ip)| == |Canonical(n.ip)| {
      AgreeIsSamePrefix(Canonical(n.ip), Canonical(ip), Ones(n, ones));
    }
  }

  // ---------------------------------------------------------------------------------------
  // IPv4 addresses in sixteen bytes
  // ---------------------------------------------------------------------------------------

  /** `::ffff:a.b.c.d` */
  function Mapped(ip: IP): IP
    requires |ip| == 4
  {
    [0, 0, 0, 0, 0, 0, 0, 0, 0, 0, 0xff, 0xff] + ip
  }

  lemma MappedIsCanonical(ip: IP)
    requires |ip| == 4
    ensures Canonical(Mapped(ip)) == ip && Canonical(ip) == ip
  {
    assert Mapped(ip)[..12] == V4_IN_V6_PREFIX && Mapped(ip)[12..] == ip;
  }

  /** An IPv4 address and its sixteen-byte form are in the same blocks. */
  lemma MappedAddressIsSame(n: IPNet, ip: IP)
    requires |ip| == 4
    ensures Contains(n, Mapped(ip)) <==> Contains(n, ip)
  {
    MappedIsCanonical(ip);
  }

  /** A block given in sixteen bytes, with 96 more prefix bits, is the same block. */
  lemma MappedBlockIsSame(number: IP, ones: nat, ip: IP)
    requires |number| == 4 && ones <= 32
    ensures Contains(IPNet(Mapped(number), Mask(96 + ones, 16)), ip) <==> Contains(IPNet(number, Mask(ones, 4)), ip)
  {
    MappedIsCanonical(number);
    BlockParts(IPNet(Mapped(number), Mask(96 + ones, 16)), 96 + ones);
    BlockParts(IPNet(number, Mask(ones, 4)), ones);
  }

  /** No other sixteen-byte address lies in an IPv4 block, and no IPv4 address in an IPv6 block. */
  lemma FamiliesApart(n: IPNet, ones: nat, ip: IP)
    requires PrefixBlock(n, ones) && Contains(n, ip)
    ensures |Canonical(ip)| == |Canonical(n.ip)|
    ensures |ip| == 16 && |Canonical(ip)| == 4 ==> ip == Mapped(Canonical(ip))
  {
    BlockParts(n, ones);
    if |ip| == 16 && |Canonical(ip)| == 4 {
      assert ip == ip[..12] + ip[12..];
    }
  }
}
