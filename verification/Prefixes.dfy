/**
 Address blocks in prefix notation (section 3.1 of RFC 4632), as sets of addresses.

 An address is a natural number tagged with its family. A block of `bits` leading ones is
 the set of addresses that agree with `value` on those bits, that is, after division by the
 block's size; this is the mask-and-compare test of Go's `net` and `net/netip` packages.
 */
module Prefixes {

  datatype Family = IPv4 | IPv6

  datatype RawAddress = Address(family: Family, value: nat)

  type Address = a: RawAddress | a.value < Range(a.family) witness Address(IPv4, 0)

  datatype RawBlock = Block(family: Family, value: nat, bits: nat)

  type Block = b: RawBlock | ValidBlock(b) witness Block(IPv4, 0, 0)

  function Width(family: Family): nat {
    if family.IPv4? then 32 else 128
  }

  function Pow2(n: nat): (p: nat)
    ensures p > 0
  {
    if n == 0 then 1 else 2 * Pow2(n - 1)
  }

  /** The number of addresses of a family, 2^32 or 2^128. */
  function Range(family: Family): nat {
    if family.IPv4? then 0x1_0000_0000 else 0x1_0000_0000_0000_0000_0000_0000_0000_0000
  }

  predicate ValidBlock(b: RawBlock) {
    b.bits <= Width(b.family) && b.value < Range(b.family)
  }

  /** The number of addresses in a block. */
  function Size(b: Block): (n: nat)
    ensures n > 0
  {
    Pow2(Width(b.family) - b.bits)
  }

  /** The value with its host bits cleared. */
  function Base(b: Block): (v: nat)
    ensures v <= b.value
  {
    DivTimes(b.value, Size(b));
    b.value / Size(b) * Size(b)
  }

  function Masked(b: Block): Block
  {
    b.(value := Base(b))
  }

  /** The mask test: equal family and equal network bits. */
  predicate Contains(b: Block, a: Address)
  {
    a.family == b.family && a.value / Size(b) == b.value / Size(b)
  }

  ghost predicate Subset(q: Block, p: Block)
  {
    forall a: Address :: Contains(q, a) ==> Contains(p, a)
  }

  ghost predicate Disjoint(p: Block, q: Block)
  {
    forall a: Address :: !(Contains(p, a) && Contains(q, a))
  }

  // ---- arithmetic ----

  lemma DivTimes(x: nat, d: nat)
    requires d > 0
    ensures 0 <= x / d * d <= x
  {
  }

  lemma MulMonotone(d: nat, i: int, j: int)
    requires i <= j
    ensures d * i <= d * j
  {
  }

  lemma DivUnique(x: int, d: nat, k: int, t: nat)
    requires x == d * k + t && t < d
    ensures x / d == k
  {
    var q := x / d;
    assert x == d * q + x % d;
    if q < k {
      MulMonotone(d, q + 1, k);
    } else if k < q {
      MulMonotone(d, k + 1, q);
    }
  }

  lemma DivDiv(x: nat, a: nat, b: nat)
    requires a > 0 && b > 0
    ensures a * b > 0 && x / (a * b) == x / a / b
  {
    var q, r := x / a, x % a;
    var k, s := q / b, q % b;
    assert q == b * k + s && x == a * q + r;
    assert x == a * b * k + (a * s + r);
    MulMonotone(a, s, b - 1);
    assert a * s + r < a * b;
    assert a * s >= 0;
    DivUnique(x, a * b, k, a * s + r);
  }

  /** The quotient of a remainder. */
  lemma ModThenDiv(x: nat, d: nat, t: nat)
    requires d > 0 && t > 0
    ensures d * t > 0 && x % (d * t) / d == x / d - t * (x / (d * t))
  {
    DivDiv(x, d, t);
    var m, k := d * t, x / (d * t);
    assert x == m * k + x % m;
    assert x == d * (x / d) + x % d;
    assert x % m == d * (x / d - t * k) + x % d;
    DivUnique(x % m, d, x / d - t * k, x % d);
  }

  lemma Pow2Adds(m: nat, n: nat)
    ensures Pow2(m + n) == Pow2(m) * Pow2(n)
  {
    if m == 0 {
    } else {
      Pow2Adds(m - 1, n);
    }
  }

  lemma Pow2Monotone(m: nat, n: nat)
    requires m < n
    ensures Pow2(m) < Pow2(n)
  {
  }

  /** Dividing by a larger power of two factors through the smaller one. */
  lemma DivPow2(x: nat, m: nat, n: nat)
    requires m <= n
    ensures x / Pow2(n) == x / Pow2(m) / Pow2(n - m)
  {
    Pow2Adds(m, n - m);
    DivDiv(x, Pow2(m), Pow2(n - m));
  }

  // ---- blocks as sets ----

  lemma Pow2Shift(n: nat)
    ensures Pow2(n + 4) == 16 * Pow2(n)
  {
    assert Pow2(n + 4) == 2 * Pow2(n + 3) == 4 * Pow2(n + 2) == 8 * Pow2(n + 1);
  }

  function Pow16(k: nat): nat {
    if k == 0 then 1 else 16 * Pow16(k - 1)
  }

  lemma Pow2IsPow16(k: nat)
    ensures Pow2(4 * k) == Pow16(k)
  {
    if k == 0 {
    } else {
      Pow2IsPow16(k - 1);
      Pow2Shift(4 * (k - 1));
    }
  }

  lemma RangeIsPow2(family: Family)
    ensures Pow2(Width(family)) == Range(family)
    ensures Pow2(64) == 0x1_0000_0000_0000_0000
  {
    Pow2IsPow16(16);
    Pow2IsPow16(Width(family) / 4);
    assert Pow16(8) == Range(IPv4);
    assert Pow16(16) == 0x1_0000_0000_0000_0000;
    assert Pow16(24) == 0x1_0000_0000_0000_0000_0000_0000;
    assert Pow16(32) == Range(IPv6);
  }

  /** A block's last address is still in its family's range. */
  lemma BlockWithinRange(b: Block)
    ensures Base(b) + Size(b) <= Range(b.family)
  {
    var s, hosts := Size(b), Pow2(b.bits);
    RangeIsPow2(b.family);
    Pow2Adds(Width(b.family) - b.bits, b.bits);
    assert Range(b.family) == s * hosts;
    assert b.value == s * (b.value / s) + b.value % s;
    if b.value / s >= hosts {
      MulMonotone(s, hosts, b.value / s);
    }
    MulMonotone(s, b.value / s + 1, hosts);
  }

  /** The mask test describes an interval of Size(b) addresses starting at Base(b). */
  lemma ContainsIsInterval(b: Block, a: Address)
    ensures Contains(b, a) <==> a.family == b.family && Base(b) <= a.value < Base(b) + Size(b)
  {
    var s := Size(b);
    var k := b.value / s;
    assert a.value == s * (a.value / s) + a.value % s;
    if a.family == b.family && Base(b) <= a.value < Base(b) + s {
      DivUnique(a.value, s, k, a.value - Base(b));
    }
  }

  lemma ContainsOwnValue(b: Block)
    ensures Contains(b, Address(b.family, b.value))
  {
  }

  lemma ZeroBitsContainAll(b: Block, a: Address)
    requires b.bits == 0 && a.family == b.family
    ensures Contains(b, a)
  {
    RangeIsPow2(b.family);
    DivUnique(a.value, Size(b), 0, a.value);
    DivUnique(b.value, Size(b), 0, b.value);
  }

  /** Clearing host bits keeps the block, and a block is canonical exactly when it starts at its value. */
  lemma MaskedSameSet(b: Block)
    ensures Base(b) / Size(b) == b.value / Size(b)
    ensures forall a: Address :: Contains(Masked(b), a) <==> Contains(b, a)
    ensures Masked(Masked(b)) == Masked(b)
  {
    DivUnique(Base(b), Size(b), b.value / Size(b), 0);
  }

  /** Agreement on a block's bits implies agreement on fewer bits. */
  lemma CoarserAgrees(family: Family, x: nat, y: nat, coarse: nat, fine: nat)
    requires coarse <= fine <= Width(family)
    requires x / Pow2(Width(family) - fine) == y / Pow2(Width(family) - fine)
    ensures x / Pow2(Width(family) - coarse) == y / Pow2(Width(family) - coarse)
  {
    DivPow2(x, Width(family) - fine, Width(family) - coarse);
    DivPow2(y, Width(family) - fine, Width(family) - coarse);
  }

  /** A shared address puts the block with more bits inside the other. */
  lemma SharedAddressNests(p: Block, q: Block, a: Address)
    requires p.bits <= q.bits
    requires Contains(p, a) && Contains(q, a)
    ensures Subset(q, p)
  {
    forall b: Address | Contains(q, b) ensures Contains(p, b) {
      CoarserAgrees(p.family, b.value, a.value, p.bits, q.bits);
    }
  }

  /** Two blocks are always nested or disjoint. */
  lemma NestedOrDisjoint(p: Block, q: Block)
    ensures Subset(p, q) || Subset(q, p) || Disjoint(p, q)
  {
    if !Disjoint(p, q) {
      var a: Address :| Contains(p, a) && Contains(q, a);
      if p.bits <= q.bits {
        SharedAddressNests(p, q, a);
      } else {
        SharedAddressNests(q, p, a);
      }
    }
  }

  /** Set inclusion is exactly the code's test: no fewer bits, and the own value inside. */
  lemma SubsetIsMaskTest(q: Block, p: Block)
    ensures Subset(q, p) <==> p.bits <= q.bits && Contains(p, Address(q.family, q.value))
  {
    ContainsOwnValue(q);
    if p.bits <= q.bits && Contains(p, Address(q.family, q.value)) {
      SharedAddressNests(p, q, Address(q.family, q.value));
    }
    if Subset(q, p) {
      BlockWithinRange(q);
      var low, high := Address(q.family, Base(q)), Address(q.family, Base(q) + Size(q) - 1);
      ContainsIsInterval(q, low);
      ContainsIsInterval(q, high);
      assert Contains(p, low) && Contains(p, high);
      ContainsIsInterval(p, low);
      ContainsIsInterval(p, high);
      if q.bits < p.bits {
        Pow2Monotone(Width(p.family) - p.bits, Width(q.family) - q.bits);
      }
    }
  }

  /** Two blocks overlap exactly when some address lies in both. */
  lemma OverlapIsSharedAddress(p: Block, q: Block)
    ensures Overlaps(p, q) <==> exists a: Address :: Contains(p, a) && Contains(q, a)
  {
    if Overlaps(p, q) {
      var a := Address(q.family, if p.bits <= q.bits then q.value else p.value);
      assert Contains(p, a) && Contains(q, a);
    }
    if a: Address :| Contains(p, a) && Contains(q, a) {
      if p.bits <= q.bits {
        SharedAddressNests(p, q, a);
        ContainsOwnValue(q);
      } else {
        SharedAddressNests(q, p, a);
        ContainsOwnValue(p);
      }
    }
  }

  /** Go's `Prefix.Overlaps`: compare under the shorter of the two masks. */
  predicate Overlaps(p: Block, q: Block)
  {
    p.family == q.family &&
    var bits := if p.bits <= q.bits then p.bits else q.bits;
    p.value / Pow2(Width(p.family) - bits) == q.value / Pow2(Width(p.family) - bits)
  }

  // ---- IPv4-mapped IPv6 addresses (section 2.5.5.2 of RFC 4291) ----

  lemma TimesTimes(c: nat, a: nat, b: nat)
    ensures c * (a * b) == a * (c * b)
  {
  }

  /** A mask shorter than 96 bits never yields a mapped network; a longer one keeps the upper 96 bits. */
  lemma UpperBits(v: nat, ones: nat)
    requires v < Range(IPv6) && ones <= 128
    ensures var w := Base(Block(IPv6, v, ones));
            if ones < 96 then w / 0x1_0000_0000 != 0xffff else w / 0x1_0000_0000 == v / 0x1_0000_0000
  {
    var b := Block(IPv6, v, ones);
    var w := Base(b);
    RangeIsPow2(IPv4);
    MaskedSameSet(b);
    if ones < 96 {
      var c := v / Size(b);
      var e := 2 * Pow2(95 - ones);
      Pow2Adds(32, 96 - ones);
      TimesTimes(c, 0x1_0000_0000, e);
      DivUnique(w, 0x1_0000_0000, c * e, 0);
      TimesTimes(c, 2, Pow2(95 - ones));
    } else {
      CoarserAgrees(IPv6, w, v, 96, ones);
    }
  }

  predicate MappedIp(a: Address) {
    a.family.IPv6? && a.value / 0x1_0000_0000 == 0xffff
  }

  function UnmapIp(a: Address): Address {
    if MappedIp(a) then Address(IPv4, a.value % 0x1_0000_0000) else a
  }

  /** Unmapping forgets nothing but the spelling. */
  lemma UnmapKeepsAddress(a: Address)
    ensures if MappedIp(a) then UnmapIp(a).family.IPv4? && 0xffff_0000_0000 + UnmapIp(a).value == a.value
            else UnmapIp(a) == a
  {
  }

  /** A mapped block of at least 96 bits has only mapped addresses, and they form the unmapped block. */
  lemma UnmappedBlock(b: Block, a: Address)
    requires MappedIp(Address(b.family, b.value)) && b.bits >= 96 && a.family.IPv6?
    ensures Contains(b, a) <==>
              MappedIp(a) && Contains(Block(IPv4, b.value % 0x1_0000_0000, b.bits - 96), UnmapIp(a))
  {
    var s, t := Size(b), Pow2(b.bits - 96);
    RangeIsPow2(IPv4);
    Pow2Adds(128 - b.bits, b.bits - 96);
    ModThenDiv(a.value, s, t);
    ModThenDiv(b.value, s, t);
    if Contains(b, a) {
      CoarserAgrees(IPv6, a.value, b.value, 96, b.bits);
    }
  }
}
