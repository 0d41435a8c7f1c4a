/**
 Validation of a user-defined network's IPAM configuration and its split by address family
 (moby/daemon/network.go). Addresses and prefixes follow Go's `net/netip`: both may be the invalid
 zero value, an IPv4-mapped IPv6 address counts as IPv6 until it is unmapped, and a zoned address
 is inside no prefix.
 */
module NetworkIpam {
  import opened Wrappers
  import opened Prefixes

  datatype Addr = NoAddr | Addr(ip: Address, zoned: bool)

  /** `BadPrefix` is an address whose length was out of range: not valid, and not the zero value. */
  datatype Prefix = NoPrefix | BadPrefix(ip: Address) | Prefix(block: Block)

  datatype IpamConfig = IpamConfig(subnet: Prefix, ipRange: Prefix, gateway: Addr, aux: map<string, Addr>)

  datatype IpamConf = IpamConf(preferredPool: Prefix, subPool: Prefix, gateway: Addr, aux: map<string, Addr>)

  datatype Error =
    | SubnetNotMasked(subnet: Prefix)
    | RangeOfOtherFamily(ipRange: Prefix)
    | RangeTooBig(ipRange: Prefix, subnet: Prefix)
    | RangeNotMasked(ipRange: Prefix)
    | RangeOutside(ipRange: Prefix, subnet: Prefix)
    | BadGateway(gateway: Addr)
    | BadAux(name: string)

  function FamilyOf(p: Prefix): Family {
    match p
    case NoPrefix => IPv4
    case BadPrefix(ip) => ip.family
    case Prefix(b) => b.family
  }

  function Bits(p: Prefix): int {
    if p.Prefix? then p.block.bits else -1
  }

  function MaskedPrefix(p: Prefix): Prefix {
    if p.Prefix? then Prefix(Masked(p.block)) else NoPrefix
  }

  predicate PrefixOverlaps(p: Prefix, q: Prefix) {
    p.Prefix? && q.Prefix? && Overlaps(p.block, q.block)
  }

  predicate PrefixContains(p: Prefix, a: Addr) {
    p.Prefix? && a.Addr? && !a.zoned && Contains(p.block, a.ip)
  }

  // ---- the checks ----

  function ValidateIpRange(ipRange: Prefix, subnet: Prefix): (errs: seq<Error>)
    ensures errs == [] <==> RangeOk(ipRange, subnet)
  {
    if !ipRange.Prefix? then []
    else if FamilyOf(ipRange) != FamilyOf(subnet) then
      RangeTestIsContainment(ipRange, subnet);
      [RangeOfOtherFamily(ipRange)]
    else
      RangeTestIsContainment(ipRange, subnet);
      (if Bits(ipRange) < Bits(subnet) then [RangeTooBig(ipRange, subnet)] else [])
      + (if ipRange != MaskedPrefix(ipRange) then [RangeNotMasked(ipRange)] else [])
      + (if !PrefixOverlaps(subnet, ipRange) then [RangeOutside(ipRange, subnet)] else [])
  }

  /** `true` when the address is acceptable. */
  predicate ValidateAddress(a: Addr, subnet: Prefix) {
    a.Addr? ==> a.ip.family == FamilyOf(subnet) && PrefixContains(subnet, a)
  }

  // ---- what the checks mean, as sets of addresses ----

  /** A canonical prefix is written with its least address; the unset prefix is canonical. */
  ghost predicate Canonical(p: Prefix) {
    match p
    case NoPrefix => true
    case BadPrefix(_) => false
    case Prefix(b) => forall a: Address :: Contains(b, a) ==> b.value <= a.value
  }

  ghost predicate RangeOk(ipRange: Prefix, subnet: Prefix) {
    ipRange.Prefix? ==> subnet.Prefix? && Canonical(ipRange) && Subset(ipRange.block, subnet.block)
  }

  ghost predicate AddrOk(a: Addr, subnet: Prefix) {
    a.Addr? ==> subnet.Prefix? && !a.zoned && Contains(subnet.block, a.ip)
  }

  ghost predicate WellFormed(c: IpamConfig) {
    && Canonical(c.subnet)
    && RangeOk(c.ipRange, c.subnet)
    && AddrOk(c.gateway, c.subnet)
    && forall n :: n in c.aux ==> AddrOk(c.aux[n], c.subnet)
  }

  /** IPv6 subnets are not looked at when IPv6 is off. */
  predicate Checked(c: IpamConfig, enableIPv6: bool) {
    enableIPv6 || FamilyOf(c.subnet).IPv4?
  }

  ghost predicate Accepted(data: seq<IpamConfig>, enableIPv6: bool) {
    forall i :: 0 <= i < |data| && Checked(data[i], enableIPv6) ==> WellFormed(data[i])
  }

  lemma CanonicalIsMasked(p: Prefix)
    ensures Canonical(p) <==> p == MaskedPrefix(p)
  {
    if p.Prefix? {
      var low := Address(p.block.family, Base(p.block));
      MaskedSameSet(p.block);
      assert Contains(p.block, low);
      forall a: Address | Contains(p.block, a) ensures Base(p.block) <= a.value {
        ContainsIsInterval(p.block, a);
      }
    }
  }

  /** Mask length, masking and overlap together say: canonical and inside the subnet. */
  lemma RangeTestIsContainment(ipRange: Prefix, subnet: Prefix)
    requires ipRange.Prefix?
    ensures RangeOk(ipRange, subnet) <==>
              && FamilyOf(ipRange) == FamilyOf(subnet) && Bits(subnet) <= Bits(ipRange)
              && ipRange == MaskedPrefix(ipRange) && PrefixOverlaps(subnet, ipRange)
  {
    CanonicalIsMasked(ipRange);
    if subnet.Prefix? {
      SubsetIsMaskTest(ipRange.block, subnet.block);
      OverlapIsSharedAddress(subnet.block, ipRange.block);
    }
  }

  /** What each error about a range means, as sets of addresses. */
  ghost predicate RangeFault(ipRange: Prefix, subnet: Prefix, e: Error) {
    && ipRange.Prefix?
    && var same := ipRange.block.family == FamilyOf(subnet);
    match e
    case RangeOfOtherFamily(r) => r == ipRange && !same
    case RangeTooBig(r, s) =>
      r == ipRange && s == subnet && same && subnet.Prefix? && ipRange.block.bits < subnet.block.bits
    case RangeNotMasked(r) => r == ipRange && same && !Canonical(ipRange)
    case RangeOutside(r, s) =>
      r == ipRange && s == subnet && same && (subnet.Prefix? ==> Disjoint(ipRange.block, subnet.block))
    case _ => false
  }

  lemma RangeErrorsAreFaults(ipRange: Prefix, subnet: Prefix, e: Error)
    ensures e in ValidateIpRange(ipRange, subnet) <==> RangeFault(ipRange, subnet, e)
  {
    if ipRange.Prefix? {
      CanonicalIsMasked(ipRange);
      if subnet.Prefix? {
        OverlapIsSharedAddress(subnet.block, ipRange.block);
      }
    }
  }

  /** Every error is an actual fault of a checked entry. */
  ghost predicate Faulty(c: IpamConfig, e: Error) {
    match e
    case SubnetNotMasked(s) => s == c.subnet && !Canonical(s)
    case BadGateway(g) => g == c.gateway && !AddrOk(g, c.subnet)
    case BadAux(n) => n in c.aux && !AddrOk(c.aux[n], c.subnet)
    case _ => RangeFault(c.ipRange, c.subnet, e)
  }

  method ValidateOne(c: IpamConfig) returns (errs: seq<Error>)
    ensures forall e :: e in errs <==> Faulty(c, e)
  {
    errs := [];
    CanonicalIsMasked(c.subnet);
    if c.subnet != MaskedPrefix(c.subnet) {
      errs := [SubnetNotMasked(c.subnet)];
    }
    forall e ensures e in ValidateIpRange(c.ipRange, c.subnet) <==> RangeFault(c.ipRange, c.subnet, e) {
      RangeErrorsAreFaults(c.ipRange, c.subnet, e);
    }
    errs := errs + ValidateIpRange(c.ipRange, c.subnet);
    if !ValidateAddress(c.gateway, c.subnet) {
      errs := errs + [BadGateway(c.gateway)];
    }
    ghost var before := errs;
    var todo := c.aux.Keys;
    while todo != {}
      invariant todo <= c.aux.Keys
      invariant forall e :: e in errs <==>
                  (e in before || (e.BadAux? && e.name in c.aux && e.name !in todo && !AddrOk(c.aux[e.name], c.subnet)))
      decreases |todo|
    {
      var n :| n in todo;
      if !ValidateAddress(c.aux[n], c.subnet) {
        errs := errs + [BadAux(n)];
      }
      todo := todo - {n};
    }
  }

  /** A well-formed entry is one without faults. */
  lemma WellFormedIsFaultless(c: IpamConfig)
    ensures WellFormed(c) <==> forall e :: !Faulty(c, e)
  {
    var range := ValidateIpRange(c.ipRange, c.subnet);
    if range != [] {
      RangeErrorsAreFaults(c.ipRange, c.subnet, range[0]);
      assert Faulty(c, range[0]);
    }
    forall e | RangeFault(c.ipRange, c.subnet, e) ensures range != [] {
      RangeErrorsAreFaults(c.ipRange, c.subnet, e);
    }
    assert Faulty(c, SubnetNotMasked(c.subnet)) <==> !Canonical(c.subnet);
    assert Faulty(c, BadGateway(c.gateway)) <==> !AddrOk(c.gateway, c.subnet);
    forall n | n in c.aux ensures Faulty(c, BadAux(n)) <==> !AddrOk(c.aux[n], c.subnet) {
    }
  }

  method ValidateIpamConfig(data: seq<IpamConfig>, enableIPv6: bool) returns (errs: seq<Error>)
    ensures errs == [] <==> Accepted(data, enableIPv6)
    ensures forall e :: e in errs <==> exists i :: 0 <= i < |data| && Checked(data[i], enableIPv6) && Faulty(data[i], e)
  {
    errs := [];
    for k := 0 to |data|
      invariant forall e :: e in errs <==> exists i :: 0 <= i < k && Checked(data[i], enableIPv6) && Faulty(data[i], e)
    {
      if Checked(data[k], enableIPv6) {
        var more := ValidateOne(data[k]);
        errs := errs + more;
      }
    }
    AcceptedIsFaultless(data, enableIPv6);
    if errs != [] {
      assert errs[0] in errs;
    } else {
      forall i, e | 0 <= i < |data| && Checked(data[i], enableIPv6) ensures !Faulty(data[i], e) {
        assert e !in errs;
      }
    }
  }

  lemma AcceptedIsFaultless(data: seq<IpamConfig>, enableIPv6: bool)
    ensures Accepted(data, enableIPv6) <==>
              forall i, e :: 0 <= i < |data| && Checked(data[i], enableIPv6) ==> !Faulty(data[i], e)
  {
    forall i | 0 <= i < |data|
      ensures WellFormed(data[i]) <==> forall e :: !Faulty(data[i], e)
    {
      WellFormedIsFaultless(data[i]);
    }
  }

  // ---- conversion ----

  function UnmapAddr(a: Addr): Addr {
    if a.Addr? && MappedIp(a.ip) then Addr(UnmapIp(a.ip), false) else a
  }

  /** An out-of-range length is read as length 0 here. */
  function UnmapPrefix(p: Prefix): Prefix {
    match p
    case NoPrefix => NoPrefix
    case BadPrefix(ip) => Prefix(Block(UnmapIp(ip).family, UnmapIp(ip).value, 0))
    case Prefix(b) =>
      var ip := Address(b.family, b.value);
      if MappedIp(ip) then Prefix(Block(IPv4, UnmapIp(ip).value, if b.bits < 96 then 0 else b.bits - 96)) else p
  }

  function Convert(c: IpamConfig): IpamConf {
    IpamConf(MaskedPrefix(UnmapPrefix(c.subnet)), MaskedPrefix(UnmapPrefix(c.ipRange)), UnmapAddr(c.gateway),
             map n | n in c.aux :: UnmapAddr(c.aux[n]))
  }

  /** The list an entry goes to: IPv4 only for a valid address that is IPv4 after unmapping. */
  function Target(c: IpamConfig): Family {
    match c.subnet
    case NoPrefix => IPv6
    case BadPrefix(ip) => UnmapIp(ip).family
    case Prefix(b) => UnmapIp(Address(b.family, b.value)).family
  }

  /** The entries of one family, converted, in list order. */
  function Converted(data: seq<IpamConfig>, family: Family): seq<IpamConf> {
    if data == [] then []
    else
      var rest := Converted(data[..|data| - 1], family);
      if Target(data[|data| - 1]) == family then rest + [Convert(data[|data| - 1])] else rest
  }

  /** Entries are converted one by one: each list keeps the order of the input. */
  lemma {:induction false} ConvertedInOrder(xs: seq<IpamConfig>, ys: seq<IpamConfig>, family: Family)
    ensures Converted(xs + ys, family) == Converted(xs, family) + Converted(ys, family)
    ensures |ys| == 1 ==> Converted(ys, family) == if Target(ys[0]) == family then [Convert(ys[0])] else []
  {
    if ys == [] {
      assert xs + ys == xs;
    } else {
      var n := |ys| - 1;
      ConvertedInOrder(xs, ys[..n], family);
      var tail := if Target(ys[n]) == family then [Convert(ys[n])] else [];
      assert Converted(xs + ys, family) == Converted(xs + ys[..n], family) + tail by {
        assert (xs + ys)[..|xs + ys| - 1] == xs + ys[..n];
      }
      Regroup(Converted(xs, family), Converted(ys[..n], family), tail);
    }
  }

  lemma ConvertedStep(data: seq<IpamConfig>, k: nat, family: Family)
    requires k < |data|
    ensures Converted(data[..k + 1], family) ==
            if Target(data[k]) == family then Converted(data[..k], family) + [Convert(data[k])]
            else Converted(data[..k], family)
  {
    assert data[..k + 1] == data[..k] + [data[k]];
    ConvertedInOrder(data[..k], [data[k]], family);
  }

  /** An entry is filed under IPv4 exactly if its subnet has an address that is IPv4 outright or mapped. */
  lemma FiledByFamily(c: IpamConfig)
    ensures Target(c).IPv4? <==>
              match c.subnet
              case NoPrefix => false
              case BadPrefix(ip) => ip.family.IPv4? || MappedIp(ip)
              case Prefix(b) => b.family.IPv4? || MappedIp(Address(b.family, b.value))
  {
  }

  method GetIpamConfig(data: seq<IpamConfig>) returns (v4: seq<IpamConf>, v6: seq<IpamConf>)
    ensures v4 == Converted(data, IPv4) && v6 == Converted(data, IPv6)
    ensures |v4| + |v6| == |data|
  {
    v4, v6 := [], [];
    for k := 0 to |data|
      invariant v4 == Converted(data[..k], IPv4) && v6 == Converted(data[..k], IPv6)
      invariant |v4| + |v6| == k
    {
      ConvertedStep(data, k, IPv4);
      ConvertedStep(data, k, IPv6);
      var conf := Convert(data[k]);
      if Target(data[k]).IPv4? {
        v4 := v4 + [conf];
      } else {
        v6 := v6 + [conf];
      }
    }
    assert data[..|data|] == data;
  }

  /** No IPv4-mapped spelling and no prefix with an out-of-range length. */
  predicate PlainPrefix(p: Prefix) {
    !p.BadPrefix? && (p.Prefix? ==> !MappedIp(Address(p.block.family, p.block.value)))
  }

  predicate PlainAddr(a: Addr) {
    a.Addr? ==> !MappedIp(a.ip)
  }

  predicate Plain(c: IpamConfig) {
    && PlainPrefix(c.subnet) && PlainPrefix(c.ipRange) && PlainAddr(c.gateway)
    && forall n :: n in c.aux ==> PlainAddr(c.aux[n])
  }

  /** The sub-pool, the gateway and the auxiliary addresses of a configuration lie in its pool. */
  ghost predicate Contained(c: IpamConf) {
    && RangeOk(c.subPool, c.preferredPool)
    && AddrOk(c.gateway, c.preferredPool)
    && forall n :: n in c.aux ==> AddrOk(c.aux[n], c.preferredPool)
  }

  /** A plain, well-formed entry is converted unchanged. */
  lemma PlainConvertsUnchanged(c: IpamConfig)
    requires Plain(c) && WellFormed(c)
    ensures Convert(c) == IpamConf(c.subnet, c.ipRange, c.gateway, c.aux)
    ensures Contained(Convert(c))
    ensures c.subnet.Prefix? ==> Target(c) == c.subnet.block.family
  {
    CanonicalIsMasked(c.subnet);
    CanonicalIsMasked(c.ipRange);
    assert (map n | n in c.aux :: UnmapAddr(c.aux[n])) == c.aux;
  }

  /** Where a converted entry comes from. */
  lemma {:induction false} ConvertedOrigin(data: seq<IpamConfig>, family: Family, k: nat) returns (i: nat)
    requires k < |Converted(data, family)|
    ensures i < |data| && Target(data[i]) == family && Converted(data, family)[k] == Convert(data[i])
  {
    var n := |data| - 1;
    if k < |Converted(data[..n], family)| {
      i := ConvertedOrigin(data[..n], family, k);
    } else {
      i := n;
    }
  }

  predicate MappedPrefix(p: Prefix) {
    p.Prefix? && MappedIp(Address(p.block.family, p.block.value))
  }

  predicate WholeFamily(p: Prefix, family: Family) {
    p.Prefix? && p.block.family == family && p.block.bits == 0
  }

  /**
   No part of the entry changes family on its own when it is unmapped: only a mapped subnet has mapped
   parts. A range of invalid length, which validation ignores, becomes its whole family.
   */
  predicate Unambiguous(c: IpamConfig) {
    && (MappedPrefix(c.subnet) ||
        (!MappedPrefix(c.ipRange) && PlainAddr(c.gateway) && forall n :: n in c.aux ==> PlainAddr(c.aux[n])))
    && (c.ipRange.BadPrefix? ==> WholeFamily(UnmapPrefix(c.subnet), UnmapIp(c.ipRange.ip).family))
  }

  function Pool(subnet: Prefix): Prefix {
    MaskedPrefix(UnmapPrefix(subnet))
  }

  lemma ConvertedAddr(subnet: Prefix, a: Addr)
    requires Canonical(subnet) && AddrOk(a, subnet)
    ensures AddrOk(UnmapAddr(a), Pool(subnet)) <==> MappedPrefix(subnet) || PlainAddr(a)
  {
    if a.Addr? {
      CanonicalIsMasked(subnet);
      if MappedPrefix(subnet) {
        UpperBits(subnet.block.value, subnet.block.bits);
        UnmappedBlock(subnet.block, a.ip);
        MaskedSameSet(UnmapPrefix(subnet).block);
      }
    }
  }

  lemma PoolIsCanonical(p: Prefix)
    ensures Canonical(Pool(p))
    ensures Canonical(p) && !MappedPrefix(p) ==> Pool(p) == p
  {
    CanonicalIsMasked(p);
    CanonicalIsMasked(Pool(p));
    if UnmapPrefix(p).Prefix? {
      MaskedSameSet(UnmapPrefix(p).block);
    }
  }

  /** A range in a mapped subnet is mapped, and stays inside. */
  lemma MappedRange(subnet: Block, r: Block)
    requires Canonical(Prefix(subnet)) && MappedPrefix(Prefix(subnet)) && Subset(r, subnet)
    ensures Subset(Pool(Prefix(r)).block, Pool(Prefix(subnet)).block)
  {
    var own := Address(r.family, r.value);
    SubsetIsMaskTest(r, subnet);
    CanonicalIsMasked(Prefix(subnet));
    UpperBits(subnet.value, subnet.bits);
    UnmappedBlock(subnet, own);
    MaskedSameSet(UnmapPrefix(Prefix(subnet)).block);
    MaskedSameSet(UnmapPrefix(Prefix(r)).block);
    ContainsOwnValue(UnmapPrefix(Prefix(r)).block);
    SharedAddressNests(Pool(Prefix(subnet)).block, Pool(Prefix(r)).block, UnmapIp(own));
  }

  lemma ConvertedRange(subnet: Prefix, r: Prefix)
    requires Canonical(subnet) && r.Prefix? && RangeOk(r, subnet)
    ensures RangeOk(Pool(r), Pool(subnet)) <==> MappedPrefix(subnet) || !MappedPrefix(r)
  {
    PoolIsCanonical(subnet);
    PoolIsCanonical(r);
    if MappedPrefix(subnet) {
      MappedRange(subnet.block, r.block);
    } else if MappedPrefix(r) {
      SubsetIsMaskTest(r.block, subnet.block);
      SubsetIsMaskTest(Pool(r).block, Pool(subnet).block);
    }
  }

  /** An ignored range of invalid length is converted to all addresses of its family. */
  lemma ConvertedBadRange(subnet: Prefix, r: Prefix)
    requires Canonical(subnet) && r.BadPrefix?
    ensures RangeOk(Pool(r), Pool(subnet)) <==> WholeFamily(UnmapPrefix(subnet), UnmapIp(r.ip).family)
  {
    PoolIsCanonical(r);
    if subnet.Prefix? {
      var whole, pool := Pool(r).block, Pool(subnet).block;
      SubsetIsMaskTest(whole, pool);
      if pool.bits == 0 && pool.family == whole.family {
        ZeroBitsContainAll(pool, Address(whole.family, whole.value));
      }
    }
  }

  /** Conversion keeps a well-formed entry contained exactly when the entry is unambiguous. */
  lemma ConversionKeepsContainment(c: IpamConfig)
    requires WellFormed(c)
    ensures Contained(Convert(c)) <==> Unambiguous(c)
  {
    ConvertedAddr(c.subnet, c.gateway);
    forall n | n in c.aux
      ensures AddrOk(Convert(c).aux[n], Pool(c.subnet)) <==> MappedPrefix(c.subnet) || PlainAddr(c.aux[n])
    {
      ConvertedAddr(c.subnet, c.aux[n]);
    }
    match c.ipRange
    case NoPrefix =>
    case BadPrefix(_) => ConvertedBadRange(c.subnet, c.ipRange);
    case Prefix(_) => ConvertedRange(c.subnet, c.ipRange);
  }

  /** Every entry is converted into its family's list. */
  lemma {:induction false} ConvertedHolds(data: seq<IpamConfig>, i: nat) returns (k: nat)
    requires i < |data|
    ensures var list := Converted(data, Target(data[i])); k < |list| && list[k] == Convert(data[i])
  {
    var n := |data| - 1;
    if i < n {
      k := ConvertedHolds(data[..n], i);
    } else {
      k := |Converted(data[..n], Target(data[n]))|;
    }
  }

  /** The list of a family whose entries were all validated has contained pools exactly if they are unambiguous. */
  lemma AcceptedIsContained(data: seq<IpamConfig>, enableIPv6: bool, family: Family)
    requires Accepted(data, enableIPv6)
    requires forall i :: 0 <= i < |data| && Target(data[i]) == family ==> Checked(data[i], enableIPv6)
    ensures (forall k :: 0 <= k < |Converted(data, family)| ==> Contained(Converted(data, family)[k]))
       <==> forall i :: 0 <= i < |data| && Target(data[i]) == family ==> Unambiguous(data[i])
  {
    var list := Converted(data, family);
    if forall k :: 0 <= k < |list| ==> Contained(list[k]) {
      forall i | 0 <= i < |data| && Target(data[i]) == family ensures Unambiguous(data[i]) {
        var k := ConvertedHolds(data, i);
        assert Contained(list[k]);
        ConversionKeepsContainment(data[i]);
      }
    } else {
      var k :| 0 <= k < |list| && !Contained(list[k]);
      var i := ConvertedOrigin(data, family, k);
      ConversionKeepsContainment(data[i]);
    }
  }

  /** Accepted plain input yields contained pools: all IPv4 ones, and the IPv6 ones if IPv6 is on. */
  lemma PlainIsContained(data: seq<IpamConfig>, enableIPv6: bool, family: Family)
    requires forall i :: 0 <= i < |data| ==> Plain(data[i])
    requires Accepted(data, enableIPv6) && (enableIPv6 || family.IPv4?)
    ensures forall k :: 0 <= k < |Converted(data, family)| ==> Contained(Converted(data, family)[k])
  {
    AcceptedIsContained(data, enableIPv6, family);
  }

  /** The subnets for which acceptance means containment are exactly those that validation looks at. */
  lemma ProtectedSubnets(subnet: Prefix, enableIPv6: bool)
    ensures (forall c: IpamConfig ::
               c.subnet == subnet && Unambiguous(c) && Accepted([c], enableIPv6) ==> Contained(Convert(c)))
       <==> enableIPv6 || FamilyOf(subnet).IPv4?
  {
    if enableIPv6 || FamilyOf(subnet).IPv4? {
      forall c: IpamConfig | c.subnet == subnet && Unambiguous(c) && Accepted([c], enableIPv6)
        ensures Contained(Convert(c))
      {
        assert WellFormed([c][0]);
        ConversionKeepsContainment(c);
      }
    } else {
      var other := if UnmapPrefix(subnet).block.family.IPv4? then IPv6 else IPv4;
      var c := IpamConfig(subnet, NoPrefix, Addr(Address(other, 0), false), map[]);
      assert Unambiguous(c) && Accepted([c], enableIPv6) && !Contained(Convert(c));
    }
  }

  function WithGateway(subnet: Block, gateway: Address): IpamConfig {
    IpamConfig(Prefix(subnet), NoPrefix, Addr(gateway, false), map[])
  }

  /**
   Plain input is needed: an IPv4-mapped subnet is skipped as IPv6 by validation when IPv6 is off and
   then filed under IPv4, here with a gateway outside its pool.
   */
  lemma MappedSubnetEscapes()
    ensures var c := WithGateway(Block(IPv6, 0xffff_0a00_0000, 104), Address(IPv4, 0xc0a8_0101));
            && Accepted([c], false) && !Plain(c)
            && Converted([c], IPv4) == [Convert(c)] && !Contained(Convert(c))
  {
    var c := WithGateway(Block(IPv6, 0xffff_0a00_0000, 104), Address(IPv4, 0xc0a8_0101));
    assert [c][..0] == [];
    var pool := Convert(c).preferredPool.block;
    MaskedSameSet(Block(IPv4, 0x0a00_0000, 8));
    Pow2IsPow16(6);
    assert Pow16(6) == 0x100_0000;
    assert !Contains(pool, Address(IPv4, 0xc0a8_0101));
  }

  /** An IPv4-mapped gateway lies in ::/0, passes validation, and is then an IPv4 address outside the pool. */
  lemma MappedGatewayEscapes()
    ensures var c := WithGateway(Block(IPv6, 0, 0), Address(IPv6, 0xffff_0a00_0001));
            && Accepted([c], true) && !Contained(Convert(c))
  {
    var c := WithGateway(Block(IPv6, 0, 0), Address(IPv6, 0xffff_0a00_0001));
    ZeroBitsContainAll(c.subnet.block, c.gateway.ip);
    assert Canonical(c.subnet);
  }
}
