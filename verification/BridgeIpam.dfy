/**
 IPAM configuration of the default bridge: choosing a bridge address and repairing its
 subnet so that fixed-cidr fits (moby/daemon/daemon_unix.go).

 Go's `net.IP` treats an IPv6 literal in ::ffff:0:0/96 as the IPv4 address it maps, while the
 literal's mask keeps counting from 128 bits. Both readings are kept here, because the code
 compares mask lengths of one kind with those of the other.
 */
module BridgeIpam {
  import opened Wrappers
  import opened Prefixes

  /** The text of a CIDR option, as the number of bits it was written with. */
  datatype CidrText = Text4(value: nat, ones: nat) | Text6(value: nat, ones: nat)

  datatype CidrOption = Unset | Malformed | Given(text: CidrText)

  /** A `net.IPNet`: an address and a mask of `ones` among `width` bits; `NilNet` has lost its address. */
  datatype IpNet = IpNet(ip: Address, ones: nat, width: nat) | NilNet(ones: nat)

  datatype Pool = NoPool | GarbagePool | Pool(block: Block)

  datatype IpamConf = IpamConf(preferredPool: Pool, subPool: Pool, gateway: Option<Address>)

  datatype Error = BadFixedCidr | BadBip | ListFailed | OutsideBridgeSubnets

  predicate ValidText(t: CidrText) {
    match t
    case Text4(v, ones) => v < Range(IPv4) && ones <= 32
    case Text6(v, ones) => v < Range(IPv6) && ones <= 128
  }

  /** The literal lies in ::ffff:0:0/96. */
  predicate Mapped(t: CidrText) {
    t.Text6? && t.value / 0x1_0000_0000 == 0xffff
  }

  /** What `IP.To4` makes of a 16-byte value. */
  function View(value: nat): Address
    requires value < Range(IPv6)
  {
    UnmapIp(Address(IPv6, value))
  }

  /** The address returned by `net.ParseCIDR`. */
  function TextIp(t: CidrText): Address
    requires ValidText(t)
  {
    if t.Text4? then Address(IPv4, t.value) else View(t.value)
  }

  /** The network returned by `net.ParseCIDR`. */
  function TextNet(t: CidrText): IpNet
    requires ValidText(t)
  {
    if t.Text4? then
      IpNet(Address(IPv4, Base(Block(IPv4, t.value, t.ones))), t.ones, 32)
    else
      IpNet(View(Base(Block(IPv6, t.value, t.ones))), t.ones, 128)
  }

  predicate ValidNet(n: IpNet) {
    n.IpNet? ==>
      && n.ones <= n.width && (n.width == 32 || n.width == 128)
      && (n.ip.family.IPv6? ==> n.width == 128)
  }

  /** The block a network denotes: a 128-bit mask on an IPv4 address counts only its last 32 bits. */
  function Denotes(n: IpNet): Option<Block>
    requires ValidNet(n)
  {
    if n.NilNet? then None
    else if n.ip.family.IPv4? && n.width == 128 then
      Some(Block(IPv4, n.ip.value, if n.ones < 96 then 0 else n.ones - 96))
    else
      Some(Block(n.ip.family, n.ip.value, n.ones))
  }

  function PoolOf(n: IpNet): Pool
    requires ValidNet(n)
  {
    if Denotes(n).Some? then Pool(Denotes(n).value) else GarbagePool
  }

  predicate NetContains(n: IpNet, a: Address)
    requires ValidNet(n)
  {
    Denotes(n).Some? && Contains(Denotes(n).value, a)
  }

  /** `IP.Mask`: the result is nil when address and mask lengths cannot be reconciled. */
  function Remask(ip: Address, mask: IpNet): IpNet
    requires ValidNet(mask)
  {
    if mask.NilNet? then NilNet(mask.ones)
    else if ip.family.IPv6? && mask.width == 32 then NilNet(mask.ones)
    else if ip.family.IPv4? && mask.width == 128 then
      if mask.ones < 96 then NilNet(mask.ones)
      else IpNet(Address(IPv4, Base(Block(IPv4, ip.value, mask.ones - 96))), mask.ones, 128)
    else
      IpNet(Address(ip.family, Base(Block(ip.family, ip.value, mask.ones))), mask.ones, mask.width)
  }

  /** fe80::/64, the one link-local prefix in use under fe80::/10 (section 2.5.6 of RFC 4291). */
  function LinkLocal(): Block {
    Block(IPv6, 0xfe80_0000_0000_0000_0000_0000_0000_0000, 64)
  }

  predicate IsStandardLL(ip: Address) {
    ip.family.IPv6? && Base(Block(IPv6, ip.value, 64)) == 0xfe80_0000_0000_0000_0000_0000_0000_0000
  }

  /** The mask-and-compare test is membership of fe80::/64. */
  lemma StandardLLIsBlock(ip: Address)
    ensures IsStandardLL(ip) <==> Contains(LinkLocal(), ip)
  {
    RangeIsPow2(IPv6);
    ContainsIsInterval(LinkLocal(), ip);
    if ip.family.IPv6? {
      MaskedSameSet(Block(IPv6, ip.value, 64));
    }
  }

  /** An address on the bridge: the interface address with its prefix length, of the listed family. */
  predicate ValidAddrs(family: Family, addrs: seq<Block>) {
    forall b :: b in addrs ==> b.family == family
  }

  function OwnAddress(b: Block): Address {
    Address(b.family, b.value)
  }

  /** Which bridge address is to be used, stated without reference to the search. */
  ghost predicate IsChoice(addrs: seq<Block>, ip: Address, net: IpNet, k: int)
    requires ValidNet(net)
  {
    && 0 <= k < |addrs|
    && if exists i :: 0 <= i < |addrs| && Contains(addrs[i], ip) then
      Contains(addrs[k], ip) && forall j :: 0 <= j < k ==> !Contains(addrs[j], ip)
    else if exists i :: 0 <= i < |addrs| && NetContains(net, OwnAddress(addrs[i])) then
      NetContains(net, OwnAddress(addrs[k])) && forall j :: 0 <= j < k ==> !NetContains(net, OwnAddress(addrs[j]))
    else
      k == 0
  }

  /** The search over the bridge's addresses. */
  method ChooseAddress(addrs: seq<Block>, ip: Address, net: IpNet) returns (k: nat)
    requires |addrs| > 0 && ValidNet(net)
    ensures IsChoice(addrs, ip, net, k)
  {
    k := 0;
    if |addrs| > 1 {
      var i := 0;
      while i < |addrs|
        invariant 0 <= i <= |addrs| && k < |addrs|
        invariant forall j :: 0 <= j < i ==> !Contains(addrs[j], ip)
        invariant forall j :: 0 <= j < k ==> !NetContains(net, OwnAddress(addrs[j]))
        invariant NetContains(net, OwnAddress(addrs[k])) ||
                  (k == 0 && forall j :: 0 <= j < i ==> !NetContains(net, OwnAddress(addrs[j])))
      {
        if Contains(addrs[i], ip) {
          k := i;
          return;
        }
        if NetContains(net, OwnAddress(addrs[i])) && !NetContains(net, OwnAddress(addrs[k])) {
          k := i;
        }
        i := i + 1;
      }
    }
  }

  /** The bridge addresses that are considered: link-local ones only next to a link-local fixed-cidr. */
  function Considered(family: Family, addrs: seq<Block>, fixed: Option<CidrText>): (r: seq<Block>)
    requires fixed.Some? ==> ValidText(fixed.value)
    ensures forall b :: b in r <==>
              && b in addrs
              && (family.IPv6? && IsStandardLL(OwnAddress(b)) ==> fixed.Some? && IsStandardLL(TextIp(fixed.value)))
  {
    if family.IPv6? && (fixed.None? || !IsStandardLL(TextIp(fixed.value))) then
      var kept := Kept(addrs, NotLinkLocal);
      assert forall b: Block :: b in kept <==> b in addrs && NotLinkLocal(b) by {
        forall b: Block ensures b in kept <==> b in addrs && NotLinkLocal(b) {
          KeptMembers(addrs, NotLinkLocal, b);
        }
      }
      kept
    else addrs
  }

  predicate NotLinkLocal(b: Block) {
    !IsStandardLL(OwnAddress(b))
  }

  function Kept<T>(xs: seq<T>, keep: T -> bool): seq<T> {
    if xs == [] then []
    else (if keep(xs[0]) then [xs[0]] else []) + Kept(xs[1..], keep)
  }

  lemma {:induction false} KeptMembers<T>(xs: seq<T>, keep: T -> bool, x: T)
    ensures x in Kept(xs, keep) <==> x in xs && keep(x)
  {
    if xs == [] {
    } else {
      KeptMembers(xs[1..], keep, x);
    }
  }

  /** Addresses are dropped one by one, so those that stay keep their order. */
  lemma {:induction false} KeptInOrder<T>(xs: seq<T>, ys: seq<T>, keep: T -> bool)
    ensures Kept(xs + ys, keep) == Kept(xs, keep) + Kept(ys, keep)
  {
    if xs == [] {
      assert xs + ys == ys;
    } else {
      var head := if keep(xs[0]) then [xs[0]] else [];
      assert Kept(xs + ys, keep) == head + Kept(xs[1..] + ys, keep) by {
        assert (xs + ys)[1..] == xs[1..] + ys;
      }
      KeptInOrder(xs[1..], ys, keep);
      Regroup(head, Kept(xs[1..], keep), Kept(ys, keep));
    }
  }

  /** The bridge address fixed-cidr selects, and the network made of it. */
  method SelectBip(userManaged: bool, family: Family, addrs: seq<Block>, fixed: Option<CidrText>)
    returns (bip: Option<(Address, IpNet)>, ghost k: nat)
    requires ValidAddrs(family, addrs)
    requires fixed.Some? ==> ValidText(fixed.value)
    ensures var us := Considered(family, addrs, fixed);
            && (us == [] ==> bip.None?)
            && (us != [] ==> k < |us|)
            && (us != [] && fixed.None? ==> k == 0)
            && (us != [] && fixed.Some? ==> IsChoice(us, TextIp(fixed.value), TextNet(fixed.value), k))
            && (us != [] ==> bip == Repaired(userManaged, us[k], fixed))
  {
    var us := Considered(family, addrs, fixed);
    bip, k := None, 0;
    if |us| > 0 {
      var c: nat := 0;
      if fixed.Some? {
        c := ChooseAddress(us, TextIp(fixed.value), TextNet(fixed.value));
      }
      k := c;
      var nw := us[c];
      var bNet := IpNet(Address(family, Base(nw)), nw.bits, Width(family));
      bip := Some((OwnAddress(nw), bNet));
      MaskedSameSet(nw);
      if !userManaged && fixed.Some? {
        var fNet := TextNet(fixed.value);
        if !NetContains(bNet, TextIp(fixed.value)) {
          bip := None;
        } else if fNet.ones < bNet.ones {
          bip := Some((OwnAddress(nw), Remask(bNet.ip, fNet)));
        }
      }
    }
  }

  /** What becomes of the chosen address: kept, dropped, or kept with fixed-cidr's mask. */
  function Repaired(userManaged: bool, nw: Block, fixed: Option<CidrText>): Option<(Address, IpNet)>
    requires fixed.Some? ==> ValidText(fixed.value)
  {
    var kept := IpNet(Address(nw.family, Base(nw)), nw.bits, Width(nw.family));
    if userManaged || fixed.None? then Some((OwnAddress(nw), kept))
    else if !Contains(nw, TextIp(fixed.value)) then None
    else if fixed.value.ones < nw.bits then
      Some((OwnAddress(nw), Remask(Address(nw.family, Base(nw)), TextNet(fixed.value))))
    else Some((OwnAddress(nw), kept))
  }

  /** The sub-pool is empty or inside the preferred pool, and so is the gateway if there is one. */
  ghost predicate Contained(c: IpamConf) {
    && (c.subPool != NoPool ==>
          && c.subPool.Pool? && c.preferredPool.Pool?
          && Subset(c.subPool.block, c.preferredPool.block))
    && (c.gateway.Some? ==> c.preferredPool.Pool? && Contains(c.preferredPool.block, c.gateway.value))
  }

  /**
   Exactly when fixed-cidr is safe with the addresses on a bridge: it is not an IPv4-mapped literal,
   or no bridge subnet contains its address, or the first that does is at least as large (or the
   bridge is user-managed and the mismatched masks happen to drop the sub-pool).
   */
  ghost predicate SafeFixedCidr(userManaged: bool, us: seq<Block>, text: CidrText)
    requires ValidText(text)
  {
    Mapped(text) ==>
      forall i :: 0 <= i < |us| && Contains(us[i], TextIp(text)) &&
                  (forall j :: 0 <= j < i ==> !Contains(us[j], TextIp(text))) ==>
        (text.ones >= 96 && us[i].bits <= text.ones - 96) || (userManaged && text.ones < us[i].bits)
  }

  // ---- what a fixed-cidr literal denotes ----

  lemma TextNetDenotes(t: CidrText)
    requires ValidText(t)
    ensures ValidNet(TextNet(t)) && TextNet(t).IpNet? && TextNet(t).ones == t.ones
    ensures Denotes(TextNet(t)).Some?
    ensures if Mapped(t) then TextIp(t).family.IPv4? && 0xffff_0000_0000 + TextIp(t).value == t.value
            else TextIp(t) == Address(if t.Text4? then IPv4 else IPv6, t.value)
    ensures !Mapped(t) ==> Denotes(TextNet(t)).value == Masked(Block(TextIp(t).family, t.value, t.ones))
    ensures var d := Denotes(TextNet(t)).value;
            if !Mapped(t) then
              d.family == TextIp(t).family && d.bits == t.ones && Contains(d, TextIp(t)) &&
              TextNet(t).width == Width(d.family)
            else if t.ones >= 96 then d.family.IPv4? && d.bits == t.ones - 96 && Contains(d, TextIp(t))
            else d.family.IPv6?
  {
    if t.Text4? {
      MaskedSameSet(Block(IPv4, t.value, t.ones));
    } else {
      var b := Block(IPv6, t.value, t.ones);
      UpperBits(t.value, t.ones);
      MaskedSameSet(b);
      if Mapped(t) && t.ones >= 96 {
        RangeIsPow2(IPv4);
        Pow2Adds(128 - t.ones, t.ones - 96);
        ModThenDiv(t.value, Size(b), Pow2(t.ones - 96));
        ModThenDiv(Base(b), Size(b), Pow2(t.ones - 96));
      }
    }
  }

  // ---- containment ----

  /** The configuration assembled from a bridge address and fixed-cidr. */
  function Assemble(userManaged: bool, family: Family, fixed: Option<CidrText>, bip: Option<(Address, IpNet)>)
    : Result<IpamConf, Error>
    requires fixed.Some? ==> ValidText(fixed.value)
    requires bip.Some? ==> ValidNet(bip.value.1)
  {
    var pool := if bip.Some? then PoolOf(bip.value.1) else NoPool;
    var gateway := if bip.Some? then Some(bip.value.0) else None;
    if fixed.None? then Ok(IpamConf(pool, NoPool, gateway))
    else
      TextNetDenotes(fixed.value);
      var sub := PoolOf(TextNet(fixed.value));
      if bip.None? then Ok(IpamConf(sub, sub, None))
      else if userManaged &&
              (!NetContains(bip.value.1, TextIp(fixed.value)) || fixed.value.ones < bip.value.1.ones) then
        if family.IPv6? then Err(OutsideBridgeSubnets) else Ok(IpamConf(pool, NoPool, gateway))
      else Ok(IpamConf(pool, sub, gateway))
  }

  lemma RepairedIsValid(userManaged: bool, nw: Block, fixed: Option<CidrText>)
    requires fixed.Some? ==> ValidText(fixed.value)
    ensures var r := Repaired(userManaged, nw, fixed); r.Some? ==> ValidNet(r.value.1)
  {
  }

  /** A kept address lies in its own canonical subnet, which covers the same addresses. */
  lemma KeptContains(nw: Block, a: Address)
    ensures var kept := IpNet(Address(nw.family, Base(nw)), nw.bits, Width(nw.family));
            && ValidNet(kept) && Denotes(kept) == Some(Masked(nw))
            && (NetContains(kept, a) <==> Contains(nw, a))
  {
    MaskedSameSet(nw);
  }

  /** fixed-cidr outside the chosen subnet: the address or the sub-pool is given up, so containment holds. */
  lemma OutsideIsContained(userManaged: bool, family: Family, nw: Block, text: CidrText)
    requires ValidText(text) && !Contains(nw, TextIp(text)) && nw.family == family
    ensures var bip := Repaired(userManaged, nw, Some(text));
            && (bip.Some? ==> ValidNet(bip.value.1))
            && var r := Assemble(userManaged, family, Some(text), bip); r.Ok? ==> Contained(r.value)
  {
    TextNetDenotes(text);
    KeptContains(nw, TextIp(text));
    KeptContains(nw, OwnAddress(nw));
  }

  /** A plain fixed-cidr inside the chosen subnet is contained after repair. */
  lemma PlainInsideIsContained(userManaged: bool, family: Family, nw: Block, text: CidrText)
    requires ValidText(text) && Contains(nw, TextIp(text)) && nw.family == family && !Mapped(text)
    ensures var bip := Repaired(userManaged, nw, Some(text));
            && (bip.Some? ==> ValidNet(bip.value.1))
            && var r := Assemble(userManaged, family, Some(text), bip); r.Ok? ==> Contained(r.value)
  {
    var ip, d := TextIp(text), Denotes(TextNet(text)).value;
    TextNetDenotes(text);
    KeptContains(nw, ip);
    KeptContains(nw, OwnAddress(nw));
    if nw.bits <= text.ones {
      SharedAddressNests(Masked(nw), d, ip);
    } else if !userManaged {
      WidenedContains(nw, text);
    }
  }

  /** Widening the bridge subnet to fixed-cidr's mask makes it fixed-cidr, with the bridge address inside. */
  lemma WidenedContains(nw: Block, text: CidrText)
    requires ValidText(text) && Contains(nw, TextIp(text)) && !Mapped(text) && text.ones < nw.bits
    ensures var wide := Remask(Address(nw.family, Base(nw)), TextNet(text));
            && ValidNet(wide) && Denotes(wide).Some?
            && Contains(Denotes(wide).value, OwnAddress(nw))
            && Subset(Denotes(TextNet(text)).value, Denotes(wide).value)
  {
    var ip, d := TextIp(text), Denotes(TextNet(text)).value;
    TextNetDenotes(text);
    var wide := Block(nw.family, Base(nw), text.ones);
    MaskedSameSet(nw);
    MaskedSameSet(wide);
    CoarserAgrees(nw.family, Base(nw), nw.value, text.ones, nw.bits);
    CoarserAgrees(nw.family, ip.value, nw.value, text.ones, nw.bits);
    SharedAddressNests(Masked(wide), d, ip);
  }

  /** A mapped fixed-cidr inside the chosen subnet is contained only when that subnet is no smaller. */
  lemma MappedInside(userManaged: bool, family: Family, nw: Block, text: CidrText)
    requires ValidText(text) && Contains(nw, TextIp(text)) && nw.family == family && Mapped(text)
    ensures var bip := Repaired(userManaged, nw, Some(text));
            && (bip.Some? ==> ValidNet(bip.value.1))
            && var r := Assemble(userManaged, family, Some(text), bip);
            r.Ok? ==> (Contained(r.value) <==>
                       (text.ones >= 96 && nw.bits <= text.ones - 96) || (userManaged && text.ones < nw.bits))
  {
    var ip, d := TextIp(text), Denotes(TextNet(text)).value;
    TextNetDenotes(text);
    KeptContains(nw, ip);
    KeptContains(nw, OwnAddress(nw));
    SubsetIsMaskTest(d, Masked(nw));
    if text.ones >= 96 && nw.bits <= text.ones - 96 {
      SharedAddressNests(Masked(nw), d, ip);
    }
  }

  /** Containment after choice, repair and assembly, with its exact domain. */
  lemma ContainmentIsExact(userManaged: bool, family: Family, us: seq<Block>, text: CidrText, k: nat)
    requires ValidText(text) && ValidAddrs(family, us) && ValidNet(TextNet(text))
    requires us != [] ==> IsChoice(us, TextIp(text), TextNet(text), k)
    ensures var bip := if us == [] then None else Repaired(userManaged, us[k], Some(text));
            && (bip.Some? ==> ValidNet(bip.value.1))
            && var r := Assemble(userManaged, family, Some(text), bip);
            r.Ok? ==> (Contained(r.value) <==> SafeFixedCidr(userManaged, us, text))
  {
    TextNetDenotes(text);
    if us != [] {
      var nw := us[k];
      assert nw in us;
      if !Contains(nw, TextIp(text)) {
        OutsideIsContained(userManaged, family, nw, text);
      } else if !Mapped(text) {
        PlainInsideIsContained(userManaged, family, nw, text);
      } else {
        MappedInside(userManaged, family, nw, text);
      }
    }
  }

  /** An IPv4-mapped fixed-cidr next to a bridge address of its own network escapes the bridge subnet. */
  lemma MappedFixedCidrEscapes()
    ensures var text, nw := Text6(0xffff_0a00_0000, 104), Block(IPv4, 0x0a00_0001, 24);
            && ValidText(text) && !SafeFixedCidr(false, [nw], text)
            && (var bip := Repaired(false, nw, Some(text));
                && bip.Some? && ValidNet(bip.value.1)
                && (var r := Assemble(false, IPv4, Some(text), bip); r.Ok? && !Contained(r.value)))
  {
    var text, nw := Text6(0xffff_0a00_0000, 104), Block(IPv4, 0x0a00_0001, 24);
    assert Pow2(8) == 256;
    assert Contains([nw][0], TextIp(text));
    MappedInside(false, IPv4, nw, text);
  }

  /**
   How gateway and pools come about: the chosen address is the gateway unless a docker-managed bridge
   gives it up, and the subnet is the chosen one or fixed-cidr, widened only where fixed-cidr has the shorter mask.
   */
  ghost predicate Explained(userManaged: bool, us: seq<Block>, fixed: Option<CidrText>, k: nat, c: IpamConf)
    requires fixed.Some? ==> ValidText(fixed.value) && ValidNet(TextNet(fixed.value))
  {
    var fixedPool := if fixed.Some? then PoolOf(TextNet(fixed.value)) else NoPool;
    if us == [] then c == IpamConf(fixedPool, fixedPool, None)
    else
      && k < |us|
      && (if fixed.None? then k == 0 && c == IpamConf(Pool(Masked(us[0])), NoPool, Some(OwnAddress(us[0])))
          else
            var ip, ones, nw := TextIp(fixed.value), fixed.value.ones, us[k];
            && IsChoice(us, ip, TextNet(fixed.value), k)
            && (!userManaged && !Contains(nw, ip) ==> c == IpamConf(fixedPool, fixedPool, None))
            && (userManaged || Contains(nw, ip) ==> c.gateway == Some(OwnAddress(nw)))
            && (userManaged || (Contains(nw, ip) && nw.bits <= ones) ==> c.preferredPool == Pool(Masked(nw)))
            && (!userManaged && !Mapped(fixed.value) && Contains(nw, ip) && ones < nw.bits ==>
                  && c.preferredPool.Pool? && c.preferredPool.block.bits == ones
                  && c.preferredPool.block.family == nw.family)
            && c.subPool == (if userManaged && !(Contains(nw, ip) && nw.bits <= ones) then NoPool else fixedPool))
  }

  lemma AssembledIsExplained(userManaged: bool, family: Family, us: seq<Block>, fixed: Option<CidrText>, k: nat)
    requires fixed.Some? ==> ValidText(fixed.value) && ValidNet(TextNet(fixed.value))
    requires ValidAddrs(family, us)
    requires us != [] && fixed.Some? ==> IsChoice(us, TextIp(fixed.value), TextNet(fixed.value), k)
    requires us != [] && fixed.None? ==> k == 0
    ensures var bip := if us == [] then None else Repaired(userManaged, us[k], fixed);
            && (bip.Some? ==> ValidNet(bip.value.1))
            && var r := Assemble(userManaged, family, fixed, bip);
            && (r.Ok? ==> Explained(userManaged, us, fixed, k, r.value))
            && (r.Ok? && fixed.None? ==> Contained(r.value))
            && (r.Err? <==>
                  && userManaged && family.IPv6? && us != [] && fixed.Some?
                  && !(Contains(us[k], TextIp(fixed.value)) && us[k].bits <= fixed.value.ones))
  {
    if fixed.Some? {
      TextNetDenotes(fixed.value);
    }
    if us != [] {
      RepairedIsValid(userManaged, us[k], fixed);
      KeptContains(us[k], OwnAddress(us[k]));
      if fixed.Some? {
        KeptContains(us[k], TextIp(fixed.value));
      }
    }
  }

  /** The configuration made of the bridge address and fixed-cidr. */
  method AssembleConf(userManaged: bool, family: Family, fixed: Option<CidrText>, bip: Option<(Address, IpNet)>)
    returns (r: Result<IpamConf, Error>)
    requires fixed.Some? ==> ValidText(fixed.value)
    requires bip.Some? ==> ValidNet(bip.value.1)
    ensures r == Assemble(userManaged, family, fixed, bip)
  {
    if fixed.Some? {
      TextNetDenotes(fixed.value);
    }
    var conf := IpamConf(NoPool, NoPool, None);
    if bip.Some? {
      conf := IpamConf(PoolOf(bip.value.1), NoPool, Some(bip.value.0));
    }
    if fixed.Some? {
      var fNet := TextNet(fixed.value);
      conf := conf.(subPool := PoolOf(fNet));
      if conf.preferredPool == NoPool {
        conf := conf.(preferredPool := PoolOf(fNet));
      } else if userManaged && bip.Some? {
        if !NetContains(bip.value.1, TextIp(fixed.value)) || fNet.ones < bip.value.1.ones {
          if family.IPv6? {
            return Err(OutsideBridgeSubnets);
          }
          conf := conf.(subPool := NoPool);
        }
      }
    }
    r := Ok(conf);
  }

  /** fixed-cidr's address is in the network of bip, and its mask is no shorter. */
  predicate InsideBip(fixed: CidrText, bip: CidrText)
    requires ValidText(fixed) && ValidText(bip) && ValidNet(TextNet(bip))
  {
    NetContains(TextNet(bip), TextIp(fixed)) && bip.ones <= fixed.ones
  }

  /**
   With bip, its address is the gateway and its network the pool, whatever fixed-cidr says; only on a
   user-managed bridge is fixed-cidr dropped, or refused for IPv6, if it is not inside.
   */
  ghost predicate TakesBip(userManaged: bool, family: Family, fixedOpt: CidrOption, bip: CidrText,
                           r: Result<IpamConf, Error>)
    requires (fixedOpt.Given? ==> ValidText(fixedOpt.text)) && ValidText(bip)
  {
    && ValidNet(TextNet(bip)) && Denotes(TextNet(bip)).Some?
    && (fixedOpt.Given? ==> ValidNet(TextNet(fixedOpt.text)) && Denotes(TextNet(fixedOpt.text)).Some?)
    && var drops := userManaged && fixedOpt.Given? && !InsideBip(fixedOpt.text, bip);
    && (r.Err? <==> drops && family.IPv6?)
    && (r.Err? ==> r == Err(OutsideBridgeSubnets))
    && (r.Ok? ==>
          && r.value.gateway == Some(TextIp(bip))
          && r.value.preferredPool == Pool(Denotes(TextNet(bip)).value)
          && r.value.subPool ==
             if fixedOpt.Given? && !drops then Pool(Denotes(TextNet(fixedOpt.text)).value) else NoPool)
  }

  lemma AssembledFromBip(userManaged: bool, family: Family, fixedOpt: CidrOption, bip: CidrText)
    requires (fixedOpt.Given? ==> ValidText(fixedOpt.text)) && ValidText(bip)
    ensures ValidNet(TextNet(bip))
    ensures var fixed := if fixedOpt.Given? then Some(fixedOpt.text) else None;
            TakesBip(userManaged, family, fixedOpt, bip,
                     Assemble(userManaged, family, fixed, Some((TextIp(bip), TextNet(bip)))))
  {
    TextNetDenotes(bip);
    if fixedOpt.Given? {
      TextNetDenotes(fixedOpt.text);
    }
  }

  method GetDefaultBridgeIpamConf(userManaged: bool, family: Family, fixedOpt: CidrOption, bipOpt: CidrOption,
                                  listed: Option<seq<Block>>)
    returns (r: Result<IpamConf, Error>, ghost k: nat)
    requires fixedOpt.Given? ==> ValidText(fixedOpt.text)
    requires bipOpt.Given? ==> ValidText(bipOpt.text)
    requires listed.Some? ==> ValidAddrs(family, listed.value)
    // containment, and its exact domain
    ensures bipOpt.Unset? && r.Ok? && fixedOpt.Unset? ==> Contained(r.value)
    ensures bipOpt.Unset? && r.Ok? && fixedOpt.Given? && listed.Some? ==>
              (Contained(r.value) <==>
               SafeFixedCidr(userManaged, Considered(family, listed.value, Some(fixedOpt.text)), fixedOpt.text))
    // errors
    ensures fixedOpt.Malformed? ==> r == Err(BadFixedCidr)
    ensures !fixedOpt.Malformed? && bipOpt.Malformed? ==> r == Err(BadBip)
    ensures !fixedOpt.Malformed? && bipOpt.Unset? && listed.None? ==> r == Err(ListFailed)
    ensures !fixedOpt.Malformed? && bipOpt.Unset? && listed.Some? && r.Err? ==> r == Err(OutsideBridgeSubnets)
    ensures !fixedOpt.Malformed? && bipOpt.Unset? && listed.Some? ==>
              (r.Err? <==>
               && userManaged && family.IPv6? && fixedOpt.Given?
               && var us := Considered(family, listed.value, Some(fixedOpt.text));
               && us != [] && k < |us| && ValidNet(TextNet(fixedOpt.text))
               && IsChoice(us, TextIp(fixedOpt.text), TextNet(fixedOpt.text), k)
               && !(Contains(us[k], TextIp(fixedOpt.text)) && us[k].bits <= fixedOpt.text.ones))
    // which address is taken and what is made of it
    ensures bipOpt.Unset? && r.Ok? ==>
              var fixed := if fixedOpt.Given? then Some(fixedOpt.text) else None;
              && listed.Some? && (fixed.Some? ==> ValidNet(TextNet(fixed.value)))
              && Explained(userManaged, Considered(family, listed.value, fixed), fixed, k, r.value)
    // a configured bip is taken as it is
    ensures bipOpt.Given? && !fixedOpt.Malformed? ==> TakesBip(userManaged, family, fixedOpt, bipOpt.text, r)
  {
    k := 0;
    var fixed: Option<CidrText> := None;
    match fixedOpt {
      case Malformed => return Err(BadFixedCidr), 0;
      case Given(t) => fixed := Some(t); TextNetDenotes(t);
      case Unset =>
    }
    var bip: Option<(Address, IpNet)> := None;
    match bipOpt {
      case Malformed => return Err(BadBip), 0;
      case Given(t) =>
        bip := Some((TextIp(t), TextNet(t)));
        AssembledFromBip(userManaged, family, fixedOpt, t);
      case Unset =>
        if listed.None? {
          return Err(ListFailed), 0;
        }
        bip, k := SelectBip(userManaged, family, listed.value, fixed);
        ghost var us := Considered(family, listed.value, fixed);
        AssembledIsExplained(userManaged, family, us, fixed, k);
        if fixed.Some? {
          ContainmentIsExact(userManaged, family, us, fixed.value, k);
        }
    }
    r := AssembleConf(userManaged, family, fixed, bip);
  }
}
