/** Addressing and static routing of a Quick Build: interface and host addresses, the
    next hop of every static route, and what following the routes does. */
module QuickBuildRouting {
  import opened Outcomes
  import opened QuickBuild

  // ----- Interface addresses -----

  datatype Interface = Interface(port: Port, address: Address, prefix: nat)

  /** `10.0.<linkIdx>.1` for the left or hub side, `.2` for the right or spoke side. */
  function LeftAddress(linkIdx: nat): Address { Address(10, 0, linkIdx, 1) }

  function RightAddress(linkIdx: nat): Address { Address(10, 0, linkIdx, 2) }

  function LanGateway(r: nat): Address { Address(192, 168, r, 1) }

  /** The WAN interfaces of router `r` for the first `m` links. */
  function WanInterfaces(links: seq<WanLink>, r: nat, m: nat): seq<Interface>
    requires m <= |links|
  {
    if m == 0 then []
    else
      var link := links[m - 1];
      WanInterfaces(links, r, m - 1)
      + (if link.from == r then [Interface(link.fromPort, LeftAddress(link.linkIdx), 30)] else [])
      + (if link.to == r then [Interface(link.toPort, RightAddress(link.linkIdx), 30)] else [])
  }

  function LanInterface(v: Values, r: nat): Interface {
    Interface(Gigabit(LanIndex(v, r)), LanGateway(r), 24)
  }

  function LanInterfaces(v: Values, r: nat): seq<Interface> {
    if v.HasLan() then [LanInterface(v, r)] else []
  }

  function Interfaces(v: Values, r: nat): seq<Interface> {
    WanInterfaces(WanLinks(v), r, |WanLinks(v)|) + LanInterfaces(v, r)
  }

  method ConfigureInterfaces(v: Values, links: seq<WanLink>, r: nat) returns (cfg: seq<Interface>)
    requires links == WanLinks(v)
    ensures cfg == Interfaces(v, r)
  {
    hide WanLinks, LanIndex;
    cfg := [];
    for m := 0 to |links|
      invariant cfg == WanInterfaces(links, r, m)
    {
      var link := links[m];
      if link.from == r {
        cfg := cfg + [Interface(link.fromPort, Address(10, 0, link.linkIdx, 1), 30)];
      }
      if link.to == r {
        cfg := cfg + [Interface(link.toPort, Address(10, 0, link.linkIdx, 2), 30)];
      }
    }
    if v.switches > 0 || v.pcs > 0 {
      cfg := cfg + [Interface(Gigabit(LanIndex(v, r)), Address(192, 168, r, 1), 24)];
    }
  }

  // ----- Host addresses -----

  datatype HostConfig = Dhcp(device: Device) | StaticIp(device: Device, address: Address, gateway: Address)

  function PcConfig(v: Values, r: nat, p: nat): HostConfig {
    if v.dhcp then Dhcp(Pc(r, p)) else StaticIp(Pc(r, p), Address(192, 168, r, p + 2), LanGateway(r))
  }

  function PcConfigRow(v: Values, r: nat, m: nat): seq<HostConfig> {
    seq(m, p requires 0 <= p < m => PcConfig(v, r, p))
  }

  function PcConfigs(v: Values, m: nat): seq<HostConfig> {
    if m == 0 then [] else PcConfigs(v, m - 1) + PcConfigRow(v, m - 1, v.pcs)
  }

  function ServerConfig(v: Values, s: nat): HostConfig {
    if v.dhcp then Dhcp(Server(s)) else StaticIp(Server(s), Address(192, 168, 0, v.pcs + 2 + s), LanGateway(0))
  }

  function ServerConfigs(v: Values, m: nat): seq<HostConfig> {
    seq(m, s requires 0 <= s < m => ServerConfig(v, s))
  }

  function HostConfigs(v: Values): seq<HostConfig> {
    PcConfigs(v, v.Positions()) + ServerConfigs(v, v.servers)
  }

  method ConfigureHosts(v: Values) returns (hosts: seq<HostConfig>)
    ensures hosts == HostConfigs(v)
  {
    hosts := [];
    for r := 0 to v.Positions()
      invariant hosts == PcConfigs(v, r)
    {
      ghost var before := hosts;
      for p := 0 to v.pcs
        invariant hosts == before + PcConfigRow(v, r, p)
      {
        assert PcConfigRow(v, r, p + 1) == PcConfigRow(v, r, p) + [PcConfig(v, r, p)];
        if v.dhcp {
          hosts := hosts + [Dhcp(Pc(r, p))];
        } else {
          hosts := hosts + [StaticIp(Pc(r, p), Address(192, 168, r, p + 2), Address(192, 168, r, 1))];
        }
      }
    }
    ghost var before := hosts;
    for s := 0 to v.servers
      invariant hosts == before + ServerConfigs(v, s)
    {
      assert ServerConfigs(v, s + 1) == ServerConfigs(v, s) + [ServerConfig(v, s)];
      if v.dhcp {
        hosts := hosts + [Dhcp(Server(s))];
      } else {
        hosts := hosts + [StaticIp(Server(s), Address(192, 168, 0, v.pcs + 2 + s), Address(192, 168, 0, 1))];
      }
    }
  }

  // ----- Addresses are unique -----

  lemma {:induction false} WanInterfaceIff(links: seq<WanLink>, r: nat, m: nat, x: Interface)
    requires m <= |links|
    ensures x in WanInterfaces(links, r, m) <==>
      exists k | 0 <= k < m ::
        || (links[k].from == r && x == Interface(links[k].fromPort, LeftAddress(links[k].linkIdx), 30))
        || (links[k].to == r && x == Interface(links[k].toPort, RightAddress(links[k].linkIdx), 30))
  {
    if m > 0 {
      WanInterfaceIff(links, r, m - 1, x);
    }
  }

  /** The far ends of link `k` get `.1` and `.2` of the same /30, on exactly the ports
      its cable uses, and no other interface is in that /30. */
  lemma LinkEndsAddressed(v: Values, k: nat)
    requires k < |WanLinks(v)|
    ensures var link := WanLinks(v)[k];
      && Interface(link.fromPort, Address(10, 0, k, 1), 30) in Interfaces(v, link.from)
      && Interface(link.toPort, Address(10, 0, k, 2), 30) in Interfaces(v, link.to)
      && RouterCables(v)[k] == Cable(End(Router(link.from), link.fromPort), End(Router(link.to), link.toPort))
    ensures forall r: nat, x | x in Interfaces(v, r) && x.address.a == 10 && x.address.c == k ::
      || (r == WanLinks(v)[k].from && x == Interface(WanLinks(v)[k].fromPort, Address(10, 0, k, 1), 30))
      || (r == WanLinks(v)[k].to && x == Interface(WanLinks(v)[k].toPort, Address(10, 0, k, 2), 30))
  {
    var links := WanLinks(v);
    CablesMatchLinks(v);
    hide WanLinks, RouterCables, WanInterfaces, LanIndex;
    WanInterfaceIff(links, links[k].from, |links|, Interface(links[k].fromPort, LeftAddress(k), 30));
    WanInterfaceIff(links, links[k].to, |links|, Interface(links[k].toPort, RightAddress(k), 30));
    forall r: nat, x | x in Interfaces(v, r) && x.address.a == 10 && x.address.c == k
      ensures
        || (r == links[k].from && x == Interface(links[k].fromPort, LeftAddress(k), 30))
        || (r == links[k].to && x == Interface(links[k].toPort, RightAddress(k), 30))
    {
      WanInterfaceIff(links, r, |links|, x);
    }
  }

  /** Interface `x` is the end of link `k` at router `r`. */
  predicate IsLinkEnd(v: Values, r: nat, x: Interface, k: nat)
    requires k < |WanLinks(v)|
  {
    var link := WanLinks(v)[k];
    || (link.from == r && x == Interface(link.fromPort, LeftAddress(k), 30))
    || (link.to == r && x == Interface(link.toPort, RightAddress(k), 30))
  }

  /** An interface that is not the LAN's is the end of a link, on the port of that link's
      cable, and that is not the LAN's port. */
  lemma WanInterfaceEnd(v: Values, r: nat, x: Interface) returns (k: nat)
    requires r < v.Positions() && x in Interfaces(v, r) && x != LanInterface(v, r)
    ensures k < |WanLinks(v)| == |RouterCables(v)| && IsLinkEnd(v, r, x, k)
    ensures Touches(RouterCables(v)[k], End(Router(r), x.port)) && x.port != LanInterface(v, r).port
  {
    InterfaceForm(v, r, x);
    LanPortFree(v, r);
    CablesMatchLinks(v);
    RouterCablesUnique(v);
    hide Interfaces, WanLinks, RouterCables, LanIndex, WanPort;
    k :| 0 <= k < |WanLinks(v)| && IsLinkEnd(v, r, x, k);
    assert RouterCables(v)[k] in RouterCables(v);
  }

  /** No router port is configured with two addresses. */
  lemma PortsConfiguredOnce(v: Values, r: nat, x: Interface, y: Interface)
    requires r < v.Positions() && x in Interfaces(v, r) && y in Interfaces(v, r) && x.port == y.port
    ensures x == y
  {
    CablesMatchLinks(v);
    RouterCablesUnique(v);
    hide Interfaces, WanLinks, RouterCables, LanIndex, WanPort, LanInterface;
    if x != LanInterface(v, r) {
      var k := WanInterfaceEnd(v, r, x);
      if y != LanInterface(v, r) {
        var l := WanInterfaceEnd(v, r, y);
        SameCable(RouterCables(v), k, l, End(Router(r), x.port));
      }
    } else if y != LanInterface(v, r) {
      var l := WanInterfaceEnd(v, r, y);
    }
  }

  lemma SameCable(cables: seq<Cable>, k: nat, l: nat, e: End)
    requires PortsUnique(cables) && k < |cables| && l < |cables|
    requires Touches(cables[k], e) && Touches(cables[l], e)
    ensures k == l
  {
    assert k < l ==> Clash(cables[k], cables[l]);
    assert l < k ==> Clash(cables[l], cables[k]);
  }

  /** `device` holds `address` on `port`. */
  ghost predicate Holds(v: Values, e: End, address: Address) {
    match e.device
    case Router(r) =>
      r < v.Positions() && exists x | x in Interfaces(v, r) :: x.port == e.port && x.address == address
    case _ =>
      e.port == HostPort
      && exists h | h in HostConfigs(v) :: h.StaticIp? && h.device == e.device && h.address == address
  }

  lemma {:induction false} PcConfigForm(v: Values, m: nat, h: HostConfig)
    requires h in PcConfigs(v, m) && h.StaticIp?
    ensures h.device.Pc? && h.device.r < m && h.device.p < v.pcs
    ensures h.address == Address(192, 168, h.device.r, h.device.p + 2) && h.gateway == LanGateway(h.device.r)
  {
    if m > 0 && h in PcConfigs(v, m - 1) {
      PcConfigForm(v, m - 1, h);
    }
  }

  lemma HostConfigForm(v: Values, h: HostConfig)
    requires h in HostConfigs(v) && h.StaticIp?
    ensures h.device.Pc? || h.device.Server?
    ensures h.device.Pc? ==> h.address == Address(192, 168, h.device.r, h.device.p + 2) && h.device.p < v.pcs
                             && h.device.r < v.Positions()
    ensures h.device.Server? ==> h.address == Address(192, 168, 0, v.pcs + 2 + h.device.s) && h.device.s < v.servers
    ensures h.gateway == LanGateway(h.address.c)
  {
    hide PcConfigs;
    if h in PcConfigs(v, v.Positions()) {
      PcConfigForm(v, v.Positions(), h);
    }
  }

  lemma InterfaceForm(v: Values, r: nat, x: Interface)
    requires x in Interfaces(v, r)
    ensures x == LanInterface(v, r) || exists k | 0 <= k < |WanLinks(v)| :: IsLinkEnd(v, r, x, k)
  {
    CablesMatchLinks(v);
    hide WanLinks, RouterCables, WanInterfaces, LanIndex;
    if x in WanInterfaces(WanLinks(v), r, |WanLinks(v)|) {
      WanInterfaceIff(WanLinks(v), r, |WanLinks(v)|, x);
      var links := WanLinks(v);
      var k :| 0 <= k < |links|
        && (|| (links[k].from == r && x == Interface(links[k].fromPort, LeftAddress(links[k].linkIdx), 30))
            || (links[k].to == r && x == Interface(links[k].toPort, RightAddress(links[k].linkIdx), 30)));
      assert IsLinkEnd(v, r, x, k);
    }
  }

  lemma RouterAddressUnique(v: Values, r1: nat, x1: Interface, r2: nat, x2: Interface)
    requires x1 in Interfaces(v, r1) && x2 in Interfaces(v, r2) && x1.address == x2.address
    ensures r1 == r2 && x1 == x2
  {
    hide Interfaces, WanLinks, LanIndex;
    InterfaceForm(v, r1, x1);
    InterfaceForm(v, r2, x2);
  }

  lemma HostAddressUnique(v: Values, h1: HostConfig, h2: HostConfig)
    requires h1 in HostConfigs(v) && h2 in HostConfigs(v) && h1.StaticIp? && h2.StaticIp?
    requires h1.address == h2.address
    ensures h1.device == h2.device
  {
    hide HostConfigs;
    HostConfigForm(v, h1);
    HostConfigForm(v, h2);
  }

  lemma RouterIsNoHost(v: Values, r: nat, x: Interface, h: HostConfig)
    requires x in Interfaces(v, r) && h in HostConfigs(v) && h.StaticIp?
    ensures x.address != h.address
  {
    hide Interfaces, HostConfigs, WanLinks, LanIndex;
    InterfaceForm(v, r, x);
    HostConfigForm(v, h);
  }

  /** PC, server, LAN and WAN addresses are pairwise distinct: an address has one
      holder. */
  lemma AddressesUnique(v: Values, e1: End, e2: End, address: Address)
    requires Holds(v, e1, address) && Holds(v, e2, address)
    ensures e1 == e2
  {
    hide Interfaces, HostConfigs;
    if e1.device.Router? {
      var x1 :| x1 in Interfaces(v, e1.device.i) && x1.port == e1.port && x1.address == address;
      if e2.device.Router? {
        var x2 :| x2 in Interfaces(v, e2.device.i) && x2.port == e2.port && x2.address == address;
        RouterAddressUnique(v, e1.device.i, x1, e2.device.i, x2);
      } else {
        var h :| h in HostConfigs(v) && h.StaticIp? && h.device == e2.device && h.address == address;
        RouterIsNoHost(v, e1.device.i, x1, h);
      }
    } else {
      var h1 :| h1 in HostConfigs(v) && h1.StaticIp? && h1.device == e1.device && h1.address == address;
      if e2.device.Router? {
        var x2 :| x2 in Interfaces(v, e2.device.i) && x2.port == e2.port && x2.address == address;
        RouterIsNoHost(v, e2.device.i, x2, h1);
      } else {
        var h2 :| h2 in HostConfigs(v) && h2.StaticIp? && h2.device == e2.device && h2.address == address;
        HostAddressUnique(v, h1, h2);
      }
    }
  }

  predicate ValidOctets(address: Address) {
    address.a <= 255 && address.b <= 255 && address.c <= 255 && 1 <= address.d <= 254
  }

  /** The octets suffice: for the links and the LANs the count of routers, and for static
      hosts the count of a LAN's hosts. */
  predicate SpaceSuffices(v: Values) {
    && RouterCount(v) <= (if v.switches > 0 || v.pcs > 0 then 256 else 257)
    && (!v.dhcp && RouterCount(v) > 0 ==> v.pcs <= 253)
    && (!v.dhcp && v.servers > 0 ==> v.pcs + v.servers <= 253)
  }

  /** Every address is a usable host address of its subnet exactly when the octets suffice. */
  lemma AddressesInRange(v: Values)
    ensures (forall e, address | Holds(v, e, address) :: ValidOctets(address)) <==> SpaceSuffices(v)
  {
    hide Holds;
    if SpaceSuffices(v) {
      forall e, address | Holds(v, e, address) ensures ValidOctets(address) {
        AddressInRange(v, e, address);
      }
    }
    if forall e, address | Holds(v, e, address) :: ValidOctets(address) {
      RoutersFit(v);
      HostsFit(v);
    }
  }

  lemma AddressInRange(v: Values, e: End, address: Address)
    requires Holds(v, e, address) && SpaceSuffices(v)
    ensures ValidOctets(address)
  {
    hide Interfaces, HostConfigs, LanIndex;
    LinkCount(v);
    if e.device.Router? {
      var x :| x in Interfaces(v, e.device.i) && x.port == e.port && x.address == address;
      InterfaceForm(v, e.device.i, x);
      LanNeeded(v, e.device.i, x);
    } else {
      var h :| h in HostConfigs(v) && h.StaticIp? && h.device == e.device && h.address == address;
      HostConfigForm(v, h);
      StaticNeeded(v, h);
    }
  }

  lemma LinkCount(v: Values)
    ensures |WanLinks(v)| <= 256 <==> v.Positions() <= 257
    ensures forall k | 0 <= k < |WanLinks(v)| :: WanLinks(v)[k].from < v.Positions() && WanLinks(v)[k].linkIdx == k
  {
  }

  /** A LAN address is configured only where there is a LAN. */
  lemma LanNeeded(v: Values, r: nat, x: Interface)
    requires x in Interfaces(v, r)
    ensures x.address == LanGateway(r) ==> v.HasLan()
  {
    hide WanLinks, WanInterfaces, LanIndex;
    CablesMatchLinks(v);
    WanInterfaceIff(WanLinks(v), r, |WanLinks(v)|, x);
  }

  lemma {:induction false} PcsAreStatic(v: Values, m: nat)
    requires v.dhcp
    ensures forall h | h in PcConfigs(v, m) :: h.Dhcp?
  {
    if m > 0 {
      PcsAreStatic(v, m - 1);
    }
  }

  lemma StaticNeeded(v: Values, h: HostConfig)
    requires h in HostConfigs(v) && h.StaticIp?
    ensures !v.dhcp
  {
    if v.dhcp {
      PcsAreStatic(v, v.Positions());
    }
  }

  lemma RoutersFit(v: Values)
    requires forall e, address | Holds(v, e, address) :: ValidOctets(address)
    ensures v.Positions() <= if v.HasLan() then 256 else 257
  {
    LinkCount(v);
    var last, k := v.Positions() - 1, |WanLinks(v)| - 1;
    if v.HasLan() && last >= 0 {
      assert LanInterface(v, last) in Interfaces(v, last);
      assert Holds(v, End(Router(last), LanInterface(v, last).port), LanGateway(last));
    }
    if k >= 0 {
      var link := WanLinks(v)[k];
      LinkEndsAddressed(v, k);
      assert Holds(v, End(Router(link.from), link.fromPort), LeftAddress(k));
    }
  }

  lemma {:induction false} PcConfigIn(v: Values, m: nat)
    requires m > 0 && v.pcs > 0
    ensures PcConfig(v, 0, v.pcs - 1) in PcConfigs(v, m)
  {
    if m > 1 {
      PcConfigIn(v, m - 1);
    } else {
      assert PcConfigRow(v, 0, v.pcs)[v.pcs - 1] == PcConfig(v, 0, v.pcs - 1);
    }
  }

  lemma HostsFit(v: Values)
    requires forall e, address | Holds(v, e, address) :: ValidOctets(address)
    ensures !v.dhcp && v.Positions() > 0 ==> v.pcs <= 253
    ensures !v.dhcp && v.servers > 0 ==> v.pcs + v.servers <= 253
  {
    hide PcConfigs;
    if !v.dhcp && v.Positions() > 0 && v.pcs > 0 {
      PcConfigIn(v, v.Positions());
      assert PcConfig(v, 0, v.pcs - 1) in HostConfigs(v);
      assert Holds(v, End(Pc(0, v.pcs - 1), HostPort), Address(192, 168, 0, v.pcs + 1));
    }
    if !v.dhcp && v.servers > 0 {
      assert ServerConfigs(v, v.servers)[v.servers - 1] == ServerConfig(v, v.servers - 1);
      assert ServerConfig(v, v.servers - 1) in HostConfigs(v);
      assert Holds(v, End(Server(v.servers - 1), HostPort), Address(192, 168, 0, v.pcs + 1 + v.servers));
    }
  }

  // ----- Next hops -----

  function FirstFrom(links: seq<WanLink>, r: nat): Option<Address> {
    if links == [] then None
    else if links[0].from == r then Some(RightAddress(links[0].linkIdx))
    else FirstFrom(links[1..], r)
  }

  function FirstTo(links: seq<WanLink>, r: nat): Option<Address> {
    if links == [] then None
    else if links[0].to == r then Some(LeftAddress(links[0].linkIdx))
    else FirstTo(links[1..], r)
  }

  function FirstBetween(links: seq<WanLink>, r: nat, dest: nat): Option<Address> {
    if links == [] then None
    else if links[0].from == r && links[0].to == dest then Some(RightAddress(links[0].linkIdx))
    else if links[0].to == r && links[0].from == dest then Some(LeftAddress(links[0].linkIdx))
    else FirstBetween(links[1..], r, dest)
  }

  /** The first link of a router in either direction. */
  function FirstAny(links: seq<WanLink>, r: nat): Option<Address> {
    if links == [] then None
    else if links[0].from == r then Some(RightAddress(links[0].linkIdx))
    else if links[0].to == r then Some(LeftAddress(links[0].linkIdx))
    else FirstAny(links[1..], r)
  }

  /** The hub's search: the far end of the first link that ends at `dest`. */
  function FirstReaching(links: seq<WanLink>, dest: nat): Option<Address> {
    if links == [] then None
    else if links[0].to == dest then Some(RightAddress(links[0].linkIdx))
    else FirstReaching(links[1..], dest)
  }

  function NextHopIn(template: Template, links: seq<WanLink>, from: nat, dest: nat): Option<Address> {
    if template == Star || template == HubSpoke then
      if from == 0 then FirstReaching(links, dest) else FirstTo(links, from)
    else if template == Triangle then
      if FirstBetween(links, from, dest).Some? then FirstBetween(links, from, dest) else FirstAny(links, from)
    else if dest > from then FirstFrom(links, from)
    else FirstTo(links, from)
  }

  /** Link `k` is the first of those that serve, or none does and `k` is past the end. */
  ghost predicate IsFirst(links: seq<WanLink>, serves: WanLink -> bool, k: nat) {
    && k <= |links|
    && (forall l | 0 <= l < k :: !serves(links[l]))
    && (k < |links| ==> serves(links[k]))
  }

  lemma {:induction false} FirstFromIs(links: seq<WanLink>, r: nat, k: nat)
    requires IsFirst(links, (link: WanLink) => link.from == r, k)
    ensures FirstFrom(links, r) == if k == |links| then None else Some(RightAddress(links[k].linkIdx))
  {
    if k > 0 {
      FirstFromIs(links[1..], r, k - 1);
    }
  }

  lemma {:induction false} FirstToIs(links: seq<WanLink>, r: nat, k: nat)
    requires IsFirst(links, (link: WanLink) => link.to == r, k)
    ensures FirstTo(links, r) == if k == |links| then None else Some(LeftAddress(links[k].linkIdx))
  {
    if k > 0 {
      FirstToIs(links[1..], r, k - 1);
    }
  }

  lemma {:induction false} FirstReachingIs(links: seq<WanLink>, dest: nat, k: nat)
    requires IsFirst(links, (link: WanLink) => link.to == dest, k)
    ensures FirstReaching(links, dest) == if k == |links| then None else Some(RightAddress(links[k].linkIdx))
  {
    if k > 0 {
      FirstReachingIs(links[1..], dest, k - 1);
    }
  }

  /** The address of the other end of a link, seen from router `r`. */
  function FarAddress(link: WanLink, r: nat): Address {
    if link.from == r then RightAddress(link.linkIdx) else LeftAddress(link.linkIdx)
  }

  predicate Between(link: WanLink, r: nat, dest: nat) {
    (link.from == r && link.to == dest) || (link.to == r && link.from == dest)
  }

  lemma {:induction false} FirstBetweenIs(links: seq<WanLink>, r: nat, dest: nat, k: nat)
    requires IsFirst(links, (link: WanLink) => Between(link, r, dest), k)
    ensures FirstBetween(links, r, dest) == if k == |links| then None else Some(FarAddress(links[k], r))
  {
    if k > 0 {
      FirstBetweenIs(links[1..], r, dest, k - 1);
    }
  }

  lemma {:induction false} FirstAnyIs(links: seq<WanLink>, r: nat, k: nat)
    requires IsFirst(links, (link: WanLink) => link.from == r || link.to == r, k)
    ensures FirstAny(links, r) == if k == |links| then None else Some(FarAddress(links[k], r))
  {
    if k > 0 {
      FirstAnyIs(links[1..], r, k - 1);
    }
  }

  /** A link that leads from one router to the LAN of another: in a star the spoke's, in the
      triangle a direct one or else any of the router's, in a chain the one on that side. */
  predicate Leads(template: Template, links: seq<WanLink>, from: nat, dest: nat, link: WanLink) {
    match template
    case Star => link.to == if from == 0 then dest else from
    case HubSpoke => link.to == if from == 0 then dest else from
    case Triangle =>
      if exists direct | direct in links :: Between(direct, from, dest) then Between(link, from, dest)
      else link.from == from || link.to == from
    case _ => if dest > from then link.from == from else link.to == from
  }

  /** Host 2 of a link if it is left from its first end, else host 1. */
  predicate LeavesFirstEnd(template: Template, from: nat, dest: nat, link: WanLink) {
    match template
    case Star => from == 0
    case HubSpoke => from == 0
    case Triangle => link.from == from
    case _ => dest > from
  }

  /** A next hop is the far address of the first link that leads there; there is none exactly
      when no link does. */
  lemma HopIsFirst(template: Template, links: seq<WanLink>, from: nat, dest: nat, k: nat)
    requires IsFirst(links, (link: WanLink) => Leads(template, links, from, dest, link), k)
    ensures NextHopIn(template, links, from, dest)
         == if k == |links| then None
            else Some(Address(10, 0, links[k].linkIdx, if LeavesFirstEnd(template, from, dest, links[k]) then 2 else 1))
  {
    match template {
      case Star => StarHopIs(links, from, dest, k);
      case HubSpoke => StarHopIs(links, from, dest, k);
      case Triangle =>
        if exists direct | direct in links :: Between(direct, from, dest) {
          FirstBetweenIs(links, from, dest, k);
        } else {
          FirstBetweenIs(links, from, dest, |links|);
          FirstAnyIs(links, from, k);
        }
      case _ =>
        if dest > from {
          FirstFromIs(links, from, k);
        } else {
          FirstToIs(links, from, k);
        }
    }
  }

  lemma StarHopIs(links: seq<WanLink>, from: nat, dest: nat, k: nat)
    requires IsFirst(links, (link: WanLink) => link.to == if from == 0 then dest else from, k)
    ensures (if from == 0 then FirstReaching(links, dest) else FirstTo(links, from))
         == if k == |links| then None else Some(Address(10, 0, links[k].linkIdx, if from == 0 then 2 else 1))
  {
    if from == 0 {
      FirstReachingIs(links, dest, k);
    } else {
      FirstToIs(links, from, k);
    }
  }

  /** `findNextHop`, with its searches over the links. In a chain the second search to
      the right repeats the condition of the first and is not reached. */
  method FindNextHop(template: Template, links: seq<WanLink>, from: nat, dest: nat)
    returns (hop: Option<Address>)
    ensures hop == NextHopIn(template, links, from, dest)
  {
    if template == Star || template == HubSpoke {
      if from == 0 {
        for i := 0 to |links|
          invariant FirstReaching(links, dest) == FirstReaching(links[i..], dest)
        {
          assert links[i..][1..] == links[i + 1..];
          if links[i].to == dest {
            return Some(Address(10, 0, links[i].linkIdx, 2));
          }
        }
      } else {
        hop := SearchTo(links, from);
        return;
      }
      return None;
    }
    if template == Triangle {
      for t := 0 to |links|
        invariant FirstBetween(links, from, dest) == FirstBetween(links[t..], from, dest)
      {
        assert links[t..][1..] == links[t + 1..];
        if links[t].from == from && links[t].to == dest {
          return Some(Address(10, 0, links[t].linkIdx, 2));
        }
        if links[t].to == from && links[t].from == dest {
          return Some(Address(10, 0, links[t].linkIdx, 1));
        }
      }
      for u := 0 to |links|
        invariant FirstAny(links, from) == FirstAny(links[u..], from)
      {
        assert links[u..][1..] == links[u + 1..];
        if links[u].from == from {
          return Some(Address(10, 0, links[u].linkIdx, 2));
        }
        if links[u].to == from {
          return Some(Address(10, 0, links[u].linkIdx, 1));
        }
      }
      return None;
    }
    if dest > from {
      for r := 0 to |links|
        invariant FirstFrom(links, from) == FirstFrom(links[r..], from)
      {
        assert links[r..][1..] == links[r + 1..];
        if links[r].from == from {
          return Some(Address(10, 0, links[r].linkIdx, 2));
        }
      }
      return None;
    }
    hop := SearchTo(links, from);
  }

  /** The search for the link that arrives at `from`, used by spokes and to the left. */
  method SearchTo(links: seq<WanLink>, from: nat) returns (hop: Option<Address>)
    ensures hop == FirstTo(links, from)
  {
    for l := 0 to |links|
      invariant FirstTo(links, from) == FirstTo(links[l..], from)
    {
      assert links[l..][1..] == links[l + 1..];
      if links[l].to == from {
        return Some(Address(10, 0, links[l].linkIdx, 1));
      }
    }
    hop := None;
  }

  // ----- The emitted routes -----

  datatype Route = Route(lan: nat, nextHop: Address)

  function RoutesUpTo(v: Values, r: nat, m: nat): seq<Route> {
    if m == 0 then []
    else
      RoutesUpTo(v, r, m - 1)
      + if m - 1 == r then []
        else match NextHopIn(v.template, WanLinks(v), r, m - 1)
             case None => []
             case Some(hop) => [Route(m - 1, hop)]
  }

  /** The `ip route` lines of router `r`. */
  function StaticRoutes(v: Values, r: nat): seq<Route> {
    RoutesUpTo(v, r, v.Positions())
  }

  method EmitStaticRoutes(v: Values, links: seq<WanLink>, r: nat) returns (routes: seq<Route>)
    requires links == WanLinks(v)
    ensures routes == StaticRoutes(v, r)
  {
    hide NextHopIn, WanLinks;
    routes := [];
    for other := 0 to v.Positions()
      invariant routes == RoutesUpTo(v, r, other)
    {
      if other != r {
        var hop := FindNextHop(v.template, links, r, other);
        if hop.Some? {
          routes := routes + [Route(other, hop.value)];
        }
      }
    }
  }

  lemma {:induction false} RouteIff(v: Values, r: nat, m: nat, route: Route)
    ensures route in RoutesUpTo(v, r, m) <==>
            route.lan < m && route.lan != r
            && NextHopIn(v.template, WanLinks(v), r, route.lan) == Some(route.nextHop)
  {
    hide NextHopIn, WanLinks;
    if m > 0 {
      RouteIff(v, r, m - 1, route);
    }
  }

  // ----- Next hops of the built links -----

  /** The neighbour the routes of router `i` name for LAN `j`. */
  function NextRouter(v: Values, i: nat, j: nat): nat {
    if v.IsStar() then (if i == 0 then j else 0)
    else if v.template == Triangle then j
    else if j > i then i + 1
    else Pred(i)
  }

  /** The link between `i` and that neighbour. */
  function HopLink(v: Values, i: nat, j: nat): nat {
    if v.IsStar() then (if i == 0 then Pred(j) else Pred(i))
    else if v.template == Triangle then (if i + j == 1 then 0 else if i + j == 3 then 1 else 2)
    else if j > i then i
    else Pred(i)
  }

  /** The peer address on link `k`, seen from router `i`. */
  function PeerAddress(v: Values, k: nat, i: nat): Address
    requires k < |WanLinks(v)|
  {
    if WanLinks(v)[k].from == i then RightAddress(k) else LeftAddress(k)
  }

  lemma StarHop(v: Values, i: nat, j: nat)
    requires v.IsStar() && i < v.Positions() && j < v.Positions() && i != j
    ensures HopLink(v, i, j) < |WanLinks(v)|
    ensures NextHopIn(v.template, WanLinks(v), i, j) == Some(PeerAddress(v, HopLink(v, i, j), i))
  {
    if i == 0 {
      FirstReachingIs(WanLinks(v), j, j - 1);
    } else {
      FirstToIs(WanLinks(v), i, i - 1);
    }
  }

  lemma ChainHop(v: Values, i: nat, j: nat)
    requires v.IsChain() && i < v.Positions() && j < v.Positions() && i != j
    ensures HopLink(v, i, j) < |WanLinks(v)|
    ensures NextHopIn(v.template, WanLinks(v), i, j) == Some(PeerAddress(v, HopLink(v, i, j), i))
  {
    if j > i {
      FirstFromIs(WanLinks(v), i, i);
    } else {
      FirstToIs(WanLinks(v), i, i - 1);
    }
  }

  lemma TriangleHop(v: Values, i: nat, j: nat)
    requires v.template == Triangle && i < 3 && j < 3 && i != j
    ensures HopLink(v, i, j) < |WanLinks(v)|
    ensures NextHopIn(v.template, WanLinks(v), i, j) == Some(PeerAddress(v, HopLink(v, i, j), i))
  {
    FirstBetweenIs(WanLinks(v), i, j, HopLink(v, i, j));
  }

  /** Every router has a next hop to every other LAN: the address of the other end of a
      link it is attached to, on that link's /30. */
  lemma HopIsAttachedPeer(v: Values, i: nat, j: nat)
    requires i < v.Positions() && j < v.Positions() && i != j
    ensures HopLink(v, i, j) < |WanLinks(v)|
    ensures NextHopIn(v.template, WanLinks(v), i, j) == Some(PeerAddress(v, HopLink(v, i, j), i))
    ensures {WanLinks(v)[HopLink(v, i, j)].from, WanLinks(v)[HopLink(v, i, j)].to} == {i, NextRouter(v, i, j)}
    ensures NextRouter(v, i, j) < v.Positions() && NextRouter(v, i, j) != i
  {
    if v.IsStar() {
      StarHop(v, i, j);
    } else if v.template == Triangle {
      TriangleHop(v, i, j);
    } else {
      ChainHop(v, i, j);
    }
  }

  /** The route of router `i` for LAN `j` exists, is unique, and its next hop is held by
      the router at the far end of the attached link and by nothing else. */
  lemma RouteOwner(v: Values, i: nat, j: nat) returns (hop: Address, port: Port)
    requires i < v.Positions() && j < v.Positions() && i != j
    ensures forall route :: route in StaticRoutes(v, i) && route.lan == j <==> route == Route(j, hop)
    ensures Holds(v, End(Router(NextRouter(v, i, j)), port), hop)
    ensures forall e | Holds(v, e, hop) :: e.device == Router(NextRouter(v, i, j))
  {
    hide NextHopIn, WanLinks, NextRouter, HopLink, Interfaces, HostConfigs, RouterCables, PeerAddress;
    HopIsAttachedPeer(v, i, j);
    var next := NextRouter(v, i, j);
    hop := PeerAddress(v, HopLink(v, i, j), i);
    port := HopIsHeld(v, i, j);
    forall e | Holds(v, e, hop) ensures e.device == Router(next) {
      AddressesUnique(v, e, End(Router(next), port), hop);
    }
    forall route ensures route in StaticRoutes(v, i) && route.lan == j <==> route == Route(j, hop) {
      RouteIff(v, i, v.Positions(), route);
    }
  }

  lemma HopIsHeld(v: Values, i: nat, j: nat) returns (port: Port)
    requires i < v.Positions() && j < v.Positions() && i != j && HopLink(v, i, j) < |WanLinks(v)|
    ensures Holds(v, End(Router(NextRouter(v, i, j)), port), PeerAddress(v, HopLink(v, i, j), i))
  {
    hide NextHopIn, WanLinks, NextRouter, HopLink, Interfaces, HostConfigs, RouterCables;
    HopIsAttachedPeer(v, i, j);
    var k, next := HopLink(v, i, j), NextRouter(v, i, j);
    var link := WanLinks(v)[k];
    LinkEndsAddressed(v, k);
    assert link.from in {i, next} && link.to in {i, next} && next in {link.from, link.to};
    port := if link.from == i then link.toPort else link.fromPort;
  }

  // ----- Following the routes -----

  /** How many hops a packet takes from router `i` to the router of LAN `j`. */
  function Distance(v: Values, i: nat, j: nat): nat {
    if i == j then 0
    else if v.IsStar() then (if i == 0 || j == 0 then 1 else 2)
    else if v.template == Triangle then 1
    else if i < j then j - i
    else i - j
  }

  lemma NextIsCloser(v: Values, i: nat, j: nat)
    requires i < v.Positions() && j < v.Positions() && i != j
    ensures NextRouter(v, i, j) < v.Positions()
    ensures Distance(v, NextRouter(v, i, j), j) == Distance(v, i, j) - 1
  {
  }

  /** One forwarding step: `next` holds the next hop of a route that `i` has for `j`. */
  ghost predicate Forwards(v: Values, i: nat, next: nat, j: nat) {
    exists hop, port :: Route(j, hop) in StaticRoutes(v, i) && Holds(v, End(Router(next), port), hop)
  }

  /** Forwarding is a function: the routes and addresses leave one next router. */
  lemma ForwardsOnlyToNext(v: Values, i: nat, next: nat, j: nat)
    requires i < v.Positions() && j < v.Positions() && i != j
    ensures Forwards(v, i, next, j) <==> next == NextRouter(v, i, j)
  {
    hide StaticRoutes, Holds, NextRouter;
    var hop, port := RouteOwner(v, i, j);
    assert Route(j, hop) in StaticRoutes(v, i);
    forall otherHop, otherPort |
      Route(j, otherHop) in StaticRoutes(v, i) && Holds(v, End(Router(next), otherPort), otherHop)
      ensures next == NextRouter(v, i, j)
    {
      assert Route(j, otherHop) == Route(j, hop);
      assert End(Router(next), otherPort).device == Router(NextRouter(v, i, j));
    }
  }

  /** A path of forwarding steps that ends at the router of LAN `j`. */
  ghost predicate Delivers(v: Values, path: seq<nat>, j: nat) {
    && path != [] && path[|path| - 1] == j
    && (forall k | 0 <= k < |path| :: path[k] < v.Positions())
    && (forall k | 0 <= k < |path| - 1 :: path[k] != j && Forwards(v, path[k], path[k + 1], j))
    && (forall k, l | 0 <= k < l < |path| :: path[k] != path[l])
  }

  lemma {:induction false} FollowRoutes(v: Values, i: nat, j: nat) returns (path: seq<nat>)
    requires i < v.Positions() && j < v.Positions()
    ensures Delivers(v, path, j) && path[0] == i && |path| == Distance(v, i, j) + 1
    ensures forall k | 0 <= k < |path| :: Distance(v, path[k], j) == |path| - 1 - k
    decreases Distance(v, i, j)
  {
    if i == j {
      path := [i];
    } else {
      var next := NextRouter(v, i, j);
      NextIsCloser(v, i, j);
      hide Distance, NextRouter;
      ForwardsOnlyToNext(v, i, next, j);
      hide *;
      var rest := FollowRoutes(v, next, j);
      path := DeliverStep(v, i, rest, j);
    }
  }

  lemma DeliverStep(v: Values, i: nat, rest: seq<nat>, j: nat) returns (path: seq<nat>)
    requires Delivers(v, rest, j) && i < v.Positions() && i != j && Forwards(v, i, rest[0], j)
    requires |rest| == Distance(v, i, j)
    requires forall k | 0 <= k < |rest| :: Distance(v, rest[k], j) == |rest| - 1 - k
    ensures path == [i] + rest && Delivers(v, path, j)
    ensures forall k | 0 <= k < |path| :: Distance(v, path[k], j) == |path| - 1 - k
  {
    hide Forwards, Distance;
    path := [i] + rest;
    assert forall k | 0 < k < |path| :: path[k] == rest[k - 1];
  }

  /** Static routes deliver: from every router, for every template and router count,
      following next hops reaches the destination LAN's router without revisiting one,
      in at most two hops through a hub, one in the triangle, and exactly the index
      distance on a chain. */
  lemma RoutesDeliver(v: Values, i: nat, j: nat) returns (path: seq<nat>)
    requires i < v.Positions() && j < v.Positions()
    ensures Delivers(v, path, j) && path[0] == i
    ensures v.IsStar() ==> |path| - 1 <= 2
    ensures v.template == Triangle ==> |path| - 1 <= 1
    ensures v.IsChain() ==> |path| - 1 == if i < j then j - i else i - j
  {
    hide Delivers;
    path := FollowRoutes(v, i, j);
  }
}
