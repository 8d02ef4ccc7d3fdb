/** The Quick Build topology: the devices, cables, links and addresses the generator
    emits, as records. A router named "R<i+1>" is router `i`. */
module QuickBuild {
  datatype Template =
    SingleLan | MultiLan | MultiLanWan | BranchOffice | RouterOnAStick | Star | HubSpoke | Triangle

  /** The form values the generator reads. */
  datatype Values = Values(
    template: Template, routers: nat, pcs: nat, switches: nat, servers: nat, dhcp: bool, wan: bool)
  {
    predicate IsStar() { template == Star || template == HubSpoke }

    predicate IsChain() { !IsStar() && template != Triangle }

    /** The effective router count. */
    function NumRouters(): nat {
      if template == SingleLan then 1 else if template == Triangle then 3 else routers
    }

    /** How many router positions are pushed: the hub of a star always is. */
    function Positions(): nat {
      if IsStar() && NumRouters() == 0 then 1 else NumRouters()
    }

    predicate HasLan() { switches > 0 || pcs > 0 }
  }

  datatype Device = Router(i: nat) | Switch(r: nat, letter: nat) | Pc(r: nat, p: nat) | Server(s: nat) | Cloud

  /** `Gigabit` is a router port; `Fast` an access port of a switch. */
  datatype Port = Gigabit(index: int) | SwitchUplink | Fast(n: nat) | HostPort | CloudPort

  datatype End = End(device: Device, port: Port)

  datatype Cable = Cable(a: End, b: End)

  datatype WanLink = WanLink(from: nat, to: nat, fromPort: Port, toPort: Port, linkIdx: nat)

  datatype Address = Address(a: nat, b: nat, c: nat, d: nat)

  function Pred(n: nat): nat { if n == 0 then 0 else n - 1 }

  // ----- Devices -----

  function RouterDevices(v: Values): seq<Device> {
    seq(v.Positions(), i requires 0 <= i < v.Positions() => Router(i))
  }

  function SwitchRow(v: Values, r: nat): seq<Device> {
    seq(v.switches, k requires 0 <= k < v.switches => Switch(r, k))
  }

  function PcRow(v: Values, r: nat): seq<Device> {
    seq(v.pcs, p requires 0 <= p < v.pcs => Pc(r, p))
  }

  function LanDevices(v: Values, m: nat): seq<Device> {
    if m == 0 then [] else LanDevices(v, m - 1) + SwitchRow(v, m - 1) + PcRow(v, m - 1)
  }

  function ServerDevices(v: Values): seq<Device> {
    seq(v.servers, s requires 0 <= s < v.servers => Server(s))
  }

  predicate HasCloud(v: Values) {
    v.wan && v.template == MultiLanWan
  }

  function Devices(v: Values): seq<Device> {
    RouterDevices(v) + LanDevices(v, v.Positions()) + ServerDevices(v) + if HasCloud(v) then [Cloud] else []
  }

  method AddDevices(v: Values) returns (devices: seq<Device>)
    ensures devices == Devices(v)
  {
    devices := [];
    for i := 0 to v.Positions()
      invariant devices == RouterDevices(v)[..i]
    {
      devices := devices + [Router(i)];
    }
    for r := 0 to v.Positions()
      invariant devices == RouterDevices(v) + LanDevices(v, r)
    {
      ghost var before := devices;
      for k := 0 to v.switches
        invariant devices == before + SwitchRow(v, r)[..k]
      {
        devices := devices + [Switch(r, k)];
      }
      before := devices;
      for p := 0 to v.pcs
        invariant devices == before + PcRow(v, r)[..p]
      {
        devices := devices + [Pc(r, p)];
      }
    }
    ghost var before := devices;
    for s := 0 to v.servers
      invariant devices == before + ServerDevices(v)[..s]
    {
      devices := devices + [Server(s)];
    }
    if HasCloud(v) {
      devices := devices + [Cloud];
    }
  }

  // ----- Links between routers -----

  /** The port by which router `k` of a chain reaches its right neighbour. */
  function RightPort(k: nat): Port {
    if k == 0 then Gigabit(0) else Gigabit(1)
  }

  function RouterCables(v: Values): seq<Cable> {
    var n := Pred(v.NumRouters());
    if v.IsStar() then
      seq(n, k requires 0 <= k < n => Cable(End(Router(0), Gigabit(k)), End(Router(k + 1), Gigabit(0))))
    else if v.template == Triangle then
      [Cable(End(Router(0), Gigabit(0)), End(Router(1), Gigabit(0))),
       Cable(End(Router(1), Gigabit(1)), End(Router(2), Gigabit(0))),
       Cable(End(Router(2), Gigabit(1)), End(Router(0), Gigabit(1)))]
    else
      seq(n, k requires 0 <= k < n => Cable(End(Router(k), RightPort(k)), End(Router(k + 1), Gigabit(0))))
  }

  method AddRouterCables(v: Values) returns (cables: seq<Cable>)
    ensures cables == RouterCables(v)
  {
    cables := [];
    if v.IsStar() {
      for si := 1 to Pred(v.NumRouters()) + 1
        invariant cables == RouterCables(v)[..si - 1]
      {
        cables := cables + [Cable(End(Router(0), Gigabit(si - 1)), End(Router(si), Gigabit(0)))];
      }
    } else if v.template == Triangle {
      cables := cables + [Cable(End(Router(0), Gigabit(0)), End(Router(1), Gigabit(0)))];
      cables := cables + [Cable(End(Router(1), Gigabit(1)), End(Router(2), Gigabit(0)))];
      cables := cables + [Cable(End(Router(2), Gigabit(1)), End(Router(0), Gigabit(1)))];
    } else {
      for ri := 0 to Pred(v.NumRouters())
        invariant cables == RouterCables(v)[..ri]
      {
        var fromPort := if ri == 0 then Gigabit(0) else Gigabit(1);
        cables := cables + [Cable(End(Router(ri), fromPort), End(Router(ri + 1), Gigabit(0)))];
      }
    }
  }

  function WanLinks(v: Values): seq<WanLink> {
    var n := Pred(v.NumRouters());
    if v.IsStar() then
      seq(n, k requires 0 <= k < n => WanLink(0, k + 1, Gigabit(k), Gigabit(0), k))
    else if v.template == Triangle then
      [WanLink(0, 1, Gigabit(0), Gigabit(0), 0),
       WanLink(1, 2, Gigabit(1), Gigabit(0), 1),
       WanLink(2, 0, Gigabit(1), Gigabit(1), 2)]
    else
      seq(n, k requires 0 <= k < n => WanLink(k, k + 1, RightPort(k), Gigabit(0), k))
  }

  method BuildWanLinks(v: Values) returns (links: seq<WanLink>)
    ensures links == WanLinks(v)
  {
    links := [];
    if v.IsStar() {
      for wi := 1 to Pred(v.NumRouters()) + 1
        invariant links == WanLinks(v)[..wi - 1]
      {
        links := links + [WanLink(0, wi, Gigabit(wi - 1), Gigabit(0), wi - 1)];
      }
    } else if v.template == Triangle {
      links := links + [WanLink(0, 1, Gigabit(0), Gigabit(0), 0)];
      links := links + [WanLink(1, 2, Gigabit(1), Gigabit(0), 1)];
      links := links + [WanLink(2, 0, Gigabit(1), Gigabit(1), 2)];
    } else {
      for wri := 0 to Pred(v.NumRouters())
        invariant links == WanLinks(v)[..wri]
      {
        var fromPort := if wri == 0 then Gigabit(0) else Gigabit(1);
        links := links + [WanLink(wri, wri + 1, fromPort, Gigabit(0), wri)];
      }
    }
  }

  /** The router-to-router cables and the addressed links are built separately and
      agree one by one; a link's index is its position. */
  lemma CablesMatchLinks(v: Values)
    ensures |RouterCables(v)| == |WanLinks(v)|
    ensures forall k | 0 <= k < |WanLinks(v)| ::
      var link := WanLinks(v)[k];
      && link.linkIdx == k
      && RouterCables(v)[k] == Cable(End(Router(link.from), link.fromPort), End(Router(link.to), link.toPort))
      && link.from != link.to
  {
  }

  // ----- The other cables -----

  /** `getLanIdx`, and the same computation in the links section. */
  function LanIndex(v: Values, idx: nat): int {
    var n := v.NumRouters();
    if v.IsStar() then (if idx == 0 then n - 1 else 1)
    else if v.template == Triangle then 2
    else if n == 1 then 0
    else if idx == 0 || idx == n - 1 then 1
    else 2
  }

  function LanCables(v: Values): seq<Cable> {
    if v.switches == 0 then []
    else
      seq(v.Positions(), r requires 0 <= r < v.Positions() =>
        Cable(End(Router(r), Gigabit(LanIndex(v, r))), End(Switch(r, 0), SwitchUplink)))
  }

  function PcCableRow(r: nat, m: nat): seq<Cable> {
    seq(m, p requires 0 <= p < m => Cable(End(Switch(r, 0), Fast(p + 1)), End(Pc(r, p), HostPort)))
  }

  function PcCables(v: Values, m: nat): seq<Cable> {
    if m == 0 || v.switches == 0 then [] else PcCables(v, m - 1) + PcCableRow(m - 1, v.pcs)
  }

  lemma PcCableRowNone(r: nat)
    ensures PcCableRow(r, 0) == []
  {
  }

  lemma PcCableRowGrows(r: nat, m: nat)
    ensures PcCableRow(r, m + 1) == PcCableRow(r, m) + [Cable(End(Switch(r, 0), Fast(m + 1)), End(Pc(r, m), HostPort))]
  {
  }

  function ServerCables(v: Values): seq<Cable> {
    if v.switches == 0 then []
    else
      seq(v.servers, s requires 0 <= s < v.servers =>
        Cable(End(Switch(0, 0), Fast(v.pcs + 1 + s)), End(Server(s), HostPort)))
  }

  function CloudIndex(v: Values): int {
    if v.NumRouters() == 1 then 1 else 2
  }

  function CloudCables(v: Values): seq<Cable> {
    if HasCloud(v) then [Cable(End(Router(0), Gigabit(CloudIndex(v))), End(Cloud, CloudPort))] else []
  }

  function Cables(v: Values): seq<Cable> {
    RouterCables(v) + LanCables(v) + PcCables(v, v.Positions()) + ServerCables(v) + CloudCables(v)
  }

  method AddLanCables(v: Values) returns (cables: seq<Cable>)
    ensures cables == LanCables(v)
  {
    hide LanIndex;
    cables := [];
    if v.switches > 0 {
      for r := 0 to v.Positions()
        invariant cables == LanCables(v)[..r]
      {
        cables := cables + [Cable(End(Router(r), Gigabit(LanIndex(v, r))), End(Switch(r, 0), SwitchUplink))];
      }
    }
  }

  method AddPcCables(v: Values) returns (cables: seq<Cable>)
    ensures cables == PcCables(v, v.Positions())
  {
    hide PcCableRow;
    cables := [];
    if v.switches > 0 {
      for r := 0 to v.Positions()
        invariant cables == PcCables(v, r)
      {
        ghost var earlier := cables;
        PcCableRowNone(r);
        for p := 0 to v.pcs
          invariant cables == earlier + PcCableRow(r, p)
        {
          PcCableRowGrows(r, p);
          cables := cables + [Cable(End(Switch(r, 0), Fast(p + 1)), End(Pc(r, p), HostPort))];
        }
      }
    }
  }

  method AddServerCables(v: Values) returns (cables: seq<Cable>)
    ensures cables == ServerCables(v)
  {
    cables := [];
    if v.servers > 0 && v.switches > 0 {
      for s := 0 to v.servers
        invariant cables == ServerCables(v)[..s]
      {
        cables := cables + [Cable(End(Switch(0, 0), Fast(v.pcs + 1 + s)), End(Server(s), HostPort))];
      }
    }
  }

  /** The cables in the order the script emits them. */
  method AddCables(v: Values) returns (cables: seq<Cable>)
    ensures cables == Cables(v)
  {
    hide RouterCables, LanCables, PcCables, ServerCables, CloudIndex;
    cables := AddRouterCables(v);
    var lan := AddLanCables(v);
    var pcs := AddPcCables(v);
    var servers := AddServerCables(v);
    cables := cables + lan + pcs + servers;
    if HasCloud(v) {
      cables := cables + [Cable(End(Router(0), Gigabit(CloudIndex(v))), End(Cloud, CloudPort))];
    }
  }

  // ----- No port is used twice -----

  predicate Touches(c: Cable, e: End) {
    c.a == e || c.b == e
  }

  predicate Clash(c: Cable, d: Cable) {
    Touches(d, c.a) || Touches(d, c.b)
  }

  ghost predicate PortsUnique(cables: seq<Cable>) {
    && (forall c | c in cables :: c.a != c.b)
    && (forall i, j | 0 <= i < j < |cables| :: !Clash(cables[i], cables[j]))
  }

  ghost predicate Disjoint(s: seq<Cable>, t: seq<Cable>) {
    forall c, d | c in s && d in t :: !Clash(c, d)
  }

  lemma UniqueAppend(s: seq<Cable>, t: seq<Cable>)
    requires PortsUnique(s) && PortsUnique(t) && Disjoint(s, t)
    ensures PortsUnique(s + t)
  {
    forall i, j | 0 <= i < j < |s + t| ensures !Clash((s + t)[i], (s + t)[j]) {
      if i < |s| <= j {
        assert s[i] in s && t[j - |s|] in t;
      }
    }
  }

  /** The ports of router `i` that carry router-to-router cables. */
  predicate WanPort(v: Values, i: nat, k: int) {
    if v.IsStar() then (if i == 0 then 0 <= k < v.NumRouters() - 1 else k == 0)
    else if v.template == Triangle then k == 0 || k == 1
    else v.NumRouters() > 1 && (k == 0 || (k == 1 && 0 < i < v.NumRouters() - 1))
  }

  predicate WanEnd(v: Values, e: End) {
    e.device.Router? && e.port.Gigabit? && WanPort(v, e.device.i, e.port.index)
  }

  lemma RouterCablesUnique(v: Values)
    ensures PortsUnique(RouterCables(v))
    ensures forall c | c in RouterCables(v) :: WanEnd(v, c.a) && WanEnd(v, c.b)
  {
    var s := RouterCables(v);
    forall i, j | 0 <= i < j < |s| ensures !Clash(s[i], s[j]) {}
  }

  /** The LAN port and the cloud port of a router are none of its WAN ports. A star
      without routers still places its hub, and only that hub gets no port of its own. */
  lemma LanPortFree(v: Values, i: nat)
    requires i < v.Positions()
    ensures !WanPort(v, i, LanIndex(v, i))
    ensures LanIndex(v, i) >= 0 <==> v.NumRouters() >= 1
    ensures HasCloud(v) ==> !WanPort(v, 0, CloudIndex(v)) && LanIndex(v, 0) != CloudIndex(v)
  {
  }

  lemma NoPositions(v: Values)
    requires v.Positions() == 0
    ensures LanCables(v) == [] && RouterCables(v) == [] && WanLinks(v) == [] && PcCables(v, 0) == []
  {
  }

  lemma LanCablesUnique(v: Values)
    ensures PortsUnique(RouterCables(v) + LanCables(v) + CloudCables(v))
  {
    hide RouterCables, WanPort, LanIndex, CloudIndex;
    RouterCablesUnique(v);
    forall i: nat | i < v.Positions() ensures !WanPort(v, i, LanIndex(v, i)) {
      LanPortFree(v, i);
    }
    if v.Positions() > 0 {
      LanPortFree(v, 0);
    } else {
      assert LanCables(v) == [] && RouterCables(v) == [] by { NoPositions(v); }
    }
    assert PortsUnique(LanCables(v)) && PortsUnique(CloudCables(v));
    assert Disjoint(RouterCables(v), LanCables(v));
    UniqueAppend(RouterCables(v), LanCables(v));
    assert Disjoint(RouterCables(v) + LanCables(v), CloudCables(v));
    UniqueAppend(RouterCables(v) + LanCables(v), CloudCables(v));
  }

  lemma {:induction false} PcCablesUnique(v: Values, m: nat)
    ensures PortsUnique(PcCables(v, m))
    ensures forall c | c in PcCables(v, m) ::
      && c.a.device.Switch? && c.a.device.r < m && c.a.port.Fast? && 1 <= c.a.port.n <= v.pcs
      && c.b.device.Pc? && c.b.device.r < m
  {
    if m > 0 && v.switches > 0 {
      PcCablesUnique(v, m - 1);
      var row := PcCableRow(m - 1, v.pcs);
      assert PortsUnique(row);
      assert Disjoint(PcCables(v, m - 1), row);
      UniqueAppend(PcCables(v, m - 1), row);
    }
  }

  lemma HostCablesUnique(v: Values)
    ensures PortsUnique(PcCables(v, v.Positions()) + ServerCables(v))
    ensures forall c | c in PcCables(v, v.Positions()) + ServerCables(v) ::
      && c.a.device.Switch? && c.a.port.Fast? && c.b.port == HostPort
  {
    hide PcCables;
    PcCablesUnique(v, v.Positions());
    PcHostPorts(v, v.Positions());
    assert PortsUnique(ServerCables(v));
    assert Disjoint(PcCables(v, v.Positions()), ServerCables(v));
    UniqueAppend(PcCables(v, v.Positions()), ServerCables(v));
  }

  lemma {:induction false} PcHostPorts(v: Values, m: nat)
    ensures forall c | c in PcCables(v, m) :: c.b.port == HostPort
  {
    if m > 0 && v.switches > 0 {
      PcHostPorts(v, m - 1);
    }
  }

  lemma RouterSideForm(v: Values)
    ensures forall c | c in RouterCables(v) + LanCables(v) + CloudCables(v) ::
      && c.a.device.Router? && c.a.port.Gigabit?
      && (c.b.port.Gigabit? || c.b.port == SwitchUplink || c.b.port == CloudPort)
  {
  }

  /** No (device, port) pair is used by two cables, and no cable is a loop. */
  lemma NoPortUsedTwice(v: Values)
    ensures PortsUnique(Cables(v))
  {
    hide RouterCables, LanCables, PcCables, ServerCables, CloudCables;
    var rl, pcs, srv, cloud :=
      RouterCables(v) + LanCables(v), PcCables(v, v.Positions()), ServerCables(v), CloudCables(v);
    LanCablesUnique(v);
    HostCablesUnique(v);
    RouterSideForm(v);
    assert Disjoint(rl + cloud, pcs + srv);
    MiddleInsert(rl, pcs + srv, cloud);
    assert Cables(v) == rl + (pcs + srv) + cloud;
  }

  lemma MiddleInsert(s: seq<Cable>, m: seq<Cable>, t: seq<Cable>)
    requires PortsUnique(s + t) && PortsUnique(m) && Disjoint(s + t, m)
    ensures PortsUnique(s + m + t)
  {
    assert forall c :: c in s + t <==> c in s || c in t;
    assert PortsUnique(s) by {
      assert forall i | 0 <= i < |s| :: (s + t)[i] == s[i];
    }
    assert PortsUnique(t) by {
      assert forall i | 0 <= i < |t| :: (s + t)[|s| + i] == t[i];
    }
    UniqueAppend(s, m);
    forall c, d | c in s + m && d in t ensures !Clash(c, d) {
      if c in s {
        var i :| 0 <= i < |s| && s[i] == c;
        var j :| 0 <= j < |t| && t[j] == d;
        assert (s + t)[i] == c && (s + t)[|s| + j] == d;
      } else {
        assert d in s + t && c in m;
        assert !Clash(d, c);
      }
    }
    UniqueAppend(s + m, t);
  }

  // ----- Every cable joins devices that were added -----

  lemma {:induction false} LanDevicesHas(v: Values, m: nat, r: nat)
    requires r < m
    ensures forall k | 0 <= k < v.switches :: Switch(r, k) in LanDevices(v, m)
    ensures forall p | 0 <= p < v.pcs :: Pc(r, p) in LanDevices(v, m)
  {
    if r < m - 1 {
      LanDevicesHas(v, m - 1, r);
    } else {
      forall k | 0 <= k < v.switches ensures Switch(r, k) in LanDevices(v, m) {
        assert SwitchRow(v, r)[k] == Switch(r, k);
      }
      forall p | 0 <= p < v.pcs ensures Pc(r, p) in LanDevices(v, m) {
        assert PcRow(v, r)[p] == Pc(r, p);
      }
    }
  }

  /** The routers a form places: one for a single LAN, the corners of a triangle, the hub of a
      star in any case, and otherwise as many as it says. */
  function RouterCount(v: Values): nat {
    match v.template
    case SingleLan => 1
    case Triangle => 3
    case Star => if v.routers == 0 then 1 else v.routers
    case HubSpoke => if v.routers == 0 then 1 else v.routers
    case _ => v.routers
  }

  /** The devices a valid end may name. */
  predicate Exists(v: Values, d: Device) {
    match d
    case Router(i) => i < RouterCount(v)
    case Switch(r, k) => r < RouterCount(v) && k < v.switches
    case Pc(r, p) => r < RouterCount(v) && p < v.pcs
    case Server(s) => s < v.servers
    case Cloud => v.wan && v.template == MultiLanWan
  }

  lemma ExistsWasAdded(v: Values, d: Device)
    requires Exists(v, d)
    ensures d in Devices(v)
  {
    hide LanDevices;
    match d {
      case Router(i) => assert RouterDevices(v)[i] == d;
      case Switch(r, k) => LanDevicesHas(v, v.Positions(), r);
      case Pc(r, p) => LanDevicesHas(v, v.Positions(), r);
      case Server(s) => assert ServerDevices(v)[s] == d;
      case Cloud =>
    }
  }

  lemma {:induction false} PcCablesExist(v: Values, m: nat)
    requires m <= v.Positions()
    ensures forall c | c in PcCables(v, m) :: Exists(v, c.a.device) && Exists(v, c.b.device)
  {
    if m > 0 {
      PcCablesExist(v, m - 1);
    }
  }

  /** Every device that was added exists in that sense. */
  lemma {:induction false} LanDevicesExist(v: Values, m: nat)
    ensures forall d | d in LanDevices(v, m) :: (d.Switch? || d.Pc?) && d.r < m
  {
    if m > 0 {
      LanDevicesExist(v, m - 1);
    }
  }

  /** Without router positions, a cloud cable and the server cables have nothing to end at. */
  predicate HasAnchors(v: Values) {
    RouterCount(v) > 0 || (!(v.wan && v.template == MultiLanWan) && (v.switches == 0 || v.servers == 0))
  }

  lemma CableEndsExist(v: Values, c: Cable)
    requires c in Cables(v) && HasAnchors(v)
    ensures Exists(v, c.a.device) && Exists(v, c.b.device)
  {
    hide PcCables, LanIndex;
    PcCablesExist(v, v.Positions());
  }

  lemma NoAnchors(v: Values)
    requires !HasAnchors(v)
    ensures exists c | c in Cables(v) :: c.a.device !in Devices(v)
  {
    hide LanDevices;
    LanDevicesExist(v, 0);
    if HasCloud(v) {
      assert CloudCables(v)[0] in Cables(v);
    } else {
      assert ServerCables(v)[0] in Cables(v);
    }
  }

  /** Every cable joins two devices that were added, exactly when there is a router position
      for it or nothing that needs one. */
  lemma CablesJoinAddedDevices(v: Values)
    ensures (forall c | c in Cables(v) :: c.a.device in Devices(v) && c.b.device in Devices(v)) <==> HasAnchors(v)
  {
    hide Devices, Cables, Exists;
    if HasAnchors(v) {
      forall c | c in Cables(v) ensures c.a.device in Devices(v) && c.b.device in Devices(v) {
        CableEndsExist(v, c);
        ExistsWasAdded(v, c.a.device);
        ExistsWasAdded(v, c.b.device);
      }
    } else {
      NoAnchors(v);
    }
  }
}
