/** The whole of a Quick Build: the devices, the cables between them and the LANs they form. */
module QuickBuildCabling {
  import opened QuickBuild
  import opened QuickBuildRouting

  // ----- What belongs together -----

  /** Routers `i < j` are linked: hub and spoke, corners of the triangle, or neighbours of the
      chain. */
  predicate Adjacent(v: Values, i: nat, j: nat) {
    && i < j < RouterCount(v)
    && match v.template
       case Star => i == 0
       case HubSpoke => i == 0
       case Triangle => true
       case _ => j == i + 1
  }

  /** `d` is to be joined to `e`: a router to its neighbours, to the first switch of its LAN and
      to the cloud, and that switch to the PCs of the LAN and, on the first LAN, the servers. */
  predicate Belongs(v: Values, d: Device, e: Device) {
    match (d, e)
    case (Router(i), Router(j)) => Adjacent(v, i, j)
    case (Router(i), Switch(r, k)) => v.switches > 0 && i == r < RouterCount(v) && k == 0
    case (Switch(r, k), Pc(q, p)) => v.switches > 0 && q == r < RouterCount(v) && k == 0 && p < v.pcs
    case (Switch(r, k), Server(s)) => v.switches > 0 && r == 0 && k == 0 && s < v.servers
    case (Router(i), Cloud) => i == 0 && v.wan && v.template == MultiLanWan
    case _ => false
  }

  predicate Joins(c: Cable, d: Device, e: Device) {
    (c.a.device == d && c.b.device == e) || (c.a.device == e && c.b.device == d)
  }

  ghost predicate HasCable(cables: seq<Cable>, d: Device, e: Device) {
    exists c | c in cables :: Joins(c, d, e)
  }

  lemma CableIn(cables: seq<Cable>, k: nat, d: Device, e: Device)
    requires k < |cables| && Joins(cables[k], d, e)
    ensures HasCable(cables, d, e)
  {
    assert cables[k] in cables;
  }

  lemma HasCableAppend(s: seq<Cable>, t: seq<Cable>, d: Device, e: Device)
    ensures HasCable(s + t, d, e) <==> HasCable(s, d, e) || HasCable(t, d, e)
  {
  }

  /** There is a cable for everything that belongs together, one each, and no other. */
  ghost predicate Exact(v: Values, cables: seq<Cable>) {
    && (forall d, e | Belongs(v, d, e) :: HasCable(cables, d, e))
    && (forall c | c in cables :: Belongs(v, c.a.device, c.b.device) || Belongs(v, c.b.device, c.a.device))
    && (forall k, l | 0 <= k < l < |cables| :: !Joins(cables[k], cables[l].a.device, cables[l].b.device))
  }

  lemma RouterPairs(v: Values)
    ensures forall i: nat, j: nat | Adjacent(v, i, j) :: HasCable(RouterCables(v), Router(i), Router(j))
    ensures forall c | c in RouterCables(v) ::
      && c.a.device.Router? && c.b.device.Router?
      && (Adjacent(v, c.a.device.i, c.b.device.i) || Adjacent(v, c.b.device.i, c.a.device.i))
    ensures forall k, l | 0 <= k < l < |RouterCables(v)| ::
      !Joins(RouterCables(v)[k], RouterCables(v)[l].a.device, RouterCables(v)[l].b.device)
  {
    var cables := RouterCables(v);
    forall i: nat, j: nat | Adjacent(v, i, j) ensures HasCable(cables, Router(i), Router(j)) {
      CableIn(cables, if v.IsStar() then j - 1 else if v.template != Triangle then i
                      else if i == 1 then 1 else if j == 1 then 0 else 2, Router(i), Router(j));
    }
  }

  lemma LanPairs(v: Values)
    ensures forall r: nat | v.switches > 0 && r < v.Positions() ::
      HasCable(LanCables(v), Router(r), Switch(r, 0))
    ensures forall c | c in LanCables(v) ::
      Belongs(v, c.a.device, c.b.device) && c.b.port == SwitchUplink && c.b.device.Switch?
  {
    hide LanIndex;
    forall r: nat | v.switches > 0 && r < v.Positions()
      ensures HasCable(LanCables(v), Router(r), Switch(r, 0))
    {
      CableIn(LanCables(v), r, Router(r), Switch(r, 0));
    }
  }

  lemma {:induction false} PcPairs(v: Values, m: nat)
    requires m <= v.Positions()
    ensures forall r, p | v.switches > 0 && 0 <= r < m && 0 <= p < v.pcs ::
      HasCable(PcCables(v, m), Switch(r, 0), Pc(r, p))
    ensures forall c | c in PcCables(v, m) ::
      Belongs(v, c.a.device, c.b.device) && c.b.port == HostPort && c.b.device.Pc?
  {
    if m > 0 {
      PcPairs(v, m - 1);
      forall r, p | v.switches > 0 && 0 <= r < m && 0 <= p < v.pcs
        ensures HasCable(PcCables(v, m), Switch(r, 0), Pc(r, p))
      {
        if r == m - 1 {
          CableIn(PcCableRow(r, v.pcs), p, Switch(r, 0), Pc(r, p));
        }
        HasCableAppend(PcCables(v, m - 1), PcCableRow(m - 1, v.pcs), Switch(r, 0), Pc(r, p));
      }
    }
  }

  lemma ServerPairs(v: Values)
    ensures forall s | v.switches > 0 && 0 <= s < v.servers ::
      HasCable(ServerCables(v), Switch(0, 0), Server(s))
    ensures forall c | c in ServerCables(v) ::
      Belongs(v, c.a.device, c.b.device) && c.b.port == HostPort && c.b.device.Server?
  {
    forall s | v.switches > 0 && 0 <= s < v.servers
      ensures HasCable(ServerCables(v), Switch(0, 0), Server(s))
    {
      CableIn(ServerCables(v), s, Switch(0, 0), Server(s));
    }
  }

  lemma CloudPair(v: Values)
    ensures HasCloud(v) ==> HasCable(CloudCables(v), Router(0), Cloud)
    ensures forall c | c in CloudCables(v) ::
      Belongs(v, c.a.device, c.b.device) && c.b.port == CloudPort && c.b.device.Cloud?
  {
    if HasCloud(v) {
      CableIn(CloudCables(v), 0, Router(0), Cloud);
    }
  }

  /** The one port by which a device that is no router is reached. */
  function FarPort(d: Device): Port {
    match d
    case Switch(_, _) => SwitchUplink
    case Cloud => CloudPort
    case _ => HostPort
  }

  /** Behind the router cables, the far end determines the cable. */
  predicate FarEndFixed(c: Cable) {
    && !c.b.device.Router? && c.b.port == FarPort(c.b.device)
    && (c.a.device.Router? || (c.a.device.Switch? && !c.b.device.Switch?))
  }

  lemma EveryPair(v: Values, d: Device, e: Device)
    requires Belongs(v, d, e)
    ensures HasCable(Cables(v), d, e)
  {
    RouterPairs(v);
    LanPairs(v);
    PcPairs(v, v.Positions());
    ServerPairs(v);
    CloudPair(v);
    var a, b, c, f, g := RouterCables(v), LanCables(v), PcCables(v, v.Positions()), ServerCables(v), CloudCables(v);
    hide RouterCables, LanCables, PcCables, ServerCables, CloudCables, Joins, Adjacent, HasCable;
    HasCableAppend(a, b, d, e);
    HasCableAppend(a + b, c, d, e);
    HasCableAppend(a + b + c, f, d, e);
    HasCableAppend(a + b + c + f, g, d, e);
  }

  lemma OnlyPairs(v: Values, c: Cable)
    requires c in Cables(v)
    ensures Belongs(v, c.a.device, c.b.device) || Belongs(v, c.b.device, c.a.device)
    ensures if c in RouterCables(v) then c.a.device.Router? && c.b.device.Router? else FarEndFixed(c)
  {
    hide RouterCables, LanCables, PcCables, ServerCables, CloudCables, Adjacent, HasCable, Joins;
    if c in RouterCables(v) {
      RouterPairs(v);
    } else if c in LanCables(v) {
      LanPairs(v);
    } else if c in PcCables(v, v.Positions()) {
      PcPairs(v, v.Positions());
    } else if c in ServerCables(v) {
      ServerPairs(v);
    } else {
      CloudPair(v);
    }
  }

  /** Two cables between the same devices are one. */
  lemma OnePerPair(v: Values, k: nat, l: nat)
    requires k < l < |Cables(v)|
    ensures !Joins(Cables(v)[k], Cables(v)[l].a.device, Cables(v)[l].b.device)
  {
    hide RouterCables, LanCables, PcCables, ServerCables, CloudCables, Adjacent, Belongs, Cables;
    var c, d := Cables(v)[k], Cables(v)[l];
    OnlyPairs(v, c);
    OnlyPairs(v, d);
    if Joins(c, d.a.device, d.b.device) {
      if d in RouterCables(v) {
        RouterPairs(v);
        RouterCablesFirst(v, k);
        RouterCablesFirst(v, l);
      } else {
        assert c.b == d.b && Clash(c, d);
        NoPortUsedTwice(v);
      }
    }
  }

  function OtherCables(v: Values): seq<Cable> {
    LanCables(v) + PcCables(v, v.Positions()) + ServerCables(v) + CloudCables(v)
  }

  lemma OthersReachNoRouter(v: Values, c: Cable)
    requires c in OtherCables(v)
    ensures !c.b.device.Router?
  {
    LanPairs(v);
    PcPairs(v, v.Positions());
    ServerPairs(v);
    CloudPair(v);
    hide LanCables, PcCables, ServerCables, CloudCables, Belongs, HasCable;
  }

  lemma RouterCablesFirst(v: Values, k: nat)
    requires k < |Cables(v)| && Cables(v)[k].b.device.Router?
    ensures k < |RouterCables(v)| && Cables(v)[k] == RouterCables(v)[k]
  {
    hide RouterCables, LanCables, PcCables, ServerCables, CloudCables;
    var n := |RouterCables(v)|;
    assert Cables(v) == RouterCables(v) + OtherCables(v);
    hide OtherCables, Cables;
    if k >= n {
      assert OtherCables(v)[k - n] in OtherCables(v);
      OthersReachNoRouter(v, OtherCables(v)[k - n]);
    }
  }

  lemma CablesExact(v: Values)
    ensures Exact(v, Cables(v))
  {
    hide Cables, Belongs, Joins;
    forall d, e | Belongs(v, d, e) ensures HasCable(Cables(v), d, e) {
      EveryPair(v, d, e);
    }
    forall c | c in Cables(v)
      ensures Belongs(v, c.a.device, c.b.device) || Belongs(v, c.b.device, c.a.device)
    {
      OnlyPairs(v, c);
    }
    forall k, l | 0 <= k < l < |Cables(v)|
      ensures !Joins(Cables(v)[k], Cables(v)[l].a.device, Cables(v)[l].b.device)
    {
      OnePerPair(v, k, l);
    }
  }

  // ----- Devices -----

  lemma {:induction false} LanDevicesOnce(v: Values, m: nat)
    ensures forall i, j | 0 <= i < j < |LanDevices(v, m)| :: LanDevices(v, m)[i] != LanDevices(v, m)[j]
  {
    if m > 0 {
      LanDevicesOnce(v, m - 1);
      LanDevicesExist(v, m - 1);
      var before, row := LanDevices(v, m - 1), SwitchRow(v, m - 1) + PcRow(v, m - 1);
      assert LanDevices(v, m) == before + row;
      assert forall d | d in before :: (d.Switch? || d.Pc?) && d.r < m - 1;
      forall i, j | 0 <= i < j < |before + row| ensures (before + row)[i] != (before + row)[j] {
        if i < |before| <= j {
          assert before[i] in before;
        }
      }
    }
  }

  /** Exactly the devices the form asks for are added, each once. */
  lemma DevicesExact(v: Values)
    ensures forall d :: d in Devices(v) <==> Exists(v, d)
    ensures forall i, j | 0 <= i < j < |Devices(v)| :: Devices(v)[i] != Devices(v)[j]
  {
    forall d ensures d in Devices(v) <==> Exists(v, d) {
      if Exists(v, d) {
        ExistsWasAdded(v, d);
      } else if d in LanDevices(v, v.Positions()) {
        OnlyAsked(v, v.Positions(), d);
      }
    }
    LanDevicesOnce(v, v.Positions());
    LanDevicesExist(v, v.Positions());
    DevicesOnce(v);
  }

  lemma {:induction false} OnlyAsked(v: Values, m: nat, d: Device)
    requires d in LanDevices(v, m)
    ensures (d.Switch? && d.r < m && d.letter < v.switches) || (d.Pc? && d.r < m && d.p < v.pcs)
  {
    if m > 0 && d in LanDevices(v, m - 1) {
      OnlyAsked(v, m - 1, d);
    }
  }

  lemma DevicesOnce(v: Values)
    requires forall i, j | 0 <= i < j < |LanDevices(v, v.Positions())| ::
      LanDevices(v, v.Positions())[i] != LanDevices(v, v.Positions())[j]
    requires forall d | d in LanDevices(v, v.Positions()) :: d.Switch? || d.Pc?
    ensures forall i, j | 0 <= i < j < |Devices(v)| :: Devices(v)[i] != Devices(v)[j]
  {
    hide LanDevices;
    var lan := LanDevices(v, v.Positions());
    forall i, j | 0 <= i < j < |Devices(v)| ensures Devices(v)[i] != Devices(v)[j] {
      var n, m := v.Positions(), v.Positions() + |lan|;
      if n <= i < m {
        assert Devices(v)[i] == lan[i - n] && lan[i - n] in lan;
      }
      if n <= j < m {
        assert Devices(v)[j] == lan[j - n] && lan[j - n] in lan;
      }
    }
  }

  // ----- Ports -----

  ghost predicate Used(cables: seq<Cable>, e: End) {
    exists c | c in cables :: Touches(c, e)
  }

  lemma UsedAt(cables: seq<Cable>, k: nat, e: End)
    requires k < |cables| && Touches(cables[k], e)
    ensures Used(cables, e)
  {
    assert cables[k] in cables;
  }

  lemma WanPortUsed(v: Values, r: nat, k: int)
    requires r < v.Positions() && WanPort(v, r, k) && v.NumRouters() > 1
    ensures Used(RouterCables(v), End(Router(r), Gigabit(k)))
  {
    var cables, e := RouterCables(v), End(Router(r), Gigabit(k));
    if v.IsStar() {
      UsedAt(cables, if r == 0 then k else r - 1, e);
    } else if v.template == Triangle {
      UsedAt(cables, if k == 0 then (if r == 2 then 1 else 0) else if r == 1 then 1 else 2, e);
    } else {
      UsedAt(cables, if r == 0 || k == 1 then r else r - 1, e);
    }
  }

  lemma UsedAppend(s: seq<Cable>, t: seq<Cable>, e: End)
    ensures Used(s + t, e) <==> Used(s, e) || Used(t, e)
  {
  }

  lemma UsedParts(v: Values, e: End)
    ensures Used(Cables(v), e) <==>
      || Used(RouterCables(v), e) || Used(LanCables(v), e) || Used(PcCables(v, v.Positions()), e)
      || Used(ServerCables(v), e) || Used(CloudCables(v), e)
  {
    var a, b, c, d, g := RouterCables(v), LanCables(v), PcCables(v, v.Positions()), ServerCables(v), CloudCables(v);
    hide RouterCables, LanCables, PcCables, ServerCables, CloudCables, Used;
    UsedAppend(a, b, e);
    UsedAppend(a + b, c, e);
    UsedAppend(a + b + c, d, e);
    UsedAppend(a + b + c + d, g, e);
  }

  lemma {:induction false} PcPorts(v: Values, m: nat, e: End)
    ensures Used(PcCables(v, m), e) <==>
      && v.switches > 0
      && (|| (e.device.Switch? && e.device.r < m && e.device.letter == 0 && e.port.Fast? && 1 <= e.port.n <= v.pcs)
          || (e.device.Pc? && e.device.r < m && e.device.p < v.pcs && e.port == HostPort))
  {
    if m > 0 && v.switches > 0 {
      PcPorts(v, m - 1, e);
      var row := PcCableRow(m - 1, v.pcs);
      UsedAppend(PcCables(v, m - 1), row, e);
      if e.device.Switch? && e.device == Switch(m - 1, 0) && e.port.Fast? && 1 <= e.port.n <= v.pcs {
        UsedAt(row, e.port.n - 1, e);
      }
      if e.device.Pc? && e.device.r == m - 1 && e.device.p < v.pcs && e.port == HostPort {
        UsedAt(row, e.device.p, e);
      }
    }
  }

  lemma ServerPorts(v: Values, e: End)
    ensures Used(ServerCables(v), e) <==>
      && v.switches > 0
      && (|| (e.device == Switch(0, 0) && e.port.Fast? && v.pcs < e.port.n <= v.pcs + v.servers)
          || (e.device.Server? && e.device.s < v.servers && e.port == HostPort))
  {
    if v.switches > 0 && e.device == Switch(0, 0) && e.port.Fast? && v.pcs < e.port.n <= v.pcs + v.servers {
      UsedAt(ServerCables(v), e.port.n - v.pcs - 1, e);
    }
    if v.switches > 0 && e.device.Server? && e.device.s < v.servers && e.port == HostPort {
      UsedAt(ServerCables(v), e.device.s, e);
    }
  }

  lemma LanPorts(v: Values, r: nat, port: Port)
    requires r < v.Positions()
    ensures Used(LanCables(v), End(Router(r), port)) <==> v.switches > 0 && port == Gigabit(LanIndex(v, r))
    ensures Used(CloudCables(v), End(Router(r), port)) <==> HasCloud(v) && r == 0 && port == Gigabit(CloudIndex(v))
    ensures Used(RouterCables(v), End(Router(r), port)) <==> port.Gigabit? && WanPort(v, r, port.index)
  {
    var e := End(Router(r), port);
    if v.switches > 0 && port == Gigabit(LanIndex(v, r)) {
      UsedAt(LanCables(v), r, e);
    }
    if HasCloud(v) && r == 0 && port == Gigabit(CloudIndex(v)) {
      UsedAt(CloudCables(v), 0, e);
    }
    if port.Gigabit? && WanPort(v, r, port.index) {
      WanPortUsed(v, r, port.index);
    }
    hide RouterCables, LanIndex, CloudIndex, WanPort;
    RouterCablesUnique(v);
  }

  /** The switch ports of a LAN are numbered from 1 without a gap, PCs first. */
  lemma SwitchPortsDense(v: Values, r: nat, n: nat)
    requires v.switches > 0 && r < RouterCount(v)
    ensures Used(Cables(v), End(Switch(r, 0), Fast(n))) <==> 1 <= n <= v.pcs + if r == 0 then v.servers else 0
  {
    var e := End(Switch(r, 0), Fast(n));
    UsedParts(v, e);
    PcPorts(v, v.Positions(), e);
    ServerPorts(v, e);
    RouterSideForm(v);
    hide RouterCables, LanCables, CloudCables, PcCables, ServerCables;
    assert !Used(RouterCables(v), e) && !Used(LanCables(v), e) && !Used(CloudCables(v), e);
  }

  /** A router that has a LAN uses its ports from 0 on without a gap. */
  lemma RouterPortsDense(v: Values, r: nat, port: Port)
    requires v.switches > 0 && v.NumRouters() > 0 && r < v.Positions() && Used(Cables(v), End(Router(r), port))
    ensures port.Gigabit? && port.index >= 0
    ensures port.index > 0 ==> Used(Cables(v), End(Router(r), Gigabit(port.index - 1)))
  {
    UsedParts(v, End(Router(r), port));
    PcPorts(v, v.Positions(), End(Router(r), port));
    ServerPorts(v, End(Router(r), port));
    LanPorts(v, r, port);
    var lower := Gigabit(port.index - 1);
    UsedParts(v, End(Router(r), lower));
    LanPorts(v, r, lower);
    hide RouterCables, LanCables, CloudCables, PcCables, ServerCables, Used;
  }

  // ----- The script -----

  /** What the generator emits. */
  datatype Script = Script(
    devices: seq<Device>, cables: seq<Cable>, interfaces: seq<seq<Interface>>, hosts: seq<HostConfig>)

  /** The cable from a router to the first switch of its LAN is on the port that holds the
      LAN's first address. */
  ghost predicate LansAttached(v: Values, script: Script) {
    && |script.interfaces| == RouterCount(v)
    && forall r, c | 0 <= r < RouterCount(v) && c in script.cables && Joins(c, Router(r), Switch(r, 0)) ::
         exists x | x in script.interfaces[r] ::
           Touches(c, End(Router(r), x.port)) && x.address == Address(192, 168, r, 1) && x.prefix == 24
  }

  /** A static host is in the /24 of a router whose first switch it is cabled to, and its
      gateway is that router's LAN address. */
  ghost predicate HostOnLan(v: Values, script: Script, h: HostConfig, r: nat)
    requires h.StaticIp? && |script.interfaces| == RouterCount(v)
  {
    && r < RouterCount(v) && HasCable(script.cables, Switch(r, 0), h.device)
    && h.address.a == h.gateway.a && h.address.b == h.gateway.b && h.address.c == h.gateway.c
    && h.address != h.gateway
    && exists x | x in script.interfaces[r] :: x.address == h.gateway && x.prefix == 24
  }

  /** PCs and servers, and nothing else, are configured, each once, and all by DHCP or none. */
  ghost predicate HostsExact(v: Values, hosts: seq<HostConfig>) {
    && (forall d :: (exists h | h in hosts :: h.device == d) <==> Exists(v, d) && (d.Pc? || d.Server?))
    && (forall i, j | 0 <= i < j < |hosts| :: hosts[i].device != hosts[j].device)
    && (forall h | h in hosts :: h.Dhcp? <==> v.dhcp)
  }

  lemma LanAttached(v: Values, r: nat, c: Cable)
    requires r < v.Positions() && c in Cables(v) && Joins(c, Router(r), Switch(r, 0))
    ensures LanInterface(v, r) in Interfaces(v, r) && Touches(c, End(Router(r), LanInterface(v, r).port))
  {
    OnlyPairs(v, c);
    assert v.switches > 0;
    assert c in LanCables(v) by {
      RouterPairs(v);
      PcPairs(v, v.Positions());
      ServerPairs(v);
      CloudPair(v);
    }
    hide LanIndex;
  }

  lemma HostAttached(v: Values, h: HostConfig) returns (r: nat)
    requires v.switches > 0 && v.Positions() > 0 && h in HostConfigs(v) && h.StaticIp?
    ensures r < v.Positions() && HasCable(Cables(v), Switch(r, 0), h.device)
    ensures h.gateway == Address(192, 168, r, 1) && h.address.a == 192 && h.address.b == 168 && h.address.c == r
    ensures h.address.d > 1 && LanInterface(v, r) in Interfaces(v, r) && LanInterface(v, r).address == h.gateway
  {
    hide HostConfigs, LanIndex;
    HostConfigForm(v, h);
    r := h.address.c;
    assert Belongs(v, Switch(r, 0), h.device);
    EveryPair(v, Switch(r, 0), h.device);
  }

  lemma {:induction false} PcConfigsOnce(v: Values, m: nat)
    ensures forall i, j | 0 <= i < j < |PcConfigs(v, m)| :: PcConfigs(v, m)[i].device != PcConfigs(v, m)[j].device
    ensures forall h | h in PcConfigs(v, m) ::
      h.device.Pc? && h.device.r < m && h.device.p < v.pcs && (h.Dhcp? <==> v.dhcp)
    ensures forall r: nat, p: nat | r < m && p < v.pcs :: PcConfig(v, r, p) in PcConfigs(v, m)
  {
    if m > 0 {
      PcConfigsOnce(v, m - 1);
      var before, row := PcConfigs(v, m - 1), PcConfigRow(v, m - 1, v.pcs);
      var both: seq<HostConfig> := before + row;
      forall i, j | 0 <= i < j < |both| ensures both[i].device != both[j].device {
        if i < |before| <= j {
          assert before[i] in before;
        }
      }
      forall r: nat, p: nat | r < m && p < v.pcs ensures PcConfig(v, r, p) in both {
        if r == m - 1 {
          assert row[p] == PcConfig(v, r, p);
        }
      }
    }
  }

  lemma HostConfigsExact(v: Values)
    ensures HostsExact(v, HostConfigs(v))
  {
    var pcs, servers := PcConfigs(v, v.Positions()), ServerConfigs(v, v.servers);
    PcConfigsOnce(v, v.Positions());
    hide PcConfigs;
    var all: seq<HostConfig> := pcs + servers;
    forall d ensures (exists h | h in all :: h.device == d) <==> Exists(v, d) && (d.Pc? || d.Server?) {
      if Exists(v, d) && d.Pc? {
        assert PcConfig(v, d.r, d.p) in all && PcConfig(v, d.r, d.p).device == d;
      }
      if Exists(v, d) && d.Server? {
        assert servers[d.s] in all && servers[d.s].device == d;
      }
    }
    forall i, j | 0 <= i < j < |all| ensures all[i].device != all[j].device {
      if i < |pcs| {
        assert pcs[i] in pcs;
      }
    }
  }

  /** `buildQBScript` up to the routes: exactly the devices and cables of the topology, a LAN
      gateway on the very port that leads to the LAN, and static hosts behind their gateway. */
  method BuildScript(v: Values) returns (script: Script)
    ensures forall d :: d in script.devices <==> Exists(v, d)
    ensures Exact(v, script.cables) && PortsUnique(script.cables) && LansAttached(v, script)
    ensures HostsExact(v, script.hosts)
    ensures v.switches > 0 && RouterCount(v) > 0 ==>
      forall h: HostConfig | h in script.hosts && h.StaticIp? :: exists r :: HostOnLan(v, script, h, r)
  {
    hide Devices, Cables, Interfaces, HostConfigs, Exact, PortsUnique, LansAttached, HostsExact, HostOnLan, WanLinks;
    var devices := AddDevices(v);
    DevicesExact(v);
    var cables := AddCables(v);
    CablesExact(v);
    NoPortUsedTwice(v);
    var links := BuildWanLinks(v);
    var interfaces: seq<seq<Interface>> := [];
    for r := 0 to v.Positions()
      invariant |interfaces| == r && forall i | 0 <= i < r :: interfaces[i] == Interfaces(v, i)
    {
      var cfg := ConfigureInterfaces(v, links, r);
      interfaces := interfaces + [cfg];
    }
    var hosts := ConfigureHosts(v);
    HostConfigsExact(v);
    script := Script(devices, cables, interfaces, hosts);
    ScriptConnects(v, script);
  }

  lemma ScriptConnects(v: Values, script: Script)
    requires script.cables == Cables(v) && script.hosts == HostConfigs(v) && |script.interfaces| == v.Positions()
    requires forall i | 0 <= i < v.Positions() :: script.interfaces[i] == Interfaces(v, i)
    ensures LansAttached(v, script)
    ensures v.switches > 0 && RouterCount(v) > 0 ==>
      forall h: HostConfig | h in script.hosts && h.StaticIp? :: exists r :: HostOnLan(v, script, h, r)
  {
    hide Cables, HostConfigs, Interfaces, Joins, Touches, HasCable, LanIndex;
    forall r: nat, c | r < v.Positions() && c in script.cables && Joins(c, Router(r), Switch(r, 0))
      ensures exists x | x in script.interfaces[r] ::
        Touches(c, End(Router(r), x.port)) && x.address == Address(192, 168, r, 1) && x.prefix == 24
    {
      LanAttached(v, r, c);
    }
    if v.switches > 0 && v.Positions() > 0 {
      forall h: HostConfig | h in script.hosts && h.StaticIp? ensures exists r :: HostOnLan(v, script, h, r) {
        var r := HostAttached(v, h);
        assert HostOnLan(v, script, h, r);
      }
    }
  }
}
