/**
How a switch moves Ethernet frames: snooping, broadcast to its ports and peers, unicast, and the gateway that
answers for itself and routes between switches.  A frame goes out either to a local port or over the wire to a
peer; everything sent while one frame is processed is collected in a multiset.
*/
module Forwarding {
  import opened Prelude
  import opened PortTable

  type Ip = nat
  type SwitchId = nat

  const BROADCAST: Mac := 0xffff_ffff_ffff
  const GATEWAY_MAC: Mac := 0x0600_0000_0001

  /** The group bit of the first octet is clear. */
  predicate IsUnicastMac(m: Mac) {
    (m / 0x100_0000_0000) % 2 == 0
  }

  /** Neither unspecified nor multicast. */
  predicate IsUnicast6(ip: Ip) {
    ip != 0 && ip / 0x100_0000_0000_0000_0000_0000_0000_0000 != 255
  }

  /** What the parsers make of a payload; junk is anything they reject, with whether its ethertype says ARP. */
  datatype Payload =
    | Ipv4(src: Ip, dst: Ip, hop: nat, icmp: bool, dhcp: bool)
    | Ipv6(src: Ip, dst: Ip, hop: nat, icmp: bool)
    | Arp(reply: bool, sha: Mac, spa: Ip, tha: Mac, tpa: Ip)
    | Junk(arp: bool)

  datatype Frame = Frame(src: Mac, dst: Mac, payload: Payload)

  /** A CIDR: the address it was written with, and the first address and size of its network. */
  datatype Range = Range(v6: bool, addr: Ip, base: Ip, size: nat)

  predicate InRange(r: Range, v6: bool, ip: Ip) {
    r.v6 == v6 && r.base <= ip < r.base + r.size
  }

  /** The port table of one switch with its snooped address caches, when it asked for which address, and its clock. */
  datatype Plane = Plane(
    ports: map<Mac, Destination>,
    promiscuous: set<Mac>,
    peers: map<NodeKey, Addr>,
    cidrs: seq<Range>,
    mac4: map<Mac, Ip>,
    ip4: map<Ip, Mac>,
    mac6: map<Mac, Ip>,
    ip6: map<Ip, Mac>,
    asked: map<Ip, int>,
    now: int)

  datatype Route = Route(cidrs: seq<Range>, via: SwitchId)

  datatype Gateway = Gateway(ips4: set<Ip>, ips6: set<Ip>, routes: seq<Route>)

  /** A frame put into a local port, sent to a peer as part of a flood, or sent to one peer. */
  datatype Out =
    | Deliver(at: SwitchId, mac: Mac, frame: Frame)
    | Flood(at: SwitchId, key: NodeKey, addr: Addr, frame: Frame)
    | Wire(at: SwitchId, addr: Addr, frame: Frame)

  datatype Result = Result(plane: Plane, out: multiset<Out>)

  // ---------------------------------------------------------------- snooping

  /** Remember which peer a MAC was heard from. */
  function Heard(p: Plane, mac: Mac, peer: Option<Addr>): Plane {
    if peer.Some? then p.(ports := p.ports[mac := PeerSwitch(peer.value)]) else p
  }

  function Snoop(p: Plane, f: Frame, peer: Option<Addr>): Plane {
    match f.payload
    case Ipv4(ip, _, _, _, _) =>
      if IsUnicastMac(f.src) && IsUnicast4(ip) && (f.src !in p.mac4 || ip !in p.ip4)
      then Heard(p.(mac4 := p.mac4[f.src := ip], ip4 := p.ip4[ip := f.src]), f.src, peer)
      else p
    case Ipv6(ip, _, _, _) =>
      if IsUnicastMac(f.src) && IsUnicast6(ip) && (f.src !in p.mac6 || ip !in p.ip6)
      then Heard(p.(mac6 := p.mac6[f.src := ip], ip6 := p.ip6[ip := f.src]), f.src, peer)
      else p
    case Arp(_, mac, ip, _, _) =>
      if mac != BROADCAST && mac != GATEWAY_MAC && ip != 0xffff_ffff && ip != 0
      then Heard(p.(mac4 := p.mac4[mac := ip], ip4 := p.ip4[ip := mac]), mac, peer)
      else p
    case Junk(_) => p
  }

  // ---------------------------------------------------------------- sending

  predicate IsLocal(d: Destination) {
    !d.PeerSwitch?
  }

  function Send(at: SwitchId, d: Destination, mac: Mac, f: Frame, allow: bool): multiset<Out> {
    if IsLocal(d) then multiset{Deliver(at, mac, f)}
    else if allow then multiset{Wire(at, d.addr, f)}
    else multiset{}
  }

  /** One copy for every local port but the sender's; a broadcast is never forwarded through the port table. */
  function LocalCopies(at: SwitchId, p: Plane, src: Mac, f: Frame): multiset<Out> {
    multiset(set m | m in p.ports && m != src && IsLocal(p.ports[m]) :: Deliver(at, m, f))
  }

  function PeerCopies(at: SwitchId, p: Plane, f: Frame): multiset<Out> {
    multiset(set k | k in p.peers :: Flood(at, k, p.peers[k], f))
  }

  /** The promiscuous ports that listen in on a frame to dst. */
  function Ears(p: Plane, dst: Mac): set<Mac> {
    set m | m in p.promiscuous && m != dst && m in p.ports
  }

  /** The peers behind those ports, without the one the frame goes to anyway. */
  function EarPeers(p: Plane, dst: Mac): set<Addr> {
    (set m | m in Ears(p, dst) && !IsLocal(p.ports[m]) :: p.ports[m].addr) -
    (if dst in p.ports && !IsLocal(p.ports[dst]) then {p.ports[dst].addr} else {})
  }

  function PromiscuousCopies(at: SwitchId, p: Plane, dst: Mac, f: Frame, allow: bool): multiset<Out> {
    multiset(set m | m in Ears(p, dst) && IsLocal(p.ports[m]) :: Deliver(at, m, f)) +
    (if allow then multiset(set a | a in EarPeers(p, dst) :: Wire(at, a, f)) else multiset{})
  }

  // ---------------------------------------------------------------- the gateway's own answers

  predicate ArpForGateway(gw: Gateway, f: Frame) {
    f.dst == BROADCAST && f.payload.Arp? && f.payload.tpa in gw.ips4
  }

  function ArpAnswer(f: Frame): Frame
    requires f.payload.Arp?
  {
    Frame(GATEWAY_MAC, f.src, Arp(true, GATEWAY_MAC, f.payload.tpa, f.src, f.payload.spa))
  }

  predicate PingForGateway(gw: Gateway, f: Frame) {
    && f.dst == GATEWAY_MAC
    && match f.payload
       case Ipv4(src, dst, _, icmp, _) => icmp && IsUnicast4(src) && dst in gw.ips4
       case Ipv6(src, dst, _, icmp) => icmp && IsUnicast6(src) && dst in gw.ips6
       case _ => false
  }

  function PingAnswer(f: Frame): Frame
    requires f.payload.Ipv4? || f.payload.Ipv6?
  {
    Frame(GATEWAY_MAC, f.src, f.payload.(src := f.payload.dst, dst := f.payload.src))
  }

  predicate IsDhcp(f: Frame) {
    f.payload.Ipv4? && f.payload.dhcp
  }

  /**
   How often an ARP answer can itself be a question: only a frame claiming to come from the broadcast address
   asks twice.
   */
  function ArpDepth(f: Frame): nat {
    if f.dst != BROADCAST then 0 else if f.src != BROADCAST then 1 else 2
  }

  function Broadcast(at: SwitchId, p: Plane, gw: Gateway, src: Mac, f: Frame, allow: bool): Result
    decreases ArpDepth(f), 1
  {
    if ArpForGateway(gw, f) then
      ToPort(at, Snoop(p, ArpAnswer(f), None), gw, GATEWAY_MAC, f.src, ArpAnswer(f), true)
    else if IsDhcp(f) then Result(p, multiset{})
    else Result(p, LocalCopies(at, p, src, f) + if allow then PeerCopies(at, p, f) else multiset{})
  }

  function ToPort(at: SwitchId, p: Plane, gw: Gateway, src: Mac, dst: Mac, f: Frame, allow: bool): Result
    decreases ArpDepth(f), 2
  {
    if dst in p.ports then
      Result(p, PromiscuousCopies(at, p, dst, f, allow) + Send(at, p.ports[dst], dst, f, allow))
    else Broadcast(at, p, gw, src, f, allow)
  }

  // ---------------------------------------------------------------- routing between switches

  type Planes = map<SwitchId, Plane>
  type Gateways = map<SwitchId, Gateway>

  /** What a frame caused: the new state of all switches, what they sent, and the switches gateways routed it to. */
  datatype Outcome = Outcome(planes: Planes, out: multiset<Out>, hops: seq<SwitchId>)

  function HopLimit(f: Frame): nat {
    if f.payload.Ipv4? || f.payload.Ipv6? then f.payload.hop else 0
  }

  predicate IsArpType(f: Frame) {
    f.payload.Arp? || (f.payload.Junk? && f.payload.arp)
  }

  /** The first range of the first route that contains the address. */
  function FindRoute(routes: seq<Route>, v6: bool, ip: Ip): Option<(SwitchId, Range)> {
    if routes == [] then None
    else
      var here := FindRange(routes[0].cidrs, v6, ip);
      if here.Some? then Some((routes[0].via, here.value)) else FindRoute(routes[1..], v6, ip)
  }

  function FindRange(cidrs: seq<Range>, v6: bool, ip: Ip): (r: Option<Range>)
    ensures r.Some? ==> r.value in cidrs && InRange(r.value, v6, ip)
    ensures r.None? ==> forall c :: c in cidrs ==> !InRange(c, v6, ip)
  {
    if cidrs == [] then None else if InRange(cidrs[0], v6, ip) then Some(cidrs[0]) else FindRange(cidrs[1..], v6, ip)
  }

  lemma {:induction false} FindRangeIsFirst(cidrs: seq<Range>, v6: bool, ip: Ip) returns (i: nat)
    requires FindRange(cidrs, v6, ip).Some?
    ensures i < |cidrs| && cidrs[i] == FindRange(cidrs, v6, ip).value && InRange(cidrs[i], v6, ip)
    ensures forall j: nat :: j < i ==> !InRange(cidrs[j], v6, ip)
  {
    if InRange(cidrs[0], v6, ip) {
      i := 0;
    } else {
      i := FindRangeIsFirst(cidrs[1..], v6, ip);
      assert forall j: nat :: 0 < j < |cidrs| ==> cidrs[j] == cidrs[1..][j - 1];
      i := i + 1;
    }
  }

  /** The address was asked for less than five seconds, here in milliseconds, before. */
  predicate Throttled(p: Plane, ip: Ip) {
    ip in p.asked && p.now - p.asked[ip] < 5000
  }

  /** The gateway asks for the MAC of an address it has to reach, unless it has just asked for it. */
  function AskFor(at: SwitchId, p: Plane, gw: Gateway, from: Ip, ip: Ip): Result {
    if FindRange(p.cidrs, false, ip).None? || Throttled(p, ip) then Result(p, multiset{})
    else Broadcast(at, p.(asked := p.asked[ip := p.now]), gw, GATEWAY_MAC,
                   Frame(GATEWAY_MAC, BROADCAST, Arp(false, GATEWAY_MAC, from, BROADCAST, ip)), true)
  }

  function Single(planes: Planes, at: SwitchId, r: Result): Outcome {
    Outcome(planes[at := r.plane], r.out, [])
  }

  function Process(planes: Planes, gws: Gateways, at: SwitchId, f: Frame, allow: bool, peer: Option<Addr>): Outcome
    decreases HopLimit(f), 2
  {
    if at !in planes || at !in gws then Outcome(planes, multiset{}, [])
    else
      var p := Snoop(planes[at], f, peer);
      if f.dst == BROADCAST then Single(planes, at, Broadcast(at, p, gws[at], f.src, f, allow))
      else if !IsUnicastMac(f.dst) then Outcome(planes[at := p], multiset{}, [])
      else if f.dst == GATEWAY_MAC then ForGateway(planes[at := p], gws, at, f, allow)
      else Single(planes, at, ToPort(at, p, gws[at], f.src, f.dst, f, allow))
  }

  function ForGateway(planes: Planes, gws: Gateways, at: SwitchId, f: Frame, allow: bool): Outcome
    requires at in planes && at in gws
    decreases HopLimit(f), 1
  {
    var p := planes[at];
    var flood := if allow && IsArpType(f) then PeerCopies(at, p, f) else multiset{};
    if PingForGateway(gws[at], f) then
      var r := ToPort(at, Snoop(p, PingAnswer(f), None), gws[at], GATEWAY_MAC, f.src, PingAnswer(f), true);
      Outcome(planes[at := r.plane], flood + r.out, [])
    else
      var o := Outbound(planes, gws, at, f);
      o.(out := flood + o.out)
  }

  /** The frame as the gateway passes it on: one hop less, from the gateway. */
  function Forwarded(f: Frame, dst: Mac): Frame
    requires (f.payload.Ipv4? || f.payload.Ipv6?) && f.payload.hop > 0
  {
    Frame(GATEWAY_MAC, dst, f.payload.(hop := f.payload.hop - 1))
  }

  function Outbound(planes: Planes, gws: Gateways, at: SwitchId, f: Frame): Outcome
    requires at in planes && at in gws
    decreases HopLimit(f), 0
  {
    if HopLimit(f) <= 1 then Outcome(planes, multiset{}, [])
    else
      var v6, ip := f.payload.Ipv6?, f.payload.dst;
      var route := FindRoute(gws[at].routes, v6, ip);
      if route.None? || route.value.0 !in planes || route.value.0 !in gws then Outcome(planes, multiset{}, [])
      else
        var via := route.value.0;
        var cache := if v6 then planes[via].ip6 else planes[via].ip4;
        if ip !in cache && !v6 then
          Single(planes, via, AskFor(via, planes[via], gws[via], route.value.1.addr + 1, ip))
        else
          var o := Process(planes, gws, via, Forwarded(f, if ip in cache then cache[ip] else BROADCAST), true, None);
          o.(hops := [via] + o.hops)
  }

  // ---------------------------------------------------------------- hops

  /** One less than the hop limit, or none. */
  function HopBudget(f: Frame): nat {
    if HopLimit(f) > 0 then HopLimit(f) - 1 else 0
  }

  lemma {:induction false} OutboundHops(planes: Planes, gws: Gateways, at: SwitchId, f: Frame)
    requires at in planes && at in gws
    ensures |Outbound(planes, gws, at, f).hops| <= HopBudget(f)
    decreases HopLimit(f), 0
  {
    hide FindRoute, AskFor, Process;
    if HopLimit(f) > 1 {
      var v6, ip := f.payload.Ipv6?, f.payload.dst;
      var route := FindRoute(gws[at].routes, v6, ip);
      if route.Some? && route.value.0 in planes && route.value.0 in gws {
        var via := route.value.0;
        var cache := if v6 then planes[via].ip6 else planes[via].ip4;
        if ip in cache || v6 {
          HopsBounded(planes, gws, via, Forwarded(f, if ip in cache then cache[ip] else BROADCAST), true, None);
        }
      }
    }
  }

  lemma {:induction false} GatewayHops(planes: Planes, gws: Gateways, at: SwitchId, f: Frame, allow: bool)
    requires at in planes && at in gws
    ensures |ForGateway(planes, gws, at, f, allow).hops| <= HopBudget(f)
    decreases HopLimit(f), 1
  {
    hide Snoop, ToPort, PeerCopies, PingForGateway, Outbound;
    OutboundHops(planes, gws, at, f);
  }

  /**
   Whatever the routes, cycles included, and whatever has been snooped: processing a frame terminates, and
   gateways route it at most its hop limit minus one times.
   */
  lemma {:induction false} HopsBounded(planes: Planes, gws: Gateways, at: SwitchId, f: Frame, allow: bool,
                                       peer: Option<Addr>)
    ensures |Process(planes, gws, at, f, allow, peer).hops| <= HopBudget(f)
    decreases HopLimit(f), 2
  {
    hide Snoop, Broadcast, ToPort, ForGateway, IsUnicastMac;
    if at in planes && at in gws {
      GatewayHops(planes[at := Snoop(planes[at], f, peer)], gws, at, f, allow);
    }
  }

  // ---------------------------------------------------------------- what goes over the wire

  /** The frame was sent with this source, or by the gateway in its own name. */
  predicate From(o: Out, src: Mac) {
    o.frame.src == src || o.frame.src == GATEWAY_MAC
  }

  /** A frame to a peer is in the gateway's own name. */
  predicate WireIsGateways(o: Out) {
    o.Deliver? || o.frame.src == GATEWAY_MAC
  }

  lemma {:induction false} BroadcastSources(at: SwitchId, p: Plane, gw: Gateway, src: Mac, f: Frame, allow: bool)
    ensures forall o :: o in Broadcast(at, p, gw, src, f, allow).out ==>
              From(o, f.src) && (!allow ==> WireIsGateways(o))
    decreases ArpDepth(f), 1
  {
    hide Snoop;
    if ArpForGateway(gw, f) {
      ToPortSources(at, Snoop(p, ArpAnswer(f), None), gw, GATEWAY_MAC, f.src, ArpAnswer(f), true);
    }
  }

  lemma {:induction false} ToPortSources(at: SwitchId, p: Plane, gw: Gateway, src: Mac, dst: Mac, f: Frame, allow: bool)
    ensures forall o :: o in ToPort(at, p, gw, src, dst, f, allow).out ==>
              From(o, f.src) && (!allow ==> WireIsGateways(o))
    decreases ArpDepth(f), 2
  {
    if dst in p.ports {
      hide Broadcast, Ears, EarPeers;
    } else {
      BroadcastSources(at, p, gw, src, f, allow);
    }
  }

  lemma {:induction false} OutboundSources(planes: Planes, gws: Gateways, at: SwitchId, f: Frame)
    requires at in planes && at in gws
    ensures forall o :: o in Outbound(planes, gws, at, f).out ==> o.frame.src == GATEWAY_MAC
    decreases HopLimit(f), 0
  {
    hide FindRoute, Process, Broadcast;
    if HopLimit(f) > 1 {
      var v6, ip := f.payload.Ipv6?, f.payload.dst;
      var route := FindRoute(gws[at].routes, v6, ip);
      if route.Some? && route.value.0 in planes && route.value.0 in gws {
        var via := route.value.0;
        var cache := if v6 then planes[via].ip6 else planes[via].ip4;
        if ip in cache || v6 {
          ProcessSources(planes, gws, via, Forwarded(f, if ip in cache then cache[ip] else BROADCAST), true, None);
        } else {
          var ask := Frame(GATEWAY_MAC, BROADCAST, Arp(false, GATEWAY_MAC, route.value.1.addr + 1, BROADCAST, ip));
          var asking := planes[via].(asked := planes[via].asked[ip := planes[via].now]);
          BroadcastSources(via, asking, gws[via], GATEWAY_MAC, ask, true);
        }
      }
    }
  }

  /**
   Every frame sent keeps its source or is in the gateway's name; and a frame that came from a peer is never
   sent on to a peer, only what the gateway answers or routes in its own name is.
   */
  lemma {:induction false} ProcessSources(planes: Planes, gws: Gateways, at: SwitchId, f: Frame, allow: bool,
                                          peer: Option<Addr>)
    ensures forall o :: o in Process(planes, gws, at, f, allow, peer).out ==>
              From(o, f.src) && (!allow ==> WireIsGateways(o))
    decreases HopLimit(f), 2
  {
    hide Snoop, Broadcast, ToPort, Outbound, IsUnicastMac, PeerCopies;
    if at in planes && at in gws {
      var p := Snoop(planes[at], f, peer);
      BroadcastSources(at, p, gws[at], f.src, f, allow);
      ToPortSources(at, p, gws[at], f.src, f.dst, f, allow);
      if f.dst == GATEWAY_MAC {
        GatewaySources(planes[at := p], gws, at, f, allow);
      }
    }
  }

  lemma {:induction false} GatewaySources(planes: Planes, gws: Gateways, at: SwitchId, f: Frame, allow: bool)
    requires at in planes && at in gws
    ensures forall o :: o in ForGateway(planes, gws, at, f, allow).out ==>
              From(o, f.src) && (!allow ==> WireIsGateways(o))
    decreases HopLimit(f), 1
  {
    hide Snoop, ToPort, Outbound;
    OutboundSources(planes, gws, at, f);
    if PingForGateway(gws[at], f) {
      ToPortSources(at, Snoop(planes[at], PingAnswer(f), None), gws[at], GATEWAY_MAC, f.src, PingAnswer(f), true);
    }
  }

  lemma QuietBroadcast(at: SwitchId, p: Plane, gw: Gateway, src: Mac, f: Frame)
    requires !ArpForGateway(gw, f)
    ensures forall o :: o in Broadcast(at, p, gw, src, f, false).out ==> o.Deliver?
  {
  }

  lemma QuietToPort(at: SwitchId, p: Plane, gw: Gateway, src: Mac, dst: Mac, f: Frame)
    requires !ArpForGateway(gw, f)
    ensures forall o :: o in ToPort(at, p, gw, src, dst, f, false).out ==> o.Deliver?
  {
    hide Broadcast, Ears, EarPeers;
    QuietBroadcast(at, p, gw, src, f);
  }

  /** A peer's frame that is not for the gateway puts nothing at all on the wire. */
  lemma PeerFrameStaysLocal(planes: Planes, gws: Gateways, at: SwitchId, f: Frame, peer: Addr)
    requires at in planes && at in gws
    requires f.dst != GATEWAY_MAC && !ArpForGateway(gws[at], f)
    ensures forall o :: o in Process(planes, gws, at, f, false, Some(peer)).out ==> o.Deliver?
  {
    hide Snoop, IsUnicastMac, Broadcast, ToPort, ArpForGateway;
    var p := Snoop(planes[at], f, Some(peer));
    QuietBroadcast(at, p, gws[at], f.src, f);
    QuietToPort(at, p, gws[at], f.src, f.dst, f);
  }

  /** Something goes to another switch. */
  predicate GoesOut(out: multiset<Out>) {
    exists o :: o in out && !o.Deliver?
  }

  /**
   Where a frame of the gateway to this MAC goes: to a peer it is behind, to peers that listen in, or to all
   peers.
   */
  predicate Leaves(p: Plane, mac: Mac) {
    if mac in p.ports then !IsLocal(p.ports[mac]) || EarPeers(p, mac) != {} else p.peers != map[]
  }

  lemma ToPortLeavesIff(at: SwitchId, p: Plane, gw: Gateway, src: Mac, dst: Mac, f: Frame)
    requires !ArpForGateway(gw, f)
    ensures GoesOut(ToPort(at, p, gw, src, dst, f, true).out) <==> Leaves(p, dst) && (dst in p.ports || !IsDhcp(f))
  {
    hide ArpForGateway, EarPeers, Ears;
    var out := ToPort(at, p, gw, src, dst, f, true).out;
    if dst in p.ports {
      if !IsLocal(p.ports[dst]) {
        assert Wire(at, p.ports[dst].addr, f) in out;
      } else if EarPeers(p, dst) != {} {
        var a :| a in EarPeers(p, dst);
        assert Wire(at, a, f) in out;
      }
    } else if p.peers != map[] && !IsDhcp(f) {
      assert p.peers.Keys != {};
      var k :| k in p.peers;
      assert Flood(at, k, p.peers[k], f) in PeerCopies(at, p, f);
      assert Flood(at, k, p.peers[k], f) in out;
    }
  }

  /** Whom the answer to an ARP request goes to; one that claims to come from everybody may be a request itself. */
  function Asker(gw: Gateway, p: Plane, f: Frame): Mac
    requires f.payload.Arp?
  {
    if f.src == BROADCAST && BROADCAST !in p.ports && f.payload.spa in gw.ips4 then GATEWAY_MAC else f.src
  }

  /**
   Exactly when a peer's ARP request for the gateway puts something on the wire, although frames of peers may
   not be sent on: the answer to it may.
   */
  lemma ArpFromPeerLeavesIff(planes: Planes, gws: Gateways, at: SwitchId, f: Frame, peer: Addr)
    requires at in planes && at in gws && ArpForGateway(gws[at], f)
    ensures var p := Snoop(planes[at], f, Some(peer));
            GoesOut(Process(planes, gws, at, f, false, Some(peer)).out) <==> Leaves(p, Asker(gws[at], p, f))
  {
    hide Snoop, ToPort, Leaves, GoesOut;
    var p, gw, answer := Snoop(planes[at], f, Some(peer)), gws[at], ArpAnswer(f);
    SnoopAnswer(p, f);
    if ArpForGateway(gw, answer) && BROADCAST !in p.ports {
      var again := ArpAnswer(answer);
      SnoopAnswer(p, answer);
      ToPortLeavesIff(at, p, gw, GATEWAY_MAC, GATEWAY_MAC, again);
      AskedAgain(at, p, gw, GATEWAY_MAC, answer);
    } else if ArpForGateway(gw, answer) {
      KnownPortLeavesIff(at, p, gw, GATEWAY_MAC, f.src, answer);
    } else {
      ToPortLeavesIff(at, p, gw, GATEWAY_MAC, f.src, answer);
    }
  }

  lemma SnoopAnswer(p: Plane, f: Frame)
    requires f.payload.Arp?
    ensures Snoop(p, ArpAnswer(f), None) == p
  {
  }

  lemma AskedAgain(at: SwitchId, p: Plane, gw: Gateway, src: Mac, f: Frame)
    requires ArpForGateway(gw, f) && BROADCAST !in p.ports && Snoop(p, ArpAnswer(f), None) == p
    ensures ToPort(at, p, gw, src, BROADCAST, f, true) == ToPort(at, p, gw, GATEWAY_MAC, f.src, ArpAnswer(f), true)
  {
    hide Snoop;
  }

  lemma KnownPortLeavesIff(at: SwitchId, p: Plane, gw: Gateway, src: Mac, dst: Mac, f: Frame)
    requires dst in p.ports
    ensures GoesOut(ToPort(at, p, gw, src, dst, f, true).out) <==> Leaves(p, dst)
  {
    hide Broadcast, EarPeers, Ears;
    var out := ToPort(at, p, gw, src, dst, f, true).out;
    if !IsLocal(p.ports[dst]) {
      assert Wire(at, p.ports[dst].addr, f) in out;
    } else if EarPeers(p, dst) != {} {
      var a :| a in EarPeers(p, dst);
      assert Wire(at, a, f) in out;
    }
  }

  /** Exactly when a peer's ping for the gateway does. */
  lemma PingFromPeerLeavesIff(planes: Planes, gws: Gateways, at: SwitchId, f: Frame, peer: Addr)
    requires at in planes && at in gws && PingForGateway(gws[at], f)
    ensures var p := Snoop(planes[at], f, Some(peer));
            GoesOut(Process(planes, gws, at, f, false, Some(peer)).out) <==>
            Leaves(p, f.src) && (f.src in p.ports || !IsDhcp(f))
  {
    hide Snoop, ToPort, GoesOut, EarPeers, Ears;
    var p := Snoop(planes[at], f, Some(peer));
    var q := Snoop(p, PingAnswer(f), None);
    SnoopKeepsTable(p, PingAnswer(f));
    ToPortLeavesIff(at, q, gws[at], GATEWAY_MAC, f.src, PingAnswer(f));
    SameEars(p, q, f.src);
    var r := ToPort(at, q, gws[at], GATEWAY_MAC, f.src, PingAnswer(f), true);
    assert Process(planes, gws, at, f, false, Some(peer)).out == multiset{} + r.out;
    assert multiset{} + r.out == r.out;
  }

  /** Exactly when the gateway's ARP request for an address at a switch goes to another. */
  predicate AskLeaves(q: Plane, gw: Gateway, ip: Ip) {
    FindRange(q.cidrs, false, ip).Some? && !Throttled(q, ip) &&
    if ip in gw.ips4 then Leaves(q, GATEWAY_MAC) else q.peers != map[]
  }

  /** Where the gateway of the switch at `at` routes a frame to, if to any switch. */
  function RouteOf(planes: Planes, gws: Gateways, at: SwitchId, f: Frame): Option<SwitchId>
    requires at in gws
  {
    if HopLimit(f) <= 1 then None
    else
      var route := FindRoute(gws[at].routes, f.payload.Ipv6?, f.payload.dst);
      if route.Some? && route.value.0 in planes && route.value.0 in gws then Some(route.value.0) else None
  }

  /** The MAC a switch has learned for the destination of a frame. */
  function CachedMac(q: Plane, f: Frame): Option<Mac>
    requires f.payload.Ipv4? || f.payload.Ipv6?
  {
    var cache := if f.payload.Ipv6? then q.ip6 else q.ip4;
    if f.payload.dst in cache then Some(cache[f.payload.dst]) else None
  }

  /** Exactly when a routed frame goes on from the switch it is routed to, unless that hands it to its own gateway. */
  predicate RoutedLeaves(q: Plane, gw: Gateway, f: Frame)
    requires f.payload.Ipv4? || f.payload.Ipv6?
  {
    var mac := CachedMac(q, f);
    if mac.None? && f.payload.Ipv4? then AskLeaves(q, gw, f.payload.dst)
    else if mac.None? || mac.value == BROADCAST then q.peers != map[] && !IsDhcp(f)
    else IsUnicastMac(mac.value) && Leaves(q, mac.value) && (mac.value in q.ports || !IsDhcp(f))
  }

  /**
   Exactly when a peer's frame for the gateway that is no ping puts something on the wire: the gateway has a
   route for it to a switch from which it goes on.  A frame the route's switch hands to its own gateway is a
   frame for that gateway.
   */
  lemma RoutedFromPeerLeavesIff(planes: Planes, gws: Gateways, at: SwitchId, f: Frame, peer: Addr)
    requires at in planes && at in gws && f.dst == GATEWAY_MAC && !PingForGateway(gws[at], f)
    ensures var after := planes[at := Snoop(planes[at], f, Some(peer))];
            var via, out := RouteOf(after, gws, at, f), Process(planes, gws, at, f, false, Some(peer)).out;
            && (via.None? ==> !GoesOut(out))
            && (via.Some? && CachedMac(after[via.value], f) != Some(GATEWAY_MAC) ==>
                  (GoesOut(out) <==> RoutedLeaves(after[via.value], gws[via.value], f)))
  {
    hide Snoop, GoesOut, FindRoute, Outbound, RoutedLeaves, CachedMac;
    var after := planes[at := Snoop(planes[at], f, Some(peer))];
    var o := Outbound(after, gws, at, f);
    assert Process(planes, gws, at, f, false, Some(peer)).out == multiset{} + o.out;
    assert multiset{} + o.out == o.out;
    OutboundLeavesIff(after, gws, at, f);
  }

  lemma OutboundLeavesIff(planes: Planes, gws: Gateways, at: SwitchId, f: Frame)
    requires at in planes && at in gws
    ensures var via, out := RouteOf(planes, gws, at, f), Outbound(planes, gws, at, f).out;
            && (via.None? ==> !GoesOut(out))
            && (via.Some? && CachedMac(planes[via.value], f) != Some(GATEWAY_MAC) ==>
                  (GoesOut(out) <==> RoutedLeaves(planes[via.value], gws[via.value], f)))
  {
    hide FindRoute, Process, Leaves, AskFor, AskLeaves;
    var via := RouteOf(planes, gws, at, f);
    if via.Some? {
      var route := FindRoute(gws[at].routes, f.payload.Ipv6?, f.payload.dst);
      var q, gw, mac := planes[via.value], gws[via.value], CachedMac(planes[via.value], f);
      if mac.None? && f.payload.Ipv4? {
        AskLeavesIff(via.value, q, gw, route.value.1.addr + 1, f.payload.dst);
      } else {
        var dst := if mac.Some? then mac.value else BROADCAST;
        if dst != GATEWAY_MAC {
          ForwardedLeavesIff(planes, gws, via.value, Forwarded(f, dst));
        }
      }
    }
  }

  lemma AskLeavesIff(at: SwitchId, q: Plane, gw: Gateway, from: Ip, ip: Ip)
    ensures GoesOut(AskFor(at, q, gw, from, ip).out) <==> AskLeaves(q, gw, ip)
  {
    hide ToPort, Snoop, EarPeers, Ears;
    if FindRange(q.cidrs, false, ip).Some? && !Throttled(q, ip) {
      var p := q.(asked := q.asked[ip := q.now]);
      var f := Frame(GATEWAY_MAC, BROADCAST, Arp(false, GATEWAY_MAC, from, BROADCAST, ip));
      SameEars(q, p, GATEWAY_MAC);
      if ip in gw.ips4 {
        SnoopAnswer(p, f);
        ToPortLeavesIff(at, p, gw, GATEWAY_MAC, GATEWAY_MAC, ArpAnswer(f));
      } else {
        FloodLeavesIff(at, p, gw, f);
      }
    }
  }

  /** An address that has been asked for is asked for again once five seconds have passed, and no sooner. */
  lemma AskedAgainIff(at: SwitchId, p: Plane, gw: Gateway, from: Ip, ip: Ip, later: int)
    requires FindRange(p.cidrs, false, ip).Some? && !Throttled(p, ip)
    ensures var q := AskFor(at, p, gw, from, ip).plane.(now := later);
            && (later - p.now < 5000 ==> AskFor(at, q, gw, from, ip) == Result(q, multiset{}))
            && (later - p.now >= 5000 ==> AskFor(at, q, gw, from, ip).plane.asked == q.asked[ip := later])
  {
    hide FindRange, ToPort, Snoop;
    var f := Frame(GATEWAY_MAC, BROADCAST, Arp(false, GATEWAY_MAC, from, BROADCAST, ip));
    BroadcastKeepsAsked(at, p.(asked := p.asked[ip := p.now]), gw, GATEWAY_MAC, f);
    var q := AskFor(at, p, gw, from, ip).plane.(now := later);
    BroadcastKeepsAsked(at, q.(asked := q.asked[ip := later]), gw, GATEWAY_MAC, f);
  }

  lemma {:induction false} BroadcastKeepsAsked(at: SwitchId, p: Plane, gw: Gateway, src: Mac, f: Frame)
    ensures var q := Broadcast(at, p, gw, src, f, true).plane;
            q.asked == p.asked && q.cidrs == p.cidrs && q.now == p.now
    decreases ArpDepth(f)
  {
    hide Snoop;
    if ArpForGateway(gw, f) {
      SnoopKeepsTable(p, ArpAnswer(f));
      BroadcastKeepsAsked(at, Snoop(p, ArpAnswer(f), None), gw, GATEWAY_MAC, ArpAnswer(f));
    }
  }

  lemma FloodLeavesIff(at: SwitchId, p: Plane, gw: Gateway, f: Frame)
    requires !ArpForGateway(gw, f)
    ensures GoesOut(Broadcast(at, p, gw, f.src, f, true).out) <==> p.peers != map[] && !IsDhcp(f)
  {
    hide ArpForGateway;
    if p.peers != map[] && !IsDhcp(f) {
      assert p.peers.Keys != {};
      var k :| k in p.peers;
      assert Flood(at, k, p.peers[k], f) in PeerCopies(at, p, f);
      assert Flood(at, k, p.peers[k], f) in Broadcast(at, p, gw, f.src, f, true).out;
    }
  }

  /** A frame of the gateway's that a switch does not hand to its own gateway. */
  lemma ForwardedLeavesIff(planes: Planes, gws: Gateways, at: SwitchId, f: Frame)
    requires at in planes && at in gws && f.dst != GATEWAY_MAC && !f.payload.Arp?
    ensures GoesOut(Process(planes, gws, at, f, true, None).out) <==>
            if f.dst == BROADCAST then planes[at].peers != map[] && !IsDhcp(f)
            else IsUnicastMac(f.dst) && Leaves(planes[at], f.dst) && (f.dst in planes[at].ports || !IsDhcp(f))
  {
    hide Snoop, ToPort, Broadcast, EarPeers, Ears, IsUnicastMac;
    var p := Snoop(planes[at], f, None);
    SnoopKeepsTable(planes[at], f);
    SameEars(planes[at], p, f.dst);
    FloodLeavesIff(at, p, gws[at], f);
    ToPortLeavesIff(at, p, gws[at], f.src, f.dst, f);
  }

  lemma SnoopKeepsTable(p: Plane, f: Frame)
    ensures var q := Snoop(p, f, None);
            && q.ports == p.ports && q.peers == p.peers && q.promiscuous == p.promiscuous
            && q.asked == p.asked && q.cidrs == p.cidrs && q.now == p.now
  {
  }

  lemma SameEars(p: Plane, q: Plane, mac: Mac)
    requires q.ports == p.ports && q.promiscuous == p.promiscuous
    ensures EarPeers(p, mac) == EarPeers(q, mac)
  {
    assert Ears(p, mac) == Ears(q, mac);
  }

  /** A peer's host that asks for the gateway in its own name is always answered over the wire. */
  lemma {:induction false} ArpFromPeerIsAnswered(planes: Planes, gws: Gateways, at: SwitchId, f: Frame, peer: Addr)
    requires at in planes && at in gws && ArpForGateway(gws[at], f)
    requires Captures(f, f.src)
    ensures Wire(at, peer, ArpAnswer(f)) in Process(planes, gws, at, f, false, Some(peer)).out
  {
    hide PromiscuousCopies, Snoop, ToPort;
    var p := Snoop(planes[at], f, Some(peer));
    SnoopAnswer(p, f);
    CapturedPort(planes[at], f, peer);
    SentToPeer(at, p, gws[at], GATEWAY_MAC, f.src, ArpAnswer(f));
    assert Process(planes, gws, at, f, false, Some(peer)).out == Broadcast(at, p, gws[at], f.src, f, false).out;
  }

  lemma CapturedPort(p: Plane, f: Frame, peer: Addr)
    requires Captures(f, f.src)
    ensures var ports := Snoop(p, f, Some(peer)).ports;
            f.src in ports && ports[f.src] == PeerSwitch(peer)
  {
  }

  lemma {:induction false} SentToPeer(at: SwitchId, p: Plane, gw: Gateway, src: Mac, dst: Mac, f: Frame)
    requires dst in p.ports && !IsLocal(p.ports[dst])
    ensures Wire(at, p.ports[dst].addr, f) in ToPort(at, p, gw, src, dst, f, true).out
  {
    hide PromiscuousCopies;
    assert ToPort(at, p, gw, src, dst, f, true).out ==
           PromiscuousCopies(at, p, dst, f, true) + multiset{Wire(at, p.ports[dst].addr, f)};
  }

  /** Host 5, behind the peer at 7, asks the switch at 0 for the gateway 1: a frame from a peer goes on to a peer. */
  lemma PeerFrameLeavesExample()
    ensures var plane := Plane(map[], {}, map[], [], map[], map[], map[], map[], map[], 0);
            var f := Frame(5, BROADCAST, Arp(false, 5, 2, 0, 1));
            Wire(0, 7, ArpAnswer(f)) in
              Process(map[0 := plane], map[0 := Gateway({1}, {}, [])], 0, f, false, Some(7)).out
  {
    var plane := Plane(map[], {}, map[], [], map[], map[], map[], map[], map[], 0);
    var f := Frame(5, BROADCAST, Arp(false, 5, 2, 0, 1));
    ArpFromPeerIsAnswered(map[0 := plane], map[0 := Gateway({1}, {}, [])], 0, f, 7);
  }

  // ---------------------------------------------------------------- where a unicast frame goes

  /** Port m gets frames to dst: it is their destination, or listens in. */
  predicate Hears(p: Plane, dst: Mac, m: Mac) {
    m in p.ports && (m == dst || m in p.promiscuous)
  }

  /** A broadcast gives one copy to each port here but the sender's, and one to each peer if frames may go on. */
  function EverywhereCount(p: Plane, at: SwitchId, f: Frame, allow: bool, o: Out): nat {
    if o.at != at || o.frame != f || IsDhcp(f) then 0
    else
      match o
      case Deliver(_, m, _) => if m in p.ports && m != f.src && !p.ports[m].PeerSwitch? then 1 else 0
      case Wire(_, _, _) => 0
      case Flood(_, k, a, _) => if allow && k in p.peers && p.peers[k] == a then 1 else 0
  }

  /**
   How many copies of a unicast frame a switch sends where.  To a known port: one to it and to each promiscuous
   port here, and one to each peer behind which there is such a port, if frames may go on.  To an unknown one: as
   a broadcast.
   */
  function UnicastCount(p: Plane, at: SwitchId, f: Frame, allow: bool, o: Out): nat {
    if o.at != at || o.frame != f then 0
    else if f.dst in p.ports then
      match o
      case Deliver(_, m, _) => if Hears(p, f.dst, m) && !p.ports[m].PeerSwitch? then 1 else 0
      case Wire(_, a, _) => if allow && exists m :: m in p.ports && Hears(p, f.dst, m) && p.ports[m] == PeerSwitch(a)
                            then 1 else 0
      case Flood(_, _, _, _) => 0
    else EverywhereCount(p, at, f, allow, o)
  }

  lemma SameCount(p: Plane, q: Plane, at: SwitchId, f: Frame, allow: bool, o: Out)
    requires q.ports == p.ports && q.promiscuous == p.promiscuous && q.peers == p.peers
    ensures UnicastCount(q, at, f, allow, o) == UnicastCount(p, at, f, allow, o)
  {
  }

  lemma EarPeersAre(p: Plane, dst: Mac, a: Addr)
    requires dst in p.ports
    ensures a in EarPeers(p, dst) || p.ports[dst] == PeerSwitch(a) <==>
            exists m :: m in p.ports && Hears(p, dst, m) && p.ports[m] == PeerSwitch(a)
    ensures !(a in EarPeers(p, dst) && p.ports[dst] == PeerSwitch(a))
  {
    if a in EarPeers(p, dst) {
      var m :| m in Ears(p, dst) && !IsLocal(p.ports[m]) && p.ports[m].addr == a;
      assert Hears(p, dst, m);
    }
    if p.ports[dst] == PeerSwitch(a) {
      assert Hears(p, dst, dst);
    }
    if m :| m in p.ports && Hears(p, dst, m) && p.ports[m] == PeerSwitch(a) {
      assert m == dst || m in Ears(p, dst);
    }
  }

  lemma KnownPortCounted(at: SwitchId, p: Plane, gw: Gateway, src: Mac, f: Frame, allow: bool, o: Out)
    requires f.dst in p.ports
    ensures ToPort(at, p, gw, src, f.dst, f, allow).out[o] == UnicastCount(p, at, f, allow, o)
  {
    hide Broadcast, EarPeers;
    if o.Wire? {
      EarPeersAre(p, f.dst, o.addr);
    }
    PromiscuousCounted(at, p, f.dst, f, allow, o);
  }

  lemma PromiscuousCounted(at: SwitchId, p: Plane, dst: Mac, f: Frame, allow: bool, o: Out)
    ensures PromiscuousCopies(at, p, dst, f, allow)[o] ==
            if o.Deliver? && o == Deliver(at, o.mac, f) && o.mac in Ears(p, dst) && IsLocal(p.ports[o.mac]) then 1
            else if o.Wire? && o == Wire(at, o.addr, f) && allow && o.addr in EarPeers(p, dst) then 1
            else 0
  {
    hide EarPeers;
    var here := set m | m in Ears(p, dst) && IsLocal(p.ports[m]) :: Deliver(at, m, f);
    var there := set a | a in EarPeers(p, dst) :: Wire(at, a, f);
    assert PromiscuousCopies(at, p, dst, f, allow) == multiset(here) + if allow then multiset(there) else multiset{};
  }

  lemma LocalCounted(at: SwitchId, p: Plane, src: Mac, f: Frame, o: Out)
    ensures LocalCopies(at, p, src, f)[o] ==
            if o.Deliver? && o == Deliver(at, o.mac, f) && o.mac in p.ports && o.mac != src && IsLocal(p.ports[o.mac])
            then 1 else 0
  {
    var here := set m | m in p.ports && m != src && IsLocal(p.ports[m]) :: Deliver(at, m, f);
    assert LocalCopies(at, p, src, f) == multiset(here);
  }

  lemma PeersCounted(at: SwitchId, p: Plane, f: Frame, o: Out)
    ensures PeerCopies(at, p, f)[o] ==
            if o.Flood? && o.key in p.peers && o == Flood(at, o.key, p.peers[o.key], f) then 1 else 0
  {
    var there := set k | k in p.peers :: Flood(at, k, p.peers[k], f);
    assert PeerCopies(at, p, f) == multiset(there);
  }

  lemma BroadcastCounted(at: SwitchId, p: Plane, gw: Gateway, f: Frame, allow: bool, o: Out)
    requires !ArpForGateway(gw, f)
    ensures Broadcast(at, p, gw, f.src, f, allow).out[o] == EverywhereCount(p, at, f, allow, o)
  {
    hide ArpForGateway, LocalCopies, PeerCopies;
    LocalCounted(at, p, f.src, f, o);
    PeersCounted(at, p, f, o);
  }

  lemma UnknownPortCounted(at: SwitchId, p: Plane, gw: Gateway, f: Frame, allow: bool, o: Out)
    requires f.dst !in p.ports && !ArpForGateway(gw, f)
    ensures ToPort(at, p, gw, f.src, f.dst, f, allow).out[o] == UnicastCount(p, at, f, allow, o)
  {
    hide Broadcast, ArpForGateway;
    BroadcastCounted(at, p, gw, f, allow, o);
  }

  lemma ToPortCounted(at: SwitchId, p: Plane, gw: Gateway, f: Frame, allow: bool, o: Out)
    requires f.dst in p.ports || !ArpForGateway(gw, f)
    ensures ToPort(at, p, gw, f.src, f.dst, f, allow).out[o] == UnicastCount(p, at, f, allow, o)
  {
    hide ToPort, UnicastCount, ArpForGateway;
    if f.dst in p.ports {
      KnownPortCounted(at, p, gw, f.src, f, allow, o);
    } else {
      UnknownPortCounted(at, p, gw, f, allow, o);
    }
  }

  /** The exact copies of every unicast frame that is not for the gateway, whoever it comes from. */
  lemma UnicastIsCounted(planes: Planes, gws: Gateways, at: SwitchId, f: Frame, allow: bool, peer: Option<Addr>, o: Out)
    requires at in planes && at in gws && IsUnicastMac(f.dst) && f.dst != GATEWAY_MAC
    ensures var out := Process(planes, gws, at, f, allow, peer).out;
            && out[o] == UnicastCount(Snoop(planes[at], f, peer), at, f, allow, o)
            && (peer.None? ==> out[o] == UnicastCount(planes[at], at, f, allow, o))
  {
    hide Snoop, ToPort, Broadcast, UnicastCount, ForGateway;
    assert f.dst != BROADCAST;
    ToPortCounted(at, Snoop(planes[at], f, peer), gws[at], f, allow, o);
    if peer.None? {
      SnoopKeepsTable(planes[at], f);
      SameCount(planes[at], Snoop(planes[at], f, None), at, f, allow, o);
    }
  }

  /** A frame between two ports of one switch with no promiscuous port reaches its destination and nobody else. */
  lemma LocalFrameArrives(planes: Planes, gws: Gateways, at: SwitchId, f: Frame, allow: bool)
    requires at in planes && at in gws && IsUnicastMac(f.dst) && f.dst != GATEWAY_MAC
    requires f.dst in planes[at].ports && IsLocal(planes[at].ports[f.dst]) && planes[at].promiscuous == {}
    ensures Process(planes, gws, at, f, allow, None).out == multiset{Deliver(at, f.dst, f)}
  {
    hide Process, IsUnicastMac;
    forall o
      ensures Process(planes, gws, at, f, allow, None).out[o] == multiset{Deliver(at, f.dst, f)}[o]
    {
      UnicastIsCounted(planes, gws, at, f, allow, None, o);
    }
  }

  lemma PeerFrameArrives(planes: Planes, gws: Gateways, at: SwitchId, f: Frame, peer: Addr)
    requires at in planes && at in gws && IsUnicastMac(f.dst) && f.dst != GATEWAY_MAC
    requires f.dst in planes[at].ports && IsLocal(planes[at].ports[f.dst]) && planes[at].promiscuous == {}
    requires f.src != f.dst && !Captures(f, f.dst)
    ensures Process(planes, gws, at, f, false, Some(peer)).out == multiset{Deliver(at, f.dst, f)}
  {
    hide Process, IsUnicastMac, Snoop, Captures;
    SnoopedPort(planes[at], f, Some(peer), f.dst);
    SnoopKeepsMarks(planes[at], f, Some(peer));
    forall o
      ensures Process(planes, gws, at, f, false, Some(peer)).out[o] == multiset{Deliver(at, f.dst, f)}[o]
    {
      UnicastIsCounted(planes, gws, at, f, false, Some(peer), o);
    }
  }

  lemma SnoopKeepsMarks(p: Plane, f: Frame, peer: Option<Addr>)
    ensures Snoop(p, f, peer).promiscuous == p.promiscuous
  {
    hide Snoop;
    var heard, mac, before := SnoopIsHeard(p, f, peer);
  }

  lemma RemoteFrameLeaves(planes: Planes, gws: Gateways, at: SwitchId, f: Frame)
    requires at in planes && at in gws && IsUnicastMac(f.dst) && f.dst != GATEWAY_MAC
    requires f.dst in planes[at].ports && !IsLocal(planes[at].ports[f.dst]) && planes[at].promiscuous == {}
    ensures Process(planes, gws, at, f, true, None).out == multiset{Wire(at, planes[at].ports[f.dst].addr, f)}
  {
    hide Process, IsUnicastMac;
    var d := planes[at].ports[f.dst].addr;
    assert Hears(planes[at], f.dst, f.dst);
    forall o
      ensures Process(planes, gws, at, f, true, None).out[o] == multiset{Wire(at, d, f)}[o]
    {
      UnicastIsCounted(planes, gws, at, f, true, None, o);
    }
  }

  /**
   A frame to a port of another switch, entering where that port is known to be behind its switch, crosses the
   wire once and is given to that port, once, and to no other.
   */
  lemma RemoteFrameArrives(mesh: Mesh, gws: Gateways, s: Addr, d: Addr, f: Frame)
    requires s in mesh && d in mesh && s != d && s in gws && d in gws
    requires IsUnicastMac(f.dst) && f.dst != GATEWAY_MAC && f.src != f.dst && !Captures(f, f.dst)
    requires f.dst in mesh[s].ports && mesh[s].ports[f.dst] == PeerSwitch(d) && mesh[s].promiscuous == {}
    requires f.dst in mesh[d].ports && IsLocal(mesh[d].ports[f.dst]) && mesh[d].promiscuous == {}
    ensures Entered(mesh, gws, s, f).traffic == multiset{Wire(s, d, f)}
    ensures Relay(gws, Entered(mesh, gws, s, f), Wire(s, d, f)).traffic == multiset{Deliver(d, f.dst, f)}
  {
    hide Process, IsUnicastMac, Captures;
    RemoteFrameLeaves(mesh, gws, s, f);
    var net := Entered(mesh, gws, s, f);
    UnicastElsewhere(mesh, gws, s, f, d);
    PeerFrameArrives(net.planes, gws, d, f, s);
    assert net.traffic - multiset{Wire(s, d, f)} == multiset{};
    assert multiset{} + multiset{Deliver(d, f.dst, f)} == multiset{Deliver(d, f.dst, f)};
  }

  lemma UnicastElsewhere(mesh: Mesh, gws: Gateways, s: Addr, f: Frame, d: Addr)
    requires s in mesh && s in gws && d in mesh && d != s && IsUnicastMac(f.dst) && f.dst != GATEWAY_MAC
    ensures var planes := Process(mesh, gws, s, f, true, None).planes;
            d in planes && planes[d] == mesh[d]
  {
    hide ToPort, Snoop, Broadcast;
  }

  /** An ICMP packet of a host to one of the gateway's own addresses. */
  predicate ToGatewayItself(gw: Gateway, f: Frame) {
    && f.dst == GATEWAY_MAC && (f.payload.Ipv4? || f.payload.Ipv6?) && f.payload.icmp
    && f.payload.dst in (if f.payload.Ipv4? then gw.ips4 else gw.ips6)
    && if f.payload.Ipv4? then IsUnicast4(f.payload.src) else IsUnicast6(f.payload.src)
  }

  lemma PingIff(gw: Gateway, f: Frame)
    ensures PingForGateway(gw, f) <==> ToGatewayItself(gw, f)
  {
  }

  /** The gateway's answer to a ping says who asked whom the other way round, and goes to the asker. */
  lemma PingIsAnswered(planes: Planes, gws: Gateways, at: SwitchId, f: Frame, allow: bool, peer: Option<Addr>, o: Out)
    requires at in planes && at in gws && ToGatewayItself(gws[at], f)
    ensures var answer := PingAnswer(f);
            && answer.src == GATEWAY_MAC && answer.dst == f.src
            && answer.payload.src == f.payload.dst && answer.payload.dst == f.payload.src
            && answer.payload.(src := f.payload.src, dst := f.payload.dst) == f.payload
            && Process(planes, gws, at, f, allow, peer).out[o] ==
               UnicastCount(Snoop(planes[at], f, peer), at, answer, true, o)
  {
    hide Snoop, ToPort, UnicastCount, Outbound;
    PingIff(gws[at], f);
    var p, answer := Snoop(planes[at], f, peer), PingAnswer(f);
    SnoopKeepsTable(p, answer);
    ToPortCounted(at, Snoop(p, answer, None), gws[at], answer, true, o);
    SameCount(p, Snoop(p, answer, None), at, answer, true, o);
  }

  /** And so does its answer to an ARP request, but for a request in everybody's name. */
  lemma ArpIsAnswered(planes: Planes, gws: Gateways, at: SwitchId, f: Frame, allow: bool, peer: Option<Addr>, o: Out)
    requires at in planes && at in gws && ArpForGateway(gws[at], f)
    requires f.src != BROADCAST || f.payload.spa !in gws[at].ips4
    ensures var answer := Frame(GATEWAY_MAC, f.src, Arp(true, GATEWAY_MAC, f.payload.tpa, f.src, f.payload.spa));
            Process(planes, gws, at, f, allow, peer).out[o] ==
            UnicastCount(Snoop(planes[at], f, peer), at, answer, true, o)
  {
    hide Snoop, ToPort, UnicastCount;
    var p := Snoop(planes[at], f, peer);
    SnoopAnswer(p, f);
    ToPortCounted(at, p, gws[at], ArpAnswer(f), true, o);
  }

  /** A frame of ARP type for the gateway goes to each peer once, if it may, and nowhere else; other junk nowhere. */
  lemma GatewayArpFloods(planes: Planes, gws: Gateways, at: SwitchId, f: Frame, allow: bool, peer: Option<Addr>, o: Out)
    requires at in planes && at in gws && f.dst == GATEWAY_MAC && (f.payload.Arp? || f.payload.Junk?)
    ensures Process(planes, gws, at, f, allow, peer).out[o] ==
            if allow && !(f.payload.Junk? && !f.payload.arp) && o.Flood? && o.key in planes[at].peers &&
               o == Flood(at, o.key, planes[at].peers[o.key], f) then 1 else 0
  {
    hide Snoop;
    var p := Snoop(planes[at], f, peer);
    assert p.peers == planes[at].peers by {
      var heard, mac, before := SnoopIsHeard(planes[at], f, peer);
    }
    NotRouted(planes, gws, at, f, allow, peer);
    PeersCounted(at, p, f, o);
  }

  lemma NotRouted(planes: Planes, gws: Gateways, at: SwitchId, f: Frame, allow: bool, peer: Option<Addr>)
    requires at in planes && at in gws && f.dst == GATEWAY_MAC && (f.payload.Arp? || f.payload.Junk?)
    ensures Process(planes, gws, at, f, allow, peer).out ==
            if allow && IsArpType(f) then PeerCopies(at, Snoop(planes[at], f, peer), f) else multiset{}
  {
    hide Snoop, PeerCopies;
    var after := planes[at := Snoop(planes[at], f, peer)];
    var flood := if allow && IsArpType(f) then PeerCopies(at, after[at], f) else multiset{};
    assert Outbound(after, gws, at, f).out == multiset{};
    assert ForGateway(after, gws, at, f, allow).out == flood + multiset{};
    assert flood + multiset{} == flood;
  }

  lemma {:induction false} BroadcastLearnsNothing(at: SwitchId, p: Plane, gw: Gateway, src: Mac, f: Frame, allow: bool)
    ensures Broadcast(at, p, gw, src, f, allow).plane == p
    decreases ArpDepth(f)
  {
    hide Snoop;
    if ArpForGateway(gw, f) {
      SnoopAnswer(p, f);
      BroadcastLearnsNothing(at, p, gw, GATEWAY_MAC, ArpAnswer(f), true);
    }
  }

  lemma ToPortLearnsNothing(at: SwitchId, p: Plane, gw: Gateway, src: Mac, dst: Mac, f: Frame, allow: bool)
    ensures ToPort(at, p, gw, src, dst, f, allow).plane == p
  {
    hide Broadcast;
    BroadcastLearnsNothing(at, p, gw, src, f, allow);
  }

  /** What a frame leaves behind, unless it is for the gateway: its switch has snooped it, and that is all. */
  lemma SwitchLearns(planes: Planes, gws: Gateways, at: SwitchId, f: Frame, allow: bool, peer: Option<Addr>)
    requires at in planes && at in gws && f.dst != GATEWAY_MAC
    ensures var r := Process(planes, gws, at, f, allow, peer);
            && r.planes == planes[at := Snoop(planes[at], f, peer)] && r.hops == []
            && (f.dst != BROADCAST && !IsUnicastMac(f.dst) ==> r.out == multiset{})
  {
    hide Snoop, Broadcast, ToPort, IsUnicastMac;
    BroadcastLearnsNothing(at, Snoop(planes[at], f, peer), gws[at], f.src, f, allow);
    ToPortLearnsNothing(at, Snoop(planes[at], f, peer), gws[at], f.src, f.dst, f, allow);
  }

  /** A ping leaves its switch with what the ping and its answer say. */
  lemma PingTeaches(planes: Planes, gws: Gateways, at: SwitchId, f: Frame, allow: bool, peer: Option<Addr>)
    requires at in planes && at in gws && ToGatewayItself(gws[at], f)
    ensures Process(planes, gws, at, f, allow, peer).planes ==
            planes[at := Snoop(Snoop(planes[at], f, peer), PingAnswer(f), None)]
  {
    hide Snoop, ToPort, Outbound;
    PingIff(gws[at], f);
    var p := Snoop(Snoop(planes[at], f, peer), PingAnswer(f), None);
    ToPortLearnsNothing(at, p, gws[at], GATEWAY_MAC, f.src, PingAnswer(f), true);
  }

  // ---------------------------------------------------------------- where a routed frame goes

  /** A route is the first that has a range with the address, and its range the first there; or there is none. */
  lemma {:induction false} FindRouteIsFirst(routes: seq<Route>, v6: bool, ip: Ip) returns (i: nat, j: nat)
    ensures var r := FindRoute(routes, v6, ip);
            if r.Some? then
              && i < |routes| && j < |routes[i].cidrs| && r.value == (routes[i].via, routes[i].cidrs[j])
              && InRange(routes[i].cidrs[j], v6, ip)
              && (forall k: nat :: k < j ==> !InRange(routes[i].cidrs[k], v6, ip))
              && (forall k: nat, c :: k < i && c in routes[k].cidrs ==> !InRange(c, v6, ip))
            else forall k: nat, c :: k < |routes| && c in routes[k].cidrs ==> !InRange(c, v6, ip)
  {
    hide InRange;
    i, j := 0, 0;
    if routes == [] {
    } else if FindRange(routes[0].cidrs, v6, ip).Some? {
      j := FindRangeIsFirst(routes[0].cidrs, v6, ip);
    } else {
      i, j := FindRouteIsFirst(routes[1..], v6, ip);
      assert forall k: nat :: 0 < k < |routes| ==> routes[k] == routes[1..][k - 1];
      i := i + 1;
    }
  }

  /**
   A frame for the gateway to an address some switch has the MAC of is passed on by that switch to that MAC: in
   the gateway's name, with one hop less, and otherwise as it was.
   */
  lemma RoutedIsCounted(planes: Planes, gws: Gateways, at: SwitchId, f: Frame, allow: bool, peer: Option<Addr>, o: Out)
    requires at in planes && at in gws && f.dst == GATEWAY_MAC && !ToGatewayItself(gws[at], f)
    requires var after := planes[at := Snoop(planes[at], f, peer)];
             var via := RouteOf(after, gws, at, f);
             via.Some? && var mac := CachedMac(after[via.value], f);
                          mac.Some? && IsUnicastMac(mac.value) && mac.value != GATEWAY_MAC
    ensures var after := planes[at := Snoop(planes[at], f, peer)];
            var via := RouteOf(after, gws, at, f).value;
            var passed := Frame(GATEWAY_MAC, CachedMac(after[via], f).value, f.payload.(hop := f.payload.hop - 1));
            && Process(planes, gws, at, f, allow, peer).hops == [via]
            && Process(planes, gws, at, f, allow, peer).out[o] == UnicastCount(after[via], via, passed, true, o)
  {
    hide Snoop, FindRoute, UnicastCount, IsUnicastMac, Process, ForGateway, Outbound;
    var after := planes[at := Snoop(planes[at], f, peer)];
    var via := RouteOf(after, gws, at, f).value;
    var passed := Forwarded(f, CachedMac(after[via], f).value);
    PingIff(gws[at], f);
    GatewayFrame(planes, gws, at, f, allow, peer);
    Routed(after, gws, at, f);
    UnicastIsCounted(after, gws, via, passed, true, None, o);
    UnicastHops(after, gws, via, passed);
    assert [via] + [] == [via];
  }

  lemma GatewayFrame(planes: Planes, gws: Gateways, at: SwitchId, f: Frame, allow: bool, peer: Option<Addr>)
    requires at in planes && at in gws && f.dst == GATEWAY_MAC && !PingForGateway(gws[at], f)
    ensures var after := planes[at := Snoop(planes[at], f, peer)];
            var o := Outbound(after, gws, at, f);
            && Process(planes, gws, at, f, allow, peer).planes == o.planes
            && Process(planes, gws, at, f, allow, peer).hops == o.hops
            && (!IsArpType(f) ==> Process(planes, gws, at, f, allow, peer).out == o.out)
  {
    hide Snoop, Outbound, PeerCopies, PingForGateway;
    var out := Outbound(planes[at := Snoop(planes[at], f, peer)], gws, at, f).out;
    assert multiset{} + out == out;
  }

  lemma Routed(planes: Planes, gws: Gateways, at: SwitchId, f: Frame)
    requires at in planes && at in gws && RouteOf(planes, gws, at, f).Some?
    requires CachedMac(planes[RouteOf(planes, gws, at, f).value], f).Some?
    ensures var via := RouteOf(planes, gws, at, f).value;
            var o := Process(planes, gws, via, Forwarded(f, CachedMac(planes[via], f).value), true, None);
            Outbound(planes, gws, at, f) == o.(hops := [via] + o.hops)
  {
    hide FindRoute, Process;
  }

  /**
   A frame for the gateway to an address nobody knows the MAC of is not passed on: its route's switch asks all its
   ports and peers for that address, in the name of the gateway of the range.
   */
  lemma UnknownIsAskedFor(planes: Planes, gws: Gateways, at: SwitchId, f: Frame, allow: bool, peer: Option<Addr>,
                          o: Out)
    requires at in planes && at in gws && f.dst == GATEWAY_MAC && f.payload.Ipv4? && !ToGatewayItself(gws[at], f)
    requires var after := planes[at := Snoop(planes[at], f, peer)];
             var via := RouteOf(after, gws, at, f);
             && via.Some? && CachedMac(after[via.value], f).None? && f.payload.dst !in gws[via.value].ips4
             && FindRange(after[via.value].cidrs, false, f.payload.dst).Some?
             && !Throttled(after[via.value], f.payload.dst)
    ensures var after := planes[at := Snoop(planes[at], f, peer)];
            var via := RouteOf(after, gws, at, f).value;
            var from := FindRoute(gws[at].routes, false, f.payload.dst).value.1.addr + 1;
            var ask := Frame(GATEWAY_MAC, BROADCAST, Arp(false, GATEWAY_MAC, from, BROADCAST, f.payload.dst));
            && Process(planes, gws, at, f, allow, peer).hops == []
            && Process(planes, gws, at, f, allow, peer).out[o] == EverywhereCount(after[via], via, ask, true, o)
  {
    hide Snoop, FindRoute, FindRange, EverywhereCount, Process, Outbound, AskFor, Throttled, ToGatewayItself;
    hide PingForGateway, CachedMac;
    var after := planes[at := Snoop(planes[at], f, peer)];
    var via := RouteOf(after, gws, at, f).value;
    PingIff(gws[at], f);
    GatewayFrame(planes, gws, at, f, allow, peer);
    OutboundAsks(after, gws, at, f);
    var from := FindRoute(gws[at].routes, false, f.payload.dst).value.1.addr + 1;
    AskCounted(via, after[via], gws[via], from, f.payload.dst, o);
  }

  lemma OutboundAsks(planes: Planes, gws: Gateways, at: SwitchId, f: Frame)
    requires at in planes && at in gws && f.payload.Ipv4? && RouteOf(planes, gws, at, f).Some?
    requires CachedMac(planes[RouteOf(planes, gws, at, f).value], f).None?
    ensures var via := RouteOf(planes, gws, at, f).value;
            var from := FindRoute(gws[at].routes, false, f.payload.dst).value.1.addr + 1;
            Outbound(planes, gws, at, f) == Single(planes, via, AskFor(via, planes[via], gws[via], from, f.payload.dst))
  {
    hide FindRoute, AskFor, Process;
  }

  lemma AskCounted(at: SwitchId, p: Plane, gw: Gateway, from: Ip, ip: Ip, o: Out)
    requires FindRange(p.cidrs, false, ip).Some? && !Throttled(p, ip) && ip !in gw.ips4
    ensures var ask := Frame(GATEWAY_MAC, BROADCAST, Arp(false, GATEWAY_MAC, from, BROADCAST, ip));
            AskFor(at, p, gw, from, ip).out[o] == EverywhereCount(p, at, ask, true, o)
  {
    hide Broadcast, FindRange, EverywhereCount;
    var ask := Frame(GATEWAY_MAC, BROADCAST, Arp(false, GATEWAY_MAC, from, BROADCAST, ip));
    var q := p.(asked := p.asked[ip := p.now]);
    BroadcastCounted(at, q, gw, ask, true, o);
    SameEverywhere(p, q, at, ask, true, o);
  }

  lemma SameEverywhere(p: Plane, q: Plane, at: SwitchId, f: Frame, allow: bool, o: Out)
    requires q.ports == p.ports && q.peers == p.peers
    ensures EverywhereCount(q, at, f, allow, o) == EverywhereCount(p, at, f, allow, o)
  {
  }

  lemma UnicastHops(planes: Planes, gws: Gateways, at: SwitchId, f: Frame)
    requires at in planes && at in gws && IsUnicastMac(f.dst) && f.dst != GATEWAY_MAC
    ensures Process(planes, gws, at, f, true, None).hops == []
  {
    hide ToPort, Snoop, Broadcast;
  }

  /** A frame from which a switch learns its sender's address: any honest ARP frame, or an IP frame with news. */
  predicate Introduces(p: Plane, f: Frame, ip: Ip) {
    match f.payload
    case Arp(_, _, spa, _, _) => Captures(f, f.src) && spa == ip
    case Ipv4(src, _, _, _, _) => src == ip && IsUnicast4(ip) && !(f.src in p.mac4 && ip in p.ip4)
    case Ipv6(src, _, _, _) => src == ip && IsUnicast6(ip) && !(f.src in p.mac6 && ip in p.ip6)
    case Junk(_) => false
  }

  /**
   Once a host has answered an ARP request or spoken first, frames for its address that arrive for a gateway with
   a route to its switch are passed to it, each once.
   */
  lemma HeardIsReached(planes: Planes, gws: Gateways, via: SwitchId, heard: Frame, at: SwitchId, f: Frame)
    requires via in planes && via in gws && at in planes && at in gws && at != via
    requires f.dst == GATEWAY_MAC && HopLimit(f) > 1 && !ToGatewayItself(gws[at], f)
    requires Introduces(planes[via], heard, f.payload.dst) && (f.payload.Ipv6? <==> heard.payload.Ipv6?)
    requires IsUnicastMac(heard.src) && heard.src != GATEWAY_MAC
    requires heard.src in planes[via].ports && IsLocal(planes[via].ports[heard.src])
    requires var route := FindRoute(gws[at].routes, f.payload.Ipv6?, f.payload.dst);
             route.Some? && route.value.0 == via
    ensures var after := planes[via := Snoop(planes[via], heard, None)];
            var passed := Frame(GATEWAY_MAC, heard.src, f.payload.(hop := f.payload.hop - 1));
            Process(after, gws, at, f, true, None).out[Deliver(via, heard.src, passed)] == 1
  {
    hide FindRoute, Snoop, IsUnicastMac, UnicastCount, RouteOf, Process;
    var after := planes[via := Snoop(planes[via], heard, None)];
    IntroducedIsCached(planes[via], heard, f);
    SnoopKeepsTable(planes[via], heard);
    var all := after[at := Snoop(after[at], f, None)];
    RouteIs(all, gws, at, f);
    var passed := Frame(GATEWAY_MAC, heard.src, f.payload.(hop := f.payload.hop - 1));
    RoutedIsCounted(after, gws, at, f, true, None, Deliver(via, heard.src, passed));
    OwnCopy(all[via], via, passed, true);
  }

  lemma IntroducedIsCached(p: Plane, heard: Frame, f: Frame)
    requires f.payload.Ipv4? || f.payload.Ipv6?
    requires Introduces(p, heard, f.payload.dst) && (f.payload.Ipv6? <==> heard.payload.Ipv6?)
    requires IsUnicastMac(heard.src)
    ensures CachedMac(Snoop(p, heard, None), f) == Some(heard.src)
  {
    hide IsUnicastMac, IsUnicast6;
  }

  /** Which addresses are hosts' addresses, and which lie in a network, by example. */
  lemma AddressesByExample()
    ensures !IsUnicast6(0) && IsUnicast6(1) && IsUnicast6(0xfe80_0000_0000_0000_0000_0000_0000_0001)
    ensures !IsUnicast6(0xff02_0000_0000_0000_0000_0000_0000_0001)
    ensures IsUnicastMac(GATEWAY_MAC) && !IsUnicastMac(BROADCAST) && !IsUnicastMac(0x0100_5e00_0001)
    ensures forall v6, ip :: InRange(Range(false, 0x0a00_0001, 0x0a00_0000, 256), v6, ip) <==>
                             !v6 && 0x0a00_0000 <= ip <= 0x0a00_00ff
  {
  }

  lemma RouteIs(planes: Planes, gws: Gateways, at: SwitchId, f: Frame)
    requires at in gws && HopLimit(f) > 1
    requires var route := FindRoute(gws[at].routes, f.payload.Ipv6?, f.payload.dst);
             route.Some? && route.value.0 in planes && route.value.0 in gws
    ensures RouteOf(planes, gws, at, f) == Some(FindRoute(gws[at].routes, f.payload.Ipv6?, f.payload.dst).value.0)
  {
  }

  lemma OwnCopy(p: Plane, at: SwitchId, f: Frame, allow: bool)
    requires f.dst in p.ports && IsLocal(p.ports[f.dst])
    ensures UnicastCount(p, at, f, allow, Deliver(at, f.dst, f)) == 1
  {
  }

  // ---------------------------------------------------------------- broadcast across the mesh

  /** The switches of one network, one per node address, and the gateway they share. */
  type Mesh = map<Addr, Plane>

  function KeysTo(p: Plane, a: Addr): set<NodeKey> {
    set k | k in p.peers && p.peers[k] == a
  }

  /** Every switch knows every other by exactly one key. */
  predicate FullMesh(mesh: Mesh) {
    forall s, a :: s in mesh && a in mesh ==> |KeysTo(mesh[s], a)| == if a == s then 0 else 1
  }

  /** All switches of the mesh, and everything put into ports or still on the wire between them. */
  datatype Net = Net(planes: Mesh, traffic: multiset<Out>)

  /** A frame on the wire reaches the switch it was sent to, which may put new ones there. */
  function Relay(gws: Gateways, net: Net, o: Out): Net
    requires !o.Deliver?
  {
    var r := Process(net.planes, gws, o.addr, o.frame, false, Some(o.at));
    Net(r.planes, net.traffic - multiset{o} + r.out)
  }

  predicate OnTheWire(order: seq<Out>) {
    forall o :: o in order ==> !o.Deliver?
  }

  /** Frames reach their switches in the given order. */
  function Relayed(gws: Gateways, net: Net, order: seq<Out>): Net
    requires OnTheWire(order)
  {
    if order == [] then net else Relay(gws, Relayed(gws, net, order[..|order| - 1]), order[|order| - 1])
  }

  /** Each frame was on the wire when it arrived. */
  predicate Legal(gws: Gateways, net: Net, order: seq<Out>)
    requires OnTheWire(order)
  {
    order == [] ||
    (Legal(gws, net, order[..|order| - 1]) &&
     order[|order| - 1] in Relayed(gws, net, order[..|order| - 1]).traffic)
  }

  /** Nothing is left on the wire. */
  predicate Quiet(net: Net) {
    forall o :: o in net.traffic ==> o.Deliver?
  }

  predicate NotForGateway(gws: Gateways, f: Frame) {
    f.dst != GATEWAY_MAC && forall a :: a in gws ==> !ArpForGateway(gws[a], f)
  }

  lemma RelayDelivers(gws: Gateways, net: Net, o: Out)
    requires !o.Deliver? && NotForGateway(gws, o.frame)
    ensures forall x :: x in Process(net.planes, gws, o.addr, o.frame, false, Some(o.at)).out ==> x.Deliver?
  {
    hide ArpForGateway, Process;
    if o.addr in net.planes && o.addr in gws {
      PeerFrameStaysLocal(net.planes, gws, o.addr, o.frame, o.at);
    } else {
      NobodyThere(net.planes, gws, o.addr, o.frame, false, Some(o.at));
    }
  }

  lemma NobodyThere(planes: Planes, gws: Gateways, at: SwitchId, f: Frame, allow: bool, peer: Option<Addr>)
    requires at !in planes || at !in gws
    ensures Process(planes, gws, at, f, allow, peer) == Outcome(planes, multiset{}, [])
  {
  }

  /**
   Relaying ends: of frames that are not for a gateway, each reaches its switch at most once and puts nothing
   new on the wire, whatever the order and whatever the switches have learned.  What has not arrived yet is
   still there.
   */
  lemma {:induction false} RelayingEnds(gws: Gateways, net: Net, arrived: multiset<Out>, flying: multiset<Out>,
                                        order: seq<Out>)
    returns (arrived': multiset<Out>)
    requires net.traffic == arrived + flying && OnTheWire(order) && Legal(gws, net, order)
    requires forall o :: o in arrived ==> o.Deliver?
    requires forall o :: o in flying ==> !o.Deliver? && NotForGateway(gws, o.frame)
    ensures multiset(order) <= flying
    ensures Relayed(gws, net, order).traffic == arrived' + (flying - multiset(order))
    ensures forall o :: o in arrived' ==> o.Deliver?
  {
    hide NotForGateway, Relay;
    if order == [] {
      arrived' := arrived;
      NothingTaken(flying);
    } else {
      var front, o := order[..|order| - 1], order[|order| - 1];
      assert order == front + [o];
      var before := RelayingEnds(gws, net, arrived, flying, front);
      arrived' := RelayOne(gws, Relayed(gws, net, front), before, flying - multiset(front), o);
      TakenAlso(flying, front, o);
    }
  }

  lemma NothingTaken(flying: multiset<Out>)
    ensures multiset([]) <= flying && flying - multiset([]) == flying
  {
  }

  lemma TakenAlso(flying: multiset<Out>, front: seq<Out>, o: Out)
    requires multiset(front) <= flying && o in flying - multiset(front)
    ensures multiset(front + [o]) <= flying
    ensures flying - multiset(front) - multiset{o} == flying - multiset(front + [o])
  {
    assert multiset(front + [o]) == multiset(front) + multiset{o};
  }

  lemma RelayOne(gws: Gateways, net: Net, arrived: multiset<Out>, flying: multiset<Out>, o: Out)
    returns (arrived': multiset<Out>)
    requires net.traffic == arrived + flying && o in net.traffic && !o.Deliver?
    requires forall x :: x in arrived ==> x.Deliver?
    requires forall x :: x in flying ==> NotForGateway(gws, x.frame)
    ensures o in flying && Relay(gws, net, o).traffic == arrived' + (flying - multiset{o})
    ensures forall x :: x in arrived' ==> x.Deliver?
  {
    hide NotForGateway, Process;
    assert o in flying;
    RelayDelivers(gws, net, o);
    var out := Process(net.planes, gws, o.addr, o.frame, false, Some(o.at)).out;
    arrived' := arrived + out;
    TakeOne(arrived, flying, o, out);
  }

  lemma TakeOne(arrived: multiset<Out>, flying: multiset<Out>, o: Out, out: multiset<Out>)
    requires o in flying
    ensures arrived + flying - multiset{o} + out == arrived + out + (flying - multiset{o})
  {
  }

  /** How many frames of the order reach the switch at a. */
  function TimesTo(order: seq<Out>, a: Addr): nat
    requires OnTheWire(order)
  {
    if order == [] then 0 else TimesTo(order[..|order| - 1], a) + if order[|order| - 1].addr == a then 1 else 0
  }

  lemma {:induction false} CountsTo(order: seq<Out>, a: Addr, o: Out)
    requires OnTheWire(order) && !o.Deliver? && o.addr == a
    requires forall x :: x in order && x.addr == a ==> x == o
    ensures TimesTo(order, a) == multiset(order)[o]
  {
    if order == [] {
    } else {
      var front, last := order[..|order| - 1], order[|order| - 1];
      assert order == front + [last];
      CountsTo(front, a, o);
    }
  }

  lemma {:induction false} NoneTo(order: seq<Out>, a: Addr)
    requires OnTheWire(order) && forall x :: x in order ==> x.addr != a
    ensures TimesTo(order, a) == 0
  {
    if order == [] {
    } else {
      NoneTo(order[..|order| - 1], a);
    }
  }

  /** Snooping a peer's frame makes the switch believe MAC m lives behind that peer. */
  predicate Captures(f: Frame, m: Mac) {
    && f.payload.Arp? && f.payload.sha == m
    && m != BROADCAST && m != GATEWAY_MAC && f.payload.spa != 0xffff_ffff && f.payload.spa != 0
  }

  lemma SnoopedPort(p: Plane, f: Frame, peer: Option<Addr>, m: Mac)
    requires m in p.ports && IsLocal(p.ports[m]) && m != f.src
    ensures var q := Snoop(p, f, peer);
            m in q.ports && (IsLocal(q.ports[m]) <==> !(peer.Some? && Captures(f, m)))
    ensures Snoop(p, f, peer).peers == p.peers
    ensures peer.None? ==> Snoop(p, f, peer).ports == p.ports
  {
    hide Snoop, Heard;
    var heard, mac, before := SnoopIsHeard(p, f, peer);
    HeardPort(before, mac, peer, m);
  }

  /** Snooping notes addresses, and then hears the sender or, in an ARP frame, who it speaks for, or nobody. */
  lemma SnoopIsHeard(p: Plane, f: Frame, peer: Option<Addr>) returns (heard: bool, mac: Mac, before: Plane)
    ensures before.ports == p.ports && before.peers == p.peers && before.promiscuous == p.promiscuous
    ensures Snoop(p, f, peer) == if heard then Heard(before, mac, peer) else before
    ensures if f.payload.Arp? then mac == f.payload.sha && (heard <==> Captures(f, mac)) else mac == f.src
  {
    hide Heard, IsUnicastMac, IsUnicast6;
    mac := if f.payload.Arp? then f.payload.sha else f.src;
    before := match f.payload {
      case Ipv4(ip, _, _, _, _) => p.(mac4 := p.mac4[mac := ip], ip4 := p.ip4[ip := mac])
      case Ipv6(ip, _, _, _) => p.(mac6 := p.mac6[mac := ip], ip6 := p.ip6[ip := mac])
      case Arp(_, _, ip, _, _) => p.(mac4 := p.mac4[mac := ip], ip4 := p.ip4[ip := mac])
      case Junk(_) => p
    };
    heard := !f.payload.Junk? && Snoop(p, f, peer) == Heard(before, mac, peer) && (f.payload.Arp? ==> Captures(f, mac));
    if !heard {
      before := p;
    }
  }

  lemma HeardPort(p: Plane, mac: Mac, peer: Option<Addr>, m: Mac)
    requires m in p.ports && IsLocal(p.ports[m])
    ensures var q := Heard(p, mac, peer);
            && q.peers == p.peers && m in q.ports
            && (IsLocal(q.ports[m]) <==> !(peer.Some? && mac == m))
            && (peer.None? ==> q.ports == p.ports)
  {
  }

  lemma CountLocal(at: SwitchId, p: Plane, src: Mac, f: Frame, m: Mac)
    ensures LocalCopies(at, p, src, f)[Deliver(at, m, f)] ==
            if m in p.ports && m != src && IsLocal(p.ports[m]) then 1 else 0
    ensures forall o :: o in LocalCopies(at, p, src, f) ==> o.Deliver? && o.at == at
  {
  }

  /** A broadcast frame nobody answers. */
  predicate Unanswered(gws: Gateways, f: Frame, a: Addr) {
    a in gws && !ArpForGateway(gws[a], f) && !IsDhcp(f)
  }

  lemma UnansweredOut(mesh: Mesh, gws: Gateways, a: Addr, f: Frame, allow: bool, peer: Option<Addr>)
    requires a in mesh && f.dst == BROADCAST && Unanswered(gws, f, a)
    ensures var r, p := Process(mesh, gws, a, f, allow, peer), Snoop(mesh[a], f, peer);
            && r.planes == mesh[a := p]
            && r.out == LocalCopies(a, p, f.src, f) + if allow then PeerCopies(a, p, f) else multiset{}
  {
    hide Snoop, LocalCopies, PeerCopies, ArpForGateway;
    BroadcastOut(a, Snoop(mesh[a], f, peer), gws[a], f, allow);
  }

  lemma BroadcastOut(at: SwitchId, p: Plane, gw: Gateway, f: Frame, allow: bool)
    requires !ArpForGateway(gw, f) && !IsDhcp(f)
    ensures Broadcast(at, p, gw, f.src, f, allow) ==
            Result(p, LocalCopies(at, p, f.src, f) + if allow then PeerCopies(at, p, f) else multiset{})
  {
    hide LocalCopies, PeerCopies;
  }

  /** A broadcast frame that no gateway answers and no DHCP server takes. */
  predicate Plain(gws: Gateways, f: Frame) {
    f.dst == BROADCAST && !IsDhcp(f) && forall a :: a in gws ==> !ArpForGateway(gws[a], f)
  }

  /** The mesh right after a frame entered it at a local port of the switch at s. */
  function Entered(mesh: Mesh, gws: Gateways, s: Addr, f: Frame): Net {
    var r := Process(mesh, gws, s, f, true, None);
    Net(r.planes, r.out)
  }

  /** The copies of the frame that are given to port m when it reaches the switch at a from s. */
  function GivenAt(p: Plane, s: Addr, a: Addr, f: Frame, m: Mac): nat {
    LocalCopies(a, Snoop(p, f, Some(s)), f.src, f)[Deliver(a, m, f)]
  }

  lemma RelayElsewhere(gws: Gateways, net: Net, o: Out, a: Addr, m: Mac)
    requires !o.Deliver? && Plain(gws, o.frame) && o.addr != a
    ensures var after, d := Relay(gws, net, o), Deliver(a, m, o.frame);
            && after.traffic[d] == net.traffic[d]
            && (a in net.planes ==> a in after.planes && after.planes[a] == net.planes[a])
  {
    hide Snoop, LocalCopies, PeerCopies, ArpForGateway, Process;
    if o.addr in net.planes && o.addr in gws {
      UnansweredOut(net.planes, gws, o.addr, o.frame, false, Some(o.at));
      CountLocal(o.addr, Snoop(net.planes[o.addr], o.frame, Some(o.at)), o.frame.src, o.frame, m);
    } else {
      NobodyThere(net.planes, gws, o.addr, o.frame, false, Some(o.at));
    }
  }

  lemma RelayHere(gws: Gateways, net: Net, o: Out, m: Mac)
    requires !o.Deliver? && Plain(gws, o.frame) && o.addr in net.planes && o.addr in gws
    ensures var d := Deliver(o.addr, m, o.frame);
            Relay(gws, net, o).traffic[d] == net.traffic[d] + GivenAt(net.planes[o.addr], o.at, o.addr, o.frame, m)
  {
    hide Snoop, LocalCopies, PeerCopies, ArpForGateway, Process;
    UnansweredOut(net.planes, gws, o.addr, o.frame, false, Some(o.at));
  }

  /** As long as at most one of the frames goes to a switch, its ports get what that one brings and no more. */
  lemma {:induction false} ArrivesOnce(gws: Gateways, net: Net, order: seq<Out>, s: Addr, f: Frame, a: Addr, m: Mac)
    requires OnTheWire(order) && Plain(gws, f) && a in net.planes && a in gws && TimesTo(order, a) <= 1
    requires forall o :: o in order ==> o.frame == f && o.at == s
    ensures var after, d := Relayed(gws, net, order), Deliver(a, m, f);
            if TimesTo(order, a) == 0
            then a in after.planes && after.planes[a] == net.planes[a] && after.traffic[d] == net.traffic[d]
            else after.traffic[d] == net.traffic[d] + GivenAt(net.planes[a], s, a, f, m)
  {
    hide Plain, Relay, GivenAt;
    if order == [] {
    } else {
      var front, o := order[..|order| - 1], order[|order| - 1];
      assert o in order;
      ArrivesOnce(gws, net, front, s, f, a, m);
      var mid := Relayed(gws, net, front);
      if o.addr == a {
        RelayHere(gws, mid, o, m);
      } else {
        RelayElsewhere(gws, mid, o, a, m);
      }
    }
  }

  /**
   A broadcast frame enters a full mesh at switch s, and its copies reach their switches in any order.  There
   are no more of them than s has peers.  Once they have all arrived, every local port of every switch has
   received the frame exactly once, except ports with the sender's own MAC and, on the other switches, a port
   the frame's ARP body claims to be.
   */
  lemma BroadcastReachesEveryPortOnce(mesh: Mesh, gws: Gateways, s: Addr, f: Frame, order: seq<Out>, a: Addr, m: Mac)
    requires FullMesh(mesh) && mesh.Keys <= gws.Keys && s in mesh && a in mesh && Plain(gws, f)
    requires m in mesh[a].ports && IsLocal(mesh[a].ports[m])
    requires OnTheWire(order) && Legal(gws, Entered(mesh, gws, s, f), order)
    ensures |order| <= |mesh[s].peers|
    ensures var end := Relayed(gws, Entered(mesh, gws, s, f), order);
            && (Quiet(end) <==> |order| == |mesh[s].peers|)
            && (Quiet(end) ==>
                  end.traffic[Deliver(a, m, f)] == if m == f.src || (a != s && Captures(f, m)) then 0 else 1)
  {
    hide Snoop, LocalCopies, PeerCopies, KeysTo, Process, Plain, Captures, Legal, Relayed, TimesTo, GivenAt, FullMesh;
    var net, p := Entered(mesh, gws, s, f), Snoop(mesh[s], f, None);
    EnteredIs(mesh, gws, s, f);
    var flying := PeerCopies(s, p, f);
    FlyingAre(gws, s, p, f);
    var arrived := RelayingEnds(gws, net, LocalCopies(s, p, f.src, f), flying, order);
    QuietIff(Relayed(gws, net, order), order, arrived, flying);
    if |order| == |flying| {
      assert multiset(order) == flying by {
        SameSize(multiset(order), flying);
      }
      OneCopyTo(mesh, s, p, f, order, a);
      ArrivesOnce(gws, net, order, s, f, a, m);
      GivenOnce(mesh, s, f, a, m);
    }
  }

  lemma EnteredIs(mesh: Mesh, gws: Gateways, s: Addr, f: Frame)
    requires s in mesh && s in gws && Plain(gws, f)
    ensures var net, p := Entered(mesh, gws, s, f), Snoop(mesh[s], f, None);
            && net == Net(mesh[s := p], LocalCopies(s, p, f.src, f) + PeerCopies(s, p, f))
            && p.peers == mesh[s].peers && p.ports == mesh[s].ports
  {
    hide Snoop, LocalCopies, PeerCopies, Process;
    UnansweredOut(mesh, gws, s, f, true, None);
    SnoopKeeps(mesh[s], f);
  }

  lemma FlyingAre(gws: Gateways, s: Addr, p: Plane, f: Frame)
    requires Plain(gws, f)
    ensures |PeerCopies(s, p, f)| == |p.peers|
    ensures forall o :: o in PeerCopies(s, p, f) ==> o.Flood? && o.at == s && o.frame == f && NotForGateway(gws, f)
    ensures forall o :: o in LocalCopies(s, p, f.src, f) ==> o.Deliver?
  {
    hide ArpForGateway;
    assert p.peers.Keys == set k | k in p.peers;
    FloodsOf(s, p, f, p.peers.Keys);
    assert (set k | k in p.peers.Keys && k in p.peers :: Flood(s, k, p.peers[k], f)) ==
           (set k | k in p.peers :: Flood(s, k, p.peers[k], f));
  }

  lemma {:induction false} FloodsOf(s: Addr, p: Plane, f: Frame, keys: set<NodeKey>)
    requires keys <= p.peers.Keys
    ensures |set k | k in keys && k in p.peers :: Flood(s, k, p.peers[k], f)| == |keys|
  {
    var floods := set k | k in keys && k in p.peers :: Flood(s, k, p.peers[k], f);
    if keys == {} {
      assert floods == {};
    } else {
      var x :| x in keys;
      var rest := keys - {x};
      FloodsOf(s, p, f, rest);
      var fewer := set k | k in rest && k in p.peers :: Flood(s, k, p.peers[k], f);
      assert floods == fewer + {Flood(s, x, p.peers[x], f)};
    }
  }

  lemma SameSize(a: multiset<Out>, b: multiset<Out>)
    requires a <= b
    ensures |b - a| == |b| - |a|
    ensures |a| == |b| ==> a == b
  {
    assert b == a + (b - a);
    if |a| == |b| {
      assert b - a == multiset{};
    }
  }

  lemma QuietIff(net: Net, order: seq<Out>, arrived: multiset<Out>, flying: multiset<Out>)
    requires multiset(order) <= flying && net.traffic == arrived + (flying - multiset(order))
    requires forall o :: o in arrived ==> o.Deliver?
    requires forall o :: o in flying ==> !o.Deliver?
    ensures |order| <= |flying| && (Quiet(net) <==> |order| == |flying|)
  {
    SameSize(multiset(order), flying);
    var left := flying - multiset(order);
    assert |multiset(order)| == |order|;
    if left != multiset{} {
      var o :| o in left;
      assert o in net.traffic && o in flying;
    }
  }

  lemma OneCopyTo(mesh: Mesh, s: Addr, p: Plane, f: Frame, order: seq<Out>, a: Addr)
    requires FullMesh(mesh) && s in mesh && a in mesh && p.peers == mesh[s].peers
    requires OnTheWire(order) && multiset(order) == PeerCopies(s, p, f)
    ensures TimesTo(order, a) == if a == s then 0 else 1
  {
    hide TimesTo, FullMesh;
    SameKeys(p, mesh[s], a);
    KeysCount(mesh, s, a);
    forall o | o in order
      ensures o in multiset(order)
    {
    }
    if a == s {
      forall o | o in order
        ensures o.addr != a
      {
        assert o.key !in KeysTo(p, a);
      }
      NoneTo(order, a);
    } else {
      var k :| KeysTo(p, a) == {k};
      assert k in KeysTo(p, a);
      forall o | o in order && o.addr == a
        ensures o == Flood(s, k, a, f)
      {
        assert o.key in KeysTo(p, a);
      }
      CountsTo(order, a, Flood(s, k, a, f));
    }
  }

  lemma KeysCount(mesh: Mesh, s: Addr, a: Addr)
    requires FullMesh(mesh) && s in mesh && a in mesh
    ensures a == s ==> KeysTo(mesh[s], a) == {}
    ensures a != s ==> exists k :: KeysTo(mesh[s], a) == {k}
  {
    hide KeysTo;
    if a != s {
      var keys := KeysTo(mesh[s], a);
      var k :| k in keys;
      assert |keys - {k}| == 0;
      assert keys == {k};
    }
  }

  lemma GivenOnce(mesh: Mesh, s: Addr, f: Frame, a: Addr, m: Mac)
    requires s in mesh && a in mesh && m in mesh[a].ports && IsLocal(mesh[a].ports[m])
    ensures GivenAt(mesh[a], s, a, f, m) == if m == f.src || Captures(f, m) then 0 else 1
    ensures var p := Snoop(mesh[s], f, None);
            LocalCopies(s, p, f.src, f)[Deliver(a, m, f)] == if a != s || m == f.src then 0 else 1
  {
    hide Snoop, LocalCopies, Captures;
    var p, q := Snoop(mesh[s], f, None), Snoop(mesh[a], f, Some(s));
    SnoopKeeps(mesh[s], f);
    if m != f.src {
      SnoopedPort(mesh[a], f, Some(s), m);
    }
    CountLocal(s, p, f.src, f, m);
    CountLocal(a, q, f.src, f, m);
  }

  lemma SnoopKeeps(p: Plane, f: Frame)
    ensures Snoop(p, f, None).peers == p.peers && Snoop(p, f, None).ports == p.ports
  {
  }

  lemma SameKeys(p: Plane, q: Plane, a: Addr)
    requires p.peers == q.peers
    ensures KeysTo(p, a) == KeysTo(q, a)
  {
  }

  // ---------------------------------------------------------------- the switches of one node

  lemma AddToMultiset<T>(s: set<T>, x: T)
    requires x !in s
    ensures multiset(s + {x}) == multiset(s) + multiset{x}
  {
  }

  lemma UnchangedPlane(planes: Planes, at: SwitchId)
    requires at in planes
    ensures planes[at := planes[at]] == planes
  {
  }

  lemma BroadcastCases(at: SwitchId, p: Plane, gw: Gateway, src: Mac, f: Frame, allow: bool)
    ensures ArpForGateway(gw, f) ==>
              f.payload.Arp? && ArpDepth(ArpAnswer(f)) < ArpDepth(f) &&
              Broadcast(at, p, gw, src, f, allow) ==
              ToPort(at, Snoop(p, ArpAnswer(f), None), gw, GATEWAY_MAC, f.src, ArpAnswer(f), true)
    ensures !ArpForGateway(gw, f) ==>
              Broadcast(at, p, gw, src, f, allow) ==
              if IsDhcp(f) then Result(p, multiset{})
              else Result(p, LocalCopies(at, p, src, f) + if allow then PeerCopies(at, p, f) else multiset{})
  {
    hide Snoop, LocalCopies, PeerCopies, ToPort;
  }

  /** The copies for the local ports that listen in, as far as they have been gone through. */
  function Told(at: SwitchId, p: Plane, dst: Mac, f: Frame, rest: set<Mac>): set<Out> {
    set m | m in Ears(p, dst) && m !in rest && IsLocal(p.ports[m]) :: Deliver(at, m, f)
  }

  /** The peers behind the ports that listen in, as far as they have been gone through. */
  function Behind(p: Plane, dst: Mac, rest: set<Mac>): set<Addr> {
    set m | m in Ears(p, dst) && m !in rest && !IsLocal(p.ports[m]) :: p.ports[m].addr
  }

  lemma NoneTold(at: SwitchId, p: Plane, dst: Mac, f: Frame)
    ensures Told(at, p, dst, f, p.promiscuous) == {} && Behind(p, dst, p.promiscuous) == {}
  {
  }

  lemma ToldStep(at: SwitchId, p: Plane, dst: Mac, f: Frame, rest: set<Mac>, m: Mac)
    requires m in rest && rest <= p.promiscuous
    ensures multiset(Told(at, p, dst, f, rest - {m})) ==
            multiset(Told(at, p, dst, f, rest)) +
            if m != dst && m in p.ports && IsLocal(p.ports[m]) then multiset{Deliver(at, m, f)} else multiset{}
  {
    var told := Told(at, p, dst, f, rest);
    if m != dst && m in p.ports && IsLocal(p.ports[m]) {
      assert Told(at, p, dst, f, rest - {m}) == told + {Deliver(at, m, f)};
      AddToMultiset(told, Deliver(at, m, f));
    } else {
      assert Told(at, p, dst, f, rest - {m}) == told;
    }
  }

  lemma BehindStep(p: Plane, dst: Mac, rest: set<Mac>, m: Mac)
    requires m in rest && rest <= p.promiscuous
    ensures Behind(p, dst, rest - {m}) ==
            Behind(p, dst, rest) + if m != dst && m in p.ports && !IsLocal(p.ports[m]) then {p.ports[m].addr} else {}
  {
  }

  lemma AllTold(at: SwitchId, p: Plane, dst: Mac, f: Frame, allow: bool)
    ensures PromiscuousCopies(at, p, dst, f, allow) ==
            multiset(Told(at, p, dst, f, {})) +
            if allow then multiset(set a | a in EarPeers(p, dst) :: Wire(at, a, f)) else multiset{}
    ensures EarPeers(p, dst) ==
            Behind(p, dst, {}) - if dst in p.ports && !IsLocal(p.ports[dst]) then {p.ports[dst].addr} else {}
  {
    assert Told(at, p, dst, f, {}) == set m | m in Ears(p, dst) && IsLocal(p.ports[m]) :: Deliver(at, m, f);
  }

  /** All the switches running on a node, with the frames they have put into ports and onto the wire. */
  class Fabric {
    const gws: Gateways
    var planes: Planes
    var out: multiset<Out>

    constructor (gws: Gateways, planes: Planes)
      ensures this.gws == gws && this.planes == planes && out == multiset{}
    {
      this.gws, this.planes, out := gws, planes, multiset{};
    }

    method SendTo(at: SwitchId, d: Destination, mac: Mac, f: Frame, allow: bool)
      modifies this`out
      ensures out == old(out) + Send(at, d, mac, f, allow)
    {
      match d
      case PeerSwitch(addr) =>
        if allow {
          out := out + multiset{Wire(at, addr, f)};
        }
      case _ =>
        out := out + multiset{Deliver(at, mac, f)};
    }

    /** Offer the frame to every port, in whatever order, but the one it came from. */
    method SendToPorts(at: SwitchId, src: Mac, f: Frame)
      requires at in planes
      modifies this`out
      ensures out == old(out) + LocalCopies(at, planes[at], src, f)
    {
      var p := planes[at];
      var rest := p.ports.Keys;
      ghost var done: set<Out> := {};
      while rest != {}
        invariant rest <= p.ports.Keys && planes == old(planes)
        invariant done == set m | m in p.ports && m !in rest && m != src && IsLocal(p.ports[m]) :: Deliver(at, m, f)
        invariant out == old(out) + multiset(done)
      {
        var m :| m in rest;
        rest := rest - {m};
        if m != src {
          SendTo(at, p.ports[m], m, f, false);
          if IsLocal(p.ports[m]) {
            AddToMultiset(done, Deliver(at, m, f));
            done := done + {Deliver(at, m, f)};
          }
        }
      }
      assert done == set m | m in p.ports && m != src && IsLocal(p.ports[m]) :: Deliver(at, m, f);
    }

    method SendToPeers(at: SwitchId, f: Frame)
      requires at in planes
      modifies this`out
      ensures out == old(out) + PeerCopies(at, planes[at], f)
    {
      var p := planes[at];
      var rest := p.peers.Keys;
      ghost var done: set<Out> := {};
      while rest != {}
        invariant rest <= p.peers.Keys && planes == old(planes)
        invariant done == set k | k in p.peers && k !in rest :: Flood(at, k, p.peers[k], f)
        invariant out == old(out) + multiset(done)
      {
        var k :| k in rest;
        rest := rest - {k};
        var copy := Flood(at, k, p.peers[k], f);
        AddToMultiset(done, copy);
        done := done + {copy};
        out := out + multiset{copy};
      }
      assert done == set k | k in p.peers :: Flood(at, k, p.peers[k], f);
    }

    /** Let promiscuous ports listen in, gathering the peers among them so that each gets one copy. */
    method SendToPromiscuous(at: SwitchId, dst: Mac, f: Frame, allow: bool)
      requires at in planes
      modifies this`out
      ensures out == old(out) + PromiscuousCopies(at, planes[at], dst, f, allow)
    {
      hide Told, Behind, EarPeers, PromiscuousCopies;
      var p := planes[at];
      var addrs := SendToEars(at, dst, f);
      AllTold(at, p, dst, f, allow);
      if allow {
        if dst in p.ports && p.ports[dst].PeerSwitch? {
          addrs := addrs - {p.ports[dst].addr};
        }
        SendToAddresses(at, addrs, f);
      }
    }

    /** Give the frame to the local ports that listen in, and gather the addresses of the others. */
    method SendToEars(at: SwitchId, dst: Mac, f: Frame) returns (addrs: set<Addr>)
      requires at in planes
      modifies this`out
      ensures out == old(out) + multiset(Told(at, planes[at], dst, f, {})) && addrs == Behind(planes[at], dst, {})
    {
      hide Told, Behind;
      var p := planes[at];
      var rest := p.promiscuous;
      addrs := {};
      NoneTold(at, p, dst, f);
      while rest != {}
        invariant rest <= p.promiscuous && planes == old(planes)
        invariant addrs == Behind(p, dst, rest)
        invariant out == old(out) + multiset(Told(at, p, dst, f, rest))
      {
        var m :| m in rest;
        ToldStep(at, p, dst, f, rest, m);
        BehindStep(p, dst, rest, m);
        rest := rest - {m};
        if m != dst && m in p.ports {
          if p.ports[m].PeerSwitch? {
            addrs := addrs + {p.ports[m].addr};
          } else {
            out := out + multiset{Deliver(at, m, f)};
          }
        }
      }
    }

    method SendToAddresses(at: SwitchId, addrs: set<Addr>, f: Frame)
      modifies this`out
      ensures out == old(out) + multiset(set a | a in addrs :: Wire(at, a, f))
    {
      var rest := addrs;
      ghost var done: set<Out> := {};
      while rest != {}
        invariant rest <= addrs && planes == old(planes)
        invariant done == set a | a in addrs && a !in rest :: Wire(at, a, f)
        invariant out == old(out) + multiset(done)
      {
        var a :| a in rest;
        rest := rest - {a};
        AddToMultiset(done, Wire(at, a, f));
        done := done + {Wire(at, a, f)};
        out := out + multiset{Wire(at, a, f)};
      }
      assert done == set a | a in addrs :: Wire(at, a, f);
    }

    method DoBroadcast(at: SwitchId, src: Mac, f: Frame, allow: bool)
      requires at in planes && at in gws
      modifies this
      ensures var r := Broadcast(at, old(planes[at]), gws[at], src, f, allow);
              planes == old(planes)[at := r.plane] && out == old(out) + r.out
      decreases ArpDepth(f), 1
    {
      hide Snoop, LocalCopies, PeerCopies, Broadcast, ToPort, ArpForGateway;
      BroadcastCases(at, planes[at], gws[at], src, f, allow);
      UnchangedPlane(planes, at);
      if ArpForGateway(gws[at], f) {
        planes := planes[at := Snoop(planes[at], ArpAnswer(f), None)];
        DoToPort(at, GATEWAY_MAC, f.src, ArpAnswer(f), true);
      } else if !IsDhcp(f) {
        SendToPorts(at, src, f);
        if allow {
          SendToPeers(at, f);
        }
      }
    }

    method DoToPort(at: SwitchId, src: Mac, dst: Mac, f: Frame, allow: bool)
      requires at in planes && at in gws
      modifies this
      ensures var r := ToPort(at, old(planes[at]), gws[at], src, dst, f, allow);
              planes == old(planes)[at := r.plane] && out == old(out) + r.out
      decreases ArpDepth(f), 2
    {
      hide Broadcast, PromiscuousCopies, Send;
      if dst in planes[at].ports {
        SendToPromiscuous(at, dst, f, allow);
        SendTo(at, planes[at].ports[dst], dst, f, allow);
      } else {
        DoBroadcast(at, src, f, allow);
      }
    }

    /** A frame arrives at a switch, from a port or from a peer; returns the switches gateways routed it to. */
    method DoProcess(at: SwitchId, f: Frame, allow: bool, peer: Option<Addr>) returns (hops: seq<SwitchId>)
      modifies this
      ensures Outcome(planes, out, hops) ==
              var o := Process(old(planes), gws, at, f, allow, peer); o.(out := old(out) + o.out)
      decreases HopLimit(f), 2
    {
      hide Snoop, Broadcast, ToPort, ForGateway, IsUnicastMac;
      if at !in planes || at !in gws {
        return [];
      }
      planes := planes[at := Snoop(planes[at], f, peer)];
      ghost var p := planes[at];
      if f.dst == BROADCAST {
        DoBroadcast(at, f.src, f, allow);
        return [];
      }
      if !IsUnicastMac(f.dst) {
        return [];
      }
      if f.dst == GATEWAY_MAC {
        hops := DoForGateway(at, f, allow);
      } else {
        DoToPort(at, f.src, f.dst, f, allow);
        hops := [];
      }
    }

    method DoForGateway(at: SwitchId, f: Frame, allow: bool) returns (hops: seq<SwitchId>)
      requires at in planes && at in gws
      modifies this
      ensures Outcome(planes, out, hops) ==
              var o := ForGateway(old(planes), gws, at, f, allow); o.(out := old(out) + o.out)
      decreases HopLimit(f), 1
    {
      hide Snoop, ToPort, Outbound, PeerCopies, IsArpType, PingAnswer;
      ghost var flood := if allow && IsArpType(f) then PeerCopies(at, planes[at], f) else multiset{};
      if allow && IsArpType(f) {
        SendToPeers(at, f);
      }
      assert out == old(out) + flood && planes == old(planes);
      if PingForGateway(gws[at], f) {
        planes := planes[at := Snoop(planes[at], PingAnswer(f), None)];
        DoToPort(at, GATEWAY_MAC, f.src, PingAnswer(f), true);
        return [];
      }
      hops := DoOutbound(at, f);
    }

    /** Route a frame: lower its hop limit, find the switch, and hand it over under the gateway's MAC. */
    method DoOutbound(at: SwitchId, f: Frame) returns (hops: seq<SwitchId>)
      requires at in planes && at in gws
      modifies this
      ensures Outcome(planes, out, hops) ==
              var o := Outbound(old(planes), gws, at, f); o.(out := old(out) + o.out)
      decreases HopLimit(f), 0
    {
      hide FindRoute, Process, Broadcast;
      if HopLimit(f) <= 1 {
        return [];
      }
      var v6, ip := f.payload.Ipv6?, f.payload.dst;
      var route := FindRoute(gws[at].routes, v6, ip);
      if route.None? || route.value.0 !in planes || route.value.0 !in gws {
        return [];
      }
      var via := route.value.0;
      var cache := if v6 then planes[via].ip6 else planes[via].ip4;
      var dst := BROADCAST;
      if ip in cache {
        dst := cache[ip];
      } else if !v6 {
        DoAskFor(via, route.value.1.addr + 1, ip);
        return [];
      }
      hops := DoProcess(via, Forwarded(f, dst), true, None);
      hops := [via] + hops;
    }

    method DoAskFor(at: SwitchId, from: Ip, ip: Ip)
      requires at in planes && at in gws
      modifies this
      ensures var r := AskFor(at, old(planes[at]), gws[at], from, ip);
              planes == old(planes)[at := r.plane] && out == old(out) + r.out
    {
      hide Broadcast, FindRange;
      if FindRange(planes[at].cidrs, false, ip).None? || Throttled(planes[at], ip) {
        return;
      }
      planes := planes[at := planes[at].(asked := planes[at].asked[ip := planes[at].now])];
      DoBroadcast(at, GATEWAY_MAC, Frame(GATEWAY_MAC, BROADCAST, Arp(false, GATEWAY_MAC, from, BROADCAST, ip)), true);
    }
  }
}
