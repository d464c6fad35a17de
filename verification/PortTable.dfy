/**
The replicated part of a switch's data plane: which port is reached through which peer, as the nodes of the mesh
announce themselves and disappear.
*/
module PortTable {
  import opened Prelude

  type Mac = nat
  type Addr = nat
  type NodeKey = nat

  datatype Destination = LocalSmoltcp | LocalRaw | LocalDuel | PeerSwitch(addr: Addr)

  /** What a node of the mesh announces about itself. */
  datatype MeshNode = MeshNode(addr: Addr, ports: set<Mac>, promiscuous: set<Mac>)

  datatype Table = Table(ports: map<Mac, Destination>, promiscuous: set<Mac>, peers: map<NodeKey, Addr>)

  function PortsVia(t: Table, addr: Addr): set<Mac> {
    set m | m in t.ports && t.ports[m] == PeerSwitch(addr)
  }

  /** Forget every port reached through a peer. */
  function Forget(t: Table, addr: Addr): Table {
    var gone := PortsVia(t, addr);
    t.(ports := t.ports - gone, promiscuous := t.promiscuous - gone)
  }

  /** How a port of a node is reached. */
  function Through(node: MeshNode, m: Mac): Destination
    requires m in node.ports
  {
    PeerSwitch(node.addr)
  }

  function Announce(t: Table, key: NodeKey, node: MeshNode): Table {
    t.(ports := t.ports + map m | m in node.ports :: Through(node, m),
       promiscuous := t.promiscuous + node.promiscuous,
       peers := t.peers[key := node.addr])
  }

  function Update(t: Table, me: NodeKey, key: NodeKey, node: MeshNode): Table {
    if key == me then t else Announce(Forget(t, node.addr), key, node)
  }

  function Remove(t: Table, me: NodeKey, key: NodeKey): Table {
    if key == me || key !in t.peers then t
    else Forget(t.(peers := t.peers - {key}), t.peers[key])
  }

  // ---------------------------------------------------------------- runs

  /** A node announces itself or leaves, a port is opened here, or a frame of a MAC comes in from a peer. */
  datatype Event =
    | Updated(key: NodeKey, node: MeshNode)
    | Deleted(key: NodeKey)
    | NewPort(mac: Mac)
    | Snooped(mac: Mac, addr: Addr)

  function Apply(t: Table, me: NodeKey, e: Event): Table {
    match e
    case Updated(key, node) => Update(t, me, key, node)
    case Deleted(key) => Remove(t, me, key)
    case NewPort(mac) => t.(ports := t.ports[mac := LocalDuel])
    case Snooped(mac, addr) => t.(ports := t.ports[mac := PeerSwitch(addr)])
  }

  const EMPTY := Table(map[], {}, map[])

  function Run(me: NodeKey, events: seq<Event>): Table {
    if events == [] then EMPTY else Apply(Run(me, events[..|events| - 1]), me, events[|events| - 1])
  }

  /** What a node last announced, if it has not been deleted since. */
  function LastSeen(events: seq<Event>, key: NodeKey): Option<MeshNode> {
    if events == [] then None
    else
      var e := events[|events| - 1];
      if e.Updated? && e.key == key then Some(e.node)
      else if e.Deleted? && e.key == key then None
      else LastSeen(events[..|events| - 1], key)
  }

  /** The ports of a node: those it last announced, and those heard from its address since. */
  function PortsOf(events: seq<Event>, key: NodeKey): set<Mac> {
    if events == [] then {}
    else
      var front, e := events[..|events| - 1], events[|events| - 1];
      match e
      case Updated(k, node) => if k == key then node.ports else PortsOf(front, key)
      case Deleted(k) => if k == key then {} else PortsOf(front, key)
      case NewPort(_) => PortsOf(front, key)
      case Snooped(mac, addr) =>
        if LastSeen(front, key).Some? && LastSeen(front, key).value.addr == addr then PortsOf(front, key) + {mac}
        else PortsOf(front, key)
  }

  predicate Live(events: seq<Event>, me: NodeKey, key: NodeKey) {
    key != me && LastSeen(events, key).Some?
  }

  /** A live node has the port. */
  predicate Has(events: seq<Event>, me: NodeKey, key: NodeKey, m: Mac) {
    Live(events, me, key) && m in PortsOf(events, key)
  }

  /**
   At any time the live nodes have different addresses and different ports, none of them local; a live node
   keeps its address; and frames come in from live nodes only, and do not claim the port of another.
   */
  ghost predicate Orderly(events: seq<Event>, me: NodeKey) {
    events == [] ||
    (Orderly(events[..|events| - 1], me) && Fits(events[..|events| - 1], events[|events| - 1], me))
  }

  ghost predicate Fits(front: seq<Event>, e: Event, me: NodeKey) {
    match e
    case Updated(key, node) =>
      key == me ||
      (&& (Live(front, me, key) ==> LastSeen(front, key).value.addr == node.addr)
       && (forall k :: k != key && Live(front, me, k) ==> Apart(front, k, node))
       && (forall m :: m in node.ports ==> NewPort(m) !in front))
    case Deleted(_) => true
    case NewPort(mac) => forall k :: !Has(front, me, k, mac)
    case Snooped(mac, addr) =>
      && NewPort(mac) !in front
      && (exists k :: LiveAt(front, me, k, addr))
      && (forall k :: Has(front, me, k, mac) ==> LastSeen(front, k).value.addr == addr)
  }

  predicate LiveAt(events: seq<Event>, me: NodeKey, key: NodeKey, addr: Addr) {
    Live(events, me, key) && LastSeen(events, key).value.addr == addr
  }

  predicate Apart(events: seq<Event>, key: NodeKey, node: MeshNode)
    requires LastSeen(events, key).Some?
  {
    LastSeen(events, key).value.addr != node.addr && PortsOf(events, key) !! node.ports
  }

  /** What an orderly run keeps: no two live nodes share an address or a port, and no live node has a local port. */
  ghost predicate Separate(events: seq<Event>, me: NodeKey) {
    && (forall k, l, a :: LiveAt(events, me, k, a) && LiveAt(events, me, l, a) ==> k == l)
    && (forall k, l, m :: Has(events, me, k, m) && Has(events, me, l, m) ==> k == l)
    && (forall k, m :: Has(events, me, k, m) ==> NewPort(m) !in events)
  }

  /** What one event changes of what is known of a node. */
  lemma SeenStep(front: seq<Event>, e: Event, key: NodeKey)
    ensures LastSeen(front + [e], key) ==
            if e.Updated? && e.key == key then Some(e.node)
            else if e.Deleted? && e.key == key then None
            else LastSeen(front, key)
    ensures PortsOf(front + [e], key) ==
            if e.Updated? && e.key == key then e.node.ports
            else if e.Deleted? && e.key == key then {}
            else if e.Snooped? && LastSeen(front, key).Some? && LastSeen(front, key).value.addr == e.addr
            then PortsOf(front, key) + {e.mac}
            else PortsOf(front, key)
  {
    assert (front + [e])[..|front|] == front;
  }

  lemma SeparateStep(front: seq<Event>, e: Event, me: NodeKey)
    requires Separate(front, me) && Fits(front, e, me)
    ensures Separate(front + [e], me)
  {
    hide LastSeen, PortsOf;
    var events := front + [e];
    forall k, l, a | LiveAt(events, me, k, a) && LiveAt(events, me, l, a)
      ensures k == l
    {
      SeenStep(front, e, k);
      SeenStep(front, e, l);
      assert LiveAt(front, me, k, a) || (e.Updated? && e.key == k);
      assert LiveAt(front, me, l, a) || (e.Updated? && e.key == l);
    }
    forall k, l, m | Has(events, me, k, m) && Has(events, me, l, m)
      ensures k == l
    {
      HasStep(front, e, me, k, m);
      HasStep(front, e, me, l, m);
      SeenStep(front, e, k);
      SeenStep(front, e, l);
      if e.Snooped? {
        assert Has(front, me, k, m) ==> LiveAt(front, me, k, e.addr) || e.mac != m;
        assert Has(front, me, l, m) ==> LiveAt(front, me, l, e.addr) || e.mac != m;
      }
    }
    forall k, m | Has(events, me, k, m)
      ensures NewPort(m) !in events
    {
      HasStep(front, e, me, k, m);
      assert NewPort(m) in events <==> NewPort(m) in front || e == NewPort(m);
    }
  }

  /** How a node comes to have a port. */
  lemma HasStep(front: seq<Event>, e: Event, me: NodeKey, k: NodeKey, m: Mac)
    ensures Has(front + [e], me, k, m) <==>
            || (e.Updated? && e.key == k && k != me && m in e.node.ports)
            || (e.Snooped? && e.mac == m && LiveAt(front, me, k, e.addr))
            || (!((e.Updated? || e.Deleted?) && e.key == k) && Has(front, me, k, m))
  {
    hide LastSeen, PortsOf;
    SeenStep(front, e, k);
  }

  lemma {:induction false} OrderlySeparates(events: seq<Event>, me: NodeKey)
    requires Orderly(events, me)
    ensures Separate(events, me)
  {
    hide Separate, Fits;
    if events == [] {
      NoneSeparate(me);
    } else {
      var front, e := events[..|events| - 1], events[|events| - 1];
      OrderlySeparates(front, me);
      SeparateStep(front, e, me);
      assert events == front + [e];
    }
  }

  lemma NoneSeparate(me: NodeKey)
    ensures Separate([], me)
  {
  }

  /** The entry for a MAC: local if it was opened here, else through the live node that has it, if there is one. */
  ghost predicate EntryIs(t: Table, events: seq<Event>, me: NodeKey, m: Mac) {
    && (NewPort(m) in events ==> m in t.ports && t.ports[m] == LocalDuel)
    && (NewPort(m) !in events ==> (m in t.ports <==> exists k :: Has(events, me, k, m)))
    && (forall k :: Has(events, me, k, m) ==> m in t.ports && t.ports[m] == PeerSwitch(LastSeen(events, k).value.addr))
  }

  predicate PeerIs(t: Table, events: seq<Event>, me: NodeKey, key: NodeKey) {
    && (key in t.peers <==> Live(events, me, key))
    && (key in t.peers ==> t.peers[key] == LastSeen(events, key).value.addr)
  }

  /** The ports reached through the address of a node are the ports it has. */
  lemma ViaIsHas(t: Table, events: seq<Event>, me: NodeKey, a: Addr, m: Mac)
    requires Separate(events, me) && EntryIs(t, events, me, m)
    ensures m in PortsVia(t, a) <==> exists k :: LiveAt(events, me, k, a) && Has(events, me, k, m)
  {
    hide LastSeen, PortsOf;
    if k :| Has(events, me, k, m) {
      assert LiveAt(events, me, k, a) <==> LastSeen(events, k).value.addr == a;
    }
  }

  lemma StepEntry(t: Table, front: seq<Event>, e: Event, me: NodeKey, m: Mac)
    requires Separate(front, me) && Fits(front, e, me) && EntryIs(t, front, me, m)
    requires forall key :: PeerIs(t, front, me, key)
    ensures EntryIs(Apply(t, me, e), front + [e], me, m)
  {
    hide LastSeen, PortsOf, Separate;
    var events := front + [e];
    assert !e.NewPort? && !e.Snooped? ==> PeerIs(t, front, me, e.key);
    assert NewPort(m) in events <==> NewPort(m) in front || e == NewPort(m);
    forall k
      ensures Has(events, me, k, m) <==>
              || (e.Updated? && e.key == k && k != me && m in e.node.ports)
              || (e.Snooped? && e.mac == m && LiveAt(front, me, k, e.addr))
              || (!((e.Updated? || e.Deleted?) && e.key == k) && Has(front, me, k, m))
    {
      HasStep(front, e, me, k, m);
    }
    forall k
      ensures !(e.Updated? && e.key == k) && !(e.Deleted? && e.key == k) ==> LastSeen(events, k) == LastSeen(front, k)
      ensures e.Updated? && e.key == k ==> LastSeen(events, k) == Some(e.node)
    {
      SeenStep(front, e, k);
    }
    if e.Updated? && e.key != me {
      ViaIsHas(t, front, me, e.node.addr, m);
    } else if e.Deleted? && e.key != me && e.key in t.peers {
      ViaIsHas(t, front, me, t.peers[e.key], m);
      OneAt(front, me, e.key, t.peers[e.key]);
      forall k | Has(front, me, k, m)
        ensures k == e.key <==> LastSeen(front, k).value.addr == t.peers[e.key]
      {
        assert LiveAt(front, me, k, LastSeen(front, k).value.addr);
      }
    }
  }

  lemma OneAt(events: seq<Event>, me: NodeKey, key: NodeKey, a: Addr)
    requires Separate(events, me) && LiveAt(events, me, key, a)
    ensures forall k :: LiveAt(events, me, k, a) ==> k == key
  {
  }

  lemma StepPeers(t: Table, front: seq<Event>, e: Event, me: NodeKey, key: NodeKey)
    requires PeerIs(t, front, me, key)
    ensures PeerIs(Apply(t, me, e), front + [e], me, key)
  {
    hide LastSeen, PortsVia;
    SeenStep(front, e, key);
  }

  /**
   After any interleaving of announcements, deletions, snooped frames and new local ports, the table is exactly
   the local ports and the ports each live node last announced or was heard with since.
   */
  lemma {:induction false} TableIsLastSeen(events: seq<Event>, me: NodeKey)
    requires Orderly(events, me)
    ensures forall m :: EntryIs(Run(me, events), events, me, m)
    ensures forall key :: PeerIs(Run(me, events), events, me, key)
  {
    hide EntryIs, Apply, Fits, PeerIs, Separate;
    if events == [] {
      NothingSeen(me);
    } else {
      var front, e := events[..|events| - 1], events[|events| - 1];
      assert events == front + [e];
      TableIsLastSeen(front, me);
      OrderlySeparates(front, me);
      var t := Run(me, front);
      forall m
        ensures EntryIs(Run(me, events), events, me, m)
      {
        StepEntry(t, front, e, me, m);
      }
      forall key
        ensures PeerIs(Run(me, events), events, me, key)
      {
        StepPeers(t, front, e, me, key);
      }
    }
  }

  lemma NothingSeen(me: NodeKey)
    ensures forall m :: EntryIs(EMPTY, [], me, m)
    ensures forall key :: PeerIs(EMPTY, [], me, key)
  {
  }

  // ---------------------------------------------------------------- promiscuous ports

  /** The ports whose marks an event drops: all those reached through the node it is about. */
  function Forgotten(t: Table, me: NodeKey, e: Event): set<Mac> {
    match e
    case Updated(key, node) => if key == me then {} else PortsVia(t, node.addr)
    case Deleted(key) => if key == me || key !in t.peers then {} else PortsVia(t, t.peers[key])
    case _ => {}
  }

  predicate Marks(e: Event, me: NodeKey, m: Mac) {
    e.Updated? && e.key != me && m in e.node.promiscuous
  }

  /** Event i marked m as promiscuous, and no later one dropped the mark. */
  ghost predicate Lasting(events: seq<Event>, me: NodeKey, m: Mac, i: nat) {
    && i < |events| && Marks(events[i], me, m)
    && forall j: nat :: i < j < |events| ==> !Drops(events, me, m, j)
  }

  predicate Drops(events: seq<Event>, me: NodeKey, m: Mac, j: nat)
    requires j < |events|
  {
    m in Forgotten(Run(me, events[..j]), me, events[j])
  }

  lemma LastingStep(events: seq<Event>, front: seq<Event>, e: Event, me: NodeKey, m: Mac, i: nat)
    requires events == front + [e]
    ensures i < |front| ==>
              (Lasting(events, me, m, i) <==> Lasting(front, me, m, i) && m !in Forgotten(Run(me, front), me, e))
    ensures i == |front| ==> (Lasting(events, me, m, i) <==> Marks(e, me, m))
  {
    hide Forgotten, Run, Marks;
    assert events[..|front|] == front;
    forall j: nat | j < |front|
      ensures Drops(events, me, m, j) <==> Drops(front, me, m, j)
    {
      assert events[..j] == front[..j];
    }
    assert Drops(events, me, m, |front|) <==> m in Forgotten(Run(me, front), me, e);
  }

  lemma ApplyMarks(t: Table, me: NodeKey, e: Event, m: Mac)
    ensures m in Apply(t, me, e).promiscuous <==> Marks(e, me, m) || (m in t.promiscuous && m !in Forgotten(t, me, e))
  {
  }

  /**
   After any run at all, a port is promiscuous if and only if some announcement marked it and nothing dropped it
   since.
   */
  lemma {:induction false} PromiscuousIsLog(events: seq<Event>, me: NodeKey, m: Mac)
    ensures m in Run(me, events).promiscuous <==> exists i: nat :: Lasting(events, me, m, i)
  {
    if events == [] {
    } else {
      hide Lasting, PortsVia;
      var front, e := events[..|events| - 1], events[|events| - 1];
      assert events == front + [e];
      PromiscuousIsLog(front, me, m);
      LastingStep(events, front, e, me, m, |front|);
      forall i: nat | i < |front|
        ensures Lasting(events, me, m, i) <==> Lasting(front, me, m, i) && m !in Forgotten(Run(me, front), me, e)
      {
        LastingStep(events, front, e, me, m, i);
      }
      LastingBounds(events, me, m);
      LastingBounds(front, me, m);
    }
  }

  lemma LastingBounds(events: seq<Event>, me: NodeKey, m: Mac)
    ensures forall i: nat :: Lasting(events, me, m, i) ==> i < |events|
  {
  }

  /** In an orderly run an event drops exactly the ports the node it is about has. */
  lemma OrderlyForgets(front: seq<Event>, e: Event, me: NodeKey, m: Mac)
    requires Orderly(front, me) && Fits(front, e, me)
    ensures m in Forgotten(Run(me, front), me, e) <==>
            (e.Updated? || e.Deleted?) && e.key != me && Has(front, me, e.key, m)
  {
    hide Run, LastSeen, PortsOf, Orderly, Separate, PortsVia;
    TableIsLastSeen(front, me);
    OrderlySeparates(front, me);
    var t := Run(me, front);
    assert EntryIs(t, front, me, m);
    if (e.Updated? || e.Deleted?) && e.key != me {
      assert PeerIs(t, front, me, e.key);
      var a := if e.Updated? then e.node.addr else if e.key in t.peers then t.peers[e.key] else 0;
      ViaIsHas(t, front, me, a, m);
      if e.Updated? {
        OnlyOneFits(front, e, me);
      } else if e.key in t.peers {
        OneAt(front, me, e.key, a);
      }
      assert Live(front, me, e.key) && (e.Updated? || e.key in t.peers) ==> LiveAt(front, me, e.key, a);
    }
  }

  lemma OnlyOneFits(front: seq<Event>, e: Event, me: NodeKey)
    requires Fits(front, e, me) && e.Updated? && e.key != me
    ensures forall k :: LiveAt(front, me, k, e.node.addr) ==> k == e.key
  {
    hide LastSeen, PortsOf;
  }

  /** What a node last announced is among its ports, and a node that is gone has none. */
  lemma {:induction false} SeenPorts(events: seq<Event>, key: NodeKey)
    ensures LastSeen(events, key).Some? ==> LastSeen(events, key).value.ports <= PortsOf(events, key)
    ensures LastSeen(events, key).None? ==> PortsOf(events, key) == {}
  {
    if events == [] {
    } else {
      SeenPorts(events[..|events| - 1], key);
    }
  }

  /**
   In an orderly run, a standing mark on a port its node announced with it is still that node's last word.  So
   every mark that no live node stands by was put on something that was not a port of the node that put it
   there.
   */
  lemma {:induction false} StandingPortIsLastSeen(events: seq<Event>, me: NodeKey, m: Mac, i: nat)
    requires Orderly(events, me) && Lasting(events, me, m, i) && m in events[i].node.ports
    ensures LastSeen(events, events[i].key) == Some(events[i].node)
  {
    hide Forgotten, Run, Lasting, Fits, PortsOf;
    assert i < |events| && Marks(events[i], me, m) by {
      LastingMarks(events, me, m, i);
    }
    var front, e := events[..|events| - 1], events[|events| - 1];
    assert events == front + [e];
    LastingStep(events, front, e, me, m, i);
    if i < |front| {
      StandingPortIsLastSeen(front, me, m, i);
      OrderlyForgets(front, e, me, m);
      SeenPorts(front, events[i].key);
    }
  }

  lemma LastingMarks(events: seq<Event>, me: NodeKey, m: Mac, i: nat)
    requires Lasting(events, me, m, i)
    ensures i < |events| && Marks(events[i], me, m)
  {
  }

  /**
   What a departing node leaves behind, after any orderly run: every mark that stood, but for the ports the node
   has. So no mark of its last announcement stays if and only if those still standing are its ports.
   */
  lemma PromiscuousLeftBehind(events: seq<Event>, me: NodeKey, key: NodeKey)
    requires Orderly(events, me) && Live(events, me, key)
    ensures var marks, ports := LastSeen(events, key).value.promiscuous, PortsOf(events, key);
            var before, after := Run(me, events).promiscuous, Run(me, events + [Deleted(key)]).promiscuous;
            && after == before - ports
            && (after * marks == {} <==> before * marks <= ports)
  {
    hide Orderly, PortsVia, Forgotten, Apply, PortsOf;
    var t, ports, all := Run(me, events), PortsOf(events, key), events + [Deleted(key)];
    assert all[..|all| - 1] == events;
    forall m
      ensures m in Run(me, all).promiscuous <==> m in t.promiscuous && m !in ports
    {
      OrderlyForgets(events, Deleted(key), me, m);
      ApplyMarks(t, me, Deleted(key), m);
    }
    SetLaw(t.promiscuous, ports, LastSeen(events, key).value.promiscuous);
  }

  lemma SetLaw(before: set<Mac>, ports: set<Mac>, marks: set<Mac>)
    ensures (before - ports) * marks == {} <==> before * marks <= ports
  {
    forall m | m in before && m in marks && m !in ports
      ensures m in (before - ports) * marks
    {
    }
  }

  /** Every node announces its promiscuous ports as ports too. */
  predicate Contained(events: seq<Event>, me: NodeKey) {
    forall e :: e in events && e.Updated? && e.key != me ==> e.node.promiscuous <= e.node.ports
  }

  /** A live node last announced m as promiscuous. */
  predicate Announces(events: seq<Event>, me: NodeKey, key: NodeKey, m: Mac) {
    Live(events, me, key) && m in LastSeen(events, key).value.promiscuous
  }

  lemma {:induction false} AnnouncesHas(events: seq<Event>, me: NodeKey, key: NodeKey, m: Mac)
    requires Contained(events, me) && Announces(events, me, key, m)
    ensures Has(events, me, key, m)
  {
    hide PortsOf;
    SeenIsContained(events, me, key);
    SeenPorts(events, key);
  }

  lemma {:induction false} SeenIsContained(events: seq<Event>, me: NodeKey, key: NodeKey)
    requires Contained(events, me) && Live(events, me, key)
    ensures LastSeen(events, key).value.promiscuous <= LastSeen(events, key).value.ports
  {
    var front, e := events[..|events| - 1], events[|events| - 1];
    assert e in events && forall x :: x in front ==> x in events;
    if Live(front, me, key) {
      SeenIsContained(front, me, key);
    }
  }

  /**
   If nodes mark only ports of their own, the marks are exactly those of the last announcements of the live
   nodes.
   */
  lemma {:induction false} PromiscuousIsLastSeen(events: seq<Event>, me: NodeKey, m: Mac)
    requires Orderly(events, me) && Contained(events, me)
    ensures m in Run(me, events).promiscuous <==> exists key :: Announces(events, me, key, m)
  {
    hide Fits, Apply, Forgotten, LastSeen;
    if events == [] {
      NobodyAnnounces(me, m);
    } else {
      var front, e := events[..|events| - 1], events[|events| - 1];
      assert events == front + [e];
      assert e in events && forall x :: x in front ==> x in events;
      PromiscuousIsLastSeen(front, me, m);
      OrderlyForgets(front, e, me, m);
      ApplyMarks(Run(me, front), me, e, m);
      OrderlySeparates(front, me);
      MarkStep(front, e, me, m);
    }
  }

  lemma NobodyAnnounces(me: NodeKey, m: Mac)
    ensures !exists key :: Announces([], me, key, m)
  {
  }

  lemma MarkStep(front: seq<Event>, e: Event, me: NodeKey, m: Mac)
    requires Separate(front, me) && Contained(front, me)
    ensures (exists key :: Announces(front + [e], me, key, m)) <==>
            || Marks(e, me, m)
            || ((exists key :: Announces(front, me, key, m)) &&
                !((e.Updated? || e.Deleted?) && e.key != me && Has(front, me, e.key, m)))
  {
    hide LastSeen, PortsOf;
    var events := front + [e];
    forall k
      ensures Announces(events, me, k, m) <==>
              || (Marks(e, me, m) && e.key == k)
              || (Announces(front, me, k, m) && !((e.Updated? || e.Deleted?) && e.key == k))
    {
      SeenStep(front, e, k);
    }
    forall k | Announces(front, me, k, m)
      ensures Has(front, me, k, m)
    {
      AnnouncesHas(front, me, k, m);
    }
    if Marks(e, me, m) {
      assert Announces(events, me, e.key, m);
    }
  }

  // ---------------------------------------------------------------- order

  /**
   The order in which different nodes were heard of does not matter to ports and peers; nor to promiscuous
   ports, if nodes mark only ports of their own.
   */
  lemma OrderDoesNotMatter(a: seq<Event>, b: seq<Event>, me: NodeKey)
    requires Orderly(a, me) && Orderly(b, me)
    requires forall key :: LastSeen(a, key) == LastSeen(b, key) && PortsOf(a, key) == PortsOf(b, key)
    requires forall m :: NewPort(m) in a <==> NewPort(m) in b
    ensures Run(me, a).ports == Run(me, b).ports && Run(me, a).peers == Run(me, b).peers
    ensures Contained(a, me) && Contained(b, me) ==> Run(me, a) == Run(me, b)
  {
    hide Orderly, Run, LastSeen, PortsOf, Contained;
    TableIsLastSeen(a, me);
    TableIsLastSeen(b, me);
    var s, t := Run(me, a), Run(me, b);
    forall m
      ensures m in s.ports <==> m in t.ports
      ensures m in s.ports ==> s.ports[m] == t.ports[m]
    {
      assert EntryIs(s, a, me, m) && EntryIs(t, b, me, m);
      assert forall k :: Has(a, me, k, m) <==> Has(b, me, k, m);
    }
    forall key
      ensures key in s.peers <==> key in t.peers
      ensures key in s.peers ==> s.peers[key] == t.peers[key]
    {
      assert PeerIs(s, a, me, key) && PeerIs(t, b, me, key);
    }
    if Contained(a, me) && Contained(b, me) {
      forall m
        ensures m in s.promiscuous <==> m in t.promiscuous
      {
        PromiscuousIsLastSeen(a, me, m);
        PromiscuousIsLastSeen(b, me, m);
        assert forall k :: Announces(a, me, k, m) <==> Announces(b, me, k, m);
      }
    }
  }

  /** A mark that is not a port outlives its retraction and its node. */
  lemma StrayMarkExample()
    ensures var stray, plain := Updated(1, MeshNode(101, {}, {9})), Updated(1, MeshNode(101, {}, {}));
            && (forall key :: LastSeen([stray, plain], key) == LastSeen([plain], key))
            && Run(0, [plain]).promiscuous == {}
            && Run(0, [stray, plain]).promiscuous == {9}
            && Run(0, [stray, plain, Deleted(1)]).promiscuous == {9}
  {
    var stray, plain := Updated(1, MeshNode(101, {}, {9})), Updated(1, MeshNode(101, {}, {}));
    var all := [stray, plain, Deleted(1)];
    assert all[..2] == [stray, plain] && [stray, plain][..1] == [stray] && [stray][..0] == [] && [plain][..0] == [];
    assert Run(0, []) == EMPTY;
    assert Run(0, [plain]) == Apply(Run(0, [plain][..0]), 0, plain);
    assert Run(0, [stray]) == Apply(Run(0, [stray][..0]), 0, stray);
    assert Run(0, [stray, plain]) == Apply(Run(0, [stray]), 0, plain);
    assert Run(0, all) == Apply(Run(0, [stray, plain]), 0, Deleted(1));
  }

  /** Neither node drops a mark the other one makes, nor keeps one the other would drop. */
  predicate MarksCommute(t: Table, x: MeshNode, y: MeshNode) {
    && x.promiscuous * (PortsVia(t, y.addr) - x.ports) <= y.promiscuous
    && y.promiscuous * (PortsVia(t, x.addr) - y.ports) <= x.promiscuous
    && t.promiscuous * PortsVia(t, y.addr) * x.ports <= x.promiscuous + y.promiscuous
    && t.promiscuous * PortsVia(t, x.addr) * y.ports <= x.promiscuous + y.promiscuous
  }

  /**
   Two nodes with different addresses announce themselves.  Whatever the table: the order makes no difference to
   the peers; none to the ports if and only if the nodes share no port; and none to the promiscuous ports if and
   only if neither node drops a mark the other makes, nor takes over a marked port of the other.
   */
  lemma UpdatesCommuteIff(t: Table, me: NodeKey, k: NodeKey, x: MeshNode, l: NodeKey, y: MeshNode)
    requires k != me && l != me && k != l && x.addr != y.addr
    ensures var r, s := Update(Update(t, me, k, x), me, l, y), Update(Update(t, me, l, y), me, k, x);
            && r.peers == s.peers
            && (r.ports == s.ports <==> x.ports * y.ports == {})
            && (r.promiscuous == s.promiscuous <==> MarksCommute(t, x, y))
  {
    hide Update, MarksCommute;
    var r, s := Update(Update(t, me, k, x), me, l, y), Update(Update(t, me, l, y), me, k, x);
    PeersCommute(t, me, k, x, l, y);
    forall m
      ensures m in x.ports && m in y.ports ==> m in r.ports && m in s.ports && r.ports[m] != s.ports[m]
      ensures !(m in x.ports && m in y.ports) ==>
                (m in r.ports <==> m in s.ports) && (m in r.ports ==> r.ports[m] == s.ports[m])
    {
      UpdatedPort(t, me, k, x, m);
      UpdatedPort(t, me, l, y, m);
      UpdatedPort(Update(t, me, k, x), me, l, y, m);
      UpdatedPort(Update(t, me, l, y), me, k, x, m);
    }
    if x.ports * y.ports == {} {
      assert forall m :: m in x.ports && m in y.ports ==> m in x.ports * y.ports;
      assert r.ports == s.ports;
    } else {
      var m :| m in x.ports * y.ports;
      assert r.ports[m] != s.ports[m];
    }
    forall m
      ensures (m in r.promiscuous <==> m in s.promiscuous) <==> MarkCommutes(t, x, y, m)
    {
      MarkOrder(t, me, k, x, l, y, m);
    }
    EachMark(t, x, y);
  }

  lemma PeersCommute(t: Table, me: NodeKey, k: NodeKey, x: MeshNode, l: NodeKey, y: MeshNode)
    requires k != me && l != me && k != l
    ensures Update(Update(t, me, k, x), me, l, y).peers == Update(Update(t, me, l, y), me, k, x).peers
  {
    hide Forget;
    assert forall u: Table, a: Addr {:trigger Forget(u, a)} :: Forget(u, a).peers == u.peers by {
      ForgetKeepsPeers();
    }
  }

  lemma ForgetKeepsPeers()
    ensures forall u: Table, a: Addr {:trigger Forget(u, a)} :: Forget(u, a).peers == u.peers
  {
  }

  predicate MarkCommutes(t: Table, x: MeshNode, y: MeshNode, m: Mac) {
    && (m in x.promiscuous && m in PortsVia(t, y.addr) && m !in x.ports ==> m in y.promiscuous)
    && (m in y.promiscuous && m in PortsVia(t, x.addr) && m !in y.ports ==> m in x.promiscuous)
    && (m in t.promiscuous && m in PortsVia(t, y.addr) && m in x.ports ==> m in x.promiscuous || m in y.promiscuous)
    && (m in t.promiscuous && m in PortsVia(t, x.addr) && m in y.ports ==> m in x.promiscuous || m in y.promiscuous)
  }

  lemma EachMark(t: Table, x: MeshNode, y: MeshNode)
    ensures MarksCommute(t, x, y) <==> forall m :: MarkCommutes(t, x, y, m)
  {
    hide PortsVia;
    if forall m :: MarkCommutes(t, x, y, m) {
      forall m
        ensures m in x.promiscuous * (PortsVia(t, y.addr) - x.ports) ==> m in y.promiscuous
        ensures m in y.promiscuous * (PortsVia(t, x.addr) - y.ports) ==> m in x.promiscuous
        ensures m in t.promiscuous * PortsVia(t, y.addr) * x.ports ==> m in x.promiscuous + y.promiscuous
        ensures m in t.promiscuous * PortsVia(t, x.addr) * y.ports ==> m in x.promiscuous + y.promiscuous
      {
        assert MarkCommutes(t, x, y, m);
      }
    }
    if MarksCommute(t, x, y) {
      forall m
        ensures MarkCommutes(t, x, y, m)
      {
        assert m in x.promiscuous && m in PortsVia(t, y.addr) && m !in x.ports ==>
                 m in x.promiscuous * (PortsVia(t, y.addr) - x.ports);
        assert m in y.promiscuous && m in PortsVia(t, x.addr) && m !in y.ports ==>
                 m in y.promiscuous * (PortsVia(t, x.addr) - y.ports);
        assert m in t.promiscuous && m in PortsVia(t, y.addr) && m in x.ports ==>
                 m in t.promiscuous * PortsVia(t, y.addr) * x.ports;
        assert m in t.promiscuous && m in PortsVia(t, x.addr) && m in y.ports ==>
                 m in t.promiscuous * PortsVia(t, x.addr) * y.ports;
      }
    }
  }

  lemma MarkOrder(t: Table, me: NodeKey, k: NodeKey, x: MeshNode, l: NodeKey, y: MeshNode, m: Mac)
    requires k != me && l != me && x.addr != y.addr
    ensures var r, s := Update(Update(t, me, k, x), me, l, y), Update(Update(t, me, l, y), me, k, x);
            (m in r.promiscuous <==> m in s.promiscuous) <==> MarkCommutes(t, x, y, m)
  {
    hide Update;
    UpdatedMark(t, me, k, x, m);
    UpdatedMark(t, me, l, y, m);
    UpdatedMark(Update(t, me, k, x), me, l, y, m);
    UpdatedMark(Update(t, me, l, y), me, k, x, m);
    UpdatedPort(t, me, k, x, m);
    UpdatedPort(t, me, l, y, m);
  }

  lemma UpdatedMark(t: Table, me: NodeKey, k: NodeKey, x: MeshNode, m: Mac)
    requires k != me
    ensures m in Update(t, me, k, x).promiscuous <==>
            m in x.promiscuous || (m in t.promiscuous && m !in PortsVia(t, x.addr))
  {
  }

  lemma UpdatedPort(t: Table, me: NodeKey, k: NodeKey, x: MeshNode, m: Mac)
    requires k != me
    ensures var ports := Update(t, me, k, x).ports;
            && (m in ports <==> m in x.ports || (m in t.ports && t.ports[m] != PeerSwitch(x.addr)))
            && (m in ports ==> ports[m] == if m in x.ports then PeerSwitch(x.addr) else t.ports[m])
  {
  }

  /** Nodes 1 and 2 share no port, but node 2 marks a port node 1 had: the marks depend on who spoke last. */
  lemma MarksDependOnOrder()
    ensures var z, x := Updated(1, MeshNode(101, {9}, {})), Updated(1, MeshNode(101, {}, {}));
            var y := Updated(2, MeshNode(102, {}, {9}));
            && (forall key :: LastSeen([z, x, y], key) == LastSeen([z, y, x], key))
            && Run(0, [z, x, y]).promiscuous == {9} && Run(0, [z, y, x]).promiscuous == {}
  {
    hide Apply, Run, LastSeen;
    var z, x := Updated(1, MeshNode(101, {9}, {})), Updated(1, MeshNode(101, {}, {}));
    var y := Updated(2, MeshNode(102, {}, {9}));
    assert [z, x, y] == [z] + [x] + [y] && [z, y, x] == [z] + [y] + [x] && [z] == [] + [z];
    forall key
      ensures LastSeen([z, x, y], key) == LastSeen([z, y, x], key)
    {
      SeenStep([z], x, key);
      SeenStep([z] + [x], y, key);
      SeenStep([z], y, key);
      SeenStep([z] + [y], x, key);
    }
    RunStep(0, [], z);
    RunStep(0, [z], x);
    RunStep(0, [z] + [x], y);
    RunStep(0, [z], y);
    RunStep(0, [z] + [y], x);
    FirstMark(z, x, y);
  }

  lemma RunStep(me: NodeKey, front: seq<Event>, e: Event)
    ensures Run(me, front + [e]) == Apply(Run(me, front), me, e) && Run(me, []) == EMPTY
  {
    assert (front + [e])[..|front|] == front;
  }

  lemma {:induction false} FirstMark(z: Event, x: Event, y: Event)
    requires z == Updated(1, MeshNode(101, {9}, {})) && x == Updated(1, MeshNode(101, {}, {}))
    requires y == Updated(2, MeshNode(102, {}, {9}))
    ensures Apply(Apply(Apply(EMPTY, 0, z), 0, x), 0, y).promiscuous == {9}
    ensures Apply(Apply(Apply(EMPTY, 0, z), 0, y), 0, x).promiscuous == {}
  {
    var t := Apply(EMPTY, 0, z);
    assert 9 in t.ports && t.ports[9] == PeerSwitch(101);
    var u := Apply(t, 0, y);
    assert 9 in PortsVia(u, 101);
  }

  /**
   A node restarted at its address under a new key, and its old key deleted only then: with the old key go all
   the ports of the new one, and their marks.
   */
  lemma LateDeleteDropsNew(t: Table, me: NodeKey, was: NodeKey, now: NodeKey, node: MeshNode)
    requires was != me && now != me && was != now && was in t.peers && t.peers[was] == node.addr
    ensures var r := Remove(Update(t, me, now, node), me, was);
            && r.ports == t.ports - PortsVia(t, node.addr) - node.ports
            && r.promiscuous == t.promiscuous - PortsVia(t, node.addr) + node.promiscuous - node.ports
            && r.peers == t.peers[now := node.addr] - {was}
  {
    var u := Update(t, me, now, node);
    assert PortsVia(u, node.addr) == node.ports;
    assert u.peers[was] == node.addr;
  }

  /** Two nodes that announce one MAC: the table depends on who spoke last. */
  lemma SharedMacDependsOnOrder()
    ensures var x, y := Updated(1, MeshNode(101, {5}, {})), Updated(2, MeshNode(102, {5}, {}));
            && (forall key :: LastSeen([x, y], key) == LastSeen([y, x], key))
            && Run(0, [x, y]).ports != Run(0, [y, x]).ports
  {
    var x, y := Updated(1, MeshNode(101, {5}, {})), Updated(2, MeshNode(102, {5}, {}));
    assert [x, y][..1] == [x] && [y, x][..1] == [y] && [x][..0] == [] && [y][..0] == [];
    forall key
      ensures LastSeen([x, y], key) == LastSeen([y, x], key)
    {
      assert LastSeen([x], key) == (if key == 1 then Some(x.node) else LastSeen([], key));
      assert LastSeen([y], key) == (if key == 2 then Some(y.node) else LastSeen([], key));
    }
    assert Run(0, []) == EMPTY;
    assert Run(0, [x]) == Apply(Run(0, [x][..0]), 0, x);
    assert Run(0, [y]) == Apply(Run(0, [y][..0]), 0, y);
    assert Run(0, [x, y]).ports[5] == PeerSwitch(102) && Run(0, [y, x]).ports[5] == PeerSwitch(101);
  }

  // ---------------------------------------------------------------- the data plane

  class DataPlane {
    const me: NodeKey
    var ports: map<Mac, Destination>
    var promiscuous: set<Mac>
    var peers: map<NodeKey, Addr>

    constructor (me: NodeKey)
      ensures this.me == me && State() == EMPTY
    {
      this.me, ports, promiscuous, peers := me, map[], {}, map[];
    }

    function State(): Table
      reads this
    {
      Table(ports, promiscuous, peers)
    }

    /** Drop every port reached through a peer, then the promiscuous marks of those ports. */
    method ForgetPorts(addr: Addr)
      modifies this`ports, this`promiscuous
      ensures State() == Forget(old(State()), addr)
    {
      var gone: set<Mac>, rest := {}, ports.Keys;
      var was := ports;
      while rest != {}
        invariant rest <= was.Keys && gone <= PortsVia(Table(was, promiscuous, peers), addr)
        invariant forall m :: m in gone <==> m in PortsVia(Table(was, promiscuous, peers), addr) && m !in rest
        invariant ports == was - gone && promiscuous == old(promiscuous)
      {
        var m :| m in rest;
        if was[m] == PeerSwitch(addr) {
          gone := gone + {m};
          ports := ports - {m};
        }
        rest := rest - {m};
      }
      assert gone == PortsVia(old(State()), addr);
      promiscuous := promiscuous - gone;
    }

    method UpdateNode(key: NodeKey, node: MeshNode)
      modifies this
      ensures State() == Update(old(State()), me, key, node)
    {
      hide Forget;
      if key == me {
        return;
      }
      ForgetPorts(node.addr);
      peers := peers[key := node.addr];
      ghost var was := ports;
      var rest := node.ports;
      while rest != {}
        invariant rest <= node.ports
        invariant ports == was + map m | m in node.ports - rest :: Through(node, m)
        invariant promiscuous == Forget(old(State()), node.addr).promiscuous && peers == old(peers)[key := node.addr]
      {
        var m :| m in rest;
        ports := ports[m := PeerSwitch(node.addr)];
        rest := rest - {m};
      }
      assert node.ports - rest == node.ports;
      promiscuous := promiscuous + node.promiscuous;
    }

    method RemoveNode(key: NodeKey)
      modifies this
      ensures State() == Remove(old(State()), me, key)
    {
      if key == me {
        return;
      }
      if key in peers {
        var addr := peers[key];
        peers := peers - {key};
        ForgetPorts(addr);
      }
    }

    /** A frame of the MAC came in from a peer. */
    method HearFrom(mac: Mac, addr: Addr)
      modifies this`ports
      ensures State() == Apply(old(State()), me, Snooped(mac, addr))
    {
      ports := ports[mac := PeerSwitch(addr)];
    }

    method NewLocalPort(mac: Mac)
      modifies this`ports
      ensures State() == Apply(old(State()), me, NewPort(mac))
    {
      ports := ports[mac := LocalDuel];
    }
  }
}
