/**
The address allocator of the switch mesh: every node keeps its reservations in the shared chain, an allocation
looks at all of them, and a node that finds its own address taken elsewhere gives it up.
*/
module Dhcp {
  import opened Prelude

  type Mac = nat
  type NodeKey = nat

  /** An IPv4 address as its number. */
  type Ip = x: int | 0 <= x < 0x1_0000_0000

  /** Machine arithmetic on addresses: leaving the range would be a panic. */
  newtype U32 = x: int | 0 <= x < 0x1_0000_0000

  datatype Cidr = V4(addr: Ip, prefix: nat) | V6(prefix: nat)

  function Pow2(n: nat): (r: nat)
    ensures r >= 1
  {
    if n == 0 then 1 else 2 * Pow2(n - 1)
  }

  lemma {:induction false} Pow2Add(m: nat, n: nat)
    ensures Pow2(m + n) == Pow2(m) * Pow2(n)
  {
    if m == 0 {
    } else {
      Pow2Add(m - 1, n);
      assert Pow2(m + n) == 2 * (Pow2(m - 1) * Pow2(n));
    }
  }

  lemma Pow2At32()
    ensures Pow2(32) == 0x1_0000_0000
  {
    Pow2Add(16, 16);
    Pow2Add(8, 8);
    assert Pow2(8) == 256;
  }

  /** How many addresses a CIDR has. */
  function Size(c: Cidr): nat
    requires c.V4? && c.prefix <= 32
  {
    Pow2(32 - c.prefix)
  }

  /** What the search needs in order not to leave the range of its machine integers. */
  predicate WellFormed(c: Cidr) {
    match c
    case V4(addr, prefix) => prefix <= 32 && (Size(c) > 3 ==> addr + Size(c) <= 0x1_0000_0000)
    case V6(prefix) => 1 <= prefix <= 128
  }

  /** The address given for the network is the address of the network itself. */
  predicate Aligned(c: Cidr) {
    c.V4? ==> c.prefix <= 32 && c.addr % Size(c) == 0
  }

  lemma PositiveFactor(x: int, n: int)
    requires n > 0 && x * n > 0
    ensures x > 0
  {
  }

  lemma NextMultiple(q: int, r: int, n: int)
    requires n > 0 && q * n < r * n
    ensures (q + 1) * n <= r * n
  {
    assert (r - q) * n == r * n - q * n;
    PositiveFactor(r - q, n);
    assert (r - q - 1) * n >= 0;
  }

  /** Every properly aligned IPv4 network is safe to search. */
  lemma AlignedFits(c: Cidr)
    requires c.V4? && Aligned(c)
    ensures c.addr + Size(c) <= 0x1_0000_0000
    ensures WellFormed(c)
  {
    hide Pow2;
    var n := Pow2(32 - c.prefix);
    Pow2At32();
    Pow2Add(c.prefix, 32 - c.prefix);
    NextMultiple(c.addr / n, Pow2(c.prefix), n);
  }

  /**
   The addresses an allocation may hand out: not the network, not the gateway after it, not the broadcast
   address.
   */
  predicate Candidate(c: Cidr, ip: int) {
    c.V4? && c.prefix <= 32 && c.addr + 2 <= ip < c.addr + Size(c) - 1
  }

  // ---------------------------------------------------------------- the search

  /** The outcome is the lowest free candidate of the first CIDR that has one, or none if every candidate is taken. */
  ghost predicate LowestFree(cidrs: seq<Cidr>, taken: set<Ip>, r: Option<Ip>) {
    match r
    case None => forall i, ip :: 0 <= i < |cidrs| && Candidate(cidrs[i], ip) ==> ip in taken
    case Some(found) =>
      exists i :: 0 <= i < |cidrs| && LowestFreeIn(cidrs, taken, found, i)
  }

  ghost predicate LowestFreeIn(cidrs: seq<Cidr>, taken: set<Ip>, found: Ip, i: int)
    requires 0 <= i < |cidrs|
  {
    && Candidate(cidrs[i], found) && found !in taken
    && (forall ip :: Candidate(cidrs[i], ip) && ip < found ==> ip in taken)
    && (forall j, ip :: 0 <= j < i && Candidate(cidrs[j], ip) ==> ip in taken)
  }

  /** The lowest address of a range that is not taken. */
  function Scan(from: int, end: int, taken: set<Ip>): (r: Option<Ip>)
    requires 0 <= from && end <= 0x1_0000_0000
    ensures r.Some? ==> from <= r.value < end && r.value !in taken && forall ip :: from <= ip < r.value ==> ip in taken
    ensures r.None? ==> forall ip :: from <= ip < end ==> ip in taken
    decreases end - from
  {
    if from >= end then None else if from !in taken then Some(from) else Scan(from + 1, end, taken)
  }

  /** One CIDR after the other. */
  function Pick(cidrs: seq<Cidr>, taken: set<Ip>): Option<Ip>
    requires forall c :: c in cidrs ==> WellFormed(c)
  {
    if cidrs == [] then None
    else
      var here := PickIn(cidrs[0], taken);
      if here.Some? then here else Pick(cidrs[1..], taken)
  }

  function PickIn(c: Cidr, taken: set<Ip>): (r: Option<Ip>)
    requires WellFormed(c)
    ensures r.Some? ==> Candidate(c, r.value) && r.value !in taken
    ensures r.Some? ==> forall ip :: Candidate(c, ip) && ip < r.value ==> ip in taken
    ensures r.None? ==> forall ip :: Candidate(c, ip) ==> ip in taken
  {
    if c.V6? || Size(c) <= 3 then None else Scan(c.addr + 2, c.addr + Size(c) - 1, taken)
  }

  lemma {:induction false} PickIsLowestFree(cidrs: seq<Cidr>, taken: set<Ip>)
    requires forall c :: c in cidrs ==> WellFormed(c)
    ensures LowestFree(cidrs, taken, Pick(cidrs, taken))
  {
    hide Candidate, WellFormed;
    if cidrs == [] {
    } else {
      var here := PickIn(cidrs[0], taken);
      if here.Some? {
        assert LowestFreeIn(cidrs, taken, here.value, 0);
      } else {
        PickIsLowestFree(cidrs[1..], taken);
        var r := Pick(cidrs[1..], taken);
        if r.Some? {
          var i :| 0 <= i < |cidrs[1..]| && LowestFreeIn(cidrs[1..], taken, r.value, i);
          assert forall j :: 0 < j < |cidrs| ==> cidrs[j] == cidrs[1..][j - 1];
          assert LowestFreeIn(cidrs, taken, r.value, i + 1);
        } else {
          assert forall j :: 0 < j < |cidrs| ==> cidrs[j] == cidrs[1..][j - 1];
        }
      }
    }
  }

  /** Never the network address, the gateway behind it or the broadcast address. */
  lemma PickedIsAHost(cidrs: seq<Cidr>, taken: set<Ip>) returns (c: Cidr)
    requires forall c :: c in cidrs ==> WellFormed(c)
    requires Pick(cidrs, taken).Some?
    ensures var ip := Pick(cidrs, taken).value;
            && c in cidrs && c.V4? && c.prefix <= 30
            && c.addr < ip - 1 && ip < c.addr + Size(c) - 1 && ip !in taken
  {
    PickIsLowestFree(cidrs, taken);
    var ip := Pick(cidrs, taken).value;
    var i :| 0 <= i < |cidrs| && LowestFreeIn(cidrs, taken, ip, i);
    c := cidrs[i];
    assert Pow2(0) == 1 && Pow2(1) == 2;
  }

  // ---------------------------------------------------------------- reservations across the mesh

  /** The reservations of every node, as the chain holds them. */
  type Mesh = map<NodeKey, map<Mac, Ip>>

  predicate Reserved(m: Mesh, n: NodeKey, mac: Mac) {
    n in m && mac in m[n]
  }

  predicate OtherHolds(m: Mesh, me: NodeKey, mac: Mac, n: NodeKey, k: Mac, ip: Ip) {
    Reserved(m, n, k) && !(n == me && k == mac) && m[n][k] == ip
  }

  function Others(m: Mesh, me: NodeKey, mac: Mac): set<Ip> {
    set n, k | n in m && k in m[n] && !(n == me && k == mac) :: m[n][k]
  }

  lemma OthersAre(m: Mesh, me: NodeKey, mac: Mac)
    ensures forall ip :: ip in Others(m, me, mac) <==> exists n, k :: OtherHolds(m, me, mac, n, k, ip)
  {
    var ips := Others(m, me, mac);
    forall ip | ip in ips
      ensures exists n, k :: OtherHolds(m, me, mac, n, k, ip)
    {
      var n, k :| n in m && k in m[n] && !(n == me && k == mac) && m[n][k] == ip;
      assert OtherHolds(m, me, mac, n, k, ip);
    }
    forall n, k, ip | OtherHolds(m, me, mac, n, k, ip)
      ensures ip in ips
    {
    }
  }

  /** The addresses reserved by anyone but this client of this node. */
  function Taken(m: Mesh, me: NodeKey, mac: Mac): (r: set<Ip>)
    ensures forall ip :: ip in r <==> exists n, k :: OtherHolds(m, me, mac, n, k, ip)
  {
    OthersAre(m, me, mac);
    Others(m, me, mac)
  }

  function Release(m: Mesh, n: NodeKey, mac: Mac): Mesh {
    if n in m then m[n := m[n] - {mac}] else m
  }

  function Reserve(m: Mesh, n: NodeKey, mac: Mac, ip: Ip): Mesh
    requires n in m
  {
    var table: map<Mac, Ip> := m[n][mac := ip];
    m[n := table]
  }

  datatype Grant = Grant(mesh: Mesh, ip: Option<Ip>)

  function Allocate(m: Mesh, cidrs: seq<Cidr>, me: NodeKey, mac: Mac): Grant
    requires forall c :: c in cidrs ==> WellFormed(c)
  {
    var taken := Taken(m, me, mac);
    if Reserved(m, me, mac) && m[me][mac] !in taken then Grant(m, Some(m[me][mac]))
    else
      var released := if Reserved(m, me, mac) then Release(m, me, mac) else m;
      var ip := Pick(cidrs, taken);
      if me in m && ip.Some? then Grant(Reserve(released, me, mac, ip.value), ip) else Grant(released, None)
  }

  /** The client holds this address and nobody else does. */
  predicate HoldsAlone(m: Mesh, n: NodeKey, mac: Mac, ip: Ip) {
    Reserved(m, n, mac) && m[n][mac] == ip && ip !in Taken(m, n, mac)
  }

  /** No address is reserved twice in the mesh. */
  ghost predicate Unique(m: Mesh) {
    forall n, k, n', k' :: Reserved(m, n, k) && Reserved(m, n', k') && m[n][k] == m[n'][k'] ==> n == n' && k == k'
  }

  lemma PickAvoidsTaken(cidrs: seq<Cidr>, taken: set<Ip>)
    requires forall c :: c in cidrs ==> WellFormed(c)
    ensures Pick(cidrs, taken).Some? ==> Pick(cidrs, taken).value !in taken
  {
    PickIsLowestFree(cidrs, taken);
  }

  /** An allocation changes no reservation but its own, and that one ends up held alone or not at all. */
  lemma AllocateEffect(m: Mesh, cidrs: seq<Cidr>, me: NodeKey, mac: Mac)
    requires forall c :: c in cidrs ==> WellFormed(c)
    ensures var g := Allocate(m, cidrs, me, mac);
            && g.mesh.Keys == m.Keys
            && (forall n, k :: !(n == me && k == mac) ==>
                  (Reserved(g.mesh, n, k) <==> Reserved(m, n, k)) && (Reserved(m, n, k) ==> g.mesh[n][k] == m[n][k]))
            && (g.ip.Some? ==> HoldsAlone(g.mesh, me, mac, g.ip.value))
            && (g.ip.None? ==> !Reserved(g.mesh, me, mac))
  {
    hide Pick, WellFormed;
    var taken := Taken(m, me, mac);
    var g := Allocate(m, cidrs, me, mac);
    PickAvoidsTaken(cidrs, taken);
    SameOthers(m, g.mesh, me, mac);
  }

  /**
   What an allocation grants: the address the client holds alone, or else the lowest free one of the first range
   that has one; and nothing only if there is none, or no node to enter it for.
   */
  lemma AllocateGrants(m: Mesh, cidrs: seq<Cidr>, me: NodeKey, mac: Mac)
    requires forall c :: c in cidrs ==> WellFormed(c)
    ensures var g := Allocate(m, cidrs, me, mac);
            if exists ip :: HoldsAlone(m, me, mac, ip)
            then g.mesh == m && g.ip.Some? && HoldsAlone(m, me, mac, g.ip.value)
            else if me in m then LowestFree(cidrs, Taken(m, me, mac), g.ip)
            else g.ip.None?
  {
    hide Pick, WellFormed, LowestFree, Taken;
    PickIsLowestFree(cidrs, Taken(m, me, mac));
    if Reserved(m, me, mac) && m[me][mac] !in Taken(m, me, mac) {
      assert HoldsAlone(m, me, mac, m[me][mac]);
    }
  }

  /** Who has a reservation, but for this client. */
  function OtherClients(m: Mesh, me: NodeKey, mac: Mac): set<(NodeKey, Mac)> {
    set n, k | n in m && k in m[n] && !(n == me && k == mac) :: (n, k)
  }

  /** A mesh holds at most one address for each client. */
  lemma {:induction false} AddressesOf(m: Mesh, clients: set<(NodeKey, Mac)>, ips: set<Ip>)
    requires forall ip :: ip in ips ==> exists c :: c in clients && Reserved(m, c.0, c.1) && m[c.0][c.1] == ip
    ensures |ips| <= |clients|
    decreases |ips|
  {
    if ips == {} {
    } else {
      var ip :| ip in ips;
      var c :| c in clients && Reserved(m, c.0, c.1) && m[c.0][c.1] == ip;
      AddressesOf(m, clients - {c}, ips - {ip});
    }
  }

  lemma {:induction false} RangeNeeds(lo: int, hi: int, taken: set<Ip>)
    requires forall ip :: lo <= ip < hi ==> ip in taken
    ensures |taken| >= hi - lo
    decreases hi - lo
  {
    if hi <= lo {
    } else {
      RangeNeeds(lo, hi - 1, taken - {hi - 1});
    }
  }

  /** As long as fewer others have reservations than some range has addresses for hosts, a client is served. */
  lemma ServedWhileRoom(m: Mesh, cidrs: seq<Cidr>, me: NodeKey, mac: Mac, c: Cidr)
    requires forall c :: c in cidrs ==> WellFormed(c)
    requires me in m && c in cidrs && c.V4? && c.prefix <= 32 && |OtherClients(m, me, mac)| < Size(c) - 3
    ensures Allocate(m, cidrs, me, mac).ip.Some?
  {
    hide Allocate, Pow2;
    var taken := Taken(m, me, mac);
    AllocateGrants(m, cidrs, me, mac);
    if Allocate(m, cidrs, me, mac).ip.None? {
      var i :| 0 <= i < |cidrs| && cidrs[i] == c;
      assert forall ip :: Candidate(cidrs[i], ip) ==> ip in taken;
      RangeNeeds(c.addr + 2, c.addr + Size(c) - 1, taken);
      forall ip | ip in taken
        ensures exists o :: o in OtherClients(m, me, mac) && Reserved(m, o.0, o.1) && m[o.0][o.1] == ip
      {
        var n: NodeKey, k: Mac :| OtherHolds(m, me, mac, n, k, ip);
        assert (n, k) in OtherClients(m, me, mac);
      }
      AddressesOf(m, OtherClients(m, me, mac), taken);
      assert false;
    }
  }

  /** Reservations of others decide which addresses are taken. */
  lemma SameOthers(m: Mesh, m': Mesh, me: NodeKey, mac: Mac)
    requires forall n, k :: !(n == me && k == mac) ==>
               (Reserved(m', n, k) <==> Reserved(m, n, k)) && (Reserved(m, n, k) ==> m'[n][k] == m[n][k])
    ensures Taken(m', me, mac) == Taken(m, me, mac)
  {
    var a, b := Taken(m, me, mac), Taken(m', me, mac);
    forall ip | ip in a
      ensures ip in b
    {
      var n, k :| Reserved(m, n, k) && !(n == me && k == mac) && m[n][k] == ip;
      assert Reserved(m', n, k);
    }
    forall ip | ip in b
      ensures ip in a
    {
      var n, k :| Reserved(m', n, k) && !(n == me && k == mac) && m'[n][k] == ip;
      assert Reserved(m, n, k);
    }
  }

  lemma UniqueIffAlone(m: Mesh)
    ensures Unique(m) <==> forall n, k :: Reserved(m, n, k) ==> HoldsAlone(m, n, k, m[n][k])
  {
    if Unique(m) {
      forall n, k | Reserved(m, n, k)
        ensures HoldsAlone(m, n, k, m[n][k])
      {
      }
    }
    if forall n, k :: Reserved(m, n, k) ==> HoldsAlone(m, n, k, m[n][k]) {
      forall n, k, n', k' | Reserved(m, n, k) && Reserved(m, n', k') && m[n][k] == m[n'][k']
        ensures n == n' && k == k'
      {
        assert HoldsAlone(m, n, k, m[n][k]);
      }
    }
  }

  /** Another client's allocation never takes an address that is held alone. */
  lemma AllocateKeepsAlone(m: Mesh, cidrs: seq<Cidr>, me: NodeKey, mac: Mac, n: NodeKey, k: Mac, ip: Ip)
    requires forall c :: c in cidrs ==> WellFormed(c)
    requires HoldsAlone(m, n, k, ip)
    ensures HoldsAlone(Allocate(m, cidrs, me, mac).mesh, n, k, ip)
    ensures n == me && k == mac ==> Allocate(m, cidrs, me, mac) == Grant(m, Some(ip))
  {
    hide WellFormed, Pick, Allocate;
    var g := Allocate(m, cidrs, me, mac);
    AllocateEffect(m, cidrs, me, mac);
    if n == me && k == mac {
      AllocateAgain(m, cidrs, me, mac, ip);
    } else {
      forall n', k' | Reserved(g.mesh, n', k') && !(n' == n && k' == k)
        ensures g.mesh[n'][k'] != ip
      {
        if n' == me && k' == mac {
          assert Reserved(g.mesh, n, k);
        } else {
          assert Reserved(m, n', k');
        }
      }
    }
  }

  lemma AllocateAgain(m: Mesh, cidrs: seq<Cidr>, me: NodeKey, mac: Mac, ip: Ip)
    requires forall c :: c in cidrs ==> WellFormed(c)
    requires HoldsAlone(m, me, mac, ip)
    ensures Allocate(m, cidrs, me, mac) == Grant(m, Some(ip))
  {
  }

  // ---------------------------------------------------------------- runs

  /**
   An allocation that sees the whole chain, a port drop, a node joining or leaving, or one that saw a stale
   chain.
   */
  datatype Step =
    | Alloc(node: NodeKey, mac: Mac, cidrs: seq<Cidr>)
    | Drop(node: NodeKey, mac: Mac)
    | Join(node: NodeKey)
    | Leave(node: NodeKey)
    | Unsynced(node: NodeKey, mac: Mac, ip: Ip)

  predicate Proper(step: Step) {
    step.Alloc? ==> forall c :: c in step.cidrs ==> WellFormed(c)
  }

  function Apply(m: Mesh, step: Step): Mesh
    requires Proper(step)
  {
    match step
    case Alloc(n, mac, cidrs) => Allocate(m, cidrs, n, mac).mesh
    case Drop(n, mac) => Release(m, n, mac)
    case Join(n) => if n in m then m else m[n := map[]]
    case Leave(n) => m - {n}
    case Unsynced(n, mac, ip) => if n in m then Reserve(m, n, mac, ip) else m
  }

  function Run(m: Mesh, steps: seq<Step>): Mesh
    requires forall s :: s in steps ==> Proper(s)
  {
    if steps == [] then m else Apply(Run(m, steps[..|steps| - 1]), steps[|steps| - 1])
  }

  /** The step neither takes the reservation away nor gives its address to another. */
  predicate Spares(step: Step, n: NodeKey, mac: Mac, ip: Ip) {
    match step
    case Drop(n', mac') => !(n' == n && mac' == mac)
    case Leave(n') => n' != n
    case Unsynced(n', mac', ip') => !(n' == n && mac' == mac) && ip' != ip
    case _ => true
  }

  lemma ApplyKeepsAlone(m: Mesh, step: Step, n: NodeKey, k: Mac, ip: Ip)
    requires Proper(step) && HoldsAlone(m, n, k, ip) && Spares(step, n, k, ip)
    ensures HoldsAlone(Apply(m, step), n, k, ip)
  {
    hide WellFormed, Pick, Allocate;
    if step.Alloc? {
      AllocateKeepsAlone(m, step.cidrs, step.node, step.mac, n, k, ip);
    } else {
      var m' := Apply(m, step);
      assert Reserved(m', n, k) && m'[n][k] == ip;
      forall n', k' | Reserved(m', n', k') && !(n' == n && k' == k)
        ensures m'[n'][k'] != ip
      {
        if !(step.Unsynced? && step == Unsynced(n', k', m'[n'][k'])) {
          assert Reserved(m, n', k') && m[n'][k'] == m'[n'][k'];
        }
      }
    }
  }

  lemma ApplyKeepsUnique(m: Mesh, step: Step)
    requires Proper(step) && !step.Unsynced? && Unique(m)
    ensures Unique(Apply(m, step))
  {
    hide WellFormed, Pick, Allocate;
    var m' := Apply(m, step);
    if step.Alloc? {
      AllocateEffect(m, step.cidrs, step.node, step.mac);
      UniqueIffAlone(m);
      forall n, k | Reserved(m', n, k)
        ensures HoldsAlone(m', n, k, m'[n][k])
      {
        if !(n == step.node && k == step.mac) {
          AllocateKeepsAlone(m, step.cidrs, step.node, step.mac, n, k, m[n][k]);
        }
      }
      UniqueIffAlone(m');
    } else {
      assert forall n, k :: Reserved(m', n, k) ==> Reserved(m, n, k) && m[n][k] == m'[n][k];
    }
  }

  /** While every allocation sees the whole chain, no two reservations in the mesh ever share an address. */
  lemma {:induction false} NeverShared(m: Mesh, steps: seq<Step>)
    requires Unique(m)
    requires forall s :: s in steps ==> Proper(s) && !s.Unsynced?
    ensures Unique(Run(m, steps))
  {
    hide Unique, Apply, Proper;
    if steps == [] {
    } else {
      NeverShared(m, steps[..|steps| - 1]);
      ApplyKeepsUnique(Run(m, steps[..|steps| - 1]), steps[|steps| - 1]);
    }
  }

  /** The client has re-allocated among these steps. */
  predicate Renewed(steps: seq<Step>, n: NodeKey, k: Mac) {
    exists s :: s in steps && s.Alloc? && s.node == n && s.mac == k
  }

  /**
   From any mesh, after any run in which every allocation saw the whole chain: whoever has re-allocated and
   still has an address holds it alone; the rest keep what they had.
   */
  lemma {:induction false} RenewedHoldsAlone(m: Mesh, steps: seq<Step>, n: NodeKey, k: Mac)
    requires forall s :: s in steps ==> Proper(s) && !s.Unsynced?
    requires Reserved(Run(m, steps), n, k)
    ensures Renewed(steps, n, k) ==> HoldsAlone(Run(m, steps), n, k, Run(m, steps)[n][k])
    ensures !Renewed(steps, n, k) ==> Reserved(m, n, k) && m[n][k] == Run(m, steps)[n][k]
  {
    hide HoldsAlone, WellFormed, Allocate;
    if steps == [] {
    } else {
      var front, last := steps[..|steps| - 1], steps[|steps| - 1];
      assert steps == front + [last];
      var before := Run(m, front);
      assert last in steps;
      if last.Alloc? && last.node == n && last.mac == k {
        assert Renewed(steps, n, k);
        AllocateEffect(before, last.cidrs, n, k);
        AloneIs(Run(m, steps), n, k, Allocate(before, last.cidrs, n, k).ip.value);
      } else {
        StillReserved(before, last, n, k);
        RenewedHoldsAlone(m, front, n, k);
        assert Renewed(steps, n, k) <==> Renewed(front, n, k);
        if Renewed(front, n, k) {
          ApplyKeepsAlone(before, last, n, k, before[n][k]);
        }
      }
    }
  }

  /** Only an allocation of its own gives a client an address, or a different one. */
  lemma StillReserved(m: Mesh, step: Step, n: NodeKey, k: Mac)
    requires Proper(step) && !step.Unsynced? && Reserved(Apply(m, step), n, k)
    requires !(step.Alloc? && step.node == n && step.mac == k)
    ensures Reserved(m, n, k) && Apply(m, step)[n][k] == m[n][k] && Spares(step, n, k, m[n][k])
  {
    hide Allocate, WellFormed;
    if step.Alloc? {
      AllocateEffect(m, step.cidrs, step.node, step.mac);
    }
  }

  lemma AloneIs(m: Mesh, n: NodeKey, k: Mac, ip: Ip)
    requires HoldsAlone(m, n, k, ip)
    ensures m[n][k] == ip
  {
  }

  /** However many addresses are shared, one allocation by every owner that stays leaves none shared. */
  lemma RepairsEverything(m: Mesh, steps: seq<Step>)
    requires forall s :: s in steps ==> Proper(s) && !s.Unsynced?
    requires forall n, k :: Reserved(m, n, k) && Reserved(Run(m, steps), n, k) ==> Renewed(steps, n, k)
    ensures Unique(Run(m, steps))
  {
    hide HoldsAlone, Renewed, Run, Unique;
    var r := Run(m, steps);
    forall n, k | Reserved(r, n, k)
      ensures HoldsAlone(r, n, k, r[n][k])
    {
      RenewedHoldsAlone(m, steps, n, k);
    }
    UniqueIffAlone(r);
  }

  // ---------------------------------------------------------------- messages

  datatype Kind = Discover | Request | Other

  datatype Reply = Offer(ip: Ip) | Ack(ip: Ip) | Nak(ip: Ip) | Silent

  /** The reply to a client once its address, if any, is known. */
  function Answer(kind: Kind, requested: Option<Ip>, ip: Option<Ip>): Reply {
    if ip.None? then Nak(0)
    else
      match kind
      case Discover => Offer(ip.value)
      case Request => if requested == ip then Ack(ip.value) else Nak(ip.value)
      case Other => Silent
  }

  /** A discovery is refused exactly when the client holds no address alone and there is none left to give. */
  lemma RefusedIff(m: Mesh, cidrs: seq<Cidr>, me: NodeKey, mac: Mac, requested: Option<Ip>)
    requires forall c :: c in cidrs ==> WellFormed(c)
    ensures Answer(Discover, requested, Allocate(m, cidrs, me, mac).ip) == Nak(0) <==>
            && (forall ip :: !HoldsAlone(m, me, mac, ip))
            && (me in m ==> forall i, ip :: 0 <= i < |cidrs| && Candidate(cidrs[i], ip) ==> ip in Taken(m, me, mac))
  {
    hide Allocate, WellFormed, HoldsAlone, Taken;
    AllocateGrants(m, cidrs, me, mac);
    var ip := Allocate(m, cidrs, me, mac).ip;
    if ip.Some? && me in m && forall ip :: !HoldsAlone(m, me, mac, ip) {
      var i :| 0 <= i < |cidrs| && LowestFreeIn(cidrs, Taken(m, me, mac), ip.value, i);
    }
  }

  lemma {:induction false} KeepsAlone(m: Mesh, steps: seq<Step>, n: NodeKey, k: Mac, ip: Ip)
    requires HoldsAlone(m, n, k, ip)
    requires forall s :: s in steps ==> Proper(s) && Spares(s, n, k, ip)
    ensures HoldsAlone(Run(m, steps), n, k, ip)
  {
    hide HoldsAlone, Apply, Proper, Spares;
    if steps == [] {
    } else {
      KeepsAlone(m, steps[..|steps| - 1], n, k, ip);
      ApplyKeepsAlone(Run(m, steps[..|steps| - 1]), steps[|steps| - 1], n, k, ip);
    }
  }

  /**
   Once a client has been offered an address, then whatever else happens in the mesh that spares its
   reservation, a request for that address is acknowledged with it and a request for any other is refused.
   */
  lemma OfferIsHonoured(m: Mesh, n: NodeKey, mac: Mac, cidrs: seq<Cidr>, asked: Option<Ip>, ip: Ip, steps: seq<Step>,
                        laterCidrs: seq<Cidr>, requested: Option<Ip>)
    requires forall c :: c in cidrs || c in laterCidrs ==> WellFormed(c)
    requires Answer(Discover, asked, Allocate(m, cidrs, n, mac).ip) == Offer(ip)
    requires forall s :: s in steps ==> Proper(s) && Spares(s, n, mac, ip)
    ensures var later := Run(Allocate(m, cidrs, n, mac).mesh, steps);
            var g := Allocate(later, laterCidrs, n, mac);
            && g.mesh == later
            && Answer(Request, requested, g.ip) == (if requested == Some(ip) then Ack(ip) else Nak(ip))
            && Answer(Discover, requested, g.ip) == Offer(ip)
  {
    hide WellFormed, Proper, Spares, HoldsAlone, Allocate, Run;
    var g := Allocate(m, cidrs, n, mac);
    AllocateEffect(m, cidrs, n, mac);
    KeepsAlone(g.mesh, steps, n, mac, ip);
    AllocateKeepsAlone(Run(g.mesh, steps), laterCidrs, n, mac, n, mac, ip);
  }

  // ---------------------------------------------------------------- the subnet mask

  /** Bitwise and, or exclusive or, of the lowest n bits. */
  function BitAnd(x: nat, y: nat, n: nat): nat {
    if n == 0 then 0 else 2 * BitAnd(x / 2, y / 2, n - 1) + (if x % 2 == 1 && y % 2 == 1 then 1 else 0)
  }

  function BitXor(x: nat, y: nat, n: nat): nat {
    if n == 0 then 0 else 2 * BitXor(x / 2, y / 2, n - 1) + (if x % 2 == y % 2 then 0 else 1)
  }

  predicate Contains(c: Cidr, ip: Ip) {
    c.V4? && c.prefix <= 32 && ip / Size(c) == c.addr / Size(c)
  }

  /** The mask announced for a network. */
  function MaskOf(c: Cidr): nat
    requires c.V4? && c.prefix <= 32
  {
    var bits := 32 - c.prefix;
    if bits <= 1 then 0xffff_ffff else BitXor(Pow2(bits) - 1, 0xffff_ffff, 32)
  }

  /** The mask of the first CIDR that contains the address. */
  function SubnetMask(cidrs: seq<Cidr>, ip: Ip): nat {
    if !IsUnicast4(ip) then 0 else MaskOfFirst(cidrs, ip)
  }

  function MaskOfFirst(cidrs: seq<Cidr>, ip: Ip): nat {
    if cidrs == [] then 0xffff_ffff
    else if Contains(cidrs[0], ip) then MaskOf(cidrs[0])
    else MaskOfFirst(cidrs[1..], ip)
  }

  /** n bits of which the lowest are zero and the rest one. */
  function HighMask(bits: nat, n: nat): nat
    requires bits <= n
  {
    if bits == 0 then Pow2(n) - 1 else 2 * HighMask(bits - 1, n - 1)
  }

  lemma {:induction false} XorOnes(bits: nat, n: nat)
    requires bits <= n
    ensures BitXor(Pow2(bits) - 1, Pow2(n) - 1, n) == HighMask(bits, n)
  {
    hide Pow2, BitXor, HighMask;
    HighMaskIs(bits, n);
    if n == 0 {
      NoBits(Pow2(bits) - 1, Pow2(n) - 1);
    } else if bits == 0 {
      Doubles(n);
      XorOnes(0, n - 1);
      HighMaskIs(0, n - 1);
      XorBit(0, Pow2(n - 1) - 1, n, 0);
    } else {
      Doubles(n);
      Doubles(bits);
      XorOnes(bits - 1, n - 1);
      XorBit(Pow2(bits - 1) - 1, Pow2(n - 1) - 1, n, 1);
    }
  }

  lemma NoBits(x: nat, y: nat)
    ensures BitXor(x, y, 0) == 0 && Pow2(0) == 1
  {
  }

  lemma HighMaskIs(bits: nat, n: nat)
    ensures bits == 0 ==> HighMask(bits, n) == Pow2(n) - 1
    ensures 0 < bits <= n ==> HighMask(bits, n) == 2 * HighMask(bits - 1, n - 1)
  {
    hide Pow2;
  }

  lemma {:induction false} XorBit(x: nat, y: nat, n: nat, bit: nat)
    requires n > 0 && bit <= 1
    ensures BitXor(2 * x + bit, 2 * y + 1, n) == 2 * BitXor(x, y, n - 1) + 1 - bit
  {
    assert (2 * x + bit) / 2 == x && (2 * y + 1) / 2 == y;
  }

  lemma {:induction false} AndOnes(x: nat, n: nat)
    requires x < Pow2(n)
    ensures BitAnd(x, Pow2(n) - 1, n) == x
  {
    if n == 0 {
    } else {
      AndOnes(x / 2, n - 1);
    }
  }

  lemma {:induction false} AndHighBits(x: nat, bits: nat, n: nat)
    requires bits <= n && x < Pow2(n)
    ensures BitAnd(x, HighMask(bits, n), n) == x / Pow2(bits) * Pow2(bits)
  {
    hide Pow2, BitAnd;
    if bits == 0 {
      AndOnes(x, n);
      assert Pow2(0) == 1 by {
        Doubles(1);
      }
    } else {
      Doubles(n);
      Doubles(bits);
      AndHighBits(x / 2, bits - 1, n - 1);
      AndEven(x, HighMask(bits - 1, n - 1), n);
      DivideTwice(x, Pow2(bits - 1));
    }
  }

  lemma {:induction false} AndEven(x: nat, y: nat, n: nat)
    requires n > 0
    ensures BitAnd(x, 2 * y, n) == 2 * BitAnd(x / 2, y, n - 1)
  {
    assert 2 * y / 2 == y && 2 * y % 2 == 0;
  }

  lemma Doubles(n: nat)
    requires n > 0
    ensures Pow2(n) == 2 * Pow2(n - 1) && Pow2(0) == 1
  {
  }

  lemma DivideTwice(x: nat, n: nat)
    requires n > 0
    ensures 2 * (x / 2 / n * n) == x / (2 * n) * (2 * n)
  {
    var q, r := x / (2 * n), x % (2 * n);
    assert x == q * (2 * n) + r;
    assert q * (2 * n) == 2 * (q * n);
    assert x / 2 == q * n + r / 2 && r / 2 < n;
    QuotientIs(x / 2, n, q, r / 2);
  }

  lemma ZeroFactor(d: int, n: int)
    requires -n < d * n < n
    ensures d == 0
  {
  }

  lemma QuotientIs(a: int, n: int, q: int, r: int)
    requires n > 0 && a == q * n + r && 0 <= r < n
    ensures a / n == q
  {
    var d := a / n - q;
    assert d * n == a / n * n - q * n;
    ZeroFactor(d, n);
  }

  /** The mask of a network takes an address in it back to the network, but for the second one of a network of two. */
  lemma MaskGivesNetwork(c: Cidr, ip: Ip)
    requires c.V4? && Aligned(c) && Contains(c, ip)
    ensures BitAnd(ip, MaskOf(c), 32) == c.addr <==> c.prefix != 31 || ip == c.addr
  {
    hide Pow2, BitAnd, BitXor, HighMask;
    var bits := 32 - c.prefix;
    Pow2At32();
    if bits >= 2 {
      XorOnes(bits, 32);
      AndHighBits(ip, bits, 32);
      assert c.addr == c.addr / Pow2(bits) * Pow2(bits);
    } else {
      AndOnes(ip, 32);
      if bits == 0 {
        assert Size(c) == 1 by {
          NoBits(0, 0);
        }
      }
    }
  }

  ghost predicate Disjoint(cidrs: seq<Cidr>) {
    forall i, j, ip: Ip :: 0 <= i < j < |cidrs| && Contains(cidrs[i], ip) ==> !Contains(cidrs[j], ip)
  }

  lemma CandidateIsContained(c: Cidr, ip: Ip)
    requires Aligned(c) && Candidate(c, ip)
    ensures Contains(c, ip)
  {
    hide Pow2;
    var n := Size(c);
    QuotientIs(ip, n, c.addr / n, ip - c.addr);
  }

  lemma InRangeIsContained(c: Cidr, ip: Ip)
    requires c.V4? && Aligned(c) && c.addr <= ip < c.addr + Size(c)
    ensures Contains(c, ip)
  {
    hide Pow2;
    var n := Size(c);
    QuotientIs(ip, n, c.addr / n, ip - c.addr);
  }

  /**
   With aligned ranges that do not overlap, no range has the address as its network, gateway or broadcast
   address.
   */
  lemma PickedIsFree(cidrs: seq<Cidr>, taken: set<Ip>, c: Cidr)
    requires forall c :: c in cidrs ==> WellFormed(c) && Aligned(c)
    requires Disjoint(cidrs) && Pick(cidrs, taken).Some? && c in cidrs && c.V4?
    ensures var ip := Pick(cidrs, taken).value;
            ip != c.addr && ip != c.addr + 1 && ip != c.addr + Size(c) - 1
  {
    hide Pow2, Contains, Pick;
    PickIsLowestFree(cidrs, taken);
    var ip := Pick(cidrs, taken).value;
    var i :| 0 <= i < |cidrs| && LowestFreeIn(cidrs, taken, ip, i);
    var d := cidrs[i];
    assert d in cidrs;
    CandidateIsContained(d, ip);
    AlignedFits(c);
    if c != d && ip in {c.addr, c.addr + 1, c.addr + Size(c) - 1} {
      var j :| 0 <= j < |cidrs| && cidrs[j] == c;
      // The address itself lies in both ranges, or the one before it does.
      var shared: Ip := if c.addr <= ip < c.addr + Size(c) then ip else ip - 1;
      InRangeIsContained(c, shared);
      InRangeIsContained(d, shared);
      assert false;
    }
  }

  lemma {:induction false} FirstContaining(cidrs: seq<Cidr>, i: int, ip: Ip)
    requires 0 <= i < |cidrs| && Contains(cidrs[i], ip) && Disjoint(cidrs)
    ensures MaskOfFirst(cidrs, ip) == MaskOf(cidrs[i])
    decreases |cidrs|
  {
    hide Contains, MaskOf;
    if i == 0 {
    } else {
      assert !Contains(cidrs[0], ip);
      var rest := cidrs[1..];
      assert forall j :: 0 <= j < |rest| ==> rest[j] == cidrs[j + 1];
      assert Disjoint(rest);
      FirstContaining(rest, i - 1, ip);
    }
  }

  lemma {:induction false} AndZero(x: nat, n: nat)
    ensures BitAnd(x, 0, n) == 0
  {
    if n == 0 {
    } else {
      AndZero(x / 2, n - 1);
    }
  }

  /**
   The mask sent with a freshly picked address takes it back to the network it was picked from, exactly when
   that address is not a multicast one.
   */
  lemma PickedMask(cidrs: seq<Cidr>, taken: set<Ip>, i: int)
    requires forall c :: c in cidrs ==> WellFormed(c) && Aligned(c) && c.prefix >= 1
    requires Disjoint(cidrs) && Pick(cidrs, taken).Some?
    requires 0 <= i < |cidrs| && LowestFreeIn(cidrs, taken, Pick(cidrs, taken).value, i)
    ensures var ip := Pick(cidrs, taken).value;
            BitAnd(ip, SubnetMask(cidrs, ip), 32) == cidrs[i].addr <==> ip / 0x1000_0000 != 14
  {
    hide BitAnd, MaskOf, MaskOfFirst, Pow2, Disjoint;
    var ip, c := Pick(cidrs, taken).value, cidrs[i];
    assert c in cidrs;
    CandidateIsContained(c, ip);
    FirstContaining(cidrs, i, ip);
    AlignedFits(c);
    if IsUnicast4(ip) {
      SmallNetworks(c);
      MaskGivesNetwork(c, ip);
    } else {
      AndZero(ip, 32);
      HalfOfAll(c);
    }
  }

  /** A range of multicast addresses: the first address picked is sent with a mask that gives no network at all. */
  lemma MulticastMaskExample()
    ensures var cidrs := [V4(0xe000_0000, 24)];
            && WellFormed(cidrs[0]) && Aligned(cidrs[0])
            && Pick(cidrs, {}) == Some(0xe000_0002)
            && BitAnd(0xe000_0002, SubnetMask(cidrs, 0xe000_0002), 32) == 0
  {
    var c := V4(0xe000_0000, 24);
    assert Size(c) == 256 by {
      EightBits();
    }
    PickIsLowestFree([c], {});
    assert Candidate(c, 0xe000_0002);
    AndZero(0xe000_0002, 32);
  }

  lemma EightBits()
    ensures Pow2(8) == 256
  {
  }

  lemma SmallNetworks(c: Cidr)
    requires c.V4? && c.prefix <= 32 && Size(c) > 3
    ensures 32 - c.prefix >= 2
  {
    assert Pow2(0) == 1 && Pow2(1) == 2;
  }

  lemma {:induction false} Pow2Grows(m: nat, n: nat)
    requires m <= n
    ensures Pow2(m) <= Pow2(n)
  {
    if m == n {
    } else {
      Pow2Grows(m, n - 1);
    }
  }

  lemma HalfOfAll(c: Cidr)
    requires c.V4? && 1 <= c.prefix <= 32
    ensures Size(c) <= 0x8000_0000
  {
    Pow2At32();
    Pow2Grows(32 - c.prefix, 31);
  }

  // ---------------------------------------------------------------- the server on one node

  class DhcpServer {
    const me: NodeKey
    var cidrs: seq<Cidr>
    /** The chain, as a sync leaves it. */
    var mesh: Mesh

    constructor (me: NodeKey, cidrs: seq<Cidr>, mesh: Mesh)
      ensures this.me == me && this.cidrs == cidrs && this.mesh == mesh
    {
      this.me, this.cidrs, this.mesh := me, cidrs, mesh;
    }

    /** Go through every reservation: our own for this client, and the addresses of all others. */
    method Survey(mac: Mac) returns (found: Option<Ip>, already: set<Ip>)
      ensures found == if Reserved(mesh, me, mac) then Some(mesh[me][mac]) else None
      ensures already == Taken(mesh, me, mac)
    {
      found, already := None, {};
      var nodes := mesh.Keys;
      while nodes != {}
        invariant nodes <= mesh.Keys
        invariant forall ip :: ip in already <==>
                    exists n, k :: Reserved(mesh, n, k) && n !in nodes && !(n == me && k == mac) && mesh[n][k] == ip
        invariant found == if Reserved(mesh, me, mac) && me !in nodes then Some(mesh[me][mac]) else None
      {
        var n :| n in nodes;
        var ips := SurveyNode(n, mac);
        already := already + ips;
        if n == me && mac in mesh[n] {
          found := Some(mesh[n][mac]);
        }
        nodes := nodes - {n};
      }
    }

    method SurveyNode(n: NodeKey, mac: Mac) returns (ips: set<Ip>)
      requires n in mesh
      ensures forall ip :: ip in ips <==> exists k :: Reserved(mesh, n, k) && !(n == me && k == mac) && mesh[n][k] == ip
    {
      ips := {};
      var macs := mesh[n].Keys;
      while macs != {}
        invariant macs <= mesh[n].Keys
        invariant forall ip :: ip in ips <==>
                    exists k :: Reserved(mesh, n, k) && k !in macs && !(n == me && k == mac) && mesh[n][k] == ip
      {
        var k :| k in macs;
        if !(k == mac && n == me) {
          ips := ips + {mesh[n][k]};
        }
        macs := macs - {k};
      }
    }

    /** The first free address, CIDR by CIDR, in machine arithmetic. */
    method Search(already: set<Ip>) returns (r: Option<Ip>)
      requires forall c :: c in cidrs ==> WellFormed(c)
      ensures r == Pick(cidrs, already)
    {
      hide WellFormed, Pow2;
      r := None;
      for i := 0 to |cidrs|
        invariant r == None && Pick(cidrs, already) == Pick(cidrs[i..], already)
      {
        r := SearchIn(cidrs[i], already);
        if r.Some? {
          return;
        }
        assert cidrs[i..][1..] == cidrs[i + 1..];
      }
    }

    method SearchIn(c: Cidr, already: set<Ip>) returns (r: Option<Ip>)
      requires WellFormed(c)
      ensures r == PickIn(c, already)
    {
      var range := match c case V4(_, prefix) => 32 - prefix case V6(prefix) => 128 - prefix;
      if c.V6? {
        return None;
      }
      if range <= 0 {
        return None;
      }
      var count := Pow2(range);
      if count <= 3 {
        return None;
      }
      count := count - 3;
      var start := c.addr as U32;
      start := start + 2;
      var end := start + count as U32;
      var ip := start;
      while ip < end
        invariant start <= ip <= end
        invariant Scan(start as int, end as int, already) == Scan(ip as int, end as int, already)
      {
        if ip as int !in already {
          return Some(ip as int);
        }
        ip := ip + 1;
      }
      return None;
    }

    /** The address of a client: the one it has, unless somebody else has it too, or a new one. */
    method AllocateIpv4(mac: Mac) returns (r: Option<Ip>)
      requires forall c :: c in cidrs ==> WellFormed(c)
      modifies this`mesh
      ensures Grant(mesh, r) == Allocate(old(mesh), cidrs, me, mac)
    {
      hide Pick, Taken, WellFormed;
      var found, already := Survey(mac);
      if found.Some? {
        if found.value in already {
          mesh := mesh[me := mesh[me] - {mac}];
        } else {
          return found;
        }
      }
      var ip := Search(already);
      if ip.Some? && me in mesh {
        var table: map<Mac, Ip> := mesh[me][mac := ip.value];
        mesh := mesh[me := table];
        return ip;
      }
      return None;
    }

    /** One DHCP message: allocate, then answer. */
    method Process(mac: Mac, kind: Kind, requested: Option<Ip>) returns (reply: Reply, mask: nat)
      requires forall c :: c in cidrs ==> WellFormed(c) && c.prefix >= 1
      modifies this`mesh
      ensures mesh == Allocate(old(mesh), cidrs, me, mac).mesh
      ensures reply == Answer(kind, requested, Allocate(old(mesh), cidrs, me, mac).ip)
      ensures !reply.Silent? ==> mask == SubnetMask(cidrs, reply.ip)
    {
      hide WellFormed;
      var ip := AllocateIpv4(mac);
      var clientIp := if ip.Some? then ip.value else 0;
      mask := SubnetMask(cidrs, clientIp);
      if ip.None? {
        return Nak(0), mask;
      }
      match kind
      case Discover => return Offer(clientIp), mask;
      case Request => return if requested == Some(clientIp) then Ack(clientIp) else Nak(clientIp), mask;
      case Other => return Silent, mask;
    }

    /** A port went away: its reservation goes with it. */
    method DropPort(mac: Mac)
      modifies this`mesh
      ensures mesh == Release(old(mesh), me, mac)
    {
      if me in mesh {
        mesh := mesh[me := mesh[me] - {mac}];
      }
    }
  }
}
