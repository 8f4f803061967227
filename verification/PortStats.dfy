/** Statistics per port: the addresses seen on it, their counts and the busiest ones. */
module PortStats {
  import opened Octets
  import opened SearchTree
  import opened TreeTotals
  import opened AddressTree
  import opened TopAddresses

  const MAX_NUM_IP_ADDRESS := 5

  datatype Touch = Touch(port: U32, host: Host, pkts: nat, bytes: nat)

  datatype Port = Port(tree: Counts, top: seq<Slot>, numAddr: nat, cumulativeAddr: nat,
                       numFlows: nat, numPkts: nat, numBytes: nat)

  function Blank(): (top: seq<Slot>) { seq(MAX_NUM_IP_ADDRESS, _ => EMPTY) }

  // A port seen for the first time.
  function Opened(u: Touch): (p: Port) {
    Port(Node(Nil, u.host, 1, Nil), UpdateTop(Blank(), Slot(u.host.addr, u.host.version, 1)),
         1, 1, 1, u.pkts, u.bytes)
  }

  // A port seen again. The count of a host is never 0, so the address is always charged.
  function Charge(p: Port, u: Touch): (r: Port) {
    var (tree, count) := Update(p.tree, u.host);
    Port(tree,
         if count == 0 then p.top else UpdateTop(p.top, Slot(u.host.addr, u.host.version, count)),
         if count == UPDATED_TREE then p.numAddr + 1 else p.numAddr,
         if count == 0 then p.cumulativeAddr else p.cumulativeAddr + 1,
         p.numFlows + 1, p.numPkts + u.pkts, p.numBytes + u.bytes)
  }

  // updatePortStats.
  function UpdatePortStats(stats: map<U32, Port>, u: Touch): (r: map<U32, Port>) {
    stats[u.port := if u.port in stats then Charge(stats[u.port], u) else Opened(u)]
  }

  function Run(us: seq<Touch>): (stats: map<U32, Port>) {
    if us == [] then map[] else UpdatePortStats(Run(us[..|us| - 1]), us[|us| - 1])
  }

  // A port not seen yet, as if its record were there with every field zero.
  const UNSEEN := Port(Nil, Blank(), 0, 0, 0, 0, 0)

  function At(stats: map<U32, Port>, port: U32): (p: Port) {
    if port in stats then stats[port] else UNSEEN
  }

  lemma OpenedIsCharged(u: Touch)
    ensures Opened(u) == Charge(UNSEEN, u)
  {
  }

  // What the updates say about a port.
  ghost function Hits(us: seq<Touch>, port: U32, h: Host): nat {
    if us == [] then 0
    else
      var u := us[|us| - 1];
      Hits(us[..|us| - 1], port, h) + if u.port == port && u.host == h then 1 else 0
  }

  ghost function AddrHits(us: seq<Touch>, port: U32, addr: U32): nat {
    if us == [] then 0
    else
      var u := us[|us| - 1];
      AddrHits(us[..|us| - 1], port, addr) + if u.port == port && u.host.addr == addr then 1 else 0
  }

  ghost function Sum(us: seq<Touch>, port: U32, w: Touch -> nat): nat {
    if us == [] then 0
    else
      var u := us[|us| - 1];
      Sum(us[..|us| - 1], port, w) + if u.port == port then w(u) else 0
  }

  function Each(u: Touch): (n: nat) { 1 }
  function Pkts(u: Touch): (n: nat) { u.pkts }
  function Bytes(u: Touch): (n: nat) { u.bytes }

  // The counts are the updates of each host, and hosts without updates have none.
  ghost predicate HostsExact(us: seq<Touch>, port: U32, m: map<Host, nat>) {
    forall h :: if h in m then m[h] == Hits(us, port, h) > 0 else Hits(us, port, h) == 0
  }

  // The tree is searchable and its counts are the updates of each host.
  ghost predicate TreeExact(us: seq<Touch>, port: U32, t: Counts) {
    Branches(t) && HostsExact(us, port, Contents(t))
  }

  // The counters agree with the tree and with the updates.
  ghost predicate CountersExact(us: seq<Touch>, port: U32, p: Port) {
    && p.numAddr == Total(p.tree, AddressTree.One)
    && p.cumulativeAddr == p.numFlows == Total(p.tree, Itself) == Sum(us, port, Each)
    && p.numPkts == Sum(us, port, Pkts) && p.numBytes == Sum(us, port, Bytes)
  }

  // The last update reaches the record of its port only.
  lemma RunAt(us: seq<Touch>, port: U32)
    requires us != []
    ensures var past, u := us[..|us| - 1], us[|us| - 1];
            At(Run(us), port) == if u.port == port then Charge(At(Run(past), port), u) else At(Run(past), port)
  {
    OpenedIsCharged(us[|us| - 1]);
  }

  lemma HostsStep(us: seq<Touch>, port: U32, m: map<Host, nat>)
    requires us != [] && us[|us| - 1].port == port && HostsExact(us[..|us| - 1], port, m)
    ensures var h := us[|us| - 1].host;
            HostsExact(us, port, m[h := (if h in m then m[h] else 0) + 1])
  {
  }

  lemma TreeStep(us: seq<Touch>, port: U32, t: Counts)
    requires us != [] && us[|us| - 1].port == port && TreeExact(us[..|us| - 1], port, t)
    ensures TreeExact(us, port, Update(t, us[|us| - 1].host).0)
  {
    var h := us[|us| - 1].host;
    UpdateCounts(t, h);
    HostsStep(us, port, Contents(t));
  }

  lemma {:induction false} TreeIsExact(us: seq<Touch>, port: U32)
    ensures TreeExact(us, port, At(Run(us), port).tree)
  {
    if us != [] {
      var past := us[..|us| - 1];
      TreeIsExact(past, port);
      RunAt(us, port);
      if us[|us| - 1].port == port {
        TreeStep(us, port, At(Run(past), port).tree);
      }
    }
  }

  lemma CountersStep(us: seq<Touch>, port: U32, p: Port)
    requires us != [] && us[|us| - 1].port == port && Branches(p.tree)
    requires HostsExact(us[..|us| - 1], port, Contents(p.tree))
    requires CountersExact(us[..|us| - 1], port, p)
    ensures CountersExact(us, port, Charge(p, us[|us| - 1]))
  {
    UpdateCounts(p.tree, us[|us| - 1].host);
    UpdateTotals(p.tree, us[|us| - 1].host);
  }

  lemma {:induction false} CountersAreExact(us: seq<Touch>, port: U32)
    ensures CountersExact(us, port, At(Run(us), port))
  {
    if us != [] {
      var past := us[..|us| - 1];
      CountersAreExact(past, port);
      RunAt(us, port);
      if us[|us| - 1].port == port {
        TreeIsExact(past, port);
        CountersStep(us, port, At(Run(past), port));
      }
    }
  }

  // num_addr counts the hosts seen, cumulative_addr and num_flows their updates.
  lemma PortIsExact(us: seq<Touch>, port: U32)
    ensures var p := At(Run(us), port);
            && HostsExact(us, port, Contents(p.tree))
            && p.numAddr == |Contents(p.tree)| == Total(p.tree, AddressTree.One)
            && p.cumulativeAddr == p.numFlows == Total(p.tree, Itself) == Sum(us, port, Each)
            && p.numPkts == Sum(us, port, Pkts) && p.numBytes == Sum(us, port, Bytes)
  {
    TreeIsExact(us, port);
    CountersAreExact(us, port);
    OneNodePerHost(At(Run(us), port).tree);
  }

  // Every address of the port is seen with one IP version.
  ghost predicate OneVersion(us: seq<Touch>, port: U32) {
    forall i, j | 0 <= i < |us| && 0 <= j < |us| && us[i].port == us[j].port == port && us[i].host.addr == us[j].host.addr ::
      us[i].host == us[j].host
  }

  lemma {:induction false} AddrIsHost(us: seq<Touch>, port: U32, h: Host)
    requires forall i | 0 <= i < |us| && us[i].port == port && us[i].host.addr == h.addr :: us[i].host == h
    ensures AddrHits(us, port, h.addr) == Hits(us, port, h)
  {
    if us != [] { AddrIsHost(us[..|us| - 1], port, h); }
  }

  // The count the tree returns is the number of updates of the address.
  lemma CountIsHits(us: seq<Touch>, port: U32, t: Counts)
    requires us != [] && us[|us| - 1].port == port && OneVersion(us, port)
    requires TreeExact(us[..|us| - 1], port, t)
    ensures var h := us[|us| - 1].host;
            Update(t, h).1 == AddrHits(us, port, h.addr) == AddrHits(us[..|us| - 1], port, h.addr) + 1
  {
    UpdateContents(t, us[|us| - 1].host);
    AddrIsHost(us[..|us| - 1], port, us[|us| - 1].host);
  }

  lemma TopStep(us: seq<Touch>, port: U32, p: Port, k: nat) returns (k': nat)
    requires us != [] && us[|us| - 1].port == port
    requires var h := us[|us| - 1].host;
             Update(p.tree, h).1 == AddrHits(us, port, h.addr) == AddrHits(us[..|us| - 1], port, h.addr) + 1
    requires IsTop(p.top, k, a => AddrHits(us[..|us| - 1], port, a))
    ensures IsTop(Charge(p, us[|us| - 1]).top, k', a => AddrHits(us, port, a))
  {
    var past, h := us[..|us| - 1], us[|us| - 1].host;
    var pair := Slot(h.addr, h.version, AddrHits(us, port, h.addr));
    k' := UpdateKeepsTop(p.top, k, a => AddrHits(past, port, a), a => AddrHits(us, port, a), pair);
  }

  // The table of a port is the true top of its addresses.
  lemma {:induction false} TopIsTrue(us: seq<Touch>, port: U32) returns (k: nat)
    requires OneVersion(us, port)
    ensures IsTop(At(Run(us), port).top, k, a => AddrHits(us, port, a))
  {
    if us == [] {
      k := 0;
      assert forall i | 0 <= i < MAX_NUM_IP_ADDRESS :: Blank()[i] == EMPTY;
    } else {
      var past := us[..|us| - 1];
      k := TopIsTrue(past, port);
      RunAt(us, port);
      if us[|us| - 1].port == port {
        TreeIsExact(past, port);
        CountIsHits(us, port, At(Run(past), port).tree);
        k := TopStep(us, port, At(Run(past), port), k);
      } else {
        SameTop(At(Run(past), port).top, k, a => AddrHits(past, port, a), a => AddrHits(us, port, a));
      }
    }
  }

  lemma SameTop(top: seq<Slot>, k: nat, counts: U32 -> nat, counts': U32 -> nat)
    requires IsTop(top, k, counts) && forall a :: counts'(a) == counts(a)
    ensures IsTop(top, k, counts')
  {
  }

  ghost predicate UsesSlots(us: seq<Touch>, port: U32, k: nat) {
    IsTop(At(Run(us), port).top, k, a => AddrHits(us, port, a))
  }

  // The table of a port is the true top of its addresses, for some number of used slots.
  ghost predicate TrueTop(us: seq<Touch>, port: U32) {
    exists k :: UsesSlots(us, port, k)
  }

  // The updates of the port name hosts of a set only.
  ghost predicate Among(us: seq<Touch>, port: U32, hosts: iset<Host>) {
    forall u | u in us && u.port == port :: u.host in hosts
  }

  ghost predicate VersionsAgree(hosts: iset<Host>) {
    forall g, h | g in hosts && h in hosts && g.addr == h.addr :: g.version == h.version
  }

  // One update each of two versions of an address: the slot has the count of the last one alone.
  lemma TwoVersionsMislead(addr: U32, v: byte, w: byte, port: U32)
    requires v != w
    ensures !TrueTop([Touch(port, Host(v, addr), 1, 1), Touch(port, Host(w, addr), 1, 1)], port)
  {
    var a, b := Touch(port, Host(v, addr), 1, 1), Touch(port, Host(w, addr), 1, 1);
    var us := [a, b];
    assert us[..1] == [a] && [a][..0] == [];
    RunAt([a], port);
    RunAt(us, port);
    assert Run([]) == map[];
    assert AddrHits([a], port, addr) == 1 && AddrHits(us, port, addr) == 2;
    var t := Node(Nil, a.host, 1, Nil);
    assert Update(Nil, a.host) == (t, 1) && Update(t, b.host).1 == 1;
    var top := At(Run(us), port).top;
    assert top[0].addr == addr && top[0].count == 1;
  }

  // The tables are true for all updates from a set of hosts if and only if the set has one IP
  // version per address.
  lemma TopIsTrueIff(hosts: iset<Host>, port: U32)
    ensures (forall us | Among(us, port, hosts) :: TrueTop(us, port)) <==> VersionsAgree(hosts)
  {
    if VersionsAgree(hosts) {
      forall us | Among(us, port, hosts) ensures TrueTop(us, port) {
        assert forall i | 0 <= i < |us| :: us[i] in us;
        var k := TopIsTrue(us, port);
        assert UsesSlots(us, port, k);
      }
    } else {
      var g, h :| g in hosts && h in hosts && g.addr == h.addr && g.version != h.version;
      TwoVersionsMislead(g.addr, g.version, h.version, port);
      assert Among([Touch(port, g, 1, 1), Touch(port, h, 1, 1)], port, hosts);
    }
  }

  // struct port_stats, updated in place.
  class PortRecord {
    var tree: AddrTree
    var top: array<Slot>
    var numAddr: nat
    var cumulativeAddr: nat
    var numFlows: nat
    var numPkts: nat
    var numBytes: nat

    ghost predicate Valid()
      reads this, tree
    {
      tree.Valid()
    }

    ghost function View(): Port
      requires Valid()
      reads this, tree, top
    {
      Port(tree.View(), top[..], numAddr, cumulativeAddr, numFlows, numPkts, numBytes)
    }

    constructor (u: Touch)
      ensures Valid() && fresh(tree) && fresh(top) && View() == Opened(u)
    {
      numPkts, numBytes := u.pkts, u.bytes;
      numAddr, cumulativeAddr, numFlows := 1, 1, 1;
      var slots := new Slot[MAX_NUM_IP_ADDRESS](_ => EMPTY);
      assert slots[..] == Blank();
      UpdateTopIpAddress(Slot(u.host.addr, u.host.version, 1), slots);
      top := slots;
      tree := new AddrTree(u.host);
    }

    method Update(u: Touch)
      requires Valid()
      modifies this, tree, top
      ensures Valid() && tree == old(tree) && top == old(top) && View() == Charge(old(View()), u)
    {
      ghost var before := tree.View();
      var count := tree.UpdateIpTree(u.host);
      ghost var after := tree.View();
      assert (after, count) == AddressTree.Update(before, u.host);
      if count == UPDATED_TREE {
        numAddr := numAddr + 1;
      }
      if count != 0 {
        cumulativeAddr := cumulativeAddr + 1;
        UpdateTopIpAddress(Slot(u.host.addr, u.host.version, count), top);
      }
      numPkts, numBytes, numFlows := numPkts + u.pkts, numBytes + u.bytes, numFlows + 1;
    }
  }
}
