/** Conservation of traffic: over a whole capture every packet, byte and flow that is
    counted on arrival is charged to exactly one protocol and one category. */
module Conservation {
  import opened SearchTree
  import opened TreeTotals
  import opened FlowOrder
  import opened FlowTable
  import opened Workflow

  // What is conserved: packets, bytes, or the number of flows.
  type Weight = Flow -> nat

  function One(f: Flow): (n: nat) { 1 }

  function Sum(s: seq<nat>): (n: int) { if s == [] then 0 else s[0] + Sum(s[1..]) }

  // ------------------------------------------------------- charging a flow

  lemma {:induction false} SumUpdates(s: seq<nat>, i: nat, n: nat)
    requires i < |s|
    ensures Sum(s[i := s[i] + n]) == Sum(s) + n
  {
    if i == 0 {
      assert s[0 := s[0] + n][1..] == s[1..];
    } else {
      SumUpdates(s[1..], i - 1, n);
      assert s[i := s[i] + n][1..] == s[1..][i - 1 := s[1..][i - 1] + n];
    }
  }

  // The tally r exceeds t by the weights of the flows fs.
  ghost predicate Grown(t: Tally, r: Tally, fs: seq<Flow>) {
    && Sum(r.packets) == Sum(t.packets) + ListTotal(fs, Packets)
    && Sum(r.bytes) == Sum(t.bytes) + ListTotal(fs, Bytes)
    && Sum(r.flows) == Sum(t.flows) + ListTotal(fs, One)
  }

  lemma ChargeAdds(t: Tally, i: nat, f: Flow)
    requires Indexes(t, i)
    ensures var r := Charge(t, i, f);
            && Sum(r.packets) == Sum(t.packets) + Packets(f)
            && Sum(r.bytes) == Sum(t.bytes) + Bytes(f)
            && Sum(r.flows) == Sum(t.flows) + One(f)
  {
    SumUpdates(t.packets, i, Packets(f));
    SumUpdates(t.bytes, i, Bytes(f));
    SumUpdates(t.flows, i, 1);
  }

  lemma {:induction false} AccountAllAdds(cfg: Config, st: Stats, fs: seq<Flow>)
    requires Ready(cfg, st)
    ensures var r := AccountAll(cfg, st, fs);
            && Grown(st.protocol, r.protocol, fs) && Grown(st.category, r.category, fs)
            && r.ipPackets == st.ipPackets && r.ipBytes == st.ipBytes && r.flowCount == st.flowCount
    decreases |fs|
  {
    if fs != [] {
      ChargeAdds(st.protocol, cfg.verdict(fs[0]).protocol, fs[0]);
      ChargeAdds(st.category, cfg.verdict(fs[0]).category, fs[0]);
      AccountAllAdds(cfg, Account(cfg, st, fs[0]), fs[1..]);
    }
  }

  // --------------------------------------------------------------- the invariant

  // Counted on arrival == charged already + still in the table.
  ghost predicate BalancedTally(s: State, t: Tally) {
    && Sum(t.packets) + GrandTotal(s.roots, Packets) == s.stats.ipPackets
    && Sum(t.bytes) + GrandTotal(s.roots, Bytes) == s.stats.ipBytes
    && Sum(t.flows) + GrandTotal(s.roots, One) == s.stats.flowCount
  }

  ghost predicate Balanced(s: State) { BalancedTally(s, s.stats.protocol) && BalancedTally(s, s.stats.category) }

  lemma StoreTotal(roots: seq<Root>, k: FlowKey, f: Flow, w: Weight)
    requires |roots| > 0
    ensures GrandTotal(Store(roots, k, f), w) + Weigh(Find(roots[Bucket(k.hashval, |roots|)], k, NodeCmp), w)
         == GrandTotal(roots, w) + w(f)
  {
    var i := Bucket(k.hashval, |roots|);
    PutTotal(roots[i], k, f, NodeCmp, w);
    GrandTotalUpdates(roots, i, Put(roots[i], k, f, NodeCmp), w);
  }

  lemma LocateFinds(roots: seq<Root>, t: Tuple)
    requires |roots| > 0
    ensures match Locate(roots, t)
            case Known(k, f, _) => Find(roots[Bucket(k.hashval, |roots|)], k, NodeCmp) == Some(f)
            case Unknown => Find(roots[Bucket(Hash(t), |roots|)], KeyOf(t), NodeCmp) == None
  {
  }

  lemma ReceiveTotals(cfg: Config, s: State, t: Tuple, rawSize: nat)
    requires |s.roots| > 0
    ensures var r := Receive(cfg, s, t, rawSize);
            && GrandTotal(r.roots, Packets) - GrandTotal(s.roots, Packets) == r.stats.ipPackets - s.stats.ipPackets
            && GrandTotal(r.roots, Bytes) - GrandTotal(s.roots, Bytes) == r.stats.ipBytes - s.stats.ipBytes
            && GrandTotal(r.roots, One) - GrandTotal(s.roots, One) == r.stats.flowCount - s.stats.flowCount
            && r.stats.protocol == s.stats.protocol && r.stats.category == s.stats.category
  {
    LocateFinds(s.roots, t);
    var l := Locate(s.roots, t);
    var k := if l.Known? then l.key else KeyOf(t);
    var f := if l.Known? then Touch(l.flow, l.forward, rawSize, s.lastTime)
             else Touch(NewFlow(s.nextId, t), true, rawSize, s.lastTime);
    StoreTotal(s.roots, k, f, Packets);
    StoreTotal(s.roots, k, f, Bytes);
    StoreTotal(s.roots, k, f, One);
  }

  lemma ScanTotals(cfg: Config, s: State, w: Weight)
    requires Inv(cfg, s) && ScanDue(cfg, s)
    ensures GrandTotal(Scan(cfg, s).roots, w) + ListTotal(Values(IdleQueue(s)), w)
         == GrandTotal(s.roots, w)
  {
    var root, queue := s.roots[s.scanIdx], IdleQueue(s);
    assert ValidRoot(root, s.scanIdx, |s.roots|);
    NodeCmpIsOrder();
    ReapRemovesIdle(root, IdleAt(s.lastTime), IDLE_SCAN_BUDGET, NodeCmp, Rank);
    DeleteAllTotal(root, queue, NodeCmp, Rank, w);
    GrandTotalUpdates(s.roots, s.scanIdx, DeleteAll(root, queue, NodeCmp), w);
  }

  lemma ScanBalances(cfg: Config, s: State)
    requires Inv(cfg, s) && Balanced(s)
    ensures Balanced(Scan(cfg, s))
  {
    if ScanDue(cfg, s) {
      ScanTotals(cfg, s, Packets);
      ScanTotals(cfg, s, Bytes);
      ScanTotals(cfg, s, One);
      AccountAllAdds(cfg, s.stats, Values(IdleQueue(s)));
    }
  }

  lemma {:induction false} RunBalances(cfg: Config, s: State, ps: seq<Packet>)
    requires Inv(cfg, s) && Balanced(s)
    ensures Balanced(Run(cfg, s, ps))
    decreases |ps|
  {
    if ps != [] {
      StepKeepsInv(cfg, s, ps[0]);
      StepBalances(cfg, s, ps[0]);
      RunBalances(cfg, Step(cfg, s, ps[0]), ps[1..]);
    }
  }

  lemma StepBalances(cfg: Config, s: State, p: Packet)
    requires Inv(cfg, s) && Balanced(s)
    ensures Balanced(Step(cfg, s, p))
  {
    StepKeepsInv(cfg, s, p);
    IngestBalances(cfg, s, p);
    ScanBalances(cfg, Ingest(cfg, s, p));
  }

  lemma IngestBalances(cfg: Config, s: State, p: Packet)
    requires |s.roots| > 0 && Balanced(s)
    ensures Balanced(Ingest(cfg, s, p))
  {
    if p.tuple.Some? { ReceiveTotals(cfg, Clock(s, p.time), p.tuple.value, p.rawSize); }
  }

  // --------------------------------------------------------------- end of capture

  function RootFlows(t: Root): (fs: seq<Flow>) {
    match t
    case Nil => []
    case Node(l, _, f, r) => [f] + RootFlows(l) + RootFlows(r)
  }

  // The final walk over all roots, which charges every flow still in the table.
  function FinalWalk(cfg: Config, st: Stats, roots: seq<Root>): (r: Stats)
    requires Ready(cfg, st)
    ensures Ready(cfg, r)
    decreases |roots|
  {
    if roots == [] then st else FinalWalk(cfg, AccountAll(cfg, st, RootFlows(roots[0])), roots[1..])
  }

  lemma {:induction false} RootFlowsTotal(t: Root, w: Weight)
    ensures ListTotal(RootFlows(t), w) == Total(t, w)
  {
    match t
    case Nil =>
    case Node(l, _, f, r) =>
      RootFlowsTotal(l, w);
      RootFlowsTotal(r, w);
      ListTotalAppends([f] + RootFlows(l), RootFlows(r), w);
      ListTotalAppends([f], RootFlows(l), w);
  }

  // Every flow still in the table is charged once, so nothing is left uncharged.
  lemma {:induction false} FinalWalkSettles(cfg: Config, st: Stats, roots: seq<Root>)
    requires Ready(cfg, st)
    ensures var r := FinalWalk(cfg, st, roots);
            && Settled(st.protocol, r.protocol, roots) && Settled(st.category, r.category, roots)
    decreases |roots|
  {
    if roots != [] {
      var fs := RootFlows(roots[0]);
      AccountAllAdds(cfg, st, fs);
      FinalWalkSettles(cfg, AccountAll(cfg, st, fs), roots[1..]);
      RootFlowsTotal(roots[0], Packets);
      RootFlowsTotal(roots[0], Bytes);
      RootFlowsTotal(roots[0], One);
    }
  }

  ghost predicate Settled(t: Tally, r: Tally, roots: seq<Root>) {
    && Sum(r.packets) == Sum(t.packets) + GrandTotal(roots, Packets)
    && Sum(r.bytes) == Sum(t.bytes) + GrandTotal(roots, Bytes)
    && Sum(r.flows) == Sum(t.flows) + GrandTotal(roots, One)
  }

  lemma {:induction false} SumOfZeros(s: seq<nat>)
    requires forall i :: 0 <= i < |s| ==> s[i] == 0
    ensures Sum(s) == 0
  {
    if s != [] { SumOfZeros(s[1..]); }
  }

  lemma FreshIsBalanced(n: nat, protocols: nat, categories: nat)
    ensures Balanced(Fresh(n, protocols, categories))
  {
    var s := Fresh(n, protocols, categories);
    SumOfZeros(Zeros(protocols).packets);
    SumOfZeros(Zeros(categories).packets);
    EmptyTreesTotal(s.roots, Packets);
    EmptyTreesTotal(s.roots, Bytes);
    EmptyTreesTotal(s.roots, One);
  }

  // At the end of any capture the totals per protocol and per category both equal
  // the packets, bytes and flows counted on arrival.
  lemma TrafficIsConserved(cfg: Config, n: nat, protocols: nat, categories: nat, ps: seq<Packet>)
    requires n > 0 && Ready(cfg, Fresh(n, protocols, categories).stats)
    ensures Inv(cfg, Fresh(n, protocols, categories))
    ensures var s := Run(cfg, Fresh(n, protocols, categories), ps);
            var st := FinalWalk(cfg, s.stats, s.roots);
            && Sum(st.protocol.packets) == Sum(st.category.packets) == s.stats.ipPackets
            && Sum(st.protocol.bytes) == Sum(st.category.bytes) == s.stats.ipBytes
            && Sum(st.protocol.flows) == Sum(st.category.flows) == s.stats.flowCount
  {
    FreshIsValid(cfg, n, protocols, categories);
    FreshIsBalanced(n, protocols, categories);
    RunBalances(cfg, Fresh(n, protocols, categories), ps);
    var s := Run(cfg, Fresh(n, protocols, categories), ps);
    FinalWalkSettles(cfg, s.stats, s.roots);
  }
}
