/** What idle clean-up does to a root with any number of idle flows: each visit takes a
    budget's worth of them until none is left. */
module WorkflowSweep {
  import opened SearchTree
  import opened TreeTotals
  import opened FlowOrder
  import opened FlowTable
  import opened Workflow

  // ---------------------------------------------------------------- one root, one visit

  function IdleWeight<V>(idle: V -> bool): (w: V -> nat) { v => if idle(v) then 1 else 0 }

  lemma {:induction false} IdleTotal<K, V>(t: Tree<K, V>, idle: V -> bool)
    ensures Total(t, IdleWeight(idle)) == |IdleNodes(t, idle)|
  {
    match t
    case Nil =>
    case Node(l, _, _, r) =>
      IdleTotal(l, idle);
      IdleTotal(r, idle);
  }

  lemma {:induction false} IdleListTotal<V>(vs: seq<V>, idle: V -> bool)
    requires forall v | v in vs :: idle(v)
    ensures ListTotal(vs, IdleWeight(idle)) == |vs|
  {
    if vs != [] { IdleListTotal(vs[1..], idle); }
  }

  // What a budget leaves of n idle flows.
  function Over(n: nat, budget: nat): (r: nat) { if n <= budget then 0 else n - budget }

  lemma QueueIsIdle<K(!new), V(!new)>(t: Tree<K, V>, idle: V -> bool, budget: nat, cmp: (K, K) -> int, rank: K -> int)
    requires IsOrder(cmp, rank) && Sorted(t, rank)
    ensures var q := Walk(t, idle, budget, []);
            && Queued(t, q) && (forall v | v in Values(q) :: idle(v))
            && |q| + Over(|IdleNodes(t, idle)|, budget) == |IdleNodes(t, idle)|
  {
    var q := Walk(t, idle, budget, []);
    ReapRemovesIdle(t, idle, budget, cmp, rank);
    WalkTakesBudget(t, idle, budget, []);
    assert [] + IdleNodes(t, idle) == IdleNodes(t, idle);
    forall v | v in Values(q) ensures idle(v) {
      var i :| 0 <= i < |q| && Values(q)[i] == v;
      assert q[i] in q;
    }
  }

  // A visit takes the budget, or all.
  lemma VisitLeaves<K(!new), V(!new)>(t: Tree<K, V>, idle: V -> bool, budget: nat, cmp: (K, K) -> int, rank: K -> int)
    requires IsOrder(cmp, rank) && Sorted(t, rank)
    ensures |IdleNodes(DeleteAll(t, Walk(t, idle, budget, []), cmp), idle)| == Over(|IdleNodes(t, idle)|, budget)
  {
    var q := Walk(t, idle, budget, []);
    QueueIsIdle(t, idle, budget, cmp, rank);
    DeleteAllTotal(t, q, cmp, rank, IdleWeight(idle));
    IdleListTotal(Values(q), idle);
    IdleTotal(t, idle);
    IdleTotal(DeleteAll(t, q, cmp), idle);
  }

  // ---------------------------------------------------------------- runs

  // The idle flows of root b.
  function IdleCount(s: State, b: nat): (n: nat)
    requires b < |s.roots|
  {
    |IdleNodes(s.roots[b], IdleAt(s.lastTime))|
  }

  lemma ScanSweeps(cfg: Config, s: State, b: nat)
    requires Inv(cfg, s) && b < |s.roots|
    ensures |Scan(cfg, s).roots| == |s.roots|
    ensures IdleCount(Scan(cfg, s), b) == if ScanDue(cfg, s) && s.scanIdx == b then Over(IdleCount(s, b), IDLE_SCAN_BUDGET) else IdleCount(s, b)
  {
    if s.scanIdx == b {
      assert ValidRoot(s.roots[b], b, |s.roots|);
      NodeCmpIsOrder();
      VisitLeaves(s.roots[b], IdleAt(s.lastTime), IDLE_SCAN_BUDGET, NodeCmp, Rank);
    }
  }

  // How often root b is visited while ps is read.
  ghost function Visits(cfg: Config, s: State, ps: seq<Packet>, b: nat): (n: nat)
    requires Inv(cfg, s)
    decreases |ps|
  {
    if ps == [] then 0
    else
      StepKeepsInv(cfg, s, ps[0]);
      var s1 := Ingest(cfg, s, ps[0]);
      (if ScanDue(cfg, s1) && s1.scanIdx == b then 1 else 0) + Visits(cfg, Step(cfg, s, ps[0]), ps[1..], b)
  }

  // No packet adds an idle flow to root b, by its arrival or by the clock it sets.
  ghost predicate Settled(cfg: Config, s: State, ps: seq<Packet>, b: nat)
    requires Inv(cfg, s) && b < |s.roots|
    decreases |ps|
  {
    ps == [] ||
    (StepKeepsInv(cfg, s, ps[0]);
     IdleCount(Ingest(cfg, s, ps[0]), b) <= IdleCount(s, b) && Settled(cfg, Step(cfg, s, ps[0]), ps[1..], b))
  }

  // Every visit takes a budget's worth.
  lemma {:induction false} VisitsSweep(cfg: Config, s: State, ps: seq<Packet>, b: nat)
    requires Inv(cfg, s) && b < |s.roots| && Settled(cfg, s, ps, b)
    ensures var left := IdleCount(s, b) - IDLE_SCAN_BUDGET * Visits(cfg, s, ps, b);
            IdleCount(Run(cfg, s, ps), b) <= if left <= 0 then 0 else left
    decreases |ps|
  {
    if ps != [] {
      StepKeepsInv(cfg, s, ps[0]);
      ScanSweeps(cfg, Ingest(cfg, s, ps[0]), b);
      VisitsSweep(cfg, Step(cfg, s, ps[0]), ps[1..], b);
    }
  }

  lemma Turn(n: nat, visits: nat, scans: nat, i: nat, b: nat, due: bool)
    requires i < n && b < n
    requires n * visits + Distance(if !due then i else if i + 1 == n then 0 else i + 1, b, n) >= scans
    ensures n * (visits + (if due && i == b then 1 else 0)) + Distance(i, b, n) >= scans + (if due then 1 else 0)
  {
    assert n * (visits + 1) == n * visits + n;
  }

  lemma ScanTurns(cfg: Config, s: State, p: Packet)
    requires Inv(cfg, s)
    ensures var s1, s2 := Ingest(cfg, s, p), Step(cfg, s, p);
            && s1.scanIdx == s.scanIdx && |s1.roots| == |s2.roots| == |s.roots|
            && s1.scanIdx < |s1.roots| && Inv(cfg, s2)
            && s2.scanIdx == if !ScanDue(cfg, s1) then s.scanIdx else if s.scanIdx + 1 == |s.roots| then 0 else s.scanIdx + 1
  {
    StepKeepsInv(cfg, s, p);
  }

  // The roots are visited in turn, so n scans over n roots visit each once more.
  lemma {:induction false} VisitsInTurn(cfg: Config, s: State, ps: seq<Packet>, b: nat)
    requires Inv(cfg, s) && b < |s.roots|
    ensures |s.roots| * Visits(cfg, s, ps, b) + Distance(s.scanIdx, b, |s.roots|) >= Scans(cfg, s, ps)
    decreases |ps|
  {
    if ps != [] {
      ScanTurns(cfg, s, ps[0]);
      var s2 := Step(cfg, s, ps[0]);
      VisitsInTurn(cfg, s2, ps[1..], b);
      Turn(|s.roots|, Visits(cfg, s2, ps[1..], b), Scans(cfg, s2, ps[1..]), s.scanIdx, b, ScanDue(cfg, Ingest(cfg, s, ps[0])));
    }
  }

  function Rounds(n: nat): (k: nat) { (n + IDLE_SCAN_BUDGET - 1) / IDLE_SCAN_BUDGET }

  lemma EnoughVisits(n: nat, k: nat, roots: nat, visits: nat, scans: nat, distance: nat)
    requires k == Rounds(n) && roots * visits + distance >= scans >= roots * k && distance < roots
    ensures IDLE_SCAN_BUDGET * visits >= n
  {
    Multiples(visits + 1, k, roots);
    assert roots * (visits + 1) == roots * visits + roots;
  }

  lemma Multiples(a: nat, b: nat, c: nat)
    ensures a <= b ==> c * a <= c * b
  {
  }

  // However many idle flows a root has: once every root was scanned ceil(N / 1024) times, and no
  // flow of the root has become idle meanwhile, none is left in it.
  lemma RootIsSwept(cfg: Config, s: State, ps: seq<Packet>, b: nat, c: Conversation)
    requires Inv(cfg, s) && b < |s.roots| && Settled(cfg, s, ps, b)
    requires Scans(cfg, s, ps) >= |s.roots| * Rounds(IdleCount(s, b))
    ensures var r := Run(cfg, s, ps);
            c in Flows(r.roots) && Bucket(Hash(Flows(r.roots)[c].first), |r.roots|) == b ==> !IsIdle(Flows(r.roots)[c], r.lastTime)
  {
    var n, v := IdleCount(s, b), Visits(cfg, s, ps, b);
    VisitsInTurn(cfg, s, ps, b);
    EnoughVisits(n, Rounds(n), |s.roots|, v, Scans(cfg, s, ps), Distance(s.scanIdx, b, |s.roots|));
    VisitsSweep(cfg, s, ps, b);
    NoneIsIdle(cfg, Run(cfg, s, ps), b, c);
  }

  lemma NoneIsIdle(cfg: Config, s: State, b: nat, c: Conversation)
    requires Inv(cfg, s) && b < |s.roots| && IdleCount(s, b) == 0
    ensures c in Flows(s.roots) && Bucket(Hash(Flows(s.roots)[c].first), |s.roots|) == b ==> !IsIdle(Flows(s.roots)[c], s.lastTime)
  {
    if c in Flows(s.roots) && Bucket(Hash(Flows(s.roots)[c].first), |s.roots|) == b {
      FlowsAreHeld(s.roots, c);
      assert ValidRoot(s.roots[b], b, |s.roots|);
      var k := KeyOf(Flows(s.roots)[c].first);
      IdleNodesAreIdle(s.roots[b], IdleAt(s.lastTime), Rank);
      assert (k, Contents(s.roots[b])[k]) !in IdleNodes(s.roots[b], IdleAt(s.lastTime));
    }
  }
}
