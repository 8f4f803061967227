/** The reader thread as the program runs it: fields updated in place, a fixed queue
    for idle flows, recursion over the tree and a loop that empties the queue. */
module ReaderThread {
  import opened SearchTree
  import opened TreeTotals
  import opened FlowOrder
  import opened FlowTable
  import opened Workflow

  type Queue = seq<(FlowKey, Flow)>

  // The idle walker charges a flow at the moment it queues it.
  function Visit(cfg: Config, t: Root, now: nat, queue: Queue, st: Stats): (r: (Queue, Stats))
    requires Ready(cfg, st)
    ensures Ready(cfg, r.1)
  {
    match t
    case Nil => (queue, st)
    case Node(l, k, f, r) =>
      var (q, s) := if |queue| != IDLE_SCAN_BUDGET && IsIdle(f, now)
                    then (queue + [(k, f)], Account(cfg, st, f)) else (queue, st);
      var (q, s) := Visit(cfg, l, now, q, s);
      Visit(cfg, r, now, q, s)
  }

  lemma {:induction false} AccountAllAppends(cfg: Config, st: Stats, fs: seq<Flow>, f: Flow)
    requires Ready(cfg, st)
    ensures AccountAll(cfg, st, fs + [f]) == Account(cfg, AccountAll(cfg, st, fs), f)
    decreases |fs|
  {
    if fs == [] {
      assert fs + [f] == [f];
    } else {
      AccountAllAppends(cfg, Account(cfg, st, fs[0]), fs[1..], f);
      assert (fs + [f])[1..] == fs[1..] + [f];
    }
  }

  // The visit queues what Walk queues and charges exactly the flows it queues.
  lemma {:induction false} VisitIsWalk(cfg: Config, t: Root, now: nat, queue: Queue, st0: Stats)
    requires Ready(cfg, st0)
    ensures var (q, s) := Visit(cfg, t, now, queue, AccountAll(cfg, st0, Values(queue)));
            && q == Walk(t, IdleAt(now), IDLE_SCAN_BUDGET, queue)
            && s == AccountAll(cfg, st0, Values(q))
  {
    match t
    case Nil =>
    case Node(l, k, f, r) =>
      var q := if |queue| != IDLE_SCAN_BUDGET && IsIdle(f, now) then queue + [(k, f)] else queue;
      AccountAllAppends(cfg, st0, Values(queue), f);
      assert Values(queue + [(k, f)]) == Values(queue) + [f];
      VisitIsWalk(cfg, l, now, q, st0);
      VisitIsWalk(cfg, r, now, Walk(l, IdleAt(now), IDLE_SCAN_BUDGET, q), st0);
  }

  // What the reader reports of a packet: given to a flow, and along its first packet.
  ghost predicate Reported(cfg: Config, s: State, t: Tuple, rawSize: nat, accepted: bool, forward: bool)
    requires Inv(cfg, s)
  {
    var c, r := ConversationOf(t), Receive(cfg, s, t, rawSize);
    && Inv(cfg, r)
    && (accepted <==> c in Flows(s.roots) || s.stats.flowCount != cfg.maxFlows)
    && (accepted ==> c in Flows(r.roots) && (forward <==> Flows(r.roots)[c].first == t))
  }

  lemma LocateReports(cfg: Config, s: State, t: Tuple, rawSize: nat, accepted: bool, forward: bool)
    requires Inv(cfg, s)
    requires accepted == (Locate(s.roots, t).Known? || s.stats.flowCount != cfg.maxFlows)
    requires forward == (Locate(s.roots, t).Known? ==> Locate(s.roots, t).forward)
    ensures Inv(cfg, Receive(cfg, s, t, rawSize)) && Reported(cfg, s, t, rawSize, accepted, forward)
  {
    ReceiveRefines(cfg, s, t, rawSize);
    LocateIsLookup(s.roots, t);
  }

  class Reader {
    const cfg: Config
    var roots: seq<Root>
    var stats: Stats
    var nextId: nat
    var lastTime: nat
    var lastScan: nat
    var scanIdx: nat
    var idleFlows: array<(FlowKey, Flow)>
    var numIdleFlows: nat

    ghost function View(): State
      reads this
    {
      State(roots, stats, nextId, lastTime, lastScan, scanIdx)
    }

    // What holds between packets.
    ghost predicate Ok()
      reads this
    {
      Inv(cfg, View()) && idleFlows.Length == IDLE_SCAN_BUDGET && numIdleFlows == 0
    }

    constructor (cfg: Config, numRoots: nat, protocols: nat, categories: nat)
      requires numRoots > 0 && Ready(cfg, Fresh(numRoots, protocols, categories).stats)
      ensures Ok() && fresh(idleFlows) && this.cfg == cfg
      ensures View() == Fresh(numRoots, protocols, categories)
    {
      this.cfg := cfg;
      roots := seq(numRoots, _ => Nil);
      stats := Stats(0, 0, 0, Zeros(protocols), Zeros(categories));
      nextId, lastTime, lastScan, scanIdx := 0, 0, 0, 0;
      idleFlows := new (FlowKey, Flow)[IDLE_SCAN_BUDGET];
      numIdleFlows := 0;
      new;
      assert View() == Fresh(numRoots, protocols, categories);
      FreshIsValid(cfg, numRoots, protocols, categories);
    }

    // Find the flow of a packet or add it, and account the packet to it.
    method GetFlow(t: Tuple, rawSize: nat) returns (accepted: bool, forward: bool)
      requires |roots| > 0
      modifies `roots, `stats, `nextId
      ensures View() == Receive(cfg, old(View()), t, rawSize)
      ensures accepted == (old(Locate(roots, t)).Known? || old(stats.flowCount) != cfg.maxFlows)
      ensures forward == (old(Locate(roots, t)).Known? ==> old(Locate(roots, t)).forward)
    {
      accepted, forward := true, true;
      match Locate(roots, t)
      case Known(key, flow, dir) =>
        forward := dir;
        roots := Store(roots, key, Touch(flow, forward, rawSize, lastTime));
        stats := CountPacket(stats, rawSize, 0);
      case Unknown =>
        if stats.flowCount == cfg.maxFlows {
          accepted := false;
        } else {
          var flow := NewFlow(nextId, t);
          nextId := nextId + 1;
          roots := Store(roots, KeyOf(t), Touch(flow, true, rawSize, lastTime));
          stats := CountPacket(stats, rawSize, 1);
        }
    }

    // get_ndpi_flow_info and packet_processing; src_to_dst_direction is `forward`.
    method PacketProcessing(t: Tuple, rawSize: nat) returns (accepted: bool, forward: bool)
      requires Inv(cfg, View())
      modifies `roots, `stats, `nextId
      ensures View() == Receive(cfg, old(View()), t, rawSize)
      ensures Inv(cfg, View()) && Reported(cfg, old(View()), t, rawSize, accepted, forward)
    {
      ghost var s := View();
      accepted, forward := GetFlow(t, rawSize);
      LocateReports(cfg, s, t, rawSize, accepted, forward);
    }

    // ndpi_twalk with node_idle_scan_walker on one subtree.
    method IdleScanWalker(t: Root)
      requires Ready(cfg, stats) && idleFlows.Length == IDLE_SCAN_BUDGET && numIdleFlows <= IDLE_SCAN_BUDGET
      modifies this`numIdleFlows, this`stats, idleFlows
      ensures Ready(cfg, stats) && numIdleFlows <= IDLE_SCAN_BUDGET
      ensures (idleFlows[..numIdleFlows], stats) == Visit(cfg, t, lastTime, old(idleFlows[..numIdleFlows]), old(stats))
      decreases t
    {
      match t
      case Nil =>
      case Node(l, k, f, r) =>
        if numIdleFlows != IDLE_SCAN_BUDGET {
          if IsIdle(f, lastTime) {
            stats := Account(cfg, stats, f);
            idleFlows[numIdleFlows] := (k, f);
            numIdleFlows := numIdleFlows + 1;
            assert idleFlows[..numIdleFlows] == old(idleFlows[..numIdleFlows]) + [(k, f)];
          }
        }
        IdleScanWalker(l);
        IdleScanWalker(r);
    }

    // Delete the queued flows from the scanned root, last queued first.
    method EmptyQueue()
      requires scanIdx < |roots| && numIdleFlows <= idleFlows.Length
      modifies `roots, `numIdleFlows
      ensures numIdleFlows == 0
      ensures roots == old(roots[scanIdx := DeleteAll(roots[scanIdx], idleFlows[..numIdleFlows], NodeCmp)])
    {
      ghost var queue := idleFlows[..numIdleFlows];
      assert queue[..numIdleFlows] == queue;
      while numIdleFlows > 0
        invariant numIdleFlows <= |queue| && |roots| == |old(roots)|
        invariant roots == old(roots)[scanIdx := roots[scanIdx]]
        invariant DeleteAll(roots[scanIdx], queue[..numIdleFlows], NodeCmp) == DeleteAll(old(roots)[scanIdx], queue, NodeCmp)
      {
        numIdleFlows := numIdleFlows - 1;
        assert queue[..numIdleFlows + 1][..numIdleFlows] == queue[..numIdleFlows];
        roots := roots[scanIdx := Delete(roots[scanIdx], idleFlows[numIdleFlows].0, NodeCmp)];
      }
    }

    // The idle clean-up that follows a packet in live captures.
    method IdleCleanup()
      requires Ok()
      modifies this, idleFlows
      ensures Ok() && idleFlows == old(idleFlows)
      ensures View() == Scan(cfg, old(View()))
    {
      ScanReapsIdleOnly(cfg, View());
      SweepOneRoot();
    }

    method SweepOneRoot()
      requires scanIdx < |roots| && Ready(cfg, stats) && idleFlows.Length == IDLE_SCAN_BUDGET && numIdleFlows == 0
      modifies this, idleFlows
      ensures idleFlows == old(idleFlows) && numIdleFlows == 0
      ensures View() == Scan(cfg, old(View()))
    {
      if cfg.live && lastScan + IDLE_SCAN_PERIOD < lastTime {
        ghost var queue := IdleQueue(View());
        assert AccountAll(cfg, stats, Values<FlowKey, Flow>([])) == stats && idleFlows[..0] == [];
        VisitIsWalk(cfg, roots[scanIdx], lastTime, [], stats);
        IdleScanWalker(roots[scanIdx]);
        assert idleFlows[..numIdleFlows] == queue && stats == AccountAll(cfg, old(stats), Values(queue));
        EmptyQueue();
        scanIdx := scanIdx + 1;
        if scanIdx == |roots| { scanIdx := 0; }
        lastScan := lastTime;
      }
    }

    // ndpi_process_packet
    method ProcessPacket(p: Packet) returns (accepted: bool, forward: bool)
      requires Ok()
      modifies this, idleFlows
      ensures Ok() && idleFlows == old(idleFlows)
      ensures View() == Step(cfg, old(View()), p)
    {
      accepted, forward := false, true;
      if lastTime <= p.time { lastTime := p.time; }
      if p.tuple.Some? {
        accepted, forward := PacketProcessing(p.tuple.value, p.rawSize);
      }
      IdleCleanup();
    }
  }
}
