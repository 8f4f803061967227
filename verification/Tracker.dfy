/** One reader thread of the sharded flow tracker (IPv4 packets): what it does with
    each packet of the stream that every thread reads. */
module Tracker {
  import opened Octets
  import opened SearchTree
  import opened TreeTotals

  const MAX_IDLE_FLOWS_PER_THREAD := 64
  const IDLE_SCAN_PERIOD := 10000
  const MAX_IDLE_TIME := 300000

  // Addresses as stored in the header, ports in host order.
  datatype Tuple = Tuple(protocol: byte, src: U32, dst: U32, srcPort: U16, dstPort: U16)

  // A packet that passes the length checks: layer-4 length and TCP flags.
  datatype Segment = Segment(tuple: Tuple, l4Len: nat, finAck: bool, ack: bool)

  // None when the packet is dropped before a thread is chosen.
  datatype Packet = Packet(time: nat, segment: Option<Segment>)

  datatype FlowKey = FlowKey(hashval: nat, tuple: Tuple)

  datatype Flow = Flow(
    id: nat, packets: nat, l4Bytes: nat, firstSeen: nat, lastSeen: nat,
    finAckSeen: bool, ackSeen: bool, completed: bool)

  type Bucket = Tree<FlowKey, Flow>

  // The flow hash and the detection library are parameters; detection depends on the
  // flow, not on its number.
  datatype Config = Config(maxFlows: nat, hash: Tuple -> nat, detect: (Flow, Segment) -> bool)

  datatype Worker = Worker(
    buckets: seq<Bucket>, lastTime: nat, lastScan: nat,
    curActive: int, totalActive: nat, totalIdle: nat,
    processed: nat, l4Bytes: nat, detectedFlows: nat)

  function Mirror(t: Tuple): (r: Tuple) { Tuple(t.protocol, t.dst, t.src, t.dstPort, t.srcPort) }

  // -------------------------------------------------------------- the comparator

  function Sign(a: int, b: int): (r: int) { if a < b then -1 else if a > b then 1 else 0 }

  // ndpi_workflow_node_cmp with ip_tuples_compare for IPv4.
  function NodeCmp(a: FlowKey, b: FlowKey): (r: int) {
    if a.hashval != b.hashval then Sign(a.hashval, b.hashval)
    else TupleCmp(a.tuple, b.tuple)
  }

  function TupleCmp(a: Tuple, b: Tuple): (r: int) {
    if a.protocol != b.protocol then Sign(a.protocol, b.protocol)
    else if a.src != b.src then Sign(a.src, b.src)
    else if a.dst != b.dst then Sign(a.dst, b.dst)
    else if a.srcPort != b.srcPort then Sign(a.srcPort, b.srcPort)
    else Sign(a.dstPort, b.dstPort)
  }

  ghost function Rank(k: FlowKey): int {
    var r := Digit(Digit(k.hashval, 0x100, k.tuple.protocol), 0x1_0000_0000, k.tuple.src);
    Digit(Digit(Digit(r, 0x1_0000_0000, k.tuple.dst), 0x1_0000, k.tuple.srcPort), 0x1_0000, k.tuple.dstPort)
  }

  lemma NodeCmpAgrees(a: FlowKey, b: FlowKey)
    ensures NodeCmp(a, b) < 0 <==> Rank(a) < Rank(b)
    ensures NodeCmp(a, b) > 0 <==> Rank(a) > Rank(b)
    ensures NodeCmp(a, b) == 0 <==> a == b
  {
    var t, u := a.tuple, b.tuple;
    DigitIsLexicographic(a.hashval, b.hashval, 0x100, t.protocol, u.protocol);
    var g, h := Digit(a.hashval, 0x100, t.protocol), Digit(b.hashval, 0x100, u.protocol);
    DigitIsLexicographic(g, h, 0x1_0000_0000, t.src, u.src);
    g, h := Digit(g, 0x1_0000_0000, t.src), Digit(h, 0x1_0000_0000, u.src);
    DigitIsLexicographic(g, h, 0x1_0000_0000, t.dst, u.dst);
    g, h := Digit(g, 0x1_0000_0000, t.dst), Digit(h, 0x1_0000_0000, u.dst);
    DigitIsLexicographic(g, h, 0x1_0000, t.srcPort, u.srcPort);
    DigitIsLexicographic(Digit(g, 0x1_0000, t.srcPort), Digit(h, 0x1_0000, u.srcPort), 0x1_0000, t.dstPort, u.dstPort);
  }

  lemma NodeCmpIsOrder()
    ensures IsOrder(NodeCmp, Rank)
  {
    forall a, b
      ensures && (NodeCmp(a, b) < 0 <==> Rank(a) < Rank(b))
              && (NodeCmp(a, b) > 0 <==> Rank(a) > Rank(b))
              && (NodeCmp(a, b) == 0 <==> a == b)
    {
      NodeCmpAgrees(a, b);
    }
  }

  // ------------------------------------------------------------------- operations

  // Which of n threads keeps the packet: 32-bit sums of the smaller address, the
  // protocol and the larger port.
  function Shard(t: Tuple, n: nat): (i: nat)
    requires n > 0
    ensures i < n
  {
    var minAddr: int := if t.src > t.dst then t.dst else t.src;
    var maxPort: int := if t.srcPort < t.dstPort then t.dstPort else t.srcPort;
    Trunc32(Trunc32(minAddr + t.protocol) + maxPort) % n
  }

  // Both directions of a flow go to the same thread.
  lemma ShardIsSymmetric(t: Tuple, n: nat)
    requires n > 0
    ensures Shard(Mirror(t), n) == Shard(t, n)
  {
    var u := Mirror(t);
    assert (if u.src > u.dst then u.dst else u.src) == (if t.src > t.dst then t.dst else t.src);
  }

  predicate IsIdle(f: Flow, now: nat) { (f.finAckSeen && f.ackSeen) || f.lastSeen + MAX_IDLE_TIME < now }

  function IdleAt(now: nat): (idle: Flow -> bool) { f => IsIdle(f, now) }

  function IdleQueue(b: Bucket, now: nat): (q: seq<(FlowKey, Flow)>) {
    Walk(b, IdleAt(now), MAX_IDLE_FLOWS_PER_THREAD, [])
  }

  // All buckets in turn; the number is how many flows were freed.
  function ReapAll(bs: seq<Bucket>, now: nat): (r: (seq<Bucket>, nat))
    ensures |r.0| == |bs|
  {
    if bs == [] then ([], 0)
    else
      var q := IdleQueue(bs[0], now);
      var (rest, n) := ReapAll(bs[1..], now);
      ([DeleteAll(bs[0], q, NodeCmp)] + rest, |q| + n)
  }

  predicate ScanDue(w: Worker) { w.lastScan + IDLE_SCAN_PERIOD < w.lastTime }

  // check_for_idle_flows
  function CheckIdle(w: Worker): (r: Worker)
    ensures |r.buckets| == |w.buckets|
  {
    if !ScanDue(w) then w
    else
      var (bs, n) := ReapAll(w.buckets, w.lastTime);
      w.(buckets := bs, curActive := w.curActive - n, totalIdle := w.totalIdle + n, lastScan := w.lastTime)
  }

  datatype Lookup = Known(key: FlowKey, flow: Flow) | Unknown

  function Locate(cfg: Config, bs: seq<Bucket>, t: Tuple): (l: Lookup)
    requires |bs| > 0
    ensures l.Known? ==> l.key.hashval == cfg.hash(t) && (l.key.tuple == t || l.key.tuple == Mirror(t))
  {
    var h := cfg.hash(t);
    var b := bs[h % |bs|];
    match Find(b, FlowKey(h, t), NodeCmp)
    case Some(f) => Known(FlowKey(h, t), f)
    case None =>
      match Find(b, FlowKey(h, Mirror(t)), NodeCmp)
      case Some(f) => Known(FlowKey(h, Mirror(t)), f)
      case None => Unknown
  }

  function Store(bs: seq<Bucket>, k: FlowKey, f: Flow): (r: seq<Bucket>)
    requires |bs| > 0
    ensures |r| == |bs|
  {
    bs[k.hashval % |bs| := Put(bs[k.hashval % |bs|], k, f, NodeCmp)]
  }

  function NewFlow(id: nat, s: Segment): (f: Flow) { Flow(id, 0, 0, 0, 0, s.finAck, s.ack, false) }

  // The updates after the flow is found or made; the first FIN/ACK ends the call early.
  function Update(cfg: Config, f: Flow, s: Segment, now: nat): (r: Flow) {
    var g := f.(packets := f.packets + 1, l4Bytes := f.l4Bytes + s.l4Len,
                firstSeen := if f.firstSeen == 0 then now else f.firstSeen,
                lastSeen := now, ackSeen := s.ack);
    if s.finAck && !g.finAckSeen then g.(finAckSeen := true)
    else g.(completed := g.completed || cfg.detect(g.(id := 0), s))
  }

  function Detections(before: bool, after: bool): (n: nat) { if after && !before then 1 else 0 }

  function Commit(cfg: Config, w: Worker, k: FlowKey, f: Flow, s: Segment): (r: Worker)
    requires |w.buckets| > 0
  {
    var g := Update(cfg, f, s, w.lastTime);
    w.(buckets := Store(w.buckets, k, g), detectedFlows := w.detectedFlows + Detections(f.completed, g.completed))
  }

  // A call of ndpi_process_packet up to the shared flow counter, or to its end.
  datatype Progress = Done(worker: Worker) | NeedId(worker: Worker)

  function Arrive(w: Worker, p: Packet): (r: Worker)
    ensures |r.buckets| == |w.buckets|
  {
    CheckIdle(w.(lastTime := p.time))
  }

  function Begin(cfg: Config, n: nat, idx: nat, w: Worker, p: Packet): (r: Progress)
    requires n > 0 && |w.buckets| > 0
    ensures r.NeedId? ==> p.segment.Some? && |r.worker.buckets| == |w.buckets|
  {
    var w1 := Arrive(w, p);
    if p.segment.None? || Shard(p.segment.value.tuple, n) != idx then Done(w1)
    else Keep(cfg, w1, p.segment.value)
  }

  // The packet is this thread's own.
  function Keep(cfg: Config, w: Worker, s: Segment): (r: Progress)
    requires |w.buckets| > 0
    ensures |r.worker.buckets| == |w.buckets|
  {
    var w2 := w.(processed := w.processed + 1, l4Bytes := w.l4Bytes + s.l4Len);
    match Locate(cfg, w2.buckets, s.tuple)
    case Known(k, f) => Done(Commit(cfg, w2, k, f, s))
    case Unknown => if w2.curActive == cfg.maxFlows then Done(w2) else NeedId(w2)
  }

  // The rest of the call, with the number drawn from the counter.
  function Finish(cfg: Config, w: Worker, s: Segment, id: nat): (r: Worker)
    requires |w.buckets| > 0
  {
    Commit(cfg, w.(curActive := w.curActive + 1, totalActive := w.totalActive + 1),
           FlowKey(cfg.hash(s.tuple), s.tuple), NewFlow(id, s), s)
  }

  function Step(cfg: Config, n: nat, idx: nat, w: Worker, p: Packet, id: nat): (r: Worker)
    requires n > 0 && |w.buckets| > 0
  {
    match Begin(cfg, n, idx, w, p)
    case Done(w') => w'
    case NeedId(w') => Finish(cfg, w', p.segment.value, id)
  }

  function Fresh(m: nat): (w: Worker) {
    Worker(seq(m, _ => Nil), 0, 0, 0, 0, 0, 0, 0, 0)
  }

  function SoloStep(cfg: Config, solo: Worker, p: Packet): (r: Worker)
    requires |solo.buckets| > 0
  {
    Step(cfg, 1, 0, solo, p, solo.totalActive)
  }

  // A single worker on its own after the packets ps.
  function Solo(cfg: Config, m: nat, ps: seq<Packet>): (w: Worker)
    requires m > 0
    ensures |w.buckets| == m
  {
    if ps == [] then Fresh(m)
    else
      var w := Solo(cfg, m, ps[..|ps| - 1]);
      SoloKeepsBuckets(cfg, w, ps[|ps| - 1]);
      SoloStep(cfg, w, ps[|ps| - 1])
  }

  lemma SoloKeepsBuckets(cfg: Config, w: Worker, p: Packet)
    requires |w.buckets| > 0
    ensures |SoloStep(cfg, w, p).buckets| == |w.buckets|
  {
  }

  // ---------------------------------------------------- counters of every reachable state

  function One(f: Flow): (n: nat) { 1 }
  function Completed(f: Flow): (n: nat) { if f.completed then 1 else 0 }

  ghost predicate AllSorted(bs: seq<Bucket>) { forall i :: 0 <= i < |bs| ==> Sorted(bs[i], Rank) }

  // Between packets: the counters agree with the trees and the limit is kept; a
  // detection is counted at most once per flow, live or freed.
  ghost predicate Inv(cfg: Config, w: Worker) {
    && |w.buckets| > 0 && AllSorted(w.buckets)
    && w.totalActive - w.totalIdle == w.curActive == GrandTotal(w.buckets, One) <= cfg.maxFlows
    && GrandTotal(w.buckets, Completed) <= w.detectedFlows <= GrandTotal(w.buckets, Completed) + w.totalIdle
  }

  lemma {:induction false} ReapAllAt(bs: seq<Bucket>, now: nat, i: nat)
    requires i < |bs|
    ensures ReapAll(bs, now).0[i] == DeleteAll(bs[i], IdleQueue(bs[i], now), NodeCmp)
  {
    if i > 0 { ReapAllAt(bs[1..], now, i - 1); }
  }

  lemma {:induction false} CountTotal(fs: seq<Flow>)
    ensures ListTotal(fs, One) == |fs|
    ensures 0 <= ListTotal(fs, Completed) <= |fs|
  {
    if fs != [] { CountTotal(fs[1..]); }
  }

  lemma {:induction false} ReapAllCounts(bs: seq<Bucket>, now: nat)
    requires AllSorted(bs)
    ensures var (r, n) := ReapAll(bs, now);
            && AllSorted(r)
            && GrandTotal(r, One) + n == GrandTotal(bs, One)
            && GrandTotal(r, Completed) <= GrandTotal(bs, Completed) <= GrandTotal(r, Completed) + n
  {
    if bs != [] {
      ReapCounts(bs[0], now);
      ReapAllCounts(bs[1..], now);
    }
  }

  lemma ReapCounts(b: Bucket, now: nat)
    requires Sorted(b, Rank)
    ensures var q := IdleQueue(b, now);
            var r := DeleteAll(b, q, NodeCmp);
            && Sorted(r, Rank) && Total(r, One) + |q| == Total(b, One)
            && Total(r, Completed) <= Total(b, Completed) <= Total(r, Completed) + |q|
  {
    var q := IdleQueue(b, now);
    NodeCmpIsOrder();
    ReapRemovesIdle(b, IdleAt(now), MAX_IDLE_FLOWS_PER_THREAD, NodeCmp, Rank);
    DeleteAllTotal(b, q, NodeCmp, Rank, One);
    DeleteAllTotal(b, q, NodeCmp, Rank, Completed);
    CountTotal(Values(q));
  }

  lemma CheckIdleKeepsInv(cfg: Config, w: Worker)
    requires Inv(cfg, w)
    ensures Inv(cfg, CheckIdle(w))
  {
    ReapAllCounts(w.buckets, w.lastTime);
  }

  lemma StoreCounts(bs: seq<Bucket>, k: FlowKey, f: Flow)
    requires |bs| > 0 && AllSorted(bs)
    ensures var r, found := Store(bs, k, f), Find(bs[k.hashval % |bs|], k, NodeCmp);
            && AllSorted(r)
            && GrandTotal(r, One) == GrandTotal(bs, One) + (if found.Some? then 0 else 1)
            && GrandTotal(r, Completed) == GrandTotal(bs, Completed) + Completed(f) - Weigh(found, Completed)
  {
    var i := k.hashval % |bs|;
    NodeCmpIsOrder();
    PutIsUpdate(bs[i], k, f, NodeCmp, Rank);
    PutTotal(bs[i], k, f, NodeCmp, One);
    PutTotal(bs[i], k, f, NodeCmp, Completed);
    GrandTotalUpdates(bs, i, Put(bs[i], k, f, NodeCmp), One);
    GrandTotalUpdates(bs, i, Put(bs[i], k, f, NodeCmp), Completed);
  }

  lemma BeginKeepsInv(cfg: Config, n: nat, idx: nat, w: Worker, p: Packet)
    requires n > 0 && Inv(cfg, w)
    ensures Inv(cfg, Arrive(w, p)) && Inv(cfg, Begin(cfg, n, idx, w, p).worker)
    ensures Begin(cfg, n, idx, w, p).NeedId? ==> Begin(cfg, n, idx, w, p).worker.curActive < cfg.maxFlows
    ensures Begin(cfg, n, idx, w, p).NeedId? ==>
              Locate(cfg, Begin(cfg, n, idx, w, p).worker.buckets, p.segment.value.tuple).Unknown?
  {
    CheckIdleKeepsInv(cfg, w.(lastTime := p.time));
    var w1 := Arrive(w, p);
    if p.segment.Some? {
      var s := p.segment.value;
      var l := Locate(cfg, w1.buckets, s.tuple);
      if l.Known? { StoreCounts(w1.buckets, l.key, Update(cfg, l.flow, s, w1.lastTime)); }
    }
  }

  lemma FinishKeepsInv(cfg: Config, w: Worker, s: Segment, id: nat)
    requires Inv(cfg, w) && w.curActive < cfg.maxFlows && Locate(cfg, w.buckets, s.tuple).Unknown?
    ensures Inv(cfg, Finish(cfg, w, s, id))
  {
    StoreCounts(w.buckets, FlowKey(cfg.hash(s.tuple), s.tuple), Update(cfg, NewFlow(id, s), s, w.lastTime));
  }

  // Every packet, whatever number is drawn for a new flow.
  lemma StepKeepsInv(cfg: Config, n: nat, idx: nat, w: Worker, p: Packet, id: nat)
    requires n > 0 && Inv(cfg, w)
    ensures Inv(cfg, Step(cfg, n, idx, w, p, id))
  {
    BeginKeepsInv(cfg, n, idx, w, p);
    match Begin(cfg, n, idx, w, p)
    case Done(_) =>
    case NeedId(w') => FinishKeepsInv(cfg, w', p.segment.value, id);
  }

  lemma FreshKeepsInv(cfg: Config, m: nat)
    requires m > 0
    ensures Inv(cfg, Fresh(m))
  {
    EmptyTreesTotal(Fresh(m).buckets, One);
    EmptyTreesTotal(Fresh(m).buckets, Completed);
  }

  lemma {:induction false} SoloKeepsInv(cfg: Config, m: nat, ps: seq<Packet>)
    requires m > 0
    ensures Inv(cfg, Solo(cfg, m, ps))
  {
    if ps == [] {
      FreshKeepsInv(cfg, m);
    } else {
      var w := Solo(cfg, m, ps[..|ps| - 1]);
      SoloKeepsInv(cfg, m, ps[..|ps| - 1]);
      StepKeepsInv(cfg, 1, 0, w, ps[|ps| - 1], w.totalActive);
    }
  }
}
