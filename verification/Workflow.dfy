/** One reader thread over a whole capture: clock, flow accounting, idle expiry and
    the statistics that are filled when a flow leaves the table. */
module Workflow {
  import opened SearchTree
  import opened TreeTotals
  import opened FlowOrder
  import opened FlowTable

  const IDLE_SCAN_PERIOD := 10
  const MAX_IDLE_TIME := 30000
  const IDLE_SCAN_BUDGET := 1024

  // What detection says of a flow when it is accounted (the detection library is a parameter).
  datatype Verdict = Verdict(protocol: nat, category: nat)

  datatype Config = Config(maxFlows: nat, live: bool, verdict: Flow -> Verdict)

  // Counters per protocol, or per category.
  datatype Tally = Tally(packets: seq<nat>, bytes: seq<nat>, flows: seq<nat>)

  datatype Stats = Stats(ipPackets: nat, ipBytes: nat, flowCount: nat, protocol: Tally, category: Tally)

  datatype State = State(
    roots: seq<Root>, stats: Stats, nextId: nat,
    lastTime: nat, lastScan: nat, scanIdx: nat)

  // A captured packet: its time stamp and, when it carries a flow, tuple and size.
  datatype Packet = Packet(time: nat, tuple: Option<Tuple>, rawSize: nat)

  // ------------------------------------------------------------------- operations

  // The capture clock never runs backward.
  function Clock(s: State, time: nat): (r: State) {
    if s.lastTime > time then s else s.(lastTime := time)
  }

  function NewFlow(id: nat, t: Tuple): (f: Flow) { Flow(id, t, 0, 0, 0, 0, false, 0, 0) }

  function Touch(f: Flow, forward: bool, rawSize: nat, now: nat): (r: Flow) {
    var g := f.(lastSeen := now, firstSeen := if f.firstSeen == 0 then now else f.firstSeen);
    if forward then g.(fwdPackets := f.fwdPackets + 1, fwdBytes := f.fwdBytes + rawSize)
    else g.(revPackets := f.revPackets + 1, revBytes := f.revBytes + rawSize, bidirectional := true)
  }

  function CountPacket(st: Stats, rawSize: nat, newFlows: nat): (r: Stats) {
    st.(ipPackets := st.ipPackets + 1, ipBytes := st.ipBytes + rawSize, flowCount := st.flowCount + newFlows)
  }

  // get_ndpi_flow_info and the accounting of packet_processing.
  function Receive(cfg: Config, s: State, t: Tuple, rawSize: nat): (r: State)
    requires |s.roots| > 0
  {
    match Locate(s.roots, t)
    case Known(k, f, forward) =>
      s.(roots := Store(s.roots, k, Touch(f, forward, rawSize, s.lastTime)),
         stats := CountPacket(s.stats, rawSize, 0))
    case Unknown =>
      if s.stats.flowCount == cfg.maxFlows then s
      else s.(roots := Store(s.roots, KeyOf(t), Touch(NewFlow(s.nextId, t), true, rawSize, s.lastTime)),
              stats := CountPacket(s.stats, rawSize, 1),
              nextId := s.nextId + 1)
  }

  function Packets(f: Flow): (n: nat) { f.fwdPackets + f.revPackets }
  function Bytes(f: Flow): (n: nat) { f.fwdBytes + f.revBytes }

  predicate Indexes(t: Tally, i: nat) { i < |t.packets| && i < |t.bytes| && i < |t.flows| }

  function Charge(t: Tally, i: nat, f: Flow): (r: Tally)
    requires Indexes(t, i)
    ensures forall j :: Indexes(t, j) ==> Indexes(r, j)
  {
    Tally(t.packets[i := t.packets[i] + Packets(f)], t.bytes[i := t.bytes[i] + Bytes(f)], t.flows[i := t.flows[i] + 1])
  }

  // Every protocol and category number that detection can report has its counters.
  ghost predicate Ready(cfg: Config, st: Stats) {
    forall f :: Indexes(st.protocol, cfg.verdict(f).protocol) && Indexes(st.category, cfg.verdict(f).category)
  }

  // node_proto_guess_walker
  function Account(cfg: Config, st: Stats, f: Flow): (r: Stats)
    requires Ready(cfg, st)
    ensures Ready(cfg, r)
  {
    st.(protocol := Charge(st.protocol, cfg.verdict(f).protocol, f),
        category := Charge(st.category, cfg.verdict(f).category, f))
  }

  function AccountAll(cfg: Config, st: Stats, flows: seq<Flow>): (r: Stats)
    requires Ready(cfg, st)
    ensures Ready(cfg, r)
    decreases |flows|
  {
    if flows == [] then st else AccountAll(cfg, Account(cfg, st, flows[0]), flows[1..])
  }

  predicate IsIdle(f: Flow, now: nat) { f.lastSeen + MAX_IDLE_TIME < now }

  function IdleAt(now: nat): (idle: Flow -> bool) { f => IsIdle(f, now) }

  predicate ScanDue(cfg: Config, s: State) {
    cfg.live && s.lastScan + IDLE_SCAN_PERIOD < s.lastTime
  }

  function IdleQueue(s: State): (q: seq<(FlowKey, Flow)>)
    requires s.scanIdx < |s.roots|
  {
    Walk(s.roots[s.scanIdx], IdleAt(s.lastTime), IDLE_SCAN_BUDGET, [])
  }

  // The idle clean-up of ndpi_process_packet: one root a scan, in turn.
  function Scan(cfg: Config, s: State): (r: State)
    requires s.scanIdx < |s.roots| && Ready(cfg, s.stats)
  {
    if !ScanDue(cfg, s) then s
    else
      var root := s.roots[s.scanIdx];
      s.(stats := AccountAll(cfg, s.stats, Values(IdleQueue(s))),
         roots := s.roots[s.scanIdx := DeleteAll(root, IdleQueue(s), NodeCmp)],
         scanIdx := if s.scanIdx + 1 == |s.roots| then 0 else s.scanIdx + 1,
         lastScan := s.lastTime)
  }

  function Ingest(cfg: Config, s: State, p: Packet): (r: State)
    requires |s.roots| > 0
  {
    var s1 := Clock(s, p.time);
    if p.tuple.Some? then Receive(cfg, s1, p.tuple.value, p.rawSize) else s1
  }

  // ndpi_process_packet
  function Step(cfg: Config, s: State, p: Packet): (r: State)
    requires s.scanIdx < |s.roots| && Ready(cfg, s.stats)
  {
    Scan(cfg, Ingest(cfg, s, p))
  }

  // -------------------------------------------------------- invariant of every run

  ghost predicate Inv(cfg: Config, s: State) {
    && Valid(s.roots) && s.scanIdx < |s.roots| && Ready(cfg, s.stats)
    && (forall c :: c in Flows(s.roots) ==> Flows(s.roots)[c].lastSeen <= s.lastTime)
  }

  lemma ClockKeepsInv(cfg: Config, s: State, time: nat)
    requires Inv(cfg, s)
    ensures var r := Clock(s, time);
            Inv(cfg, r) && r.roots == s.roots && r.stats == s.stats && s.lastTime <= r.lastTime && time <= r.lastTime
  {
  }

  // Replacing or adding one flow seen now.
  lemma UpdateKeepsInv(cfg: Config, s: State, r: State, c: Conversation, f: Flow)
    requires Inv(cfg, s) && Valid(r.roots) && |r.roots| == |s.roots| && r.scanIdx == s.scanIdx
    requires Flows(r.roots) == Flows(s.roots)[c := f] && f.lastSeen <= s.lastTime == r.lastTime
    requires r.stats.protocol == s.stats.protocol && r.stats.category == s.stats.category
    ensures Inv(cfg, r)
  {
  }

  lemma TouchRefines(cfg: Config, s: State, t: Tuple, rawSize: nat, k: FlowKey, f: Flow, forward: bool)
    requires Inv(cfg, s) && Locate(s.roots, t) == Known(k, f, forward)
    ensures var r, m, c := Receive(cfg, s, t, rawSize), Flows(s.roots), ConversationOf(t);
            && Inv(cfg, r) && |r.roots| == |s.roots| && c in m
            && Flows(r.roots) == m[c := Touch(m[c], t == m[c].first, rawSize, s.lastTime)]
  {
    var g := Touch(f, forward, rawSize, s.lastTime);
    LocateIsLookup(s.roots, t);
    FlowsAreHeld(s.roots, ConversationOf(t));
    StoreIsUpdate(s.roots, g);
    UpdateKeepsInv(cfg, s, Receive(cfg, s, t, rawSize), ConversationOf(t), g);
  }

  lemma CreateRefines(cfg: Config, s: State, t: Tuple, rawSize: nat)
    requires Inv(cfg, s) && Locate(s.roots, t).Unknown? && s.stats.flowCount != cfg.maxFlows
    ensures var r, m, c := Receive(cfg, s, t, rawSize), Flows(s.roots), ConversationOf(t);
            && Inv(cfg, r) && |r.roots| == |s.roots| && c !in m
            && Flows(r.roots) == m[c := Touch(NewFlow(s.nextId, t), true, rawSize, s.lastTime)]
  {
    var g := Touch(NewFlow(s.nextId, t), true, rawSize, s.lastTime);
    LocateIsLookup(s.roots, t);
    StoreIsUpdate(s.roots, g);
    UpdateKeepsInv(cfg, s, Receive(cfg, s, t, rawSize), ConversationOf(t), g);
  }

  // A packet updates the flow of its conversation, or creates it with the packet's
  // own orientation, and touches no other flow; it is refused only when no flow may
  // be added.
  lemma ReceiveRefines(cfg: Config, s: State, t: Tuple, rawSize: nat)
    requires Inv(cfg, s)
    ensures var r, m, c := Receive(cfg, s, t, rawSize), Flows(s.roots), ConversationOf(t);
            && Inv(cfg, r) && |r.roots| == |s.roots|
            && (if c in m then
                  Flows(r.roots) == m[c := Touch(m[c], t == m[c].first, rawSize, s.lastTime)]
                else if s.stats.flowCount == cfg.maxFlows then r == s
                else Flows(r.roots) == m[c := Touch(NewFlow(s.nextId, t), true, rawSize, s.lastTime)])
  {
    LocateIsLookup(s.roots, t);
    match Locate(s.roots, t)
    case Known(k, f, forward) => TouchRefines(cfg, s, t, rawSize, k, f, forward);
    case Unknown =>
      if s.stats.flowCount != cfg.maxFlows { CreateRefines(cfg, s, t, rawSize); }
  }

  // A scan removes flows of one root only, all of them idle, within the budget; if
  // the idle flows of that root fit the budget it removes all of them.
  lemma ScanReapsIdleOnly(cfg: Config, s: State)
    requires Inv(cfg, s)
    ensures var r, m := Scan(cfg, s), Flows(s.roots);
            && Inv(cfg, r) && |r.roots| == |s.roots| && r.lastTime == s.lastTime
            && |IdleQueue(s)| <= IDLE_SCAN_BUDGET
            && (forall c :: c in Flows(r.roots) ==> c in m && Flows(r.roots)[c] == m[c])
            && (forall c :: c in m && c !in Flows(r.roots) ==> IsIdle(m[c], s.lastTime))
            && (ScanDue(cfg, s) && |IdleNodes(s.roots[s.scanIdx], IdleAt(s.lastTime))| <= IDLE_SCAN_BUDGET ==>
                  forall c :: c in m && IsIdle(m[c], s.lastTime) && Bucket(Hash(m[c].first), |s.roots|) == s.scanIdx
                              ==> c !in Flows(r.roots))
  {
    NodeCmpIsOrder();
    var i := s.scanIdx;
    var root, queue := s.roots[i], IdleQueue(s);
    assert ValidRoot(root, i, |s.roots|);
    ReapRemovesIdle(root, IdleAt(s.lastTime), IDLE_SCAN_BUDGET, NodeCmp, Rank);
    ShrinkIsRemoval(s.roots, i, DeleteAll(root, queue, NodeCmp), Keys(queue));
    forall c | c in Flows(s.roots)
      ensures KeyOf(Flows(s.roots)[c].first) in Keys(queue) ==> IsIdle(Flows(s.roots)[c], s.lastTime)
      ensures (&& Bucket(Hash(Flows(s.roots)[c].first), |s.roots|) == i && IsIdle(Flows(s.roots)[c], s.lastTime)
               && |IdleNodes(root, IdleAt(s.lastTime))| <= IDLE_SCAN_BUDGET)
              ==> KeyOf(Flows(s.roots)[c].first) in Keys(queue)
    {
      FlowsAreHeld(s.roots, c);
      QueuedFlow(s, Flows(s.roots)[c].first);
    }
  }

  lemma QueuedFlow(s: State, t: Tuple)
    requires Valid(s.roots) && s.scanIdx < |s.roots| && Holds(s.roots, t)
    ensures KeyOf(t) in Keys(IdleQueue(s)) ==> IsIdle(FlowAt(s.roots, t), s.lastTime)
    ensures (&& Bucket(Hash(t), |s.roots|) == s.scanIdx && IsIdle(FlowAt(s.roots, t), s.lastTime)
             && |IdleNodes(s.roots[s.scanIdx], IdleAt(s.lastTime))| <= IDLE_SCAN_BUDGET)
            ==> KeyOf(t) in Keys(IdleQueue(s))
  {
    var i := s.scanIdx;
    assert ValidRoot(s.roots[i], i, |s.roots|);
    NodeCmpIsOrder();
    ReapRemovesIdle(s.roots[i], IdleAt(s.lastTime), IDLE_SCAN_BUDGET, NodeCmp, Rank);
    if KeyOf(t) in Keys(IdleQueue(s)) {
      assert ValidEntry(KeyOf(t), Contents(s.roots[i])[KeyOf(t)], i, |s.roots|);
    }
  }

  // A fresh thread with n empty roots and zeroed counters.
  function Fresh(n: nat, protocols: nat, categories: nat): (s: State) {
    State(seq(n, _ => Nil), Stats(0, 0, 0, Zeros(protocols), Zeros(categories)), 0, 0, 0, 0)
  }

  function Zeros(n: nat): (t: Tally) { Tally(seq(n, _ => 0), seq(n, _ => 0), seq(n, _ => 0)) }

  lemma FreshIsValid(cfg: Config, n: nat, protocols: nat, categories: nat)
    requires n > 0 && Ready(cfg, Fresh(n, protocols, categories).stats)
    ensures Inv(cfg, Fresh(n, protocols, categories))
    ensures Flows(Fresh(n, protocols, categories).roots) == map[]
  {
    var s := Fresh(n, protocols, categories);
    forall c ensures c !in Flows(s.roots) {
      if c in Flows(s.roots) { FlowsAreHeld(s.roots, c); }
    }
  }

  // ------------------------------------------------------------------ whole runs

  ghost function Run(cfg: Config, s: State, ps: seq<Packet>): (r: State)
    requires Inv(cfg, s)
    ensures Inv(cfg, r) && |r.roots| == |s.roots| && s.lastTime <= r.lastTime
    decreases |ps|
  {
    if ps == [] then s
    else
      StepKeepsInv(cfg, s, ps[0]);
      Run(cfg, Step(cfg, s, ps[0]), ps[1..])
  }

  lemma StepKeepsInv(cfg: Config, s: State, p: Packet)
    requires Inv(cfg, s)
    ensures Inv(cfg, Ingest(cfg, s, p)) && Inv(cfg, Step(cfg, s, p))
    ensures |Ingest(cfg, s, p).roots| == |Step(cfg, s, p).roots| == |s.roots|
    ensures s.lastTime <= Step(cfg, s, p).lastTime == Ingest(cfg, s, p).lastTime
    ensures p.time <= Step(cfg, s, p).lastTime
  {
    ClockKeepsInv(cfg, s, p.time);
    var s1 := Clock(s, p.time);
    if p.tuple.Some? { ReceiveRefines(cfg, s1, p.tuple.value, p.rawSize); }
    ScanReapsIdleOnly(cfg, Ingest(cfg, s, p));
  }

  predicate Belongs(p: Packet, c: Conversation) {
    p.tuple.Some? && ConversationOf(p.tuple.value) == c
  }

  // The packet is given to a flow: known conversation, or room for a new flow.
  ghost predicate Accepted(cfg: Config, s: State, p: Packet)
    requires Valid(s.roots)
  {
    p.tuple.Some? && (ConversationOf(p.tuple.value) in Flows(s.roots) || s.stats.flowCount != cfg.maxFlows)
  }

  // The scan that follows a packet never frees the flow of that packet, which was
  // last seen at the current clock.
  lemma CurrentFlowSurvives(cfg: Config, s: State, p: Packet)
    requires Inv(cfg, s) && Accepted(cfg, s, p)
    ensures var r, c := Step(cfg, s, p), ConversationOf(p.tuple.value);
            && Inv(cfg, r) && c in Flows(r.roots) && Flows(r.roots)[c].lastSeen == r.lastTime
  {
    StepKeepsInv(cfg, s, p);
    ClockKeepsInv(cfg, s, p.time);
    ReceiveRefines(cfg, Clock(s, p.time), p.tuple.value, p.rawSize);
    ScanReapsIdleOnly(cfg, Ingest(cfg, s, p));
  }

  lemma IngestKeepsOthers(cfg: Config, s: State, p: Packet, c: Conversation)
    requires Inv(cfg, s) && !Belongs(p, c)
    ensures var r := Ingest(cfg, s, p);
            && Inv(cfg, r) && |r.roots| == |s.roots| && r.scanIdx == s.scanIdx && s.lastTime <= r.lastTime
            && (c in Flows(r.roots) <==> c in Flows(s.roots))
            && (c in Flows(r.roots) ==> Flows(r.roots)[c] == Flows(s.roots)[c])
  {
    ClockKeepsInv(cfg, s, p.time);
    if p.tuple.Some? { ReceiveRefines(cfg, Clock(s, p.time), p.tuple.value, p.rawSize); }
  }

  // A step without a packet of c leaves the flow of c as it is, or reaps it when idle;
  // it never creates it.
  lemma OtherFlowsKeep(cfg: Config, s: State, p: Packet, c: Conversation)
    requires Inv(cfg, s) && !Belongs(p, c)
    ensures Inv(cfg, Step(cfg, s, p))
    ensures var r, m := Step(cfg, s, p), Flows(s.roots);
            && (c in Flows(r.roots) ==> c in m && Flows(r.roots)[c] == m[c])
            && (c in m && c !in Flows(r.roots) ==> IsIdle(m[c], r.lastTime))
  {
    StepKeepsInv(cfg, s, p);
    IngestKeepsOthers(cfg, s, p, c);
    ScanReapsIdleOnly(cfg, Ingest(cfg, s, p));
  }

  // No flow is reaped within MAX_IDLE_TIME of its last packet: if it is gone, the
  // clock has passed both its last_seen and the packet's own time stamp by more than
  // that, even when time stamps in the capture go backward.
  lemma NoEarlyReap(cfg: Config, s: State, p: Packet, rest: seq<Packet>)
    requires Inv(cfg, s) && Accepted(cfg, s, p)
    requires forall q | q in rest :: !Belongs(q, ConversationOf(p.tuple.value))
    ensures Inv(cfg, Step(cfg, s, p))
    ensures var c, r := ConversationOf(p.tuple.value), Run(cfg, Step(cfg, s, p), rest);
            c !in Flows(r.roots) ==> p.time + MAX_IDLE_TIME < r.lastTime
  {
    StepKeepsInv(cfg, s, p);
    CurrentFlowSurvives(cfg, s, p);
    StillThereOrIdle(cfg, Step(cfg, s, p), rest, ConversationOf(p.tuple.value));
  }

  lemma {:induction false} StillThereOrIdle(cfg: Config, s: State, ps: seq<Packet>, c: Conversation)
    requires Inv(cfg, s) && c in Flows(s.roots)
    requires forall q | q in ps :: !Belongs(q, c)
    ensures var r, f := Run(cfg, s, ps), Flows(s.roots)[c];
            if c in Flows(r.roots) then Flows(r.roots)[c] == f else IsIdle(f, r.lastTime)
    decreases |ps|
  {
    if ps != [] {
      assert ps[0] in ps;
      OtherFlowsKeep(cfg, s, ps[0], c);
      var s1 := Step(cfg, s, ps[0]);
      StepKeepsInv(cfg, s, ps[0]);
      if c in Flows(s1.roots) { StillThereOrIdle(cfg, s1, ps[1..], c); }
      else { StaysGone(cfg, s1, ps[1..], c); }
    }
  }

  lemma {:induction false} StaysGone(cfg: Config, s: State, ps: seq<Packet>, c: Conversation)
    requires Inv(cfg, s) && c !in Flows(s.roots)
    requires forall q | q in ps :: !Belongs(q, c)
    ensures c !in Flows(Run(cfg, s, ps).roots)
    decreases |ps|
  {
    if ps != [] {
      assert ps[0] in ps;
      StepKeepsInv(cfg, s, ps[0]);
      OtherFlowsKeep(cfg, s, ps[0], c);
      StaysGone(cfg, Step(cfg, s, ps[0]), ps[1..], c);
    }
  }

  // ------------------------------------------------------------- every flow expires

  // Scans done while reading ps, and whether each scanned root fits the budget.
  ghost function Scans(cfg: Config, s: State, ps: seq<Packet>): nat
    requires Inv(cfg, s)
    decreases |ps|
  {
    if ps == [] then 0
    else
      StepKeepsInv(cfg, s, ps[0]);
      (if ScanDue(cfg, Ingest(cfg, s, ps[0])) then 1 else 0) + Scans(cfg, Step(cfg, s, ps[0]), ps[1..])
  }

  ghost predicate FitsBudget(cfg: Config, s: State)
    requires s.scanIdx < |s.roots|
  {
    ScanDue(cfg, s) ==> |IdleNodes(s.roots[s.scanIdx], IdleAt(s.lastTime))| <= IDLE_SCAN_BUDGET
  }

  ghost predicate RunFitsBudget(cfg: Config, s: State, ps: seq<Packet>)
    requires Inv(cfg, s)
    decreases |ps|
  {
    ps == [] ||
    (StepKeepsInv(cfg, s, ps[0]);
     FitsBudget(cfg, Ingest(cfg, s, ps[0])) && RunFitsBudget(cfg, Step(cfg, s, ps[0]), ps[1..]))
  }

  // Scans until root b is visited, starting at root i of n.
  function Distance(i: nat, b: nat, n: nat): (d: nat)
    requires i < n && b < n
    ensures d < n
  {
    if i <= b then b - i else b + n - i
  }

  lemma IdleStepProgress(cfg: Config, s: State, p: Packet, c: Conversation)
    requires Inv(cfg, s) && c in Flows(s.roots) && IsIdle(Flows(s.roots)[c], s.lastTime) && !Belongs(p, c)
    requires Inv(cfg, Ingest(cfg, s, p)) && FitsBudget(cfg, Ingest(cfg, s, p))
    ensures Inv(cfg, Step(cfg, s, p))
    ensures var r, f, n := Step(cfg, s, p), Flows(s.roots)[c], |s.roots|;
            var b := Bucket(Hash(f.first), n);
            c in Flows(r.roots) ==>
              && Flows(r.roots)[c] == f && IsIdle(f, r.lastTime) && |r.roots| == n
              && (if ScanDue(cfg, Ingest(cfg, s, p)) then
                    Distance(s.scanIdx, b, n) > 0 && Distance(r.scanIdx, b, n) == Distance(s.scanIdx, b, n) - 1
                  else r.scanIdx == s.scanIdx)
  {
    StepKeepsInv(cfg, s, p);
    IngestKeepsOthers(cfg, s, p, c);
    ScanProgress(cfg, Ingest(cfg, s, p), c);
  }

  lemma NextRootIsCloser(i: nat, b: nat, n: nat)
    requires i < n && b < n && i != b
    ensures var next := if i + 1 == n then 0 else i + 1;
            Distance(i, b, n) > 0 && Distance(next, b, n) == Distance(i, b, n) - 1
  {
  }

  lemma ScanProgress(cfg: Config, s: State, c: Conversation)
    requires Inv(cfg, s) && c in Flows(s.roots) && IsIdle(Flows(s.roots)[c], s.lastTime) && FitsBudget(cfg, s)
    ensures Inv(cfg, Scan(cfg, s))
    ensures var r, f, n := Scan(cfg, s), Flows(s.roots)[c], |s.roots|;
            var b := Bucket(Hash(f.first), n);
            c in Flows(r.roots) ==>
              && Flows(r.roots)[c] == f && r.lastTime == s.lastTime && |r.roots| == n
              && (if ScanDue(cfg, s) then
                    Distance(s.scanIdx, b, n) > 0 && Distance(r.scanIdx, b, n) == Distance(s.scanIdx, b, n) - 1
                  else r.scanIdx == s.scanIdx)
  {
    ScanReapsIdleOnly(cfg, s);
    var b := Bucket(Hash(Flows(s.roots)[c].first), |s.roots|);
    if s.scanIdx != b { NextRootIsCloser(s.scanIdx, b, |s.roots|); }
  }

  lemma {:induction false} IdleFlowIsSwept(cfg: Config, s: State, ps: seq<Packet>, c: Conversation)
    requires Inv(cfg, s) && c in Flows(s.roots) && IsIdle(Flows(s.roots)[c], s.lastTime)
    requires forall q | q in ps :: !Belongs(q, c)
    requires RunFitsBudget(cfg, s, ps)
    requires Scans(cfg, s, ps) > Distance(s.scanIdx, Bucket(Hash(Flows(s.roots)[c].first), |s.roots|), |s.roots|)
    ensures c !in Flows(Run(cfg, s, ps).roots)
    decreases |ps|
  {
    if ps != [] {
      assert ps[0] in ps;
      StepKeepsInv(cfg, s, ps[0]);
      IdleStepProgress(cfg, s, ps[0], c);
      var s1 := Step(cfg, s, ps[0]);
      if c in Flows(s1.roots) { IdleFlowIsSwept(cfg, s1, ps[1..], c); }
      else { StaysGone(cfg, s1, ps[1..], c); }
    }
  }

  // A flow that stays idle is gone after num_roots scans, if no visited root holds
  // more idle flows than the budget.
  lemma SweepRemovesIdleFlow(cfg: Config, s: State, ps: seq<Packet>, c: Conversation)
    requires Inv(cfg, s) && c in Flows(s.roots) && IsIdle(Flows(s.roots)[c], s.lastTime)
    requires forall q | q in ps :: !Belongs(q, c)
    requires RunFitsBudget(cfg, s, ps) && Scans(cfg, s, ps) >= |s.roots|
    ensures c !in Flows(Run(cfg, s, ps).roots)
  {
    IdleFlowIsSwept(cfg, s, ps, c);
  }
}
