/** A tracker thread as the program runs it, with the flow counter it shares. */
module TrackerThread {
  import opened SearchTree
  import opened Tracker

  // The counter behind __sync_fetch_and_add.
  class FlowCounter {
    var value: nat

    constructor ()
      ensures value == 0
    {
      value := 0;
    }

    method FetchAndAdd() returns (id: nat)
      modifies this
      ensures id == old(value) && value == old(value) + 1
    {
      id := value;
      value := value + 1;
    }
  }

  // Flows freed from the first j buckets.
  function FreedBefore(bs: seq<Bucket>, now: nat, j: nat): (n: nat)
    requires j <= |bs|
  {
    if j == 0 then 0 else FreedBefore(bs, now, j - 1) + |IdleQueue(bs[j - 1], now)|
  }

  lemma {:induction false} FreedFromHead(bs: seq<Bucket>, now: nat, j: nat)
    requires 0 < j <= |bs|
    ensures FreedBefore(bs, now, j) == |IdleQueue(bs[0], now)| + FreedBefore(bs[1..], now, j - 1)
  {
    if j > 1 { FreedFromHead(bs, now, j - 1); }
  }

  lemma {:induction false} FreedIsReaped(bs: seq<Bucket>, now: nat)
    ensures FreedBefore(bs, now, |bs|) == ReapAll(bs, now).1
  {
    if bs != [] {
      FreedFromHead(bs, now, |bs|);
      FreedIsReaped(bs[1..], now);
    }
  }

  function Reaped(b: Bucket, now: nat): (r: Bucket) { DeleteAll(b, IdleQueue(b, now), NodeCmp) }

  lemma BucketsAreReaped(bs: seq<Bucket>, rs: seq<Bucket>, now: nat)
    requires |rs| == |bs| && forall j :: 0 <= j < |bs| ==> rs[j] == Reaped(bs[j], now)
    ensures rs == ReapAll(bs, now).0
  {
    forall j | 0 <= j < |bs| ensures |ReapAll(bs, now).0| == |bs| && rs[j] == ReapAll(bs, now).0[j] { ReapAllAt(bs, now, j); }
    if bs == [] { assert ReapAll(bs, now).0 == []; }
  }

  // The queue holds nodes of the bucket, each once.
  ghost predicate QueuedIn(b: Bucket, queue: seq<(FlowKey, Flow)>) {
    Sorted(b, Rank) && DistinctKeys(queue) && forall n | n in queue :: n.0 in Contents(b) && Contents(b)[n.0] == n.1
  }

  lemma TailKeys<K(!new), V(!new)>(queue: seq<(K, V)>, j: nat)
    requires DistinctKeys(queue) && j < |queue|
    ensures Keys(queue[j..]) == Keys(queue[j + 1..]) + {queue[j].0} && queue[j].0 !in Keys(queue[j + 1..])
  {
    assert queue[j..] == [queue[j]] + queue[j + 1..];
  }

  lemma StillThere<K, V>(m: map<K, V>, gone: set<K>, k: K, v: V)
    requires k in m && m[k] == v && k !in gone
    ensures k in m - gone && (m - gone)[k] == v && m - gone - {k} == m - (gone + {k})
  {
  }

  // With the entries behind j gone, the node under the key of entry j is that entry.
  lemma OneFreed(b: Bucket, left: Bucket, queue: seq<(FlowKey, Flow)>, j: nat)
    requires QueuedIn(b, queue) && j < |queue| && Sorted(left, Rank) && Contents(left) == Contents(b) - Keys(queue[j + 1..])
    ensures Find(left, queue[j].0, NodeCmp) == Some(queue[j].1)
    ensures var r := Delete(left, queue[j].0, NodeCmp);
            Sorted(r, Rank) && Contents(r) == Contents(b) - Keys(queue[j..])
  {
    var (k, f) := queue[j];
    assert (k, f) in queue;
    TailKeys(queue, j);
    StillThere(Contents(b), Keys(queue[j + 1..]), k, f);
    NodeCmpIsOrder();
    FindIsLookup(left, k, NodeCmp, Rank);
    DeleteIsRemoval(left, k, NodeCmp, Rank);
  }

  // What deleting the entries of a queue should find.
  ghost function Found(queue: seq<(FlowKey, Flow)>): (fs: seq<Option<Flow>>) {
    seq(|queue|, j requires 0 <= j < |queue| => Some(queue[j].1))
  }

  // The entries from j on are gone, and each deletion found its own entry.
  ghost predicate FreedFrom(b: Bucket, left: Bucket, queue: seq<(FlowKey, Flow)>, j: nat, freed: seq<Option<Flow>>) {
    && j <= |queue| && |freed| == |queue| - j
    && (QueuedIn(b, queue) ==>
          && Sorted(left, Rank) && Contents(left) == Contents(b) - Keys(queue[j..])
          && forall i :: 0 <= i < |freed| ==> freed[i] == Some(queue[j + i].1))
  }

  lemma FreedOneMore(b: Bucket, left: Bucket, queue: seq<(FlowKey, Flow)>, j: nat, freed: seq<Option<Flow>>)
    requires j < |queue| && FreedFrom(b, left, queue, j + 1, freed)
    ensures FreedFrom(b, Delete(left, queue[j].0, NodeCmp), queue, j, [Find(left, queue[j].0, NodeCmp)] + freed)
  {
    if QueuedIn(b, queue) { OneFreed(b, left, queue, j); }
  }

  lemma FreedNone(b: Bucket, queue: seq<(FlowKey, Flow)>)
    ensures FreedFrom(b, b, queue, |queue|, [])
  {
    assert Keys(queue[|queue|..]) == {};
  }

  lemma FreedAll(b: Bucket, left: Bucket, queue: seq<(FlowKey, Flow)>, freed: seq<Option<Flow>>)
    requires FreedFrom(b, left, queue, 0, freed)
    ensures |freed| == |queue|
    ensures QueuedIn(b, queue) ==>
              freed == Found(queue) && Contents(left) == Contents(b) - Keys(queue)
  {
    assert queue[0..] == queue;
  }

  // The queue of a scan holds nodes of its bucket.
  lemma ScanQueues(b: Bucket, now: nat)
    requires Sorted(b, Rank)
    ensures QueuedIn(b, IdleQueue(b, now))
  {
    NodeCmpIsOrder();
    ReapRemovesIdle(b, IdleAt(now), MAX_IDLE_FLOWS_PER_THREAD, NodeCmp, Rank);
  }

  class Thread {
    const cfg: Config
    const count: nat           // reader_thread_count
    const arrayIndex: nat
    const flowCounter: FlowCounter
    var buckets: seq<Bucket>
    var lastTime: nat
    var lastScan: nat
    var curActive: int
    var totalActive: nat
    var totalIdle: nat
    var processed: nat
    var l4Bytes: nat
    var detectedFlows: nat
    var idleFlows: array<(FlowKey, Flow)>
    var curIdle: nat

    ghost function View(): Worker
      reads this
    {
      Worker(buckets, lastTime, lastScan, curActive, totalActive, totalIdle, processed, l4Bytes, detectedFlows)
    }

    // What holds between packets: the counters agree with the trees, no flow is queued.
    ghost predicate Ok()
      reads this
    {
      && count > 0 && arrayIndex < count && curIdle == 0
      && idleFlows.Length == MAX_IDLE_FLOWS_PER_THREAD && Inv(cfg, View())
    }

    constructor (cfg: Config, count: nat, arrayIndex: nat, numBuckets: nat, flowCounter: FlowCounter)
      requires numBuckets > 0 && arrayIndex < count
      ensures Ok() && fresh(idleFlows) && View() == Fresh(numBuckets)
      ensures this.cfg == cfg && this.count == count && this.arrayIndex == arrayIndex && this.flowCounter == flowCounter
    {
      this.cfg, this.count, this.arrayIndex, this.flowCounter := cfg, count, arrayIndex, flowCounter;
      buckets := seq(numBuckets, _ => Nil);
      lastTime, lastScan, curActive, totalActive, totalIdle := 0, 0, 0, 0, 0;
      processed, l4Bytes, detectedFlows, curIdle := 0, 0, 0, 0;
      idleFlows := new (FlowKey, Flow)[MAX_IDLE_FLOWS_PER_THREAD];
      new;
      assert View() == Fresh(numBuckets);
      FreshKeepsInv(cfg, numBuckets);
    }

    // ndpi_twalk with ndpi_idle_scan_walker on one subtree.
    method IdleScanWalker(t: Bucket)
      requires idleFlows.Length == MAX_IDLE_FLOWS_PER_THREAD && curIdle <= MAX_IDLE_FLOWS_PER_THREAD
      modifies `curIdle, `totalIdle, idleFlows
      ensures curIdle <= MAX_IDLE_FLOWS_PER_THREAD && totalIdle - curIdle == old(totalIdle - curIdle)
      ensures idleFlows[..curIdle] == Walk(t, IdleAt(lastTime), MAX_IDLE_FLOWS_PER_THREAD, old(idleFlows[..curIdle]))
      decreases t
    {
      match t
      case Nil =>
      case Node(l, k, f, r) =>
        if curIdle != MAX_IDLE_FLOWS_PER_THREAD && IsIdle(f, lastTime) {
          idleFlows[curIdle] := (k, f);
          curIdle := curIdle + 1;
          totalIdle := totalIdle + 1;
          assert idleFlows[..curIdle] == old(idleFlows[..curIdle]) + [(k, f)];
        }
        IdleScanWalker(l);
        IdleScanWalker(r);
    }

    // The inner loop of check_for_idle_flows: free the queued flows of bucket i, last first;
    // `freed` is what each deletion finds.
    method FreeQueued(i: nat) returns (ghost freed: seq<Option<Flow>>)
      requires i < |buckets| && curIdle <= idleFlows.Length
      modifies `buckets, `curIdle, `curActive
      ensures curIdle == 0 && curActive == old(curActive) - old(curIdle)
      ensures buckets == old(buckets[i := DeleteAll(buckets[i], idleFlows[..curIdle], NodeCmp)])
      ensures |freed| == old(curIdle)
      ensures old(QueuedIn(buckets[i], idleFlows[..curIdle])) ==>
                && freed == Found(old(idleFlows[..curIdle]))
                && Contents(buckets[i]) == Contents(old(buckets)[i]) - Keys(old(idleFlows[..curIdle]))
    {
      ghost var queue, b := idleFlows[..curIdle], buckets[i];
      freed := [];
      FreedNone(b, queue);
      assert queue[..curIdle] == queue;
      while curIdle > 0
        invariant curIdle <= |queue| && |buckets| == |old(buckets)| && curActive == old(curActive) - |queue| + curIdle
        invariant buckets == old(buckets)[i := buckets[i]]
        invariant DeleteAll(buckets[i], queue[..curIdle], NodeCmp) == DeleteAll(b, queue, NodeCmp)
        invariant FreedFrom(b, buckets[i], queue, curIdle, freed)
      {
        curIdle := curIdle - 1;
        assert queue[..curIdle + 1][..curIdle] == queue[..curIdle];
        FreedOneMore(b, buckets[i], queue, curIdle, freed);
        freed := [Find(buckets[i], idleFlows[curIdle].0, NodeCmp)] + freed;
        buckets := buckets[i := Delete(buckets[i], idleFlows[curIdle].0, NodeCmp)];
        curActive := curActive - 1;
      }
      FreedAll(b, buckets[i], queue, freed);
    }

    // The body of the outer loop: queue and free the idle flows of bucket i; every deletion finds
    // the record that was queued.
    method ReapBucket(i: nat) returns (ghost freed: seq<Option<Flow>>)
      requires i < |buckets| && idleFlows.Length == MAX_IDLE_FLOWS_PER_THREAD && curIdle == 0 && Sorted(buckets[i], Rank)
      modifies `buckets, `curIdle, `curActive, `totalIdle, idleFlows
      ensures curIdle == 0
      ensures var queue := IdleQueue(old(buckets)[i], lastTime);
              && buckets == old(buckets)[i := Reaped(old(buckets)[i], lastTime)]
              && curActive == old(curActive) - |queue| && totalIdle == old(totalIdle) + |queue|
              && freed == Found(queue)
    {
      assert idleFlows[..0] == [];
      var b := buckets[i];
      ScanQueues(b, lastTime);
      IdleScanWalker(b);
      assert buckets[i] == b && idleFlows[..curIdle] == IdleQueue(b, lastTime);
      freed := FreeQueued(i);
    }

    // The outer loop, over all buckets.
    method ReapBuckets() returns (ghost freed: seq<seq<Option<Flow>>>)
      requires idleFlows.Length == MAX_IDLE_FLOWS_PER_THREAD && curIdle == 0 && AllSorted(buckets)
      modifies `buckets, `curIdle, `curActive, `totalIdle, idleFlows
      ensures curIdle == 0
      ensures var (bs, n) := ReapAll(old(buckets), lastTime);
              buckets == bs && curActive == old(curActive) - n && totalIdle == old(totalIdle) + n
      ensures |freed| == |old(buckets)|
      ensures forall i :: 0 <= i < |freed| ==> freed[i] == Found(IdleQueue(old(buckets)[i], lastTime))
    {
      ghost var bs := buckets;
      freed := [];
      for i := 0 to |buckets|
        invariant |buckets| == |bs| && curIdle == 0 && idleFlows == old(idleFlows)
        invariant forall j :: 0 <= j < i ==> buckets[j] == Reaped(bs[j], lastTime)
        invariant forall j :: i <= j < |bs| ==> buckets[j] == bs[j]
        invariant |freed| == i && forall j :: 0 <= j < i ==> freed[j] == Found(IdleQueue(bs[j], lastTime))
        invariant curActive == old(curActive) - FreedBefore(bs, lastTime, i)
        invariant totalIdle == old(totalIdle) + FreedBefore(bs, lastTime, i)
      {
        ghost var found := ReapBucket(i);
        freed := freed + [found];
      }
      FreedIsReaped(bs, lastTime);
      BucketsAreReaped(bs, buckets, lastTime);
    }

    // check_for_idle_flows; at a scan `freed` is what the deletions find, bucket by bucket.
    method CheckForIdleFlows() returns (ghost freed: seq<seq<Option<Flow>>>)
      requires idleFlows.Length == MAX_IDLE_FLOWS_PER_THREAD && curIdle == 0 && AllSorted(buckets)
      modifies `buckets, `curIdle, `curActive, `totalIdle, `lastScan, idleFlows
      ensures curIdle == 0
      ensures View() == CheckIdle(old(View()))
      ensures ScanDue(old(View())) ==>
                && |freed| == |old(buckets)|
                && forall i :: 0 <= i < |freed| ==> freed[i] == Found(IdleQueue(old(buckets)[i], lastTime))
    {
      freed := [];
      if lastScan + IDLE_SCAN_PERIOD < lastTime {
        freed := ReapBuckets();
        lastScan := lastTime;
      }
    }

    // Account the packet to its flow and count a detection.
    method Process(k: FlowKey, f: Flow, s: Segment)
      requires |buckets| > 0
      modifies `buckets, `detectedFlows
      ensures View() == Commit(cfg, old(View()), k, f, s)
    {
      var g := Update(cfg, f, s, lastTime);
      buckets := Store(buckets, k, g);
      if g.completed && !f.completed { detectedFlows := detectedFlows + 1; }
    }

    // The rest of the call for a packet of this thread's own; `drew` tells whether a
    // flow number was drawn.
    method KeepPacket(s: Segment) returns (ghost drew: bool)
      requires |buckets| > 0
      modifies `buckets, `detectedFlows, `processed, `l4Bytes, `curActive, `totalActive, flowCounter
      ensures var r := Keep(cfg, old(View()), s);
              && drew == r.NeedId?
              && View() == (if r.Done? then r.worker else Finish(cfg, r.worker, s, old(flowCounter.value)))
      ensures flowCounter.value == old(flowCounter.value) + (if drew then 1 else 0)
    {
      drew := false;
      processed := processed + 1;
      l4Bytes := l4Bytes + s.l4Len;
      match Locate(cfg, buckets, s.tuple)
      case Known(k, f) => Process(k, f, s);
      case Unknown =>
        if curActive != cfg.maxFlows {
          var id := flowCounter.FetchAndAdd();
          drew := true;
          curActive, totalActive := curActive + 1, totalActive + 1;
          Process(FlowKey(cfg.hash(s.tuple), s.tuple), NewFlow(id, s), s);
        }
    }

    // ndpi_process_packet
    method ProcessPacket(p: Packet) returns (ghost drew: bool)
      requires Ok()
      modifies this, idleFlows, flowCounter
      ensures Ok() && idleFlows == old(idleFlows)
      ensures View() == Step(cfg, count, arrayIndex, old(View()), p, old(flowCounter.value))
      ensures flowCounter.value == old(flowCounter.value) + (if drew then 1 else 0)
      ensures drew <==> Begin(cfg, count, arrayIndex, old(View()), p).NeedId?
    {
      StepKeepsInv(cfg, count, arrayIndex, View(), p, flowCounter.value);
      drew := false;
      lastTime := p.time;
      ghost var freed := CheckForIdleFlows();
      assert View() == Arrive(old(View()), p);
      if p.segment.Some? && Shard(p.segment.value.tuple, count) == arrayIndex {
        drew := KeepPacket(p.segment.value);
      }
    }
  }
}
