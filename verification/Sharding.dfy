/** Any number of tracker threads over one stream, in any interleaving, against one
    thread alone: the tables of the threads are the parts of the single table. */
module Sharding {
  import opened SearchTree
  import opened TreeTotals
  import opened Tracker

  // Equal up to the flow number.
  ghost predicate SameFlow(f: Flow, g: Flow) { f.(id := 0) == g.(id := 0) }

  // Bucket b holds the flows of bucket c that belong to thread idx of n.
  ghost predicate Part(b: Bucket, c: Bucket, n: nat, idx: nat)
    requires n > 0
  {
    forall k {:trigger k in Contents(b)} {:trigger k in Contents(c)} ::
      && (k in Contents(b) <==> k in Contents(c) && Shard(k.tuple, n) == idx)
      && (k in Contents(b) ==> SameFlow(Contents(b)[k], Contents(c)[k]))
  }

  ghost predicate Rel(n: nat, idx: nat, w: Worker, solo: Worker)
    requires n > 0
  {
    && |w.buckets| == |solo.buckets| > 0 && w.lastTime == solo.lastTime && w.lastScan == solo.lastScan
    && forall i :: 0 <= i < |w.buckets| ==> Part(w.buckets[i], solo.buckets[i], n, idx)
  }

  // -------------------------------------------------------------------- idle scan

  ghost predicate Fits(b: Bucket, now: nat) { |IdleNodes(b, IdleAt(now))| <= MAX_IDLE_FLOWS_PER_THREAD }

  lemma {:induction false} DistinctCardinality<K(!new), V(!new)>(s: seq<(K, V)>)
    requires DistinctKeys(s)
    ensures |Keys(s)| == |s|
  {
    if s != [] {
      var last, rest := s[|s| - 1], s[..|s| - 1];
      DistinctCardinality(rest);
      assert s == rest + [last];
      assert Keys(s) == Keys(rest) + {last.0};
      assert last.0 !in Keys(rest);
    }
  }

  lemma SubsetCardinality<T>(a: set<T>, b: set<T>)
    requires a <= b
    ensures |a| <= |b|
  {
    assert a + (b - a) == b;
  }

  lemma PartFits(b: Bucket, c: Bucket, n: nat, idx: nat, now: nat)
    requires n > 0 && Sorted(b, Rank) && Sorted(c, Rank) && Part(b, c, n, idx) && Fits(c, now)
    ensures Fits(b, now)
  {
    var x, y := IdleNodes(b, IdleAt(now)), IdleNodes(c, IdleAt(now));
    IdleNodesAreDistinct(b, IdleAt(now), Rank);
    IdleNodesAreDistinct(c, IdleAt(now), Rank);
    DistinctCardinality(x);
    DistinctCardinality(y);
    IdleNodesAreIdle(b, IdleAt(now), Rank);
    IdleNodesAreIdle(c, IdleAt(now), Rank);
    forall k | k in Keys(x) ensures k in Keys(y) {
      assert (k, Contents(c)[k]) in y;
    }
    SubsetCardinality(Keys(x), Keys(y));
  }

  lemma FittingReap(b: Bucket, now: nat)
    requires Sorted(b, Rank) && Fits(b, now)
    ensures var r := DeleteAll(b, IdleQueue(b, now), NodeCmp);
            && Sorted(r, Rank)
            && (forall k :: k in Contents(r) <==> k in Contents(b) && !IsIdle(Contents(b)[k], now))
            && (forall k :: k in Contents(r) ==> Contents(r)[k] == Contents(b)[k])
  {
    NodeCmpIsOrder();
    ReapRemovesIdle(b, IdleAt(now), MAX_IDLE_FLOWS_PER_THREAD, NodeCmp, Rank);
  }

  lemma ReapPart(b: Bucket, c: Bucket, n: nat, idx: nat, now: nat)
    requires n > 0 && Sorted(b, Rank) && Sorted(c, Rank) && Part(b, c, n, idx) && Fits(c, now)
    ensures Part(DeleteAll(b, IdleQueue(b, now), NodeCmp), DeleteAll(c, IdleQueue(c, now), NodeCmp), n, idx)
  {
    PartFits(b, c, n, idx, now);
    FittingReap(b, now);
    FittingReap(c, now);
  }

  ghost predicate AllFit(w: Worker) { ScanDue(w) ==> forall i :: 0 <= i < |w.buckets| ==> Fits(w.buckets[i], w.lastTime) }

  lemma CheckIdleRel(n: nat, idx: nat, w: Worker, solo: Worker)
    requires n > 0 && Rel(n, idx, w, solo) && AllSorted(w.buckets) && AllSorted(solo.buckets) && AllFit(solo)
    ensures Rel(n, idx, CheckIdle(w), CheckIdle(solo))
  {
    if ScanDue(w) {
      forall i | 0 <= i < |w.buckets| ensures Part(CheckIdle(w).buckets[i], CheckIdle(solo).buckets[i], n, idx) {
        ReapAllAt(w.buckets, w.lastTime, i);
        ReapAllAt(solo.buckets, w.lastTime, i);
        ReapPart(w.buckets[i], solo.buckets[i], n, idx, w.lastTime);
      }
    }
  }

  // --------------------------------------------------------------- one packet

  lemma FindPart(b: Bucket, c: Bucket, n: nat, idx: nat, k: FlowKey)
    requires n > 0 && Sorted(b, Rank) && Sorted(c, Rank) && Part(b, c, n, idx) && Shard(k.tuple, n) == idx
    ensures var x, y := Find(b, k, NodeCmp), Find(c, k, NodeCmp);
            x.Some? == y.Some? && (x.Some? ==> SameFlow(x.value, y.value))
  {
    NodeCmpIsOrder();
    FindIsLookup(b, k, NodeCmp, Rank);
    FindIsLookup(c, k, NodeCmp, Rank);
  }

  lemma LocateRel(cfg: Config, n: nat, idx: nat, w: Worker, solo: Worker, t: Tuple)
    requires n > 0 && Rel(n, idx, w, solo) && AllSorted(w.buckets) && AllSorted(solo.buckets) && Shard(t, n) == idx
    ensures var x, y := Locate(cfg, w.buckets, t), Locate(cfg, solo.buckets, t);
            x.Known? == y.Known? && (x.Known? ==> x.key == y.key && SameFlow(x.flow, y.flow))
  {
    var h := cfg.hash(t);
    var b := h % |w.buckets|;
    ShardIsSymmetric(t, n);
    FindPart(w.buckets[b], solo.buckets[b], n, idx, FlowKey(h, t));
    FindPart(w.buckets[b], solo.buckets[b], n, idx, FlowKey(h, Mirror(t)));
  }

  // The thread and the single worker store the same record.
  lemma StorePart(b: Bucket, c: Bucket, n: nat, idx: nat, k: FlowKey, f: Flow, g: Flow)
    requires n > 0 && Sorted(b, Rank) && Sorted(c, Rank) && Part(b, c, n, idx)
    requires Shard(k.tuple, n) == idx && SameFlow(f, g)
    ensures Part(Put(b, k, f, NodeCmp), Put(c, k, g, NodeCmp), n, idx)
  {
    NodeCmpIsOrder();
    PutIsUpdate(b, k, f, NodeCmp, Rank);
    PutIsUpdate(c, k, g, NodeCmp, Rank);
  }

  // Only the single worker stores a record of another thread.
  lemma SoloStorePart(b: Bucket, c: Bucket, n: nat, idx: nat, k: FlowKey, g: Flow)
    requires n > 0 && Sorted(c, Rank) && Part(b, c, n, idx) && Shard(k.tuple, n) != idx
    ensures Part(b, Put(c, k, g, NodeCmp), n, idx)
  {
    NodeCmpIsOrder();
    PutIsUpdate(c, k, g, NodeCmp, Rank);
  }

  lemma SameUpdate(cfg: Config, f: Flow, g: Flow, s: Segment, now: nat)
    requires SameFlow(f, g)
    ensures SameFlow(Update(cfg, f, s, now), Update(cfg, g, s, now))
  {
  }

  lemma CommitRel(cfg: Config, n: nat, idx: nat, w: Worker, solo: Worker, k: FlowKey, f: Flow, g: Flow, s: Segment)
    requires n > 0 && Rel(n, idx, w, solo) && AllSorted(w.buckets) && AllSorted(solo.buckets)
    requires Shard(k.tuple, n) == idx && SameFlow(f, g)
    ensures Rel(n, idx, Commit(cfg, w, k, f, s), Commit(cfg, solo, k, g, s))
  {
    SameUpdate(cfg, f, g, s, w.lastTime);
    var b := k.hashval % |w.buckets|;
    StorePart(w.buckets[b], solo.buckets[b], n, idx, k, Update(cfg, f, s, w.lastTime), Update(cfg, g, s, w.lastTime));
  }

  lemma SoloCommitRel(cfg: Config, n: nat, idx: nat, w: Worker, solo: Worker, k: FlowKey, g: Flow, s: Segment)
    requires n > 0 && Rel(n, idx, w, solo) && AllSorted(w.buckets) && AllSorted(solo.buckets)
    requires Shard(k.tuple, n) != idx
    ensures Rel(n, idx, w, Commit(cfg, solo, k, g, s))
  {
    var b := k.hashval % |w.buckets|;
    SoloStorePart(w.buckets[b], solo.buckets[b], n, idx, k, Update(cfg, g, s, solo.lastTime));
  }

  // A packet that causes the single worker no stress: the idle flows of each scanned
  // bucket fit the queue, and a new flow finds room.
  ghost predicate Calm(cfg: Config, solo: Worker, p: Packet)
    requires |solo.buckets| > 0
  {
    && AllFit(solo.(lastTime := p.time))
    && (p.segment.Some? && Locate(cfg, Arrive(solo, p).buckets, p.segment.value.tuple).Unknown? ==>
          Arrive(solo, p).curActive != cfg.maxFlows)
  }

  // A thread that is done with a packet has kept its part of the single table.
  lemma DoneRel(cfg: Config, n: nat, idx: nat, w: Worker, solo: Worker, p: Packet)
    requires n > 0 && idx < n && Rel(n, idx, w, solo) && Inv(cfg, w) && Inv(cfg, solo) && Calm(cfg, solo, p)
    requires Begin(cfg, n, idx, w, p).Done?
    ensures Rel(n, idx, Begin(cfg, n, idx, w, p).worker, SoloStep(cfg, solo, p))
  {
    ArriveRel(cfg, n, idx, w, solo, p);
    var w1, s1 := Arrive(w, p), Arrive(solo, p);
    if p.segment.Some? {
      var s := p.segment.value;
      var l := Locate(cfg, s1.buckets, s.tuple);
      var s2 := s1.(processed := s1.processed + 1, l4Bytes := s1.l4Bytes + s.l4Len);
      if Shard(s.tuple, n) == idx {
        LocateRel(cfg, n, idx, w1, s1, s.tuple);
        var k := Locate(cfg, w1.buckets, s.tuple);
        var w2 := w1.(processed := w1.processed + 1, l4Bytes := w1.l4Bytes + s.l4Len);
        if k.Known? {
          ShardIsSymmetric(s.tuple, n);
          CommitRel(cfg, n, idx, w2, s2, k.key, k.flow, l.flow, s);
        } else {
          RoomRel(cfg, n, idx, w1, s1);
        }
      } else if l.Known? {
        ShardIsSymmetric(s.tuple, n);
        SoloCommitRel(cfg, n, idx, w1, s2, l.key, l.flow, s);
      } else {
        SoloCommitRel(cfg, n, idx, w1, s2.(curActive := s2.curActive + 1, totalActive := s2.totalActive + 1),
                      FlowKey(cfg.hash(s.tuple), s.tuple), NewFlow(solo.totalActive, s), s);
      }
    }
  }

  lemma ArriveRel(cfg: Config, n: nat, idx: nat, w: Worker, solo: Worker, p: Packet)
    requires n > 0 && idx < n && Rel(n, idx, w, solo) && Inv(cfg, w) && Inv(cfg, solo) && Calm(cfg, solo, p)
    ensures Rel(n, idx, Arrive(w, p), Arrive(solo, p)) && Inv(cfg, Arrive(w, p)) && Inv(cfg, Arrive(solo, p))
  {
    CheckIdleRel(n, idx, w.(lastTime := p.time), solo.(lastTime := p.time));
    BeginKeepsInv(cfg, n, idx, w, p);
    BeginKeepsInv(cfg, 1, 0, solo, p);
  }

  // If the single worker has room, so has every thread.
  lemma RoomRel(cfg: Config, n: nat, idx: nat, w: Worker, solo: Worker)
    requires n > 0 && Rel(n, idx, w, solo) && Inv(cfg, w) && Inv(cfg, solo)
    ensures w.curActive <= solo.curActive
  {
    PartsAreSmaller(n, idx, w.buckets, solo.buckets);
  }

  lemma {:induction false} PartsAreSmaller(n: nat, idx: nat, bs: seq<Bucket>, cs: seq<Bucket>)
    requires n > 0 && |bs| == |cs| && AllSorted(bs) && AllSorted(cs)
    requires forall i :: 0 <= i < |bs| ==> Part(bs[i], cs[i], n, idx)
    ensures GrandTotal(bs, One) <= GrandTotal(cs, One)
  {
    if bs != [] {
      PartIsSmaller(n, idx, bs[0], cs[0]);
      PartsAreSmaller(n, idx, bs[1..], cs[1..]);
    }
  }

  lemma PartIsSmaller(n: nat, idx: nat, b: Bucket, c: Bucket)
    requires n > 0 && Sorted(b, Rank) && Sorted(c, Rank) && Part(b, c, n, idx)
    ensures Total(b, One) <= Total(c, One)
  {
    CountIsCardinality(b, One, Rank);
    CountIsCardinality(c, One, Rank);
    SubsetCardinality(Contents(b).Keys, Contents(c).Keys);
    assert |Contents(b)| == |Contents(b).Keys| && |Contents(c)| == |Contents(c).Keys|;
  }

  // A thread about to draw a flow number: the packet is its own and new to both.
  ghost predicate Waiting(cfg: Config, n: nat, idx: nat, w: Worker, solo: Worker, p: Packet)
    requires n > 0 && |solo.buckets| > 0
  {
    && Inv(cfg, w) && Rel(n, idx, w, Arrive(solo, p)) && w.curActive < cfg.maxFlows
    && p.segment.Some? && Shard(p.segment.value.tuple, n) == idx
    && Locate(cfg, w.buckets, p.segment.value.tuple).Unknown?
  }

  lemma WaitingRel(cfg: Config, n: nat, idx: nat, w: Worker, solo: Worker, p: Packet)
    requires n > 0 && idx < n && Rel(n, idx, w, solo) && Inv(cfg, w) && Inv(cfg, solo) && Calm(cfg, solo, p)
    requires Begin(cfg, n, idx, w, p).NeedId?
    ensures Waiting(cfg, n, idx, Begin(cfg, n, idx, w, p).worker, solo, p)
  {
    ArriveRel(cfg, n, idx, w, solo, p);
    BeginKeepsInv(cfg, n, idx, w, p);
  }

  lemma FinishRel(cfg: Config, n: nat, idx: nat, w: Worker, solo: Worker, p: Packet, id: nat)
    requires n > 0 && idx < n && Inv(cfg, solo) && Calm(cfg, solo, p) && Waiting(cfg, n, idx, w, solo, p)
    ensures Rel(n, idx, Finish(cfg, w, p.segment.value, id), SoloStep(cfg, solo, p))
    ensures Inv(cfg, Finish(cfg, w, p.segment.value, id))
  {
    var s, s1 := p.segment.value, Arrive(solo, p);
    BeginKeepsInv(cfg, 1, 0, solo, p);
    LocateRel(cfg, n, idx, w, s1, s.tuple);
    var s2 := s1.(processed := s1.processed + 1, l4Bytes := s1.l4Bytes + s.l4Len,
                  curActive := s1.curActive + 1, totalActive := s1.totalActive + 1);
    CommitRel(cfg, n, idx, w.(curActive := w.curActive + 1, totalActive := w.totalActive + 1), s2,
              FlowKey(cfg.hash(s.tuple), s.tuple), NewFlow(id, s), NewFlow(solo.totalActive, s), s);
    FinishKeepsInv(cfg, w, s, id);
  }

  // ------------------------------------------------------------ the whole system

  // A thread: packets read so far, its state, and whether it is about to draw a number.
  datatype Slot = Slot(pos: nat, worker: Worker, waiting: bool)

  // All threads and the shared flow counter.
  datatype System = System(slots: seq<Slot>, counter: nat)

  // Thread i runs on: to the counter, through the counter, or to the next packet.
  function Advance(cfg: Config, stream: seq<Packet>, sys: System, i: nat): (r: System)
    requires i < |sys.slots| && |sys.slots[i].worker.buckets| > 0
    requires sys.slots[i].waiting ==> sys.slots[i].pos < |stream| && stream[sys.slots[i].pos].segment.Some?
    ensures |r.slots| == |sys.slots|
  {
    var slot := sys.slots[i];
    if slot.pos >= |stream| then sys
    else if slot.waiting then
      var w := Finish(cfg, slot.worker, stream[slot.pos].segment.value, sys.counter);
      System(sys.slots[i := Slot(slot.pos + 1, w, false)], sys.counter + 1)
    else match Begin(cfg, |sys.slots|, i, slot.worker, stream[slot.pos])
      case Done(w) => sys.(slots := sys.slots[i := Slot(slot.pos + 1, w, false)])
      case NeedId(w) => sys.(slots := sys.slots[i := Slot(slot.pos, w, true)])
  }

  // Packets of ps that thread i of n keeps.
  predicate IsKept(p: Packet, n: nat, i: nat)
    requires n > 0
  {
    p.segment.Some? && Shard(p.segment.value.tuple, n) == i
  }

  function Kept(ps: seq<Packet>, n: nat, i: nat): (k: nat)
    requires n > 0
  {
    if ps == [] then 0
    else Kept(ps[..|ps| - 1], n, i) + (if IsKept(ps[|ps| - 1], n, i) then 1 else 0)
  }

  // What holds of every thread in every run, whatever the stream.
  ghost predicate SaneSlot(cfg: Config, m: nat, stream: seq<Packet>, n: nat, i: nat, slot: Slot)
    requires m > 0 && n > 0
  {
    && slot.pos <= |stream| && |slot.worker.buckets| == m && Inv(cfg, slot.worker)
    && slot.worker.processed == Kept(stream[..slot.pos], n, i) + (if slot.waiting then 1 else 0)
    && (slot.waiting ==>
          && slot.pos < |stream| && IsKept(stream[slot.pos], n, i) && slot.worker.curActive < cfg.maxFlows
          && Locate(cfg, slot.worker.buckets, stream[slot.pos].segment.value.tuple).Unknown?)
  }

  ghost predicate Sane(cfg: Config, m: nat, stream: seq<Packet>, sys: System)
    requires m > 0
  {
    |sys.slots| > 0 && forall i :: 0 <= i < |sys.slots| ==> SaneSlot(cfg, m, stream, |sys.slots|, i, sys.slots[i])
  }

  lemma AdvanceKeepsSane(cfg: Config, m: nat, stream: seq<Packet>, sys: System, i: nat)
    requires m > 0 && Sane(cfg, m, stream, sys) && i < |sys.slots|
    ensures Sane(cfg, m, stream, Advance(cfg, stream, sys, i))
  {
    var slot, n := sys.slots[i], |sys.slots|;
    if slot.pos < |stream| {
      var p := stream[slot.pos];
      assert stream[..slot.pos + 1][..slot.pos] == stream[..slot.pos];
      if slot.waiting {
        FinishKeepsInv(cfg, slot.worker, p.segment.value, sys.counter);
      } else {
        BeginKeepsInv(cfg, n, i, slot.worker, p);
        BeginKeepsBuckets(cfg, n, i, slot.worker, p);
      }
    }
  }

  lemma BeginKeepsBuckets(cfg: Config, n: nat, i: nat, w: Worker, p: Packet)
    requires n > 0 && |w.buckets| > 0
    ensures var r := Begin(cfg, n, i, w, p);
            && |r.worker.buckets| == |w.buckets|
            && r.worker.processed == w.processed + (if IsKept(p, n, i) then 1 else 0)
            && (r.NeedId? ==> IsKept(p, n, i))
  {
  }

  function Boot(n: nat, m: nat): (sys: System) {
    System(seq(n, _ => Slot(0, Fresh(m), false)), 0)
  }

  ghost predicate IsSchedule(schedule: seq<nat>, n: nat) {
    forall j :: 0 <= j < |schedule| ==> schedule[j] < n
  }

  // Any interleaving: a schedule says which thread runs on next.
  ghost function Execute(cfg: Config, m: nat, stream: seq<Packet>, n: nat, schedule: seq<nat>): (sys: System)
    requires m > 0 && n > 0 && IsSchedule(schedule, n)
    ensures |sys.slots| == n && Sane(cfg, m, stream, sys)
  {
    if schedule == [] then
      FreshKeepsInv(cfg, m);
      Boot(n, m)
    else
      var i := schedule[|schedule| - 1];
      var sys := Execute(cfg, m, stream, n, schedule[..|schedule| - 1]);
      AdvanceKeepsSane(cfg, m, stream, sys, i);
      Advance(cfg, stream, sys, i)
  }

  // ------------------------------------------------------------------ flow numbers

  ghost predicate Owns(sys: System, i: nat, b: nat, k: FlowKey) {
    i < |sys.slots| && b < |sys.slots[i].worker.buckets| && k in Contents(sys.slots[i].worker.buckets[b])
  }

  ghost function IdOf(sys: System, i: nat, b: nat, k: FlowKey): nat
    requires Owns(sys, i, b, k)
  {
    Contents(sys.slots[i].worker.buckets[b])[k].id
  }

  ghost predicate UniqueIds(sys: System) {
    && (forall i, b, k :: Owns(sys, i, b, k) ==> IdOf(sys, i, b, k) < sys.counter)
    && (forall i, b, k, j, c, l :: Owns(sys, i, b, k) && Owns(sys, j, c, l) && IdOf(sys, i, b, k) == IdOf(sys, j, c, l)
          ==> i == j && b == c && k == l)
  }

  // Every flow in c is a flow in b with the same number, except one new flow.
  ghost predicate SameIds(b: Bucket, c: Bucket, added: Option<(FlowKey, nat)>) {
    forall k :: k in Contents(c) ==>
      || (k in Contents(b) && Contents(c)[k].id == Contents(b)[k].id)
      || (added.Some? && (k, Contents(c)[k].id) == added.value)
  }

  ghost predicate Inherits(bs: seq<Bucket>, cs: seq<Bucket>, added: Option<(FlowKey, nat)>) {
    && |cs| == |bs|
    && forall b: nat :: b < |bs| ==>
         SameIds(bs[b], cs[b], if added.Some? && b == added.value.0.hashval % |bs| then added else None)
  }

  lemma ArriveInherits(w: Worker, p: Packet)
    requires AllSorted(w.buckets)
    ensures Inherits(w.buckets, Arrive(w, p).buckets, None) && AllSorted(Arrive(w, p).buckets)
  {
    if ScanDue(w.(lastTime := p.time)) {
      forall b: nat | b < |w.buckets|
        ensures Sorted(Arrive(w, p).buckets[b], Rank) && SameIds(w.buckets[b], Arrive(w, p).buckets[b], None)
      {
        ReapAllAt(w.buckets, p.time, b);
        NodeCmpIsOrder();
        ReapRemovesIdle(w.buckets[b], IdleAt(p.time), MAX_IDLE_FLOWS_PER_THREAD, NodeCmp, Rank);
      }
    }
  }

  lemma PutSameIds(b: Bucket, c: Bucket, k: FlowKey, f: Flow)
    requires Sorted(c, Rank) && SameIds(b, c, None)
    ensures SameIds(b, Put(c, k, f, NodeCmp), Some((k, f.id)))
    ensures k in Contents(c) && Contents(c)[k].id == f.id ==> SameIds(b, Put(c, k, f, NodeCmp), None)
  {
    NodeCmpIsOrder();
    PutIsUpdate(c, k, f, NodeCmp, Rank);
  }

  lemma StoreInherits(bs: seq<Bucket>, k: FlowKey, f: Flow)
    requires |bs| > 0 && AllSorted(bs)
    ensures Inherits(bs, Store(bs, k, f), Some((k, f.id)))
  {
    var i := k.hashval % |bs|;
    PutSameIds(bs[i], bs[i], k, f);
  }

  lemma UpdateInherits(bs: seq<Bucket>, cs: seq<Bucket>, k: FlowKey, f: Flow, g: Flow)
    requires |bs| > 0 && AllSorted(cs) && Inherits(bs, cs, None)
    requires Find(cs[k.hashval % |cs|], k, NodeCmp) == Some(f) && g.id == f.id
    ensures Inherits(bs, Store(cs, k, g), None)
  {
    var i := k.hashval % |cs|;
    NodeCmpIsOrder();
    FindIsLookup(cs[i], k, NodeCmp, Rank);
    forall b: nat | b < |bs| ensures SameIds(bs[b], Store(cs, k, g)[b], None) {
      assert SameIds(bs[b], cs[b], None);
      if b == i { PutSameIds(bs[b], cs[b], k, g); }
    }
  }

  lemma BeginInherits(cfg: Config, n: nat, i: nat, w: Worker, p: Packet)
    requires n > 0 && |w.buckets| > 0 && AllSorted(w.buckets)
    ensures Inherits(w.buckets, Begin(cfg, n, i, w, p).worker.buckets, None)
  {
    ArriveInherits(w, p);
    var w1 := Arrive(w, p);
    if p.segment.Some? {
      var s := p.segment.value;
      var l := Locate(cfg, w1.buckets, s.tuple);
      if l.Known? { UpdateInherits(w.buckets, w1.buckets, l.key, l.flow, Update(cfg, l.flow, s, w1.lastTime)); }
    }
  }

  // A waiting thread stores its new flow under the number it draws.
  lemma DrawKeepsIds(cfg: Config, m: nat, stream: seq<Packet>, sys: System, i: nat)
    requires m > 0 && Sane(cfg, m, stream, sys) && i < |sys.slots| && UniqueIds(sys) && sys.slots[i].waiting
    ensures UniqueIds(Advance(cfg, stream, sys, i))
  {
    var slot := sys.slots[i];
    assert SaneSlot(cfg, m, stream, |sys.slots|, i, slot);
    var s := stream[slot.pos].segment.value;
    var k := FlowKey(cfg.hash(s.tuple), s.tuple);
    StoreInherits(slot.worker.buckets, k, Update(cfg, NewFlow(sys.counter, s), s, slot.worker.lastTime));
    SlotKeepsIds(sys, i, Slot(slot.pos + 1, Finish(cfg, slot.worker, s, sys.counter), false), sys.counter + 1,
                 Some((k, sys.counter)));
  }

  lemma AdvanceKeepsIds(cfg: Config, m: nat, stream: seq<Packet>, sys: System, i: nat)
    requires m > 0 && Sane(cfg, m, stream, sys) && i < |sys.slots| && UniqueIds(sys)
    ensures UniqueIds(Advance(cfg, stream, sys, i))
  {
    var slot := sys.slots[i];
    if slot.waiting {
      DrawKeepsIds(cfg, m, stream, sys, i);
    } else if slot.pos < |stream| {
      assert SaneSlot(cfg, m, stream, |sys.slots|, i, slot);
      BeginInherits(cfg, |sys.slots|, i, slot.worker, stream[slot.pos]);
      var r := Begin(cfg, |sys.slots|, i, slot.worker, stream[slot.pos]);
      SlotKeepsIds(sys, i, if r.Done? then Slot(slot.pos + 1, r.worker, false) else Slot(slot.pos, r.worker, true),
                   sys.counter, None);
    }
  }

  lemma SlotKeepsIds(sys: System, i: nat, slot: Slot, counter: nat, added: Option<(FlowKey, nat)>)
    requires UniqueIds(sys) && i < |sys.slots| && Inherits(sys.slots[i].worker.buckets, slot.worker.buckets, added)
    requires counter == sys.counter + (if added.Some? then 1 else 0)
    requires added.Some? ==> added.value.1 == sys.counter
    ensures UniqueIds(System(sys.slots[i := slot], counter))
  {
    var r := System(sys.slots[i := slot], counter);
    forall j: nat, b: nat, k | Owns(r, j, b, k)
      ensures || (Owns(sys, j, b, k) && IdOf(r, j, b, k) == IdOf(sys, j, b, k))
              || (added.Some? && j == i && (k, IdOf(r, j, b, k)) == added.value && b == k.hashval % |sys.slots[i].worker.buckets|)
    {
      if j == i { assert SameIds(sys.slots[i].worker.buckets[b], slot.worker.buckets[b],
                                 if added.Some? && b == added.value.0.hashval % |slot.worker.buckets| then added else None); }
    }
  }

  // Flow numbers are unique over all threads, in every interleaving of every stream.
  lemma {:induction false} FlowIdsAreUnique(cfg: Config, m: nat, stream: seq<Packet>, n: nat, schedule: seq<nat>)
    requires m > 0 && n > 0 && IsSchedule(schedule, n)
    ensures UniqueIds(Execute(cfg, m, stream, n, schedule))
  {
    if schedule != [] {
      var i := schedule[|schedule| - 1];
      FlowIdsAreUnique(cfg, m, stream, n, schedule[..|schedule| - 1]);
      AdvanceKeepsIds(cfg, m, stream, Execute(cfg, m, stream, n, schedule[..|schedule| - 1]), i);
    }
  }

  // -------------------------------------------------- refinement of a single worker

  // The whole stream is calm for a single worker.
  ghost predicate CalmStream(cfg: Config, m: nat, stream: seq<Packet>)
    requires m > 0
  {
    forall j :: 0 <= j < |stream| ==> Calm(cfg, Solo(cfg, m, stream[..j]), stream[j])
  }

  ghost predicate SlotOk(cfg: Config, m: nat, stream: seq<Packet>, n: nat, i: nat, slot: Slot)
    requires m > 0 && n > 0
  {
    && slot.pos <= |stream| && Inv(cfg, slot.worker)
    && (if slot.waiting then
          slot.pos < |stream| && Waiting(cfg, n, i, slot.worker, Solo(cfg, m, stream[..slot.pos]), stream[slot.pos])
        else Rel(n, i, slot.worker, Solo(cfg, m, stream[..slot.pos])))
  }

  ghost predicate SystemOk(cfg: Config, m: nat, stream: seq<Packet>, sys: System)
    requires m > 0
  {
    |sys.slots| > 0 && forall i :: 0 <= i < |sys.slots| ==> SlotOk(cfg, m, stream, |sys.slots|, i, sys.slots[i])
  }

  lemma AdvanceKeepsSlot(cfg: Config, m: nat, stream: seq<Packet>, n: nat, i: nat, slot: Slot, counter: nat)
    requires m > 0 && i < n && CalmStream(cfg, m, stream) && SlotOk(cfg, m, stream, n, i, slot) && slot.pos < |stream|
    ensures slot.waiting ==>
              SlotOk(cfg, m, stream, n, i, Slot(slot.pos + 1, Finish(cfg, slot.worker, stream[slot.pos].segment.value, counter), false))
    ensures !slot.waiting ==>
              match Begin(cfg, n, i, slot.worker, stream[slot.pos])
              case Done(w) => SlotOk(cfg, m, stream, n, i, Slot(slot.pos + 1, w, false))
              case NeedId(w) => SlotOk(cfg, m, stream, n, i, Slot(slot.pos, w, true))
  {
    var p, solo := stream[slot.pos], Solo(cfg, m, stream[..slot.pos]);
    assert Calm(cfg, solo, p);
    SoloKeepsInv(cfg, m, stream[..slot.pos]);
    assert stream[..slot.pos + 1][..slot.pos] == stream[..slot.pos];
    if slot.waiting {
      FinishRel(cfg, n, i, slot.worker, solo, p, counter);
    } else {
      BeginKeepsInv(cfg, n, i, slot.worker, p);
      if Begin(cfg, n, i, slot.worker, p).Done? { DoneRel(cfg, n, i, slot.worker, solo, p); }
      else { WaitingRel(cfg, n, i, slot.worker, solo, p); }
    }
  }

  lemma AdvanceKeepsSystem(cfg: Config, m: nat, stream: seq<Packet>, sys: System, i: nat)
    requires m > 0 && CalmStream(cfg, m, stream) && SystemOk(cfg, m, stream, sys) && i < |sys.slots|
    requires Sane(cfg, m, stream, sys)
    ensures SystemOk(cfg, m, stream, Advance(cfg, stream, sys, i))
  {
    assert SlotOk(cfg, m, stream, |sys.slots|, i, sys.slots[i]);
    if sys.slots[i].pos < |stream| {
      AdvanceKeepsSlot(cfg, m, stream, |sys.slots|, i, sys.slots[i], sys.counter);
    }
  }

  lemma BootIsOk(cfg: Config, m: nat, stream: seq<Packet>, n: nat)
    requires m > 0 && n > 0
    ensures SystemOk(cfg, m, stream, Boot(n, m))
  {
    FreshKeepsInv(cfg, m);
    assert stream[..0] == [];
    forall i | 0 <= i < n ensures Rel(n, i, Fresh(m), Solo(cfg, m, stream[..0])) {}
  }

  lemma {:induction false} ExecuteIsOk(cfg: Config, m: nat, stream: seq<Packet>, n: nat, schedule: seq<nat>)
    requires m > 0 && n > 0 && IsSchedule(schedule, n) && CalmStream(cfg, m, stream)
    ensures SystemOk(cfg, m, stream, Execute(cfg, m, stream, n, schedule))
  {
    if schedule == [] {
      BootIsOk(cfg, m, stream, n);
    } else {
      var rest := schedule[..|schedule| - 1];
      ExecuteIsOk(cfg, m, stream, n, rest);
      AdvanceKeepsSystem(cfg, m, stream, Execute(cfg, m, stream, n, rest), schedule[|schedule| - 1]);
    }
  }

  // For any number of threads and any interleaving: a thread between packets holds
  // exactly its part of the table a single worker has after the same packets.
  lemma ThreadsPartitionTheTable(cfg: Config, m: nat, stream: seq<Packet>, n: nat, schedule: seq<nat>, i: nat)
    requires m > 0 && n > 0 && IsSchedule(schedule, n) && CalmStream(cfg, m, stream) && i < n
    ensures var slot := Execute(cfg, m, stream, n, schedule).slots[i];
            !slot.waiting ==> slot.pos <= |stream| && Rel(n, i, slot.worker, Solo(cfg, m, stream[..slot.pos]))
  {
    ExecuteIsOk(cfg, m, stream, n, schedule);
    assert SlotOk(cfg, m, stream, n, i, Execute(cfg, m, stream, n, schedule).slots[i]);
  }

  // When all threads have read the whole stream, every flow of the single table is in
  // exactly one thread, the one its addresses and ports select, with the same record.
  lemma UnionIsTheSingleTable(cfg: Config, m: nat, stream: seq<Packet>, n: nat, schedule: seq<nat>, b: nat, k: FlowKey)
    requires m > 0 && n > 0 && IsSchedule(schedule, n) && CalmStream(cfg, m, stream) && b < m
    requires forall i :: 0 <= i < n ==> Execute(cfg, m, stream, n, schedule).slots[i].pos == |stream|
    ensures var sys, solo := Execute(cfg, m, stream, n, schedule), Solo(cfg, m, stream);
            && (forall i: nat :: Owns(sys, i, b, k) ==> i == Shard(k.tuple, n))
            && (Owns(sys, Shard(k.tuple, n), b, k) <==> k in Contents(solo.buckets[b]))
            && (k in Contents(solo.buckets[b]) ==>
                  SameFlow(Contents(sys.slots[Shard(k.tuple, n)].worker.buckets[b])[k], Contents(solo.buckets[b])[k]))
  {
    var sys := Execute(cfg, m, stream, n, schedule);
    assert stream[..|stream|] == stream;
    forall i: nat | i < n
      ensures !sys.slots[i].waiting && Part(sys.slots[i].worker.buckets[b], Solo(cfg, m, stream).buckets[b], n, i)
      ensures |sys.slots[i].worker.buckets| == m
    {
      assert SaneSlot(cfg, m, stream, |sys.slots|, i, sys.slots[i]);
      ThreadsPartitionTheTable(cfg, m, stream, n, schedule, i);
    }
  }
}
