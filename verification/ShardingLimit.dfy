/** Where the threads stop refining a single worker: together they have the room of all
    their flow limits. */
module ShardingLimit {
  import opened SearchTree
  import opened Tracker
  import opened TrackerTable
  import opened Sharding

  // ------------------------------------------------ what a stream says by itself

  // One record per conversation, without trees, limits or scans.
  type Records = map<FlowKey, Flow>

  // The key under which packets of t are recorded: the orientation that came first.
  function Filed(cfg: Config, live: Records, t: Tuple): (k: FlowKey)
    ensures k == FlowKey(cfg.hash(t), t) || k == FlowKey(cfg.hash(t), Mirror(t))
  {
    var k, r := FlowKey(cfg.hash(t), t), FlowKey(cfg.hash(t), Mirror(t));
    if k !in live && r in live then r else k
  }

  function Note(cfg: Config, live: Records, p: Packet): (r: Records) {
    if p.segment.None? then live
    else
      var s := p.segment.value;
      var k := Filed(cfg, live, s.tuple);
      live[k := Update(cfg, if k in live then live[k] else NewFlow(0, s), s, p.time)]
  }

  function Live(cfg: Config, ps: seq<Packet>): (live: Records) {
    if ps == [] then map[] else Note(cfg, Live(cfg, ps[..|ps| - 1]), ps[|ps| - 1])
  }

  predicate IsNew(cfg: Config, live: Records, p: Packet) {
    p.segment.Some? && Filed(cfg, live, p.segment.value.tuple) !in live
  }

  // The conversations in the order of their first packets.
  function News(cfg: Config, ps: seq<Packet>): (ks: seq<FlowKey>) {
    if ps == [] then []
    else
      var live, p := Live(cfg, ps[..|ps| - 1]), ps[|ps| - 1];
      News(cfg, ps[..|ps| - 1]) + (if IsNew(cfg, live, p) then [Filed(cfg, live, p.segment.value.tuple)] else [])
  }

  // When the idle check last ran.
  function ScanTime(ps: seq<Packet>): (time: nat) {
    if ps == [] then 0
    else
      var before, now := ScanTime(ps[..|ps| - 1]), ps[|ps| - 1].time;
      if before + IDLE_SCAN_PERIOD < now then now else before
  }

  predicate IsScan(ps: seq<Packet>, now: nat) { ScanTime(ps) + IDLE_SCAN_PERIOD < now }

  ghost predicate NoneIdle(live: Records, now: nat) { forall k | k in live :: !IsIdle(live[k], now) }

  // No conversation is idle at a scan.
  ghost predicate Awake(cfg: Config, ps: seq<Packet>) {
    forall j | 0 <= j < |ps| && IsScan(ps[..j], ps[j].time) :: NoneIdle(Live(cfg, ps[..j]), ps[j].time)
  }

  // Keys carry the hash of their tuple, and no conversation is recorded in both orientations.
  ghost predicate Filing(cfg: Config, live: Records) {
    && (forall k | k in live :: k.hashval == cfg.hash(k.tuple))
    && (forall k | k in live && FlowKey(k.hashval, Mirror(k.tuple)) in live :: Mirror(k.tuple) == k.tuple)
  }

  lemma NoteKeepsFiling(cfg: Config, live: Records, p: Packet)
    requires Filing(cfg, live)
    ensures Filing(cfg, Note(cfg, live, p))
  {
    if IsNew(cfg, live, p) {
      var t := p.segment.value.tuple;
      assert Mirror(Mirror(t)) == t;
      assert forall k | k in live :: FlowKey(k.hashval, Mirror(k.tuple)) == FlowKey(cfg.hash(t), t) ==>
                                     k == FlowKey(cfg.hash(t), Mirror(t));
    }
  }

  ghost predicate Distinct<T(!new)>(ts: seq<T>) { forall a, b | 0 <= a < b < |ts| :: ts[a] != ts[b] }

  // The records are those of the conversations that came, each listed once.
  lemma {:induction false} NewsAreRecorded(cfg: Config, ps: seq<Packet>)
    ensures Filing(cfg, Live(cfg, ps)) && Distinct(News(cfg, ps))
    ensures forall k :: k in Live(cfg, ps) <==> k in News(cfg, ps)
  {
    if ps != [] {
      var rest, p := ps[..|ps| - 1], ps[|ps| - 1];
      NewsAreRecorded(cfg, rest);
      NoteKeepsFiling(cfg, Live(cfg, rest), p);
    }
  }

  // Every packet belongs to a conversation on the list.
  lemma {:induction false} EveryPacketIsFiled(cfg: Config, ps: seq<Packet>, a: nat)
    requires a < |ps| && ps[a].segment.Some?
    ensures var t := ps[a].segment.value.tuple;
            FlowKey(cfg.hash(t), t) in News(cfg, ps) || FlowKey(cfg.hash(t), Mirror(t)) in News(cfg, ps)
  {
    var rest := ps[..|ps| - 1];
    NewsAreRecorded(cfg, rest);
    if a < |rest| {
      EveryPacketIsFiled(cfg, rest, a);
      assert rest[a] == ps[a];
    }
  }

  // Streams that end before the first scan are awake, and so are those shorter than the idle time
  // in which no flow is closed.
  lemma ShortStreamsAreAwake(cfg: Config, ps: seq<Packet>)
    requires || (forall p | p in ps :: p.time <= IDLE_SCAN_PERIOD)
             || (forall p | p in ps :: p.time <= MAX_IDLE_TIME && (p.segment.Some? ==> !p.segment.value.finAck))
    ensures Awake(cfg, ps)
  {
    forall j | 0 <= j < |ps| && IsScan(ps[..j], ps[j].time) ensures NoneIdle(Live(cfg, ps[..j]), ps[j].time) {
      assert ps[j] in ps;
      OpenFlows(cfg, ps[..j]);
    }
  }

  lemma {:induction false} OpenFlows(cfg: Config, ps: seq<Packet>)
    ensures (forall p | p in ps && p.segment.Some? :: !p.segment.value.finAck) ==>
              forall k | k in Live(cfg, ps) :: !Live(cfg, ps)[k].finAckSeen
  {
    if ps != [] {
      OpenFlows(cfg, ps[..|ps| - 1]);
      assert ps[|ps| - 1] in ps;
    }
  }

  // ------------------------------------------------ the table of a thread

  // The conversations thread i of n finds room for: the first max of its own.
  ghost function Got(ks: seq<FlowKey>, n: nat, i: nat, max: nat): (g: set<FlowKey>)
    requires n > 0
    ensures |g| <= max && |g| <= |ks| && forall k | k in g :: k in ks && Shard(k.tuple, n) == i
  {
    if ks == [] then {}
    else
      var k, g := ks[|ks| - 1], Got(ks[..|ks| - 1], n, i, max);
      if Shard(k.tuple, n) == i && |g| < max then g + {k} else g
  }

  // The buckets hold exactly the records of the given keys, up to flow numbers.
  ghost predicate Holding(cfg: Config, live: Records, keys: set<FlowKey>, bs: seq<Bucket>) {
    && TableOk(cfg, bs)
    && forall b, k {:trigger k in Contents(bs[b])} | 0 <= b < |bs| ::
         && (k in Contents(bs[b]) <==> k in keys && b == k.hashval % |bs|)
         && (k in Contents(bs[b]) ==> k in live && SameFlow(Contents(bs[b])[k], live[k]))
  }

  ghost predicate Stands(cfg: Config, live: Records, keys: set<FlowKey>, scan: nat, w: Worker) {
    Holding(cfg, live, keys, w.buckets) && w.curActive == |keys| && w.lastScan == scan
  }

  ghost function Mine(cfg: Config, ps: seq<Packet>, n: nat, i: nat): (keys: set<FlowKey>)
    requires n > 0
  {
    Got(News(cfg, ps), n, i, cfg.maxFlows)
  }

  // Thread i after the packets ps.
  ghost predicate Serves(cfg: Config, ps: seq<Packet>, n: nat, i: nat, w: Worker)
    requires n > 0
  {
    Stands(cfg, Live(cfg, ps), Mine(cfg, ps, n, i), ScanTime(ps), w)
  }

  // The same, with the packet p in hand and about to draw a number for it.
  ghost predicate Pending(cfg: Config, ps: seq<Packet>, p: Packet, n: nat, i: nat, w: Worker)
    requires n > 0
  {
    && Stands(cfg, Live(cfg, ps), Mine(cfg, ps, n, i), ScanTime(ps + [p]), w)
    && w.curActive < cfg.maxFlows && w.lastTime == p.time
    && IsNew(cfg, Live(cfg, ps), p) && Shard(p.segment.value.tuple, n) == i
  }

  // A call for the packet p has ended, or stopped before the counter.
  ghost predicate Handled(cfg: Config, ps: seq<Packet>, p: Packet, n: nat, i: nat, r: Progress)
    requires n > 0
  {
    if r.Done? then Serves(cfg, ps + [p], n, i, r.worker) else Pending(cfg, ps, p, n, i, r.worker)
  }

  // ------------------------------------------------ arrival: nothing is idle

  lemma HasFirst<T>(s: seq<T>)
    ensures s != [] ==> s[0] in s
  {
  }

  lemma NothingQueued(b: Bucket, now: nat)
    requires Sorted(b, Rank) && forall k | k in Contents(b) :: !IsIdle(Contents(b)[k], now)
    ensures IdleQueue(b, now) == []
  {
    var idle := IdleNodes(b, IdleAt(now));
    IdleNodesAreIdle(b, IdleAt(now), Rank);
    HasFirst(idle);
    WalkTakesBudget(b, IdleAt(now), MAX_IDLE_FLOWS_PER_THREAD, []);
    assert [] + idle == idle;
  }

  lemma {:induction false} NothingReaped(bs: seq<Bucket>, now: nat)
    requires AllSorted(bs)
    requires forall b, k {:trigger k in Contents(bs[b])} | 0 <= b < |bs| && k in Contents(bs[b]) :: !IsIdle(Contents(bs[b])[k], now)
    ensures ReapAll(bs, now) == (bs, 0)
  {
    if bs != [] {
      NothingQueued(bs[0], now);
      NothingReaped(bs[1..], now);
      assert [bs[0]] + bs[1..] == bs;
    }
  }

  lemma TableIsSorted(cfg: Config, bs: seq<Bucket>)
    requires TableOk(cfg, bs)
    ensures AllSorted(bs)
  {
    forall b | 0 <= b < |bs| ensures Sorted(bs[b], Rank) { assert PlacedIn(cfg, bs[b], b, |bs|); }
  }

  lemma ArriveKeeps(cfg: Config, ps: seq<Packet>, p: Packet, n: nat, i: nat, w: Worker)
    requires n > 0 && Serves(cfg, ps, n, i, w) && (IsScan(ps, p.time) ==> NoneIdle(Live(cfg, ps), p.time))
    ensures Arrive(w, p) == w.(lastTime := p.time, lastScan := ScanTime(ps + [p]))
  {
    assert (ps + [p])[..|ps|] == ps;
    if IsScan(ps, p.time) {
      TableIsSorted(cfg, w.buckets);
      NothingReaped(w.buckets, p.time);
    }
  }

  // ------------------------------------------------ one packet

  // The two-step search finds the record the packet is filed under, if the table has it.
  lemma LocateFiled(cfg: Config, live: Records, keys: set<FlowKey>, bs: seq<Bucket>, t: Tuple)
    requires Filing(cfg, live) && Holding(cfg, live, keys, bs) && forall k | k in keys :: k in live
    ensures var k := Filed(cfg, live, t);
            if k in keys then k in Contents(bs[k.hashval % |bs|]) && Locate(cfg, bs, t) == Known(k, Contents(bs[k.hashval % |bs|])[k])
            else Locate(cfg, bs, t).Unknown?
  {
    LocateIsSearch(cfg, bs, t);
    var h := cfg.hash(t);
    var b := bs[h % |bs|];
    var k, r := FlowKey(h, t), FlowKey(h, Mirror(t));
    assert k in Contents(b) <==> k in keys;
    assert r in Contents(b) <==> r in keys;
  }

  lemma Appended(cfg: Config, ps: seq<Packet>, p: Packet)
    ensures Live(cfg, ps + [p]) == Note(cfg, Live(cfg, ps), p)
    ensures News(cfg, ps + [p]) == if IsNew(cfg, Live(cfg, ps), p)
                                   then News(cfg, ps) + [Filed(cfg, Live(cfg, ps), p.segment.value.tuple)] else News(cfg, ps)
  {
    assert (ps + [p])[..|ps|] == ps;
    assert News(cfg, ps) + [] == News(cfg, ps);
  }

  lemma GotAppends(ks: seq<FlowKey>, k: FlowKey, n: nat, i: nat, max: nat, mine: bool)
    requires n > 0 && mine == (Shard(k.tuple, n) == i)
    ensures Got(ks + [k], n, i, max) == Admitted(Got(ks, n, i, max), k, max, mine)
  {
    assert (ks + [k])[..|ks|] == ks;
  }

  function Admitted(keys: set<FlowKey>, k: FlowKey, max: nat, mine: bool): (r: set<FlowKey>) {
    if mine && |keys| < max then keys + {k} else keys
  }

  lemma FiledInShard(cfg: Config, live: Records, t: Tuple, n: nat)
    requires n > 0
    ensures Shard(Filed(cfg, live, t).tuple, n) == Shard(t, n)
  {
    ShardIsSymmetric(t, n);
  }

  // A packet whose record the table does not have leaves the rest as it is.
  lemma HoldingPassesOver(cfg: Config, live: Records, keys: set<FlowKey>, bs: seq<Bucket>, p: Packet)
    requires Holding(cfg, live, keys, bs) && (p.segment.Some? ==> Filed(cfg, live, p.segment.value.tuple) !in keys)
    ensures Holding(cfg, Note(cfg, live, p), keys, bs)
  {
  }

  // Storing the record of one key, new or known.
  lemma HoldingStores(cfg: Config, live: Records, keys: set<FlowKey>, bs: seq<Bucket>, k: FlowKey, f: Flow, g: Flow)
    requires Holding(cfg, live, keys, bs) && Filing(cfg, live) && Filing(cfg, live[k := g]) && SameFlow(f, g)
    requires forall l | l in keys :: l in live
    ensures Holding(cfg, live[k := g], keys + {k}, Store(bs, k, f))
  {
    var i := k.hashval % |bs|;
    assert k in live[k := g];
    assert k in Contents(bs[i]) || FlowKey(k.hashval, Mirror(k.tuple)) !in Contents(bs[i]) by {
      var r := FlowKey(k.hashval, Mirror(k.tuple));
      if r in Contents(bs[i]) { assert r in live && r in live[k := g]; }
    }
    PutKeepsPlaced(cfg, bs[i], i, |bs|, k, f) by { assert PlacedIn(cfg, bs[i], i, |bs|); }
    StoreKeepsTable(cfg, bs, k, f);
  }

  // How the keys of a thread grow.
  lemma MineGrows(cfg: Config, ps: seq<Packet>, p: Packet, n: nat, i: nat, mine: bool)
    requires n > 0 && mine == (p.segment.Some? && Shard(p.segment.value.tuple, n) == i)
    ensures Mine(cfg, ps + [p], n, i) ==
            if IsNew(cfg, Live(cfg, ps), p)
            then Admitted(Mine(cfg, ps, n, i), Filed(cfg, Live(cfg, ps), p.segment.value.tuple), cfg.maxFlows, mine)
            else Mine(cfg, ps, n, i)
  {
    Appended(cfg, ps, p);
    if IsNew(cfg, Live(cfg, ps), p) {
      FiledInShard(cfg, Live(cfg, ps), p.segment.value.tuple, n);
      GotAppends(News(cfg, ps), Filed(cfg, Live(cfg, ps), p.segment.value.tuple), n, i, cfg.maxFlows, mine);
    }
  }

  lemma MineIsRecorded(cfg: Config, ps: seq<Packet>, n: nat, i: nat)
    requires n > 0
    ensures Filing(cfg, Live(cfg, ps))
    ensures forall k | k in Mine(cfg, ps, n, i) :: k in Live(cfg, ps) && Shard(k.tuple, n) == i
  {
    NewsAreRecorded(cfg, ps);
  }

  // A thread does nothing for a packet of another shard, or of a conversation it once refused.
  lemma PassedOver(cfg: Config, ps: seq<Packet>, p: Packet, n: nat, i: nat, w: Worker)
    requires n > 0 && Stands(cfg, Live(cfg, ps), Mine(cfg, ps, n, i), ScanTime(ps + [p]), w)
    requires p.segment.Some? ==>
               || Shard(p.segment.value.tuple, n) != i
               || (w.curActive == cfg.maxFlows && Filed(cfg, Live(cfg, ps), p.segment.value.tuple) !in Mine(cfg, ps, n, i))
    ensures Serves(cfg, ps + [p], n, i, w)
  {
    MineGrows(cfg, ps, p, n, i, p.segment.Some? && Shard(p.segment.value.tuple, n) == i);
    MineIsRecorded(cfg, ps, n, i);
    Appended(cfg, ps, p);
    if p.segment.Some? { FiledInShard(cfg, Live(cfg, ps), p.segment.value.tuple, n); }
    HoldingPassesOver(cfg, Live(cfg, ps), Mine(cfg, ps, n, i), w.buckets, p);
  }

  // The record of a known conversation is updated.
  lemma Renewed(cfg: Config, ps: seq<Packet>, p: Packet, n: nat, i: nat, w: Worker, k: FlowKey)
    requires n > 0 && Stands(cfg, Live(cfg, ps), Mine(cfg, ps, n, i), ScanTime(ps + [p]), w)
    requires w.lastTime == p.time && p.segment.Some? && k in Mine(cfg, ps, n, i)
    requires k == Filed(cfg, Live(cfg, ps), p.segment.value.tuple) && k in Contents(w.buckets[k.hashval % |w.buckets|])
    ensures Serves(cfg, ps + [p], n, i, Commit(cfg, w, k, Contents(w.buckets[k.hashval % |w.buckets|])[k], p.segment.value))
  {
    var live, keys, s := Live(cfg, ps), Mine(cfg, ps, n, i), p.segment.value;
    var f := Contents(w.buckets[k.hashval % |w.buckets|])[k];
    MineGrows(cfg, ps, p, n, i, Shard(s.tuple, n) == i);
    MineIsRecorded(cfg, ps, n, i);
    MineIsRecorded(cfg, ps + [p], n, i);
    Appended(cfg, ps, p);
    SameUpdate(cfg, f, live[k], s, p.time);
    HoldingStores(cfg, live, keys, w.buckets, k, Update(cfg, f, s, p.time), Update(cfg, live[k], s, p.time));
    assert keys + {k} == keys;
  }

  // A new conversation is stored, whatever number is drawn for it.
  lemma Stored(cfg: Config, ps: seq<Packet>, p: Packet, n: nat, i: nat, w: Worker, id: nat)
    requires n > 0 && Pending(cfg, ps, p, n, i, w)
    ensures Serves(cfg, ps + [p], n, i, Finish(cfg, w, p.segment.value, id))
  {
    var live, keys, s := Live(cfg, ps), Mine(cfg, ps, n, i), p.segment.value;
    var k := Filed(cfg, live, s.tuple);
    MineGrows(cfg, ps, p, n, i, true);
    MineIsRecorded(cfg, ps, n, i);
    MineIsRecorded(cfg, ps + [p], n, i);
    Appended(cfg, ps, p);
    SameUpdate(cfg, NewFlow(id, s), NewFlow(0, s), s, p.time);
    HoldingStores(cfg, live, keys, w.buckets, k, Update(cfg, NewFlow(id, s), s, p.time), Update(cfg, NewFlow(0, s), s, p.time));
  }

  // Whoever was refused was refused for want of room, which never comes back.
  lemma {:induction false} RefusedIsFull(ks: seq<FlowKey>, n: nat, i: nat, max: nat, k: FlowKey)
    requires n > 0 && k in ks && Shard(k.tuple, n) == i && k !in Got(ks, n, i, max)
    ensures |Got(ks, n, i, max)| == max
  {
    var rest := ks[..|ks| - 1];
    assert ks == rest + [ks[|ks| - 1]];
    if k in rest { RefusedIsFull(rest, n, i, max, k); }
  }

  // A packet of a conversation the table does not have: refused, or about to be stored.
  lemma UnknownServes(cfg: Config, ps: seq<Packet>, p: Packet, n: nat, i: nat, w: Worker)
    requires n > 0 && Stands(cfg, Live(cfg, ps), Mine(cfg, ps, n, i), ScanTime(ps + [p]), w) && w.lastTime == p.time
    requires p.segment.Some? && Shard(p.segment.value.tuple, n) == i
    requires Filed(cfg, Live(cfg, ps), p.segment.value.tuple) !in Mine(cfg, ps, n, i)
    ensures if w.curActive == cfg.maxFlows then Serves(cfg, ps + [p], n, i, w) else Pending(cfg, ps, p, n, i, w)
  {
    var k := Filed(cfg, Live(cfg, ps), p.segment.value.tuple);
    if w.curActive == cfg.maxFlows {
      PassedOver(cfg, ps, p, n, i, w);
    } else {
      NewsAreRecorded(cfg, ps);
      FiledInShard(cfg, Live(cfg, ps), p.segment.value.tuple, n);
      if k in Live(cfg, ps) { RefusedIsFull(News(cfg, ps), n, i, cfg.maxFlows, k); }
    }
  }

  lemma KeepServes(cfg: Config, ps: seq<Packet>, p: Packet, n: nat, i: nat, w: Worker)
    requires n > 0 && Stands(cfg, Live(cfg, ps), Mine(cfg, ps, n, i), ScanTime(ps + [p]), w) && w.lastTime == p.time
    requires p.segment.Some? && Shard(p.segment.value.tuple, n) == i
    ensures Handled(cfg, ps, p, n, i, Keep(cfg, w, p.segment.value))
  {
    var live, keys, s := Live(cfg, ps), Mine(cfg, ps, n, i), p.segment.value;
    var w2 := w.(processed := w.processed + 1, l4Bytes := w.l4Bytes + s.l4Len);
    MineIsRecorded(cfg, ps, n, i);
    LocateFiled(cfg, live, keys, w.buckets, s.tuple);
    if Filed(cfg, live, s.tuple) in keys { Renewed(cfg, ps, p, n, i, w2, Filed(cfg, live, s.tuple)); }
    else { UnknownServes(cfg, ps, p, n, i, w2); }
  }

  // One packet up to the counter.
  lemma BeginServes(cfg: Config, ps: seq<Packet>, p: Packet, n: nat, i: nat, w: Worker)
    requires n > 0 && Serves(cfg, ps, n, i, w) && (IsScan(ps, p.time) ==> NoneIdle(Live(cfg, ps), p.time))
    ensures Handled(cfg, ps, p, n, i, Begin(cfg, n, i, w, p))
  {
    ArriveKeeps(cfg, ps, p, n, i, w);
    var w1 := w.(lastTime := p.time, lastScan := ScanTime(ps + [p]));
    if p.segment.None? || Shard(p.segment.value.tuple, n) != i { PassedOver(cfg, ps, p, n, i, w1); }
    else { KeepServes(cfg, ps, p, n, i, w1); }
  }

  lemma StepServes(cfg: Config, ps: seq<Packet>, p: Packet, n: nat, i: nat, w: Worker, id: nat)
    requires n > 0 && Serves(cfg, ps, n, i, w) && (IsScan(ps, p.time) ==> NoneIdle(Live(cfg, ps), p.time))
    ensures Serves(cfg, ps + [p], n, i, Step(cfg, n, i, w, p, id))
  {
    BeginServes(cfg, ps, p, n, i, w);
    var r := Begin(cfg, n, i, w, p);
    if r.NeedId? { Stored(cfg, ps, p, n, i, r.worker, id); }
  }

  lemma FreshServes(cfg: Config, m: nat, n: nat, i: nat)
    requires m > 0 && n > 0
    ensures Serves(cfg, [], n, i, Fresh(m))
  {
    NothingHeldAtFirst(cfg, m, Tuple(0, 0, 0, 0, 0));
  }

  ghost predicate AwakeAt(cfg: Config, ps: seq<Packet>, p: Packet) {
    IsScan(ps, p.time) ==> NoneIdle(Live(cfg, ps), p.time)
  }

  lemma AwakeBefore(cfg: Config, ps: seq<Packet>, j: nat)
    requires Awake(cfg, ps) && j <= |ps|
    ensures Awake(cfg, ps[..j]) && (j < |ps| ==> AwakeAt(cfg, ps[..j], ps[j]))
  {
    assert forall a | 0 <= a < j :: ps[..j][..a] == ps[..a] && ps[..j][a] == ps[a];
  }

  lemma SoloNext(cfg: Config, m: nat, ps: seq<Packet>, p: Packet)
    requires m > 0
    ensures Solo(cfg, m, ps + [p]) == SoloStep(cfg, Solo(cfg, m, ps), p)
  {
    assert (ps + [p])[..|ps|] == ps;
  }

  lemma SoloStepServes(cfg: Config, m: nat, ps: seq<Packet>, p: Packet)
    requires m > 0 && Serves(cfg, ps, 1, 0, Solo(cfg, m, ps)) && AwakeAt(cfg, ps, p)
    ensures Serves(cfg, ps + [p], 1, 0, Solo(cfg, m, ps + [p]))
  {
    var w := Solo(cfg, m, ps);
    StepServes(cfg, ps, p, 1, 0, w, w.totalActive);
    SoloNext(cfg, m, ps, p);
  }

  lemma {:induction false} SoloServes(cfg: Config, m: nat, ps: seq<Packet>)
    requires m > 0 && Awake(cfg, ps)
    ensures Serves(cfg, ps, 1, 0, Solo(cfg, m, ps))
  {
    if ps == [] {
      FreshServes(cfg, m, 1, 0);
    } else {
      var rest, p := ps[..|ps| - 1], ps[|ps| - 1];
      assert ps == rest + [p];
      AwakeBefore(cfg, ps, |ps| - 1);
      SoloServes(cfg, m, rest);
      SoloStepServes(cfg, m, rest, p);
    }
  }

  // ------------------------------------------------------------ any interleaving

  ghost predicate SlotServes(cfg: Config, ps: seq<Packet>, n: nat, i: nat, slot: Slot)
    requires n > 0
  {
    && slot.pos <= |ps|
    && if slot.waiting then slot.pos < |ps| && Pending(cfg, ps[..slot.pos], ps[slot.pos], n, i, slot.worker)
       else Serves(cfg, ps[..slot.pos], n, i, slot.worker)
  }

  // The next state of a thread that is not at the end, as its slot alone determines it.
  function NextSlot(cfg: Config, ps: seq<Packet>, n: nat, i: nat, slot: Slot, counter: nat): (r: Slot)
    requires n > 0 && |slot.worker.buckets| > 0 && slot.pos < |ps| && (slot.waiting ==> ps[slot.pos].segment.Some?)
  {
    if slot.waiting then Slot(slot.pos + 1, Finish(cfg, slot.worker, ps[slot.pos].segment.value, counter), false)
    else
      var r := Begin(cfg, n, i, slot.worker, ps[slot.pos]);
      if r.Done? then Slot(slot.pos + 1, r.worker, false) else Slot(slot.pos, r.worker, true)
  }

  lemma NextServes(cfg: Config, ps: seq<Packet>, n: nat, i: nat, slot: Slot, counter: nat)
    requires n > 0 && slot.pos < |ps| && SlotServes(cfg, ps, n, i, slot) && AwakeAt(cfg, ps[..slot.pos], ps[slot.pos])
    ensures SlotServes(cfg, ps, n, i, NextSlot(cfg, ps, n, i, slot, counter))
  {
    var before, p := ps[..slot.pos], ps[slot.pos];
    assert before + [p] == ps[..slot.pos + 1];
    if slot.waiting { Stored(cfg, before, p, n, i, slot.worker, counter); }
    else { BeginServes(cfg, before, p, n, i, slot.worker); }
  }

  lemma AdvanceIsNext(cfg: Config, m: nat, ps: seq<Packet>, sys: System, i: nat)
    requires m > 0 && Sane(cfg, m, ps, sys) && i < |sys.slots|
    ensures sys.slots[i].pos <= |ps|
    ensures Advance(cfg, ps, sys, i).slots[i] ==
            if sys.slots[i].pos == |ps| then sys.slots[i] else NextSlot(cfg, ps, |sys.slots|, i, sys.slots[i], sys.counter)
  {
    assert SaneSlot(cfg, m, ps, |sys.slots|, i, sys.slots[i]);
  }

  lemma AdvanceServes(cfg: Config, m: nat, ps: seq<Packet>, sys: System, i: nat)
    requires m > 0 && Awake(cfg, ps) && Sane(cfg, m, ps, sys) && i < |sys.slots| && SlotServes(cfg, ps, |sys.slots|, i, sys.slots[i])
    ensures SlotServes(cfg, ps, |sys.slots|, i, Advance(cfg, ps, sys, i).slots[i])
  {
    AdvanceIsNext(cfg, m, ps, sys, i);
    if sys.slots[i].pos < |ps| {
      AwakeBefore(cfg, ps, sys.slots[i].pos);
      NextServes(cfg, ps, |sys.slots|, i, sys.slots[i], sys.counter);
    }
  }

  // In every interleaving of a stream in which no flow is idle at a scan, a thread between
  // packets holds the first conversations of its own, up to the limit, each with its record.
  lemma {:induction false} ThreadServes(cfg: Config, m: nat, ps: seq<Packet>, n: nat, schedule: seq<nat>, i: nat)
    requires m > 0 && n > 0 && IsSchedule(schedule, n) && Awake(cfg, ps) && i < n
    ensures SlotServes(cfg, ps, n, i, Execute(cfg, m, ps, n, schedule).slots[i])
  {
    if schedule == [] {
      FreshServes(cfg, m, n, i);
      assert ps[..0] == [];
    } else {
      var rest, j := schedule[..|schedule| - 1], schedule[|schedule| - 1];
      ThreadServes(cfg, m, ps, n, rest, i);
      var sys := Execute(cfg, m, ps, n, rest);
      if j == i { AdvanceServes(cfg, m, ps, sys, i); }
      else { assert Advance(cfg, ps, sys, j).slots[i] == sys.slots[i]; }
    }
  }

  // Once a thread has read everything it serves the whole stream.
  lemma FinishedServes(cfg: Config, m: nat, ps: seq<Packet>, n: nat, schedule: seq<nat>, i: nat)
    requires m > 0 && n > 0 && IsSchedule(schedule, n) && Awake(cfg, ps) && i < n
    requires Execute(cfg, m, ps, n, schedule).slots[i].pos == |ps|
    ensures var w := Execute(cfg, m, ps, n, schedule).slots[i].worker;
            |w.buckets| == m && Serves(cfg, ps, n, i, w)
  {
    ThreadServes(cfg, m, ps, n, schedule, i);
    assert SaneSlot(cfg, m, ps, n, i, Execute(cfg, m, ps, n, schedule).slots[i]);
    assert ps[..|ps|] == ps;
  }

  // ---------------------------------------------------------------- the flow limit

  ghost predicate OneShard(ks: seq<FlowKey>, n: nat)
    requires n > 0
  {
    forall a, b | 0 <= a < |ks| && 0 <= b < |ks| :: Shard(ks[a].tuple, n) == Shard(ks[b].tuple, n)
  }

  lemma {:induction false} GotGrows(ks: seq<FlowKey>, a: nat, n: nat, i: nat, max: nat)
    requires n > 0 && a <= |ks|
    ensures Got(ks[..a], n, i, max) <= Got(ks, n, i, max)
    decreases |ks| - a
  {
    if a == |ks| {
      assert ks[..a] == ks;
    } else {
      assert ks[..a + 1][..a] == ks[..a];
      GotGrows(ks, a + 1, n, i, max);
    }
  }

  // With room for all, a thread gets every conversation of its own.
  lemma {:induction false} RoomForAll(ks: seq<FlowKey>, n: nat, i: nat, max: nat)
    requires n > 0 && |ks| <= max
    ensures forall k :: k in Got(ks, n, i, max) <==> k in ks && Shard(k.tuple, n) == i
  {
    if ks != [] {
      RoomForAll(ks[..|ks| - 1], n, i, max);
      assert ks == ks[..|ks| - 1] + [ks[|ks| - 1]];
    }
  }

  // A thread that owns every conversation gets what the single worker gets.
  lemma {:induction false} OneShardIsSolo(ks: seq<FlowKey>, n: nat, i: nat, max: nat)
    requires n > 0 && forall k | k in ks :: Shard(k.tuple, n) == i
    ensures Got(ks, n, i, max) == Got(ks, 1, 0, max)
  {
    if ks != [] {
      assert ks == ks[..|ks| - 1] + [ks[|ks| - 1]];
      OneShardIsSolo(ks[..|ks| - 1], n, i, max);
    }
  }

  lemma {:induction false} SetOfDistinct<T(!new)>(ks: seq<T>)
    requires Distinct(ks)
    ensures |set k | k in ks| == |ks|
  {
    if ks != [] {
      var rest, k := ks[..|ks| - 1], ks[|ks| - 1];
      SetOfDistinct(rest);
      assert ks == rest + [k];
      assert (set l | l in ks) == (set l | l in rest) + {k};
    }
  }

  // A thread that is full stays as it is.
  lemma {:induction false} FullStays(ks: seq<FlowKey>, a: nat, n: nat, i: nat, max: nat)
    requires n > 0 && a <= |ks| && |Got(ks[..a], n, i, max)| == max
    ensures Got(ks, n, i, max) == Got(ks[..a], n, i, max)
  {
    if a == |ks| {
      assert ks[..a] == ks;
    } else {
      assert ks[..|ks| - 1][..a] == ks[..a];
      FullStays(ks[..|ks| - 1], a, n, i, max);
    }
  }

  // The single worker gets the first max conversations and no other.
  lemma SoloGetsFirst(ks: seq<FlowKey>, max: nat)
    requires Distinct(ks) && max <= |ks|
    ensures forall k :: k in Got(ks, 1, 0, max) <==> k in ks[..max]
  {
    RoomForAll(ks[..max], 1, 0, max);
    SetOfDistinct(ks[..max]);
    assert Got(ks[..max], 1, 0, max) == set k | k in ks[..max];
    FullStays(ks, max, 1, 0, max);
  }

  // A thread that has not filled up before position a stores the conversation at a; behind
  // the first max conversations, the single worker does not.
  lemma Parts(ks: seq<FlowKey>, n: nat, a: nat, max: nat)
    requires n > 0 && Distinct(ks) && max <= a < |ks| && |Got(ks[..a], n, Shard(ks[a].tuple, n), max)| < max
    ensures ks[a] in Got(ks, n, Shard(ks[a].tuple, n), max) && ks[a] !in Got(ks, 1, 0, max)
  {
    var i := Shard(ks[a].tuple, n);
    assert ks[..a] + [ks[a]] == ks[..a + 1];
    GotAppends(ks[..a], ks[a], n, i, max, true);
    GotGrows(ks, a + 1, n, i, max);
    SoloGetsFirst(ks, max);
    assert forall b | 0 <= b < max :: ks[..max][b] == ks[b];
  }

  lemma {:induction false} FirstElsewhere(ks: seq<FlowKey>, n: nat, i: nat, a: nat) returns (b: nat)
    requires n > 0 && a < |ks| && Shard(ks[a].tuple, n) != i
    ensures b <= a && Shard(ks[b].tuple, n) != i && forall k | k in ks[..b] :: Shard(k.tuple, n) == i
  {
    if c :| 0 <= c < a && Shard(ks[c].tuple, n) != i { b := FirstElsewhere(ks, n, i, c); } else { b := a; }
  }

  // Beyond the limit and over more than one shard, some thread stores what the single worker refuses.
  lemma SomeConversationParts(ks: seq<FlowKey>, n: nat, max: nat) returns (k: FlowKey)
    requires n > 0 && Distinct(ks) && 1 <= max < |ks| && !OneShard(ks, n)
    ensures k in Got(ks, n, Shard(k.tuple, n), max) && k !in Got(ks, 1, 0, max)
  {
    var i := Shard(ks[max].tuple, n);
    if |Got(ks[..max], n, i, max)| < max {
      Parts(ks, n, max, max);
      k := ks[max];
    } else {
      AllMine(ks[..max], n, i, max);
      var c :| 0 <= c < |ks| && Shard(ks[c].tuple, n) != i;
      var b := FirstElsewhere(ks, n, i, c);
      assert forall a | 0 <= a < max :: ks[..max][a] == ks[a];
      assert max <= b;
      NoneOf(ks[..b], n, Shard(ks[b].tuple, n), max);
      Parts(ks, n, b, max);
      k := ks[b];
    }
  }

  lemma AllMine(ks: seq<FlowKey>, n: nat, i: nat, max: nat)
    requires n > 0 && Distinct(ks) && |Got(ks, n, i, max)| == |ks|
    ensures forall k | k in ks :: Shard(k.tuple, n) == i
  {
    var g, all := Got(ks, n, i, max), set k | k in ks;
    SetOfDistinct(ks);
    forall k | k in ks ensures Shard(k.tuple, n) == i {
      if k !in g { SubsetCardinality(g, all - {k}); }
    }
  }

  lemma NoneOf(ks: seq<FlowKey>, n: nat, i: nat, max: nat)
    requires n > 0 && forall k | k in ks :: Shard(k.tuple, n) != i
    ensures Got(ks, n, i, max) == {}
  {
    var g := Got(ks, n, i, max);
    assert forall k | k in g :: false;
  }

  lemma SameConversationsIff(ks: seq<FlowKey>, n: nat, max: nat)
    requires n > 0 && Distinct(ks) && max >= 1
    ensures (forall k: FlowKey :: k in Got(ks, n, Shard(k.tuple, n), max) <==> k in Got(ks, 1, 0, max))
            <==> (|ks| <= max || OneShard(ks, n))
  {
    if |ks| <= max {
      RoomForAll(ks, 1, 0, max);
      forall k: FlowKey ensures k in Got(ks, n, Shard(k.tuple, n), max) <==> k in Got(ks, 1, 0, max) {
        RoomForAll(ks, n, Shard(k.tuple, n), max);
      }
    } else if OneShard(ks, n) {
      OneShardIsSolo(ks, n, Shard(ks[0].tuple, n), max);
    } else {
      var k := SomeConversationParts(ks, n, max);
    }
  }

  // ---------------------------------------------------------------- the union of the tables

  // Bucket b of the threads together is bucket b of the single worker, record by record up to
  // flow numbers.
  ghost predicate SameBucket(sys: System, n: nat, solo: Worker, b: nat)
    requires n > 0 && b < |solo.buckets|
  {
    forall k :: SameKey(sys, n, solo, b, k)
  }

  ghost predicate SameKey(sys: System, n: nat, solo: Worker, b: nat, k: FlowKey)
    requires n > 0 && b < |solo.buckets|
  {
    && (Owns(sys, Shard(k.tuple, n), b, k) <==> k in Contents(solo.buckets[b]))
    && (Owns(sys, Shard(k.tuple, n), b, k) && k in Contents(solo.buckets[b]) ==>
          SameFlow(Contents(sys.slots[Shard(k.tuple, n)].worker.buckets[b])[k], Contents(solo.buckets[b])[k]))
  }

  ghost predicate UnionIsSolo(sys: System, n: nat, solo: Worker)
    requires n > 0
  {
    forall b: nat | b < |solo.buckets| :: SameBucket(sys, n, solo, b)
  }

  ghost predicate AllServe(cfg: Config, m: nat, ps: seq<Packet>, n: nat, sys: System)
    requires n > 0
  {
    && |sys.slots| == n
    && forall i: nat | i < n :: |sys.slots[i].worker.buckets| == m && Serves(cfg, ps, n, i, sys.slots[i].worker)
  }

  lemma OwnsIff(cfg: Config, m: nat, ps: seq<Packet>, n: nat, sys: System, solo: Worker, b: nat, k: FlowKey)
    requires n > 0 && b < m && AllServe(cfg, m, ps, n, sys) && |solo.buckets| == m && Serves(cfg, ps, 1, 0, solo)
    ensures Owns(sys, Shard(k.tuple, n), b, k) <==> b == k.hashval % m && k in Mine(cfg, ps, n, Shard(k.tuple, n))
    ensures k in Contents(solo.buckets[b]) <==> b == k.hashval % m && k in Mine(cfg, ps, 1, 0)
    ensures Owns(sys, Shard(k.tuple, n), b, k) && k in Contents(solo.buckets[b]) ==>
              SameFlow(Contents(sys.slots[Shard(k.tuple, n)].worker.buckets[b])[k], Contents(solo.buckets[b])[k])
  {
    var w := sys.slots[Shard(k.tuple, n)].worker;
    assert Serves(cfg, ps, n, Shard(k.tuple, n), w);
  }

  // The tables agree exactly when the threads and the single worker find room for the same conversations.
  lemma UnionIsGot(cfg: Config, m: nat, ps: seq<Packet>, n: nat, sys: System, solo: Worker)
    requires m > 0 && n > 0 && AllServe(cfg, m, ps, n, sys) && |solo.buckets| == m && Serves(cfg, ps, 1, 0, solo)
    ensures UnionIsSolo(sys, n, solo) <==>
            forall k: FlowKey :: k in Mine(cfg, ps, n, Shard(k.tuple, n)) <==> k in Mine(cfg, ps, 1, 0)
  {
    if UnionIsSolo(sys, n, solo) {
      forall k: FlowKey ensures k in Mine(cfg, ps, n, Shard(k.tuple, n)) <==> k in Mine(cfg, ps, 1, 0) {
        OwnsIff(cfg, m, ps, n, sys, solo, k.hashval % m, k);
        assert SameBucket(sys, n, solo, k.hashval % m) && SameKey(sys, n, solo, k.hashval % m, k);
      }
    }
    if forall k: FlowKey :: k in Mine(cfg, ps, n, Shard(k.tuple, n)) <==> k in Mine(cfg, ps, 1, 0) {
      forall b: nat | b < m ensures SameBucket(sys, n, solo, b) {
        forall k ensures SameKey(sys, n, solo, b, k) { OwnsIff(cfg, m, ps, n, sys, solo, b, k); }
      }
    }
  }

  lemma SystemServes(cfg: Config, m: nat, ps: seq<Packet>, n: nat, schedule: seq<nat>)
    requires m > 0 && n > 0 && IsSchedule(schedule, n) && Awake(cfg, ps)
    requires forall i :: 0 <= i < n ==> Execute(cfg, m, ps, n, schedule).slots[i].pos == |ps|
    ensures AllServe(cfg, m, ps, n, Execute(cfg, m, ps, n, schedule))
  {
    forall i: nat | i < n
      ensures var w := Execute(cfg, m, ps, n, schedule).slots[i].worker; |w.buckets| == m && Serves(cfg, ps, n, i, w)
    {
      FinishedServes(cfg, m, ps, n, schedule, i);
    }
  }

  // For any limit, any number of threads and any complete interleaving of any stream in which no
  // flow is idle at a scan: the union of the tables is the single table exactly when the
  // conversations fit the limit, or all go to one thread.
  lemma UnionWithinLimitIff(cfg: Config, m: nat, ps: seq<Packet>, n: nat, schedule: seq<nat>)
    requires m > 0 && n > 0 && IsSchedule(schedule, n) && Awake(cfg, ps) && cfg.maxFlows >= 1
    requires forall i :: 0 <= i < n ==> Execute(cfg, m, ps, n, schedule).slots[i].pos == |ps|
    ensures UnionIsSolo(Execute(cfg, m, ps, n, schedule), n, Solo(cfg, m, ps))
            <==> (|News(cfg, ps)| <= cfg.maxFlows || OneShard(News(cfg, ps), n))
  {
    SystemServes(cfg, m, ps, n, schedule);
    SoloServes(cfg, m, ps);
    NewsAreRecorded(cfg, ps);
    UnionIsGot(cfg, m, ps, n, Execute(cfg, m, ps, n, schedule), Solo(cfg, m, ps));
    SameConversationsIff(News(cfg, ps), n, cfg.maxFlows);
  }
}
