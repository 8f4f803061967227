/** The other place where the threads stop refining a single worker: at a scan each of them
    has its own queue of idle flows. */
module ShardingQueue {
  import opened SearchTree
  import opened Tracker
  import opened TrackerTable
  import opened Sharding
  import opened ShardingLog
  import opened ShardingLimit

  // ------------------------------------------------------------ one bucket, one scan

  // What a queue of 64 leaves of c idle flows.
  function Over(c: nat): (r: nat) { if c <= MAX_IDLE_FLOWS_PER_THREAD then 0 else c - MAX_IDLE_FLOWS_PER_THREAD }

  ghost function IdleKeys(m: Records, now: nat): (ks: set<FlowKey>) { set k | k in m && IsIdle(m[k], now) }

  lemma IdleNodesCount(b: Bucket, now: nat)
    requires Sorted(b, Rank)
    ensures Keys(IdleNodes(b, IdleAt(now))) == IdleKeys(Contents(b), now)
    ensures |IdleNodes(b, IdleAt(now))| == |IdleKeys(Contents(b), now)|
  {
    var idle := IdleNodes(b, IdleAt(now));
    IdleNodesAreDistinct(b, IdleAt(now), Rank);
    IdleNodesAreIdle(b, IdleAt(now), Rank);
    DistinctCardinality(idle);
    forall k | k in IdleKeys(Contents(b), now) ensures k in Keys(idle) {
      assert (k, Contents(b)[k]) in idle;
    }
    assert Keys(idle) == IdleKeys(Contents(b), now);
  }

  lemma QueueCount(b: Bucket, now: nat)
    requires Sorted(b, Rank)
    ensures |Keys(IdleQueue(b, now))| + Over(|IdleKeys(Contents(b), now)|) == |IdleKeys(Contents(b), now)|
    ensures Keys(IdleQueue(b, now)) <= IdleKeys(Contents(b), now)
  {
    var idle := IdleNodes(b, IdleAt(now));
    IdleNodesCount(b, now);
    WalkTakesBudget(b, IdleAt(now), MAX_IDLE_FLOWS_PER_THREAD, []);
    assert [] + idle == idle;
    IdleNodesAreDistinct(b, IdleAt(now), Rank);
    KeysOfTake(idle, MAX_IDLE_FLOWS_PER_THREAD);
  }

  lemma KeysOfTake<K(!new), V(!new)>(s: seq<(K, V)>, n: nat)
    requires DistinctKeys(s)
    ensures Keys(Take(s, n)) <= Keys(s) && |Keys(Take(s, n))| == if |s| <= n then |s| else n
  {
    DistinctCardinality(Take(s, n));
  }

  // A scan of one bucket takes idle flows only, all of them if they fit the queue and 64 otherwise.
  lemma ReapLeaves(b: Bucket, now: nat)
    requires Sorted(b, Rank)
    ensures var left, idle := Contents(DeleteAll(b, IdleQueue(b, now), NodeCmp)), IdleKeys(Contents(b), now);
            && left.Keys <= Contents(b).Keys && (forall k | k in left :: left[k] == Contents(b)[k])
            && (forall k | k in Contents(b) && k !in idle :: k in left)
            && |left.Keys| + |idle| == |Contents(b).Keys| + Over(|idle|)
            && (|idle| <= MAX_IDLE_FLOWS_PER_THREAD ==> left.Keys == Contents(b).Keys - idle)
  {
    NodeCmpIsOrder();
    ReapRemovesIdle(b, IdleAt(now), MAX_IDLE_FLOWS_PER_THREAD, NodeCmp, Rank);
    QueueCount(b, now);
    Remains(Contents(b), Keys(IdleQueue(b, now)), IdleKeys(Contents(b), now), Over(|IdleKeys(Contents(b), now)|));
  }

  lemma Remains<K, V>(m: map<K, V>, q: set<K>, idle: set<K>, over: nat)
    requires q <= idle <= m.Keys && |q| + over == |idle|
    ensures var left := m - q;
            && left.Keys <= m.Keys && (forall k | k in left :: left[k] == m[k]) && (forall k | k in m && k !in idle :: k in left)
            && |left.Keys| + |idle| == |m.Keys| + over && (over == 0 ==> left.Keys == m.Keys - idle)
  {
    assert (m - q).Keys == m.Keys - q;
    Split(q, m.Keys);
    if over == 0 { SameSize(q, idle); }
  }

  lemma Split<T>(a: set<T>, b: set<T>)
    requires a <= b
    ensures |b - a| + |a| == |b|
  {
    assert b == a + (b - a);
  }

  lemma SameSize<T>(a: set<T>, b: set<T>)
    requires a <= b && |a| == |b|
    ensures a == b
  {
    Split(a, b);
  }

  // ------------------------------------------------------------ shares of a set

  // The part of a set that belongs to share i, and to the shares before j.
  ghost function Share<T(!new)>(s: set<T>, part: T -> nat, i: nat): (r: set<T>) { set x | x in s && part(x) == i }

  ghost function Below<T(!new)>(s: set<T>, part: T -> nat, j: nat): (r: set<T>) { set x | x in s && part(x) < j }

  ghost function ShareSum<T(!new)>(s: set<T>, part: T -> nat, j: nat): (n: nat) {
    if j == 0 then 0 else ShareSum(s, part, j - 1) + |Share(s, part, j - 1)|
  }

  ghost function OverSum<T(!new)>(s: set<T>, part: T -> nat, j: nat): (n: nat) {
    if j == 0 then 0 else OverSum(s, part, j - 1) + Over(|Share(s, part, j - 1)|)
  }

  ghost predicate Single<T(!new)>(s: set<T>, part: T -> nat) {
    forall x, y | x in s && y in s :: part(x) == part(y)
  }

  lemma BelowGrows<T(!new)>(s: set<T>, part: T -> nat, j: nat)
    ensures |Below(s, part, j + 1)| == |Below(s, part, j)| + |Share(s, part, j)|
    ensures Below(s, part, j + 1) == Below(s, part, j) + Share(s, part, j)
  {
    assert Below(s, part, j + 1) == Below(s, part, j) + Share(s, part, j);
    assert Below(s, part, j) !! Share(s, part, j);
  }

  lemma {:induction false} SharesAddUp<T(!new)>(s: set<T>, part: T -> nat, j: nat)
    ensures ShareSum(s, part, j) == |Below(s, part, j)|
  {
    if j == 0 {
      assert Below(s, part, 0) == {};
    } else {
      SharesAddUp(s, part, j - 1);
      BelowGrows(s, part, j - 1);
    }
  }

  lemma SingleGrows<T(!new)>(s: set<T>, part: T -> nat, j: nat)
    ensures Single(Below(s, part, j + 1), part) <==>
            (|Below(s, part, j)| == 0 || (|Share(s, part, j)| == 0 && Single(Below(s, part, j), part)))
  {
    var a, c := Below(s, part, j), Share(s, part, j);
    BelowGrows(s, part, j);
    if a != {} && c != {} {
      var x, y :| x in a && y in c;
      assert x in a + c && y in a + c;
    }
  }

  // How the sums and the one-share test go on from share i to the next.
  ghost predicate AddsOne(c: nat -> nat, below: nat -> nat, over: nat -> nat, single: nat -> bool, i: nat) {
    && below(i + 1) == below(i) + c(i) && over(i + 1) == over(i) + Over(c(i))
    && (single(i + 1) <==> below(i) == 0 || (c(i) == 0 && single(i)))
  }

  // Several queues leave together what one queue leaves exactly if that is nothing, or if the
  // flows are all in one share.
  lemma OverAddsUpIff<T(!new)>(s: set<T>, part: T -> nat, n: nat)
    requires forall x | x in s :: part(x) < n
    ensures OverSum(s, part, n) == Over(|s|) <==> (|s| <= MAX_IDLE_FLOWS_PER_THREAD || Single(s, part))
  {
    var c, below := (i: nat) => |Share(s, part, i)|, (i: nat) => |Below(s, part, i)|;
    var over, single := (i: nat) => OverSum(s, part, i), (i: nat) => Single(Below(s, part, i), part);
    assert Below(s, part, 0) == {};
    forall i: nat ensures AddsOne(c, below, over, single, i) {
      BelowGrows(s, part, i);
      SingleGrows(s, part, i);
    }
    OverSums(c, below, over, single, n);
    assert Below(s, part, n) == s;
  }

  lemma {:induction false} OverSums(c: nat -> nat, below: nat -> nat, over: nat -> nat, single: nat -> bool, j: nat)
    requires below(0) == 0 && over(0) == 0
    requires forall i: nat :: AddsOne(c, below, over, single, i)
    ensures over(j) <= Over(below(j))
    ensures over(j) == Over(below(j)) <==> below(j) <= MAX_IDLE_FLOWS_PER_THREAD || single(j)
  {
    if j > 0 {
      OverSums(c, below, over, single, j - 1);
      assert AddsOne(c, below, over, single, j - 1);
      OverStep(over(j - 1), below(j - 1), c(j - 1), single(j - 1), single(j));
    }
  }

  lemma OverStep(s: nat, a: nat, c: nat, one: bool, next: bool)
    requires s <= Over(a) && (s == Over(a) <==> a <= MAX_IDLE_FLOWS_PER_THREAD || one)
    requires next <==> a == 0 || (c == 0 && one)
    ensures s + Over(c) <= Over(a + c)
    ensures s + Over(c) == Over(a + c) <==> a + c <= MAX_IDLE_FLOWS_PER_THREAD || next
  {
  }

  // ------------------------------------------------------------ all buckets of a worker

  // The records of bucket b of m.
  ghost function InBucket(live: Records, m: nat, b: nat): (r: Records)
    requires m > 0
  {
    map k | k in live && k.hashval % m == b :: live[k]
  }

  ghost function ByShard(n: nat): (part: FlowKey -> nat)
    requires n > 0
  {
    (k: FlowKey) => Shard(k.tuple, n)
  }

  // With room for all, bucket b of a thread holds its share of the bucket's records.
  lemma BucketIsShare(cfg: Config, m: nat, ps: seq<Packet>, n: nat, i: nat, w: Worker, b: nat)
    requires n > 0 && b < m == |w.buckets| && Serves(cfg, ps, n, i, w) && |News(cfg, ps)| <= cfg.maxFlows
    ensures Sorted(w.buckets[b], Rank)
    ensures Contents(w.buckets[b]).Keys == Share(InBucket(Live(cfg, ps), m, b).Keys, ByShard(n), i)
    ensures forall k | k in Contents(w.buckets[b]) :: k in Live(cfg, ps) && SameFlow(Contents(w.buckets[b])[k], Live(cfg, ps)[k])
  {
    NewsAreRecorded(cfg, ps);
    RoomForAll(News(cfg, ps), n, i, cfg.maxFlows);
    assert PlacedIn(cfg, w.buckets[b], b, m);
  }

  lemma IdleIsShare(cfg: Config, m: nat, ps: seq<Packet>, n: nat, i: nat, w: Worker, now: nat, b: nat)
    requires n > 0 && b < m == |w.buckets| && Serves(cfg, ps, n, i, w) && |News(cfg, ps)| <= cfg.maxFlows
    ensures IdleKeys(Contents(w.buckets[b]), now) == Share(IdleKeys(InBucket(Live(cfg, ps), m, b), now), ByShard(n), i)
  {
    BucketIsShare(cfg, m, ps, n, i, w, b);
  }

  // What a scan leaves of share i of the records of a bucket.
  ghost predicate Leaves(here: Records, idle: set<FlowKey>, part: FlowKey -> nat, i: nat, left: Records) {
    var mine, gone := Share(here.Keys, part, i), Share(idle, part, i);
    && left.Keys <= mine && |left.Keys| + |gone| == |mine| + Over(|gone|)
    && (|gone| <= MAX_IDLE_FLOWS_PER_THREAD ==> left.Keys == mine - gone)
    && (forall k | k in left :: k in here && SameFlow(left[k], here[k]))
  }

  lemma ScanLeaves(cfg: Config, m: nat, ps: seq<Packet>, n: nat, i: nat, w: Worker, now: nat, b: nat)
    requires n > 0 && b < m == |w.buckets| && Serves(cfg, ps, n, i, w) && |News(cfg, ps)| <= cfg.maxFlows && IsScan(ps, now)
    ensures var here := InBucket(Live(cfg, ps), m, b);
            Leaves(here, IdleKeys(here, now), ByShard(n), i, Contents(Arrive(w, Packet(now, None)).buckets[b]))
  {
    BucketIsShare(cfg, m, ps, n, i, w, b);
    IdleIsShare(cfg, m, ps, n, i, w, now, b);
    ReapLeaves(w.buckets[b], now);
    ReapAllAt(w.buckets, now, b);
  }

  // ------------------------------------------------------------ the whole system

  // A stream in which no flow is idle at a scan, and one more packet, without a flow, that makes
  // every thread scan.
  function Quieted(ps: seq<Packet>, now: nat): (qs: seq<Packet>)
    ensures |qs| == |ps| + 1 && qs[..|ps|] == ps && qs[|ps|] == Packet(now, None)
  {
    ps + [Packet(now, None)]
  }

  ghost predicate Scanned(cfg: Config, ps: seq<Packet>, n: nat, i: nat, now: nat, w: Worker)
    requires n > 0
  {
    exists v :: Serves(cfg, ps, n, i, v) && w == Arrive(v, Packet(now, None))
  }

  ghost predicate SlotScans(cfg: Config, ps: seq<Packet>, n: nat, i: nat, now: nat, slot: Slot)
    requires n > 0
  {
    if slot.pos <= |ps| then SlotServes(cfg, Quieted(ps, now), n, i, slot)
    else slot.pos == |ps| + 1 && !slot.waiting && Scanned(cfg, ps, n, i, now, slot.worker)
  }

  lemma PrefixOfQuieted(cfg: Config, ps: seq<Packet>, now: nat, j: nat)
    requires Awake(cfg, ps) && j < |ps|
    ensures Quieted(ps, now)[..j] == ps[..j] && Quieted(ps, now)[j] == ps[j] && AwakeAt(cfg, ps[..j], ps[j])
  {
    assert Quieted(ps, now)[..|ps|][..j] == Quieted(ps, now)[..j];
    assert Quieted(ps, now)[..|ps|][j] == Quieted(ps, now)[j];
    AwakeBefore(cfg, ps, j);
  }

  lemma LastScans(cfg: Config, ps: seq<Packet>, n: nat, i: nat, now: nat, slot: Slot, counter: nat)
    requires n > 0 && slot.pos == |ps| && SlotServes(cfg, Quieted(ps, now), n, i, slot)
    ensures !slot.waiting && |slot.worker.buckets| > 0
    ensures SlotScans(cfg, ps, n, i, now, NextSlot(cfg, Quieted(ps, now), n, i, slot, counter))
  {
    assert Serves(cfg, ps, n, i, slot.worker);
    assert Begin(cfg, n, i, slot.worker, Packet(now, None)) == Done(Arrive(slot.worker, Packet(now, None)));
  }

  lemma AdvanceScans(cfg: Config, m: nat, ps: seq<Packet>, now: nat, sys: System, i: nat)
    requires m > 0 && Awake(cfg, ps) && Sane(cfg, m, Quieted(ps, now), sys) && i < |sys.slots|
    requires SlotScans(cfg, ps, |sys.slots|, i, now, sys.slots[i])
    ensures SlotScans(cfg, ps, |sys.slots|, i, now, Advance(cfg, Quieted(ps, now), sys, i).slots[i])
  {
    var slot := sys.slots[i];
    AdvanceIsNext(cfg, m, Quieted(ps, now), sys, i);
    if slot.pos < |ps| {
      PrefixOfQuieted(cfg, ps, now, slot.pos);
      NextServes(cfg, Quieted(ps, now), |sys.slots|, i, slot, sys.counter);
    } else if slot.pos == |ps| {
      LastScans(cfg, ps, |sys.slots|, i, now, slot, sys.counter);
    }
  }

  lemma {:induction false} ThreadScans(cfg: Config, m: nat, ps: seq<Packet>, now: nat, n: nat, schedule: seq<nat>, i: nat)
    requires m > 0 && n > 0 && IsSchedule(schedule, n) && Awake(cfg, ps) && i < n
    ensures SlotScans(cfg, ps, n, i, now, Execute(cfg, m, Quieted(ps, now), n, schedule).slots[i])
  {
    if schedule == [] {
      FreshServes(cfg, m, n, i);
      assert Quieted(ps, now)[..0] == [];
    } else {
      var rest, j := schedule[..|schedule| - 1], schedule[|schedule| - 1];
      ThreadScans(cfg, m, ps, now, n, rest, i);
      var sys := Execute(cfg, m, Quieted(ps, now), n, rest);
      if j == i { AdvanceScans(cfg, m, ps, now, sys, i); }
      else { assert Advance(cfg, Quieted(ps, now), sys, j).slots[i] == sys.slots[i]; }
    }
  }

  lemma SoloScans(cfg: Config, m: nat, ps: seq<Packet>, now: nat)
    requires m > 0 && Awake(cfg, ps)
    ensures Scanned(cfg, ps, 1, 0, now, Solo(cfg, m, Quieted(ps, now)))
  {
    SoloServes(cfg, m, ps);
    SoloNext(cfg, m, ps, Packet(now, None));
  }

  // ------------------------------------------------------------ the union after the scan

  // Bucket b of each thread.
  ghost function Lefts(sys: System, b: nat): (lefts: seq<Records>)
    requires forall i: nat | i < |sys.slots| :: b < |sys.slots[i].worker.buckets|
  {
    seq(|sys.slots|, i requires 0 <= i < |sys.slots| => Contents(sys.slots[i].worker.buckets[b]))
  }

  ghost function Held(lefts: seq<Records>, j: nat): (s: nat)
    requires j <= |lefts|
  {
    if j == 0 then 0 else Held(lefts, j - 1) + |lefts[j - 1].Keys|
  }

  ghost predicate AllLeave(here: Records, idle: set<FlowKey>, part: FlowKey -> nat, lefts: seq<Records>) {
    forall i: nat | i < |lefts| :: Leaves(here, idle, part, i, lefts[i])
  }

  lemma {:induction false} HeldAddsUp(here: Records, idle: set<FlowKey>, part: FlowKey -> nat, lefts: seq<Records>, j: nat)
    requires AllLeave(here, idle, part, lefts) && j <= |lefts|
    ensures Held(lefts, j) + ShareSum(idle, part, j) == ShareSum(here.Keys, part, j) + OverSum(idle, part, j)
  {
    if j > 0 {
      HeldAddsUp(here, idle, part, lefts, j - 1);
      assert Leaves(here, idle, part, j - 1, lefts[j - 1]);
    }
  }

  // Together the threads hold what is not idle and what their queues leave over.
  lemma HeldTogether(here: Records, idle: set<FlowKey>, part: FlowKey -> nat, lefts: seq<Records>)
    requires AllLeave(here, idle, part, lefts) && idle <= here.Keys && forall k | k in here :: part(k) < |lefts|
    ensures Held(lefts, |lefts|) + |idle| == |here.Keys| + OverSum(idle, part, |lefts|)
  {
    HeldAddsUp(here, idle, part, lefts, |lefts|);
    SharesAddUp(idle, part, |lefts|);
    SharesAddUp(here.Keys, part, |lefts|);
    assert Below(idle, part, |lefts|) == idle && Below(here.Keys, part, |lefts|) == here.Keys;
  }

  lemma LeftAlone(here: Records, idle: set<FlowKey>, left: Records)
    requires Leaves(here, idle, ByShard(1), 0, left) && idle <= here.Keys
    ensures left.Keys <= here.Keys && |left.Keys| + |idle| == |here.Keys| + Over(|idle|)
    ensures |idle| <= MAX_IDLE_FLOWS_PER_THREAD ==> left.Keys == here.Keys - idle
    ensures forall k | k in left :: SameFlow(left[k], here[k])
  {
    assert Share(here.Keys, ByShard(1), 0) == here.Keys && Share(idle, ByShard(1), 0) == idle;
  }

  // The same number of flows is left exactly when one queue holds all idle flows, or they are all of one shard.
  lemma SameNumberIff(here: Records, idle: set<FlowKey>, n: nat, lefts: seq<Records>, left: Records)
    requires n == |lefts| > 0 && AllLeave(here, idle, ByShard(n), lefts) && Leaves(here, idle, ByShard(1), 0, left) && idle <= here.Keys
    ensures Held(lefts, n) == |left.Keys| <==> (|idle| <= MAX_IDLE_FLOWS_PER_THREAD || Single(idle, ByShard(n)))
  {
    HeldTogether(here, idle, ByShard(n), lefts);
    LeftAlone(here, idle, left);
    OverAddsUpIff(idle, ByShard(n), n);
  }

  // The threads together are the single worker, on one bucket.
  ghost predicate SameLeft(lefts: seq<Records>, part: FlowKey -> nat, left: Records) {
    forall k :: SameLeftAt(lefts, part, left, k)
  }

  ghost predicate SameLeftAt(lefts: seq<Records>, part: FlowKey -> nat, left: Records, k: FlowKey) {
    (part(k) < |lefts| && k in lefts[part(k)]) <==> k in left
  }

  lemma KeysAreShare(lefts: seq<Records>, part: FlowKey -> nat, left: Records, i: nat)
    requires SameLeft(lefts, part, left) && i < |lefts| && forall k | k in lefts[i] :: part(k) == i
    ensures lefts[i].Keys == Share(left.Keys, part, i)
  {
    forall k | k in lefts[i].Keys ensures k in Share(left.Keys, part, i) { assert SameLeftAt(lefts, part, left, k); }
    forall k | k in Share(left.Keys, part, i) ensures k in lefts[i].Keys { assert SameLeftAt(lefts, part, left, k); }
  }

  lemma {:induction false} HeldIsShares(lefts: seq<Records>, part: FlowKey -> nat, left: Records, j: nat)
    requires SameLeft(lefts, part, left) && j <= |lefts|
    requires forall i: nat, k | i < |lefts| && k in lefts[i] :: part(k) == i
    ensures Held(lefts, j) == ShareSum(left.Keys, part, j)
  {
    if j > 0 {
      HeldIsShares(lefts, part, left, j - 1);
      KeysAreShare(lefts, part, left, j - 1);
    }
  }

  lemma SameLeftSameNumber(lefts: seq<Records>, part: FlowKey -> nat, left: Records)
    requires SameLeft(lefts, part, left) && forall i: nat, k | i < |lefts| && k in lefts[i] :: part(k) == i
    ensures Held(lefts, |lefts|) == |left.Keys|
  {
    HeldIsShares(lefts, part, left, |lefts|);
    SharesAddUp(left.Keys, part, |lefts|);
    forall k | k in left ensures k in Below(left.Keys, part, |lefts|) { assert SameLeftAt(lefts, part, left, k); }
    assert Below(left.Keys, part, |lefts|) == left.Keys;
  }

  lemma FittingIsSame(here: Records, idle: set<FlowKey>, n: nat, lefts: seq<Records>, left: Records)
    requires n == |lefts| > 0 && AllLeave(here, idle, ByShard(n), lefts) && Leaves(here, idle, ByShard(1), 0, left) && idle <= here.Keys
    requires |idle| <= MAX_IDLE_FLOWS_PER_THREAD
    ensures SameLeft(lefts, ByShard(n), left)
  {
    LeftAlone(here, idle, left);
    forall k ensures SameLeftAt(lefts, ByShard(n), left, k) {
      var i := ByShard(n)(k);
      assert Leaves(here, idle, ByShard(n), i, lefts[i]);
      SubsetCardinality(Share(idle, ByShard(n), i), idle);
    }
  }

  lemma SystemScans(cfg: Config, m: nat, ps: seq<Packet>, now: nat, n: nat, schedule: seq<nat>, b: nat)
    requires m > 0 && n > 0 && IsSchedule(schedule, n) && Awake(cfg, ps) && |News(cfg, ps)| <= cfg.maxFlows && IsScan(ps, now) && b < m
    requires forall i :: 0 <= i < n ==> Execute(cfg, m, Quieted(ps, now), n, schedule).slots[i].pos == |ps| + 1
    ensures var sys, here := Execute(cfg, m, Quieted(ps, now), n, schedule), InBucket(Live(cfg, ps), m, b);
            && (forall i: nat | i < n :: |sys.slots[i].worker.buckets| == m)
            && AllLeave(here, IdleKeys(here, now), ByShard(n), Lefts(sys, b))
  {
    var sys, here := Execute(cfg, m, Quieted(ps, now), n, schedule), InBucket(Live(cfg, ps), m, b);
    forall i: nat | i < n
      ensures |sys.slots[i].worker.buckets| == m
      ensures Leaves(here, IdleKeys(here, now), ByShard(n), i, Contents(sys.slots[i].worker.buckets[b]))
    {
      assert SaneSlot(cfg, m, Quieted(ps, now), n, i, sys.slots[i]);
      ThreadScans(cfg, m, ps, now, n, schedule, i);
      var w :| Serves(cfg, ps, n, i, w) && sys.slots[i].worker == Arrive(w, Packet(now, None));
      ScanLeaves(cfg, m, ps, n, i, w, now, b);
    }
  }

  lemma SoloLeaves(cfg: Config, m: nat, ps: seq<Packet>, now: nat, b: nat)
    requires m > 0 && Awake(cfg, ps) && |News(cfg, ps)| <= cfg.maxFlows && IsScan(ps, now) && b < m
    ensures var here := InBucket(Live(cfg, ps), m, b);
            Leaves(here, IdleKeys(here, now), ByShard(1), 0, Contents(Solo(cfg, m, Quieted(ps, now)).buckets[b]))
  {
    SoloScans(cfg, m, ps, now);
    var w :| Serves(cfg, ps, 1, 0, w) && Solo(cfg, m, Quieted(ps, now)) == Arrive(w, Packet(now, None));
    ScanLeaves(cfg, m, ps, 1, 0, w, now, b);
  }

  // Agreement on a bucket is agreement on its keys, since records of a key are the same everywhere.
  lemma SameBucketIff(here: Records, idle: set<FlowKey>, sys: System, n: nat, solo: Worker, b: nat)
    requires n == |sys.slots| > 0 && b < |solo.buckets| && forall i: nat | i < n :: b < |sys.slots[i].worker.buckets|
    requires AllLeave(here, idle, ByShard(n), Lefts(sys, b)) && Leaves(here, idle, ByShard(1), 0, Contents(solo.buckets[b]))
    ensures SameBucket(sys, n, solo, b) <==> SameLeft(Lefts(sys, b), ByShard(n), Contents(solo.buckets[b]))
  {
    forall k ensures SameKey(sys, n, solo, b, k) <==> SameLeftAt(Lefts(sys, b), ByShard(n), Contents(solo.buckets[b]), k) {
      SameKeyIff(here, idle, sys, n, solo, b, k);
    }
  }

  lemma SameKeyIff(here: Records, idle: set<FlowKey>, sys: System, n: nat, solo: Worker, b: nat, k: FlowKey)
    requires n == |sys.slots| > 0 && b < |solo.buckets| && forall i: nat | i < n :: b < |sys.slots[i].worker.buckets|
    requires AllLeave(here, idle, ByShard(n), Lefts(sys, b)) && Leaves(here, idle, ByShard(1), 0, Contents(solo.buckets[b]))
    ensures SameKey(sys, n, solo, b, k) <==> SameLeftAt(Lefts(sys, b), ByShard(n), Contents(solo.buckets[b]), k)
  {
    assert Leaves(here, idle, ByShard(n), Shard(k.tuple, n), Lefts(sys, b)[Shard(k.tuple, n)]);
  }

  // For any number of threads and any complete interleaving of a stream in which no flow is idle
  // at a scan and every conversation finds room, followed by one scan that may find idle flows:
  // on each bucket the threads keep as many flows as the single worker exactly when 64 or fewer
  // are idle, or the idle ones are all of one shard. In the first case they keep the same
  // flows; with more than 64 idle over several shards they do not.
  lemma UnionWithinQueueIff(cfg: Config, m: nat, ps: seq<Packet>, n: nat, schedule: seq<nat>, now: nat, b: nat)
    requires m > 0 && n > 0 && IsSchedule(schedule, n) && Awake(cfg, ps) && |News(cfg, ps)| <= cfg.maxFlows && IsScan(ps, now) && b < m
    requires forall i :: 0 <= i < n ==> Execute(cfg, m, Quieted(ps, now), n, schedule).slots[i].pos == |ps| + 1
    ensures forall i: nat | i < n :: |Execute(cfg, m, Quieted(ps, now), n, schedule).slots[i].worker.buckets| == m
    ensures var sys, solo := Execute(cfg, m, Quieted(ps, now), n, schedule), Solo(cfg, m, Quieted(ps, now));
            var idle := IdleKeys(InBucket(Live(cfg, ps), m, b), now);
            && (Held(Lefts(sys, b), n) == |Contents(solo.buckets[b]).Keys|
                <==> |idle| <= MAX_IDLE_FLOWS_PER_THREAD || Single(idle, ByShard(n)))
            && (|idle| <= MAX_IDLE_FLOWS_PER_THREAD ==> SameBucket(sys, n, solo, b))
            && (SameBucket(sys, n, solo, b) ==> |idle| <= MAX_IDLE_FLOWS_PER_THREAD || Single(idle, ByShard(n)))
  {
    var sys, solo := Execute(cfg, m, Quieted(ps, now), n, schedule), Solo(cfg, m, Quieted(ps, now));
    var here := InBucket(Live(cfg, ps), m, b);
    var idle, lefts, left := IdleKeys(here, now), Lefts(sys, b), Contents(solo.buckets[b]);
    SystemScans(cfg, m, ps, now, n, schedule, b);
    SoloLeaves(cfg, m, ps, now, b);
    SameNumberIff(here, idle, n, lefts, left);
    SameBucketIff(here, idle, sys, n, solo, b);
    if |idle| <= MAX_IDLE_FLOWS_PER_THREAD { FittingIsSame(here, idle, n, lefts, left); }
    if SameLeft(lefts, ByShard(n), left) { SameLeftNumber(here, idle, n, lefts, left); }
  }

  lemma SameLeftNumber(here: Records, idle: set<FlowKey>, n: nat, lefts: seq<Records>, left: Records)
    requires n == |lefts| > 0 && AllLeave(here, idle, ByShard(n), lefts) && SameLeft(lefts, ByShard(n), left)
    ensures Held(lefts, n) == |left.Keys|
  {
    forall i: nat, k | i < n && k in lefts[i] ensures ByShard(n)(k) == i {
      assert Leaves(here, idle, ByShard(n), i, lefts[i]);
      assert k in lefts[i].Keys;
    }
    SameLeftSameNumber(lefts, ByShard(n), left);
  }

  // ------------------------------------------------------------ an instance

  // One host talking to sixty-five ports of another.
  function SixtyFive(): (ts: seq<Tuple>) {
    seq(65, j requires 0 <= j < 65 => Tuple(6, 1, 2, 0, j))
  }

  function Plains(ts: seq<Tuple>): (ps: seq<Packet>)
    ensures |ps| == |ts| && forall a | 0 <= a < |ts| :: ps[a] == Plain(ts[a])
  {
    seq(|ts|, a requires 0 <= a < |ts| => Plain(ts[a]))
  }

  // One packet each at time 0 makes one record for each.
  lemma {:induction false} PlainsLive(cfg: Config, ts: seq<Tuple>)
    requires forall a, b | 0 <= a < b < |ts| :: ts[a] != ts[b] && Mirror(ts[a]) != ts[b]
    ensures RecordsOf(cfg, ts, Live(cfg, Plains(ts)))
  {
    if ts != [] {
      var rest, t := ts[..|ts| - 1], ts[|ts| - 1];
      PlainsLive(cfg, rest);
      PlainLive(cfg, rest, Live(cfg, Plains(rest)), t);
      LastPlain(cfg, ts);
    }
  }

  lemma LastPlain(cfg: Config, ts: seq<Tuple>)
    requires ts != []
    ensures var rest, t := ts[..|ts| - 1], ts[|ts| - 1];
            ts == rest + [t] && Live(cfg, Plains(ts)) == Note(cfg, Live(cfg, Plains(rest)), Plain(t))
  {
    var rest, t := ts[..|ts| - 1], ts[|ts| - 1];
    assert Plains(ts) == Plains(rest) + [Plain(t)];
    Appended(cfg, Plains(rest), Plain(t));
  }

  ghost predicate RecordsOf(cfg: Config, ts: seq<Tuple>, live: Records) {
    && (forall k :: k in live <==> k.hashval == cfg.hash(k.tuple) && k.tuple in ts)
    && (forall k | k in live :: live[k].lastSeen == 0)
  }

  lemma PlainLive(cfg: Config, ts: seq<Tuple>, live: Records, t: Tuple)
    requires RecordsOf(cfg, ts, live) && t !in ts && forall u | u in ts :: Mirror(u) != t
    ensures RecordsOf(cfg, ts + [t], Note(cfg, live, Plain(t)))
  {
    assert Mirror(Mirror(t)) == t;
    assert Filed(cfg, live, t) == FlowKey(cfg.hash(t), t);
  }

  lemma SixtyFiveLive(cfg: Config)
    ensures RecordsOf(cfg, SixtyFive(), Live(cfg, Plains(SixtyFive())))
  {
    PlainsLive(cfg, SixtyFive());
  }

  // All sixty-five flows are in bucket b, idle long after, and of both shards.
  lemma SixtyFiveIdle(cfg: Config, m: nat, b: nat, now: nat)
    requires b < m && now > MAX_IDLE_TIME && forall t | t in SixtyFive() :: cfg.hash(t) % m == b
    ensures var ps := Plains(SixtyFive());
            var idle := IdleKeys(InBucket(Live(cfg, ps), m, b), now);
            && |News(cfg, ps)| == 65 == |idle| && !Single(idle, ByShard(2)) && Awake(cfg, ps) && IsScan(ps, now)
  {
    var ts := SixtyFive();
    SixtyFiveLive(cfg);
    NewsCount(cfg, Plains(ts));
    SixtyFiveKeys(cfg, Live(cfg, Plains(ts)));
    ShortStreamsAreAwake(cfg, Plains(ts));
    EarlyScanTime(Plains(ts));
    AllIdle(cfg, ts, Live(cfg, Plains(ts)), m, b, now);
    BothShards(cfg, Live(cfg, Plains(ts)).Keys);
  }

  lemma NewsCount(cfg: Config, ps: seq<Packet>)
    ensures |News(cfg, ps)| == |Live(cfg, ps).Keys|
  {
    NewsAreRecorded(cfg, ps);
    SetOfDistinct(News(cfg, ps));
    assert Live(cfg, ps).Keys == set k | k in News(cfg, ps);
  }

  lemma AllIdle(cfg: Config, ts: seq<Tuple>, live: Records, m: nat, b: nat, now: nat)
    requires RecordsOf(cfg, ts, live) && b < m && now > MAX_IDLE_TIME && forall t | t in ts :: cfg.hash(t) % m == b
    ensures IdleKeys(InBucket(live, m, b), now) == live.Keys
  {
  }

  lemma BothShards(cfg: Config, ks: set<FlowKey>)
    requires forall t | t in SixtyFive() :: FlowKey(cfg.hash(t), t) in ks
    ensures !Single(ks, ByShard(2))
  {
    var t, u := SixtyFive()[0], SixtyFive()[1];
    assert Shard(t, 2) == 1 && Shard(u, 2) == 0;
    assert FlowKey(cfg.hash(t), t) in ks && FlowKey(cfg.hash(u), u) in ks;
  }

  lemma {:induction false} EarlyScanTime(ps: seq<Packet>)
    requires forall p | p in ps :: p.time == 0
    ensures ScanTime(ps) == 0
  {
    if ps != [] {
      assert ps[|ps| - 1] in ps;
      EarlyScanTime(ps[..|ps| - 1]);
    }
  }

  lemma SixtyFiveKeys(cfg: Config, live: Records)
    requires RecordsOf(cfg, SixtyFive(), live)
    ensures |live.Keys| == 65
  {
    var ts := SixtyFive();
    var ks := seq(65, j requires 0 <= j < 65 => FlowKey(cfg.hash(ts[j]), ts[j]));
    assert forall a, b | 0 <= a < b < 65 :: ks[a] != ks[b] by { assert forall a | 0 <= a < 65 :: ks[a].tuple == ts[a]; }
    SetOfDistinct(ks);
    forall k ensures k in live <==> k in ks {
      if k in live { var a :| 0 <= a < 65 && ts[a] == k.tuple; assert k == ks[a]; }
    }
    assert live.Keys == set k | k in ks;
  }

  // Two threads reap all sixty-five idle flows; the single worker keeps one.
  lemma SixtyFifthFlowStays(cfg: Config, m: nat, b: nat, now: nat) returns (schedule: seq<nat>)
    requires b < m && cfg.maxFlows >= 65 && now > MAX_IDLE_TIME
    requires forall t | t in SixtyFive() :: cfg.hash(t) % m == b
    ensures IsSchedule(schedule, 2)
    ensures var qs := Quieted(Plains(SixtyFive()), now);
            && (forall i :: 0 <= i < 2 ==> Execute(cfg, m, qs, 2, schedule).slots[i].pos == 66)
            && !SameBucket(Execute(cfg, m, qs, 2, schedule), 2, Solo(cfg, m, qs), b)
  {
    var ps := Plains(SixtyFive());
    schedule := FirstThreadsFinish(cfg, m, Quieted(ps, now), 2, [], 2);
    SixtyFiveIdle(cfg, m, b, now);
    UnionWithinQueueIff(cfg, m, ps, 2, schedule, now, b);
  }
}
