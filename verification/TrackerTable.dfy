/** The tracker keeps one record per conversation in every run exactly when its flow
    hash is the same in both directions; for ICMP it is not. */
module TrackerTable {
  import opened Octets
  import opened SearchTree
  import opened Tracker
  import opened CommunityId

  ghost predicate PlacedIn(cfg: Config, b: Bucket, i: nat, m: nat)
    requires m > 0
  {
    && Sorted(b, Rank)
    && (forall k :: k in Contents(b) ==> k.hashval == cfg.hash(k.tuple) && k.hashval % m == i)
    && (forall k :: k in Contents(b) && FlowKey(k.hashval, Mirror(k.tuple)) in Contents(b) ==> Mirror(k.tuple) == k.tuple)
  }

  // Every flow in the bucket of its hash, and no flow beside its mirror image under
  // the same hash.
  ghost predicate TableOk(cfg: Config, bs: seq<Bucket>) {
    |bs| > 0 && forall i :: 0 <= i < |bs| ==> PlacedIn(cfg, bs[i], i, |bs|)
  }

  ghost predicate Holds(cfg: Config, bs: seq<Bucket>, t: Tuple)
    requires |bs| > 0
  {
    FlowKey(cfg.hash(t), t) in Contents(bs[cfg.hash(t) % |bs|])
  }

  lemma LocateIsSearch(cfg: Config, bs: seq<Bucket>, t: Tuple)
    requires TableOk(cfg, bs)
    ensures var h, b := cfg.hash(t), bs[cfg.hash(t) % |bs|];
            var l := Locate(cfg, bs, t);
            && (l.Unknown? <==> FlowKey(h, t) !in Contents(b) && FlowKey(h, Mirror(t)) !in Contents(b))
            && (l.Known? ==> l.key in Contents(b) && Contents(b)[l.key] == l.flow)
  {
    var h := cfg.hash(t);
    assert PlacedIn(cfg, bs[h % |bs|], h % |bs|, |bs|);
    NodeCmpIsOrder();
    FindIsLookup(bs[h % |bs|], FlowKey(h, t), NodeCmp, Rank);
    FindIsLookup(bs[h % |bs|], FlowKey(h, Mirror(t)), NodeCmp, Rank);
  }

  lemma PutKeepsPlaced(cfg: Config, b: Bucket, i: nat, m: nat, k: FlowKey, f: Flow)
    requires m > 0 && PlacedIn(cfg, b, i, m) && k.hashval == cfg.hash(k.tuple) && k.hashval % m == i
    requires k in Contents(b) || FlowKey(k.hashval, Mirror(k.tuple)) !in Contents(b)
    ensures PlacedIn(cfg, Put(b, k, f, NodeCmp), i, m) && Contents(Put(b, k, f, NodeCmp)) == Contents(b)[k := f]
  {
    NodeCmpIsOrder();
    PutIsUpdate(b, k, f, NodeCmp, Rank);
    OneOrientation(Contents(b), Contents(Put(b, k, f, NodeCmp)), k, f);
  }

  lemma OneOrientation(m: map<FlowKey, Flow>, r: map<FlowKey, Flow>, k: FlowKey, f: Flow)
    requires forall l :: l in m && FlowKey(l.hashval, Mirror(l.tuple)) in m ==> Mirror(l.tuple) == l.tuple
    requires r == m[k := f] && (k in m || FlowKey(k.hashval, Mirror(k.tuple)) !in m)
    ensures forall l :: l in r && FlowKey(l.hashval, Mirror(l.tuple)) in r ==> Mirror(l.tuple) == l.tuple
  {
    assert forall l :: l in m && FlowKey(l.hashval, Mirror(l.tuple)) == k ==> l == FlowKey(k.hashval, Mirror(k.tuple));
  }

  lemma StoreKeepsTable(cfg: Config, bs: seq<Bucket>, k: FlowKey, f: Flow)
    requires TableOk(cfg, bs) && k.hashval == cfg.hash(k.tuple)
    requires var b := bs[k.hashval % |bs|]; k in Contents(b) || FlowKey(k.hashval, Mirror(k.tuple)) !in Contents(b)
    ensures TableOk(cfg, Store(bs, k, f))
    ensures forall t :: Holds(cfg, Store(bs, k, f), t) <==> Holds(cfg, bs, t) || FlowKey(cfg.hash(t), t) == k
  {
    var i := k.hashval % |bs|;
    PutKeepsPlaced(cfg, bs[i], i, |bs|, k, f);
  }

  lemma ReapKeepsTable(cfg: Config, w: Worker, p: Packet)
    requires TableOk(cfg, w.buckets)
    ensures TableOk(cfg, Arrive(w, p).buckets)
  {
    if ScanDue(w.(lastTime := p.time)) {
      forall i: nat | i < |w.buckets| ensures PlacedIn(cfg, Arrive(w, p).buckets[i], i, |w.buckets|) {
        ReapAllAt(w.buckets, p.time, i);
        assert PlacedIn(cfg, w.buckets[i], i, |w.buckets|);
        NodeCmpIsOrder();
        ReapRemovesIdle(w.buckets[i], IdleAt(p.time), MAX_IDLE_FLOWS_PER_THREAD, NodeCmp, Rank);
      }
    }
  }

  lemma KeepKeepsTable(cfg: Config, w: Worker, s: Segment, id: nat)
    requires TableOk(cfg, w.buckets)
    ensures TableOk(cfg, Keep(cfg, w, s).worker.buckets)
    ensures Keep(cfg, w, s).NeedId? ==> TableOk(cfg, Finish(cfg, Keep(cfg, w, s).worker, s, id).buckets)
  {
    LocateIsSearch(cfg, w.buckets, s.tuple);
    var l := Locate(cfg, w.buckets, s.tuple);
    if l.Known? {
      assert PlacedIn(cfg, w.buckets[l.key.hashval % |w.buckets|], l.key.hashval % |w.buckets|, |w.buckets|);
      StoreKeepsTable(cfg, w.buckets, l.key, Update(cfg, l.flow, s, w.lastTime));
    } else {
      StoreKeepsTable(cfg, w.buckets, FlowKey(cfg.hash(s.tuple), s.tuple), Update(cfg, NewFlow(id, s), s, w.lastTime));
    }
  }

  // Kept by every packet of every run.
  lemma StepKeepsTable(cfg: Config, n: nat, idx: nat, w: Worker, p: Packet, id: nat)
    requires n > 0 && TableOk(cfg, w.buckets)
    ensures TableOk(cfg, Step(cfg, n, idx, w, p, id).buckets)
  {
    ReapKeepsTable(cfg, w, p);
    if p.segment.Some? { KeepKeepsTable(cfg, Arrive(w, p), p.segment.value, id); }
  }

  ghost predicate HeldTwice(cfg: Config, bs: seq<Bucket>, t: Tuple)
    requires |bs| > 0
  {
    t != Mirror(t) && Holds(cfg, bs, t) && Holds(cfg, bs, Mirror(t))
  }

  lemma {:induction false} SoloTableIsOk(cfg: Config, m: nat, ps: seq<Packet>)
    requires m > 0
    ensures TableOk(cfg, Solo(cfg, m, ps).buckets)
  {
    if ps != [] {
      var w := Solo(cfg, m, ps[..|ps| - 1]);
      SoloTableIsOk(cfg, m, ps[..|ps| - 1]);
      StepKeepsTable(cfg, 1, 0, w, ps[|ps| - 1], w.totalActive);
    }
  }

  // After ps, a thread alone holds the conversation of t twice.
  ghost predicate HeldTwiceAfter(cfg: Config, m: nat, ps: seq<Packet>, t: Tuple)
    requires m > 0
  {
    HeldTwice(cfg, Solo(cfg, m, ps).buckets, t)
  }

  function Plain(t: Tuple): (p: Packet) { Packet(0, Some(Segment(t, 0, false, false))) }

  // A first packet at time 0 adds its record and nothing else.
  lemma PlainPacketIsStored(cfg: Config, w: Worker, t: Tuple, id: nat)
    requires TableOk(cfg, w.buckets) && Locate(cfg, w.buckets, t).Unknown? && w.curActive != cfg.maxFlows
    ensures var r := Step(cfg, 1, 0, w, Plain(t), id);
            && r.curActive == w.curActive + 1
            && (forall u :: Holds(cfg, r.buckets, u) <==> Holds(cfg, w.buckets, u) || u == t)
  {
    var s := Plain(t).segment.value;
    LocateIsSearch(cfg, w.buckets, t);
    StoreKeepsTable(cfg, w.buckets, FlowKey(cfg.hash(t), t), Update(cfg, NewFlow(id, s), s, 0));
  }

  lemma NothingHeldAtFirst(cfg: Config, m: nat, t: Tuple)
    requires m > 0
    ensures TableOk(cfg, Fresh(m).buckets) && !Holds(cfg, Fresh(m).buckets, t)
    ensures Locate(cfg, Fresh(m).buckets, t).Unknown?
  {
    LocateIsSearch(cfg, Fresh(m).buckets, t);
  }

  lemma SoloUnfolds(cfg: Config, m: nat, p: Packet, q: Packet)
    requires m > 0
    ensures Solo(cfg, m, [p]) == SoloStep(cfg, Fresh(m), p)
    ensures Solo(cfg, m, [p, q]) == SoloStep(cfg, Solo(cfg, m, [p]), q)
  {
    assert [p][..0] == [] && [p, q][..1] == [p];
    assert Solo(cfg, m, []) == Fresh(m);
  }

  // The packets of both directions on a table that holds neither.
  lemma BothWaysAreStored(cfg: Config, w0: Worker, t: Tuple)
    requires TableOk(cfg, w0.buckets) && Locate(cfg, w0.buckets, t).Unknown? && w0.curActive + 1 < cfg.maxFlows
    requires cfg.hash(t) != cfg.hash(Mirror(t)) && forall u :: !Holds(cfg, w0.buckets, u)
    ensures var w1 := SoloStep(cfg, w0, Plain(t));
            |w1.buckets| > 0 && HeldTwice(cfg, SoloStep(cfg, w1, Plain(Mirror(t))).buckets, t)
  {
    var w1 := SoloStep(cfg, w0, Plain(t));
    PlainPacketIsStored(cfg, w0, t, w0.totalActive);
    StepKeepsTable(cfg, 1, 0, w0, Plain(t), w0.totalActive);
    NotStored(cfg, w1.buckets, t);
    PlainPacketIsStored(cfg, w1, Mirror(t), w1.totalActive);
  }

  // One packet each way, hashed apart, leaves two records.
  lemma HashedApartIsHeldTwice(cfg: Config, m: nat, t: Tuple)
    requires m > 0 && cfg.maxFlows >= 2 && cfg.hash(t) != cfg.hash(Mirror(t))
    ensures HeldTwiceAfter(cfg, m, [Plain(t), Plain(Mirror(t))], t)
  {
    forall u ensures !Holds(cfg, Fresh(m).buckets, u) { NothingHeldAtFirst(cfg, m, u); }
    NothingHeldAtFirst(cfg, m, t);
    BothWaysAreStored(cfg, Fresh(m), t);
    SoloUnfolds(cfg, m, Plain(t), Plain(Mirror(t)));
  }

  lemma NotStored(cfg: Config, bs: seq<Bucket>, t: Tuple)
    requires TableOk(cfg, bs) && cfg.hash(t) != cfg.hash(Mirror(t))
    requires forall u :: Holds(cfg, bs, u) <==> u == t
    ensures Locate(cfg, bs, Mirror(t)).Unknown?
  {
    LocateIsSearch(cfg, bs, Mirror(t));
    var h := cfg.hash(Mirror(t));
    assert PlacedIn(cfg, bs[h % |bs|], h % |bs|, |bs|);
    assert !Holds(cfg, bs, Mirror(t)) && Mirror(Mirror(t)) == t;
  }

  // Over all runs, a conversation has one record if and only if the hash agrees on its
  // two directions.
  lemma OneRecordIffHashSymmetric(cfg: Config, m: nat, t: Tuple)
    requires m > 0 && cfg.maxFlows >= 2
    ensures (forall ps: seq<Packet> :: !HeldTwiceAfter(cfg, m, ps, t))
            <==> cfg.hash(t) == cfg.hash(Mirror(t))
  {
    if cfg.hash(t) == cfg.hash(Mirror(t)) {
      forall ps: seq<Packet> ensures !HeldTwiceAfter(cfg, m, ps, t) {
        SoloTableIsOk(cfg, m, ps);
        var bs := Solo(cfg, m, ps).buckets;
        var i := cfg.hash(t) % |bs|;
        assert PlacedIn(cfg, bs[i], i, |bs|);
      }
    } else {
      HashedApartIsHeldTwice(cfg, m, t);
    }
  }

  // With the tracker's own hash and any digest: over all runs a conversation has one record if
  // and only if it is not ICMP between two hosts, or the digests of its two directions collide.
  lemma OneRecordIffNotIcmp(digest: seq<byte> -> nat, cfg: Config, m: nat, t: Tuple)
    requires m > 0 && cfg.maxFlows >= 2 && cfg.hash == (u => FlowHash(digest, u))
    ensures (forall ps: seq<Packet> :: !HeldTwiceAfter(cfg, m, ps, t))
            <==> (t.protocol != IPPROTO_ICMP || t.src == t.dst || Collide(digest, Buffer(t, 0, 0), Buffer(Mirror(t), 0, 0)))
  {
    OneRecordIffHashSymmetric(cfg, m, t);
    BufferIsSymmetricUnlessIcmp(t);
    HashAgreesIff(digest, t);
  }
}
