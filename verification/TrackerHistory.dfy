/** Every record of the tracker is the exact summary of the packets it has had since it was
    created, over whole streams with expiry and TCP termination. */
module TrackerHistory {
  import opened SearchTree
  import opened Tracker
  import opened TrackerTable

  datatype Sighting = Sighting(segment: Segment, time: nat)

  type Log = seq<Sighting>

  // ---------------------------------------------------------------- what a log says

  function AllBytes(log: Log): (n: nat) {
    if log == [] then 0 else AllBytes(log[..|log| - 1]) + log[|log| - 1].segment.l4Len
  }

  // Time 0 means unset.
  function FirstTime(log: Log): (n: nat) {
    if log == [] then 0
    else if FirstTime(log[..|log| - 1]) == 0 then log[|log| - 1].time
    else FirstTime(log[..|log| - 1])
  }

  ghost predicate Summarises(f: Flow, log: Log) {
    && log != [] && f.packets == |log| && f.l4Bytes == AllBytes(log)
    && f.firstSeen == FirstTime(log) && f.lastSeen == log[|log| - 1].time
    && (f.finAckSeen <==> exists i :: 0 <= i < |log| && log[i].segment.finAck)
    && (f.ackSeen <==> log[|log| - 1].segment.ack)
  }

  lemma UpdateSummarises(cfg: Config, f: Flow, log: Log, s: Segment, now: nat)
    requires Summarises(f, log)
    ensures Summarises(Update(cfg, f, s, now), log + [Sighting(s, now)])
  {
    var next := log + [Sighting(s, now)];
    assert next[..|log|] == log;
    if s.finAck { assert next[|log|].segment.finAck; }
    if f.finAckSeen {
      var i :| 0 <= i < |log| && log[i].segment.finAck;
      assert next[i].segment.finAck;
    }
  }

  lemma FirstUpdateSummarises(cfg: Config, id: nat, s: Segment, now: nat)
    ensures Summarises(Update(cfg, NewFlow(id, s), s, now), [Sighting(s, now)])
  {
    var log := [Sighting(s, now)];
    assert log[..0] == [] && log[0].segment == s;
  }

  // ---------------------------------------------------------------- one packet

  ghost predicate Has(bs: seq<Bucket>, k: FlowKey)
    requires |bs| > 0
  {
    k in Contents(bs[k.hashval % |bs|])
  }

  ghost function FlowOf(bs: seq<Bucket>, k: FlowKey): Flow
    requires |bs| > 0 && Has(bs, k)
  {
    Contents(bs[k.hashval % |bs|])[k]
  }

  ghost predicate Told(bs: seq<Bucket>, k: FlowKey, log: Log)
    requires |bs| > 0
  {
    Has(bs, k) ==> Summarises(FlowOf(bs, k), log)
  }

  // The idle check removes records and changes none.
  lemma ArriveOnlyRemoves(cfg: Config, w: Worker, p: Packet, k: FlowKey)
    requires TableOk(cfg, w.buckets)
    ensures var bs := Arrive(w, p).buckets;
            Has(bs, k) ==> Has(w.buckets, k) && FlowOf(bs, k) == FlowOf(w.buckets, k)
  {
    if ScanDue(w.(lastTime := p.time)) {
      var i := k.hashval % |w.buckets|;
      ReapAllAt(w.buckets, p.time, i);
      assert PlacedIn(cfg, w.buckets[i], i, |w.buckets|);
      NodeCmpIsOrder();
      ReapRemovesIdle(w.buckets[i], IdleAt(p.time), MAX_IDLE_FLOWS_PER_THREAD, NodeCmp, Rank);
    }
  }

  lemma StoreChangesOne(cfg: Config, bs: seq<Bucket>, key: FlowKey, f: Flow, k: FlowKey)
    requires TableOk(cfg, bs)
    ensures var r := Store(bs, key, f);
            && (Has(r, k) <==> Has(bs, k) || k == key)
            && (Has(r, k) ==> FlowOf(r, k) == if k == key then f else FlowOf(bs, k))
  {
    var i := key.hashval % |bs|;
    assert PlacedIn(cfg, bs[i], i, |bs|);
    NodeCmpIsOrder();
    PutIsUpdate(bs[i], key, f, NodeCmp, Rank);
  }

  // The record a packet goes to, if any: the one found, or a new one while there is room.
  ghost function Target(cfg: Config, w: Worker, s: Segment): Option<FlowKey>
    requires |w.buckets| > 0
  {
    match Locate(cfg, w.buckets, s.tuple)
    case Known(k, _) => Some(k)
    case Unknown => if w.curActive == cfg.maxFlows then None else Some(FlowKey(cfg.hash(s.tuple), s.tuple))
  }

  // The packets of the record k since it was created, after one more packet.
  ghost function NextLog(cfg: Config, w: Worker, p: Packet, k: FlowKey, log: Log): Log
    requires |w.buckets| > 0
  {
    var w1 := Arrive(w, p);
    if p.segment.Some? && Target(cfg, w1, p.segment.value) == Some(k) then
      (if Has(w1.buckets, k) then log else []) + [Sighting(p.segment.value, p.time)]
    else if Has(w1.buckets, k) then log
    else []
  }

  lemma KeepTells(cfg: Config, w: Worker, s: Segment, k: FlowKey, log: Log, id: nat)
    requires TableOk(cfg, w.buckets) && Told(w.buckets, k, log)
    ensures var next := if Target(cfg, w, s) == Some(k) then
                          (if Has(w.buckets, k) then log else []) + [Sighting(s, w.lastTime)]
                        else log;
            match Keep(cfg, w, s)
            case Done(w') => Told(w'.buckets, k, next)
            case NeedId(w') => Told(Finish(cfg, w', s, id).buckets, k, next)
  {
    LocateIsSearch(cfg, w.buckets, s.tuple);
    match Locate(cfg, w.buckets, s.tuple)
    case Known(key, f) =>
      StoreChangesOne(cfg, w.buckets, key, Update(cfg, f, s, w.lastTime), k);
      if k == key { UpdateSummarises(cfg, f, log, s, w.lastTime); }
    case Unknown =>
      var key := FlowKey(cfg.hash(s.tuple), s.tuple);
      StoreChangesOne(cfg, w.buckets, key, Update(cfg, NewFlow(id, s), s, w.lastTime), k);
      FirstUpdateSummarises(cfg, id, s, w.lastTime);
      assert [] + [Sighting(s, w.lastTime)] == [Sighting(s, w.lastTime)];
  }

  lemma StepTells(cfg: Config, w: Worker, p: Packet, k: FlowKey, log: Log)
    requires TableOk(cfg, w.buckets) && Told(w.buckets, k, log)
    ensures |SoloStep(cfg, w, p).buckets| > 0 && Told(SoloStep(cfg, w, p).buckets, k, NextLog(cfg, w, p, k, log))
  {
    var w1 := Arrive(w, p);
    ReapKeepsTable(cfg, w, p);
    ArriveOnlyRemoves(cfg, w, p, k);
    if p.segment.Some? {
      KeepTells(cfg, w1, p.segment.value, k, if Has(w1.buckets, k) then log else [], w.totalActive);
      assert SoloStep(cfg, w, p) == match Keep(cfg, w1, p.segment.value)
                                    case Done(w') => w'
                                    case NeedId(w') => Finish(cfg, w', p.segment.value, w.totalActive);
    }
  }

  // ---------------------------------------------------------------- every run

  ghost function LogAfter(cfg: Config, m: nat, ps: seq<Packet>, k: FlowKey): Log
    requires m > 0
  {
    if ps == [] then []
    else
      var past, p := ps[..|ps| - 1], ps[|ps| - 1];
      NextLog(cfg, Solo(cfg, m, past), p, k, LogAfter(cfg, m, past, k))
  }

  lemma {:induction false} RecordsSummariseTheirPackets(cfg: Config, m: nat, ps: seq<Packet>, k: FlowKey)
    requires m > 0
    ensures Told(Solo(cfg, m, ps).buckets, k, LogAfter(cfg, m, ps, k))
  {
    if ps != [] {
      var past := ps[..|ps| - 1];
      RecordsSummariseTheirPackets(cfg, m, past, k);
      SoloTableIsOk(cfg, m, past);
      StepTells(cfg, Solo(cfg, m, past), ps[|ps| - 1], k, LogAfter(cfg, m, past, k));
    }
  }
}
