/** Every flow record is the exact summary of the packets its conversation has had since the
    record was created, over whole captures with expiry. */
module FlowHistory {
  import opened Admission
  import opened FlowOrder
  import opened FlowTable
  import opened SearchTree
  import opened Workflow

  // A packet of a conversation, with the clock of the capture when it came.
  datatype Sighting = Sighting(tuple: Tuple, size: nat, time: nat)

  type Log = seq<Sighting>

  // ---------------------------------------------------------------- what a log says

  function PacketsLike(log: Log, t: Tuple): (n: nat) {
    if log == [] then 0 else PacketsLike(log[..|log| - 1], t) + if log[|log| - 1].tuple == t then 1 else 0
  }

  function BytesLike(log: Log, t: Tuple): (n: nat) {
    if log == [] then 0 else BytesLike(log[..|log| - 1], t) + if log[|log| - 1].tuple == t then log[|log| - 1].size else 0
  }

  function AllBytes(log: Log): (n: nat) {
    if log == [] then 0 else AllBytes(log[..|log| - 1]) + log[|log| - 1].size
  }

  // Time 0 means unset.
  function FirstTime(log: Log): (n: nat) {
    if log == [] then 0
    else if FirstTime(log[..|log| - 1]) == 0 then log[|log| - 1].time
    else FirstTime(log[..|log| - 1])
  }

  // The record counts packets and bytes of the first packet's orientation as one direction and
  // all others as the other.
  ghost predicate Summarises(f: Flow, log: Log) {
    && log != [] && f.first == log[0].tuple
    && f.fwdPackets == PacketsLike(log, f.first) && f.fwdPackets + f.revPackets == |log|
    && f.fwdBytes == BytesLike(log, f.first) && f.fwdBytes + f.revBytes == AllBytes(log)
    && (f.bidirectional <==> f.revPackets > 0)
    && f.firstSeen == FirstTime(log) && f.lastSeen == log[|log| - 1].time
  }

  lemma TouchSummarises(f: Flow, log: Log, t: Tuple, size: nat, now: nat)
    requires Summarises(f, log)
    ensures Summarises(Touch(f, t == f.first, size, now), log + [Sighting(t, size, now)])
  {
    assert (log + [Sighting(t, size, now)])[..|log|] == log;
  }

  lemma FirstTouchSummarises(id: nat, t: Tuple, size: nat, now: nat)
    ensures Summarises(Touch(NewFlow(id, t), true, size, now), [Sighting(t, size, now)])
  {
    assert [Sighting(t, size, now)][..0] == [];
  }

  // ---------------------------------------------------------------- every run

  // The packets of c since its record was created; none when it has no record.
  ghost function NextLog(cfg: Config, s: State, p: Packet, c: Conversation, log: Log): Log
    requires Inv(cfg, s)
  {
    StepKeepsInv(cfg, s, p);
    if c !in Flows(Step(cfg, s, p).roots) then []
    else if !Belongs(p, c) then log
    else (if c in Flows(s.roots) then log else [])
         + [Sighting(p.tuple.value, p.rawSize, Clock(s, p.time).lastTime)]
  }

  ghost function LogAfter(cfg: Config, s: State, ps: seq<Packet>, c: Conversation, log: Log): Log
    requires Inv(cfg, s)
    decreases |ps|
  {
    if ps == [] then log
    else
      StepKeepsInv(cfg, s, ps[0]);
      LogAfter(cfg, Step(cfg, s, ps[0]), ps[1..], c, NextLog(cfg, s, ps[0], c, log))
  }

  ghost predicate Told(s: State, c: Conversation, log: Log)
    requires Valid(s.roots)
  {
    c in Flows(s.roots) ==> Summarises(Flows(s.roots)[c], log)
  }

  // Receiving a packet, before the scan.
  lemma IngestTells(cfg: Config, s: State, p: Packet, c: Conversation, log: Log)
    requires Inv(cfg, s) && Told(s, c, log) && Belongs(p, c)
    ensures var r, now := Ingest(cfg, s, p), Clock(s, p.time).lastTime;
            && Inv(cfg, r)
            && Told(r, c, (if c in Flows(s.roots) then log else []) + [Sighting(p.tuple.value, p.rawSize, now)])
  {
    var s1, t := Clock(s, p.time), p.tuple.value;
    ClockKeepsInv(cfg, s, p.time);
    ReceiveRefines(cfg, s1, t, p.rawSize);
    if c in Flows(s.roots) {
      TouchSummarises(Flows(s.roots)[c], log, t, p.rawSize, s1.lastTime);
    } else {
      FirstTouchSummarises(s.nextId, t, p.rawSize, s1.lastTime);
      assert [] + [Sighting(t, p.rawSize, s1.lastTime)] == [Sighting(t, p.rawSize, s1.lastTime)];
    }
  }

  lemma StepTells(cfg: Config, s: State, p: Packet, c: Conversation, log: Log)
    requires Inv(cfg, s) && Told(s, c, log)
    ensures Inv(cfg, Step(cfg, s, p)) && Told(Step(cfg, s, p), c, NextLog(cfg, s, p, c, log))
  {
    StepKeepsInv(cfg, s, p);
    if Belongs(p, c) {
      IngestTells(cfg, s, p, c, log);
      ScanReapsIdleOnly(cfg, Ingest(cfg, s, p));
    } else {
      OtherFlowsKeep(cfg, s, p, c);
    }
  }

  lemma {:induction false} RunTells(cfg: Config, s: State, ps: seq<Packet>, c: Conversation, log: Log)
    requires Inv(cfg, s) && Told(s, c, log)
    ensures Told(Run(cfg, s, ps), c, LogAfter(cfg, s, ps, c, log))
    decreases |ps|
  {
    if ps != [] {
      StepTells(cfg, s, ps[0], c, log);
      RunTells(cfg, Step(cfg, s, ps[0]), ps[1..], c, NextLog(cfg, s, ps[0], c, log));
    }
  }

  // From a fresh thread on, whatever was captured and whatever expired in between.
  lemma FlowsSummariseTheirPackets(cfg: Config, n: nat, protocols: nat, categories: nat, ps: seq<Packet>, c: Conversation)
    requires n > 0 && Ready(cfg, Fresh(n, protocols, categories).stats)
    ensures Inv(cfg, Fresh(n, protocols, categories))
    ensures var s := Fresh(n, protocols, categories);
            var r := Run(cfg, s, ps);
            c in Flows(r.roots) ==> Summarises(Flows(r.roots)[c], LogAfter(cfg, s, ps, c, []))
  {
    FreshIsValid(cfg, n, protocols, categories);
    RunTells(cfg, Fresh(n, protocols, categories), ps, c, []);
  }

  // ---------------------------------------------------------------- captures from a file

  // All packets of a conversation with the clock at their arrival.
  function Sightings(ps: seq<Packet>, c: Conversation, clock: nat): (log: Log)
    decreases |ps|
  {
    if ps == [] then []
    else
      var now := Later(clock, ps[0].time);
      SightingOf(ps[0], c, now) + Sightings(ps[1..], c, now)
  }

  function Later(a: nat, b: nat): (r: nat) { if a > b then a else b }

  function SightingOf(p: Packet, c: Conversation, now: nat): (log: Log) {
    if Belongs(p, c) then [Sighting(p.tuple.value, p.rawSize, now)] else []
  }

  function Talk(p: Packet): (o: Option<Conversation>) {
    if p.tuple.Some? then Some(ConversationOf(p.tuple.value)) else None
  }

  function Talks(ps: seq<Packet>): (os: seq<Option<Conversation>>)
    ensures |os| == |ps| && (ps != [] ==> os[0] == Talk(ps[0]) && os[1..] == Talks(ps[1..]))
  {
    if ps == [] then [] else [Talk(ps[0])] + Talks(ps[1..])
  }

  // The distinct conversations of a capture.
  ghost function Conversations(ps: seq<Packet>): (cs: set<Conversation>) { Named(Talks(ps)) }

  lemma {:induction false} SeenIffSighted(ps: seq<Packet>, c: Conversation, clock: nat)
    ensures c in Conversations(ps) <==> Sightings(ps, c, clock) != []
  {
    if ps != [] {
      NamedUnfolds(Talks(ps));
      SeenIffSighted(ps[1..], c, Later(clock, ps[0].time));
    }
  }

  lemma OfflineIsIngest(cfg: Config, s: State, p: Packet)
    requires Inv(cfg, s) && !cfg.live
    ensures Inv(cfg, Step(cfg, s, p)) && Step(cfg, s, p) == Ingest(cfg, s, p)
    ensures Step(cfg, s, p).lastTime == Later(s.lastTime, p.time)
  {
    StepKeepsInv(cfg, s, p);
  }

  ghost predicate Refused(cfg: Config, s: State, p: Packet, c: Conversation)
    requires Valid(s.roots)
  {
    Belongs(p, c) && c !in Flows(s.roots) && s.stats.flowCount == cfg.maxFlows
  }

  // Without expiry, a conversation has a record once it had one or a packet that was not refused.
  lemma OfflineRecord(cfg: Config, s: State, p: Packet, c: Conversation)
    requires Inv(cfg, s) && !cfg.live
    ensures Inv(cfg, Step(cfg, s, p))
    ensures c in Flows(Step(cfg, s, p).roots) <==> c in Flows(s.roots) || (Belongs(p, c) && !Refused(cfg, s, p, c))
  {
    OfflineIsIngest(cfg, s, p);
    if Belongs(p, c) {
      ClockKeepsInv(cfg, s, p.time);
      ReceiveRefines(cfg, Clock(s, p.time), p.tuple.value, p.rawSize);
    } else {
      IngestKeepsOthers(cfg, s, p, c);
    }
  }

  lemma OfflineCount(cfg: Config, s: State, p: Packet)
    requires Inv(cfg, s) && !cfg.live
    ensures Step(cfg, s, p).stats.flowCount
            == s.stats.flowCount + (if p.tuple.None? || ConversationOf(p.tuple.value) in Flows(s.roots)
                                       || s.stats.flowCount == cfg.maxFlows then 0 else 1)
  {
    OfflineIsIngest(cfg, s, p);
    ClockKeepsInv(cfg, s, p.time);
    if p.tuple.Some? { LocateIsLookup(s.roots, p.tuple.value); }
  }

  // So a packet of a file does to the records what an arrival does to a table.
  lemma OfflineStep(cfg: Config, s: State, p: Packet)
    requires Inv(cfg, s) && !cfg.live
    ensures Inv(cfg, Step(cfg, s, p))
    ensures (Flows(Step(cfg, s, p).roots).Keys, Step(cfg, s, p).stats.flowCount)
            == Admit(Flows(s.roots).Keys, s.stats.flowCount, Talk(p), cfg.maxFlows)
  {
    OfflineIsIngest(cfg, s, p);
    OfflineCount(cfg, s, p);
    forall c ensures c in Flows(Step(cfg, s, p).roots).Keys <==>
                     c in Flows(s.roots).Keys || (Talk(p) == Some(c) && s.stats.flowCount != cfg.maxFlows)
    {
      OfflineRecord(cfg, s, p, c);
    }
    AdmitsMembers(Flows(s.roots).Keys, s.stats.flowCount, Talk(p), cfg.maxFlows,
                  Flows(Step(cfg, s, p).roots).Keys, Step(cfg, s, p).stats.flowCount);
  }

  lemma {:induction false} OfflineKeys(cfg: Config, s: State, ps: seq<Packet>)
    requires Inv(cfg, s) && !cfg.live
    ensures Flows(Run(cfg, s, ps).roots).Keys
            == AdmitAll(Flows(s.roots).Keys, s.stats.flowCount, Talks(ps), cfg.maxFlows).0
    decreases |ps|
  {
    if ps != [] {
      OfflineStep(cfg, s, ps[0]);
      OfflineKeys(cfg, Step(cfg, s, ps[0]), ps[1..]);
    }
  }

  // ---------------------------------------------------------------- logs of a file

  lemma NextLogOffline(cfg: Config, s: State, p: Packet, c: Conversation, log: Log)
    requires Inv(cfg, s) && !cfg.live && (c in Flows(s.roots) <==> log != [])
    ensures Inv(cfg, Step(cfg, s, p))
    ensures c in Flows(Step(cfg, s, p).roots) <==> NextLog(cfg, s, p, c, log) != []
    ensures !Refused(cfg, s, p, c) ==>
              NextLog(cfg, s, p, c, log) == log + SightingOf(p, c, Later(s.lastTime, p.time))
  {
    OfflineIsIngest(cfg, s, p);
    OfflineRecord(cfg, s, p, c);
  }

  lemma Unfolds(cfg: Config, s: State, ps: seq<Packet>, c: Conversation, log: Log)
    requires Inv(cfg, s) && ps != []
    ensures var p, rest := ps[0], ps[1..];
            && Inv(cfg, Step(cfg, s, p)) && Run(cfg, s, ps) == Run(cfg, Step(cfg, s, p), rest)
            && LogAfter(cfg, s, ps, c, log) == LogAfter(cfg, Step(cfg, s, p), rest, c, NextLog(cfg, s, p, c, log))
            && Sightings(ps, c, s.lastTime)
               == SightingOf(p, c, Later(s.lastTime, p.time)) + Sightings(rest, c, Later(s.lastTime, p.time))
  {
    StepKeepsInv(cfg, s, ps[0]);
  }

  // The rest of a run, as seen from after its first packet.
  lemma OfflineJoins(a: Log, b: Log, rest: Log, whole: Log, after: Log, next: Log)
    requires next == a + b && after == next + rest && whole == b + rest
    ensures after == a + whole
  {
    assert (a + b) + rest == a + (b + rest);
  }

  // A conversation that was refused once has no record at the end.
  lemma RefusedForGood(cfg: Config, s: State, p: Packet, rest: seq<Packet>, c: Conversation)
    requires Inv(cfg, s) && !cfg.live && Refused(cfg, s, p, c)
    ensures Inv(cfg, Step(cfg, s, p)) && c !in Flows(Run(cfg, Step(cfg, s, p), rest).roots)
  {
    OfflineIsIngest(cfg, s, p);
    OfflineRecord(cfg, s, p, c);
    OfflineCount(cfg, s, p);
    OfflineKeys(cfg, Step(cfg, s, p), rest);
    FullStays(Flows(Step(cfg, s, p).roots).Keys, Talks(rest), cfg.maxFlows);
  }

  lemma {:induction false} OfflineLog(cfg: Config, s: State, ps: seq<Packet>, c: Conversation, log: Log)
    requires Inv(cfg, s) && !cfg.live && (c in Flows(s.roots) <==> log != [])
    ensures c in Flows(Run(cfg, s, ps).roots) ==> LogAfter(cfg, s, ps, c, log) == log + Sightings(ps, c, s.lastTime)
    decreases |ps|
  {
    if ps == [] {
      assert log + [] == log;
    } else {
      var p, rest := ps[0], ps[1..];
      var now := Later(s.lastTime, p.time);
      OfflineIsIngest(cfg, s, p);
      NextLogOffline(cfg, s, p, c, log);
      Unfolds(cfg, s, ps, c, log);
      if Refused(cfg, s, p, c) {
        RefusedForGood(cfg, s, p, rest, c);
      } else {
        OfflineLog(cfg, Step(cfg, s, p), rest, c, NextLog(cfg, s, p, c, log));
        if c in Flows(Run(cfg, s, ps).roots) {
          OfflineJoins(log, SightingOf(p, c, now), Sightings(rest, c, now), Sightings(ps, c, s.lastTime),
                       LogAfter(cfg, s, ps, c, log), NextLog(cfg, s, p, c, log));
        }
      }
    }
  }

  // A capture file of any length: every record is the summary of all packets of its conversation.
  lemma RecordsAreWhole(cfg: Config, n: nat, protocols: nat, categories: nat, ps: seq<Packet>, c: Conversation)
    requires n > 0 && Ready(cfg, Fresh(n, protocols, categories).stats) && !cfg.live
    ensures Inv(cfg, Fresh(n, protocols, categories))
    ensures var r := Run(cfg, Fresh(n, protocols, categories), ps);
            c in Flows(r.roots) ==> Summarises(Flows(r.roots)[c], Sightings(ps, c, 0))
  {
    var s := Fresh(n, protocols, categories);
    FreshIsValid(cfg, n, protocols, categories);
    RunTells(cfg, s, ps, c, []);
    OfflineLog(cfg, s, ps, c, []);
    assert [] + Sightings(ps, c, 0) == Sightings(ps, c, 0);
  }

  lemma FileKeys(cfg: Config, n: nat, protocols: nat, categories: nat, ps: seq<Packet>)
    requires n > 0 && Ready(cfg, Fresh(n, protocols, categories).stats) && !cfg.live
    ensures Inv(cfg, Fresh(n, protocols, categories))
    ensures Flows(Run(cfg, Fresh(n, protocols, categories), ps).roots).Keys == AdmitAll({}, 0, Talks(ps), cfg.maxFlows).0
  {
    FreshIsValid(cfg, n, protocols, categories);
    NoKeys(Flows(Fresh(n, protocols, categories).roots));
    OfflineKeys(cfg, Fresh(n, protocols, categories), ps);
  }

  lemma NoKeys<K, V>(m: map<K, V>)
    requires m == map[]
    ensures m.Keys == {}
  {
  }

  // Every conversation of a file has its record exactly when the distinct conversations fit
  // the flow limit; otherwise as many as fit have one.
  lemma FilesAreSummarisedIff(cfg: Config, n: nat, protocols: nat, categories: nat, ps: seq<Packet>)
    requires n > 0 && Ready(cfg, Fresh(n, protocols, categories).stats) && !cfg.live
    ensures Inv(cfg, Fresh(n, protocols, categories))
    ensures Admits(Flows(Run(cfg, Fresh(n, protocols, categories), ps).roots).Keys, Conversations(ps), cfg.maxFlows)
  {
    FileKeys(cfg, n, protocols, categories, ps);
    AllInIff(Flows(Run(cfg, Fresh(n, protocols, categories), ps).roots).Keys, Talks(ps), cfg.maxFlows);
  }
}
