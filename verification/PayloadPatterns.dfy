/** The payload analyzer: how often each short pattern occurs in the first octets of the first
    packets of every flow, and in which flows and packets. */
module PayloadPatterns {
  import opened Octets

  type Gram = seq<byte>

  // min_pattern_len, max_pattern_len, max_num_packets_per_flow, max_packet_payload_dissection.
  datatype Config = Config(minLen: nat, maxLen: nat, maxPackets: nat, maxDissection: nat)

  // A packet: its flow, its number, how many packets the flow has counted, its payload.
  datatype Packet = Packet(flow: U32, id: U32, flowPackets: nat, payload: seq<byte>)

  datatype Pattern = Pattern(occurrences: U16, flows: set<U32>, packets: set<U32>)

  type Stats = map<Gram, Pattern>

  // ---------------------------------------------------------------- recording

  datatype Visit = Visit(gram: Gram, flow: U32, packet: U32)

  // ndpi_analyze_payload.
  function Record(stats: Stats, v: Visit): (r: Stats) {
    var p := if v.gram in stats then stats[v.gram].(occurrences := Trunc16(stats[v.gram].occurrences + 1))
             else Pattern(1, {}, {});
    stats[v.gram := p.(flows := p.flows + {v.flow}, packets := p.packets + {v.packet})]
  }

  // The table after some visits, from an empty one.
  function RecordAll(vs: seq<Visit>): (r: Stats) {
    if vs == [] then map[] else Record(RecordAll(vs[..|vs| - 1]), vs[|vs| - 1])
  }

  lemma RecordNext(vs: seq<Visit>, v: Visit)
    ensures RecordAll(vs + [v]) == Record(RecordAll(vs), v)
  {
    assert (vs + [v])[..|vs + [v]| - 1] == vs;
  }

  function Tally(vs: seq<Visit>, g: Gram): (n: nat) {
    if vs == [] then 0 else Tally(vs[..|vs| - 1], g) + if vs[|vs| - 1].gram == g then 1 else 0
  }

  function FlowsOf(vs: seq<Visit>, g: Gram): (s: set<U32>) { set v | v in vs && v.gram == g :: v.flow }
  function PacketsOf(vs: seq<Visit>, g: Gram): (s: set<U32>) { set v | v in vs && v.gram == g :: v.packet }

  ghost predicate Exact(stats: Stats, vs: seq<Visit>, g: Gram) {
    if g in stats then
      Tally(vs, g) > 0 && stats[g] == Pattern(Trunc16(Tally(vs, g)), FlowsOf(vs, g), PacketsOf(vs, g))
    else Tally(vs, g) == 0
  }

  lemma {:induction false} NeverVisited(vs: seq<Visit>, g: Gram)
    requires Tally(vs, g) == 0
    ensures forall v | v in vs :: v.gram != g
  {
    if vs != [] { NeverVisited(vs[..|vs| - 1], g); }
  }

  lemma SetsGrow(vs: seq<Visit>, g: Gram)
    requires vs != []
    ensures var past, v := vs[..|vs| - 1], vs[|vs| - 1];
            && FlowsOf(vs, g) == FlowsOf(past, g) + (if v.gram == g then {v.flow} else {})
            && PacketsOf(vs, g) == PacketsOf(past, g) + (if v.gram == g then {v.packet} else {})
  {
    assert forall x :: x in vs <==> x in vs[..|vs| - 1] || x == vs[|vs| - 1];
  }

  lemma SetsOfNone(vs: seq<Visit>, g: Gram)
    requires Tally(vs, g) == 0
    ensures FlowsOf(vs, g) == {} && PacketsOf(vs, g) == {}
  {
    NeverVisited(vs, g);
  }

  lemma {:induction false} RecordIsExact(vs: seq<Visit>, g: Gram)
    ensures Exact(RecordAll(vs), vs, g)
  {
    if vs != [] {
      var past := vs[..|vs| - 1];
      RecordIsExact(past, g);
      SetsGrow(vs, g);
      if g !in RecordAll(past) { SetsOfNone(past, g); }
    }
  }

  // ---------------------------------------------------------------- scanning

  // The patterns at one offset with lengths from lo up to hi, as the inner loop meets them.
  function VisitsAt(p: Packet, i: nat, lo: nat, hi: nat): (vs: seq<Visit>) {
    if hi <= lo then [] else VisitsAt(p, i, lo, hi - 1) + VisitAt(p, i, hi - 1)
  }

  function VisitAt(p: Packet, i: nat, n: nat): (vs: seq<Visit>) {
    if i + n < |p.payload| then [Visit(p.payload[i..i + n], p.flow, p.id)] else []
  }

  function VisitsBefore(cfg: Config, p: Packet, k: nat): (vs: seq<Visit>) {
    if k == 0 then [] else VisitsBefore(cfg, p, k - 1) + VisitsAt(p, k - 1, cfg.minLen, cfg.maxLen + 1)
  }

  function ScanLen(cfg: Config, p: Packet): (n: nat) {
    if cfg.maxDissection < |p.payload| then cfg.maxDissection else |p.payload|
  }

  predicate Analysed(cfg: Config, p: Packet) { p.flowPackets <= cfg.maxPackets }

  // ndpi_payload_analyzer.
  function VisitsOf(cfg: Config, p: Packet): (vs: seq<Visit>) {
    if Analysed(cfg, p) then VisitsBefore(cfg, p, ScanLen(cfg, p)) else []
  }

  function Feed(cfg: Config, ps: seq<Packet>): (vs: seq<Visit>) {
    if ps == [] then [] else Feed(cfg, ps[..|ps| - 1]) + VisitsOf(cfg, ps[|ps| - 1])
  }

  // ---------------------------------------------------------------- occurrences

  // The pattern stands at offset i, and the payload goes on behind it.
  predicate Stands(payload: seq<byte>, i: nat, g: Gram) { i + |g| < |payload| && payload[i..i + |g|] == g }

  predicate Occurs(cfg: Config, payload: seq<byte>, i: nat, g: Gram) {
    cfg.minLen <= |g| <= cfg.maxLen && Stands(payload, i, g)
  }

  function Offsets(cfg: Config, payload: seq<byte>, g: Gram, k: nat): (n: nat) {
    if k == 0 then 0 else Offsets(cfg, payload, g, k - 1) + if Occurs(cfg, payload, k - 1, g) then 1 else 0
  }

  // Positions of the pattern in one packet and in all.
  function PositionsIn(cfg: Config, p: Packet, g: Gram): (n: nat) {
    if Analysed(cfg, p) then Offsets(cfg, p.payload, g, ScanLen(cfg, p)) else 0
  }

  function Positions(cfg: Config, ps: seq<Packet>, g: Gram): (n: nat) {
    if ps == [] then 0 else Positions(cfg, ps[..|ps| - 1], g) + PositionsIn(cfg, ps[|ps| - 1], g)
  }

  lemma {:induction false} TallyAppends(a: seq<Visit>, b: seq<Visit>, g: Gram)
    ensures Tally(a + b, g) == Tally(a, g) + Tally(b, g)
    decreases |b|
  {
    if b == [] {
      assert a + b == a;
    } else {
      TallyAppends(a, b[..|b| - 1], g);
      assert (a + b)[..|a + b| - 1] == a + b[..|b| - 1];
    }
  }

  lemma TallyOne(p: Packet, i: nat, n: nat, g: Gram)
    ensures Tally(VisitAt(p, i, n), g) == if |g| == n && Stands(p.payload, i, g) then 1 else 0
  {
    if i + n < |p.payload| {
      var v := Visit(p.payload[i..i + n], p.flow, p.id);
      assert [v][..0] == [];
      assert VisitAt(p, i, n) == [v];
      assert Tally([v], g) == if v.gram == g then 1 else 0;
    }
  }

  // Any additive count that sees one visit per length sees it once among all lengths.
  lemma {:induction false} CountAt(count: seq<Visit> -> nat, p: Packet, i: nat, lo: nat, hi: nat, len: nat, stands: bool)
    requires count([]) == 0 && forall a, b :: count(a + b) == count(a) + count(b)
    requires forall n :: count(VisitAt(p, i, n)) == if len == n && stands then 1 else 0
    ensures count(VisitsAt(p, i, lo, hi)) == if lo <= len < hi && stands then 1 else 0
  {
    if lo < hi { CountAt(count, p, i, lo, hi - 1, len, stands); }
  }

  lemma TallyAt(p: Packet, i: nat, lo: nat, hi: nat, g: Gram)
    ensures Tally(VisitsAt(p, i, lo, hi), g) == if lo <= |g| < hi && Stands(p.payload, i, g) then 1 else 0
  {
    var count := (vs: seq<Visit>) => Tally(vs, g);
    forall a, b ensures count(a + b) == count(a) + count(b) { TallyAppends(a, b, g); }
    forall n: nat ensures count(VisitAt(p, i, n)) == if |g| == n && Stands(p.payload, i, g) then 1 else 0 {
      TallyOne(p, i, n, g);
    }
    CountAt(count, p, i, lo, hi, |g|, Stands(p.payload, i, g));
  }

  lemma {:induction false} TallyBefore(cfg: Config, p: Packet, k: nat, g: Gram)
    ensures Tally(VisitsBefore(cfg, p, k), g) == Offsets(cfg, p.payload, g, k)
  {
    if k > 0 {
      TallyBefore(cfg, p, k - 1, g);
      TallyAt(p, k - 1, cfg.minLen, cfg.maxLen + 1, g);
      TallyAppends(VisitsBefore(cfg, p, k - 1), VisitsAt(p, k - 1, cfg.minLen, cfg.maxLen + 1), g);
    }
  }

  lemma {:induction false} TallyFeed(cfg: Config, ps: seq<Packet>, g: Gram)
    ensures Tally(Feed(cfg, ps), g) == Positions(cfg, ps, g)
  {
    if ps != [] {
      var past, p := ps[..|ps| - 1], ps[|ps| - 1];
      TallyFeed(cfg, past, g);
      TallyBefore(cfg, p, ScanLen(cfg, p), g);
      TallyAppends(Feed(cfg, past), VisitsOf(cfg, p), g);
    }
  }

  // Every visit carries the flow and the number of the packet it comes from.
  lemma {:induction false} VisitsAtCarry(p: Packet, i: nat, lo: nat, hi: nat)
    ensures forall v | v in VisitsAt(p, i, lo, hi) :: v.flow == p.flow && v.packet == p.id
  {
    if lo < hi { VisitsAtCarry(p, i, lo, hi - 1); }
  }

  lemma {:induction false} VisitsCarry(cfg: Config, p: Packet, k: nat)
    ensures forall v | v in VisitsBefore(cfg, p, k) :: v.flow == p.flow && v.packet == p.id
  {
    if k > 0 {
      VisitsCarry(cfg, p, k - 1);
      VisitsAtCarry(p, k - 1, cfg.minLen, cfg.maxLen + 1);
    }
  }

  // A tally is positive exactly when there is such a visit.
  lemma {:induction false} Visited(vs: seq<Visit>, g: Gram)
    ensures Tally(vs, g) > 0 <==> exists v :: v in vs && v.gram == g
  {
    if vs != [] {
      var past, v := vs[..|vs| - 1], vs[|vs| - 1];
      Visited(past, g);
      assert forall x :: x in vs <==> x in past || x == v;
    }
  }

  lemma PacketContributes(cfg: Config, p: Packet, g: Gram)
    ensures FlowsOf(VisitsOf(cfg, p), g) == if PositionsIn(cfg, p, g) > 0 then {p.flow} else {}
    ensures PacketsOf(VisitsOf(cfg, p), g) == if PositionsIn(cfg, p, g) > 0 then {p.id} else {}
  {
    VisitsCarry(cfg, p, ScanLen(cfg, p));
    TallyBefore(cfg, p, ScanLen(cfg, p), g);
    Visited(VisitsOf(cfg, p), g);
  }

  // The flows and the packets that have a position.
  function ContributingFlows(cfg: Config, ps: seq<Packet>, g: Gram): (s: set<U32>) {
    set p | p in ps && PositionsIn(cfg, p, g) > 0 :: p.flow
  }

  function ContributingPackets(cfg: Config, ps: seq<Packet>, g: Gram): (s: set<U32>) {
    set p | p in ps && PositionsIn(cfg, p, g) > 0 :: p.id
  }

  lemma SetsAppend(a: seq<Visit>, b: seq<Visit>, g: Gram)
    ensures FlowsOf(a + b, g) == FlowsOf(a, g) + FlowsOf(b, g)
    ensures PacketsOf(a + b, g) == PacketsOf(a, g) + PacketsOf(b, g)
  {
    assert forall x :: x in a + b <==> x in a || x in b;
  }

  lemma {:induction false} FeedContributes(cfg: Config, ps: seq<Packet>, g: Gram)
    ensures FlowsOf(Feed(cfg, ps), g) == ContributingFlows(cfg, ps, g)
    ensures PacketsOf(Feed(cfg, ps), g) == ContributingPackets(cfg, ps, g)
  {
    if ps != [] {
      var past, p := ps[..|ps| - 1], ps[|ps| - 1];
      FeedContributes(cfg, past, g);
      PacketContributes(cfg, p, g);
      SetsAppend(Feed(cfg, past), VisitsOf(cfg, p), g);
      ContributionGrows(cfg, ps, g);
    }
  }

  lemma ContributionGrows(cfg: Config, ps: seq<Packet>, g: Gram)
    requires ps != []
    ensures var past, p := ps[..|ps| - 1], ps[|ps| - 1];
            var yes := PositionsIn(cfg, p, g) > 0;
            && ContributingFlows(cfg, ps, g) == ContributingFlows(cfg, past, g) + (if yes then {p.flow} else {})
            && ContributingPackets(cfg, ps, g) == ContributingPackets(cfg, past, g) + (if yes then {p.id} else {})
  {
    assert forall x :: x in ps <==> x in ps[..|ps| - 1] || x == ps[|ps| - 1];
  }

  // After any run: the count of a pattern is its number of positions (modulo the 16-bit counter),
  // and its flows and packets are exactly those that have one.
  lemma PatternsAreExact(cfg: Config, ps: seq<Packet>, g: Gram)
    ensures var stats := RecordAll(Feed(cfg, ps));
            if g in stats then
              && Positions(cfg, ps, g) > 0 && stats[g].occurrences == Trunc16(Positions(cfg, ps, g))
              && stats[g].flows == ContributingFlows(cfg, ps, g)
              && stats[g].packets == ContributingPackets(cfg, ps, g)
            else Positions(cfg, ps, g) == 0
  {
    RecordIsExact(Feed(cfg, ps), g);
    TallyFeed(cfg, ps, g);
    FeedContributes(cfg, ps, g);
  }

  // ---------------------------------------------------------------- the table in place

  class Analyzer {
    var pstats: Stats
    ghost var log: seq<Visit>

    // The table is what the visits so far amount to.
    ghost predicate Valid()
      reads this
    {
      pstats == RecordAll(log)
    }

    constructor ()
      ensures Valid() && log == []
    {
      pstats, log := map[], [];
    }

    method AnalyzePayload(v: Visit)
      requires Valid()
      modifies this
      ensures Valid() && log == old(log) + [v]
    {
      RecordNext(log, v);
      log := log + [v];
      if v.gram !in pstats {
        pstats := pstats[v.gram := Pattern(1, {}, {})];
      } else {
        var found := pstats[v.gram];
        pstats := pstats[v.gram := found.(occurrences := Trunc16(found.occurrences + 1))];
      }
      var ret := pstats[v.gram];
      ghost var found := ret;
      if v.flow !in ret.flows {
        ret := ret.(flows := ret.flows + {v.flow});
      }
      if v.packet !in ret.packets {
        ret := ret.(packets := ret.packets + {v.packet});
      }
      assert ret.flows == found.flows + {v.flow} && ret.packets == found.packets + {v.packet};
      pstats := pstats[v.gram := ret];
    }

    // The body of the inner loop: one length at one offset.
    method ScanLength(p: Packet, i: nat, j: nat)
      requires Valid()
      modifies this
      ensures Valid() && log == old(log) + VisitAt(p, i, j)
    {
      if i + j < |p.payload| {
        AnalyzePayload(Visit(p.payload[i..i + j], p.flow, p.id));
      }
    }

    // The inner loop: every length at one offset.
    method ScanOffset(cfg: Config, p: Packet, i: nat)
      requires Valid()
      modifies this
      ensures Valid() && log == old(log) + VisitsAt(p, i, cfg.minLen, cfg.maxLen + 1)
    {
      var j := cfg.minLen;
      ghost var before, seen := log, [];
      while j <= cfg.maxLen
        invariant j <= cfg.maxLen + 1 || j == cfg.minLen
        invariant Valid() && log == before + seen && seen == VisitsAt(p, i, cfg.minLen, j)
      {
        ScanLength(p, i, j);
        Grouped(before, seen, VisitAt(p, i, j));
        NextLength(p, i, cfg.minLen, j);
        seen := seen + VisitAt(p, i, j);
        j := j + 1;
      }
      NoLength(p, i, cfg.minLen, cfg.maxLen + 1);
    }

    method PayloadAnalyzer(cfg: Config, p: Packet)
      requires Valid()
      modifies this
      ensures Valid() && log == old(log) + VisitsOf(cfg, p)
    {
      var scanLen := if cfg.maxDissection < |p.payload| then cfg.maxDissection else |p.payload|;
      if p.flowPackets > cfg.maxPackets { return; }
      var i := 0;
      ghost var before := log;
      while i < scanLen
        invariant 0 <= i <= scanLen
        invariant Valid() && log == before + VisitsBefore(cfg, p, i)
      {
        ScanOffset(cfg, p, i);
        Grouped(before, VisitsBefore(cfg, p, i), VisitsAt(p, i, cfg.minLen, cfg.maxLen + 1));
        i := i + 1;
      }
    }
  }

  lemma NextLength(p: Packet, i: nat, lo: nat, j: nat)
    requires lo <= j
    ensures VisitsAt(p, i, lo, j + 1) == VisitsAt(p, i, lo, j) + VisitAt(p, i, j)
  {
  }

  lemma NoLength(p: Packet, i: nat, lo: nat, hi: nat)
    ensures hi <= lo ==> VisitsAt(p, i, lo, hi) == VisitsAt(p, i, lo, lo)
  {
  }

  lemma Grouped(a: seq<Visit>, b: seq<Visit>, c: seq<Visit>)
    ensures (a + b) + c == a + (b + c)
  {
  }
}
