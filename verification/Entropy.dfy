/** The per-flow entropy window: statistics of at most ten packets, copied aside and cleared
    when the window is full. */
module Entropy {
  import opened Octets
  import opened ByteStats

  const MAX_NUM_PKTS := 10

  // A packet of the flow: its direction, the lengths found by the transport parser, its time.
  datatype Packet = Packet(forward: bool, dataLen: U32, payload: seq<byte>, when: nat)

  // One direction of struct ndpi_entropy.
  datatype Side = Side(pktCount: nat, pktLen: seq<nat>, l4Bytes: U32, byteCount: seq<nat>, moments: Moments)

  function Zeros(n: nat): (z: seq<nat>)
    ensures |z| == n && forall i | 0 <= i < n :: z[i] == 0
  {
    seq(n, _ => 0)
  }

  const CLEAR := Side(0, Zeros(MAX_NUM_PKTS), 0, Zeros(256), NONE)

  predicate Sized(s: Side) { |s.pktLen| == MAX_NUM_PKTS && |s.byteCount| == 256 }

  // Both directions, the copy of the last full window, packet counters and reference times.
  datatype FlowStats = FlowStats(src2dst: Side, dst2src: Side, lastSrc2dst: Side, lastDst2src: Side,
                                 src2dstPackets: nat, dst2srcPackets: nat,
                                 src2dstTime: nat, dst2srcTime: nat, flowTime: nat)

  const NEW_FLOW := FlowStats(CLEAR, CLEAR, CLEAR, CLEAR, 0, 0, 0, 0, 0)

  // ---------------------------------------------------------------- one packet

  // get_ndpi_flow_info on a known flow.
  function Note(s: Side, dataLen: U32, max: nat): (r: Side)
    requires s.pktCount < max ==> s.pktCount < |s.pktLen|
  {
    if s.pktCount < max then
      s.(pktCount := s.pktCount + 1, pktLen := s.pktLen[s.pktCount := Trunc16(dataLen)],
         l4Bytes := Trunc32(s.l4Bytes + dataLen))
    else s
  }

  // The same for the packet that creates the flow.
  function NoteFirst(s: Side, dataLen: U32): (r: Side)
    requires s.pktCount < |s.pktLen|
  {
    s.(pktCount := s.pktCount + 1, pktLen := s.pktLen[s.pktCount := Trunc16(dataLen)],
       l4Bytes := if dataLen != 0xFEEDFACE && dataLen != 0 then Trunc32(s.l4Bytes + dataLen) else s.l4Bytes)
  }

  // ndpi_flow_update_byte_count: the data length was added before, so the octets that went
  // before are what is left without this payload.
  function CountBytes(s: Side, payload: seq<byte>): (r: Side)
    requires |s.byteCount| == 256
  {
    var bs := Sampled(payload, Trunc32(s.l4Bytes - |payload|));
    Side(s.pktCount, s.pktLen, s.l4Bytes, Tally(s.byteCount, bs), s.moments)
  }

  // ... and ndpi_flow_update_byte_dist_mean_var.
  function Absorb(s: Side, payload: seq<byte>): (r: Side)
    requires |s.byteCount| == 256
  {
    var c := CountBytes(s, payload);
    Side(c.pktCount, c.pktLen, c.l4Bytes, c.byteCount, ObserveAll(c.moments, payload))
  }

  function PktCount(f: FlowStats): (n: nat) { f.src2dst.pktCount + f.dst2src.pktCount }
  function Packets(f: FlowStats): (n: nat) { f.src2dstPackets + f.dst2srcPackets }

  predicate Ready(f: FlowStats, max: nat) {
    1 <= max <= MAX_NUM_PKTS && Sized(f.src2dst) && Sized(f.dst2src) && PktCount(f) < max
  }

  function Noted(f: FlowStats, p: Packet, max: nat, known: bool): (r: FlowStats)
    requires Ready(f, max)
  {
    if !known then f.(src2dst := NoteFirst(f.src2dst, p.dataLen))
    else if p.forward then f.(src2dst := Note(f.src2dst, p.dataLen, max))
    else f.(dst2src := Note(f.dst2src, p.dataLen, max))
  }

  function Counted(f: FlowStats, p: Packet): (r: FlowStats) {
    if p.forward then f.(src2dstPackets := f.src2dstPackets + 1, src2dstTime := p.when, flowTime := p.when)
    else f.(dst2srcPackets := f.dst2srcPackets + 1, dst2srcTime := p.when, flowTime := p.when)
  }

  function Absorbed(f: FlowStats, p: Packet, max: nat): (r: FlowStats)
    requires Sized(f.src2dst) && Sized(f.dst2src)
  {
    if PktCount(f) > max then f
    else if p.forward then f.(src2dst := Absorb(f.src2dst, p.payload))
    else f.(dst2src := Absorb(f.dst2src, p.payload))
  }

  predicate ClearsEntropy(f: FlowStats, max: nat) { PktCount(f) == max }

  // ndpi_clear_entropy_stats.
  function Cleared(f: FlowStats, max: nat): (r: FlowStats) {
    if ClearsEntropy(f, max) then
      f.(lastSrc2dst := f.src2dst, lastDst2src := f.dst2src, src2dst := CLEAR, dst2src := CLEAR)
    else f
  }

  predicate ResetsTimes(f: FlowStats, max: nat)
    requires max > 0
  {
    Packets(f) % max == 0
  }

  function Rewound(f: FlowStats, max: nat): (r: FlowStats)
    requires max > 0
  {
    if ResetsTimes(f, max) then f.(src2dstTime := 0, dst2srcTime := 0, flowTime := 0) else f
  }

  // The packet once noted, counted and absorbed, before the window is looked at.
  function Taken(f: FlowStats, p: Packet, max: nat, known: bool): (r: FlowStats)
    requires Ready(f, max)
  {
    Absorbed(Counted(Noted(f, p, max, known), p), p, max)
  }

  // packet_processing, as far as these fields go.
  function Arrive(f: FlowStats, p: Packet, max: nat, known: bool): (r: FlowStats)
    requires Ready(f, max)
  {
    Rewound(Cleared(Taken(f, p, max, known), max), max)
  }

  // ---------------------------------------------------------------- every run

  // Between packets the window holds (packets mod max) of them.
  ghost predicate InStep(f: FlowStats, n: nat, max: nat) {
    Ready(f, max) && Packets(f) == n && PktCount(f) == n % max
  }

  lemma TakenCounts(f: FlowStats, p: Packet, max: nat, known: bool)
    requires Ready(f, max) && (known || p.forward)
    ensures var t := Taken(f, p, max, known);
            && Sized(t.src2dst) && Sized(t.dst2src)
            && PktCount(t) == PktCount(f) + 1 && Packets(t) == Packets(f) + 1
            && t.lastSrc2dst == f.lastSrc2dst && t.lastDst2src == f.lastDst2src
  {
  }

  lemma Multiple(k: int, m: int)
    requires k >= 1 && m >= 0
    ensures k * m >= m
  {
  }

  lemma Times(a: int, b: int, m: int)
    ensures (a - b) * m == a * m - b * m
  {
  }

  lemma SameQuotient(q: int, r: int, d: int, e: int, max: int)
    requires 0 <= r < max && 0 <= e < max && q * max + r == d * max + e
    ensures r == e
  {
    Times(q, d, max);
    Times(d, q, max);
    if q > d {
      Multiple(q - d, max);
    } else if q < d {
      Multiple(d - q, max);
    }
  }

  lemma RemainderIs(n: nat, q: nat, r: nat, max: nat)
    requires r < max && n == q * max + r
    ensures n % max == r
  {
    var d, e := n / max, n % max;
    SameQuotient(q, r, d, e, max);
  }

  lemma ModStep(n: nat, max: nat)
    requires max > 0
    ensures (n + 1) % max == if n % max + 1 == max then 0 else n % max + 1
  {
    var q, r := n / max, n % max;
    if r + 1 == max {
      assert (q + 1) * max == q * max + max;
      RemainderIs(n + 1, q + 1, 0, max);
    } else {
      RemainderIs(n + 1, q, r + 1, max);
    }
  }

  // A packet clears the entropy exactly when it resets the reference times.
  lemma ResetsCoincide(f: FlowStats, n: nat, p: Packet, max: nat, known: bool)
    requires InStep(f, n, max) && (known || p.forward)
    ensures var t := Taken(f, p, max, known);
            (ClearsEntropy(t, max) <==> ResetsTimes(t, max)) && (ClearsEntropy(t, max) <==> (n + 1) % max == 0)
    ensures InStep(Arrive(f, p, max, known), n + 1, max)
  {
    TakenCounts(f, p, max, known);
    ModStep(n, max);
  }

  predicate Wellformed(ps: seq<Packet>) { ps != [] ==> ps[0].forward }

  function Run(ps: seq<Packet>, max: nat): (f: FlowStats)
    requires 1 <= max <= MAX_NUM_PKTS && Wellformed(ps)
    ensures InStep(f, |ps|, max)
  {
    if ps == [] then NEW_FLOW
    else
      var past, p := ps[..|ps| - 1], ps[|ps| - 1];
      var f := Run(past, max);
      ResetsCoincide(f, |past|, p, max, |ps| > 1);
      Arrive(f, p, max, |ps| > 1)
  }

  // ---------------------------------------------------------------- the window

  // What one direction holds after the packets of a window, from a clear start.
  function SideOf(w: seq<Packet>, forward: bool): (s: Side)
    ensures Sized(s) && s.pktCount <= |w|
  {
    if w == [] then CLEAR
    else
      var past, p := w[..|w| - 1], w[|w| - 1];
      var s := SideOf(past, forward);
      if p.forward == forward then Absorb(Note(s, p.dataLen, MAX_NUM_PKTS), p.payload) else s
  }

  lemma SideGrows(w: seq<Packet>, p: Packet, forward: bool)
    ensures var s := SideOf(w, forward);
            SideOf(w + [p], forward)
            == if p.forward == forward then Absorb(Note(s, p.dataLen, MAX_NUM_PKTS), p.payload) else s
  {
    assert (w + [p])[..|w + [p]| - 1] == w;
  }

  // Within the window the bound on a direction does not show, nor what is special about a new flow.
  lemma NoteIsNote(s: Side, dataLen: U32, max: nat)
    requires s.pktCount < max <= MAX_NUM_PKTS && Sized(s)
    ensures Note(s, dataLen, max) == Note(s, dataLen, MAX_NUM_PKTS)
    ensures dataLen != 0xFEEDFACE ==> NoteFirst(s, dataLen) == Note(s, dataLen, MAX_NUM_PKTS)
  {
  }

  // The direction of the packet grows, the other one is left alone.
  lemma TakenSides(f: FlowStats, p: Packet, max: nat, known: bool)
    requires Ready(f, max) && (known || (p.forward && p.dataLen != 0xFEEDFACE))
    ensures var t := Taken(f, p, max, known);
            && t.src2dst == (if p.forward then Absorb(Note(f.src2dst, p.dataLen, MAX_NUM_PKTS), p.payload) else f.src2dst)
            && t.dst2src == (if p.forward then f.dst2src else Absorb(Note(f.dst2src, p.dataLen, MAX_NUM_PKTS), p.payload))
  {
    TakenCounts(f, p, max, known);
    NoteIsNote(f.src2dst, p.dataLen, max);
    NoteIsNote(f.dst2src, p.dataLen, max);
  }

  // The statistics are those of the packets since the last reset, and the copy those of the
  // last full window, whatever came before.
  ghost predicate Windowed(side: (seq<Packet>, bool) -> Side, f: FlowStats, ps: seq<Packet>, max: nat) {
    && 1 <= max <= MAX_NUM_PKTS && PktCount(f) < max && PktCount(f) <= |ps|
    && var start := |ps| - PktCount(f);
       && f.src2dst == side(ps[start..], true) && f.dst2src == side(ps[start..], false)
       && if start == 0 then f.lastSrc2dst == f.lastDst2src == CLEAR
          else start >= max && f.lastSrc2dst == side(ps[start - max..start], true)
               && f.lastDst2src == side(ps[start - max..start], false)
  }

  lemma RewoundKeepsWindow(side: (seq<Packet>, bool) -> Side, f: FlowStats, ps: seq<Packet>, max: nat)
    requires Windowed(side, f, ps, max)
    ensures Windowed(side, Rewound(f, max), ps, max)
  {
  }

  // A packet taken into the window of those before it.
  ghost predicate Grown(side: (seq<Packet>, bool) -> Side, f: FlowStats, t: FlowStats, ps: seq<Packet>, p: Packet) {
    && PktCount(t) == PktCount(f) + 1 <= |ps| + 1 && t.lastSrc2dst == f.lastSrc2dst && t.lastDst2src == f.lastDst2src
    && var w := ps[|ps| - PktCount(f)..] + [p];
       t.src2dst == side(w, true) && t.dst2src == side(w, false)
  }

  lemma ClearKeepsWindow(side: (seq<Packet>, bool) -> Side, f: FlowStats, t: FlowStats, ps: seq<Packet>, p: Packet, max: nat)
    requires Windowed(side, f, ps, max) && side([], true) == side([], false) == CLEAR
    requires Grown(side, f, t, ps, p)
    ensures Windowed(side, Rewound(Cleared(t, max), max), ps + [p], max)
  {
    var start, all := |ps| - PktCount(f), ps + [p];
    assert all[start..] == ps[start..] + [p];
    if PktCount(t) == max {
      assert all[start..|all|] == all[start..];
      assert all[|all|..] == [];
    } else if start > 0 {
      assert all[start - max..start] == ps[start - max..start];
    }
    RewoundKeepsWindow(side, Cleared(t, max), ps + [p], max);
  }

  lemma TakenGrows(side: (seq<Packet>, bool) -> Side, f: FlowStats, w: seq<Packet>, p: Packet, max: nat, known: bool)
    requires side == SideOf
    requires Ready(f, max) && f.src2dst == side(w, true) && f.dst2src == side(w, false)
    requires known || (p.forward && p.dataLen != 0xFEEDFACE)
    ensures var t := Taken(f, p, max, known);
            t.src2dst == side(w + [p], true) && t.dst2src == side(w + [p], false)
  {
    TakenSides(f, p, max, known);
    SideGrows(w, p, true);
    SideGrows(w, p, false);
  }

  lemma ArriveKeepsWindow(side: (seq<Packet>, bool) -> Side, f: FlowStats, ps: seq<Packet>, p: Packet, max: nat, known: bool)
    requires side == SideOf && Ready(f, max) && Windowed(side, f, ps, max)
    requires known || (p.forward && p.dataLen != 0xFEEDFACE)
    ensures Windowed(side, Arrive(f, p, max, known), ps + [p], max)
  {
    TakenGrows(side, f, ps[|ps| - PktCount(f)..], p, max, known);
    TakenCounts(f, p, max, known);
    assert side([], true) == side([], false) == CLEAR;
    ClearKeepsWindow(side, f, Taken(f, p, max, known), ps, p, max);
  }

  lemma Whole(ps: seq<Packet>)
    requires ps != []
    ensures ps[..|ps| - 1] + [ps[|ps| - 1]] == ps
  {
  }

  lemma {:induction false} RunIsWindowed(side: (seq<Packet>, bool) -> Side, ps: seq<Packet>, max: nat)
    requires side == SideOf
    requires 1 <= max <= MAX_NUM_PKTS && Wellformed(ps) && (ps != [] ==> ps[0].dataLen != 0xFEEDFACE)
    ensures Windowed(side, Run(ps, max), ps, max)
  {
    if ps == [] {
      assert side([], true) == side([], false) == CLEAR;
    } else {
      RunIsWindowed(side, ps[..|ps| - 1], max);
      ArriveKeepsWindow(side, Run(ps[..|ps| - 1], max), ps[..|ps| - 1], ps[|ps| - 1], max, |ps| > 1);
      Whole(ps);
    }
  }

  lemma WindowsOf(side: (seq<Packet>, bool) -> Side, f: FlowStats, ps: seq<Packet>, max: nat)
    returns (w: seq<Packet>, last: seq<Packet>)
    requires Windowed(side, f, ps, max) && side([], true) == side([], false) == CLEAR
    ensures |w| == PktCount(f) && |w| <= |ps| && w == ps[|ps| - |w|..]
    ensures if |w| == |ps| then last == []
            else |w| + max <= |ps| && last == ps[|ps| - |w| - max..|ps| - |w|]
    ensures f.src2dst == side(w, true) && f.dst2src == side(w, false)
    ensures f.lastSrc2dst == side(last, true) && f.lastDst2src == side(last, false)
  {
    var start := |ps| - PktCount(f);
    w := ps[start..];
    last := if start == 0 then [] else ps[start - max..start];
  }

  // The current window is the last (packets mod max) packets, the copy the max packets before.
  lemma StatsAreOfTheWindow(ps: seq<Packet>, max: nat) returns (w: seq<Packet>, last: seq<Packet>)
    requires 1 <= max <= MAX_NUM_PKTS && Wellformed(ps) && (ps != [] ==> ps[0].dataLen != 0xFEEDFACE)
    ensures |w| == |ps| % max && |w| <= |ps| && w == ps[|ps| - |w|..]
    ensures if |w| == |ps| then last == []
            else |w| + max <= |ps| && last == ps[|ps| - |w| - max..|ps| - |w|]
    ensures var f := Run(ps, max);
            && f.src2dst == SideOf(w, true) && f.dst2src == SideOf(w, false)
            && f.lastSrc2dst == SideOf(last, true) && f.lastDst2src == SideOf(last, false)
  {
    RunIsWindowed(SideOf, ps, max);
    w, last := WindowsOf(SideOf, Run(ps, max), ps, max);
  }
}
