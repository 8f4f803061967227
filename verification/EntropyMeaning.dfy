/** What the entropy statistics of a window say about the octets that crossed it. */
module EntropyMeaning {
  import opened Octets
  import opened ByteStats
  import opened Entropy
  import Transport

  // The payload octets of one direction, in order.
  function Bytes(w: seq<Packet>, forward: bool): (bs: seq<byte>) {
    if w == [] then []
    else
      var past, p := w[..|w| - 1], w[|w| - 1];
      Bytes(past, forward) + if p.forward == forward then p.payload else []
  }

  function Prefix(bs: seq<byte>): (r: seq<byte>) {
    if |bs| <= ETTA_MIN_OCTETS then bs else bs[..ETTA_MIN_OCTETS]
  }

  // ---------------------------------------------------------------- mean and variance

  lemma {:induction false} SideMoments(w: seq<Packet>, forward: bool)
    ensures SideOf(w, forward).moments == ObserveAll(NONE, Bytes(w, forward))
  {
    if w != [] {
      var past, p := w[..|w| - 1], w[|w| - 1];
      SideMoments(past, forward);
      if p.forward == forward {
        ObserveSplits(NONE, Bytes(past, forward), p.payload);
      } else {
        assert Bytes(w, forward) == Bytes(past, forward);
      }
    }
  }

  // Whatever the split into packets: mean, squared deviations and the mean of both directions.
  lemma WindowMoments(w: seq<Packet>)
    ensures Exact(Bytes(w, true), SideOf(w, true).moments) && Exact(Bytes(w, false), SideOf(w, false).moments)
    ensures var both := Bytes(w, true) + Bytes(w, false);
            both != [] ==> BothMeans(SideOf(w, true).moments, SideOf(w, false).moments) == Sum(both) / |both| as real
  {
    SideMoments(w, true);
    SideMoments(w, false);
    WelfordIsExact(Bytes(w, true));
    WelfordIsExact(Bytes(w, false));
    if Bytes(w, true) + Bytes(w, false) != [] {
      BothMeansIsMean(Bytes(w, true), Bytes(w, false), SideOf(w, true).moments, SideOf(w, false).moments);
    }
  }

  // ---------------------------------------------------------------- histogram

  // The data length is the payload, as for UDP.
  predicate Plain(p: Packet) { p.dataLen == |p.payload| <= 0xFFFF }

  // The data length covers the payload, as for TCP with a data offset of at least 5.
  predicate Covered(p: Packet) { |p.payload| <= p.dataLen <= 0xFFFF }

  // A packet as the transport parser hands it over.
  function Parsed(proto: byte, l4: seq<byte>, forward: bool, when: nat): (p: Packet)
    requires |l4| <= 0xFFFF
  {
    Packet(forward, Transport.Split(proto, l4).dataLen, Transport.Payload(proto, l4), when)
  }

  // UDP packets are plain; a TCP packet is covered exactly when its data offset is at least 5.
  lemma ParsedPackets(proto: byte, l4: seq<byte>, forward: bool, when: nat)
    requires |l4| <= 0xFFFF
    ensures var p := Parsed(proto, l4, forward, when);
            && p.dataLen != 0xFEEDFACE
            && (proto == Transport.UDP ==> Plain(p))
            && (proto == Transport.TCP && |l4| >= 20 ==> (Covered(p) <==> l4[12] / 16 >= 5))
  {
    Transport.DataLenCoversPayload(proto, l4);
  }

  // The histogram counts exactly the octets of a sample.
  ghost predicate Counts(hist: seq<nat>, bs: seq<byte>) {
    |hist| == 256 && forall v: byte :: hist[v] == Freq(bs, v)
  }

  lemma TallyCounts(hist: seq<nat>, a: seq<byte>, b: seq<byte>)
    requires Counts(hist, a)
    ensures Counts(Tally(hist, b), a + b)
  {
    forall v: byte ensures Tally(hist, b)[v] == Freq(a + b, v) {
      FreqAppends(a, b, v);
    }
  }

  // The sample grows by what is still wanted of the payload.
  lemma PrefixGrows(bs: seq<byte>, payload: seq<byte>)
    requires |bs| < 0x1_0000_0000
    ensures Prefix(bs + payload) == Prefix(bs) + Sampled(payload, |bs|)
  {
  }

  lemma {:induction false} PlainSide(w: seq<Packet>, forward: bool)
    requires |w| <= MAX_NUM_PKTS && forall p | p in w :: Plain(p)
    ensures var s, bs := SideOf(w, forward), Bytes(w, forward);
            s.l4Bytes == |bs| <= |w| * 0xFFFF && Counts(s.byteCount, Prefix(bs))
  {
    if w != [] {
      var past, p := w[..|w| - 1], w[|w| - 1];
      PlainSide(past, forward);
      var s, bs := SideOf(past, forward), Bytes(past, forward);
      if p.forward == forward {
        assert Plain(p);
        PlainStep(s, bs, p);
      } else {
        assert Bytes(w, forward) == bs;
      }
    }
  }

  lemma PlainStep(s: Side, bs: seq<byte>, p: Packet)
    requires Sized(s) && s.pktCount < MAX_NUM_PKTS && Plain(p)
    requires s.l4Bytes == |bs| <= 0xF_FFFF && Counts(s.byteCount, Prefix(bs))
    ensures var r := Absorb(Note(s, p.dataLen, MAX_NUM_PKTS), p.payload);
            r.l4Bytes == |bs + p.payload| && Counts(r.byteCount, Prefix(bs + p.payload))
  {
    PrefixGrows(bs, p.payload);
    TallyCounts(s.byteCount, Prefix(bs), Sampled(p.payload, |bs|));
  }

  lemma {:induction false} CoveredSide(w: seq<Packet>, forward: bool)
    requires |w| <= MAX_NUM_PKTS && forall p | p in w :: Covered(p)
    ensures var s := SideOf(w, forward);
            s.l4Bytes <= |w| * 0xFFFF && Total(s.byteCount) <= s.l4Bytes && Total(s.byteCount) <= ETTA_MIN_OCTETS
  {
    if w == [] {
      ZerosTotal(256);
    } else {
      var past, p := w[..|w| - 1], w[|w| - 1];
      CoveredSide(past, forward);
      if p.forward == forward {
        assert Covered(p);
        CoveredStep(SideOf(past, forward), p);
      }
    }
  }

  lemma CoveredStep(s: Side, p: Packet)
    requires Sized(s) && s.pktCount < MAX_NUM_PKTS && Covered(p)
    requires s.l4Bytes <= 0xF_FFFF && Total(s.byteCount) <= s.l4Bytes && Total(s.byteCount) <= ETTA_MIN_OCTETS
    ensures var r := Absorb(Note(s, p.dataLen, MAX_NUM_PKTS), p.payload);
            && r.l4Bytes == s.l4Bytes + p.dataLen
            && Total(r.byteCount) <= r.l4Bytes && Total(r.byteCount) <= ETTA_MIN_OCTETS
  {
    AbsorbTotals(s, p);
    var current: U32 := s.l4Bytes + p.dataLen - |p.payload|;
    SampleFits(Total(s.byteCount), p.payload, current);
  }

  // Octets counted so far never outnumber those that went before.
  lemma SampleFits(total: nat, payload: seq<byte>, current: U32)
    requires total <= current && total <= ETTA_MIN_OCTETS
    ensures total + |Sampled(payload, current)| <= ETTA_MIN_OCTETS
    ensures total + |Sampled(payload, current)| <= current + |payload|
  {
  }

  // What one packet adds to the histogram of its direction.
  lemma AbsorbTotals(s: Side, p: Packet)
    requires Sized(s) && s.pktCount < MAX_NUM_PKTS
    ensures var r, l4Bytes := Absorb(Note(s, p.dataLen, MAX_NUM_PKTS), p.payload), Trunc32(s.l4Bytes + p.dataLen);
            && r.l4Bytes == l4Bytes && r.pktCount == s.pktCount + 1
            && Total(r.byteCount) == Total(s.byteCount) + |Sampled(p.payload, Trunc32(l4Bytes - |p.payload|))|
  {
    TallyTotals(s.byteCount, Sampled(p.payload, Trunc32(Trunc32(s.l4Bytes + p.dataLen) - |p.payload|)));
  }

  lemma {:induction false} ZerosTotal(n: nat)
    ensures Total(Zeros(n)) == 0
  {
    if n > 0 {
      ZerosTotal(n - 1);
      assert Zeros(n)[..n - 1] == Zeros(n - 1);
    }
  }

  // ---------------------------------------------------------------- flows

  // Every run: both the current and the last full window report the true mean, the true sum of
  // squared deviations and the true mean of both directions.
  lemma FlowMoments(ps: seq<Packet>, max: nat) returns (w: seq<Packet>, last: seq<Packet>)
    requires 1 <= max <= MAX_NUM_PKTS && Wellformed(ps) && (ps != [] ==> ps[0].dataLen != 0xFEEDFACE)
    ensures |w| == |ps| % max && |w| <= |ps| && w == ps[|ps| - |w|..]
    ensures if |w| == |ps| then last == []
            else |w| + max <= |ps| && last == ps[|ps| - |w| - max..|ps| - |w|]
    ensures var f := Run(ps, max);
            && Exact(Bytes(w, true), f.src2dst.moments) && Exact(Bytes(w, false), f.dst2src.moments)
            && Exact(Bytes(last, true), f.lastSrc2dst.moments) && Exact(Bytes(last, false), f.lastDst2src.moments)
    ensures var f, both := Run(ps, max), Bytes(last, true) + Bytes(last, false);
            f.lastSrc2dst.moments.n + f.lastDst2src.moments.n != 0 ==>
              both != [] && BothMeans(f.lastSrc2dst.moments, f.lastDst2src.moments) == Sum(both) / |both| as real
  {
    w, last := StatsAreOfTheWindow(ps, max);
    WindowMoments(w);
    WindowMoments(last);
  }

  // UDP: each histogram, of the current window and of the copy that is reported, is the byte
  // frequency of the first octets of its window, at most 4000.
  lemma UdpHistogram(ps: seq<Packet>, max: nat) returns (w: seq<Packet>, last: seq<Packet>)
    requires 1 <= max <= MAX_NUM_PKTS && Wellformed(ps) && forall p | p in ps :: Plain(p)
    ensures |w| == |ps| % max && |w| <= |ps| && w == ps[|ps| - |w|..]
    ensures if |w| == |ps| then last == []
            else |w| + max <= |ps| && last == ps[|ps| - |w| - max..|ps| - |w|]
    ensures var f := Run(ps, max);
            && Counts(f.src2dst.byteCount, Prefix(Bytes(w, true)))
            && Counts(f.dst2src.byteCount, Prefix(Bytes(w, false)))
            && Counts(f.lastSrc2dst.byteCount, Prefix(Bytes(last, true)))
            && Counts(f.lastDst2src.byteCount, Prefix(Bytes(last, false)))
  {
    assert ps != [] ==> Plain(ps[0]);
    w, last := StatsAreOfTheWindow(ps, max);
    PlainSide(w, true);
    PlainSide(w, false);
    PlainSide(last, true);
    PlainSide(last, false);
  }

  // No histogram holds more than 4000 octets, neither of the current window nor of the copy.
  ghost predicate Bounded(f: FlowStats) {
    && Total(f.src2dst.byteCount) <= ETTA_MIN_OCTETS && Total(f.dst2src.byteCount) <= ETTA_MIN_OCTETS
    && Total(f.lastSrc2dst.byteCount) <= ETTA_MIN_OCTETS && Total(f.lastDst2src.byteCount) <= ETTA_MIN_OCTETS
  }

  lemma TcpHistogramBounded(ps: seq<Packet>, max: nat)
    requires 1 <= max <= MAX_NUM_PKTS && Wellformed(ps) && forall p | p in ps :: Covered(p)
    ensures Bounded(Run(ps, max))
  {
    assert ps != [] ==> Covered(ps[0]);
    var w, last := StatsAreOfTheWindow(ps, max);
    CoveredSide(w, true);
    CoveredSide(w, false);
    CoveredSide(last, true);
    CoveredSide(last, false);
  }
}
