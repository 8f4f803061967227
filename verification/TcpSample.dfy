/** When the octet sample of TCP flows stays within its 4000 octets: the exact set of data
    offsets for every window length. */
module TcpSample {
  import opened Octets
  import opened ByteStats
  import opened Entropy
  import opened EntropyMeaning
  import Transport

  // A TCP segment of the flow, as captured.
  datatype Segment = Segment(forward: bool, l4: seq<byte>, when: nat)

  predicate IsSegment(x: Segment) { 20 <= |x.l4| <= 0xFFFF }

  function Offset(x: Segment): (d: nat)
    requires IsSegment(x)
    ensures d < 16
  {
    x.l4[12] / 16
  }

  function PacketOf(x: Segment): (p: Packet)
    requires IsSegment(x)
  {
    Parsed(Transport.TCP, x.l4, x.forward, x.when)
  }

  function PacketsOf(xs: seq<Segment>): (ps: seq<Packet>)
    requires forall x | x in xs :: IsSegment(x)
    ensures |ps| == |xs| && forall i | 0 <= i < |xs| :: ps[i] == PacketOf(xs[i])
  {
    if xs == [] then [] else PacketsOf(xs[..|xs| - 1]) + [PacketOf(xs[|xs| - 1])]
  }

  // Segments of one flow with data offsets from a set.
  ghost predicate Stream(xs: seq<Segment>, offsets: set<nat>) {
    && (forall x | x in xs :: IsSegment(x) && Offset(x) in offsets) && (xs != [] ==> xs[0].forward)
  }

  ghost predicate StreamBounded(xs: seq<Segment>, max: nat)
    requires 1 <= max <= MAX_NUM_PKTS && (forall x | x in xs :: IsSegment(x)) && (xs != [] ==> xs[0].forward)
  {
    Bounded(Run(PacketsOf(xs), max))
  }

  // A window of one packet cannot overflow; in one of two, a short offset must be paid for by the
  // octets a long one leaves uncounted; longer windows need legal offsets.
  ghost predicate Safe(offsets: set<nat>, max: nat) {
    if max == 1 then true
    else if max == 2 then forall d, e | d in offsets && e in offsets && d < 5 <= e :: d + e >= 10
    else forall d | d in offsets :: d >= 5
  }

  // ---------------------------------------------------------------- lengths

  // The two lengths that matter of a packet.
  datatype Lens = Lens(data: U32, payload: nat)

  function SampleLen(n: nat, current: U32): (k: nat) {
    if current >= ETTA_MIN_OCTETS then 0
    else if n <= ETTA_MIN_OCTETS - current then n
    else ETTA_MIN_OCTETS - current
  }

  // Data octets seen and octets counted, and what one packet makes of them.
  datatype Tallied = Tallied(l4Bytes: U32, total: nat)

  function Next(t: Tallied, l: Lens): (r: Tallied) {
    var now := Trunc32(t.l4Bytes + l.data);
    Tallied(now, t.total + SampleLen(l.payload, Trunc32(now - l.payload)))
  }

  function Measure(next: (Tallied, Lens) -> Tallied, ls: seq<Lens>): (r: Tallied) {
    if ls == [] then Tallied(0, 0) else next(Measure(next, ls[..|ls| - 1]), ls[|ls| - 1])
  }

  function Told(s: Side): (t: Tallied) { Tallied(s.l4Bytes, Total(s.byteCount)) }

  function LensOf(w: seq<Packet>, forward: bool): (ls: seq<Lens>)
    ensures |ls| <= |w|
  {
    if w == [] then []
    else
      var past, p := w[..|w| - 1], w[|w| - 1];
      LensOf(past, forward) + if p.forward == forward then [Lens(p.dataLen, |p.payload|)] else []
  }

  lemma MeasureGrows(next: (Tallied, Lens) -> Tallied, ls: seq<Lens>, l: Lens)
    ensures Measure(next, ls + [l]) == next(Measure(next, ls), l)
  {
    assert (ls + [l])[..|ls + [l]| - 1] == ls;
  }

  // What one packet adds to its side.
  lemma AbsorbIsNext(s: Side, p: Packet)
    requires Sized(s) && s.pktCount < MAX_NUM_PKTS
    ensures Told(Absorb(Note(s, p.dataLen, MAX_NUM_PKTS), p.payload)) == Next(Told(s), Lens(p.dataLen, |p.payload|))
  {
    AbsorbTotals(s, p);
  }

  lemma SideNext(told: (seq<Packet>, bool) -> Tallied, next: (Tallied, Lens) -> Tallied, w: seq<Packet>, forward: bool)
    requires told == ((v, b) => Told(SideOf(v, b))) && next == Next && 0 < |w| <= MAX_NUM_PKTS
    ensures var past, p := w[..|w| - 1], w[|w| - 1];
            told(w, forward)
            == if p.forward == forward then next(told(past, forward), Lens(p.dataLen, |p.payload|)) else told(past, forward)
  {
    var past, p := w[..|w| - 1], w[|w| - 1];
    if p.forward == forward { AbsorbIsNext(SideOf(past, forward), p); }
  }

  lemma LensNext(w: seq<Packet>, forward: bool)
    requires w != []
    ensures var past, p := w[..|w| - 1], w[|w| - 1];
            LensOf(w, forward)
            == if p.forward == forward then LensOf(past, forward) + [Lens(p.dataLen, |p.payload|)] else LensOf(past, forward)
  {
  }

  // The histogram's total depends on the lengths alone.
  lemma {:induction false} SideIsMeasured(told: (seq<Packet>, bool) -> Tallied, next: (Tallied, Lens) -> Tallied,
                                          w: seq<Packet>, forward: bool)
    requires told == ((v, b) => Told(SideOf(v, b))) && next == Next && |w| <= MAX_NUM_PKTS
    ensures told(w, forward) == Measure(next, LensOf(w, forward))
  {
    if w == [] {
      ZerosTotal(256);
    } else {
      var past, p := w[..|w| - 1], w[|w| - 1];
      SideIsMeasured(told, next, past, forward);
      SideNext(told, next, w, forward);
      LensNext(w, forward);
      if p.forward == forward { MeasureGrows(next, LensOf(past, forward), Lens(p.dataLen, |p.payload|)); }
    }
  }

  lemma SideTotal(w: seq<Packet>, forward: bool)
    requires |w| <= MAX_NUM_PKTS
    ensures Told(SideOf(w, forward)) == Measure(Next, LensOf(w, forward))
  {
    SideIsMeasured((v, b) => Told(SideOf(v, b)), Next, w, forward);
  }

  // The lengths of a segment with data offset d.
  predicate Fits(l: Lens, d: nat) {
    l.data <= 0xFFFF && l.payload == if l.data + 20 < 4 * d then 0 else l.data + 20 - 4 * d
  }

  lemma PacketFits(x: Segment)
    requires IsSegment(x)
    ensures var p := PacketOf(x);
            p.forward == x.forward && p.dataLen != 0xFEEDFACE && Fits(Lens(p.dataLen, |p.payload|), Offset(x))
    ensures PacketOf(x).dataLen == |x.l4| - 20
  {
  }

  ghost predicate FitsSome(l: Lens, offsets: set<nat>) { exists d | d in offsets :: Fits(l, d) }

  ghost predicate Legal(p: Packet, offsets: set<nat>) { FitsSome(Lens(p.dataLen, |p.payload|), offsets) }

  lemma {:induction false} LensFit(w: seq<Packet>, forward: bool, offsets: set<nat>)
    requires forall i | 0 <= i < |w| :: Legal(w[i], offsets)
    ensures forall i | 0 <= i < |LensOf(w, forward)| :: FitsSome(LensOf(w, forward)[i], offsets)
  {
    if w != [] { LensFit(w[..|w| - 1], forward, offsets); }
  }

  // ---------------------------------------------------------------- windows of up to two packets

  lemma MeasureOne(next: (Tallied, Lens) -> Tallied, a: Lens)
    ensures Measure(next, [a]) == next(Tallied(0, 0), a)
  {
    MeasureGrows(next, [], a);
    assert [] + [a] == [a];
  }

  lemma MeasureTwo(next: (Tallied, Lens) -> Tallied, a: Lens, b: Lens)
    ensures Measure(next, [a, b]) == next(next(Tallied(0, 0), a), b)
  {
    MeasureOne(next, a);
    MeasureGrows(next, [a], b);
    assert [a] + [b] == [a, b];
  }

  // Without wrap-around: a count before the packet that would be negative counts nothing.
  lemma NextIs(t: Tallied, b: Lens)
    requires t.l4Bytes <= 0xF_FFFF && b.data <= 0xFFFF && b.payload <= 0xF_FFFF
    ensures var current := t.l4Bytes + b.data - b.payload;
            Next(t, b) == Tallied(t.l4Bytes + b.data, t.total + if current < 0 then 0 else SampleLen(b.payload, current))
  {
    var current := t.l4Bytes + b.data - b.payload;
    assert Trunc32(t.l4Bytes + b.data) == t.l4Bytes + b.data;
    if current < 0 { assert Trunc32(current) == current + 0x1_0000_0000; } else { assert Trunc32(current) == current; }
  }

  // The first packet of a window: with a short offset nothing is counted; a long one leaves four
  // octets uncounted for every word above five.
  lemma FirstAdds(a: Lens, e: nat)
    requires Fits(a, e)
    ensures var t := Next(Tallied(0, 0), a);
            && t.l4Bytes == a.data && t.total <= ETTA_MIN_OCTETS
            && (if e < 5 then t.total == 0 else t.total == 0 || t.total + 4 * (e - 5) <= a.data)
  {
    NextIs(Tallied(0, 0), a);
  }

  lemma SecondAdds(t: Tallied, b: Lens, d: nat)
    requires Fits(b, d) && t.l4Bytes <= 0xFFFF && t.total <= ETTA_MIN_OCTETS
    requires t.total == 0 || (t.total <= t.l4Bytes && (d < 5 ==> t.total + 20 - 4 * d <= t.l4Bytes))
    ensures Next(t, b).total <= ETTA_MIN_OCTETS
  {
    NextIs(t, b);
  }

  lemma TwoWithin(a: Lens, e: nat, b: Lens, d: nat)
    requires Fits(a, e) && Fits(b, d) && (d < 5 <= e ==> d + e >= 10)
    ensures Next(Next(Tallied(0, 0), a), b).total <= ETTA_MIN_OCTETS
  {
    FirstAdds(a, e);
    SecondAdds(Next(Tallied(0, 0), a), b, d);
  }

  lemma ShortWithin(ls: seq<Lens>, offsets: set<nat>)
    requires |ls| <= 2 && (forall i | 0 <= i < |ls| :: FitsSome(ls[i], offsets)) && (|ls| == 2 ==> Safe(offsets, 2))
    ensures Measure(Next, ls).total <= ETTA_MIN_OCTETS
  {
    if |ls| == 1 {
      assert ls == [ls[0]];
      MeasureOne(Next, ls[0]);
    } else if |ls| == 2 {
      assert ls == [ls[0], ls[1]];
      var e :| e in offsets && Fits(ls[0], e);
      var d :| d in offsets && Fits(ls[1], d);
      MeasureTwo(Next, ls[0], ls[1]);
      TwoWithin(ls[0], e, ls[1], d);
    }
  }

  lemma ShortWindow(w: seq<Packet>, offsets: set<nat>, forward: bool)
    requires |w| <= 2 && (forall i | 0 <= i < |w| :: Legal(w[i], offsets)) && (|w| == 2 ==> Safe(offsets, 2))
    ensures Total(SideOf(w, forward).byteCount) <= ETTA_MIN_OCTETS
  {
    SideTotal(w, forward);
    LensFit(w, forward, offsets);
    ShortWithin(LensOf(w, forward), offsets);
  }

  // ---------------------------------------------------------------- safe offsets

  lemma PacketsAreLegal(xs: seq<Segment>, offsets: set<nat>)
    requires Stream(xs, offsets)
    ensures var ps := PacketsOf(xs);
            && (forall i | 0 <= i < |ps| :: Legal(ps[i], offsets))
            && (ps != [] ==> ps[0].forward && ps[0].dataLen != 0xFEEDFACE)
  {
    forall i | 0 <= i < |xs| ensures Legal(PacketsOf(xs)[i], offsets) {
      assert xs[i] in xs;
      PacketFits(xs[i]);
    }
    if xs != [] {
      assert xs[0] in xs;
      PacketFits(xs[0]);
    }
  }

  lemma LegalIsCovered(p: Packet, offsets: set<nat>)
    requires Legal(p, offsets) && forall d | d in offsets :: d >= 5
    ensures Covered(p)
  {
  }

  lemma ShortSlice(ps: seq<Packet>, offsets: set<nat>, max: nat, i: nat, j: nat)
    requires 1 <= max <= 2 && Safe(offsets, max) && forall i | 0 <= i < |ps| :: Legal(ps[i], offsets)
    requires i <= j <= |ps| && j - i <= max
    ensures Total(SideOf(ps[i..j], true).byteCount) <= ETTA_MIN_OCTETS
    ensures Total(SideOf(ps[i..j], false).byteCount) <= ETTA_MIN_OCTETS
  {
    assert forall k | 0 <= k < |ps[i..j]| :: ps[i..j][k] == ps[i + k];
    ShortWindow(ps[i..j], offsets, true);
    ShortWindow(ps[i..j], offsets, false);
  }

  lemma ShortRunBounded(ps: seq<Packet>, offsets: set<nat>, max: nat)
    requires 1 <= max <= 2 && Safe(offsets, max) && Wellformed(ps)
    requires (forall i | 0 <= i < |ps| :: Legal(ps[i], offsets)) && (ps != [] ==> ps[0].dataLen != 0xFEEDFACE)
    ensures Bounded(Run(ps, max))
  {
    var w, last := StatsAreOfTheWindow(ps, max);
    var start := |ps| - |w|;
    var before := if start == 0 then 0 else start - max;
    assert w == ps[start..|ps|] && last == ps[before..start];
    ShortSlice(ps, offsets, max, start, |ps|);
    ShortSlice(ps, offsets, max, before, start);
  }

  lemma SafeIsBounded(xs: seq<Segment>, offsets: set<nat>, max: nat)
    requires 1 <= max <= MAX_NUM_PKTS && Safe(offsets, max) && Stream(xs, offsets)
    ensures StreamBounded(xs, max)
  {
    var ps := PacketsOf(xs);
    PacketsAreLegal(xs, offsets);
    if max >= 3 {
      forall p | p in ps ensures Covered(p) { LegalIsCovered(p, offsets); }
      TcpHistogramBounded(ps, max);
    } else {
      ShortRunBounded(ps, offsets, max);
    }
  }

  // ---------------------------------------------------------------- unsafe offsets

  // A segment of the given length and data offset.
  function Made(len: nat, d: nat): (x: Segment)
    requires 20 <= len <= 0xFFFF && d < 16
    ensures IsSegment(x) && Offset(x) == d && x.forward && |x.l4| == len
  {
    Segment(true, seq(len, i => if i == 12 then 16 * d else 0), 0)
  }

  function MadeLens(len: nat, d: nat): (l: Lens)
    requires 20 <= len <= 0xFFFF && d < 16
  {
    Lens(len - 20, if len < 4 * d then 0 else len - 4 * d)
  }

  lemma MadeFits(len: nat, d: nat)
    requires 20 <= len <= 0xFFFF && d < 16
    ensures var p := PacketOf(Made(len, d));
            p.forward && p.dataLen != 0xFEEDFACE && Lens(p.dataLen, |p.payload|) == MadeLens(len, d)
  {
    PacketFits(Made(len, d));
  }

  lemma LensOfNext(w: seq<Packet>, p: Packet)
    requires p.forward
    ensures LensOf(w + [p], true) == LensOf(w, true) + [Lens(p.dataLen, |p.payload|)]
  {
    assert (w + [p])[..|w + [p]| - 1] == w;
  }

  // A full window is copied aside, a shorter one is still current: either way it shows.
  lemma OverflowShows(ps: seq<Packet>, max: nat)
    requires 2 <= |ps| <= 3 && |ps| <= max <= MAX_NUM_PKTS && ps[0].forward && ps[0].dataLen != 0xFEEDFACE
    requires Total(SideOf(ps, true).byteCount) > ETTA_MIN_OCTETS
    ensures !Bounded(Run(ps, max))
  {
    var w, last := StatsAreOfTheWindow(ps, max);
    if |ps| == max {
      RemainderIs(|ps|, 1, 0, max);
      assert last == ps;
    } else {
      RemainderIs(|ps|, 0, |ps|, max);
      assert w == ps;
    }
  }

  lemma LensOfTwo(p: Packet, q: Packet)
    requires p.forward && q.forward
    ensures LensOf([p, q], true) == [Lens(p.dataLen, |p.payload|), Lens(q.dataLen, |q.payload|)]
  {
    LensOfNext([], p);
    LensOfNext([p], q);
    assert [] + [p] == [p] && [p] + [q] == [p, q] && LensOf([], true) == [];
  }

  lemma LensOfThree(p: Packet, q: Packet, r: Packet)
    requires p.forward && q.forward && r.forward
    ensures LensOf([p, q, r], true)
         == [Lens(p.dataLen, |p.payload|), Lens(q.dataLen, |q.payload|), Lens(r.dataLen, |r.payload|)]
  {
    LensOfTwo(p, q);
    LensOfNext([p, q], r);
    assert [p, q] + [r] == [p, q, r];
  }

  lemma PairAdds(d: nat, e: nat)
    requires d < 5 <= e < 16 && d + e < 10
    ensures Next(Next(Tallied(0, 0), MadeLens(4020, e)), MadeLens(20, d)).total == 4000 + 20 - 4 * d - 4 * (e - 5)
  {
    NextIs(Tallied(0, 0), MadeLens(4020, e));
    var t := Next(Tallied(0, 0), MadeLens(4020, e));
    assert t == Tallied(4000, 4000 - 4 * (e - 5));
    NextIs(t, MadeLens(20, d));
  }

  // Two segments: 4000 octets behind the header with offset e, then none with offset d.
  lemma PairOverflows(d: nat, e: nat)
    requires d < 5 <= e < 16 && d + e < 10
    ensures var ps := [PacketOf(Made(4020, e)), PacketOf(Made(20, d))];
            Total(SideOf(ps, true).byteCount) == 4000 + 20 - 4 * d - 4 * (e - 5)
  {
    var p, q := PacketOf(Made(4020, e)), PacketOf(Made(20, d));
    MadeFits(4020, e);
    MadeFits(20, d);
    LensOfTwo(p, q);
    SideTotal([p, q], true);
    MeasureTwo(Next, MadeLens(4020, e), MadeLens(20, d));
    PairAdds(d, e);
  }

  // Three segments with one offset d: the first only moves the count, the second fills the
  // sample, the third has no data at all and is counted once more.
  lemma TripleOverflows(d: nat)
    requires d < 5
    ensures var ps := [PacketOf(Made(40 - 4 * d, d)), PacketOf(Made(4000 + 4 * d, d)), PacketOf(Made(20, d))];
            Total(SideOf(ps, true).byteCount) == 4020 - 4 * d
  {
    var p, q, r := PacketOf(Made(40 - 4 * d, d)), PacketOf(Made(4000 + 4 * d, d)), PacketOf(Made(20, d));
    var a, b, c := MadeLens(40 - 4 * d, d), MadeLens(4000 + 4 * d, d), MadeLens(20, d);
    MadeFits(40 - 4 * d, d);
    MadeFits(4000 + 4 * d, d);
    MadeFits(20, d);
    LensOfThree(p, q, r);
    SideTotal([p, q, r], true);
    MeasureTwo(Next, a, b);
    MeasureGrows(Next, [a, b], c);
    assert [a, b] + [c] == [a, b, c];
    TripleAdds(a, b, c, d);
  }

  lemma TripleAdds(a: Lens, b: Lens, c: Lens, d: nat)
    requires d < 5 && a == MadeLens(40 - 4 * d, d) && b == MadeLens(4000 + 4 * d, d) && c == MadeLens(20, d)
    ensures Next(Next(Next(Tallied(0, 0), a), b), c).total == 4020 - 4 * d
  {
    NextIs(Tallied(0, 0), a);
    var t := Next(Tallied(0, 0), a);
    assert t == Tallied(20 - 4 * d, 0);
    NextIs(t, b);
    assert Next(t, b) == Tallied(4000, 4000);
    NextIs(Tallied(4000, 4000), c);
  }

  lemma PairUnbounded(d: nat, e: nat)
    requires d < 5 <= e < 16 && d + e < 10
    ensures var x, y := Made(4020, e), Made(20, d);
            PacketOf(x).forward && !Bounded(Run([PacketOf(x), PacketOf(y)], 2))
  {
    MadeFits(4020, e);
    PairOverflows(d, e);
    OverflowShows([PacketOf(Made(4020, e)), PacketOf(Made(20, d))], 2);
  }

  lemma TripleUnbounded(d: nat, max: nat)
    requires d < 5 && 3 <= max <= MAX_NUM_PKTS
    ensures var x, y, z := Made(40 - 4 * d, d), Made(4000 + 4 * d, d), Made(20, d);
            PacketOf(x).forward && !Bounded(Run([PacketOf(x), PacketOf(y), PacketOf(z)], max))
  {
    MadeFits(40 - 4 * d, d);
    TripleOverflows(d);
    OverflowShows([PacketOf(Made(40 - 4 * d, d)), PacketOf(Made(4000 + 4 * d, d)), PacketOf(Made(20, d))], max);
  }

  lemma PacketsOfTwo(x: Segment, y: Segment)
    requires IsSegment(x) && IsSegment(y)
    ensures PacketsOf([x, y]) == [PacketOf(x), PacketOf(y)]
  {
  }

  lemma PacketsOfThree(x: Segment, y: Segment, z: Segment)
    requires IsSegment(x) && IsSegment(y) && IsSegment(z)
    ensures PacketsOf([x, y, z]) == [PacketOf(x), PacketOf(y), PacketOf(z)]
  {
  }

  lemma PairIsStream(d: nat, e: nat, offsets: set<nat>) returns (xs: seq<Segment>)
    requires d in offsets && e in offsets && d < 5 <= e < 16 && d + e < 10
    ensures Stream(xs, offsets) && !StreamBounded(xs, 2)
  {
    xs := [Made(4020, e), Made(20, d)];
    PacketsOfTwo(xs[0], xs[1]);
    PairUnbounded(d, e);
  }

  lemma TripleIsStream(d: nat, max: nat, offsets: set<nat>) returns (xs: seq<Segment>)
    requires d in offsets && d < 5 && 3 <= max <= MAX_NUM_PKTS
    ensures Stream(xs, offsets) && !StreamBounded(xs, max)
  {
    xs := [Made(40 - 4 * d, d), Made(4000 + 4 * d, d), Made(20, d)];
    PacketsOfThree(xs[0], xs[1], xs[2]);
    TripleUnbounded(d, max);
  }

  lemma UnsafeOverflows(offsets: set<nat>, max: nat) returns (xs: seq<Segment>)
    requires 1 <= max <= MAX_NUM_PKTS && !Safe(offsets, max) && forall d | d in offsets :: d < 16
    ensures Stream(xs, offsets) && !StreamBounded(xs, max)
  {
    if max == 2 {
      var d, e :| d in offsets && e in offsets && d < 5 <= e && d + e < 10;
      xs := PairIsStream(d, e, offsets);
    } else {
      var d :| d in offsets && d < 5;
      xs := TripleIsStream(d, max, offsets);
    }
  }

  // For every window length and every set of data offsets: all flows of such segments keep all
  // histograms within 4000 octets if and only if the set is safe.
  lemma TcpBoundedIff(offsets: set<nat>, max: nat)
    requires 1 <= max <= MAX_NUM_PKTS && forall d | d in offsets :: d < 16
    ensures (forall xs | Stream(xs, offsets) :: StreamBounded(xs, max)) <==> Safe(offsets, max)
  {
    if Safe(offsets, max) {
      forall xs | Stream(xs, offsets) ensures StreamBounded(xs, max) { SafeIsBounded(xs, offsets, max); }
    } else {
      var xs := UnsafeOverflows(offsets, max);
    }
  }
}
