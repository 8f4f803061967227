/** struct ndpi_entropy of a flow, updated in place. */
module EntropyRecord {
  import opened Octets
  import opened ByteStats
  import opened Entropy

  // The loop of ndpi_flow_update_byte_count.
  method CountOctets(hist: array<nat>, data: seq<byte>, current: U32)
    requires hist.Length == 256
    modifies hist
    ensures hist[..] == Tally(old(hist[..]), Sampled(data, current))
  {
    assert hist[..] == Tally(old(hist[..]), []);
    if current >= ETTA_MIN_OCTETS { return; }
    var i, count := 0, current;
    while i < |data|
      invariant 0 <= i <= |data| && count == current + i && count < ETTA_MIN_OCTETS
      invariant hist[..] == Tally(old(hist[..]), data[..i])
      decreases |data| - i
    {
      TallyOne(old(hist[..]), data[..i + 1]);
      assert data[..i + 1][..i] == data[..i];
      hist[data[i]] := hist[data[i]] + 1;
      i, count := i + 1, count + 1;
      if count >= ETTA_MIN_OCTETS {
        assert Sampled(data, current) == data[..i];
        return;
      }
    }
    assert data[..i] == data;
  }

  lemma ObserveNext(m: Moments, bs: seq<byte>, i: nat)
    requires i < |bs|
    ensures ObserveAll(m, bs[..i + 1]) == ByteStats.Observe(ObserveAll(m, bs[..i]), bs[i])
  {
    assert bs[..i + 1][..i] == bs[..i];
  }

  class Direction {
    var pktCount: nat
    const pktLen: array<nat>
    var l4Bytes: U32
    const byteCount: array<nat>
    var numBytes: nat
    var mean: real
    var variance: real

    ghost predicate Valid() {
      pktLen.Length == MAX_NUM_PKTS && byteCount.Length == 256 && pktLen != byteCount
    }

    ghost function View(): Side
      reads this, pktLen, byteCount
    {
      Side(pktCount, pktLen[..], l4Bytes, byteCount[..], Moments(numBytes, mean, variance))
    }

    constructor ()
      ensures Valid() && fresh(pktLen) && fresh(byteCount) && View() == CLEAR
    {
      pktCount, l4Bytes, numBytes, mean, variance := 0, 0, 0, 0.0, 0.0;
      pktLen := new nat[MAX_NUM_PKTS](_ => 0);
      byteCount := new nat[256](_ => 0);
      new;
      assert pktLen[..] == Zeros(MAX_NUM_PKTS) && byteCount[..] == Zeros(256);
    }

    method NoteFirst(dataLen: U32)
      requires Valid() && pktCount < MAX_NUM_PKTS
      modifies this, pktLen
      ensures View() == Entropy.NoteFirst(old(View()), dataLen)
    {
      pktLen[pktCount] := Trunc16(dataLen);
      pktCount := pktCount + 1;
      if dataLen != 0xFEEDFACE && dataLen != 0 {
        l4Bytes := Trunc32(l4Bytes + dataLen);
      }
    }

    method Note(dataLen: U32, max: nat)
      requires Valid() && max <= MAX_NUM_PKTS
      modifies this, pktLen
      ensures View() == Entropy.Note(old(View()), dataLen, max)
    {
      if pktCount < max {
        pktLen[pktCount] := Trunc16(dataLen);
        l4Bytes := Trunc32(l4Bytes + dataLen);
        pktCount := pktCount + 1;
      }
    }

    // ndpi_flow_update_byte_count.
    method UpdateByteCount(payload: seq<byte>)
      requires Valid()
      modifies byteCount
      ensures View() == CountBytes(old(View()), payload)
    {
      CountOctets(byteCount, payload, Trunc32(l4Bytes - |payload|));
    }

    // The body of the loop below.
    method Observe(b: byte)
      modifies `numBytes, `mean, `variance
      ensures Moments(numBytes, mean, variance) == ByteStats.Observe(old(Moments(numBytes, mean, variance)), b)
    {
      numBytes := numBytes + 1;
      var delta := b as real - mean;
      mean := mean + delta / numBytes as real;
      variance := variance + delta * (b as real - mean);
    }

    // ndpi_flow_update_byte_dist_mean_var.
    method UpdateByteDistMeanVar(payload: seq<byte>)
      modifies `numBytes, `mean, `variance
      ensures Moments(numBytes, mean, variance) == ObserveAll(old(Moments(numBytes, mean, variance)), payload)
    {
      var i := 0;
      ghost var before := Moments(numBytes, mean, variance);
      while i < |payload|
        invariant 0 <= i <= |payload|
        invariant Moments(numBytes, mean, variance) == ObserveAll(before, payload[..i])
      {
        Observe(payload[i]);
        ObserveNext(before, payload, i);
        i := i + 1;
      }
      assert payload[..i] == payload;
    }

    method Absorb(payload: seq<byte>)
      requires Valid()
      modifies this, byteCount
      ensures View() == Entropy.Absorb(old(View()), payload)
    {
      UpdateByteCount(payload);
      UpdateByteDistMeanVar(payload);
    }

    // One half of the memset in ndpi_clear_entropy_stats.
    method Clear()
      requires Valid()
      modifies this, pktLen, byteCount
      ensures View() == CLEAR
    {
      pktCount, l4Bytes, numBytes, mean, variance := 0, 0, 0, 0.0, 0.0;
      forall i | 0 <= i < pktLen.Length { pktLen[i] := 0; }
      forall i | 0 <= i < byteCount.Length { byteCount[i] := 0; }
      assert pktLen[..] == Zeros(MAX_NUM_PKTS) && byteCount[..] == Zeros(256);
    }
  }

  class FlowRecord {
    const src2dst: Direction
    const dst2src: Direction
    var lastSrc2dst: Side
    var lastDst2src: Side
    var src2dstPackets: nat
    var dst2srcPackets: nat
    var src2dstTime: nat
    var dst2srcTime: nat
    var flowTime: nat

    ghost const Repr: set<object> := {this, src2dst, src2dst.pktLen, src2dst.byteCount,
                                      dst2src, dst2src.pktLen, dst2src.byteCount}

    ghost predicate Valid() {
      && src2dst.Valid() && dst2src.Valid() && src2dst != dst2src
      && {src2dst.pktLen, src2dst.byteCount} !! {dst2src.pktLen, dst2src.byteCount}
    }

    ghost function View(): FlowStats
      reads Repr
    {
      FlowStats(src2dst.View(), dst2src.View(), lastSrc2dst, lastDst2src,
                src2dstPackets, dst2srcPackets, src2dstTime, dst2srcTime, flowTime)
    }

    constructor ()
      ensures Valid() && fresh(Repr) && View() == NEW_FLOW
    {
      src2dst := new Direction();
      dst2src := new Direction();
      lastSrc2dst, lastDst2src := CLEAR, CLEAR;
      src2dstPackets, dst2srcPackets := 0, 0;
      src2dstTime, dst2srcTime, flowTime := 0, 0, 0;
    }

    // The bookkeeping of get_ndpi_flow_info.
    method Note(p: Packet, max: nat, known: bool)
      requires Valid() && Ready(View(), max)
      modifies Repr
      ensures View() == Noted(old(View()), p, max, known)
    {
      if !known {
        src2dst.NoteFirst(p.dataLen);
      } else if p.forward {
        src2dst.Note(p.dataLen, max);
      } else {
        dst2src.Note(p.dataLen, max);
      }
    }

    // The counters and statistics of packet_processing.
    method Take(p: Packet, max: nat)
      requires Valid()
      modifies Repr
      ensures View() == Absorbed(Counted(old(View()), p), p, max)
    {
      flowTime := p.when;
      if p.forward {
        src2dstPackets, src2dstTime := src2dstPackets + 1, p.when;
      } else {
        dst2srcPackets, dst2srcTime := dst2srcPackets + 1, p.when;
      }
      if src2dst.pktCount + dst2src.pktCount <= max {
        if p.forward {
          src2dst.Absorb(p.payload);
        } else {
          dst2src.Absorb(p.payload);
        }
      }
    }

    // ndpi_clear_entropy_stats.
    method ClearEntropyStats(max: nat)
      requires Valid()
      modifies Repr
      ensures View() == Cleared(old(View()), max)
    {
      if src2dst.pktCount + dst2src.pktCount == max {
        lastSrc2dst := Side(src2dst.pktCount, src2dst.pktLen[..], src2dst.l4Bytes, src2dst.byteCount[..],
                            Moments(src2dst.numBytes, src2dst.mean, src2dst.variance));
        lastDst2src := Side(dst2src.pktCount, dst2src.pktLen[..], dst2src.l4Bytes, dst2src.byteCount[..],
                            Moments(dst2src.numBytes, dst2src.mean, dst2src.variance));
        src2dst.Clear();
        dst2src.Clear();
      }
    }

    // The reset of the inter-arrival reference times.
    method RewindTimes(max: nat)
      requires max > 0
      modifies `src2dstTime, `dst2srcTime, `flowTime
      ensures View() == Rewound(old(View()), max)
    {
      if (src2dstPackets + dst2srcPackets) % max == 0 {
        src2dstTime, dst2srcTime, flowTime := 0, 0, 0;
      }
    }

    method Process(p: Packet, max: nat, known: bool)
      requires Valid() && Ready(View(), max)
      modifies Repr
      ensures View() == Arrive(old(View()), p, max, known)
    {
      Note(p, max, known);
      Take(p, max);
      ClearEntropyStats(max);
      RewindTimes(max);
    }
  }
}
