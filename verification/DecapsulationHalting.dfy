/** Termination and containment of the decapsulation machine: every capture of
    n octets is decapsulated in finitely many steps exactly when n <= 65495, and
    a header handed to packet_processing lies inside the capture at any length. */
module DecapsulationHalting {
  import opened Octets
  import opened Decapsulation

  // Past this length `ip_offset` (16 bits) can be pushed beyond 65535.
  const MAX_SAFE_CAPLEN := 65495

  type Machine = Cursor -> Outcome

  function Decapsulator(decodeTunnels: bool, p: seq<byte>): (m: Machine) {
    c => Step(decodeTunnels, p, c)
  }

  // The outcome after at most k steps; Goto while the machine is still running.
  function Run(m: Machine, c: Cursor, k: nat): (o: Outcome)
    decreases k
  {
    if k == 0 then Goto(c)
    else match m(c)
      case Goto(d) => Run(m, d, k - 1)
      case o => o
  }

  ghost predicate Halts(m: Machine, c: Cursor) {
    exists k: nat :: !Run(m, c, k).Goto?
  }

  // ------------------------------------------------- what every step keeps

  function HeaderLength(ipv6: bool): nat { if ipv6 then 40 else 20 }

  // A whole IPv4 or IPv6 header with the right version nibble lies in the capture.
  predicate HeaderInside(p: seq<byte>, ipOffset: nat, ipv6: bool) {
    ipOffset + HeaderLength(ipv6) <= |p| && p[ipOffset] / 16 == (if ipv6 then 6 else 4)
  }

  // What holds of the offset at each label, while it cannot wrap around.
  ghost predicate Within(p: seq<byte>, c: Cursor) {
    match c.phase
    case DatalinkCheck => true
    case EtherTypeCheck => c.ipOffset <= |p| + (if c.etherType == ETH_P_IP then 8 else 0)
    case VlanTags => c.ipOffset <= |p|
    case MplsLabels => c.ipOffset <= |p| && c.etherType == ETH_P_IP
    case IphCheck => c.ipOffset <= |p| + 40
  }

  ghost function Room(p: seq<byte>, c: Cursor): nat {
    var position := if c.phase.DatalinkCheck? then c.ethOffset else c.ipOffset;
    if position <= |p| + 40 then |p| + 41 - position else 0
  }

  ghost function PhaseRank(phase: Phase): nat {
    match phase
    case DatalinkCheck => 3
    case VlanTags => 2
    case MplsLabels => 2
    case EtherTypeCheck => 1
    case IphCheck => 0
  }

  // An upper bound on the steps left.
  ghost function Rank(p: seq<byte>, c: Cursor): nat {
    4 * Room(p, c) + PhaseRank(c.phase) + (if c.datalink.Ppi? then 1 else 0)
  }

  ghost predicate Advances(p: seq<byte>, c: Cursor, d: Cursor) {
    |p| <= MAX_SAFE_CAPLEN && Within(p, c) ==> Within(p, d) && Rank(p, d) < Rank(p, c)
  }

  ghost predicate Sound(p: seq<byte>, c: Cursor, o: Outcome) {
    match o
    case Goto(d) => Advances(p, c, d)
    case Discard => true
    case Deliver(ipOffset, ipv6, _, _) => HeaderInside(p, ipOffset, ipv6)
  }

  lemma FramedSound(p: seq<byte>, c: Cursor, d: Cursor, offset: nat, etherType: U16)
    requires c.phase.DatalinkCheck? && c.ethOffset <= offset <= |p| && d.datalink == c.datalink
    ensures Sound(p, c, Framed(d, offset, etherType))
  {
  }

  lemma EthernetSound(p: seq<byte>, c: Cursor)
    requires c.phase.DatalinkCheck? && c.ethOffset + 28 <= |p|
    ensures Sound(p, c, EthernetStep(p, c))
  {
    var ip := c.ethOffset + 14;
    match EthernetStep(p, c)
    case Goto(d) =>
      if |p| <= MAX_SAFE_CAPLEN {
        assert d.ipOffset == ip || d.ipOffset == ip + 8;
        FramedSound(p, c, d, d.ipOffset, d.etherType);
      }
    case _ =>
  }

  lemma RadiotapSound(p: seq<byte>, c: Cursor)
    requires c.phase.DatalinkCheck? && c.ethOffset + 28 <= |p|
    ensures Sound(p, c, RadiotapStep(p, c))
  {
    match RadiotapStep(p, c)
    case Goto(d) =>
      if |p| <= MAX_SAFE_CAPLEN {
        assert c.ethOffset <= d.ipOffset <= |p|;
        FramedSound(p, c, d, d.ipOffset, d.etherType);
      }
    case _ =>
  }

  lemma DatalinkSound(p: seq<byte>, c: Cursor)
    requires c.phase.DatalinkCheck?
    ensures Sound(p, c, DatalinkStep(p, c))
  {
    if c.ethOffset + 28 <= |p| {
      if c.datalink.Ethernet? {
        EthernetSound(p, c);
      } else if c.datalink.Radiotap? {
        RadiotapSound(p, c);
      } else if !c.datalink.Ppi? {
        forall offset: nat, etherType | c.ethOffset <= offset <= |p|
          ensures Sound(p, c, Framed(c, offset, etherType))
        {
          FramedSound(p, c, c, offset, etherType);
        }
      }
    }
  }

  lemma EtherTypeSound(p: seq<byte>, c: Cursor)
    requires !c.phase.DatalinkCheck? && !c.phase.IphCheck?
    ensures c.phase.EtherTypeCheck? ==> Sound(p, c, EtherTypeStep(p, c))
    ensures c.phase.VlanTags? ==> Sound(p, c, VlanStep(p, c))
    ensures c.phase.MplsLabels? ==> Sound(p, c, MplsStep(p, c))
  {
  }

  lemma GtpSound(p: seq<byte>, c: Cursor, gtp: nat, ipv6: bool)
    requires gtp + 8 < |p| && HeaderInside(p, c.ipOffset, ipv6)
    ensures Sound(p, c, GtpStep(p, c, gtp, ipv6))
  {
  }

  lemma TzspSound(p: seq<byte>, c: Cursor, tzsp: nat, ipv6: bool)
    requires c.phase.IphCheck? && c.ipOffset < tzsp && HeaderInside(p, c.ipOffset, ipv6)
    ensures Sound(p, c, TzspStep(p, c, tzsp, ipv6))
  {
  }

  lemma CapwapSound(p: seq<byte>, c: Cursor, capwap: nat, ipv6: bool)
    requires c.phase.IphCheck? && c.ipOffset < capwap && HeaderInside(p, c.ipOffset, ipv6)
    ensures Sound(p, c, CapwapStep(p, c, capwap, ipv6))
  {
  }

  lemma UdpSound(p: seq<byte>, c: Cursor, ipLen: U16, ipv6: bool)
    requires c.phase.IphCheck? && HeaderInside(p, c.ipOffset, ipv6)
    ensures Sound(p, c, UdpStep(p, c, ipLen, ipv6))
  {
    var udp := c.ipOffset + ipLen;
    if udp + 8 <= |p| {
      match UdpTunnel(p, udp)
      case GtpTunnel => GtpSound(p, c, udp + 8, ipv6);
      case TzspTunnel => TzspSound(p, c, udp + 8, ipv6);
      case CapwapTunnel => CapwapSound(p, c, udp + 8, ipv6);
      case _ =>
    }
  }

  lemma GreSound(p: seq<byte>, c: Cursor, ipLen: U16)
    requires c.phase.IphCheck?
    ensures Sound(p, c, GreStep(p, c, ipLen))
  {
    var gre := c.ipOffset + ipLen;
    if gre + 4 <= |p| && GrePayload(p, gre) != 0 { GreInnerSound(p, c, GrePayload(p, gre), Be16(p, gre + 2)); }
  }

  lemma GreInnerSound(p: seq<byte>, c: Cursor, inner: nat, protocol: U16)
    requires c.phase.IphCheck? && c.ipOffset + 4 <= inner <= |p|
    ensures Sound(p, c, GreInner(c.(tunnel := GreTunnel), inner, protocol))
  {
  }

  lemma TransportSound(decodeTunnels: bool, p: seq<byte>, c: Cursor, ipLen: U16, ipv6: bool)
    requires c.phase.IphCheck? && HeaderInside(p, c.ipOffset, ipv6)
    ensures Sound(p, c, TransportStep(decodeTunnels, p, c, ipLen, ipv6))
  {
    UdpSound(p, c, ipLen, ipv6);
    GreSound(p, c, ipLen);
  }

  lemma Ipv4Sound(decodeTunnels: bool, p: seq<byte>, c: Cursor)
    requires c.phase.IphCheck? && HeaderInside(p, c.ipOffset, false)
    ensures Sound(p, c, Ipv4Step(decodeTunnels, p, c))
  {
    TransportSound(decodeTunnels, p, c, p[c.ipOffset] % 16 * 4, false);
  }

  lemma ToIphSound(p: seq<byte>, c: Cursor, d: Cursor, offset: nat)
    requires c.phase.IphCheck? && c.ipOffset < offset <= |p| + 40 && d.datalink == c.datalink
    ensures Sound(p, c, ToIph(d, offset))
  {
  }

  lemma Ipv6Sound(decodeTunnels: bool, p: seq<byte>, c: Cursor)
    requires c.phase.IphCheck? && c.ipOffset + 20 <= |p| && p[c.ipOffset] / 16 == 6
    ensures Sound(p, c, Ipv6Step(decodeTunnels, p, c))
  {
    match Ipv6Transport(p, c.ipOffset)
    case NoTransport =>
    case Transport(l4, l4Len, proto) =>
      ToIphSound(p, c, c.(proto := proto), l4);
      TransportSound(decodeTunnels, p, c.(proto := proto), l4Len, true);
      SamePlace(p, c, c.(proto := proto), TransportStep(decodeTunnels, p, c.(proto := proto), l4Len, true));
  }

  lemma SamePlace(p: seq<byte>, c: Cursor, d: Cursor, o: Outcome)
    requires c.phase == d.phase && c.etherType == d.etherType && c.datalink == d.datalink
    requires c.ipOffset == d.ipOffset && c.ethOffset == d.ethOffset
    ensures Sound(p, c, o) <==> Sound(p, d, o)
  {
  }

  lemma IphSound(decodeTunnels: bool, p: seq<byte>, c: Cursor)
    requires c.phase.IphCheck?
    ensures Sound(p, c, IphStep(decodeTunnels, p, c))
  {
    var ip := c.ipOffset;
    if ip + 20 <= |p| {
      var d := NoteIpv4Fields(p, c);
      SamePlace(p, c, d, IphStep(decodeTunnels, p, c));
      if p[ip] / 16 == 4 {
        Ipv4Sound(decodeTunnels, p, d);
      } else if p[ip] / 16 == 6 {
        Ipv6Sound(decodeTunnels, p, d);
      }
    }
  }

  // Every step of every run: a jump makes progress, a delivered header is whole.
  lemma StepSound(decodeTunnels: bool, p: seq<byte>, c: Cursor)
    ensures Sound(p, c, Step(decodeTunnels, p, c))
  {
    match c.phase
    case DatalinkCheck => DatalinkSound(p, c);
    case EtherTypeCheck => EtherTypeSound(p, c);
    case VlanTags => EtherTypeSound(p, c);
    case MplsLabels => EtherTypeSound(p, c);
    case IphCheck => IphSound(decodeTunnels, p, c);
  }

  ghost predicate SoundMachine(p: seq<byte>, m: Machine) {
    forall c :: Sound(p, c, m(c))
  }

  lemma DecapsulatorSound(decodeTunnels: bool, p: seq<byte>)
    ensures SoundMachine(p, Decapsulator(decodeTunnels, p))
  {
    forall c ensures Sound(p, c, Decapsulator(decodeTunnels, p)(c)) {
      StepSound(decodeTunnels, p, c);
    }
  }

  // ------------------------------------------------------------------ whole runs

  lemma {:induction false} RunDelivers(p: seq<byte>, m: Machine, c: Cursor, k: nat)
    requires SoundMachine(p, m)
    ensures var o := Run(m, c, k); o.Deliver? ==> HeaderInside(p, o.ipOffset, o.ipv6)
    decreases k
  {
    if k > 0 {
      assert Sound(p, c, m(c));
      match m(c)
      case Goto(d) => RunDelivers(p, m, d, k - 1);
      case _ =>
    }
  }

  // Whatever the capture length and the nesting, a packet that reaches
  // packet_processing has its whole IP header inside the capture.
  lemma DeliveredHeaderInside(decodeTunnels: bool, p: seq<byte>, c: Cursor, k: nat)
    ensures var o := Run(Decapsulator(decodeTunnels, p), c, k);
            o.Deliver? ==> HeaderInside(p, o.ipOffset, o.ipv6)
  {
    DecapsulatorSound(decodeTunnels, p);
    RunDelivers(p, Decapsulator(decodeTunnels, p), c, k);
  }

  // Termination with an explicit bound, linear in the bytes left.
  lemma {:induction false} HaltsWithinRank(p: seq<byte>, m: Machine, c: Cursor)
    requires SoundMachine(p, m) && |p| <= MAX_SAFE_CAPLEN && Within(p, c)
    ensures !Run(m, c, Rank(p, c) + 1).Goto?
    decreases Rank(p, c)
  {
    assert Sound(p, c, m(c));
    match m(c)
    case Goto(d) =>
      HaltsWithinRank(p, m, d);
      RunIsStable(m, d, Rank(p, d) + 1, Rank(p, c));
    case _ =>
  }

  lemma {:induction false} RunIsStable(m: Machine, c: Cursor, j: nat, k: nat)
    requires j <= k && !Run(m, c, j).Goto?
    ensures Run(m, c, k) == Run(m, c, j)
    decreases j
  {
    match m(c)
    case Goto(d) => RunIsStable(m, d, j - 1, k - 1);
    case _ =>
  }

  lemma {:induction false} RunCompose(m: Machine, c: Cursor, j: nat, d: Cursor, k: nat)
    requires Run(m, c, j) == Goto(d)
    ensures Run(m, c, j + k) == Run(m, d, k)
    decreases j
  {
    if j > 0 { RunCompose(m, m(c).cursor, j - 1, d, k); }
  }

  // A raw-IP capture whose IP-in-IP chain leads from offset 65476 over the 16-bit
  // edge back to offset 0: one 16-octet header, then 1092 headers of 60 octets.
  function LoopingCapture(n: nat): (p: seq<byte>)
    requires n > MAX_SAFE_CAPLEN
  {
    seq(n, i requires 0 <= i < n =>
             if i == 0 then 0x44
             else if i % 60 == 16 then 0x4F
             else if i == 9 || i % 60 == 25 then IPPROTO_IPIP
             else 0)
  }

  ghost predicate OnLoop(c: Cursor) {
    && c.phase.IphCheck? && c.etherType == ETH_P_IP
    && (c.ipOffset == 0 || (c.ipOffset % 60 == 16 && c.ipOffset <= 65476))
  }

  lemma LoopStaysOnLoop(decodeTunnels: bool, n: nat, c: Cursor)
    requires n > MAX_SAFE_CAPLEN && OnLoop(c)
    ensures var o := Step(decodeTunnels, LoopingCapture(n), c); o.Goto? && OnLoop(o.cursor)
  {
    var p, ip := LoopingCapture(n), c.ipOffset;
    assert p[ip + 9] == IPPROTO_IPIP;
    assert p[ip] == (if ip == 0 then 0x44 else 0x4F);
  }

  lemma {:induction false} LoopNeverLeaves(m: Machine, c: Cursor, k: nat)
    requires OnLoop(c)
    requires forall d | OnLoop(d) :: m(d).Goto? && OnLoop(m(d).cursor)
    ensures Run(m, c, k).Goto?
    decreases k
  {
    if k > 0 { LoopNeverLeaves(m, m(c).cursor, k - 1); }
  }

  lemma LoopEntered(decodeTunnels: bool, n: nat)
    requires n > MAX_SAFE_CAPLEN
    ensures var c, p := Start(RawIp), LoopingCapture(n);
            var d := c.(phase := EtherTypeCheck, etherType := ETH_P_IP);
            && Step(decodeTunnels, p, c) == Goto(d)
            && Step(decodeTunnels, p, d) == Goto(d.(phase := IphCheck))
  {
    assert LoopingCapture(n)[0] == 0x44;
  }

  lemma LoopingMachineNeverHalts(m: Machine, c: Cursor, d: Cursor, e: Cursor)
    requires m(c) == Goto(d) && m(d) == Goto(e) && OnLoop(e)
    requires forall d | OnLoop(d) :: m(d).Goto? && OnLoop(m(d).cursor)
    ensures !Halts(m, c)
  {
    forall k: nat ensures Run(m, c, k).Goto? {
      if k >= 2 {
        LoopNeverLeaves(m, e, k - 2);
        assert Run(m, d, k - 1) == Run(m, e, k - 2);
      }
    }
  }

  lemma LoopingCaptureNeverHalts(decodeTunnels: bool, n: nat)
    requires n > MAX_SAFE_CAPLEN
    ensures !Halts(Decapsulator(decodeTunnels, LoopingCapture(n)), Start(RawIp))
  {
    var m, c := Decapsulator(decodeTunnels, LoopingCapture(n)), Start(RawIp);
    var d := c.(phase := EtherTypeCheck, etherType := ETH_P_IP);
    forall d | OnLoop(d) ensures m(d).Goto? && OnLoop(m(d).cursor) {
      LoopStaysOnLoop(decodeTunnels, n, d);
    }
    LoopEntered(decodeTunnels, n);
    LoopingMachineNeverHalts(m, c, d, d.(phase := IphCheck));
  }

  ghost predicate AllCapturesHalt(n: nat) {
    forall decodeTunnels: bool, p: seq<byte>, datalink: Datalink ::
      |p| == n ==> Halts(Decapsulator(decodeTunnels, p), Start(datalink))
  }

  // The exact capture lengths for which decapsulation always finishes.
  lemma HaltsExactlyUpToMaxCaplen(n: nat)
    ensures AllCapturesHalt(n) <==> n <= MAX_SAFE_CAPLEN
  {
    if n <= MAX_SAFE_CAPLEN {
      forall decodeTunnels: bool, p: seq<byte>, datalink: Datalink | |p| == n
        ensures Halts(Decapsulator(decodeTunnels, p), Start(datalink))
      {
        DecapsulatorSound(decodeTunnels, p);
        HaltsWithinRank(p, Decapsulator(decodeTunnels, p), Start(datalink));
      }
    } else {
      LoopingCaptureNeverHalts(true, n);
      assert |LoopingCapture(n)| == n;
    }
  }
}
