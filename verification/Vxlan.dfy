/** The VXLAN round trip: decapsulation undoes the envelope a VXLAN endpoint puts
    around a frame. */
module Vxlan {
  import opened Octets
  import opened Decapsulation
  import opened DecapsulationHalting
  import opened DecapsulationLayers
  import opened DecapsulationPosition

  // Ethernet, an IPv4 header with or without options, UDP to port 4789 and the header of
  // section 5 of RFC 7348: what a VXLAN endpoint puts before a frame.
  predicate IsVxlanEnvelope(h: seq<byte>) {
    && |h| >= 50 && h[14] / 16 == 4 && h[14] % 16 >= 5 && |h| == 30 + h[14] % 16 * 4
    && Be16(h, 12) == ETH_P_IP && h[23] == IPPROTO_UDP && Be16(h, 20) % 0x2000 == 0
    && (var udp := |h| - 16;
        && Be16(h, udp + 2) == VXLAN_PORT
        && Be16(h, udp) !in {GTP_U_V1_PORT, TZSP_PORT, CAPWAP_DATA_PORT}
        && h[udp + 8] == 8 && h[udp + 9] == 0 && h[udp + 10] == 0 && h[udp + 11] == 0 && h[udp + 15] == 0)
  }

  // The variables the inner frame inherits from the envelope.
  function InsideEnvelope(h: seq<byte>): (c: Cursor)
    requires IsVxlanEnvelope(h)
  {
    Start(Ethernet).(etherType := ETH_P_IP, fragOff := Be16(h, 20), proto := IPPROTO_UDP, tunnel := VxlanTunnel)
  }

  lemma EnvelopePeeled(h: seq<byte>, frame: seq<byte>)
    requires IsVxlanEnvelope(h)
    ensures var q := h + frame;
            var c1 := Start(Ethernet).(phase := EtherTypeCheck, ipOffset := 14, etherType := ETH_P_IP);
            var c2 := c1.(phase := IphCheck);
            && Step(true, q, Start(Ethernet)) == Goto(c1)
            && Step(true, q, c1) == Goto(c2)
            && Step(true, q, c2) == Goto(InsideEnvelope(h).(ipOffset := 14, ethOffset := |h|))
  {
    var q := h + frame;
    assert q[14] == h[14] && q[23] == IPPROTO_UDP;
    assert Be16(q, 12) == ETH_P_IP && Be16(q, 20) == Be16(h, 20);
    EnvelopeIsTunnel(h, frame);
  }

  lemma EnvelopeIsTunnel(h: seq<byte>, frame: seq<byte>)
    requires IsVxlanEnvelope(h)
    ensures UdpTunnel(h + frame, |h| - 16) == VxlanTunnel
  {
    var q, udp := h + frame, |h| - 16;
    assert Be16(q, udp) == Be16(h, udp) && Be16(q, udp + 2) == Be16(h, udp + 2);
    assert q[udp + 8] == 8 && q[udp + 9] == 0 && q[udp + 10] == 0 && q[udp + 11] == 0 && q[udp + 15] == 0;
  }

  // Whatever the frame contains, it is treated behind the envelope as the bare frame
  // entered with the variables the envelope leaves behind.
  lemma EnvelopeCarriesOver(h: seq<byte>, frame: seq<byte>, k: nat)
    requires IsVxlanEnvelope(h) && |h| + |frame| <= MAX_SAFE_CAPLEN
    ensures SameOutcome(Run(Decapsulator(true, frame), InsideEnvelope(h), k),
                        Run(Decapsulator(true, h + frame), Start(Ethernet), k + 3), |h|)
  {
    EnvelopePeeled(h, frame);
    var d := InsideEnvelope(h).(ipOffset := 14, ethOffset := |h|);
    SuffixDecides(true, h, frame, InsideEnvelope(h), d);
    RunUnfolds3(Decapsulator(true, h + frame), Start(Ethernet), d, k);
  }

  lemma RunUnfolds3(m: Machine, c: Cursor, d: Cursor, k: nat)
    requires m(c).Goto? && m(m(c).cursor).Goto? && m(m(m(c).cursor).cursor) == Goto(d)
    ensures Run(m, c, k + 3) == Run(m, d, k)
  {
    var c1 := m(c).cursor;
    var c2 := m(c1).cursor;
    assert Run(m, c2, k + 1) == Run(m, d, k);
    assert Run(m, c1, k + 2) == Run(m, c2, k + 1);
  }

  // ---------------------------------------------------------------- the bare frame

  // The tag a packet is delivered with once the frame has travelled in an envelope.
  function Tag(t: Tunnel): (r: Tunnel) { if t.NoTunnel? then VxlanTunnel else t }

  // d is c inside the envelope: its tag, and a fragment offset that decides the same.
  ghost predicate Tagged(c: Cursor, d: Cursor) {
    && d == c.(tunnel := Tag(c.tunnel), fragOff := d.fragOff)
    && d.fragOff % 0x2000 == c.fragOff % 0x2000
  }

  ghost predicate TaggedOutcome(o: Outcome, r: Outcome) {
    match o
    case Goto(c) => r.Goto? && Tagged(c, r.cursor)
    case Discard => r.Discard?
    case Deliver(ipOffset, ipv6, vlanId, tunnel) => r == Deliver(ipOffset, ipv6, vlanId, Tag(tunnel))
  }

  lemma TunnelTagged(p: seq<byte>, c: Cursor, d: Cursor, udp: nat, ipv6: bool, t: Tunnel)
    requires Tagged(c, d) && (t.GtpTunnel? ==> udp + 16 < |p|)
    ensures TaggedOutcome(TunnelStep(p, c, udp, ipv6, t), TunnelStep(p, d, udp, ipv6, t))
  {
  }

  lemma GreTagged(p: seq<byte>, c: Cursor, d: Cursor, ipLen: U16)
    requires Tagged(c, d)
    ensures TaggedOutcome(GreStep(p, c, ipLen), GreStep(p, d, ipLen))
  {
  }

  lemma TransportTagged(p: seq<byte>, c: Cursor, d: Cursor, ipLen: U16, ipv6: bool)
    requires Tagged(c, d)
    ensures TaggedOutcome(TransportStep(true, p, c, ipLen, ipv6), TransportStep(true, p, d, ipLen, ipv6))
  {
    var udp := c.ipOffset + ipLen;
    if udp + 8 <= |p| { TunnelTagged(p, c, d, udp, ipv6, UdpTunnel(p, udp)); }
    GreTagged(p, c, d, ipLen);
  }

  lemma Ipv4Tagged(p: seq<byte>, c: Cursor, d: Cursor)
    requires Tagged(c, d) && c.ipOffset + 20 <= |p|
    ensures TaggedOutcome(Ipv4Step(true, p, c), Ipv4Step(true, p, d))
  {
    TransportTagged(p, c, d, p[c.ipOffset] % 16 * 4, false);
  }

  lemma Ipv6Tagged(p: seq<byte>, c: Cursor, d: Cursor)
    requires Tagged(c, d.(proto := c.proto))
    ensures TaggedOutcome(Ipv6Step(true, p, c), Ipv6Step(true, p, d))
  {
    match Ipv6Transport(p, c.ipOffset)
    case NoTransport =>
    case Transport(_, l4Len, proto) =>
      TransportTagged(p, c.(proto := proto), d.(proto := proto), l4Len, true);
  }

  lemma IphTagged(p: seq<byte>, c: Cursor, d: Cursor)
    requires Tagged(c, d)
    ensures TaggedOutcome(IphStep(true, p, c), IphStep(true, p, d))
  {
    if c.ipOffset + 20 <= |p| {
      Ipv4Tagged(p, NoteIpv4Fields(p, c), NoteIpv4Fields(p, d));
      Ipv6Tagged(p, NoteIpv4Fields(p, c), NoteIpv4Fields(p, d));
    }
  }

  lemma FramedTagged(c: Cursor, d: Cursor, offset: nat, etherType: U16)
    requires Tagged(c, d)
    ensures TaggedOutcome(Framed(c, offset, etherType), Framed(d, offset, etherType))
  {
  }

  lemma EthernetTagged(p: seq<byte>, c: Cursor, d: Cursor)
    requires Tagged(c, d) && c.ethOffset + 28 <= |p|
    ensures TaggedOutcome(EthernetStep(p, c), EthernetStep(p, d))
  {
  }

  lemma Dot11Tagged(p: seq<byte>, c: Cursor, d: Cursor, dot11: nat, fc: U16)
    requires Tagged(c, d)
    ensures TaggedOutcome(Dot11Step(p, c, dot11, fc), Dot11Step(p, d, dot11, fc))
  {
  }

  lemma PppTagged(p: seq<byte>, c: Cursor, d: Cursor, long: bool)
    requires Tagged(c, d) && c.ethOffset + 28 <= |p|
    ensures TaggedOutcome(PppStep(p, c, long), PppStep(p, d, long))
  {
  }

  lemma DatalinkTagged(p: seq<byte>, c: Cursor, d: Cursor)
    requires Tagged(c, d)
    ensures TaggedOutcome(DatalinkStep(p, c), DatalinkStep(p, d))
  {
    var e := c.ethOffset;
    if e + 28 <= |p| {
      match c.datalink
      case Ethernet => EthernetTagged(p, c, d);
      case CiscoPpp => PppTagged(p, c, d, p[0] == 0x0f || p[0] == 0x8f);
      case Radiotap =>
        var dot11 := e + Le16(p, e + 2);
        if dot11 + 24 <= |p| { Dot11Tagged(p, c, d, dot11, Le16(p, dot11)); }
      case LinuxSll => FramedTagged(c, d, e + 16, Be16(p, e + 14));
      case LinuxSll2 => FramedTagged(c, d, e + 20, Be16(p, e + 10));
      case PppSerial => FramedTagged(c, d, e + 4, Be16(p, e + 2));
      case _ =>
    }
  }

  // The tag is written and never read.
  lemma StepTagged(p: seq<byte>, c: Cursor, d: Cursor)
    requires Tagged(c, d)
    ensures TaggedOutcome(Step(true, p, c), Step(true, p, d))
  {
    match c.phase
    case DatalinkCheck => DatalinkTagged(p, c, d);
    case IphCheck => IphTagged(p, c, d);
    case _ =>
  }

  ghost predicate TagsThrough(m: Machine) {
    forall c, d | Tagged(c, d) :: TaggedOutcome(m(c), m(d))
  }

  lemma {:induction false} RunTagged(m: Machine, c: Cursor, d: Cursor, k: nat)
    requires TagsThrough(m) && Tagged(c, d)
    ensures TaggedOutcome(Run(m, c, k), Run(m, d, k))
    decreases k
  {
    if k > 0 {
      assert TaggedOutcome(m(c), m(d));
      match m(c)
      case Goto(c') => RunTagged(m, c', m(d).cursor, k - 1);
      case _ =>
    }
  }

  // The type behind a stack of tags.
  function InnerType(frame: seq<byte>, tags: seq<U16>): (t: U16)
    requires 14 + 4 * |tags| <= |frame|
  {
    Be16(frame, 12 + 4 * |tags|)
  }

  // An Ethernet frame, with any number of VLAN tags, that carries IPv4, or IPv6 with the version
  // to match.
  ghost predicate IsIpFrame(frame: seq<byte>, tags: seq<U16>) {
    var at := 14 + 4 * |tags|;
    && at + 20 <= |frame| && (tags != [] ==> Be16(frame, 12) == ETH_P_VLAN)
    && VlanStackAt(frame, 14, tags, InnerType(frame, tags))
    && (InnerType(frame, tags) == ETH_P_IP || (InnerType(frame, tags) == ETH_P_IPV6 && frame[at] / 16 == 6))
  }

  // Steps up to the first IP header, and where the machine stands there.
  function Ahead(tags: seq<U16>): (k: nat) { if tags == [] then 2 else |tags| + 3 }

  function AtIp(frame: seq<byte>, tags: seq<U16>, c: Cursor): (d: Cursor)
    requires 14 + 4 * |tags| <= |frame|
  {
    BehindTags(c.(ipOffset := 14), tags, InnerType(frame, tags)).(phase := IphCheck)
  }

  lemma FirstHeader(frame: seq<byte>, tags: seq<U16>, c: Cursor)
    requires IsIpFrame(frame, tags) && |frame| <= MAX_SAFE_CAPLEN
    requires c.phase.DatalinkCheck? && c.datalink.Ethernet? && c.ethOffset == c.llcLen == 0
    ensures Run(Decapsulator(true, frame), c, Ahead(tags)) == Goto(AtIp(frame, tags, c))
  {
    var m, inner := Decapsulator(true, frame), InnerType(frame, tags);
    var c1 := c.(phase := EtherTypeCheck, ipOffset := 14, etherType := Be16(frame, 12));
    var c2 := BehindTags(c.(ipOffset := 14), tags, inner);
    assert m(c) == Goto(c1) && m(c2) == Goto(AtIp(frame, tags, c));
    RunStep(m, c, c1, 0);
    RunStep(m, c2, AtIp(frame, tags, c), 0);
    if tags == [] {
      assert c1 == c2;
      RunCompose(m, c, 1, c1, 1);
    } else {
      VlanStackPeeled(true, frame, c1, tags, inner);
      assert BehindTags(c1, tags, inner) == c2;
      RunCompose(m, c, 1, c1, |tags| + 1);
      RunCompose(m, c, |tags| + 2, c2, 1);
    }
  }

  // The first IP header overwrites the variables the envelope left behind.
  lemma FirstHeaderTagged(frame: seq<byte>, tags: seq<U16>, c: Cursor, d: Cursor)
    requires IsIpFrame(frame, tags) && c.ipOffset == 14 + 4 * |tags| && c.etherType == InnerType(frame, tags)
    requires Tagged(c, d.(proto := c.proto))
    ensures TaggedOutcome(IphStep(true, frame, c), IphStep(true, frame, d))
  {
    var c1, d1 := NoteIpv4Fields(frame, c), NoteIpv4Fields(frame, d);
    if c.etherType == ETH_P_IP { Ipv4Tagged(frame, c1, d1); }
    Ipv6Tagged(frame, c1, d1);
  }

  // What an envelope of n octets does to an outcome: it moves the position, and sets the tag.
  ghost predicate Enveloped(o: Outcome, r: Outcome, n: nat) {
    match o
    case Goto(_) => r.Goto?
    case Discard => r.Discard?
    case Deliver(ipOffset, ipv6, vlanId, tunnel) =>
      r.Deliver? && r.ipOffset == n + ipOffset && r.ipv6 == ipv6 && r.vlanId == vlanId && r.tunnel == Tag(tunnel)
  }

  lemma TaggedFromHeader(frame: seq<byte>, tags: seq<U16>, c: Cursor, d: Cursor, k: nat)
    requires IsIpFrame(frame, tags) && c.phase.IphCheck? && c.ipOffset == 14 + 4 * |tags| && c.etherType == InnerType(frame, tags)
    requires Tagged(c, d.(proto := c.proto))
    ensures TaggedOutcome(Run(Decapsulator(true, frame), c, k + 1), Run(Decapsulator(true, frame), d, k + 1))
  {
    var m := Decapsulator(true, frame);
    FirstHeaderTagged(frame, tags, c, d);
    forall x, y | Tagged(x, y) ensures TaggedOutcome(m(x), m(y)) { StepTagged(frame, x, y); }
    if m(c).Goto? { RunTagged(m, m(c).cursor, m(d).cursor, k); }
  }

  // Decapsulation undoes VXLAN encapsulation: from a fresh start on both sides, an IP frame
  // is delivered, discarded or still running exactly as the bare frame is.
  lemma VxlanRoundTrip(h: seq<byte>, frame: seq<byte>, tags: seq<U16>, k: nat)
    requires IsVxlanEnvelope(h) && IsIpFrame(frame, tags) && |h| + |frame| <= MAX_SAFE_CAPLEN
    ensures Enveloped(Run(Decapsulator(true, frame), Start(Ethernet), Ahead(tags) + (k + 1)),
                      Run(Decapsulator(true, h + frame), Start(Ethernet), Ahead(tags) + (k + 1) + 3), |h|)
  {
    var n := Ahead(tags) + (k + 1);
    BareIsTagged(h, frame, tags, k);
    EnvelopeCarriesOver(h, frame, n);
    TaggedAndMoved(Run(Decapsulator(true, frame), Start(Ethernet), n), Run(Decapsulator(true, frame), InsideEnvelope(h), n),
                   Run(Decapsulator(true, h + frame), Start(Ethernet), n + 3), |h|);
  }

  // The bare frame from a fresh start, and as the envelope leaves the variables.
  lemma BareIsTagged(h: seq<byte>, frame: seq<byte>, tags: seq<U16>, k: nat)
    requires IsVxlanEnvelope(h) && IsIpFrame(frame, tags) && |frame| <= MAX_SAFE_CAPLEN
    ensures TaggedOutcome(Run(Decapsulator(true, frame), Start(Ethernet), Ahead(tags) + (k + 1)),
                          Run(Decapsulator(true, frame), InsideEnvelope(h), Ahead(tags) + (k + 1)))
  {
    var m := Decapsulator(true, frame);
    var c, d := AtIp(frame, tags, Start(Ethernet)), AtIp(frame, tags, InsideEnvelope(h));
    FirstHeader(frame, tags, Start(Ethernet));
    FirstHeader(frame, tags, InsideEnvelope(h));
    AtIpTagged(h, frame, tags);
    TaggedFromHeader(frame, tags, c, d, k);
    TaggedLater(m, Start(Ethernet), c, InsideEnvelope(h), d, Ahead(tags), k + 1);
  }

  lemma AtIpTagged(h: seq<byte>, frame: seq<byte>, tags: seq<U16>)
    requires IsVxlanEnvelope(h) && 14 + 4 * |tags| <= |frame| <= MAX_SAFE_CAPLEN
    ensures var c, d := AtIp(frame, tags, Start(Ethernet)), AtIp(frame, tags, InsideEnvelope(h));
            && c.phase.IphCheck? && c.ipOffset == 14 + 4 * |tags| && c.etherType == InnerType(frame, tags)
            && Tagged(c, d.(proto := c.proto))
  {
  }

  lemma TaggedLater(m: Machine, b: Cursor, c: Cursor, a: Cursor, d: Cursor, j: nat, k: nat)
    requires Run(m, b, j) == Goto(c) && Run(m, a, j) == Goto(d) && TaggedOutcome(Run(m, c, k), Run(m, d, k))
    ensures TaggedOutcome(Run(m, b, j + k), Run(m, a, j + k))
  {
    RunCompose(m, b, j, c, k);
    RunCompose(m, a, j, d, k);
  }

  lemma TaggedAndMoved(o: Outcome, tagged: Outcome, moved: Outcome, n: nat)
    requires TaggedOutcome(o, tagged) && SameOutcome(tagged, moved, n)
    ensures Enveloped(o, moved, n)
  {
  }
}
