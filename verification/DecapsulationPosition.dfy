/** Position independence: what the machine makes of an inner frame depends only on
    the bytes of that frame and the variables carried over, not on the layers that
    were peeled before it.  The one exception is the Cisco PPP datalink, which reads
    the first octet of the capture; it is stated exactly. */
module DecapsulationPosition {
  import opened Octets
  import opened Decapsulation
  import opened DecapsulationHalting

  // q is p behind n more octets.
  ghost predicate Behind(p: seq<byte>, q: seq<byte>, n: nat) {
    && |q| == n + |p| <= MAX_SAFE_CAPLEN
    && (forall i :: 0 <= i < |p| ==> p[i] == q[n + i])
  }

  // d stands n octets further than c, with every other variable that is still read the same.
  ghost predicate Aligned(c: Cursor, d: Cursor, n: nat) {
    && d == c.(ethOffset := d.ethOffset, ipOffset := d.ipOffset)
    && (if c.phase.DatalinkCheck? then d.ethOffset == n + c.ethOffset else d.ipOffset == n + c.ipOffset)
  }

  ghost predicate SameOutcome(o: Outcome, r: Outcome, n: nat) {
    match o
    case Goto(c) => r.Goto? && Aligned(c, r.cursor, n)
    case Discard => r.Discard?
    case Deliver(ipOffset, ipv6, vlanId, tunnel) =>
      r.Deliver? && r.ipOffset == n + ipOffset && r.ipv6 == ipv6 && r.vlanId == vlanId && r.tunnel == tunnel
  }

  lemma LoadsShift(p: seq<byte>, q: seq<byte>, n: nat, i: nat)
    requires Behind(p, q, n) && i + 2 <= |p|
    ensures Be16(q, n + i) == Be16(p, i) && Le16(q, n + i) == Le16(p, i)
  {
    assert p[i] == q[n + i] && p[i + 1] == q[n + (i + 1)];
  }

  // The Cisco PPP branch takes the four-octet header where the capture starts with one of these.
  predicate LongPpp(p: seq<byte>) {
    |p| > 0 && (p[0] == 0x0f || p[0] == 0x8f)
  }

  predicate AsksPpp(p: seq<byte>, c: Cursor) {
    c.phase.DatalinkCheck? && c.datalink.CiscoPpp? && c.ethOffset + 28 <= |p|
  }

  // One step at the Cisco PPP branch does not depend on the position exactly when the
  // first octets of the two captures agree.
  lemma PppStepIff(p: seq<byte>, q: seq<byte>, n: nat, c: Cursor, d: Cursor)
    requires Behind(p, q, n) && Aligned(c, d, n) && AsksPpp(p, c)
    ensures SameOutcome(DatalinkStep(p, c), DatalinkStep(q, d), n) <==> (LongPpp(p) <==> LongPpp(q))
  {
    PppShift(p, q, n, c, d, LongPpp(p), LongPpp(q));
  }

  lemma PppShift(p: seq<byte>, q: seq<byte>, n: nat, c: Cursor, d: Cursor, long: bool, far: bool)
    requires Behind(p, q, n) && Aligned(c, d, n) && c.phase.DatalinkCheck? && c.ethOffset + 28 <= |p|
    ensures SameOutcome(PppStep(p, c, long), PppStep(q, d, far), n) <==> long == far
  {
    var e := c.ethOffset;
    LoadsShift(p, q, n, e + 2);
    assert p[e + 1] == q[n + (e + 1)];
  }

  lemma DatalinkShift(p: seq<byte>, q: seq<byte>, n: nat, c: Cursor, d: Cursor)
    requires Behind(p, q, n) && Aligned(c, d, n) && c.phase.DatalinkCheck?
    requires AsksPpp(p, c) ==> (LongPpp(p) <==> LongPpp(q))
    ensures SameOutcome(DatalinkStep(p, c), DatalinkStep(q, d), n)
  {
    var e := c.ethOffset;
    if e + 28 <= |p| {
      if c.datalink.Ethernet? { EthernetShift(p, q, n, c, d); }
      else if c.datalink.Radiotap? { RadiotapShift(p, q, n, c, d); }
      else if c.datalink.CiscoPpp? { PppStepIff(p, q, n, c, d); }
      else { PlainDatalinkShift(p, q, n, c, d); }
    }
  }

  lemma FramedShift(n: nat, c: Cursor, d: Cursor, offset: nat, etherType: U16)
    requires c.phase.DatalinkCheck? && Aligned(c, d, n) && n + offset < 0x1_0000
    ensures SameOutcome(Framed(c, offset, etherType), Framed(d, n + offset, etherType), n)
  {
  }

  lemma PlainDatalinkShift(p: seq<byte>, q: seq<byte>, n: nat, c: Cursor, d: Cursor)
    requires Behind(p, q, n) && Aligned(c, d, n) && c.ethOffset + 28 <= |p|
    requires c.phase.DatalinkCheck? && !c.datalink.Ethernet? && !c.datalink.Radiotap? && !c.datalink.CiscoPpp?
    ensures SameOutcome(DatalinkStep(p, c), DatalinkStep(q, d), n)
  {
    var e := c.ethOffset;
    forall offset: nat, etherType | offset < |p|
      ensures SameOutcome(Framed(c, offset, etherType), Framed(d, n + offset, etherType), n)
    {
      FramedShift(n, c, d, offset, etherType);
    }
    match c.datalink
    case PppSerial => LoadsShift(p, q, n, e + 2);
    case LinuxSll => LoadsShift(p, q, n, e + 14);
    case LinuxSll2 => LoadsShift(p, q, n, e + 10);
    case Ppi => LoadsShift(p, q, n, e + 2);
    case _ =>
  }

  lemma EthernetShift(p: seq<byte>, q: seq<byte>, n: nat, c: Cursor, d: Cursor)
    requires Behind(p, q, n) && Aligned(c, d, n)
    requires c.phase.DatalinkCheck? && c.ethOffset + 28 <= |p|
    ensures SameOutcome(EthernetStep(p, c), EthernetStep(q, d), n)
  {
    var ip := c.ethOffset + 14;
    LoadsShift(p, q, n, ip - 2);
    var check := Be16(p, ip - 2);
    var llcLen := if check <= 1500 then check else c.llcLen;
    var etherType := if check >= 1536 then check else c.etherType;
    FramedShift(n, c.(llcLen := llcLen), d.(llcLen := llcLen), ip, etherType);
    LlcShift(p, q, n, c.(llcLen := llcLen), d.(llcLen := llcLen), ip, etherType);
  }

  lemma LlcShift(p: seq<byte>, q: seq<byte>, n: nat, c: Cursor, d: Cursor, ip: nat, etherType: U16)
    requires Behind(p, q, n) && Aligned(c, d, n) && c.phase.DatalinkCheck? && ip + 8 < |p|
    ensures SameOutcome(LlcStep(p, c, ip, etherType), LlcStep(q, d, n + ip, etherType), n)
  {
    LoadsShift(p, q, n, ip + 6);
    assert p[ip] == q[n + ip] && p[ip + 1] == q[n + (ip + 1)];
    FramedShift(n, c, d, ip, etherType);
    FramedShift(n, c, d, ip + 8, Le16(p, ip + 6));
  }

  lemma RadiotapShift(p: seq<byte>, q: seq<byte>, n: nat, c: Cursor, d: Cursor)
    requires Behind(p, q, n) && Aligned(c, d, n)
    requires c.phase.DatalinkCheck? && c.ethOffset + 28 <= |p|
    ensures SameOutcome(RadiotapStep(p, c), RadiotapStep(q, d), n)
  {
    var e := c.ethOffset;
    LoadsShift(p, q, n, e + 2);
    assert p[e + 16] == q[n + (e + 16)];
    var radioLen := Le16(p, e + 2);
    if e + radioLen + 24 <= |p| {
      LoadsShift(p, q, n, e + radioLen);
      Dot11Shift(p, q, n, c, d, e + radioLen, Le16(p, e + radioLen));
    }
  }

  lemma Dot11Shift(p: seq<byte>, q: seq<byte>, n: nat, c: Cursor, d: Cursor, dot11: nat, fc: U16)
    requires Behind(p, q, n) && Aligned(c, d, n) && c.phase.DatalinkCheck?
    ensures SameOutcome(Dot11Step(p, c, dot11, fc), Dot11Step(q, d, n + dot11, fc), n)
  {
    var wifiLen := if Bit(fc, 0x100) != Bit(fc, 0x200) then 26 else c.wifiLen;
    WifiShift(p, q, n, c.(wifiLen := wifiLen), d.(wifiLen := wifiLen), dot11 + wifiLen);
  }

  lemma WifiShift(p: seq<byte>, q: seq<byte>, n: nat, c: Cursor, d: Cursor, llc: nat)
    requires Behind(p, q, n) && Aligned(c, d, n) && c.phase.DatalinkCheck?
    ensures SameOutcome(WifiStep(p, c, llc), WifiStep(q, d, n + llc), n)
  {
    if llc + 8 <= |p| {
      LoadsShift(p, q, n, llc + 6);
      FramedShift(n, c, d, llc + 8, if p[llc] == SNAP then Be16(p, llc + 6) else c.etherType);
    }
  }

  lemma PopShift(p: seq<byte>, q: seq<byte>, n: nat, c: Cursor, d: Cursor)
    requires Behind(p, q, n) && Aligned(c, d, n) && !c.phase.DatalinkCheck? && c.ipOffset + 4 < |p|
    ensures Aligned(PopVlan(p, c), PopVlan(q, d), n) && Aligned(PopMpls(p, c), PopMpls(q, d), n)
  {
    LoadsShift(p, q, n, c.ipOffset);
    LoadsShift(p, q, n, c.ipOffset + 2);
  }

  lemma EtherTypeShift(p: seq<byte>, q: seq<byte>, n: nat, c: Cursor, d: Cursor)
    requires Behind(p, q, n) && Aligned(c, d, n) && Within(p, c)
    requires !c.phase.DatalinkCheck? && !c.phase.IphCheck?
    ensures c.phase.EtherTypeCheck? ==> SameOutcome(EtherTypeStep(p, c), EtherTypeStep(q, d), n)
    ensures c.phase.VlanTags? ==> SameOutcome(VlanStep(p, c), VlanStep(q, d), n)
    ensures c.phase.MplsLabels? ==> SameOutcome(MplsStep(p, c), MplsStep(q, d), n)
  {
    if c.ipOffset + 4 < |p| {
      PopShift(p, q, n, c, d);
      PopShift(p, q, n, c.(etherType := ETH_P_IP), d.(etherType := ETH_P_IP));
    }
  }

  lemma ExtensionSizeShift(p: seq<byte>, q: seq<byte>, n: nat, l3Len: U16, l4: nat, l4Len: U16, next: byte)
    requires Behind(p, q, n) && l4 + l4Len <= |p|
    ensures ExtensionSize(q, l3Len, n + l4, l4Len, next) == ExtensionSize(p, l3Len, l4, l4Len, next)
  {
    if l4Len >= 4 { LoadsShift(p, q, n, l4 + 2); }
    if l4Len >= 2 { assert p[l4 + 1] == q[n + (l4 + 1)]; }
  }

  lemma {:induction false} ExtensionsShift(p: seq<byte>, q: seq<byte>, n: nat, l3Len: U16, l4: nat, l4Len: U16, next: byte)
    requires Behind(p, q, n) && l4 + l4Len <= |p|
    ensures var w := SkipExtensionHeaders(p, l3Len, l4, l4Len, next);
            SkipExtensionHeaders(q, l3Len, n + l4, l4Len, next) ==
            (if w.Transport? then w.(l4 := n + w.l4) else w)
    decreases l4Len
  {
    if l3Len > 1 && IsExtensionHeader(next) {
      ExtensionSizeShift(p, q, n, l3Len, l4, l4Len, next);
      var (spent, extLen) := ExtensionSize(p, l3Len, l4, l4Len, next);
      if extLen != 0 {
        assert p[l4] == q[n + l4];
        ExtensionsShift(p, q, n, l3Len - spent, l4 + extLen, l4Len - extLen, p[l4]);
      }
    }
  }

  lemma {:induction false} GtpExtensionsShift(p: seq<byte>, q: seq<byte>, n: nat, offset: nat)
    requires Behind(p, q, n)
    ensures var (inner, broken) := GtpExtensions(p, offset);
            GtpExtensions(q, n + offset) == (n + inner, broken)
    decreases |p| - offset
  {
    if offset < |p| {
      assert p[offset] == q[n + offset];
      var next := offset + 4 * p[offset] as int;
      if offset < next < |p| {
        assert p[next - 1] == q[n + (next - 1)];
        GtpExtensionsShift(p, q, n, next);
      }
    }
  }

  lemma GtpPayloadShift(p: seq<byte>, q: seq<byte>, n: nat, gtp: nat)
    requires Behind(p, q, n) && gtp + 8 < |p|
    ensures GtpPayload(q, n + gtp) == if GtpPayload(p, gtp) == 0 then 0 else n + GtpPayload(p, gtp)
  {
    assert p[gtp] == q[n + gtp] && p[gtp + 1] == q[n + (gtp + 1)];
    var first := gtp + 8 + (if p[gtp] % 8 != 0 then 4 else 0);
    GtpExtensionsShift(p, q, n, first);
  }

  lemma GtpShift(p: seq<byte>, q: seq<byte>, n: nat, c: Cursor, d: Cursor, gtp: nat, ipv6: bool)
    requires Behind(p, q, n) && Aligned(c, d, n) && c.phase.IphCheck? && gtp + 8 < |p|
    ensures SameOutcome(GtpStep(p, c, gtp, ipv6), GtpStep(q, d, n + gtp, ipv6), n)
  {
    GtpPayloadShift(p, q, n, gtp);
    var inner := GtpPayload(p, gtp);
    if inner != 0 { assert p[inner] == q[n + inner]; }
  }

  lemma TzspShift(p: seq<byte>, q: seq<byte>, n: nat, c: Cursor, d: Cursor, tzsp: nat, ipv6: bool)
    requires Behind(p, q, n) && Aligned(c, d, n) && c.phase.IphCheck?
    ensures SameOutcome(TzspStep(p, c, tzsp, ipv6), TzspStep(q, d, n + tzsp, ipv6), n)
  {
    if tzsp + 4 <= |p| { LoadsShift(p, q, n, tzsp + 2); }
  }

  lemma CapwapShift(p: seq<byte>, q: seq<byte>, n: nat, c: Cursor, d: Cursor, capwap: nat, ipv6: bool)
    requires Behind(p, q, n) && Aligned(c, d, n) && c.phase.IphCheck?
    ensures SameOutcome(CapwapStep(p, c, capwap, ipv6), CapwapStep(q, d, n + capwap, ipv6), n)
  {
    if capwap + 1 < |p| {
      var dot11 := capwap + p[capwap + 1] / 8 * 4;
      if dot11 + 32 < |p| { LoadsShift(p, q, n, dot11 + 30); }
    }
  }

  lemma ToDatalinkShift(n: nat, c: Cursor, d: Cursor, offset: nat)
    requires Aligned(c, d, n) && c.phase.IphCheck?
    ensures Aligned(c.(phase := DatalinkCheck, ethOffset := offset), d.(phase := DatalinkCheck, ethOffset := n + offset), n)
  {
  }

  lemma UdpTunnelShift(p: seq<byte>, q: seq<byte>, n: nat, udp: nat)
    requires Behind(p, q, n) && udp + 8 <= |p|
    ensures UdpTunnel(q, n + udp) == UdpTunnel(p, udp)
  {
    LoadsShift(p, q, n, udp);
    LoadsShift(p, q, n, udp + 2);
  }

  lemma UdpShift(p: seq<byte>, q: seq<byte>, n: nat, c: Cursor, d: Cursor, ipLen: U16, ipv6: bool)
    requires Behind(p, q, n) && Aligned(c, d, n) && c.phase.IphCheck?
    ensures SameOutcome(UdpStep(p, c, ipLen, ipv6), UdpStep(q, d, ipLen, ipv6), n)
  {
    var udp := c.ipOffset + ipLen;
    if udp + 8 <= |p| {
      UdpTunnelShift(p, q, n, udp);
      TunnelShift(p, q, n, c, d, udp, ipv6, UdpTunnel(p, udp));
    }
  }

  lemma TunnelShift(p: seq<byte>, q: seq<byte>, n: nat, c: Cursor, d: Cursor, udp: nat, ipv6: bool, t: Tunnel)
    requires Behind(p, q, n) && Aligned(c, d, n) && c.phase.IphCheck? && (t.GtpTunnel? ==> udp + 16 < |p|)
    ensures SameOutcome(TunnelStep(p, c, udp, ipv6, t), TunnelStep(q, d, n + udp, ipv6, t), n)
  {
    if t.GtpTunnel? { GtpShift(p, q, n, c, d, udp + 8, ipv6); }
    else if t.TzspTunnel? { TzspShift(p, q, n, c, d, udp + 8, ipv6); }
    else if t.CapwapTunnel? { CapwapShift(p, q, n, c, d, udp + 8, ipv6); }
    else { OtherTunnelShift(p, q, n, c, d, udp, ipv6, t); }
  }

  lemma OtherTunnelShift(p: seq<byte>, q: seq<byte>, n: nat, c: Cursor, d: Cursor, udp: nat, ipv6: bool, t: Tunnel)
    requires Aligned(c, d, n) && c.phase.IphCheck? && !t.GtpTunnel? && !t.TzspTunnel? && !t.CapwapTunnel?
    ensures SameOutcome(TunnelStep(p, c, udp, ipv6, t), TunnelStep(q, d, n + udp, ipv6, t), n)
  {
    ToDatalinkShift(n, c.(tunnel := VxlanTunnel), d.(tunnel := VxlanTunnel), udp + 16);
  }

  lemma GreShift(p: seq<byte>, q: seq<byte>, n: nat, c: Cursor, d: Cursor, ipLen: U16)
    requires Behind(p, q, n) && Aligned(c, d, n) && c.phase.IphCheck?
    ensures SameOutcome(GreStep(p, c, ipLen), GreStep(q, d, ipLen), n)
  {
    var gre := c.ipOffset + ipLen;
    if gre + 4 <= |p| { GreShiftAt(p, q, n, c.(tunnel := GreTunnel), d.(tunnel := GreTunnel), gre); }
  }

  lemma GreShiftAt(p: seq<byte>, q: seq<byte>, n: nat, c: Cursor, d: Cursor, gre: nat)
    requires Behind(p, q, n) && Aligned(c, d, n) && c.phase.IphCheck? && gre + 4 <= |p|
    ensures SameOutcome(GreAt(p, c, gre), GreAt(q, d, n + gre), n)
  {
    LoadsShift(p, q, n, gre + 2);
    GrePayloadShift(p, q, n, gre);
    var inner := GrePayload(p, gre);
    if inner != 0 { GreInnerShift(n, c, d, inner, Be16(p, gre + 2)); }
  }

  lemma GreInnerShift(n: nat, c: Cursor, d: Cursor, inner: nat, protocol: U16)
    requires Aligned(c, d, n) && c.phase.IphCheck? && n + inner + PPP_HDRLEN < 0x1_0000
    ensures SameOutcome(GreInner(c, inner, protocol), GreInner(d, n + inner, protocol), n)
  {
    ToIphShift(n, c, d, inner);
    ToIphShift(n, c, d, inner + PPP_HDRLEN);
    ToDatalinkShift(n, c, d, inner);
  }

  lemma GrePayloadShift(p: seq<byte>, q: seq<byte>, n: nat, gre: nat)
    requires Behind(p, q, n) && gre + 4 <= |p|
    ensures GrePayload(q, n + gre) == if GrePayload(p, gre) == 0 then 0 else n + GrePayload(p, gre)
  {
    LoadsShift(p, q, n, gre + 2);
    assert p[gre] == q[n + gre] && p[gre + 1] == q[n + (gre + 1)];
  }

  lemma TransportShift(decodeTunnels: bool, p: seq<byte>, q: seq<byte>, n: nat, c: Cursor, d: Cursor, ipLen: U16, ipv6: bool)
    requires Behind(p, q, n) && Aligned(c, d, n) && c.phase.IphCheck?
    ensures SameOutcome(TransportStep(decodeTunnels, p, c, ipLen, ipv6), TransportStep(decodeTunnels, q, d, ipLen, ipv6), n)
  {
    UdpShift(p, q, n, c, d, ipLen, ipv6);
    GreShift(p, q, n, c, d, ipLen);
  }

  lemma Ipv4Shift(decodeTunnels: bool, p: seq<byte>, q: seq<byte>, n: nat, c: Cursor, d: Cursor)
    requires Behind(p, q, n) && Aligned(c, d, n) && c.phase.IphCheck? && c.ipOffset + 20 <= |p|
    ensures SameOutcome(Ipv4Step(decodeTunnels, p, c), Ipv4Step(decodeTunnels, q, d), n)
  {
    var ip := c.ipOffset;
    assert p[ip] == q[n + ip] && p[ip + 9] == q[n + (ip + 9)];
    ToIphShift(n, c, d, ip + p[ip] % 16 * 4);
    TransportShift(decodeTunnels, p, q, n, c, d, p[ip] % 16 * 4, false);
  }

  lemma IphShift(decodeTunnels: bool, p: seq<byte>, q: seq<byte>, n: nat, c: Cursor, d: Cursor)
    requires Behind(p, q, n) && Aligned(c, d, n) && c.phase.IphCheck?
    ensures SameOutcome(IphStep(decodeTunnels, p, c), IphStep(decodeTunnels, q, d), n)
  {
    var ip := c.ipOffset;
    if ip + 20 <= |p| {
      LoadsShift(p, q, n, ip + 6);
      assert p[ip] == q[n + ip] && p[ip + 9] == q[n + (ip + 9)];
      var c1, d1 := NoteIpv4Fields(p, c), NoteIpv4Fields(q, d);
      assert Aligned(c1, d1, n);
      if p[ip] / 16 == 4 {
        Ipv4Shift(decodeTunnels, p, q, n, c1, d1);
      } else if p[ip] / 16 == 6 {
        Ipv6Shift(decodeTunnels, p, q, n, c1, d1);
      }
    }
  }

  lemma ToIphShift(n: nat, c: Cursor, d: Cursor, offset: nat)
    requires c.phase.IphCheck? && Aligned(c, d, n) && n + offset < 0x1_0000
    ensures SameOutcome(ToIph(c, offset), ToIph(d, n + offset), n)
  {
  }

  lemma Ipv6TransportShift(p: seq<byte>, q: seq<byte>, n: nat, ip: nat)
    requires Behind(p, q, n)
    ensures var w := Ipv6Transport(p, ip);
            Ipv6Transport(q, n + ip) == (if w.Transport? then w.(l4 := n + w.l4) else w)
  {
    if ip + 40 <= |p| {
      LoadsShift(p, q, n, ip + 4);
      var len := Be16(p, ip + 4);
      if ip + 40 + len <= |p| {
        assert p[ip + 6] == q[n + (ip + 6)];
        ExtensionsShift(p, q, n, Trunc16(|p| - ip - 40), ip + 40, len, p[ip + 6]);
      }
    }
  }

  lemma Ipv6Shift(decodeTunnels: bool, p: seq<byte>, q: seq<byte>, n: nat, c: Cursor, d: Cursor)
    requires Behind(p, q, n) && Aligned(c, d, n) && c.phase.IphCheck?
    ensures SameOutcome(Ipv6Step(decodeTunnels, p, c), Ipv6Step(decodeTunnels, q, d), n)
  {
    Ipv6TransportShift(p, q, n, c.ipOffset);
    match Ipv6Transport(p, c.ipOffset)
    case NoTransport =>
    case Transport(l4, l4Len, proto) =>
      ToIphShift(n, c.(proto := proto), d.(proto := proto), l4);
      TransportShift(decodeTunnels, p, q, n, c.(proto := proto), d.(proto := proto), l4Len, true);
  }

  lemma StepShift(decodeTunnels: bool, p: seq<byte>, q: seq<byte>, n: nat, c: Cursor, d: Cursor)
    requires Behind(p, q, n) && Aligned(c, d, n) && Within(p, c)
    requires AsksPpp(p, c) ==> (LongPpp(p) <==> LongPpp(q))
    ensures SameOutcome(Step(decodeTunnels, p, c), Step(decodeTunnels, q, d), n)
  {
    match c.phase
    case DatalinkCheck => DatalinkShift(p, q, n, c, d);
    case EtherTypeCheck => EtherTypeShift(p, q, n, c, d);
    case VlanTags => EtherTypeShift(p, q, n, c, d);
    case MplsLabels => EtherTypeShift(p, q, n, c, d);
    case IphCheck => IphShift(decodeTunnels, p, q, n, c, d);
  }

  // ------------------------------------------------------------------ whole runs

  // The two machines move alike wherever the Cisco PPP branch is not asked, or answers alike.
  ghost predicate InStep(p: seq<byte>, n: nat, alike: bool, m: Machine, w: Machine) {
    forall c, d | Within(p, c) && Aligned(c, d, n) && (alike || !AsksPpp(p, c)) :: SameOutcome(m(c), w(d), n)
  }

  ghost predicate NeverAsksPpp(p: seq<byte>, m: Machine, c: Cursor) {
    forall k: nat :: !StopsAtPpp(p, Run(m, c, k))
  }

  predicate StopsAtPpp(p: seq<byte>, o: Outcome) {
    o.Goto? && AsksPpp(p, o.cursor)
  }

  lemma NeverAsksNext(p: seq<byte>, m: Machine, c: Cursor)
    requires NeverAsksPpp(p, m, c)
    ensures !AsksPpp(p, c)
    ensures m(c).Goto? ==> NeverAsksPpp(p, m, m(c).cursor)
  {
    assert !StopsAtPpp(p, Run(m, c, 0));
    if m(c).Goto? {
      forall k: nat ensures !StopsAtPpp(p, Run(m, m(c).cursor, k)) {
        assert Run(m, c, k + 1) == Run(m, m(c).cursor, k);
      }
    }
  }

  lemma {:induction false} RunShift(p: seq<byte>, n: nat, alike: bool, m: Machine, w: Machine, c: Cursor, d: Cursor, k: nat)
    requires |p| <= MAX_SAFE_CAPLEN && SoundMachine(p, m) && InStep(p, n, alike, m, w)
    requires Within(p, c) && Aligned(c, d, n) && (alike || NeverAsksPpp(p, m, c))
    ensures SameOutcome(Run(m, c, k), Run(w, d, k), n)
    decreases k
  {
    if k > 0 {
      if !alike { NeverAsksNext(p, m, c); }
      assert Sound(p, c, m(c)) && SameOutcome(m(c), w(d), n);
      match m(c)
      case Goto(c') => RunShift(p, n, alike, m, w, c', w(d).cursor, k - 1);
      case _ =>
    }
  }

  lemma {:induction false} RunThenStep(m: Machine, c: Cursor, k: nat)
    requires Run(m, c, k).Goto?
    ensures Run(m, c, k + 1) == m(Run(m, c, k).cursor)
    decreases k
  {
    if k == 0 {
      assert Run(m, c, 1) == m(c);
    } else {
      RunThenStep(m, m(c).cursor, k - 1);
    }
  }

  lemma MachinesInStep(decodeTunnels: bool, peeled: seq<byte>, p: seq<byte>)
    requires |peeled| + |p| <= MAX_SAFE_CAPLEN
    ensures InStep(p, |peeled|, LongPpp(p) <==> LongPpp(peeled + p),
                   Decapsulator(decodeTunnels, p), Decapsulator(decodeTunnels, peeled + p))
  {
    var q, n := peeled + p, |peeled|;
    assert Behind(p, q, n);
    var m, w := Decapsulator(decodeTunnels, p), Decapsulator(decodeTunnels, q);
    forall c, d | Within(p, c) && Aligned(c, d, n) && ((LongPpp(p) <==> LongPpp(q)) || !AsksPpp(p, c))
      ensures SameOutcome(m(c), w(d), n)
    {
      StepShift(decodeTunnels, p, q, n, c, d);
    }
  }

  lemma PppParts(decodeTunnels: bool, peeled: seq<byte>, p: seq<byte>, c: Cursor, d: Cursor, k: nat)
    requires |peeled| + |p| <= MAX_SAFE_CAPLEN && !(LongPpp(p) <==> LongPpp(peeled + p))
    requires StopsAtPpp(p, Run(Decapsulator(decodeTunnels, p), c, k))
    ensures exists j: nat :: !SameOutcome(Run(Decapsulator(decodeTunnels, p), c, j),
                                          Run(Decapsulator(decodeTunnels, peeled + p), d, j), |peeled|)
  {
    var q, n := peeled + p, |peeled|;
    var m, w := Decapsulator(decodeTunnels, p), Decapsulator(decodeTunnels, q);
    if SameOutcome(Run(m, c, k), Run(w, d, k), n) {
      RunThenStep(m, c, k);
      RunThenStep(w, d, k);
      PppStepIff(p, q, n, Run(m, c, k).cursor, Run(w, d, k).cursor);
      assert !SameOutcome(Run(m, c, k + 1), Run(w, d, k + 1), n);
    }
  }

  ghost predicate SuffixAlone(decodeTunnels: bool, peeled: seq<byte>, p: seq<byte>, c: Cursor, d: Cursor) {
    forall k: nat :: SameOutcome(Run(Decapsulator(decodeTunnels, p), c, k),
                                 Run(Decapsulator(decodeTunnels, peeled + p), d, k), |peeled|)
  }

  // The machine treats the rest of a capture as it would treat that rest alone, in every
  // step, exactly when the octet read at the start of the capture says the same of both or
  // the Cisco PPP branch is never asked.
  lemma SuffixDecidesIff(decodeTunnels: bool, peeled: seq<byte>, p: seq<byte>, c: Cursor, d: Cursor)
    requires |peeled| + |p| <= MAX_SAFE_CAPLEN && Within(p, c) && Aligned(c, d, |peeled|)
    ensures SuffixAlone(decodeTunnels, peeled, p, c, d) <==>
            ((LongPpp(p) <==> LongPpp(peeled + p)) || NeverAsksPpp(p, Decapsulator(decodeTunnels, p), c))
  {
    var m, w := Decapsulator(decodeTunnels, p), Decapsulator(decodeTunnels, peeled + p);
    var alike := LongPpp(p) <==> LongPpp(peeled + p);
    if alike || NeverAsksPpp(p, m, c) {
      DecapsulatorSound(decodeTunnels, p);
      MachinesInStep(decodeTunnels, peeled, p);
      forall k: nat ensures SameOutcome(Run(m, c, k), Run(w, d, k), |peeled|) {
        RunShift(p, |peeled|, alike, m, w, c, d, k);
      }
    } else {
      var k: nat :| StopsAtPpp(p, Run(m, c, k));
      PppParts(decodeTunnels, peeled, p, c, d, k);
    }
  }

  // No step turns another datalink into Cisco PPP.
  predicate Kept(c: Cursor, o: Outcome) {
    o.Goto? && o.cursor.datalink.CiscoPpp? ==> c.datalink.CiscoPpp?
  }

  lemma DatalinkStepKept(p: seq<byte>, c: Cursor)
    ensures Kept(c, DatalinkStep(p, c))
  {
  }

  lemma TunnelKept(p: seq<byte>, c: Cursor, udp: nat, ipv6: bool, t: Tunnel)
    requires t.GtpTunnel? ==> udp + 16 < |p|
    ensures Kept(c, TunnelStep(p, c, udp, ipv6, t))
  {
  }

  lemma GreKept(p: seq<byte>, c: Cursor, ipLen: U16)
    ensures Kept(c, GreStep(p, c, ipLen))
  {
  }

  lemma TransportKept(decodeTunnels: bool, p: seq<byte>, c: Cursor, ipLen: U16, ipv6: bool)
    ensures Kept(c, TransportStep(decodeTunnels, p, c, ipLen, ipv6))
  {
    var udp := c.ipOffset + ipLen;
    if udp + 8 <= |p| { TunnelKept(p, c, udp, ipv6, UdpTunnel(p, udp)); }
    GreKept(p, c, ipLen);
  }

  lemma IphKept(decodeTunnels: bool, p: seq<byte>, c: Cursor)
    ensures Kept(c, IphStep(decodeTunnels, p, c))
  {
    if c.ipOffset + 20 <= |p| {
      var d := NoteIpv4Fields(p, c);
      TransportKept(decodeTunnels, p, d, p[c.ipOffset] % 16 * 4, false);
      match Ipv6Transport(p, c.ipOffset)
      case Transport(_, l4Len, proto) => TransportKept(decodeTunnels, p, d.(proto := proto), l4Len, true);
      case NoTransport =>
    }
  }

  lemma DatalinkKept(decodeTunnels: bool, p: seq<byte>, c: Cursor)
    ensures Kept(c, Step(decodeTunnels, p, c))
  {
    DatalinkStepKept(p, c);
    IphKept(decodeTunnels, p, c);
  }

  ghost predicate KeepsDatalink(m: Machine) {
    forall c :: Kept(c, m(c))
  }

  lemma {:induction false} OtherDatalinksNeverAsk(p: seq<byte>, m: Machine, c: Cursor, k: nat)
    requires KeepsDatalink(m) && !c.datalink.CiscoPpp?
    ensures !StopsAtPpp(p, Run(m, c, k))
    decreases k
  {
    assert Kept(c, m(c));
    if k > 0 && m(c).Goto? {
      OtherDatalinksNeverAsk(p, m, m(c).cursor, k - 1);
    }
  }

  // From the start of a frame the condition can be read off the capture and its datalink.
  lemma SuffixDecides(decodeTunnels: bool, peeled: seq<byte>, p: seq<byte>, c: Cursor, d: Cursor)
    requires |peeled| + |p| <= MAX_SAFE_CAPLEN && c.phase.DatalinkCheck? && Aligned(c, d, |peeled|)
    ensures SuffixAlone(decodeTunnels, peeled, p, c, d) <==>
            (c.datalink.CiscoPpp? && c.ethOffset + 28 <= |p| ==> (LongPpp(p) <==> LongPpp(peeled + p)))
  {
    var m := Decapsulator(decodeTunnels, p);
    SuffixDecidesIff(decodeTunnels, peeled, p, c, d);
    if AsksPpp(p, c) {
      assert StopsAtPpp(p, Run(m, c, 0));
    } else {
      forall k: nat ensures !StopsAtPpp(p, Run(m, c, k)) {
        if c.datalink.CiscoPpp? {
          assert m(c) == Discard;
        } else {
          forall b ensures Kept(b, m(b)) {
            DatalinkKept(decodeTunnels, p, b);
          }
          OtherDatalinksNeverAsk(p, m, c, k);
        }
      }
    }
  }

  // A Cisco PPP capture of 56 octets: address octet 0x0f, IPv4 with GRE inside, and behind 28
  // octets a PPP frame whose second octet says IPv4.
  predicate IsPppInGre(q: seq<byte>) {
    && |q| == 56 && q[0] == 0x0f && Be16(q, 2) == ETH_P_IP
    && q[4] == 0x45 && Be16(q, 10) % 0x2000 == 0 && q[13] == IPPROTO_GRE
    && q[24] == 0 && q[25] == 0 && Be16(q, 26) == 0x6558
    && q[28] != 0x0f && q[28] != 0x8f && q[29] == 0x21
  }

  lemma SuchCaptureExists()
    ensures exists q :: IsPppInGre(q)
  {
    var q: seq<byte> :=
      [0x0f, 0, 8, 0] + [0x45, 0, 0, 0, 0, 0, 0, 0, 0, IPPROTO_GRE, 0, 0, 0, 0, 0, 0, 0, 0, 0, 0] + [0, 0, 0x65, 0x58, 0xff, 0x21]
      + seq(26, _ => 0);
    assert IsPppInGre(q);
  }

  // Where the machine stands at the inner frame.
  function AtPppFrame(q: seq<byte>): (d: Cursor)
    requires IsPppInGre(q)
  {
    Start(CiscoPpp).(etherType := ETH_P_IP, fragOff := Be16(q, 10), proto := IPPROTO_GRE, tunnel := GreTunnel,
                     ethOffset := 28, ipOffset := 4)
  }

  lemma PppPeeled(q: seq<byte>)
    requires IsPppInGre(q)
    ensures var c1 := Start(CiscoPpp).(phase := EtherTypeCheck, etherType := ETH_P_IP, ipOffset := 4);
            var c2 := c1.(phase := IphCheck);
            && Step(true, q, Start(CiscoPpp)) == Goto(c1) && Step(true, q, c1) == Goto(c2)
            && Step(true, q, c2) == Goto(AtPppFrame(q))
  {
    assert GrePayload(q, 24) == 28;
  }

  lemma PppReached(q: seq<byte>)
    requires IsPppInGre(q)
    ensures Run(Decapsulator(true, q), Start(CiscoPpp), 3) == Goto(AtPppFrame(q))
  {
    var m := Decapsulator(true, q);
    PppPeeled(q);
    RunThenStep(m, Start(CiscoPpp), 0);
    RunThenStep(m, Start(CiscoPpp), 1);
    RunThenStep(m, Start(CiscoPpp), 2);
  }

  // Captures the reader meets on which the position matters: decapsulation comes to the inner
  // frame in three steps, and does not treat it there as it treats it alone, where it is IPv4.
  lemma PppPositionMatters(q: seq<byte>)
    requires IsPppInGre(q)
    ensures var d := AtPppFrame(q);
            var c := d.(ethOffset := 0);
            && Run(Decapsulator(true, q), Start(CiscoPpp), 3) == Goto(d)
            && DatalinkStep(q[28..], c) == Framed(c, 2, ETH_P_IP)
            && DatalinkStep(q, d) == Framed(d, 32, Be16(q, 30))
            && !SuffixAlone(true, q[..28], q[28..], c, d)
  {
    PppReached(q);
    assert q[..28] + q[28..] == q;
    SuffixDecides(true, q[..28], q[28..], AtPppFrame(q).(ethOffset := 0), AtPppFrame(q));
  }
}
