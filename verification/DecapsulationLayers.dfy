/** The layers the machine peels, against their wire formats: stacks of VLAN tags, MPLS labels
    and IP headers, GRE headers, chains of GTP-U and IPv6 extension headers. Each one is left behind
    completely, whatever its length, and the machine stands on what it carries. */
module DecapsulationLayers {
  import opened Octets
  import opened Decapsulation
  import opened DecapsulationHalting

  // ---------------------------------------------------------------- VLAN tags

  // Tag control words one after the other, each followed by the type of what comes next.
  ghost predicate VlanStackAt(p: seq<byte>, at: nat, tags: seq<U16>, inner: U16) {
    && inner != ETH_P_VLAN && at + 4 * |tags| < |p|
    && forall i | 0 <= i < |tags| ::
         && Be16(p, at + 4 * i) == tags[i]
         && Be16(p, at + 4 * i + 2) == (if i + 1 < |tags| then ETH_P_VLAN else inner)
  }

  // The cursor behind a stack of tags: the last tag decides the VLAN.
  function BehindTags(c: Cursor, tags: seq<U16>, inner: U16): (d: Cursor) {
    c.(phase := EtherTypeCheck, etherType := inner, ipOffset := Trunc16(c.ipOffset + 4 * |tags|),
       vlanId := if tags == [] then c.vlanId else tags[|tags| - 1] % 0x1000)
  }

  lemma FirstTag(p: seq<byte>, at: nat, tags: seq<U16>, inner: U16)
    requires VlanStackAt(p, at, tags, inner) && tags != []
    ensures Be16(p, at) == tags[0] && Be16(p, at + 2) == (if 1 < |tags| then ETH_P_VLAN else inner)
    ensures VlanStackAt(p, at + 4, tags[1..], inner)
  {
    assert Be16(p, at + 4 * 0) == tags[0] && Be16(p, at + 4 * 0 + 2) == if 1 < |tags| then ETH_P_VLAN else inner;
    forall i | 0 <= i < |tags[1..]|
      ensures Be16(p, at + 4 + 4 * i) == tags[1..][i]
      ensures Be16(p, at + 4 + 4 * i + 2) == if i + 1 < |tags[1..]| then ETH_P_VLAN else inner
    {
      assert at + 4 + 4 * i == at + 4 * (i + 1);
    }
  }

  lemma BehindNextTag(c: Cursor, d: Cursor, tags: seq<U16>, inner: U16)
    requires tags != [] && c.ipOffset + 4 * |tags| < 0x1_0000
    requires d == c.(phase := VlanTags, vlanId := tags[0] % 0x1000, etherType := d.etherType, ipOffset := c.ipOffset + 4)
    ensures BehindTags(d, tags[1..], inner) == BehindTags(c, tags, inner)
  {
    if |tags| > 1 { assert tags[1..][|tags| - 2] == tags[|tags| - 1]; }
  }

  // Popping the first tag leaves the rest of the stack to be popped.
  lemma PoppedTag(p: seq<byte>, c: Cursor, tags: seq<U16>, inner: U16)
    requires |p| < 0x1_0000 && VlanStackAt(p, c.ipOffset, tags, inner) && tags != []
    ensures var d := PopVlan(p, c);
            && d.phase.VlanTags? && VlanStackAt(p, d.ipOffset, tags[1..], inner)
            && d.etherType == (if tags[1..] == [] then inner else ETH_P_VLAN)
            && BehindTags(d, tags[1..], inner) == BehindTags(c, tags, inner)
  {
    FirstTag(p, c.ipOffset, tags, inner);
    BehindNextTag(c, PopVlan(p, c), tags, inner);
  }

  lemma RunStep(m: Machine, c: Cursor, d: Cursor, k: nat)
    requires m(c) == Goto(d)
    ensures Run(m, c, k + 1) == Run(m, d, k)
  {
  }

  lemma {:induction false} VlanLoopPeels(decodeTunnels: bool, p: seq<byte>, m: Machine, c: Cursor, tags: seq<U16>, inner: U16)
    requires m == Decapsulator(decodeTunnels, p)
    requires c.phase.VlanTags? && |p| < 0x1_0000 && VlanStackAt(p, c.ipOffset, tags, inner)
    requires c.etherType == if tags == [] then inner else ETH_P_VLAN
    ensures Run(m, c, |tags| + 1) == Goto(BehindTags(c, tags, inner))
    decreases |tags|
  {
    assert m(c) == VlanStep(p, c);
    if tags == [] {
      RunStep(m, c, BehindTags(c, tags, inner), 0);
    } else {
      PoppedTag(p, c, tags, inner);
      VlanLoopPeels(decodeTunnels, p, m, PopVlan(p, c), tags[1..], inner);
      RunStep(m, c, PopVlan(p, c), |tags|);
    }
  }

  // Any number of tags is popped, and the machine looks at the type behind the last one.
  lemma VlanStackPeeled(decodeTunnels: bool, p: seq<byte>, c: Cursor, tags: seq<U16>, inner: U16)
    requires c.phase.EtherTypeCheck? && c.etherType == ETH_P_VLAN && tags != []
    requires |p| < 0x1_0000 && VlanStackAt(p, c.ipOffset, tags, inner)
    ensures Run(Decapsulator(decodeTunnels, p), c, |tags| + 1) == Goto(BehindTags(c, tags, inner))
  {
    var m := Decapsulator(decodeTunnels, p);
    assert m(c) == EtherTypeStep(p, c) == Goto(PopVlan(p, c));
    PoppedTag(p, c, tags, inner);
    VlanLoopPeels(decodeTunnels, p, m, PopVlan(p, c), tags[1..], inner);
    RunStep(m, c, PopVlan(p, c), |tags|);
  }

  // ---------------------------------------------------------------- MPLS labels

  // Label stack entries of four octets; only the last has the bottom-of-stack bit.
  ghost predicate MplsStackAt(p: seq<byte>, at: nat, n: nat) {
    at + 4 * n < |p| && forall i | 0 <= i < n :: Bit(p[at + 4 * i + 2], 1) <==> i + 1 == n
  }

  function BehindLabels(c: Cursor, n: nat): (d: Cursor) {
    c.(phase := EtherTypeCheck, bottom := true, ipOffset := Trunc16(c.ipOffset + 4 * n))
  }

  lemma NextLabels(p: seq<byte>, at: nat, n: nat)
    requires MplsStackAt(p, at, n) && n > 0
    ensures (Bit(p[at + 2], 1) <==> n == 1) && MplsStackAt(p, at + 4, n - 1)
  {
    assert Bit(p[at + 4 * 0 + 2], 1) <==> 1 == n;
    forall i | 0 <= i < n - 1 ensures Bit(p[at + 4 + 4 * i + 2], 1) <==> i + 1 == n - 1 {
      assert at + 4 + 4 * i + 2 == at + 4 * (i + 1) + 2;
    }
  }

  lemma PoppedLabel(p: seq<byte>, c: Cursor, n: nat)
    requires |p| < 0x1_0000 && MplsStackAt(p, c.ipOffset, n) && n > 0
    ensures var d := PopMpls(p, c);
            && d.phase.MplsLabels? && MplsStackAt(p, d.ipOffset, n - 1) && (d.bottom <==> n == 1)
            && BehindLabels(d, n - 1) == BehindLabels(c, n)
  {
    NextLabels(p, c.ipOffset, n);
  }

  lemma {:induction false} MplsLoopPeels(decodeTunnels: bool, p: seq<byte>, m: Machine, c: Cursor, n: nat)
    requires m == Decapsulator(decodeTunnels, p)
    requires c.phase.MplsLabels? && |p| < 0x1_0000 && MplsStackAt(p, c.ipOffset, n) && (c.bottom <==> n == 0)
    ensures Run(m, c, n + 1) == Goto(BehindLabels(c, n))
    decreases n
  {
    assert m(c) == MplsStep(p, c);
    if n == 0 {
      RunStep(m, c, BehindLabels(c, n), 0);
    } else {
      PoppedLabel(p, c, n);
      MplsLoopPeels(decodeTunnels, p, m, PopMpls(p, c), n - 1);
      RunStep(m, c, PopMpls(p, c), n);
    }
  }

  // Any number of labels is popped up to the bottom of the stack; the payload is taken as IPv4.
  lemma MplsStackPeeled(decodeTunnels: bool, p: seq<byte>, c: Cursor, n: nat)
    requires c.phase.EtherTypeCheck? && c.etherType in {ETH_P_MPLS_UNI, ETH_P_MPLS_MULTI} && n > 0
    requires |p| < 0x1_0000 && MplsStackAt(p, c.ipOffset, n)
    ensures Run(Decapsulator(decodeTunnels, p), c, n + 1) == Goto(BehindLabels(c.(etherType := ETH_P_IP), n))
  {
    var m, b := Decapsulator(decodeTunnels, p), c.(etherType := ETH_P_IP);
    assert m(c) == EtherTypeStep(p, c) == Goto(PopMpls(p, b));
    PoppedLabel(p, b, n);
    MplsLoopPeels(decodeTunnels, p, m, PopMpls(p, b), n - 1);
    RunStep(m, c, PopMpls(p, b), n);
  }

  // ---------------------------------------------------------------- GRE headers

  // Four octets for each optional field that is present (section 2 of RFC 2890).
  function GreHeaderLen(checksum: bool, key: bool, sequence: bool): (n: nat) {
    4 + (if checksum then 4 else 0) + (if key then 4 else 0) + (if sequence then 4 else 0)
  }

  // A version 0 header with the recursion and reserved bits zero: the payload
  // starts behind the fields its flags announce, if the capture goes that far.
  lemma GreHeaderSkipped(p: seq<byte>, gre: nat)
    requires gre + 4 <= |p| && p[gre + 1] in {0, 0x80} && p[gre] % 8 == 0
    ensures var end := gre + GreHeaderLen(Bit(p[gre], 0x80), Bit(p[gre], 0x20), Bit(p[gre], 0x10));
            GrePayload(p, gre) == if end <= |p| then end else 0
  {
  }

  // Enhanced GRE (section 4.1 of RFC 2637): key present, version 1, PPP inside.
  lemma EnhancedGreSkipped(p: seq<byte>, gre: nat)
    requires gre + 4 <= |p| && Be16(p, gre + 2) == GRE_PROTO_PPP
    requires p[gre] in {0x20, 0x30} && p[gre + 1] in {0x01, 0x81}
    ensures var end := gre + GreHeaderLen(p[gre + 1] == 0x81, true, p[gre] == 0x30);
            GrePayload(p, gre) == if end <= |p| then end else 0
  {
  }

  // ---------------------------------------------------------------- GTP-U extension headers

  // An extension header: its length in units of four octets first, the next type last.
  predicate IsGtpExtension(e: seq<byte>, last: bool) {
    e != [] && e[0] > 0 && |e| == 4 * e[0] as int && (e[|e| - 1] == 0 <==> last)
  }

  function Flat(es: seq<seq<byte>>): (bs: seq<byte>) {
    if es == [] then [] else es[0] + Flat(es[1..])
  }

  // The chain is left behind, however long, when something follows it.
  lemma {:induction false} GtpChainSkipped(before: seq<byte>, es: seq<seq<byte>>, inner: seq<byte>)
    requires es != [] && inner != []
    requires forall i | 0 <= i < |es| :: IsGtpExtension(es[i], i + 1 == |es|)
    ensures GtpExtensions(before + Flat(es) + inner, |before|) == (|before| + |Flat(es)|, false)
    decreases |es|
  {
    var p, e, rest := before + Flat(es) + inner, es[0], es[1..];
    assert IsGtpExtension(e, 1 == |es|);
    Regroup(before, e, Flat(rest), inner);
    GtpStepOver(before, e, Flat(rest) + inner);
    if |es| > 1 {
      forall i | 0 <= i < |rest| ensures IsGtpExtension(rest[i], i + 1 == |rest|) {
        assert rest[i] == es[i + 1];
      }
      GtpChainSkipped(before + e, rest, inner);
    }
  }

  lemma Regroup(a: seq<byte>, b: seq<byte>, c: seq<byte>, d: seq<byte>)
    ensures a + (b + c) + d == (a + b) + c + d == a + b + (c + d)
  {
  }

  lemma GtpStepOver(before: seq<byte>, e: seq<byte>, after: seq<byte>)
    requires e != [] && e[0] > 0 && |e| == 4 * e[0] as int && after != []
    ensures var p := before + e + after;
            GtpExtensions(p, |before|)
            == if e[|e| - 1] == 0 then (|before + e|, false) else GtpExtensions(p, |before + e|)
  {
    var p := before + e + after;
    assert p[|before|] == e[0] && p[|before| + |e| - 1] == e[|e| - 1];
  }

  // The GTP-U header of a T-PDU (section 5.1 of 3GPP TS 29.281): eight octets, four more when
  // any of the flags E, S and PN is set.
  predicate IsGtpHeader(h: seq<byte>) {
    && |h| >= 8 && h[0] / 32 == 1 && h[1] == 0xFF && |h| == (if h[0] % 8 != 0 then 12 else 8)
  }

  predicate IsIpPacket(ip: seq<byte>) {
    && |ip| >= 20 && (ip[0] / 16 == 4 || ip[0] / 16 == 6) && (ip[0] / 16 == 6 ==> |ip| >= 40)
  }

  lemma GtpPayloadFound(before: seq<byte>, h: seq<byte>, es: seq<seq<byte>>, inner: seq<byte>)
    requires IsGtpHeader(h) && inner != [] && (Bit(h[0], 4) <==> es != [])
    requires forall i | 0 <= i < |es| :: IsGtpExtension(es[i], i + 1 == |es|)
    ensures |before| + 8 < |before + h + Flat(es) + inner|
    ensures GtpPayload(before + h + Flat(es) + inner, |before|) == |before + h + Flat(es)|
  {
    var p := before + h + Flat(es) + inner;
    assert p[|before|] == h[0] && p[|before| + 1] == h[1];
    if es != [] {
      GtpChainSkipped(before + h, es, inner);
    } else {
      assert Flat(es) == [];
    }
  }

  // The user packet of any GTP-U message is delivered, at its own position and version, whatever
  // options and extension headers come before it.
  lemma GtpDelivers(before: seq<byte>, h: seq<byte>, es: seq<seq<byte>>, inner: seq<byte>, c: Cursor, ipv6: bool)
    requires IsGtpHeader(h) && IsIpPacket(inner) && (Bit(h[0], 4) <==> es != [])
    requires forall i | 0 <= i < |es| :: IsGtpExtension(es[i], i + 1 == |es|)
    requires |before + h + Flat(es) + inner| < 0x1_0000
    ensures |before| + 8 < |before + h + Flat(es) + inner|
    ensures GtpStep(before + h + Flat(es) + inner, c, |before|, ipv6)
         == Deliver(|before + h + Flat(es)|, inner[0] / 16 == 6, c.vlanId, GtpTunnel)
  {
    GtpPayloadFound(before, h, es, inner);
    assert (before + h + Flat(es) + inner)[|before + h + Flat(es)|] == inner[0];
  }

  // ---------------------------------------------------------------- IP in IP

  function Sum(hs: seq<nat>): (n: nat) { if hs == [] then 0 else hs[0] + Sum(hs[1..]) }

  // IPv4 headers of the given lengths, one inside the other, each carrying IPv4 or IPv6.
  ghost predicate IpStackAt(p: seq<byte>, at: nat, hs: seq<nat>)
    decreases |hs|
  {
    hs != [] ==>
      && at + 20 <= |p| && p[at] / 16 == 4 && p[at] % 16 * 4 == hs[0] > 0
      && p[at + 9] in {IPPROTO_IPIP, IPPROTO_IPV6} && IpStackAt(p, at + hs[0], hs[1..])
  }

  lemma IpHeaderPeeled(decodeTunnels: bool, p: seq<byte>, c: Cursor, hs: seq<nat>) returns (d: Cursor)
    requires c.phase.IphCheck? && hs != [] && IpStackAt(p, c.ipOffset, hs) && |p| <= MAX_SAFE_CAPLEN
    ensures Decapsulator(decodeTunnels, p)(c) == Goto(d)
    ensures d.phase.IphCheck? && d.ipOffset == c.ipOffset + hs[0] && d.vlanId == c.vlanId && d.tunnel == c.tunnel
  {
    d := NoteIpv4Fields(p, c).(ipOffset := Trunc16(c.ipOffset + hs[0]));
    assert Decapsulator(decodeTunnels, p)(c) == IphStep(decodeTunnels, p, c);
  }

  // Nested IPv4 headers of any depth are passed one by one, by their own lengths.
  lemma {:induction false} IpStackPeeled(decodeTunnels: bool, p: seq<byte>, m: Machine, c: Cursor, hs: seq<nat>)
    requires m == Decapsulator(decodeTunnels, p)
    requires c.phase.IphCheck? && IpStackAt(p, c.ipOffset, hs) && |p| <= MAX_SAFE_CAPLEN
    ensures var o := Run(m, c, |hs|);
            && o.Goto? && o.cursor.phase.IphCheck? && o.cursor.ipOffset == c.ipOffset + Sum(hs)
            && o.cursor.vlanId == c.vlanId && o.cursor.tunnel == c.tunnel
    decreases |hs|
  {
    if hs != [] {
      var d := IpHeaderPeeled(decodeTunnels, p, c, hs);
      IpStackPeeled(decodeTunnels, p, m, d, hs[1..]);
      RunStep(m, c, d, |hs| - 1);
    }
  }

  // ---------------------------------------------------------------- IPv6 extension headers

  // A header of type t: fragment headers have eight octets and, here, offset 0; the others
  // carry their length in units of eight octets, the first not counted.
  predicate IsIpv6Extension(t: byte, h: seq<byte>) {
    && |h| >= 8 && IsExtensionHeader(t) && t != 59
    && if t == 44 then |h| == 8 && Be16(h, 2) / 8 == 0 else |h| == 8 + 8 * h[1] as int
  }

  // Each header names the type of the next; the last one names the transport protocol.
  ghost predicate IsIpv6Chain(t: byte, hs: seq<seq<byte>>, proto: byte)
    decreases |hs|
  {
    if hs == [] then t == proto
    else IsIpv6Extension(t, hs[0]) && IsIpv6Chain(hs[0][0], hs[1..], proto)
  }

  lemma LoadsBehind(before: seq<byte>, h: seq<byte>, after: seq<byte>)
    requires |h| >= 8
    ensures var p := before + h + after;
            Be16(p, |before| + 2) == Be16(h, 2) && p[|before| + 1] == h[1] && p[|before|] == h[0]
  {
    var p := before + h + after;
    assert p[|before| + 2] == h[2] && p[|before| + 3] == h[3];
  }

  // The chain is left behind, and the walk reports the transport protocol and what is left of
  // the payload length.
  lemma {:induction false} Ipv6ChainSkipped(before: seq<byte>, t: byte, hs: seq<seq<byte>>, after: seq<byte>,
                                            l3Len: U16, l4Len: U16, proto: byte)
    requires IsIpv6Chain(t, hs, proto) && !IsExtensionHeader(proto)
    requires |Flat(hs)| <= l4Len <= l3Len && l4Len <= |Flat(hs) + after|
    ensures SkipExtensionHeaders(before + Flat(hs) + after, l3Len, |before|, l4Len, t)
         == Transport(|before| + |Flat(hs)|, l4Len - |Flat(hs)|, proto)
    decreases |hs|
  {
    if hs != [] {
      var h, rest := hs[0], hs[1..];
      var p := before + Flat(hs) + after;
      Regroup(before, h, Flat(rest), after);
      LoadsBehind(before, h, Flat(rest) + after);
      var spent := if t == 44 then 5 else |h|;
      assert ExtensionSize(p, l3Len, |before|, l4Len, t) == (spent, |h|);
      Ipv6ChainSkipped(before + h, h[0], rest, after, l3Len - spent, l4Len - |h|, proto);
    }
  }
}
