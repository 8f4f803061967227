/** The decapsulation machine of the packet reader.

    The C function walks one captured frame with three re-entrant labels
    (`datalink_check`, `ether_type_check`, `iph_check`) and two loops that move
    a 16-bit offset (VLAN tags, MPLS labels).  Each label, and each round of
    those two loops, is one step of the machine below.  Every offset keeps its
    C width, so the machine is defined for captures of any length. */
module Decapsulation {
  import opened Octets

  datatype Datalink =
    | Null | PppSerial | CiscoPpp | PlainIpv4 | PlainIpv6 | Ethernet | LinuxSll
    | LinuxSll2 | Radiotap | RawIp | Ppi | Unsupported

  datatype Tunnel = NoTunnel | GtpTunnel | TzspTunnel | CapwapTunnel | VxlanTunnel | GreTunnel

  datatype Phase = DatalinkCheck | EtherTypeCheck | VlanTags | MplsLabels | IphCheck

  // The local variables that live across labels.
  datatype Cursor = Cursor(
    phase: Phase,
    datalink: Datalink,
    ethOffset: nat,
    ipOffset: U16,
    etherType: U16,
    llcLen: nat,          // pyld_eth_len
    wifiLen: nat,
    bottom: bool,         // S bit of the last MPLS label read
    fragOff: U16,
    vlanId: U16,
    proto: byte,
    tunnel: Tunnel)

  // What one label does: jump, give the packet up, or hand it to packet_processing.
  datatype Outcome =
    | Goto(cursor: Cursor)
    | Discard
    | Deliver(ipOffset: U16, ipv6: bool, vlanId: U16, tunnel: Tunnel)

  const ETH_P_IP: U16 := 0x0800
  const ETH_P_IPV6: U16 := 0x86dd
  const ETH_P_VLAN: U16 := 0x8100
  const ETH_P_MPLS_UNI: U16 := 0x8847
  const ETH_P_MPLS_MULTI: U16 := 0x8848
  const ETH_P_PPPOE: U16 := 0x8864
  const SNAP: byte := 0xAA
  const BSTP: byte := 0x42
  const IPPROTO_IPIP: byte := 4
  const IPPROTO_UDP: byte := 17
  const IPPROTO_IPV6: byte := 41
  const IPPROTO_GRE: byte := 47
  const GTP_U_V1_PORT: U16 := 2152
  const CAPWAP_DATA_PORT: U16 := 5247
  const TZSP_PORT: U16 := 37008
  const VXLAN_PORT: U16 := 4789
  const GRE_PROTO_PPP: U16 := 0x880b
  const PPP_HDRLEN := 4

  function Start(datalink: Datalink): (c: Cursor) {
    Cursor(DatalinkCheck, datalink, 0, 0, 0, 0, 0, false, 0, 0, 0, NoTunnel)
  }

  // ---------------------------------------------------------------- datalink_check

  function DatalinkStep(p: seq<byte>, c: Cursor): (o: Outcome) {
    var e := c.ethOffset;
    if |p| < e + 28 then Discard
    else match c.datalink
      case Null =>
        var isIp := p[e] == 0 && p[e + 1] == 0 && p[e + 2] == 0 && p[e + 3] == 2;
        Framed(c, e + 4, if isIp then ETH_P_IP else ETH_P_IPV6)
      case PppSerial => Framed(c, e + 4, Be16(p, e + 2))
      // The address octet is read at the start of the capture, whatever the offset.
      case CiscoPpp => PppStep(p, c, p[0] == 0x0f || p[0] == 0x8f)
      case PlainIpv4 => Framed(c, e, ETH_P_IP)
      case PlainIpv6 => Framed(c, e, ETH_P_IPV6)
      case Ethernet => EthernetStep(p, c)
      case LinuxSll => Framed(c, e + 16, Be16(p, e + 14))
      case LinuxSll2 => Framed(c, e + 20, Be16(p, e + 10))
      case Radiotap => RadiotapStep(p, c)
      case RawIp =>
        // Read at the 16-bit offset the frame was just given.
        if p[Trunc16(e)] / 16 == 4 then Framed(c, e, ETH_P_IP)
        else if p[Trunc16(e)] / 16 == 6 then Framed(c, e, ETH_P_IPV6)
        else Discard
      case Ppi =>
        if p[e + 4] == 1 && p[e + 5] == 0 && p[e + 6] == 0 && p[e + 7] == 0 then
          Goto(c.(datalink := Ethernet, ethOffset := e + Le16(p, e + 2)))
        else Discard
      case Unsupported => Discard
  }

  function Framed(c: Cursor, offset: nat, etherType: U16): (o: Outcome) {
    Goto(c.(phase := EtherTypeCheck, ipOffset := Trunc16(offset), etherType := etherType))
  }

  function PppStep(p: seq<byte>, c: Cursor, long: bool): (o: Outcome)
    requires c.ethOffset + 28 <= |p|
  {
    var e := c.ethOffset;
    if long then Framed(c, e + 4, Be16(p, e + 2))
    else if p[e + 1] == 0x21 then Framed(c, e + 2, ETH_P_IP)          // 8-bit ppp_type
    else if p[e + 1] == 0x57 then Framed(c, e + 2, ETH_P_IPV6)
    else Discard
  }

  function EthernetStep(p: seq<byte>, c: Cursor): (o: Outcome)
    requires c.ethOffset + 28 <= |p|
  {
    var ip := c.ethOffset + 14;
    var check := Be16(p, c.ethOffset + 12);
    var llcLen := if check <= 1500 then check else c.llcLen;
    var etherType := if check >= 1536 then check else c.etherType;
    var d := c.(llcLen := llcLen);
    if llcLen == 0 then Framed(d, ip, etherType) else LlcStep(p, d, ip, etherType)
  }

  // An IEEE 802.3 frame: SNAP, spanning tree, or neither.
  function LlcStep(p: seq<byte>, c: Cursor, ip: nat, etherType: U16): (o: Outcome)
    requires ip + 8 <= |p|
  {
    var llc := Trunc16(ip);
    if p[llc] == SNAP || p[llc + 1] == SNAP then Framed(c, llc + 8, Le16(p, llc + 6))
    else if p[llc] == BSTP || p[llc + 1] == BSTP then Discard
    else Framed(c, ip, etherType)
  }

  function RadiotapStep(p: seq<byte>, c: Cursor): (o: Outcome)
    requires c.ethOffset + 28 <= |p|
  {
    var e := c.ethOffset;
    var radioLen := Le16(p, e + 2);
    if Bit(p[e + 16], 0x40) && Bit(p[e + 16], 0x10) then Discard      // bad FCS
    else if |p| < e + radioLen + 24 then Discard
    else Dot11Step(p, c, e + radioLen, Le16(p, e + radioLen))
  }

  function Dot11Step(p: seq<byte>, c: Cursor, dot11: nat, fc: U16): (o: Outcome) {
    if fc / 4 % 4 != 2 then Discard                                   // not a data frame
    else
      var wifiLen := if Bit(fc, 0x100) != Bit(fc, 0x200) then 26 else c.wifiLen;
      WifiStep(p, c.(wifiLen := wifiLen), dot11 + wifiLen)
  }

  function WifiStep(p: seq<byte>, c: Cursor, llc: nat): (o: Outcome) {
    if |p| < llc + 8 then Discard
    else Framed(c, llc + 8, if p[llc] == SNAP then Be16(p, llc + 6) else c.etherType)
  }

  // -------------------------------------------------------------- ether_type_check

  function EtherTypeStep(p: seq<byte>, c: Cursor): (o: Outcome) {
    var ip := c.ipOffset;
    if c.etherType == ETH_P_VLAN then
      if ip + 4 >= |p| then Discard else Goto(PopVlan(p, c))
    else if c.etherType == ETH_P_MPLS_UNI || c.etherType == ETH_P_MPLS_MULTI then
      if ip + 4 >= |p| then Discard else Goto(PopMpls(p, c.(etherType := ETH_P_IP)))
    else if c.etherType == ETH_P_PPPOE then
      Goto(c.(etherType := ETH_P_IP, ipOffset := Trunc16(ip + 8)))
    else if c.etherType == ETH_P_IP || c.etherType == ETH_P_IPV6 then
      Goto(c.(phase := IphCheck))
    else Discard
  }

  function PopVlan(p: seq<byte>, c: Cursor): (d: Cursor)
    requires c.ipOffset + 4 < |p|
  {
    c.(phase := VlanTags,
       vlanId := Be16(p, c.ipOffset) % 0x1000,
       etherType := Be16(p, c.ipOffset + 2),
       ipOffset := Trunc16(c.ipOffset + 4))
  }

  function PopMpls(p: seq<byte>, c: Cursor): (d: Cursor)
    requires c.ipOffset + 4 < |p|
  {
    c.(phase := MplsLabels,
       bottom := Bit(p[c.ipOffset + 2], 1),
       ipOffset := Trunc16(c.ipOffset + 4))
  }

  function VlanStep(p: seq<byte>, c: Cursor): (o: Outcome) {
    if c.etherType == ETH_P_VLAN && c.ipOffset + 4 < |p| then Goto(PopVlan(p, c))
    else Goto(c.(phase := EtherTypeCheck))
  }

  function MplsStep(p: seq<byte>, c: Cursor): (o: Outcome) {
    if !c.bottom && c.ipOffset + 4 < |p| then Goto(PopMpls(p, c))
    else Goto(c.(phase := EtherTypeCheck))
  }

  // --------------------------------------------------------------------- iph_check

  function IphStep(decodeTunnels: bool, p: seq<byte>, c: Cursor): (o: Outcome) {
    var ip := c.ipOffset;
    if |p| < ip + 20 then Discard
    else
      var d := NoteIpv4Fields(p, c);
      if p[ip] / 16 == 4 then Ipv4Step(decodeTunnels, p, d)
      else if p[ip] / 16 == 6 then Ipv6Step(decodeTunnels, p, d)
      else Discard
  }

  // goto iph_check with a new ip_offset.
  function ToIph(c: Cursor, offset: nat): (o: Outcome) {
    Goto(c.(phase := IphCheck, ipOffset := Trunc16(offset)))
  }

  function NoteIpv4Fields(p: seq<byte>, c: Cursor): (d: Cursor)
    requires c.ipOffset + 20 <= |p|
  {
    if c.etherType == ETH_P_IP then c.(fragOff := Be16(p, c.ipOffset + 6), proto := p[c.ipOffset + 9]) else c
  }

  function Ipv4Step(decodeTunnels: bool, p: seq<byte>, c: Cursor): (o: Outcome)
    requires c.ipOffset + 20 <= |p|
  {
    var ip := c.ipOffset;
    var ipLen := p[ip] % 16 * 4;
    if (p[ip + 9] == IPPROTO_IPV6 || p[ip + 9] == IPPROTO_IPIP) && ipLen > 0 then
      ToIph(c, ip + ipLen)
    else if c.fragOff % 0x2000 != 0 then Discard
    else TransportStep(decodeTunnels, p, c, ipLen, false)
  }

  function Ipv6Step(decodeTunnels: bool, p: seq<byte>, c: Cursor): (o: Outcome) {
    match Ipv6Transport(p, c.ipOffset)
    case NoTransport => Discard
    case Transport(l4, l4Len, proto) =>
      if proto == IPPROTO_IPV6 || proto == IPPROTO_IPIP then ToIph(c.(proto := proto), l4)
      else TransportStep(decodeTunnels, p, c.(proto := proto), l4Len, true)
  }

  // The length checks on an IPv6 header and the walk over its extension headers.
  function Ipv6Transport(p: seq<byte>, ip: nat): (w: ExtensionWalk)
    ensures w.Transport? ==> ip + 40 <= w.l4 && w.l4 + w.l4Len <= |p|
  {
    if |p| < ip + 40 || |p| < ip + 40 + Be16(p, ip + 4) then NoTransport
    else SkipExtensionHeaders(p, Trunc16(|p| - ip - 40), ip + 40, Be16(p, ip + 4), p[ip + 6])
  }

  datatype ExtensionWalk = NoTransport | Transport(l4: nat, l4Len: U16, proto: byte)

  predicate IsExtensionHeader(next: byte) {
    next == 0 || next == 43 || next == 44 || next == 60 || next == 135 || next == 59
  }

  // ndpi_handle_ipv6_extension_headers; l4 is the absolute position of *l4ptr.
  function SkipExtensionHeaders(p: seq<byte>, l3Len: U16, l4: nat, l4Len: U16, next: byte): (w: ExtensionWalk)
    requires l4 + l4Len <= |p|
    ensures w.Transport? ==> l4 <= w.l4 && w.l4 + w.l4Len == l4 + l4Len
    decreases l4Len
  {
    if l3Len > 1 && IsExtensionHeader(next) then
      var (spent, extLen) := ExtensionSize(p, l3Len, l4, l4Len, next);
      if extLen == 0 then NoTransport
      else SkipExtensionHeaders(p, l3Len - spent, l4 + extLen, l4Len - extLen, p[l4])
    else Transport(l4, l4Len, next)
  }

  // What one extension header takes from the room left in the packet (5 octets for the 8 of a
  // fragment header) and its length; no length where the walk fails.
  function ExtensionSize(p: seq<byte>, l3Len: U16, l4: nat, l4Len: U16, next: byte): (r: (nat, nat))
    requires l4 + l4Len <= |p|
    ensures r.1 != 0 ==> r.0 <= l3Len && 8 <= r.1 <= l4Len
  {
    if next == 59 then (0, 0)
    else if next == 44 then
      if l4Len < 8 || l3Len < 5 || Be16(p, l4 + 2) / 8 != 0 then (0, 0) else (5, 8)
    else if l4Len < 2 then (0, 0)
    else
      var extLen: int := 8 + 8 * p[l4 + 1] as int;
      if extLen > l3Len || l4Len < extLen then (0, 0) else (extLen, extLen)
  }

  // ----------------------------------------------------------------------- tunnels

  function TransportStep(decodeTunnels: bool, p: seq<byte>, c: Cursor, ipLen: U16, ipv6: bool): (o: Outcome) {
    if decodeTunnels && c.proto == IPPROTO_UDP then UdpStep(p, c, ipLen, ipv6)
    else if decodeTunnels && c.proto == IPPROTO_GRE then GreStep(p, c, ipLen)
    else Deliver(c.ipOffset, ipv6, c.vlanId, c.tunnel)
  }

  function UdpStep(p: seq<byte>, c: Cursor, ipLen: U16, ipv6: bool): (o: Outcome) {
    var udp := c.ipOffset + ipLen;
    if |p| < udp + 8 then Discard else TunnelStep(p, c, udp, ipv6, UdpTunnel(p, udp))
  }

  function TunnelStep(p: seq<byte>, c: Cursor, udp: nat, ipv6: bool, t: Tunnel): (o: Outcome)
    requires t.GtpTunnel? ==> udp + 16 < |p|
  {
    match t
    case GtpTunnel => GtpStep(p, c, udp + 8, ipv6)
    case TzspTunnel => TzspStep(p, c, udp + 8, ipv6)
    case CapwapTunnel => CapwapStep(p, c, udp + 8, ipv6)
    case VxlanTunnel => Goto(c.(phase := DatalinkCheck, tunnel := VxlanTunnel, ethOffset := udp + 16))
    case _ => Deliver(c.ipOffset, ipv6, c.vlanId, c.tunnel)
  }

  // Which tunnel decoder the UDP ports (and, for VXLAN, the header) select.
  function UdpTunnel(p: seq<byte>, udp: nat): (t: Tunnel)
    requires udp + 8 <= |p|
    ensures t.GtpTunnel? ==> udp + 16 < |p|
  {
    var sport, dport := Be16(p, udp), Be16(p, udp + 2);
    if (sport == GTP_U_V1_PORT || dport == GTP_U_V1_PORT) && udp + 16 < |p| then GtpTunnel
    else if sport == TZSP_PORT || dport == TZSP_PORT then TzspTunnel
    else if sport == CAPWAP_DATA_PORT || dport == CAPWAP_DATA_PORT then CapwapTunnel
    else if IsVxlan(p, udp) then VxlanTunnel
    else NoTunnel
  }

  predicate IsVxlan(p: seq<byte>, udp: nat) {
    && udp + 16 <= |p|
    && (Be16(p, udp + 2) == VXLAN_PORT || Be16(p, udp) == VXLAN_PORT)
    && p[udp + 8] == 8 && p[udp + 9] == 0 && p[udp + 10] == 0 && p[udp + 11] == 0
    && p[udp + 15] == 0
  }

  function GtpStep(p: seq<byte>, c: Cursor, gtp: nat, ipv6: bool): (o: Outcome)
    requires gtp + 8 < |p|
  {
    var inner := GtpPayload(p, gtp);
    if inner == 0 then Deliver(c.ipOffset, ipv6, c.vlanId, c.tunnel)
    else
      var ip := Trunc16(inner);
      if p[ip] / 16 == 6 then
        if |p| < ip + 40 then Discard else Deliver(ip, true, c.vlanId, GtpTunnel)
      else if p[ip] / 16 != 4 then Discard
      else if |p| < ip + 20 then Discard
      else Deliver(ip, false, c.vlanId, GtpTunnel)
  }

  // Where the user packet of a GTPv1-U T-PDU starts, or 0 if this is none.
  function GtpPayload(p: seq<byte>, gtp: nat): (r: nat)
    requires gtp + 8 < |p|
    ensures r != 0 ==> gtp + 8 <= r < |p|
  {
    if p[gtp] / 32 == 1 && p[gtp + 1] == 0xFF then
      var first := gtp + 8 + (if p[gtp] % 8 != 0 then 4 else 0);
      var (inner, broken) := if Bit(p[gtp], 4) then GtpExtensions(p, first) else (first, false);
      if inner < |p| && !broken then inner else 0
    else 0
  }

  // Offset after the chain of GTP-U extension headers, and exts_parsing_error.
  function GtpExtensions(p: seq<byte>, offset: nat): (r: (nat, bool))
    ensures offset <= r.0
    decreases |p| - offset
  {
    if offset >= |p| then (offset, false)
    else
      var next := offset + 4 * p[offset] as int;
      if next >= |p| || next == offset then (next, true)
      else if p[next - 1] == 0 then (next, false)
      else GtpExtensions(p, next)
  }

  function TzspStep(p: seq<byte>, c: Cursor, tzsp: nat, ipv6: bool): (o: Outcome) {
    if |p| < tzsp + 4 then Discard
    else
      var d := c.(tunnel := TzspTunnel);
      var tag := tzsp + 4;
      if p[tzsp] == 1 && p[tzsp + 1] == 0 && Be16(p, tzsp + 2) == 1 && tag < |p| then
        // The tag loop leaves after one round: by return or by goto.
        if p[tag] > 1 && tag + 1 >= |p| then Discard
        else
          var next := tag + (if p[tag] <= 1 then 1 else p[tag + 1]);
          if next >= |p| then Discard
          else Goto(d.(phase := DatalinkCheck, ethOffset := next))
      else Deliver(d.ipOffset, ipv6, d.vlanId, d.tunnel)
  }

  function CapwapStep(p: seq<byte>, c: Cursor, capwap: nat, ipv6: bool): (o: Outcome) {
    if capwap + 1 < |p| && p[capwap] % 16 == 0 then
      var dot11 := capwap + p[capwap + 1] / 8 * 4;
      if dot11 + 32 < |p| && p[dot11 + 1] == 8 then
        ToIph(c.(etherType := Be16(p, dot11 + 30), tunnel := CapwapTunnel), dot11 + 32)
      else Deliver(c.ipOffset, ipv6, c.vlanId, c.tunnel)
    else Deliver(c.ipOffset, ipv6, c.vlanId, c.tunnel)
  }

  function GreStep(p: seq<byte>, c: Cursor, ipLen: U16): (o: Outcome) {
    var gre := c.ipOffset + ipLen;
    if |p| < gre + 4 then Discard else GreAt(p, c.(tunnel := GreTunnel), gre)
  }

  function GreAt(p: seq<byte>, c: Cursor, gre: nat): (o: Outcome)
    requires gre + 4 <= |p|
  {
    var inner := GrePayload(p, gre);
    if inner == 0 then Discard else GreInner(c, inner, Be16(p, gre + 2))
  }

  function GreInner(c: Cursor, inner: nat, protocol: U16): (o: Outcome) {
    if protocol == ETH_P_IP || protocol == ETH_P_IPV6 then ToIph(c, inner)
    else if protocol == GRE_PROTO_PPP then ToIph(c, inner + PPP_HDRLEN)
    else Goto(c.(phase := DatalinkCheck, ethOffset := inner))
  }

  // ndpi_is_valid_gre_tunnel: where the payload starts, or 0.
  function GrePayload(p: seq<byte>, gre: nat): (r: nat)
    requires gre + 4 <= |p|
    ensures r != 0 ==> gre + 4 <= r <= |p|
  {
    var hi, lo := p[gre], p[gre + 1];
    var key, sequence, ack := Bit(hi, 0x20), Bit(hi, 0x10), Bit(lo, 0x80);
    if lo / 8 % 16 != 0 || hi % 8 != 0 then 0
    else if lo % 8 == 0 then
      Optional(p, Optional(p, Optional(p, gre + 4, Bit(hi, 0x80)), key), sequence)
    else if lo % 8 == 1 then
      if Bit(hi, 0x80) || Bit(hi, 0x40) || !key || Bit(hi, 8) || Be16(p, gre + 2) != GRE_PROTO_PPP then 0
      else Optional(p, Optional(p, Optional(p, gre + 4, true), sequence), ack)
    else 0
  }

  // One optional four-octet GRE field; 0 once the capture is too short.
  function Optional(p: seq<byte>, offset: nat, present: bool): (r: nat)
    ensures r == 0 || offset <= r
    ensures offset <= |p| ==> r <= |p|
  {
    if offset == 0 then 0
    else if !present then offset
    else if |p| < offset + 4 then 0
    else offset + 4
  }

  // -------------------------------------------------------------------- the machine

  function Step(decodeTunnels: bool, p: seq<byte>, c: Cursor): (o: Outcome) {
    match c.phase
    case DatalinkCheck => DatalinkStep(p, c)
    case EtherTypeCheck => EtherTypeStep(p, c)
    case VlanTags => VlanStep(p, c)
    case MplsLabels => MplsStep(p, c)
    case IphCheck => IphStep(decodeTunnels, p, c)
  }
}
