/** From an IP packet to its transport region and payload: the 16-bit length arithmetic of
    the packet reader and the tests that make it safe. */
module Transport {
  import opened Octets
  import opened Decapsulation
  import opened SearchTree

  const TCP: byte := 6
  const UDP: byte := 17
  const ICMP: byte := 1
  const ICMPV6: byte := 58

  // Offset and length of the transport region in the IP packet.
  datatype Region = Region(proto: byte, offset: nat, length: U16)

  // The header length in octets.
  function HeaderLen(ip: seq<byte>): (n: nat)
    requires ip != []
  {
    ip[0] % 16 * 4
  }

  // packet_processing: the 16-bit length handed to the flow lookup; a zero total length means
  // segmentation offload, and the captured size is taken instead.
  function L4PacketLen(ip: seq<byte>): (n: U16)
    requires |ip| >= 20
  {
    var total := Be16(ip, 2);
    Trunc16((if total != 0 then total else |ip|) - HeaderLen(ip))
  }

  // The checks of get_ndpi_flow_info on an IPv4 packet of any captured size.
  function Ipv4Region(ip: seq<byte>): (r: Option<Region>) {
    if |ip| < 20 then None
    else if HeaderLen(ip) > |ip| || |ip| < Be16(ip, 2) then None
    else if |ip| < HeaderLen(ip) + L4PacketLen(ip) then None
    else Some(Region(ip[9], HeaderLen(ip), L4PacketLen(ip)))
  }

  // get_ndpi_flow_info6 and the same checks.
  function Ipv6Region(ip: seq<byte>): (r: Option<Region>) {
    match Ipv6Transport(ip, 0)
    case NoTransport => None
    case Transport(l4, l4Len, proto) =>
      if l4 > |ip| || |ip| < l4 + l4Len then None else Some(Region(proto, l4, l4Len))
  }

  // What the lengths in the header say, without wrap-around.
  function ClaimedLen(ip: seq<byte>): (n: int)
    requires |ip| >= 20
  {
    if Be16(ip, 2) != 0 then Be16(ip, 2) else |ip|
  }

  // A packet is accepted exactly when its header fits its claimed length and that fits the
  // capture; a subtraction that wraps is never accepted, so the length is the true difference.
  lemma Ipv4AcceptedIff(ip: seq<byte>)
    requires |ip| <= 0xFFFF
    ensures Ipv4Region(ip).Some? <==> |ip| >= 20 && HeaderLen(ip) <= ClaimedLen(ip) <= |ip|
    ensures Ipv4Region(ip).Some? ==>
              var r := Ipv4Region(ip).value;
              r.offset + r.length == ClaimedLen(ip) <= |ip| && r.offset == HeaderLen(ip) && r.proto == ip[9]
  {
  }

  // In a 16-bit world the wrapped length always overshoots the capture.
  lemma WrapIsRejected(ip: seq<byte>)
    requires 20 <= |ip| <= 0xFFFF && ClaimedLen(ip) < HeaderLen(ip)
    ensures L4PacketLen(ip) == 0x1_0000 + ClaimedLen(ip) - HeaderLen(ip)
    ensures |ip| < HeaderLen(ip) + L4PacketLen(ip) || |ip| < HeaderLen(ip)
    ensures Ipv4Region(ip).None?
  {
  }

  // The region of an IPv6 packet starts behind the fixed header and ends with the packet.
  lemma Ipv6Contained(ip: seq<byte>)
    requires Ipv6Region(ip).Some?
    ensures var r := Ipv6Region(ip).value;
            40 <= r.offset && r.offset + r.length == 40 + Be16(ip, 4) <= |ip|
  {
  }

  // ---------------------------------------------------------------- ports and payload

  // Ports, where the payload starts in the region, its 16-bit length, and the 32-bit length of
  // what the statistics call application data.
  datatype Segment = Segment(sport: U16, dport: U16, skip: nat, payloadLen: U16, dataLen: U32)

  function Split(proto: byte, l4: seq<byte>): (s: Segment)
    requires |l4| <= 0xFFFF
  {
    if proto == TCP && |l4| >= 20 then
      var header := l4[12] / 16 * 4;
      Segment(Be16(l4, 0), Be16(l4, 2), Min(header, |l4|), Max(0, |l4| - header), |l4| - 20)
    else if proto == UDP && |l4| >= 8 then
      Segment(Be16(l4, 0), Be16(l4, 2), 8, if |l4| > 8 then |l4| - 8 else 0, |l4| - 8)
    else if proto == ICMP || proto == ICMPV6 then
      Segment(0, 0, 8, if |l4| > 8 then |l4| - 8 else 0, Trunc32(|l4| - 8))
    else Segment(0, 0, 0, 0, 0)
  }

  function Min(a: nat, b: nat): (r: nat) { if a < b then a else b }
  function Max(a: int, b: int): (r: int) { if a > b then a else b }

  function Payload(proto: byte, l4: seq<byte>): (bs: seq<byte>)
    requires |l4| <= 0xFFFF
  {
    var s := Split(proto, l4);
    if s.payloadLen == 0 then [] else l4[s.skip..s.skip + s.payloadLen]
  }

  // Header and payload fill the transport region exactly.
  lemma SplitIsExact(proto: byte, l4: seq<byte>)
    requires |l4| <= 0xFFFF
    requires (proto == TCP && |l4| >= 20) || (proto == UDP && |l4| >= 8)
    ensures var s := Split(proto, l4);
            && s.skip + s.payloadLen == |l4| && l4[..s.skip] + Payload(proto, l4) == l4
            && (proto == TCP ==> s.skip == Min(l4[12] / 16 * 4, |l4|)) && (proto == UDP ==> s.skip == 8)
  {
  }

  // How the two lengths compare: equal for UDP, and for TCP the data length covers the payload
  // exactly when the data offset is at least 5.
  lemma DataLenCoversPayload(proto: byte, l4: seq<byte>)
    requires |l4| <= 0xFFFF
    ensures var s := Split(proto, l4);
            && s.dataLen != 0xFEEDFACE && |Payload(proto, l4)| == s.payloadLen
            && (proto == UDP ==> s.dataLen == s.payloadLen)
            && (proto == TCP && |l4| >= 20 ==> (s.payloadLen <= s.dataLen <==> l4[12] / 16 >= 5))
  {
  }

  // Through both steps the payload stays inside the captured IP packet.
  lemma PayloadInside(ip: seq<byte>, r: Region)
    requires |ip| <= 0xFFFF && (Ipv4Region(ip) == Some(r) || Ipv6Region(ip) == Some(r))
    ensures r.offset + r.length <= |ip|
    ensures var l4 := ip[r.offset..r.offset + r.length];
            var s := Split(r.proto, l4);
            s.payloadLen > 0 ==>
              r.offset + s.skip + s.payloadLen == r.offset + r.length
              && Payload(r.proto, l4) == ip[r.offset + s.skip..r.offset + r.length]
  {
    if Ipv4Region(ip) == Some(r) { Ipv4AcceptedIff(ip); } else { Ipv6Contained(ip); }
  }
}
