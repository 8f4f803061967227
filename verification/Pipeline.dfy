/** The reader from raw captures to flow records: decapsulation, transport lengths and the
    flow table joined, so that the promises of each hold of the bytes of a capture. */
module Pipeline {
  import opened Admission
  import opened Octets
  import opened Decapsulation
  import opened DecapsulationHalting
  import opened DecapsulationLayers
  import opened Vxlan
  import opened FlowOrder
  import opened SearchTree
  import T = Transport
  import W = Workflow
  import Table = FlowTable
  import H = FlowHistory

  datatype Prefs = Prefs(decodeTunnels: bool, ignoreVlan: bool)

  // ---------------------------------------------------------------- from bytes to a tuple

  // What packet_processing may look at: its size argument has 16 bits.
  function Seen(p: seq<byte>, ipOffset: nat): (ip: seq<byte>)
    requires ipOffset <= |p|
    ensures |ip| <= 0xFFFF && ipOffset + |ip| <= |p| && ip == p[ipOffset..ipOffset + |ip|]
  {
    p[ipOffset..ipOffset + Trunc16(|p| - ipOffset)]
  }

  function RegionOf(ip: seq<byte>, ipv6: bool): (r: Option<T.Region>)
    requires |ip| <= 0xFFFF
    ensures r.Some? ==> HeaderLength(ipv6) <= |ip| && r.value.offset + r.value.length <= |ip|
  {
    if ipv6 then T.Ipv6Region(ip) else T.Ipv4Region(ip)
  }

  // A 32-bit load on a little-endian host.
  function Word(p: seq<byte>, i: nat): (r: U32)
    requires i + 4 <= |p|
  {
    var a: int, b: int, c: int := p[i + 1], p[i + 2], p[i + 3];
    p[i] + 0x100 * a + 0x1_0000 * b + 0x100_0000 * c
  }

  // An IPv6 address is folded into 32 bits.
  function Source(ip: seq<byte>, ipv6: bool): (a: U32)
    requires HeaderLength(ipv6) <= |ip|
  {
    if ipv6 then Trunc32(Word(ip, 16) + Word(ip, 20)) else Word(ip, 12)
  }

  function Destination(ip: seq<byte>, ipv6: bool): (a: U32)
    requires HeaderLength(ipv6) <= |ip|
  {
    if ipv6 then Trunc32(Word(ip, 32) + Word(ip, 36)) else Word(ip, 16)
  }

  function Segment(ip: seq<byte>, r: T.Region): (s: T.Segment)
    requires r.offset + r.length <= |ip|
  {
    T.Split(r.proto, ip[r.offset..r.offset + r.length])
  }

  // The flow a delivered packet belongs to, if its lengths are accepted.
  function TupleAt(prefs: Prefs, p: seq<byte>, o: Outcome): (t: Option<Tuple>)
    requires o.Deliver? ==> o.ipOffset <= |p|
  {
    if !o.Deliver? then None
    else
      var ip := Seen(p, o.ipOffset);
      match RegionOf(ip, o.ipv6)
      case None => None
      case Some(r) => Some(FlowOf(if prefs.ignoreVlan then 0 else o.vlanId, ip, o.ipv6, r))
  }

  function FlowOf(vlanId: U16, ip: seq<byte>, ipv6: bool, r: T.Region): (t: Tuple)
    requires HeaderLength(ipv6) <= |ip| && r.offset + r.length <= |ip|
  {
    var s := Segment(ip, r);
    Tuple(vlanId, r.proto, Source(ip, ipv6), Ntohs(s.sport), Destination(ip, ipv6), Ntohs(s.dport))
  }

  // The transport region and the payload are bytes of the capture: the region in full, the
  // payload as its tail.
  ghost predicate InsideCapture(p: seq<byte>, at: nat, proto: byte, length: U16) {
    && at + length <= |p|
    && var l4 := p[at..at + length];
       var s := T.Split(proto, l4);
       s.payloadLen > 0 ==> s.skip + s.payloadLen == length && T.Payload(proto, l4) == p[at + s.skip..at + length]
  }

  lemma SliceOfSlice(p: seq<byte>, a: nat, n: nat, b: nat, m: nat)
    requires a + n <= |p| && b + m <= n
    ensures p[a..a + n][b..b + m] == p[a + b..a + b + m]
  {
    var x, y := p[a..a + n][b..b + m], p[a + b..a + b + m];
    assert forall k | 0 <= k < m :: x[k] == y[k];
  }

  lemma PayloadIsTail(proto: byte, l4: seq<byte>)
    requires |l4| <= 0xFFFF
    ensures var s := T.Split(proto, l4);
            s.payloadLen > 0 ==> s.skip + s.payloadLen == |l4| && T.Payload(proto, l4) == l4[s.skip..s.skip + s.payloadLen]
  {
  }

  lemma RegionInside(p: seq<byte>, at: nat, proto: byte, length: U16)
    requires at + length <= |p|
    ensures InsideCapture(p, at, proto, length)
  {
    var l4 := p[at..at + length];
    var s := T.Split(proto, l4);
    PayloadIsTail(proto, l4);
    if s.payloadLen > 0 { SliceOfSlice(p, at, length, s.skip, s.payloadLen); }
  }

  lemma SeenInside(p: seq<byte>, a: nat, ip: seq<byte>, r: T.Region)
    requires a + |ip| <= |p| && ip == p[a..a + |ip|] && r.offset + r.length <= |ip|
    ensures InsideCapture(p, a + r.offset, r.proto, r.length)
    ensures ip[r.offset..r.offset + r.length] == p[a + r.offset..a + r.offset + r.length]
  {
    SliceOfSlice(p, a, |ip|, r.offset, r.length);
    RegionInside(p, a + r.offset, r.proto, r.length);
  }

  lemma AcceptedInside(p: seq<byte>, a: nat, ipv6: bool, r: T.Region)
    requires a <= |p| && RegionOf(Seen(p, a), ipv6) == Some(r)
    ensures InsideCapture(p, a + r.offset, r.proto, r.length)
    ensures Seen(p, a)[r.offset..r.offset + r.length] == p[a + r.offset..a + r.offset + r.length]
  {
    SeenInside(p, a, Seen(p, a), r);
  }

  // For a capture of any length and any nesting: what a delivered packet hands to the flow
  // lookup and to the statistics lies inside the capture.
  lemma PayloadInsideCapture(decodeTunnels: bool, p: seq<byte>, c: Cursor, k: nat, r: T.Region)
    requires var o := Run(Decapsulator(decodeTunnels, p), c, k);
             o.Deliver? && (o.ipOffset <= |p| ==> RegionOf(Seen(p, o.ipOffset), o.ipv6) == Some(r))
    ensures var o := Run(Decapsulator(decodeTunnels, p), c, k);
            && o.ipOffset <= |p| && InsideCapture(p, o.ipOffset + r.offset, r.proto, r.length)
            && Seen(p, o.ipOffset)[r.offset..r.offset + r.length] == p[o.ipOffset + r.offset..o.ipOffset + r.offset + r.length]
  {
    DeliveredHeaderInside(decodeTunnels, p, c, k);
    var o := Run(Decapsulator(decodeTunnels, p), c, k);
    AcceptedInside(p, o.ipOffset, o.ipv6, r);
  }

  // ---------------------------------------------------------------- whole captures

  // What decapsulation comes to, where it ends.
  ghost function Decapsulated(prefs: Prefs, datalink: Datalink, p: seq<byte>): (o: Outcome)
    ensures o.Deliver? ==> o.ipOffset <= |p|
  {
    var m := Decapsulator(prefs.decodeTunnels, p);
    if Halts(m, Start(datalink)) then
      var k: nat :| !Run(m, Start(datalink), k).Goto?;
      DeliveredHeaderInside(prefs.decodeTunnels, p, Start(datalink), k);
      Run(m, Start(datalink), k)
    else Goto(Start(datalink))
  }

  // However many steps it took.
  lemma IsDecapsulated(prefs: Prefs, datalink: Datalink, p: seq<byte>, k: nat)
    requires !Run(Decapsulator(prefs.decodeTunnels, p), Start(datalink), k).Goto?
    ensures Decapsulated(prefs, datalink, p) == Run(Decapsulator(prefs.decodeTunnels, p), Start(datalink), k)
  {
    var m, c := Decapsulator(prefs.decodeTunnels, p), Start(datalink);
    assert Halts(m, c);
    forall j: nat | !Run(m, c, j).Goto? ensures Run(m, c, j) == Run(m, c, k) {
      if j <= k { RunIsStable(m, c, j, k); } else { RunIsStable(m, c, k, j); }
    }
  }

  datatype Capture = Capture(time: nat, bytes: seq<byte>)

  // The packet the flow table is given for a capture.
  ghost function Read(prefs: Prefs, datalink: Datalink, f: Capture): (q: W.Packet) {
    W.Packet(f.time, TupleAt(prefs, f.bytes, Decapsulated(prefs, datalink, f.bytes)), Trunc16(|f.bytes|))
  }

  ghost function ReadAll(prefs: Prefs, datalink: Datalink, fs: seq<Capture>): (qs: seq<W.Packet>) {
    seq(|fs|, i requires 0 <= i < |fs| => Read(prefs, datalink, fs[i]))
  }

  // ---------------------------------------------------------------- plain frames

  // An Ethernet frame with any number of VLAN tags and an unfragmented IPv4 packet of TCP or UDP
  // whose lengths fit, and that is no tunnel.
  ghost predicate IsPlainFrame(prefs: Prefs, p: seq<byte>, tags: seq<U16>) {
    var at := 14 + 4 * |tags|;
    && at + 20 <= |p| <= MAX_SAFE_CAPLEN
    && Be16(p, 12) == (if tags == [] then ETH_P_IP else ETH_P_VLAN) && VlanStackAt(p, 14, tags, ETH_P_IP)
    && p[at] / 16 == 4 && p[at] % 16 >= 5 && Be16(p, at + 6) % 0x2000 == 0
    && T.Ipv4Region(p[at..]).Some?
    && (var r := T.Ipv4Region(p[at..]).value;
        || (p[at + 9] == T.TCP && r.length >= 20)
        || (p[at + 9] == T.UDP && r.length >= 8 && (prefs.decodeTunnels ==> UdpTunnel(p, at + r.offset).NoTunnel?)))
  }

  function VlanOf(tags: seq<U16>): (v: U16) { if tags == [] then 0 else tags[|tags| - 1] % 0x1000 }

  lemma TagsPeeled(prefs: Prefs, p: seq<byte>, tags: seq<U16>)
    requires IsPlainFrame(prefs, p, tags)
    ensures var c := Start(Ethernet).(phase := EtherTypeCheck, etherType := ETH_P_IP, ipOffset := 14 + 4 * |tags|, vlanId := VlanOf(tags));
            exists k: nat :: Run(Decapsulator(prefs.decodeTunnels, p), Start(Ethernet), k) == Goto(c)
  {
    var m := Decapsulator(prefs.decodeTunnels, p);
    var c := Start(Ethernet).(phase := EtherTypeCheck, etherType := Be16(p, 12), ipOffset := 14);
    assert m(Start(Ethernet)) == EthernetStep(p, Start(Ethernet)) == Goto(c);
    RunStep(m, Start(Ethernet), c, 0);
    if tags != [] {
      VlanStackPeeled(prefs.decodeTunnels, p, c, tags, ETH_P_IP);
      RunStep(m, Start(Ethernet), c, |tags| + 1);
    }
  }

  lemma PlainFrameStep(prefs: Prefs, p: seq<byte>, tags: seq<U16>, c: Cursor)
    requires IsPlainFrame(prefs, p, tags) && c.phase.IphCheck? && c.etherType == ETH_P_IP && c.ipOffset == 14 + 4 * |tags|
    ensures IphStep(prefs.decodeTunnels, p, c) == Deliver(c.ipOffset, false, c.vlanId, c.tunnel)
  {
    var at := c.ipOffset;
    var d := NoteIpv4Fields(p, c);
    assert p[at..][0] == p[at] && p[at..][9] == p[at + 9] && Be16(p[at..], 2) == Be16(p, at + 2);
    T.Ipv4AcceptedIff(p[at..]);
  }

  // Such a frame is delivered where its IP header stands, in the VLAN of its last tag.
  lemma PlainFrameDelivered(prefs: Prefs, p: seq<byte>, tags: seq<U16>)
    requires IsPlainFrame(prefs, p, tags)
    ensures Decapsulated(prefs, Ethernet, p) == Deliver(14 + 4 * |tags|, false, VlanOf(tags), NoTunnel)
  {
    var m := Decapsulator(prefs.decodeTunnels, p);
    TagsPeeled(prefs, p, tags);
    var c := Start(Ethernet).(phase := EtherTypeCheck, etherType := ETH_P_IP, ipOffset := 14 + 4 * |tags|, vlanId := VlanOf(tags));
    var d := c.(phase := IphCheck);
    var k: nat :| Run(m, Start(Ethernet), k) == Goto(c);
    PlainFrameStep(prefs, p, tags, d);
    assert m(c) == Goto(d) && m(d) == Deliver(c.ipOffset, false, c.vlanId, c.tunnel);
    RunThenSteps(m, Start(Ethernet), k, c, d);
    IsDecapsulated(prefs, Ethernet, p, k + 2);
  }

  lemma {:induction false} RunThenSteps(m: Machine, b: Cursor, k: nat, c: Cursor, d: Cursor)
    requires Run(m, b, k) == Goto(c) && m(c) == Goto(d) && !m(d).Goto?
    ensures Run(m, b, k + 2) == m(d)
    decreases k
  {
    if k == 0 {
      assert Run(m, d, 1) == m(d);
      RunStep(m, c, d, 1);
    } else {
      RunThenSteps(m, m(b).cursor, k - 1, c, d);
    }
  }

  // ---------------------------------------------------------------- both directions of a conversation

  // q is sent back where p came from: addresses and ports change places.
  ghost predicate AnswersAt(p: seq<byte>, at: nat, l4: nat, q: seq<byte>, bt: nat, m4: nat)
    requires at + 20 <= |p| && bt + 20 <= |q| && l4 + 4 <= |p| && m4 + 4 <= |q|
  {
    && q[bt + 9] == p[at + 9] && q[bt + 12..bt + 16] == p[at + 16..at + 20] && q[bt + 16..bt + 20] == p[at + 12..at + 16]
    && q[m4..m4 + 2] == p[l4 + 2..l4 + 4] && q[m4 + 2..m4 + 4] == p[l4..l4 + 2]
  }

  function L4At(p: seq<byte>, tags: seq<U16>): (l4: nat)
    requires 14 + 4 * |tags| < |p|
  {
    14 + 4 * |tags| + p[14 + 4 * |tags|] % 16 * 4
  }

  // The tuple of a plain frame, straight from its bytes.
  function PlainTuple(prefs: Prefs, p: seq<byte>, tags: seq<U16>): (t: Tuple)
    requires 34 + 4 * |tags| <= |p| && L4At(p, tags) + 4 <= |p|
  {
    Fields(if prefs.ignoreVlan then 0 else VlanOf(tags), p, 14 + 4 * |tags|, L4At(p, tags))
  }

  function Fields(vlanId: U16, p: seq<byte>, at: nat, l4: nat): (t: Tuple)
    requires at + 20 <= |p| && l4 + 4 <= |p|
  {
    Tuple(vlanId, p[at + 9], Word(p, at + 12), Ntohs(Be16(p, l4)), Word(p, at + 16), Ntohs(Be16(p, l4 + 2)))
  }

  lemma PortsOf(ip: seq<byte>, r: T.Region)
    requires r.offset + r.length <= |ip| && ((r.proto == T.TCP && r.length >= 20) || (r.proto == T.UDP && r.length >= 8))
    ensures Segment(ip, r).sport == Be16(ip, r.offset) && Segment(ip, r).dport == Be16(ip, r.offset + 2)
  {
    var l4 := ip[r.offset..r.offset + r.length];
    assert Be16(l4, 0) == Be16(ip, r.offset) && Be16(l4, 2) == Be16(ip, r.offset + 2);
  }

  lemma LoadsBehind(p: seq<byte>, at: nat, i: nat)
    requires at + i + 4 <= |p|
    ensures Word(p[at..], i) == Word(p, at + i) && Be16(p[at..], i) == Be16(p, at + i) && Be16(p[at..], i + 2) == Be16(p, at + i + 2)
  {
    var ip := p[at..];
    assert ip[i] == p[at + i] && ip[i + 1] == p[at + i + 1] && ip[i + 2] == p[at + i + 2] && ip[i + 3] == p[at + i + 3];
  }

  lemma PlainFrameRegion(prefs: Prefs, p: seq<byte>, tags: seq<U16>)
    requires IsPlainFrame(prefs, p, tags)
    ensures var ip := p[14 + 4 * |tags|..];
            var r := T.Ipv4Region(ip).value;
            && Seen(p, 14 + 4 * |tags|) == ip && r.proto == p[14 + 4 * |tags| + 9] && r.offset + r.length <= |ip|
            && 14 + 4 * |tags| + r.offset == L4At(p, tags)
            && ((r.proto == T.TCP && r.length >= 20) || (r.proto == T.UDP && r.length >= 8))
            && RegionOf(ip, false) == Some(r)
  {
    var at := 14 + 4 * |tags|;
    assert p[at..][9] == p[at + 9] && p[at..][0] == p[at];
    T.Ipv4AcceptedIff(p[at..]);
  }

  lemma FlowOfPlain(vlanId: U16, p: seq<byte>, at: nat, r: T.Region)
    requires at + 20 <= |p| && at + r.offset + r.length <= |p|
    requires r.proto == p[at + 9] && ((r.proto == T.TCP && r.length >= 20) || (r.proto == T.UDP && r.length >= 8))
    ensures FlowOf(vlanId, p[at..], false, r) == Fields(vlanId, p, at, at + r.offset)
  {
    PortsOf(p[at..], r);
    LoadsBehind(p, at, 12);
    LoadsBehind(p, at, 16);
    LoadsBehind(p, at, r.offset);
  }

  lemma TupleAtIs(prefs: Prefs, p: seq<byte>, at: U16, ipv6: bool, vlanId: U16, tunnel: Tunnel, ip: seq<byte>, r: T.Region)
    requires at <= |p| && ip == Seen(p, at) && RegionOf(ip, ipv6) == Some(r)
    ensures TupleAt(prefs, p, Deliver(at, ipv6, vlanId, tunnel)) == Some(FlowOf(if prefs.ignoreVlan then 0 else vlanId, ip, ipv6, r))
  {
  }

  lemma TupleOfPlain(prefs: Prefs, p: seq<byte>, at: U16, vlanId: U16, r: T.Region)
    requires at + 20 <= |p| && Seen(p, at) == p[at..] && RegionOf(p[at..], false) == Some(r)
    requires r.proto == p[at + 9] && ((r.proto == T.TCP && r.length >= 20) || (r.proto == T.UDP && r.length >= 8))
    ensures at + r.offset + 8 <= |p|
    ensures TupleAt(prefs, p, Deliver(at, false, vlanId, NoTunnel)) ==
            Some(Fields(if prefs.ignoreVlan then 0 else vlanId, p, at, at + r.offset))
  {
    TupleAtIs(prefs, p, at, false, vlanId, NoTunnel, p[at..], r);
    FlowOfPlain(if prefs.ignoreVlan then 0 else vlanId, p, at, r);
  }

  lemma PlainTupleIs(prefs: Prefs, p: seq<byte>, tags: seq<U16>, r: T.Region)
    requires 34 + 4 * |tags| <= |p| <= MAX_SAFE_CAPLEN && L4At(p, tags) == 14 + 4 * |tags| + r.offset
    requires Seen(p, 14 + 4 * |tags|) == p[14 + 4 * |tags|..] && RegionOf(p[14 + 4 * |tags|..], false) == Some(r)
    requires r.proto == p[14 + 4 * |tags| + 9]
    requires (r.proto == T.TCP && r.length >= 20) || (r.proto == T.UDP && r.length >= 8)
    ensures L4At(p, tags) + 8 <= |p|
    ensures TupleAt(prefs, p, Deliver(14 + 4 * |tags|, false, VlanOf(tags), NoTunnel)) == Some(PlainTuple(prefs, p, tags))
  {
    TupleOfPlain(prefs, p, 14 + 4 * |tags|, VlanOf(tags), r);
  }

  lemma PlainFrameRead(prefs: Prefs, p: seq<byte>, tags: seq<U16>, time: nat)
    requires IsPlainFrame(prefs, p, tags)
    ensures L4At(p, tags) + 8 <= |p| && Read(prefs, Ethernet, Capture(time, p)).tuple == Some(PlainTuple(prefs, p, tags))
  {
    PlainFrameDelivered(prefs, p, tags);
    PlainFrameRegion(prefs, p, tags);
    PlainTupleIs(prefs, p, tags, T.Ipv4Region(p[14 + 4 * |tags|..]).value);
  }

  lemma AnswerIsMirror(prefs: Prefs, p: seq<byte>, tags: seq<U16>, q: seq<byte>, back: seq<U16>)
    requires 34 + 4 * |tags| <= |p| && L4At(p, tags) + 4 <= |p| && 34 + 4 * |back| <= |q| && L4At(q, back) + 4 <= |q|
    requires VlanOf(tags) == VlanOf(back) || prefs.ignoreVlan
    requires AnswersAt(p, 14 + 4 * |tags|, L4At(p, tags), q, 14 + 4 * |back|, L4At(q, back))
    ensures PlainTuple(prefs, q, back) == Mirror(PlainTuple(prefs, p, tags))
  {
    WordsFromSlices(q, 14 + 4 * |back| + 12, p, 14 + 4 * |tags| + 16);
    WordsFromSlices(q, 14 + 4 * |back| + 16, p, 14 + 4 * |tags| + 12);
    HalvesFromSlices(q, L4At(q, back), p, L4At(p, tags) + 2);
    HalvesFromSlices(q, L4At(q, back) + 2, p, L4At(p, tags));
  }

  lemma BytesFromSlices(p: seq<byte>, i: nat, q: seq<byte>, j: nat, n: nat, k: nat)
    requires i + n <= |p| && j + n <= |q| && p[i..i + n] == q[j..j + n] && k < n
    ensures p[i + k] == q[j + k]
  {
    assert p[i..i + n][k] == q[j..j + n][k];
  }

  lemma WordsFromSlices(p: seq<byte>, i: nat, q: seq<byte>, j: nat)
    requires i + 4 <= |p| && j + 4 <= |q| && p[i..i + 4] == q[j..j + 4]
    ensures Word(p, i) == Word(q, j)
  {
    BytesFromSlices(p, i, q, j, 4, 0);
    BytesFromSlices(p, i, q, j, 4, 1);
    BytesFromSlices(p, i, q, j, 4, 2);
    BytesFromSlices(p, i, q, j, 4, 3);
  }

  lemma HalvesFromSlices(p: seq<byte>, i: nat, q: seq<byte>, j: nat)
    requires i + 2 <= |p| && j + 2 <= |q| && p[i..i + 2] == q[j..j + 2]
    ensures Be16(p, i) == Be16(q, j)
  {
    BytesFromSlices(p, i, q, j, 2, 0);
    BytesFromSlices(p, i, q, j, 2, 1);
  }

  // A frame and its answer, each behind any stack of tags.
  ghost predicate Answers(prefs: Prefs, p: seq<byte>, tags: seq<U16>, q: seq<byte>, back: seq<U16>) {
    && IsPlainFrame(prefs, p, tags) && IsPlainFrame(prefs, q, back) && (VlanOf(tags) == VlanOf(back) || prefs.ignoreVlan)
    && L4At(p, tags) + 4 <= |p| && L4At(q, back) + 4 <= |q|
    && AnswersAt(p, 14 + 4 * |tags|, L4At(p, tags), q, 14 + 4 * |back|, L4At(q, back))
  }

  // They carry the two orientations of one conversation.
  lemma AnswersShareConversation(prefs: Prefs, p: Capture, tags: seq<U16>, q: Capture, back: seq<U16>)
    requires Answers(prefs, p.bytes, tags, q.bytes, back)
    ensures var x, y := Read(prefs, Ethernet, p).tuple, Read(prefs, Ethernet, q).tuple;
            x.Some? && y == Some(Mirror(x.value)) && ConversationOf(x.value) == ConversationOf(y.value)
  {
    PlainFrameRead(prefs, p.bytes, tags, p.time);
    PlainFrameRead(prefs, q.bytes, back, q.time);
    AnswerIsMirror(prefs, p.bytes, tags, q.bytes, back);
    SameConversation(PlainTuple(prefs, p.bytes, tags), PlainTuple(prefs, q.bytes, back));
  }

  ghost predicate Has(cfg: W.Config, s: W.State, c: Conversation, packets: nat)
    requires W.Inv(cfg, s)
  {
    if c in Table.Flows(s.roots) then W.Packets(Table.Flows(s.roots)[c]) == packets else packets == 0
  }

  // A packet that is given to a flow is counted in the record of its conversation.
  lemma PacketIsCounted(cfg: W.Config, s: W.State, q: W.Packet, packets: nat)
    requires W.Inv(cfg, s) && W.Accepted(cfg, s, q) && Has(cfg, s, ConversationOf(q.tuple.value), packets)
    ensures W.Inv(cfg, W.Step(cfg, s, q)) && ConversationOf(q.tuple.value) in Table.Flows(W.Step(cfg, s, q).roots)
    ensures Has(cfg, W.Step(cfg, s, q), ConversationOf(q.tuple.value), packets + 1)
  {
    W.StepKeepsInv(cfg, s, q);
    W.ClockKeepsInv(cfg, s, q.time);
    W.ReceiveRefines(cfg, W.Clock(s, q.time), q.tuple.value, q.rawSize);
    W.CurrentFlowSurvives(cfg, s, q);
    W.ScanReapsIdleOnly(cfg, W.Ingest(cfg, s, q));
  }

  // From the raw bytes of a frame and its answer, read by one thread in any state: both are
  // counted in one record.
  lemma AnswersReachOneRecord(prefs: Prefs, cfg: W.Config, s: W.State, p: Capture, tags: seq<U16>, q: Capture, back: seq<U16>, n: nat)
    requires Answers(prefs, p.bytes, tags, q.bytes, back) && W.Inv(cfg, s)
    requires W.Accepted(cfg, s, Read(prefs, Ethernet, p))
    requires Has(cfg, s, ConversationOf(Read(prefs, Ethernet, p).tuple.value), n)
    ensures var s1 := W.Step(cfg, s, Read(prefs, Ethernet, p));
            && W.Inv(cfg, s1) && W.Inv(cfg, W.Step(cfg, s1, Read(prefs, Ethernet, q)))
            && Has(cfg, W.Step(cfg, s1, Read(prefs, Ethernet, q)), ConversationOf(Read(prefs, Ethernet, p).tuple.value), n + 2)
  {
    AnswersShareConversation(prefs, p, tags, q, back);
    PacketIsCounted(cfg, s, Read(prefs, Ethernet, p), n);
    PacketIsCounted(cfg, W.Step(cfg, s, Read(prefs, Ethernet, p)), Read(prefs, Ethernet, q), n + 1);
  }

  // ---------------------------------------------------------------- encapsulated frames

  // The same bytes behind an envelope are the same packet.
  lemma SeenBehind(h: seq<byte>, p: seq<byte>, at: nat)
    requires at <= |p| && |h| + |p| <= 0xFFFF
    ensures Seen(h + p, |h| + at) == Seen(p, at)
  {
    assert (h + p)[|h| + at..] == p[at..];
  }

  lemma EnvelopedTuple(prefs: Prefs, h: seq<byte>, p: seq<byte>, o: Outcome, r: Outcome)
    requires |h| + |p| <= 0xFFFF && Enveloped(o, r, |h|) && (o.Deliver? ==> o.ipOffset <= |p|)
    ensures r.Deliver? ==> r.ipOffset <= |h + p|
    ensures TupleAt(prefs, h + p, r) == TupleAt(prefs, p, o)
  {
    if o.Deliver? { SeenBehind(h, p, o.ipOffset); }
  }

  // A number of steps after which a capture is certainly through.
  lemma EndsWithin(p: seq<byte>, j: nat) returns (k: nat)
    requires |p| <= MAX_SAFE_CAPLEN
    ensures k >= j && !Run(Decapsulator(true, p), Start(Ethernet), k).Goto?
  {
    var m, c := Decapsulator(true, p), Start(Ethernet);
    var r := DecapsulationHalting.Rank(p, c) + 1;
    DecapsulatorSound(true, p);
    HaltsWithinRank(p, m, c);
    k := if j <= r then r else j;
    RunIsStable(m, c, r, k);
  }

  // A frame in a VXLAN envelope is accounted to the conversation of the bare frame.
  lemma EnvelopeKeepsConversation(ignoreVlan: bool, h: seq<byte>, frame: seq<byte>, tags: seq<U16>, t: nat, u: nat)
    requires IsVxlanEnvelope(h) && IsIpFrame(frame, tags) && |h| + |frame| <= MAX_SAFE_CAPLEN
    ensures var prefs := Prefs(true, ignoreVlan);
            Read(prefs, Ethernet, Capture(t, h + frame)).tuple == Read(prefs, Ethernet, Capture(u, frame)).tuple
  {
    var prefs := Prefs(true, ignoreVlan);
    var k := EndsWithin(frame, Ahead(tags) + 1);
    var j := k - Ahead(tags) - 1;
    VxlanRoundTrip(h, frame, tags, j);
    IsDecapsulated(prefs, Ethernet, frame, Ahead(tags) + (j + 1));
    IsDecapsulated(prefs, Ethernet, h + frame, Ahead(tags) + (j + 1) + 3);
    EnvelopedTuple(prefs, h, frame, Decapsulated(prefs, Ethernet, frame), Decapsulated(prefs, Ethernet, h + frame));
  }

  // ---------------------------------------------------------------- capture files

  // A file of raw captures of any length on which decapsulation ends: every record is the summary
  // of all captures whose bytes lead to its conversation, and every conversation has one exactly
  // when they fit the flow limit.
  lemma CaptureFilesAreSummarised(prefs: Prefs, datalink: Datalink, cfg: W.Config, n: nat, protocols: nat, categories: nat, fs: seq<Capture>)
    requires n > 0 && W.Ready(cfg, W.Fresh(n, protocols, categories).stats) && !cfg.live
    requires forall f | f in fs :: Halts(Decapsulator(prefs.decodeTunnels, f.bytes), Start(datalink))
    ensures W.Inv(cfg, W.Fresh(n, protocols, categories))
    ensures var qs := ReadAll(prefs, datalink, fs);
            var m := Table.Flows(W.Run(cfg, W.Fresh(n, protocols, categories), qs).roots);
            && (forall c | c in m :: H.Summarises(m[c], H.Sightings(qs, c, 0)))
            && Admits(m.Keys, H.Conversations(qs), cfg.maxFlows)
  {
    var qs := ReadAll(prefs, datalink, fs);
    H.FilesAreSummarisedIff(cfg, n, protocols, categories, qs);
    var m := Table.Flows(W.Run(cfg, W.Fresh(n, protocols, categories), qs).roots);
    forall c | c in m ensures H.Summarises(m[c], H.Sightings(qs, c, 0)) {
      H.RecordsAreWhole(cfg, n, protocols, categories, qs, c);
    }
  }
}
