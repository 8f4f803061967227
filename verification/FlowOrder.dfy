/** Flow identities of the packet reader and the comparator of its trees. */
module FlowOrder {
  import opened Octets
  import SearchTree

  // Addresses and ports in network byte order, as in struct ndpi_flow_info.
  datatype FlowKey = FlowKey(
    hashval: U32, vlanId: U16, protocol: byte,
    srcIp: U32, srcPort: U16, dstIp: U32, dstPort: U16)

  // The fields of a packet that select its flow.
  datatype Tuple = Tuple(vlanId: U16, protocol: byte, srcIp: U32, srcPort: U16, dstIp: U32, dstPort: U16)

  function Mirror(t: Tuple): (r: Tuple) {
    t.(srcIp := t.dstIp, srcPort := t.dstPort, dstIp := t.srcIp, dstPort := t.srcPort)
  }

  function Hash(t: Tuple): (h: U32) {
    Trunc32(t.protocol + Ntohl(t.srcIp) + Ntohl(t.dstIp) + Ntohs(t.srcPort) + Ntohs(t.dstPort))
  }

  function KeyOf(t: Tuple): (k: FlowKey) {
    FlowKey(Hash(t), t.vlanId, t.protocol, t.srcIp, t.srcPort, t.dstIp, t.dstPort)
  }

  function TupleOf(k: FlowKey): (t: Tuple) {
    Tuple(k.vlanId, k.protocol, k.srcIp, k.srcPort, k.dstIp, k.dstPort)
  }

  // A conversation: both directions of a flow at once.
  datatype Endpoint = Endpoint(ip: U32, port: U16)
  datatype Conversation = Conversation(vlanId: U16, protocol: byte, ends: set<Endpoint>)

  function ConversationOf(t: Tuple): (c: Conversation) {
    Conversation(t.vlanId, t.protocol, {Endpoint(t.srcIp, t.srcPort), Endpoint(t.dstIp, t.dstPort)})
  }

  lemma SameConversation(t: Tuple, u: Tuple)
    ensures ConversationOf(t) == ConversationOf(u) <==> u == t || u == Mirror(t)
  {
    var a, b := Endpoint(t.srcIp, t.srcPort), Endpoint(t.dstIp, t.dstPort);
    var x, y := Endpoint(u.srcIp, u.srcPort), Endpoint(u.dstIp, u.dstPort);
    if {a, b} == {x, y} {
      assert x in {a, b} && y in {a, b} && a in {x, y} && b in {x, y};
    }
  }

  lemma HashIsSymmetric(t: Tuple)
    ensures Hash(Mirror(t)) == Hash(t)
  {
  }

  // -------------------------------------------------------------- the comparator

  function CmpN32(a: U32, b: U32): (r: int) { if a == b then 0 else if Ntohl(a) < Ntohl(b) then -1 else 1 }
  function CmpN16(a: U16, b: U16): (r: int) { if a == b then 0 else if Ntohs(a) < Ntohs(b) then -1 else 1 }

  // ndpi_workflow_node_cmp
  function NodeCmp(a: FlowKey, b: FlowKey): (r: int) {
    if a.hashval < b.hashval then -1
    else if a.hashval > b.hashval then 1
    else if a.vlanId < b.vlanId then -1
    else if a.vlanId > b.vlanId then 1
    else if a.protocol < b.protocol then -1
    else if a.protocol > b.protocol then 1
    else EndsCmp(a, b)
  }

  function EndsCmp(a: FlowKey, b: FlowKey): (r: int) {
    if CmpN32(a.srcIp, b.srcIp) != 0 then CmpN32(a.srcIp, b.srcIp)
    else if CmpN16(a.srcPort, b.srcPort) != 0 then CmpN16(a.srcPort, b.srcPort)
    else if CmpN32(a.dstIp, b.dstIp) != 0 then CmpN32(a.dstIp, b.dstIp)
    else CmpN16(a.dstPort, b.dstPort)
  }

  // The key read as one mixed-radix number, most significant field first.
  ghost function Rank(k: FlowKey): int {
    EndsRank(Digit(Digit(k.hashval, 0x1_0000, k.vlanId), 0x100, k.protocol), k)
  }

  ghost function EndsRank(high: int, k: FlowKey): int {
    var r := Digit(Digit(high, 0x1_0000_0000, Ntohl(k.srcIp)), 0x1_0000, Ntohs(k.srcPort));
    Digit(Digit(r, 0x1_0000_0000, Ntohl(k.dstIp)), 0x1_0000, Ntohs(k.dstPort))
  }

  lemma CmpN32IsOrder(a: U32, b: U32)
    ensures CmpN32(a, b) < 0 <==> Ntohl(a) < Ntohl(b)
    ensures CmpN32(a, b) > 0 <==> Ntohl(a) > Ntohl(b)
    ensures CmpN32(a, b) == 0 <==> a == b
  {
    SwapsAreInvolutions(0, a);
    SwapsAreInvolutions(0, b);
  }

  lemma CmpN16IsOrder(a: U16, b: U16)
    ensures CmpN16(a, b) < 0 <==> Ntohs(a) < Ntohs(b)
    ensures CmpN16(a, b) > 0 <==> Ntohs(a) > Ntohs(b)
    ensures CmpN16(a, b) == 0 <==> a == b
  {
    SwapTwice16(a);
    SwapTwice16(b);
  }

  // The comparator is a strict total order on whole keys.
  lemma NodeCmpIsOrder()
    ensures SearchTree.IsOrder(NodeCmp, Rank)
  {
    forall a, b
      ensures && (NodeCmp(a, b) < 0 <==> Rank(a) < Rank(b))
              && (NodeCmp(a, b) > 0 <==> Rank(a) > Rank(b))
              && (NodeCmp(a, b) == 0 <==> a == b)
    {
      NodeCmpAgrees(a, b);
    }
  }

  lemma NodeCmpAgrees(a: FlowKey, b: FlowKey)
    ensures NodeCmp(a, b) < 0 <==> Rank(a) < Rank(b)
    ensures NodeCmp(a, b) > 0 <==> Rank(a) > Rank(b)
    ensures NodeCmp(a, b) == 0 <==> a == b
  {
    var g, h := Digit(a.hashval, 0x1_0000, a.vlanId), Digit(b.hashval, 0x1_0000, b.vlanId);
    DigitIsLexicographic(a.hashval, b.hashval, 0x1_0000, a.vlanId, b.vlanId);
    DigitIsLexicographic(g, h, 0x100, a.protocol, b.protocol);
    EndsCmpAgrees(Digit(g, 0x100, a.protocol), Digit(h, 0x100, b.protocol), a, b);
  }

  lemma EndsCmpAgrees(g: int, h: int, a: FlowKey, b: FlowKey)
    ensures EndsRank(g, a) < EndsRank(h, b) <==> g < h || (g == h && EndsCmp(a, b) < 0)
    ensures EndsRank(g, a) > EndsRank(h, b) <==> g > h || (g == h && EndsCmp(a, b) > 0)
    ensures EndsCmp(a, b) == 0 <==>
            a.srcIp == b.srcIp && a.srcPort == b.srcPort && a.dstIp == b.dstIp && a.dstPort == b.dstPort
  {
    CmpN32IsOrder(a.srcIp, b.srcIp);
    CmpN16IsOrder(a.srcPort, b.srcPort);
    CmpN32IsOrder(a.dstIp, b.dstIp);
    CmpN16IsOrder(a.dstPort, b.dstPort);
    EndsRankIsLexicographic(g, h, Ntohl(a.srcIp), Ntohs(a.srcPort), Ntohl(a.dstIp), Ntohs(a.dstPort),
                            Ntohl(b.srcIp), Ntohs(b.srcPort), Ntohl(b.dstIp), Ntohs(b.dstPort));
  }

  lemma EndsRankIsLexicographic(g0: int, h0: int, a: U32, b: U16, c: U32, d: U16, w: U32, x: U16, y: U32, z: U16)
    ensures var g := Digit(Digit(Digit(Digit(g0, 0x1_0000_0000, a), 0x1_0000, b), 0x1_0000_0000, c), 0x1_0000, d);
            var h := Digit(Digit(Digit(Digit(h0, 0x1_0000_0000, w), 0x1_0000, x), 0x1_0000_0000, y), 0x1_0000, z);
            && (g < h <==> g0 < h0 || (g0 == h0 && (a < w || (a == w && (b < x || (b == x && (c < y || (c == y && d < z))))))))
            && (g == h <==> g0 == h0 && a == w && b == x && c == y && d == z)
  {
    DigitIsLexicographic(g0, h0, 0x1_0000_0000, a, w);
    var g1, h1 := Digit(g0, 0x1_0000_0000, a), Digit(h0, 0x1_0000_0000, w);
    DigitIsLexicographic(g1, h1, 0x1_0000, b, x);
    var g2, h2 := Digit(g1, 0x1_0000, b), Digit(h1, 0x1_0000, x);
    DigitIsLexicographic(g2, h2, 0x1_0000_0000, c, y);
    DigitIsLexicographic(Digit(g2, 0x1_0000_0000, c), Digit(h2, 0x1_0000_0000, y), 0x1_0000, d, z);
  }
}
