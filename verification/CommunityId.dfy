/** The flow hash of the sharded tracker and what its symmetry is worth: one record
    per conversation, exactly as long as both directions hash alike. */
module CommunityId {
  import opened Octets
  import opened SearchTree
  import opened Tracker

  const IPPROTO_ICMP: byte := 1
  const IPPROTO_TCP: byte := 6
  const IPPROTO_UDP: byte := 17
  const IPPROTO_ICMPV6: byte := 58
  const IPPROTO_SCTP: byte := 132

  // The ICMP type that answers a type; None for one-way types.
  function AnswerType(icmpType: byte): (r: Option<byte>) {
    match icmpType
    case 8 => Some(0) case 0 => Some(8)
    case 13 => Some(14) case 14 => Some(13)
    case 15 => Some(16) case 16 => Some(15)
    case 10 => Some(9) case 9 => Some(10)
    case 17 => Some(18) case 18 => Some(17)
    case _ => None
  }

  function Bytes16(x: U16): (r: seq<byte>) { [x / 0x100, x % 0x100] }

  function Bytes32(x: U32): (r: seq<byte>) { Bytes16(x / 0x1_0000) + Bytes16(x % 0x1_0000) }

  // The two port fields that enter the hash.
  function HashPorts(t: Tuple, icmpType: byte, icmpCode: byte): (r: (U16, U16)) {
    if t.protocol == IPPROTO_ICMP then
      (icmpType, match AnswerType(icmpType) case Some(a) => a case None => icmpCode)
    else if t.protocol == IPPROTO_SCTP || t.protocol == IPPROTO_UDP || t.protocol == IPPROTO_TCP then
      (t.srcPort, t.dstPort)
    else (0, 0)
  }

  predicate HasPorts(protocol: byte) {
    || protocol == IPPROTO_ICMP || protocol == IPPROTO_ICMPV6 || protocol == IPPROTO_SCTP
    || protocol == IPPROTO_UDP || protocol == IPPROTO_TCP
  }

  // ndpi_flowv4_flow_hash up to the digest: the peer that compares smaller goes first.
  function Buffer(t: Tuple, icmpType: byte, icmpCode: byte): (r: seq<byte>) {
    var (p, q) := HashPorts(t, icmpType, icmpCode);
    var oneWay := t.protocol == IPPROTO_ICMP && AnswerType(icmpType).None?;
    if oneWay || t.src < t.dst || (t.src == t.dst && Ntohs(p) < Ntohs(q))
    then Laid(t.protocol, t.src, t.dst, p, q)
    else Laid(t.protocol, t.dst, t.src, q, p)
  }

  function Laid(protocol: byte, a: U32, b: U32, p: U16, q: U16): (r: seq<byte>) {
    [0, 0] + Bytes32(a) + Bytes32(b) + [protocol, 0] + (if HasPorts(protocol) then Bytes16(p) + Bytes16(q) else [])
  }

  // The tracker passes ICMP type 0 and code 0 for every packet and folds the digest
  // with the protocol and the ports into 64 bits.
  function FlowHash(digest: seq<byte> -> nat, t: Tuple): (h: nat) {
    (digest(Buffer(t, 0, 0)) + t.protocol + t.srcPort + t.dstPort) % 0x1_0000_0000_0000_0000
  }

  // ------------------------------------------------------------------- symmetry

  lemma Bytes16Injective(x: U16, y: U16)
    ensures Bytes16(x) == Bytes16(y) ==> x == y
  {
    assert Bytes16(x)[0] == x / 0x100 && Bytes16(x)[1] == x % 0x100;
    assert Bytes16(y)[0] == y / 0x100 && Bytes16(y)[1] == y % 0x100;
  }

  lemma PortsDecideBuffer(protocol: byte, a: U32, b: U32, p: U16, q: U16, p': U16, q': U16)
    requires HasPorts(protocol) && Laid(protocol, a, b, p, q) == Laid(protocol, a, b, p', q')
    ensures p == p' && q == q'
  {
    var x, y := Laid(protocol, a, b, p, q), Laid(protocol, a, b, p', q');
    assert x[12..14] == Bytes16(p) && y[12..14] == Bytes16(p');
    assert x[14..16] == Bytes16(q) && y[14..16] == Bytes16(q');
    Bytes16Injective(p, p');
    Bytes16Injective(q, q');
  }

  // What the tracker hashes is the same in both directions exactly for packets that
  // are not ICMP, or that a host sends to its own address.
  lemma BufferIsSymmetricUnlessIcmp(t: Tuple)
    ensures Buffer(Mirror(t), 0, 0) == Buffer(t, 0, 0) <==> t.protocol != IPPROTO_ICMP || t.src == t.dst
  {
    if t.protocol == IPPROTO_ICMP && t.src != t.dst {
      var lo: U32, hi: U32 := if t.src < t.dst then t.src else t.dst, if t.src < t.dst then t.dst else t.src;
      if Buffer(Mirror(t), 0, 0) == Buffer(t, 0, 0) {
        PortsDecideBuffer(t.protocol, lo, hi, 0, 8, 8, 0);
      }
    } else {
      SymmetricPeers(t);
    }
  }

  lemma SymmetricPeers(t: Tuple)
    requires t.protocol != IPPROTO_ICMP || t.src == t.dst
    ensures Buffer(Mirror(t), 0, 0) == Buffer(t, 0, 0)
  {
    if t.protocol != IPPROTO_ICMP {
      SwapTwice16(t.srcPort);
      SwapTwice16(t.dstPort);
    }
  }

  // With the type of the packet itself, an echo reply hashes like its request.
  lemma EchoWouldBeSymmetric(t: Tuple)
    requires t.protocol == IPPROTO_ICMP
    ensures Buffer(Mirror(t), 0, 0) == Buffer(t, 8, 0)
  {
  }

  predicate Collide(digest: seq<byte> -> nat, a: seq<byte>, b: seq<byte>) {
    digest(a) % 0x1_0000_0000_0000_0000 == digest(b) % 0x1_0000_0000_0000_0000
  }

  // Folding in the protocol and the ports, which the directions share, does not change that.
  lemma HashAgreesIff(digest: seq<byte> -> nat, t: Tuple)
    ensures FlowHash(digest, t) == FlowHash(digest, Mirror(t)) <==> Collide(digest, Buffer(t, 0, 0), Buffer(Mirror(t), 0, 0))
  {
    SumsAgreeIff(digest(Buffer(t, 0, 0)), digest(Buffer(Mirror(t), 0, 0)), t.protocol + t.srcPort + t.dstPort);
  }

  lemma SumsAgreeIff(a: nat, b: nat, c: nat)
    ensures (a + c) % 0x1_0000_0000_0000_0000 == (b + c) % 0x1_0000_0000_0000_0000
            <==> a % 0x1_0000_0000_0000_0000 == b % 0x1_0000_0000_0000_0000
  {
  }

  lemma HashIsSymmetricUnlessIcmp(digest: seq<byte> -> nat, t: Tuple)
    requires t.protocol != IPPROTO_ICMP || t.src == t.dst
    ensures FlowHash(digest, Mirror(t)) == FlowHash(digest, t)
  {
    SymmetricPeers(t);
  }
}
