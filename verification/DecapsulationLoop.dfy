/** The reader's own loops over a frame, proved against the machine. */
module DecapsulationLoop {
  import opened Octets
  import opened Decapsulation
  import opened DecapsulationHalting

  // The walk over IPv6 extension headers, with *l4ptr, *l4len and *nxt_hdr as results.
  method HandleExtensionHeaders(p: seq<byte>, l3Len: U16, l4: nat, l4Len: U16, next: byte)
    returns (ok: bool, l4': nat, l4Len': U16, next': byte)
    requires l4 + l4Len <= |p|
    ensures SkipExtensionHeaders(p, l3Len, l4, l4Len, next)
         == if ok then Transport(l4', l4Len', next') else NoTransport
  {
    var room: U16 := l3Len;
    ok, l4', l4Len', next' := true, l4, l4Len, next;
    while room > 1 && IsExtensionHeader(next')
      invariant l4' + l4Len' <= |p|
      invariant SkipExtensionHeaders(p, room, l4', l4Len', next') == SkipExtensionHeaders(p, l3Len, l4, l4Len, next)
      decreases l4Len'
    {
      if next' == 59 { ok := false; return; }
      if next' == 44 {
        if l4Len' < 8 || room < 5 { ok := false; return; }
        var fragOffset := Be16(p, l4' + 2) / 8;
        if fragOffset != 0 { ok := false; return; }
        room, next', l4Len', l4' := room - 5, p[l4'], l4Len' - 8, l4' + 8;
        continue;
      }
      if l4Len' < 2 { ok := false; return; }
      var extLen: int := p[l4' + 1];
      extLen := extLen * 8 + 8;
      if extLen > room || l4Len' < extLen { ok := false; return; }
      room, next', l4Len', l4' := room - extLen, p[l4'], l4Len' - extLen, l4' + extLen;
    }
  }

  // The loop over GTP-U extension headers.
  method SkipGtpExtensions(p: seq<byte>, start: nat) returns (offset: nat, parsingError: bool)
    ensures (offset, parsingError) == GtpExtensions(p, start)
  {
    offset, parsingError := start, false;
    while offset < |p|
      invariant GtpExtensions(p, offset) == GtpExtensions(p, start) && !parsingError
    {
      var extLength := 4 * p[offset] as int;
      offset := offset + extLength;
      if offset >= |p| || extLength == 0 {
        parsingError := true;
        break;
      }
      if p[offset - 1] == 0 { break; }
    }
  }

  // After j of the k steps that b takes to halt, the machine stands at d.
  ghost predicate OnTheWay(m: Machine, b: Cursor, k: nat, d: Cursor, j: nat) {
    j < k && Run(m, b, j) == Goto(d) && !Run(m, b, k).Goto?
  }

  lemma NextOnTheWay(m: Machine, b: Cursor, k: nat, d: Cursor, j: nat)
    requires OnTheWay(m, b, k, d, j)
    ensures Run(m, b, j + 1) == m(d)
    ensures m(d).Goto? ==> OnTheWay(m, b, k, m(d).cursor, j + 1)
  {
    RunCompose(m, b, j, d, 1);
    RunCompose(m, b, j, d, k - j);
    assert Run(m, d, 1) == m(d);
    if m(d).Goto? { assert Run(m, d, k - j) == Run(m, m(d).cursor, k - j - 1); }
  }

  // `ether_type_check` for a VLAN tag: the first tag, then the double-tagging loop.
  method PopVlanTags(decodeTunnels: bool, p: seq<byte>, c: Cursor, ghost b: Cursor, ghost k: nat, ghost i: nat)
    returns (d: Cursor, ghost j: nat)
    requires OnTheWay(Decapsulator(decodeTunnels, p), b, k, c, i)
    requires c.phase.EtherTypeCheck? && c.etherType == ETH_P_VLAN && c.ipOffset + 4 < |p|
    ensures i < j && OnTheWay(Decapsulator(decodeTunnels, p), b, k, d, j)
    ensures d.phase.EtherTypeCheck? && (d.etherType != ETH_P_VLAN || d.ipOffset + 4 >= |p|)
  {
    ghost var m := Decapsulator(decodeTunnels, p);
    NextOnTheWay(m, b, k, c, i);
    d, j := PopVlan(p, c), i + 1;
    while d.etherType == ETH_P_VLAN && d.ipOffset + 4 < |p|
      invariant d.phase.VlanTags? && i < j && OnTheWay(m, b, k, d, j)
      decreases k - j
    {
      NextOnTheWay(m, b, k, d, j);
      d, j := PopVlan(p, d), j + 1;
    }
    NextOnTheWay(m, b, k, d, j);
    d, j := d.(phase := EtherTypeCheck), j + 1;
  }

  // `ether_type_check` for MPLS: labels up to the bottom of the stack.
  method PopMplsLabels(decodeTunnels: bool, p: seq<byte>, c: Cursor, ghost b: Cursor, ghost k: nat, ghost i: nat)
    returns (d: Cursor, ghost j: nat)
    requires OnTheWay(Decapsulator(decodeTunnels, p), b, k, c, i)
    requires c.phase.EtherTypeCheck? && c.etherType in {ETH_P_MPLS_UNI, ETH_P_MPLS_MULTI} && c.ipOffset + 4 < |p|
    ensures i < j && OnTheWay(Decapsulator(decodeTunnels, p), b, k, d, j)
    ensures d.phase.EtherTypeCheck? && d.etherType == ETH_P_IP && (d.bottom || d.ipOffset + 4 >= |p|)
  {
    ghost var m := Decapsulator(decodeTunnels, p);
    NextOnTheWay(m, b, k, c, i);
    d, j := PopMpls(p, c.(etherType := ETH_P_IP)), i + 1;
    while !d.bottom && d.ipOffset + 4 < |p|
      invariant d.phase.MplsLabels? && d.etherType == ETH_P_IP && i < j && OnTheWay(m, b, k, d, j)
      decreases k - j
    {
      NextOnTheWay(m, b, k, d, j);
      d, j := PopMpls(p, d), j + 1;
    }
    NextOnTheWay(m, b, k, d, j);
    d, j := d.(phase := EtherTypeCheck), j + 1;
  }

  // ndpi_workflow_process_packet up to the call of packet_processing, on every capture that
  // does not make it run forever; those of up to MAX_SAFE_CAPLEN octets never do.
  method ProcessPacket(decodeTunnels: bool, p: seq<byte>, datalink: Datalink) returns (o: Outcome)
    requires Halts(Decapsulator(decodeTunnels, p), Start(datalink))
    ensures !o.Goto? && exists k: nat :: Run(Decapsulator(decodeTunnels, p), Start(datalink), k) == o
    ensures o.Deliver? ==> HeaderInside(p, o.ipOffset, o.ipv6)
  {
    ghost var m, b := Decapsulator(decodeTunnels, p), Start(datalink);
    ghost var k: nat :| !Run(m, b, k).Goto?;
    var c := Start(datalink);
    ghost var j := 0;
    assert Run(m, b, 0) == Goto(c);
    while true
      invariant OnTheWay(m, b, k, c, j)
      decreases k - j
    {
      var tagged := c.phase.EtherTypeCheck? && c.ipOffset + 4 < |p|;
      if tagged && c.etherType == ETH_P_VLAN {
        c, j := PopVlanTags(decodeTunnels, p, c, b, k, j);
      } else if tagged && (c.etherType == ETH_P_MPLS_UNI || c.etherType == ETH_P_MPLS_MULTI) {
        c, j := PopMplsLabels(decodeTunnels, p, c, b, k, j);
      } else {
        o := Step(decodeTunnels, p, c);
        NextOnTheWay(m, b, k, c, j);
        if !o.Goto? {
          DeliveredHeaderInside(decodeTunnels, p, b, j + 1);
          return;
        }
        c, j := o.cursor, j + 1;
      }
    }
  }
}
