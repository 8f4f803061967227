/** The reader's flow table: an array of search trees, one flow per conversation. */
module FlowTable {
  import opened Octets
  import opened SearchTree
  import opened FlowOrder

  datatype Flow = Flow(
    id: nat, first: Tuple,              // addresses and ports of the packet that created it
    fwdPackets: nat, revPackets: nat, fwdBytes: nat, revBytes: nat,
    bidirectional: bool, firstSeen: nat, lastSeen: nat)

  type Root = Tree<FlowKey, Flow>

  function Bucket(hashval: U32, n: nat): (i: nat)
    requires n > 0
    ensures i < n
  {
    hashval % n
  }

  datatype Lookup = Known(key: FlowKey, flow: Flow, forward: bool) | Unknown

  // Find as is, then with the endpoints swapped; the hash is not computed again.
  function Locate(roots: seq<Root>, t: Tuple): (l: Lookup)
    requires |roots| > 0
  {
    var k := KeyOf(t);
    var root := roots[Bucket(k.hashval, |roots|)];
    match Find(root, k, NodeCmp)
    case Some(f) => Known(k, f, true)
    case None =>
      var m := k.(srcIp := k.dstIp, srcPort := k.dstPort, dstIp := k.srcIp, dstPort := k.srcPort);
      match Find(root, m, NodeCmp)
      case Some(f) => Known(m, f, false)
      case None => Unknown
  }

  function Store(roots: seq<Root>, k: FlowKey, f: Flow): (r: seq<Root>)
    requires |roots| > 0
  {
    var i := Bucket(k.hashval, |roots|);
    roots[i := Put(roots[i], k, f, NodeCmp)]
  }

  // ------------------------------------------------------------------- invariant

  ghost predicate ValidEntry(k: FlowKey, f: Flow, i: nat, n: nat)
    requires n > 0
  {
    k == KeyOf(f.first) && Bucket(k.hashval, n) == i
  }

  // Sorted, every flow in the bucket of its hash, no flow beside its mirror image.
  ghost predicate ValidRoot(root: Root, i: nat, n: nat)
    requires n > 0
  {
    && Sorted(root, Rank)
    && (forall k :: k in Contents(root) ==> ValidEntry(k, Contents(root)[k], i, n))
    && MirrorFree(Contents(root).Keys)
  }

  ghost predicate MirrorFree(keys: set<FlowKey>) {
    forall k :: k in keys && MirrorKey(k) in keys ==> MirrorKey(k) == k
  }

  function MirrorKey(k: FlowKey): (m: FlowKey) { KeyOf(Mirror(TupleOf(k))) }

  ghost predicate Valid(roots: seq<Root>) {
    |roots| > 0 && forall i :: 0 <= i < |roots| ==> ValidRoot(roots[i], i, |roots|)
  }

  ghost predicate Holds(roots: seq<Root>, t: Tuple)
    requires |roots| > 0
  {
    KeyOf(t) in Contents(roots[Bucket(Hash(t), |roots|)])
  }

  ghost function FlowAt(roots: seq<Root>, t: Tuple): Flow
    requires |roots| > 0 && Holds(roots, t)
  {
    Contents(roots[Bucket(Hash(t), |roots|)])[KeyOf(t)]
  }

  ghost function Tuples(roots: seq<Root>): set<Tuple> {
    set i, k | 0 <= i < |roots| && k in Contents(roots[i]) :: TupleOf(k)
  }

  lemma TuplesAreHeld(roots: seq<Root>, t: Tuple)
    requires Valid(roots)
    ensures t in Tuples(roots) <==> Holds(roots, t)
    ensures Holds(roots, t) ==> FlowAt(roots, t).first == t
  {
    var b := Bucket(Hash(t), |roots|);
    if Holds(roots, t) {
      assert ValidRoot(roots[b], b, |roots|) && TupleOf(KeyOf(t)) == t;
      assert ValidEntry(KeyOf(t), Contents(roots[b])[KeyOf(t)], b, |roots|);
    }
    if t in Tuples(roots) {
      var i, k :| 0 <= i < |roots| && k in Contents(roots[i]) && TupleOf(k) == t;
      assert ValidRoot(roots[i], i, |roots|);
      assert ValidEntry(k, Contents(roots[i])[k], i, |roots|);
    }
  }

  lemma HeldOnce(roots: seq<Root>, t: Tuple, u: Tuple)
    requires Valid(roots) && Holds(roots, t) && Holds(roots, u)
    requires ConversationOf(t) == ConversationOf(u)
    ensures t == u
  {
    SameConversation(t, u);
    if u != t {
      HashIsSymmetric(t);
      var b := Bucket(Hash(t), |roots|);
      HeldOnceInRoot(roots[b], b, |roots|, t);
    }
  }

  lemma HeldOnceInRoot(root: Root, i: nat, n: nat, t: Tuple)
    requires n > 0 && ValidRoot(root, i, n) && KeyOf(t) in Contents(root) && KeyOf(Mirror(t)) in Contents(root)
    ensures t == Mirror(t)
  {
    var k := KeyOf(t);
    assert TupleOf(k) == t && MirrorKey(k) == KeyOf(Mirror(t));
    assert TupleOf(MirrorKey(k)) == Mirror(t);
  }

  lemma OnePerConversation(roots: seq<Root>)
    requires Valid(roots)
    ensures forall t :: t in Tuples(roots) <==> Holds(roots, t)
    ensures forall t :: Holds(roots, t) ==> FlowAt(roots, t).first == t
    ensures forall t, u :: Holds(roots, t) && Holds(roots, u) && ConversationOf(t) == ConversationOf(u) ==> t == u
  {
    forall t
      ensures t in Tuples(roots) <==> Holds(roots, t)
      ensures Holds(roots, t) ==> FlowAt(roots, t).first == t
    {
      TuplesAreHeld(roots, t);
    }
    forall t, u | Holds(roots, t) && Holds(roots, u) && ConversationOf(t) == ConversationOf(u)
      ensures t == u
    {
      HeldOnce(roots, t, u);
    }
  }

  // m holds the flow of every tuple in the table, by conversation, and no other.
  ghost predicate Represents(roots: seq<Root>, m: map<Conversation, Flow>)
    requires Valid(roots)
  {
    && (forall t {:trigger t in Tuples(roots)} :: t in Tuples(roots) ==>
          ConversationOf(t) in m && Holds(roots, t) && m[ConversationOf(t)] == FlowAt(roots, t))
    && (forall c :: c in m ==> m[c].first in Tuples(roots) && ConversationOf(m[c].first) == c)
  }

  lemma Representable(roots: seq<Root>)
    requires Valid(roots)
    ensures exists m :: Represents(roots, m)
  {
    OnePerConversation(roots);
    var m := map t | t in Tuples(roots) :: ConversationOf(t) := FlowAt(roots, t);
    assert Represents(roots, m);
  }

  // The table as the map it refines: at most one flow per conversation.
  ghost function Flows(roots: seq<Root>): (m: map<Conversation, Flow>)
    requires Valid(roots)
    ensures Represents(roots, m)
  {
    Representable(roots);
    var m :| Represents(roots, m);
    m
  }

  lemma HeldInFlows(roots: seq<Root>, t: Tuple)
    requires Valid(roots) && Holds(roots, t)
    ensures ConversationOf(t) in Flows(roots) && Flows(roots)[ConversationOf(t)] == FlowAt(roots, t)
    ensures FlowAt(roots, t).first == t
  {
    TuplesAreHeld(roots, t);
    assert t in Tuples(roots);
  }

  lemma FlowsAreHeld(roots: seq<Root>, c: Conversation)
    requires Valid(roots) && c in Flows(roots)
    ensures var t := Flows(roots)[c].first;
            Holds(roots, t) && ConversationOf(t) == c && FlowAt(roots, t) == Flows(roots)[c]
  {
    var t := Flows(roots)[c].first;
    TuplesAreHeld(roots, t);
    HeldInFlows(roots, t);
  }

  // ------------------------------------------------------------------ refinement

  lemma FindHeld(roots: seq<Root>, t: Tuple)
    requires Valid(roots)
    ensures Find(roots[Bucket(Hash(t), |roots|)], KeyOf(t), NodeCmp)
         == if Holds(roots, t) then Some(FlowAt(roots, t)) else None
  {
    NodeCmpIsOrder();
    var b := Bucket(Hash(t), |roots|);
    assert ValidRoot(roots[b], b, |roots|);
    FindIsLookup(roots[b], KeyOf(t), NodeCmp, Rank);
  }

  lemma LocateHeld(roots: seq<Root>, t: Tuple)
    requires Valid(roots)
    ensures Locate(roots, t) ==
            if Holds(roots, t) then Known(KeyOf(t), FlowAt(roots, t), true)
            else if Holds(roots, Mirror(t)) then Known(KeyOf(Mirror(t)), FlowAt(roots, Mirror(t)), false)
            else Unknown
  {
    HashIsSymmetric(t);
    FindHeld(roots, t);
    FindHeld(roots, Mirror(t));
  }

  // The two-step search is a lookup by conversation; the direction flag tells
  // whether the packet travels like the first packet of its flow.
  lemma LocateIsLookup(roots: seq<Root>, t: Tuple)
    requires Valid(roots)
    ensures match Locate(roots, t)
            case Known(k, f, forward) =>
              && ConversationOf(t) in Flows(roots) && f == Flows(roots)[ConversationOf(t)]
              && k == KeyOf(f.first) && (forward <==> t == f.first)
            case Unknown => ConversationOf(t) !in Flows(roots)
  {
    LocateHeld(roots, t);
    SameConversation(t, Mirror(t));
    if Holds(roots, t) { HeldInFlows(roots, t); }
    if Holds(roots, Mirror(t)) { HeldInFlows(roots, Mirror(t)); }
    if ConversationOf(t) in Flows(roots) {
      FlowsAreHeld(roots, ConversationOf(t));
      SameConversation(t, Flows(roots)[ConversationOf(t)].first);
    }
  }

  // Either direction of a conversation finds the same flow.
  lemma LookupIsSymmetric(roots: seq<Root>, t: Tuple)
    requires Valid(roots)
    ensures var l, m := Locate(roots, t), Locate(roots, Mirror(t));
            && l.Known? == m.Known?
            && (l.Known? ==> l.key == m.key && l.flow == m.flow && (t != Mirror(t) ==> l.forward == !m.forward))
  {
    LocateIsLookup(roots, t);
    LocateIsLookup(roots, Mirror(t));
    SameConversation(t, Mirror(t));
    var l := Locate(roots, t);
    if l.Known? { SameConversation(t, l.flow.first); }
  }

  lemma MirrorFreeGrows(keys: set<FlowKey>, t: Tuple)
    requires MirrorFree(keys) && KeyOf(Mirror(t)) !in keys
    requires forall k :: k in keys ==> k == KeyOf(TupleOf(k))
    ensures MirrorFree(keys + {KeyOf(t)})
  {
    var key := KeyOf(t);
    assert TupleOf(key) == t && MirrorKey(key) == KeyOf(Mirror(t));
    forall k | k in keys ensures MirrorKey(MirrorKey(k)) == k {
      assert TupleOf(MirrorKey(k)) == Mirror(TupleOf(k));
    }
  }

  lemma PutKeepsRoot(root: Root, i: nat, n: nat, f: Flow)
    requires n > 0 && ValidRoot(root, i, n) && Bucket(Hash(f.first), n) == i
    requires KeyOf(f.first) in Contents(root) || KeyOf(Mirror(f.first)) !in Contents(root)
    ensures var r := Put(root, KeyOf(f.first), f, NodeCmp);
            ValidRoot(r, i, n) && Contents(r) == Contents(root)[KeyOf(f.first) := f]
  {
    var key := KeyOf(f.first);
    NodeCmpIsOrder();
    PutIsUpdate(root, key, f, NodeCmp, Rank);
    MirrorFreeUpdates(root, i, n, f);
    EntriesAfterPut(Contents(root), Contents(Put(root, key, f, NodeCmp)), key, i, n, f);
  }

  lemma EntriesAfterPut(m: map<FlowKey, Flow>, r: map<FlowKey, Flow>, key: FlowKey, i: nat, n: nat, f: Flow)
    requires n > 0 && ValidEntry(key, f, i, n) && (forall k :: k in m ==> ValidEntry(k, m[k], i, n)) && r == m[key := f]
    ensures forall k :: k in r ==> ValidEntry(k, r[k], i, n)
  {
  }

  lemma MirrorFreeUpdates(root: Root, i: nat, n: nat, f: Flow)
    requires n > 0 && ValidRoot(root, i, n)
    requires KeyOf(f.first) in Contents(root) || KeyOf(Mirror(f.first)) !in Contents(root)
    ensures MirrorFree(Contents(root)[KeyOf(f.first) := f].Keys)
  {
    var key, keys := KeyOf(f.first), Contents(root).Keys;
    assert Contents(root)[key := f].Keys == keys + {key};
    if key in keys {
      assert keys + {key} == keys;
    } else {
      forall k | k in keys ensures k == KeyOf(TupleOf(k)) {
        assert ValidEntry(k, Contents(root)[k], i, n);
      }
      MirrorFreeGrows(keys, f.first);
    }
  }

  lemma HeldAfterStore(roots: seq<Root>, f: Flow, u: Tuple)
    requires |roots| > 0
    requires var b := Bucket(Hash(f.first), |roots|);
             Contents(Put(roots[b], KeyOf(f.first), f, NodeCmp)) == Contents(roots[b])[KeyOf(f.first) := f]
    ensures var r := Store(roots, KeyOf(f.first), f);
            && (Holds(r, u) <==> u == f.first || Holds(roots, u))
            && (Holds(r, u) ==> FlowAt(r, u) == if u == f.first then f else FlowAt(roots, u))
  {
    assert TupleOf(KeyOf(u)) == u && TupleOf(KeyOf(f.first)) == f.first;
  }

  lemma StoreKeepsValid(roots: seq<Root>, f: Flow)
    requires Valid(roots)
    requires Holds(roots, f.first) || ConversationOf(f.first) !in Flows(roots)
    ensures Valid(Store(roots, KeyOf(f.first), f))
    ensures var b := Bucket(Hash(f.first), |roots|);
            Contents(Put(roots[b], KeyOf(f.first), f, NodeCmp)) == Contents(roots[b])[KeyOf(f.first) := f]
  {
    var t := f.first;
    var b := Bucket(Hash(t), |roots|);
    assert KeyOf(t) in Contents(roots[b]) || KeyOf(Mirror(t)) !in Contents(roots[b]) by {
      SameConversation(t, Mirror(t));
      HashIsSymmetric(t);
      if Holds(roots, Mirror(t)) { HeldInFlows(roots, Mirror(t)); }
    }
    PutKeepsRoot(roots[b], b, |roots|, f);
  }

  lemma ConversationAfterStore(roots: seq<Root>, f: Flow, c: Conversation)
    requires Valid(roots) && (Holds(roots, f.first) || ConversationOf(f.first) !in Flows(roots))
    requires Valid(Store(roots, KeyOf(f.first), f))
    ensures var m := Flows(Store(roots, KeyOf(f.first), f));
            && (c in m <==> c == ConversationOf(f.first) || c in Flows(roots))
            && (c in m ==> m[c] == if c == ConversationOf(f.first) then f else Flows(roots)[c])
  {
    var r := Store(roots, KeyOf(f.first), f);
    StoreKeepsValid(roots, f);
    HeldAfterStore(roots, f, f.first);
    HeldInFlows(r, f.first);
    if c in Flows(r) {
      var t := Flows(r)[c].first;
      FlowsAreHeld(r, c);
      HeldAfterStore(roots, f, t);
      if t != f.first { HeldInFlows(roots, t); }
    }
    if c in Flows(roots) {
      var t := Flows(roots)[c].first;
      FlowsAreHeld(roots, c);
      HeldAfterStore(roots, f, t);
      HeldInFlows(r, t);
    }
  }

  // Storing a record is an update of the map it refines.
  lemma StoreIsUpdate(roots: seq<Root>, f: Flow)
    requires Valid(roots)
    requires Holds(roots, f.first) || ConversationOf(f.first) !in Flows(roots)
    ensures var r := Store(roots, KeyOf(f.first), f);
            && |r| == |roots| && Valid(r)
            && Flows(r) == Flows(roots)[ConversationOf(f.first) := f]
  {
    StoreKeepsValid(roots, f);
    StoreUpdatesFlows(roots, f);
  }

  lemma StoreUpdatesFlows(roots: seq<Root>, f: Flow)
    requires Valid(roots) && (Holds(roots, f.first) || ConversationOf(f.first) !in Flows(roots))
    requires Valid(Store(roots, KeyOf(f.first), f))
    ensures Flows(Store(roots, KeyOf(f.first), f)) == Flows(roots)[ConversationOf(f.first) := f]
  {
    var m, w := Flows(roots), Flows(Store(roots, KeyOf(f.first), f));
    forall c
      ensures c in w <==> c == ConversationOf(f.first) || c in m
      ensures c in w ==> w[c] == if c == ConversationOf(f.first) then f else m[c]
    {
      ConversationAfterStore(roots, f, c);
    }
    UpdatedMap(m, w, ConversationOf(f.first), f);
  }

  lemma UpdatedMap<K, V>(m: map<K, V>, w: map<K, V>, k: K, v: V)
    requires forall c :: c in w <==> c == k || c in m
    requires forall c :: c in w ==> w[c] == if c == k then v else m[c]
    ensures w == m[k := v]
  {
  }

  lemma ShrinkKeepsRoot(root: Root, small: Root, i: nat, n: nat, removed: set<FlowKey>)
    requires n > 0 && ValidRoot(root, i, n) && Sorted(small, Rank) && Contents(small) == Contents(root) - removed
    ensures ValidRoot(small, i, n)
  {
    forall k | k in Contents(small) ensures ValidEntry(k, Contents(small)[k], i, n) {
      assert ValidEntry(k, Contents(root)[k], i, n);
    }
  }

  lemma ConversationAfterShrink(roots: seq<Root>, i: nat, small: Root, removed: set<FlowKey>, c: Conversation)
    requires Valid(roots) && i < |roots| && Valid(roots[i := small])
    requires Contents(small) == Contents(roots[i]) - removed && removed <= Contents(roots[i]).Keys
    ensures var m, w := Flows(roots), Flows(roots[i := small]);
            && (c in w <==> c in m && KeyOf(m[c].first) !in removed)
            && (c in w ==> w[c] == m[c])
  {
    var r := roots[i := small];
    if c in Flows(r) {
      var t := Flows(r)[c].first;
      FlowsAreHeld(r, c);
      HeldAfterShrink(roots, i, small, removed, t);
      HeldInFlows(roots, t);
    }
    if c in Flows(roots) {
      var t := Flows(roots)[c].first;
      FlowsAreHeld(roots, c);
      HeldAfterShrink(roots, i, small, removed, t);
      if KeyOf(t) !in removed { HeldInFlows(r, t); }
    }
  }

  lemma HeldAfterShrink(roots: seq<Root>, i: nat, small: Root, removed: set<FlowKey>, u: Tuple)
    requires Valid(roots) && i < |roots|
    requires Contents(small) == Contents(roots[i]) - removed && removed <= Contents(roots[i]).Keys
    ensures var r := roots[i := small];
            && (Holds(r, u) <==> Holds(roots, u) && KeyOf(u) !in removed)
            && (Holds(r, u) ==> FlowAt(r, u) == FlowAt(roots, u))
  {
    if KeyOf(u) in removed {
      assert ValidRoot(roots[i], i, |roots|);
      assert ValidEntry(KeyOf(u), Contents(roots[i])[KeyOf(u)], i, |roots|);
    }
  }

  // Deleting keys from one root deletes their conversations and nothing else.
  lemma ShrinkIsRemoval(roots: seq<Root>, i: nat, small: Root, removed: set<FlowKey>)
    requires Valid(roots) && i < |roots| && Sorted(small, Rank)
    requires Contents(small) == Contents(roots[i]) - removed && removed <= Contents(roots[i]).Keys
    ensures var r := roots[i := small];
            && Valid(r)
            && (forall c :: c in Flows(r) <==> c in Flows(roots) && KeyOf(Flows(roots)[c].first) !in removed)
            && (forall c :: c in Flows(r) ==> Flows(r)[c] == Flows(roots)[c])
  {
    ShrinkKeepsRoot(roots[i], small, i, |roots|, removed);
    var m, w := Flows(roots), Flows(roots[i := small]);
    forall c
      ensures c in w <==> c in m && KeyOf(m[c].first) !in removed
      ensures c in w ==> w[c] == m[c]
    {
      ConversationAfterShrink(roots, i, small, removed, c);
    }
  }
}
