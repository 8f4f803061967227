/** The fixed-size table of the busiest addresses of a port. */
module TopAddresses {
  import opened Octets

  // An unused slot is all zero, so address 0 also matches one.
  datatype Slot = Slot(addr: U32, version: byte, count: nat)

  const EMPTY := Slot(0, 0, 0)

  // The first slot that holds the address or is unused.
  function FirstFit(top: seq<Slot>, addr: U32, from: nat): (i: nat)
    requires from <= |top|
    ensures from <= i <= |top|
    ensures forall j | from <= j < i :: top[j].addr != addr && top[j].count != 0
    ensures i < |top| ==> top[i].addr == addr || top[i].count == 0
    decreases |top| - from
  {
    if from == |top| || top[from].addr == addr || top[from].count == 0 then from
    else FirstFit(top, addr, from + 1)
  }

  // The first of the smallest counts among the first k slots.
  function Weakest(top: seq<Slot>, k: nat): (i: nat)
    requires 0 < k <= |top|
    ensures i < k
    ensures forall j | 0 <= j < k :: top[i].count <= top[j].count
    ensures forall j | 0 <= j < i :: top[i].count < top[j].count
  {
    if k == 1 then 0
    else
      var i := Weakest(top, k - 1);
      if top[k - 1].count < top[i].count then k - 1 else i
  }

  // updateTopIpAddress.
  function UpdateTop(top: seq<Slot>, pair: Slot): (r: seq<Slot>)
    ensures |r| == |top|
  {
    if pair.count == 0 then top
    else
      var i := FirstFit(top, pair.addr, 0);
      if i < |top| then
        if top[i].addr == pair.addr then top[i := top[i].(count := pair.count)] else top[i := pair]
      else if |top| == 0 then top
      else
        var w := Weakest(top, |top|);
        if top[w].count < pair.count then top[w := pair] else top
  }

  method UpdateTopIpAddress(pair: Slot, top: array<Slot>)
    modifies top
    ensures top[..] == UpdateTop(old(top[..]), pair)
  {
    if pair.count == 0 { return; }
    var i := 0;
    while i < top.Length
      invariant 0 <= i <= top.Length
      invariant top[..] == old(top[..])
      invariant FirstFit(top[..], pair.addr, 0) == FirstFit(top[..], pair.addr, i)
    {
      if top[i].addr == pair.addr {
        top[i] := top[i].(count := pair.count);
        return;
      }
      if top[i].count == 0 {
        top[i] := pair;
        return;
      }
      i := i + 1;
    }
    var min, minI, update := pair.count, 0, false;
    i := 0;
    while i < top.Length
      invariant 0 <= i <= top.Length
      invariant !update ==> min == pair.count && forall j | 0 <= j < i :: pair.count <= top[j].count
      invariant update ==> i > 0 && minI == Weakest(top[..], i) && min == top[minI].count < pair.count
    {
      if top[i].count < pair.count && top[i].count < min {
        min, minI, update := top[i].count, i, true;
      }
      i := i + 1;
    }
    if update {
      top[minI] := pair;
    }
  }

  ghost predicate Stored(top: seq<Slot>, k: nat, addr: U32)
    requires k <= |top|
  {
    exists i :: 0 <= i < k && top[i].addr == addr
  }

  // The first k slots are used, one per address, with exact counts.
  ghost predicate Exact(top: seq<Slot>, k: nat, counts: U32 -> nat) {
    && k <= |top|
    && (forall i | 0 <= i < k :: top[i].count == counts(top[i].addr) > 0)
    && (forall i, j | 0 <= i < j < k :: top[i].addr != top[j].addr)
    && (forall i | k <= i < |top| :: top[i] == EMPTY)
  }

  // An address without a slot: never seen while slots are free, and no busier than any slot.
  ghost predicate Below(top: seq<Slot>, k: nat, count: nat)
    requires k <= |top|
  {
    if k < |top| then count == 0 else forall i | 0 <= i < k :: count <= top[i].count
  }

  ghost predicate IsTop(top: seq<Slot>, k: nat, counts: U32 -> nat) {
    Exact(top, k, counts) && forall a :: Stored(top, k, a) || Below(top, k, counts(a))
  }

  // One more update of an address.
  ghost predicate Counted(counts: U32 -> nat, counts': U32 -> nat, pair: Slot) {
    && pair.count == counts'(pair.addr) == counts(pair.addr) + 1
    && forall a | a != pair.addr :: counts'(a) == counts(a)
  }

  lemma StoredUpdates(top: seq<Slot>, k: nat, counts: U32 -> nat, counts': U32 -> nat, pair: Slot, a: U32)
    requires Exact(top, k, counts) && Counted(counts, counts', pair)
    requires Stored(top, k, pair.addr) && (Stored(top, k, a) || Below(top, k, counts(a)))
    ensures var r := UpdateTop(top, pair);
            Exact(r, k, counts') && (Stored(r, k, a) || Below(r, k, counts'(a)))
  {
    var s :| 0 <= s < k && top[s].addr == pair.addr;
    assert FirstFit(top, pair.addr, 0) == s;
    var r := UpdateTop(top, pair);
    if Stored(top, k, a) {
      var j :| 0 <= j < k && top[j].addr == a;
      assert r[j].addr == a;
    }
  }

  lemma FreshFills(top: seq<Slot>, k: nat, counts: U32 -> nat, counts': U32 -> nat, pair: Slot, a: U32)
    requires Exact(top, k, counts) && Counted(counts, counts', pair)
    requires !Stored(top, k, pair.addr) && k < |top| && (Stored(top, k, a) || counts(a) == 0)
    ensures var r := UpdateTop(top, pair);
            Exact(r, k + 1, counts') && (Stored(r, k + 1, a) || Below(r, k + 1, counts'(a)))
  {
    assert top[k] == EMPTY;
    assert FirstFit(top, pair.addr, 0) == k;
    var r := UpdateTop(top, pair);
    assert r[k].addr == pair.addr && r[k].count == pair.count;
    if Stored(top, k, a) {
      var j :| 0 <= j < k && top[j].addr == a;
      assert r[j].addr == a;
    }
  }

  lemma FullReplaces(top: seq<Slot>, counts: U32 -> nat, counts': U32 -> nat, pair: Slot, a: U32)
    requires var n := |top|;
             && Exact(top, n, counts) && Counted(counts, counts', pair)
             && !Stored(top, n, pair.addr) && Below(top, n, counts(pair.addr))
             && (Stored(top, n, a) || Below(top, n, counts(a)))
    ensures var n, r := |top|, UpdateTop(top, pair);
            Exact(r, n, counts') && (Stored(r, n, a) || Below(r, n, counts'(a)))
  {
    var r, n := UpdateTop(top, pair), |top|;
    assert FirstFit(top, pair.addr, 0) == n;
    if n > 0 {
      var w := Weakest(top, n);
      assert forall i | 0 <= i < n :: r[i].count >= top[w].count;
      if r == top {
        assert counts'(pair.addr) <= top[w].count;
      } else {
        assert r == top[w := pair] && r[w].addr == pair.addr;
        if Stored(top, n, a) && a != top[w].addr {
          var j :| 0 <= j < n && top[j].addr == a;
          assert r[j].addr == a;
        }
      }
    }
  }

  lemma UpdateKeepsTop(top: seq<Slot>, k: nat, counts: U32 -> nat, counts': U32 -> nat, pair: Slot) returns (k': nat)
    requires IsTop(top, k, counts) && Counted(counts, counts', pair)
    ensures IsTop(UpdateTop(top, pair), k', counts')
  {
    k' := if Stored(top, k, pair.addr) || k == |top| then k else k + 1;
    var r := UpdateTop(top, pair);
    forall a ensures Exact(r, k', counts') && (Stored(r, k', a) || Below(r, k', counts'(a))) {
      if Stored(top, k, pair.addr) { StoredUpdates(top, k, counts, counts', pair, a); }
      else if k < |top| { FreshFills(top, k, counts, counts', pair, a); }
      else { FullReplaces(top, counts, counts', pair, a); }
    }
    assert Stored(r, k', 0) || Below(r, k', counts'(0));
  }
}
