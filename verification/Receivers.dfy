/** The two tables of top receivers: a working table that is cut back and merged into a
    table of the largest ones. A hash table is the sequence of its entries in iteration order. */
module Receivers {
  import opened Octets

  datatype Receiver = Receiver(addr: U32, version: byte, numPkts: U32)

  type Table = seq<Receiver>

  datatype State = State(current: Table, top: Table)

  // MAX_TABLE_SIZE_1 and MAX_TABLE_SIZE_2 (4096 and 8192).
  datatype Sizes = Sizes(one: nat, two: nat)

  const HALF: int := 0x8000_0000
  const WORD: int := 0x1_0000_0000

  predicate Acceptable(numPkts: U32) { numPkts > 5 }

  // ---------------------------------------------------------------- table operations

  // HASH_FIND_INT: where the address is, or the table's length.
  function IndexOf(t: Table, addr: U32): (i: nat)
    ensures i <= |t| && (forall j | 0 <= j < i :: t[j].addr != addr) && (i < |t| ==> t[i].addr == addr)
  {
    if t == [] || t[0].addr == addr then 0 else 1 + IndexOf(t[1..], addr)
  }

  // An entry found grows, with the wrap-around of its 32-bit counter; another is added at the end.
  function Add(t: Table, r: Receiver): (t': Table) {
    var i := IndexOf(t, r.addr);
    if i < |t| then t[i := t[i].(numPkts := Trunc32(t[i].numPkts + r.numPkts))] else t + [r]
  }

  // The unsigned difference of two counters, returned as a signed int.
  function CompareAsc(a: Receiver, b: Receiver): (d: int) {
    var d: int := Trunc32(a.numPkts - b.numPkts);
    if d < HALF then d else d - WORD
  }

  function Insert(r: Receiver, t: Table): (t': Table) {
    if t == [] || CompareAsc(r, t[0]) <= 0 then [r] + t else [t[0]] + Insert(r, t[1..])
  }

  // HASH_SORT: a stable sort by the comparison.
  function Sort(t: Table): (t': Table) {
    if t == [] then [] else Insert(t[0], Sort(t[1..]))
  }

  function CutOff(t: Table, max: nat): (gone: Table) { if |t| < max then [] else t[..|t| - max] }

  function CutBack(t: Table, max: nat): (kept: Table) { if |t| < max then t else t[|t| - max..] }

  function Merge(primary: Table, secondary: Table): (t: Table) {
    if primary == [] then secondary else Merge(primary[1..], Add(secondary, primary[0]))
  }

  // ---------------------------------------------------------------- one update

  // The working table spills into the top table; what either cut removes is lost.
  function Spilled(top: Table, full: Table, sizes: Sizes): (t: Table) {
    var merged := Merge(CutBack(Sort(full), sizes.one), top);
    if |merged| > sizes.one then CutBack(Sort(merged), sizes.one) else merged
  }

  function Spilt(top: Table, full: Table, sizes: Sizes): (gone: Table) {
    var merged := Merge(CutBack(Sort(full), sizes.one), top);
    CutOff(Sort(full), sizes.one) + if |merged| > sizes.one then CutOff(Sort(merged), sizes.one) else []
  }

  predicate Admits(s: State, r: Receiver, sizes: Sizes) { |s.current| < sizes.one || Acceptable(r.numPkts) }

  predicate Known(t: Table, addr: U32) { IndexOf(t, addr) < |t| }

  // updateReceivers.
  function Step(s: State, r: Receiver, sizes: Sizes): (s': State) {
    if Known(s.current, r.addr) then State(Add(s.current, r), s.top)
    else if !Admits(s, r, sizes) then s
    else if |s.current| + 1 <= sizes.two then State(s.current + [r], s.top)
    else State([], Spilled(s.top, s.current + [r], sizes))
  }

  // What one update drops: a new address not admitted, or the ends cut off.
  function Lost(s: State, r: Receiver, sizes: Sizes): (gone: Table) {
    if Known(s.current, r.addr) then []
    else if !Admits(s, r, sizes) then [r]
    else if |s.current| + 1 <= sizes.two then []
    else Spilt(s.top, s.current + [r], sizes)
  }

  function Run(feed: seq<Receiver>, sizes: Sizes): (s: State) {
    if feed == [] then State([], []) else Step(Run(feed[..|feed| - 1], sizes), feed[|feed| - 1], sizes)
  }

  function Dropped(feed: seq<Receiver>, sizes: Sizes): (gone: Table) {
    if feed == [] then []
    else
      var past, r := feed[..|feed| - 1], feed[|feed| - 1];
      Dropped(past, sizes) + Lost(Run(past, sizes), r, sizes)
  }

  // ---------------------------------------------------------------- weights

  function Sum(t: Table, w: Receiver -> nat): (n: nat) {
    if t == [] then 0 else w(t[0]) + Sum(t[1..], w)
  }

  // The packets of an address in a table, and its entries there.
  function PktsOf(a: U32): (w: Receiver -> nat) { (r: Receiver) => if r.addr == a then r.numPkts else 0 }
  function EntriesOf(a: U32): (w: Receiver -> nat) { (r: Receiver) => if r.addr == a then 1 else 0 }

  ghost predicate Distinct(t: Table) { forall a :: Sum(t, EntriesOf(a)) <= 1 }

  // All counts of a table lie between two bounds.
  ghost predicate Ranges(t: Table, lo: nat, hi: nat) { forall i | 0 <= i < |t| :: lo <= t[i].numPkts <= hi }

  ghost predicate Ascending(t: Table) { forall i, j | 0 <= i < j < |t| :: t[i].numPkts <= t[j].numPkts }

  lemma {:induction false} SumAppends(s: Table, t: Table, w: Receiver -> nat)
    ensures Sum(s + t, w) == Sum(s, w) + Sum(t, w)
  {
    if s == [] {
      assert s + t == t;
    } else {
      SumAppends(s[1..], t, w);
      assert (s + t)[1..] == s[1..] + t;
    }
  }

  lemma {:induction false} SumUpdates(t: Table, i: nat, r: Receiver, w: Receiver -> nat)
    requires i < |t|
    ensures Sum(t[i := r], w) + w(t[i]) == Sum(t, w) + w(r)
  {
    if i == 0 {
      assert t[0 := r][1..] == t[1..];
    } else {
      SumUpdates(t[1..], i - 1, r, w);
      assert t[i := r][1..] == t[1..][i - 1 := r];
    }
  }

  lemma {:induction false} SumAbsent(t: Table, a: U32)
    requires forall j | 0 <= j < |t| :: t[j].addr != a
    ensures Sum(t, EntriesOf(a)) == Sum(t, PktsOf(a)) == 0
  {
    if t != [] { SumAbsent(t[1..], a); }
  }

  // An entry holds at most its address's packets, and all of them when it is the only one.
  lemma {:induction false} EntryWithinSum(t: Table, i: nat)
    requires i < |t|
    ensures t[i].numPkts <= Sum(t, PktsOf(t[i].addr))
    ensures 1 <= Sum(t, EntriesOf(t[i].addr))
  {
    if i > 0 { EntryWithinSum(t[1..], i - 1); }
  }

  lemma CutSums(t: Table, max: nat, w: Receiver -> nat)
    ensures Sum(CutOff(t, max), w) + Sum(CutBack(t, max), w) == Sum(t, w)
  {
    if |t| >= max {
      SumAppends(CutOff(t, max), CutBack(t, max), w);
      assert CutOff(t, max) + CutBack(t, max) == t;
    }
  }

  // ---------------------------------------------------------------- sorting

  lemma {:induction false} InsertSums(r: Receiver, t: Table, w: Receiver -> nat)
    ensures Sum(Insert(r, t), w) == w(r) + Sum(t, w) && |Insert(r, t)| == |t| + 1
  {
    if t != [] && CompareAsc(r, t[0]) > 0 { InsertSums(r, t[1..], w); }
  }

  // The signed difference orders two counters both ways exactly when they differ by less than 2^31.
  lemma CompareIsRightIff(a: Receiver, b: Receiver)
    ensures (&& (CompareAsc(a, b) <= 0 <==> a.numPkts <= b.numPkts)
             && (CompareAsc(b, a) <= 0 <==> b.numPkts <= a.numPkts))
            <==> -HALF < a.numPkts - b.numPkts < HALF
  {
  }

  lemma {:induction false} InsertRanges(r: Receiver, t: Table, lo: nat, hi: nat)
    requires lo <= r.numPkts <= hi && Ranges(t, lo, hi)
    ensures Ranges(Insert(r, t), lo, hi)
  {
    if t != [] && CompareAsc(r, t[0]) > 0 { InsertRanges(r, t[1..], lo, hi); }
  }

  lemma {:induction false} InsertSorts(r: Receiver, t: Table, lo: nat, hi: nat)
    requires lo <= r.numPkts <= hi < lo + HALF && Ranges(t, lo, hi) && Ascending(t)
    ensures Ascending(Insert(r, t))
    ensures Insert(r, t)[0] == r || (t != [] && Insert(r, t)[0] == t[0])
  {
    if t != [] && CompareAsc(r, t[0]) > 0 { InsertSorts(r, t[1..], lo, hi); }
  }

  lemma {:induction false} SortSums(t: Table, w: Receiver -> nat)
    ensures Sum(Sort(t), w) == Sum(t, w) && |Sort(t)| == |t|
  {
    if t != [] {
      SortSums(t[1..], w);
      InsertSums(t[0], Sort(t[1..]), w);
    }
  }

  lemma {:induction false} SortRanges(t: Table, lo: nat, hi: nat)
    requires Ranges(t, lo, hi)
    ensures Ranges(Sort(t), lo, hi)
  {
    if t != [] {
      SortRanges(t[1..], lo, hi);
      InsertRanges(t[0], Sort(t[1..]), lo, hi);
    }
  }

  lemma {:induction false} SortSorts(t: Table, lo: nat, hi: nat)
    requires Ranges(t, lo, hi) && hi < lo + HALF
    ensures Ascending(Sort(t))
  {
    if t != [] {
      SortSorts(t[1..], lo, hi);
      SortRanges(t[1..], lo, hi);
      InsertSorts(t[0], Sort(t[1..]), lo, hi);
    }
  }

  ghost predicate Separated(gone: Table, kept: Table) {
    forall d, k | d in gone && k in kept :: d.numPkts <= k.numPkts
  }

  // A cut of a sorted table drops the smallest entries.
  ghost predicate CutRight(t: Table, max: nat) { Separated(CutOff(Sort(t), max), CutBack(Sort(t), max)) }

  lemma CutSeparates(t: Table, max: nat, lo: nat, hi: nat)
    requires Ranges(t, lo, hi) && hi < lo + HALF
    ensures CutRight(t, max)
  {
    SortSorts(t, lo, hi);
  }

  // An entry 2^31 or more above the smallest is sorted in front of it, and so in front of all,
  // and goes first.
  lemma LargestGoesFirst(large: Receiver, t: Table, lo: nat, mid: nat, max: nat)
    requires large.numPkts >= lo + HALF && lo <= mid < lo + HALF && mid < large.numPkts && 1 <= max <= |t|
    requires t[0].numPkts == lo && Ranges(t[1..], mid, mid)
    ensures !CutRight([large] + t, max)
  {
    SmallestFirst(t, lo, mid);
    FarAbove(large, t[0], lo);
    assert ([large] + t)[1..] == t;
    assert Sort([large] + t) == Insert(large, Sort(t)) == [large] + Sort(t);
    FrontIsCut(large, Sort(t), max);
  }

  lemma FarAbove(large: Receiver, small: Receiver, lo: nat)
    requires small.numPkts == lo && large.numPkts >= lo + HALF
    ensures CompareAsc(large, small) <= 0
  {
  }

  lemma SmallestFirst(t: Table, lo: nat, mid: nat)
    requires t != [] && t[0].numPkts == lo <= mid < lo + HALF && Ranges(t[1..], mid, mid)
    ensures Sort(t) != [] && Sort(t)[0] == t[0] && |Sort(t)| == |t| && Ranges(Sort(t), lo, mid)
  {
    var rest := Sort(t[1..]);
    SortSums(t, PktsOf(0));
    SortRanges(t[1..], mid, mid);
    assert Sort(t) == Insert(t[0], rest);
    if rest != [] { Below(t[0], rest[0]); }
    assert Sort(t) == [t[0]] + rest;
  }

  lemma Below(a: Receiver, b: Receiver)
    requires a.numPkts <= b.numPkts < a.numPkts + HALF
    ensures CompareAsc(a, b) <= 0
  {
  }

  lemma FrontIsCut(large: Receiver, t: Table, max: nat)
    requires 1 <= max <= |t| && forall i | 0 <= i < |t| :: t[i].numPkts < large.numPkts
    ensures !Separated(CutOff([large] + t, max), CutBack([large] + t, max))
  {
    var gone, kept := CutOff([large] + t, max), CutBack([large] + t, max);
    assert gone[0] == large && kept[0] == t[|t| - max];
    assert large in gone && kept[0] in kept;
  }

  // All tables with counts from lo to hi are cut rightly if and only if hi - lo is below 2^31.
  lemma TablesCutRightIff(lo: nat, hi: nat)
    requires lo <= hi < WORD
    ensures (forall t, max | Ranges(t, lo, hi) :: CutRight(t, max)) <==> hi - lo < HALF
  {
    if hi - lo < HALF {
      forall t, max | Ranges(t, lo, hi) ensures CutRight(t, max) { CutSeparates(t, max, lo, hi); }
    } else {
      var large, small := Receiver(0, 4, hi), Receiver(1, 4, lo);
      LargestGoesFirst(large, [small], lo, lo, 1);
      assert Ranges([large] + [small], lo, hi);
    }
  }

  // ---------------------------------------------------------------- adding and merging

  lemma AddCounts(t: Table, r: Receiver, a: U32)
    requires Distinct(t)
    ensures Sum(Add(t, r), EntriesOf(a)) <= 1
  {
    var i := IndexOf(t, r.addr);
    assert Sum(t, EntriesOf(a)) <= 1;
    if i < |t| {
      SumUpdates(t, i, Add(t, r)[i], EntriesOf(a));
    } else {
      SumAppends(t, [r], EntriesOf(a));
      SumAbsent(t, r.addr);
    }
  }

  // Books that balance, or, where a 32-bit counter may have wrapped, do not show too much.
  predicate Books(exact: bool, got: nat, due: nat) { if exact then got == due else got <= due }

  lemma AddSums(t: Table, r: Receiver, a: U32, exact: bool)
    requires Distinct(t) && (exact ==> Sum(t, PktsOf(r.addr)) + r.numPkts < WORD)
    ensures Books(exact, Sum(Add(t, r), PktsOf(a)), Sum(t, PktsOf(a)) + PktsOf(a)(r))
    ensures Sum(Add(t, r), EntriesOf(a)) <= 1
  {
    AddCounts(t, r, a);
    var i := IndexOf(t, r.addr);
    if i < |t| {
      EntryWithinSum(t, i);
      var r' := t[i].(numPkts := Trunc32(t[i].numPkts + r.numPkts));
      assert Add(t, r) == t[i := r'];
      SumUpdates(t, i, r', PktsOf(a));
      assert r'.numPkts <= t[i].numPkts + r.numPkts;
    } else {
      SumAppends(t, [r], PktsOf(a));
    }
  }

  ghost predicate Fit(exact: bool, s: Table, t: Table) {
    exact ==> forall a :: Sum(s, PktsOf(a)) + Sum(t, PktsOf(a)) < WORD
  }

  lemma {:induction false} MergeSums(primary: Table, secondary: Table, exact: bool)
    requires Distinct(secondary) && Fit(exact, primary, secondary)
    ensures Distinct(Merge(primary, secondary))
    ensures forall a ::
      Books(exact, Sum(Merge(primary, secondary), PktsOf(a)), Sum(primary, PktsOf(a)) + Sum(secondary, PktsOf(a)))
    decreases |primary|
  {
    if primary != [] {
      var r := primary[0];
      if exact { assert Sum(primary, PktsOf(r.addr)) + Sum(secondary, PktsOf(r.addr)) < WORD; }
      forall a
        ensures Sum(Add(secondary, r), EntriesOf(a)) <= 1
        ensures Books(exact, Sum(primary[1..], PktsOf(a)) + Sum(Add(secondary, r), PktsOf(a)),
                      Sum(primary, PktsOf(a)) + Sum(secondary, PktsOf(a)))
      {
        AddSums(secondary, r, a, exact);
      }
      MergeSums(primary[1..], Add(secondary, r), exact);
    }
  }

  // ---------------------------------------------------------------- one update keeps the account

  // Sorting and cutting a table splits its packets and entries.
  lemma CutSorted(t: Table, max: nat, a: U32)
    ensures Sum(CutOff(Sort(t), max), PktsOf(a)) + Sum(CutBack(Sort(t), max), PktsOf(a)) == Sum(t, PktsOf(a))
    ensures Distinct(t) ==> Sum(CutBack(Sort(t), max), EntriesOf(a)) <= 1
    ensures |CutBack(Sort(t), max)| <= max
  {
    SortSums(t, PktsOf(a));
    SortSums(t, EntriesOf(a));
    CutSums(Sort(t), max, PktsOf(a));
    CutSums(Sort(t), max, EntriesOf(a));
  }

  lemma SpillAccounts(top: Table, full: Table, sizes: Sizes, exact: bool)
    requires Distinct(top) && Distinct(full) && Fit(exact, full, top)
    ensures Distinct(Spilled(top, full, sizes)) && |Spilled(top, full, sizes)| <= sizes.one
    ensures forall a ::
      Books(exact, Sum(Spilled(top, full, sizes), PktsOf(a)) + Sum(Spilt(top, full, sizes), PktsOf(a)),
            Sum(full, PktsOf(a)) + Sum(top, PktsOf(a)))
  {
    var kept := CutBack(Sort(full), sizes.one);
    if exact {
      forall a ensures Sum(kept, PktsOf(a)) + Sum(top, PktsOf(a)) < WORD { CutSorted(full, sizes.one, a); }
    }
    MergeSums(kept, top, exact);
    var merged := Merge(kept, top);
    var gone := if |merged| > sizes.one then CutOff(Sort(merged), sizes.one) else [];
    forall a
      ensures Sum(Spilled(top, full, sizes), EntriesOf(a)) <= 1
      ensures Books(exact, Sum(Spilled(top, full, sizes), PktsOf(a)) + Sum(Spilt(top, full, sizes), PktsOf(a)),
                    Sum(full, PktsOf(a)) + Sum(top, PktsOf(a)))
    {
      CutSorted(full, sizes.one, a);
      CutSorted(merged, sizes.one, a);
      SumAppends(CutOff(Sort(full), sizes.one), gone, PktsOf(a));
    }
  }

  ghost predicate Inv(s: State, sizes: Sizes) {
    |s.current| <= sizes.two && |s.top| <= sizes.one && Distinct(s.current) && Distinct(s.top)
  }

  function Held(s: State, a: U32): (n: nat) { Sum(s.current, PktsOf(a)) + Sum(s.top, PktsOf(a)) }

  predicate Spills(s: State, r: Receiver, sizes: Sizes) {
    !Known(s.current, r.addr) && Admits(s, r, sizes) && |s.current| + 1 > sizes.two
  }

  lemma SumOne(r: Receiver, w: Receiver -> nat)
    ensures Sum([r], w) == w(r)
  {
    assert [r][1..] == [];
  }

  // A known address grows, a new one is appended.
  lemma CurrentGrows(t: Table, r: Receiver, exact: bool)
    requires Distinct(t) && (exact ==> Sum(t, PktsOf(r.addr)) + r.numPkts < WORD)
    ensures Distinct(Add(t, r))
    ensures forall a :: Books(exact, Sum(Add(t, r), PktsOf(a)), Sum(t, PktsOf(a)) + PktsOf(a)(r))
    ensures !Known(t, r.addr) ==>
              Add(t, r) == t + [r] && forall a :: Sum(t + [r], PktsOf(a)) == Sum(t, PktsOf(a)) + PktsOf(a)(r)
  {
    forall a
      ensures Books(exact, Sum(Add(t, r), PktsOf(a)), Sum(t, PktsOf(a)) + PktsOf(a)(r))
      ensures Sum(Add(t, r), EntriesOf(a)) <= 1
      ensures Sum(t + [r], PktsOf(a)) == Sum(t, PktsOf(a)) + PktsOf(a)(r)
    {
      AddSums(t, r, a, exact);
      SumAppends(t, [r], PktsOf(a));
      SumOne(r, PktsOf(a));
    }
  }

  lemma StepAccounts(s: State, r: Receiver, sizes: Sizes, exact: bool)
    requires Inv(s, sizes) && (exact ==> forall a :: Held(s, a) + PktsOf(a)(r) < WORD)
    ensures Inv(Step(s, r, sizes), sizes)
    ensures forall a ::
      Books(exact, Held(Step(s, r, sizes), a) + Sum(Lost(s, r, sizes), PktsOf(a)), Held(s, a) + PktsOf(a)(r))
  {
    if exact { assert Held(s, r.addr) + PktsOf(r.addr)(r) < WORD; }
    CurrentGrows(s.current, r, exact);
    if Spills(s, r, sizes) {
      SpillAccounts(s.top, s.current + [r], sizes, exact);
    } else if !Known(s.current, r.addr) && !Admits(s, r, sizes) {
      forall a ensures Sum([r], PktsOf(a)) == PktsOf(a)(r) { SumOne(r, PktsOf(a)); }
    }
  }

  // ---------------------------------------------------------------- every feed

  // What has been fed for an address.
  function Fed(feed: seq<Receiver>, a: U32): (n: nat) { Sum(feed, PktsOf(a)) }

  lemma FedGrows(feed: seq<Receiver>, r: Receiver, a: U32)
    ensures Fed(feed + [r], a) == Fed(feed, a) + PktsOf(a)(r)
  {
    SumAppends(feed, [r], PktsOf(a));
    SumOne(r, PktsOf(a));
  }

  lemma {:induction false} FeedAccounts(feed: seq<Receiver>, sizes: Sizes, exact: bool)
    requires exact ==> forall a :: Fed(feed, a) < WORD
    ensures Inv(Run(feed, sizes), sizes)
    ensures forall a :: Books(exact, Held(Run(feed, sizes), a) + Sum(Dropped(feed, sizes), PktsOf(a)), Fed(feed, a))
  {
    if feed != [] {
      var past, r := feed[..|feed| - 1], feed[|feed| - 1];
      assert past + [r] == feed;
      forall a ensures Fed(feed, a) == Fed(past, a) + PktsOf(a)(r) { FedGrows(past, r, a); }
      FeedAccounts(past, sizes, exact);
      var s, gone := Run(past, sizes), Dropped(past, sizes);
      if exact {
        forall a ensures Held(s, a) + PktsOf(a)(r) < WORD { assert Fed(feed, a) < WORD; }
      }
      StepAccounts(s, r, sizes, exact);
      forall a
        ensures Books(exact, Held(Run(feed, sizes), a) + Sum(Dropped(feed, sizes), PktsOf(a)), Fed(feed, a))
      {
        SumAppends(gone, Lost(s, r, sizes), PktsOf(a));
      }
    }
  }

  // Per address: packets fed = working table + top table + dropped.
  ghost predicate Balanced(feed: seq<Receiver>, sizes: Sizes) {
    forall a :: Fed(feed, a) == Held(Run(feed, sizes), a) + Sum(Dropped(feed, sizes), PktsOf(a))
  }

  ghost predicate FedUpTo(feed: seq<Receiver>, limit: nat) { forall a :: Fed(feed, a) <= limit }

  // The books balance for all feeds up to a limit per address if and only if it fits 32 bits.
  lemma EveryPacketAccountedIff(limit: nat, sizes: Sizes)
    requires sizes.two >= 1
    ensures (forall feed | FedUpTo(feed, limit) :: Balanced(feed, sizes)) <==> limit < WORD
  {
    if limit < WORD {
      forall feed | FedUpTo(feed, limit) ensures Balanced(feed, sizes) {
        forall a ensures Fed(feed, a) < WORD { assert Fed(feed, a) <= limit; }
        FeedAccounts(feed, sizes, true);
      }
    } else {
      WrappedFeed(0, 4, sizes, limit);
    }
  }

  // A counter that wraps loses 2^32 packets.
  lemma WrappedFeed(addr: U32, version: byte, sizes: Sizes, limit: nat)
    requires sizes.two >= 1 && limit >= WORD
    ensures var feed := [Receiver(addr, version, WORD - 1), Receiver(addr, version, 1)];
            FedUpTo(feed, limit) && !Balanced(feed, sizes)
  {
    var most, one := Receiver(addr, version, WORD - 1), Receiver(addr, version, 1);
    var feed := [most, one];
    assert feed[..1] == [most] && [most][..0] == [];
    assert Run([], sizes) == State([], []);
    assert Run([most], sizes) == State([most], []) && Dropped([most], sizes) == [];
    var none := Receiver(addr, version, 0);
    assert Run(feed, sizes) == State([none], []) && Dropped(feed, sizes) == [];
    forall a ensures Fed(feed, a) == PktsOf(a)(most) + PktsOf(a)(one) {
      SumOne(most, PktsOf(a));
      FedGrows([most], one, a);
      assert [most] + [one] == feed;
    }
    SumOne(none, PktsOf(addr));
    assert Fed(feed, addr) == WORD && Held(Run(feed, sizes), addr) == 0;
  }

  // In every feed: unique addresses, tables within their limits, and a reported count that never
  // exceeds the packets fed for its address.
  lemma ReportedWithinTrue(feed: seq<Receiver>, sizes: Sizes)
    ensures Inv(Run(feed, sizes), sizes)
    ensures var s := Run(feed, sizes);
            forall r | r in s.top || r in s.current :: r.numPkts <= Fed(feed, r.addr)
  {
    FeedAccounts(feed, sizes, false);
    var s := Run(feed, sizes);
    forall r | r in s.top || r in s.current ensures r.numPkts <= Fed(feed, r.addr) {
      assert Books(false, Held(s, r.addr) + Sum(Dropped(feed, sizes), PktsOf(r.addr)), Fed(feed, r.addr));
      if r in s.top {
        var i :| 0 <= i < |s.top| && s.top[i] == r;
        EntryWithinSum(s.top, i);
      } else {
        var i :| 0 <= i < |s.current| && s.current[i] == r;
        EntryWithinSum(s.current, i);
      }
    }
  }

  // ---------------------------------------------------------------- every cut

  // All counts are at least lo.
  ghost predicate Floor(t: Table, lo: nat) { Ranges(t, lo, WORD - 1) }

  lemma AddFloor(t: Table, r: Receiver, lo: nat)
    requires Floor(t, lo) && lo <= r.numPkts && Sum(t, PktsOf(r.addr)) + r.numPkts < WORD
    ensures Floor(Add(t, r), lo)
  {
    var i := IndexOf(t, r.addr);
    if i < |t| { EntryWithinSum(t, i); }
  }

  lemma {:induction false} MergeFloor(primary: Table, secondary: Table, lo: nat)
    requires Floor(primary, lo) && Floor(secondary, lo) && Distinct(secondary) && Fit(true, primary, secondary)
    ensures Floor(Merge(primary, secondary), lo)
    decreases |primary|
  {
    if primary != [] {
      var r := primary[0];
      assert Sum(primary, PktsOf(r.addr)) + Sum(secondary, PktsOf(r.addr)) < WORD;
      AddFloor(secondary, r, lo);
      forall a
        ensures Sum(Add(secondary, r), EntriesOf(a)) <= 1
        ensures Sum(primary[1..], PktsOf(a)) + Sum(Add(secondary, r), PktsOf(a)) < WORD
      {
        AddSums(secondary, r, a, true);
        assert Sum(primary, PktsOf(a)) + Sum(secondary, PktsOf(a)) < WORD;
      }
      MergeFloor(primary[1..], Add(secondary, r), lo);
    }
  }

  // The table that a spill merges into the top table keeps the floor and the packets.
  lemma KeptFits(top: Table, full: Table, max: nat, lo: nat)
    requires Floor(full, lo) && Fit(true, full, top)
    ensures Floor(CutBack(Sort(full), max), lo) && Fit(true, CutBack(Sort(full), max), top)
    ensures forall a :: Sum(CutBack(Sort(full), max), PktsOf(a)) <= Sum(full, PktsOf(a))
  {
    SortRanges(full, lo, WORD - 1);
    forall a ensures Sum(CutBack(Sort(full), max), PktsOf(a)) <= Sum(full, PktsOf(a)) { CutSorted(full, max, a); }
  }

  lemma SpillFloor(top: Table, full: Table, sizes: Sizes, lo: nat)
    requires Distinct(top) && Floor(top, lo) && Floor(full, lo) && Fit(true, full, top)
    ensures Floor(Spilled(top, full, sizes), lo)
  {
    var kept := CutBack(Sort(full), sizes.one);
    KeptFits(top, full, sizes.one, lo);
    MergeFloor(kept, top, lo);
    SortRanges(Merge(kept, top), lo, WORD - 1);
  }

  lemma StepFloor(s: State, r: Receiver, sizes: Sizes, lo: nat)
    requires Inv(s, sizes) && Floor(s.current, lo) && Floor(s.top, lo) && lo <= r.numPkts
    requires forall a :: Held(s, a) + PktsOf(a)(r) < WORD
    ensures Floor(Step(s, r, sizes).current, lo) && Floor(Step(s, r, sizes).top, lo)
  {
    assert Held(s, r.addr) + PktsOf(r.addr)(r) < WORD;
    AddFloor(s.current, r, lo);
    if Spills(s, r, sizes) {
      CurrentGrows(s.current, r, true);
      SpillFloor(s.top, s.current + [r], sizes, lo);
    }
  }

  // Every record of a feed has at least lo packets, every address at most hi in all.
  ghost predicate FeedRanges(feed: seq<Receiver>, lo: nat, hi: nat) { Floor(feed, lo) && FedUpTo(feed, hi) }

  lemma FeedBefore(feed: seq<Receiver>, r: Receiver, lo: nat, hi: nat)
    requires FeedRanges(feed + [r], lo, hi)
    ensures FeedRanges(feed, lo, hi) && lo <= r.numPkts && forall a :: Fed(feed, a) + PktsOf(a)(r) <= hi
  {
    forall a ensures Fed(feed, a) + PktsOf(a)(r) <= hi {
      FedGrows(feed, r, a);
      assert Fed(feed + [r], a) <= hi;
    }
    assert (feed + [r])[|feed|] == r;
    forall i | 0 <= i < |feed| ensures lo <= feed[i].numPkts { assert (feed + [r])[i] == feed[i]; }
  }

  // What the tables hold after a feed: at most what was fed.
  lemma HeldWithin(feed: seq<Receiver>, sizes: Sizes, a: U32)
    ensures Held(Run(feed, sizes), a) <= Fed(feed, a)
  {
    FeedAccounts(feed, sizes, false);
    assert Books(false, Held(Run(feed, sizes), a) + Sum(Dropped(feed, sizes), PktsOf(a)), Fed(feed, a));
  }

  lemma {:induction false} RunFloor(feed: seq<Receiver>, sizes: Sizes, lo: nat, hi: nat)
    requires FeedRanges(feed, lo, hi) && hi < WORD
    ensures Floor(Run(feed, sizes).current, lo) && Floor(Run(feed, sizes).top, lo)
  {
    if feed != [] {
      var past, r := feed[..|feed| - 1], feed[|feed| - 1];
      assert past + [r] == feed;
      FeedBefore(past, r, lo, hi);
      RunFloor(past, sizes, lo, hi);
      FeedAccounts(past, sizes, false);
      forall a ensures Held(Run(past, sizes), a) + PktsOf(a)(r) < WORD { HeldWithin(past, sizes, a); }
      StepFloor(Run(past, sizes), r, sizes, lo);
    }
  }

  lemma TableRanges(t: Table, lo: nat, hi: nat)
    requires Floor(t, lo) && forall a :: Sum(t, PktsOf(a)) <= hi
    ensures Ranges(t, lo, hi)
  {
    forall i | 0 <= i < |t| ensures lo <= t[i].numPkts <= hi {
      EntryWithinSum(t, i);
      assert Sum(t, PktsOf(t[i].addr)) <= hi;
    }
  }

  // The two cuts of an update that spills: of the working table, then of the merged top table.
  ghost predicate CutsRight(feed: seq<Receiver>, r: Receiver, sizes: Sizes) {
    var s := Run(feed, sizes);
    var full := s.current + [r];
    Spills(s, r, sizes) ==>
      CutRight(full, sizes.one) && CutRight(Merge(CutBack(Sort(full), sizes.one), s.top), sizes.one)
  }

  // Whatever the feed so far, a spill drops only entries no larger than every one it keeps, while
  // counts stay less than 2^31 apart.
  lemma CutsDropSmallest(feed: seq<Receiver>, r: Receiver, sizes: Sizes, lo: nat, hi: nat)
    requires FeedRanges(feed + [r], lo, hi) && hi < WORD && hi < lo + HALF
    ensures CutsRight(feed, r, sizes)
  {
    var s := Run(feed, sizes);
    if Spills(s, r, sizes) {
      var full := s.current + [r];
      FeedBefore(feed, r, lo, hi);
      FeedAccounts(feed, sizes, false);
      RunFloor(feed, sizes, lo, hi);
      forall a ensures Held(s, a) + PktsOf(a)(r) <= hi { HeldWithin(feed, sizes, a); }
      assert Held(s, r.addr) + PktsOf(r.addr)(r) <= hi;
      CurrentGrows(s.current, r, true);
      SpilledTables(s.top, full, sizes, lo, hi);
    }
  }

  lemma SpilledTables(top: Table, full: Table, sizes: Sizes, lo: nat, hi: nat)
    requires Distinct(top) && Floor(top, lo) && Floor(full, lo) && hi < WORD && hi < lo + HALF
    requires forall a :: Sum(full, PktsOf(a)) + Sum(top, PktsOf(a)) <= hi
    ensures CutRight(full, sizes.one) && CutRight(Merge(CutBack(Sort(full), sizes.one), top), sizes.one)
  {
    var kept := CutBack(Sort(full), sizes.one);
    KeptFits(top, full, sizes.one, lo);
    MergeFloor(kept, top, lo);
    MergeSums(kept, top, true);
    forall a ensures Sum(full, PktsOf(a)) <= hi && Sum(Merge(kept, top), PktsOf(a)) <= hi {
      assert Sum(full, PktsOf(a)) + Sum(top, PktsOf(a)) <= hi;
      assert Books(true, Sum(Merge(kept, top), PktsOf(a)), Sum(kept, PktsOf(a)) + Sum(top, PktsOf(a)));
    }
    TableRanges(full, lo, hi);
    TableRanges(Merge(kept, top), lo, hi);
    CutSeparates(full, sizes.one, lo, hi);
    CutSeparates(Merge(kept, top), sizes.one, lo, hi);
  }

  // ---------------------------------------------------------------- a feed that is cut wrongly

  // One address with hi packets, one with lo, then others with mid each.
  function Crowd(lo: U32, mid: U32, hi: U32, n: nat): (feed: seq<Receiver>)
    requires n < WORD
    ensures |feed| == n + 1
  {
    if n == 0 then [Receiver(0, 4, hi)] else Crowd(lo, mid, hi, n - 1) + [Joins(lo, mid, n)]
  }

  function Joins(lo: U32, mid: U32, n: nat): (r: Receiver)
    requires n < WORD
  {
    Receiver(n, 4, if n == 1 then lo else mid)
  }

  lemma {:induction false} CrowdIs(lo: U32, mid: U32, hi: U32, n: nat)
    requires n < WORD
    ensures var feed := Crowd(lo, mid, hi, n);
            feed[0] == Receiver(0, 4, hi) && forall i | 1 <= i <= n :: feed[i] == Joins(lo, mid, i)
  {
    if n > 0 { CrowdIs(lo, mid, hi, n - 1); }
  }

  lemma {:induction false} CrowdFed(lo: U32, mid: U32, hi: U32, n: nat, a: U32)
    requires n < WORD
    ensures Fed(Crowd(lo, mid, hi, n), a) == if a == 0 then hi else if a <= n then Joins(lo, mid, a).numPkts else 0
  {
    if n == 0 {
      SumOne(Receiver(0, 4, hi), PktsOf(a));
    } else {
      CrowdFed(lo, mid, hi, n - 1, a);
      FedGrows(Crowd(lo, mid, hi, n - 1), Joins(lo, mid, n), a);
    }
  }

  lemma CrowdRanges(lo: U32, mid: U32, hi: U32, n: nat)
    requires lo <= mid <= hi && n < WORD
    ensures FeedRanges(Crowd(lo, mid, hi, n), lo, hi)
  {
    CrowdIs(lo, mid, hi, n);
    forall a ensures Fed(Crowd(lo, mid, hi, n), a) <= hi { CrowdFed(lo, mid, hi, n, a); }
  }

  lemma CrowdIsNew(lo: U32, mid: U32, hi: U32, n: nat)
    requires 0 < n < WORD
    ensures !Known(Crowd(lo, mid, hi, n - 1), n)
  {
    CrowdIs(lo, mid, hi, n - 1);
  }

  lemma FillStep(s: State, r: Receiver, sizes: Sizes)
    requires !Known(s.current, r.addr) && Admits(s, r, sizes) && |s.current| < sizes.two
    ensures Step(s, r, sizes) == State(s.current + [r], s.top)
  {
  }

  lemma RunNext(feed: seq<Receiver>, r: Receiver, sizes: Sizes)
    ensures Run(feed + [r], sizes) == Step(Run(feed, sizes), r, sizes)
  {
    assert (feed + [r])[..|feed + [r]| - 1] == feed;
  }

  // The second record is admitted while the table is small, the others are acceptable.
  predicate Enters(lo: U32, mid: U32, sizes: Sizes) { (Acceptable(lo) || sizes.one >= 2) && Acceptable(mid) }

  lemma {:induction false} CrowdFills(lo: U32, mid: U32, hi: U32, n: nat, sizes: Sizes)
    requires Enters(lo, mid, sizes) && n < WORD && n < sizes.two && sizes.one >= 1
    ensures Run(Crowd(lo, mid, hi, n), sizes) == State(Crowd(lo, mid, hi, n), [])
  {
    if n == 0 {
      assert Run([], sizes) == State([], []);
      RunNext([], Receiver(0, 4, hi), sizes);
      FillStep(State([], []), Receiver(0, 4, hi), sizes);
      assert [] + [Receiver(0, 4, hi)] == Crowd(lo, mid, hi, 0);
    } else {
      CrowdFills(lo, mid, hi, n - 1, sizes);
      CrowdIsNew(lo, mid, hi, n);
      RunNext(Crowd(lo, mid, hi, n - 1), Joins(lo, mid, n), sizes);
      FillStep(State(Crowd(lo, mid, hi, n - 1), []), Joins(lo, mid, n), sizes);
    }
  }

  // The largest receiver is the first to be cut off.
  lemma CrowdCutsLargest(lo: U32, mid: U32, hi: U32, sizes: Sizes)
    requires Enters(lo, mid, sizes) && hi >= lo + HALF && lo <= mid < lo + HALF && mid < hi && 1 <= sizes.one <= sizes.two < WORD
    ensures !CutsRight(Crowd(lo, mid, hi, sizes.two - 1), Joins(lo, mid, sizes.two), sizes)
  {
    var n := sizes.two;
    CrowdFills(lo, mid, hi, n - 1, sizes);
    CrowdIsNew(lo, mid, hi, n);
    CrowdMisordered(lo, mid, hi, n, sizes.one);
    assert Spills(State(Crowd(lo, mid, hi, n - 1), []), Joins(lo, mid, n), sizes);
  }

  lemma CrowdMisordered(lo: U32, mid: U32, hi: U32, n: nat, max: nat)
    requires hi >= lo + HALF && lo <= mid < lo + HALF && mid < hi && 1 <= max <= n < WORD
    ensures !CutRight(Crowd(lo, mid, hi, n - 1) + [Joins(lo, mid, n)], max)
  {
    var full := Crowd(lo, mid, hi, n);
    CrowdIs(lo, mid, hi, n);
    assert full == [full[0]] + full[1..];
    LargestGoesFirst(full[0], full[1..], lo, mid, max);
  }

  // Over all feeds with records of at least lo packets and totals up to hi: every cut drops the
  // smallest entries if and only if hi and lo lie less than 2^31 apart. Records too small to be
  // acceptable count as well, as long as the table admits a second one of them.
  lemma FeedsCutRightIff(lo: U32, hi: U32, sizes: Sizes)
    requires lo <= hi && 1 <= sizes.one <= sizes.two < WORD && (Acceptable(lo) || sizes.one >= 2)
    ensures (forall feed, r | FeedRanges(feed + [r], lo, hi) :: CutsRight(feed, r, sizes)) <==> hi - lo < HALF
  {
    if hi - lo < HALF {
      forall feed, r | FeedRanges(feed + [r], lo, hi) ensures CutsRight(feed, r, sizes) {
        CutsDropSmallest(feed, r, sizes, lo, hi);
      }
    } else {
      var mid := if Acceptable(lo) then lo else 6;
      CrowdCutsLargest(lo, mid, hi, sizes);
      CrowdRanges(lo, mid, hi, sizes.two);
      assert Crowd(lo, mid, hi, sizes.two) == Crowd(lo, mid, hi, sizes.two - 1) + [Joins(lo, mid, sizes.two)];
    }
  }

  // ---------------------------------------------------------------- the tables in place

  // cutBackTo: delete from the front until max entries are left.
  method CutBackTo(t: Table, size: nat, max: nat) returns (r: Table)
    requires size == |t|
    ensures r == CutBack(t, max)
  {
    if size < max { return t; }
    var i, count := 0, size - max;
    r := t;
    while r != []
      invariant 0 <= i <= count && i <= |t| && r == t[i..]
      decreases |r|
    {
      if i == count { return; }
      i, r := i + 1, r[1..];
    }
  }

  // mergeTables: move the entries of the first table into the second.
  method MergeTables(primary: Table, secondary: Table) returns (p: Table, s: Table)
    ensures p == [] && s == Merge(primary, secondary)
  {
    p, s := primary, secondary;
    while p != []
      invariant Merge(p, s) == Merge(primary, secondary)
      decreases |p|
    {
      var r := p[0];
      var i := IndexOf(s, r.addr);
      if i == |s| {
        s := s + [r];
      } else {
        s := s[i := s[i].(numPkts := Trunc32(s[i].numPkts + r.numPkts))];
      }
      p := p[1..];
    }
  }

  class ReceiverTables {
    const sizes: Sizes
    var rcvrs: Table
    var topRcvrs: Table

    ghost function View(): State
      reads this
    {
      State(rcvrs, topRcvrs)
    }

    constructor (sizes: Sizes)
      ensures this.sizes == sizes && View() == State([], [])
    {
      this.sizes, rcvrs, topRcvrs := sizes, [], [];
    }

    method UpdateReceivers(r: Receiver)
      modifies this
      ensures View() == Step(old(View()), r, sizes)
    {
      var i := IndexOf(rcvrs, r.addr);
      if i < |rcvrs| {
        rcvrs := rcvrs[i := rcvrs[i].(numPkts := Trunc32(rcvrs[i].numPkts + r.numPkts))];
      } else if |rcvrs| < sizes.one || Acceptable(r.numPkts) {
        rcvrs := rcvrs + [r];
        if |rcvrs| > sizes.two {
          var sorted := Sort(rcvrs);
          SortSums(rcvrs, PktsOf(0));
          rcvrs := CutBackTo(sorted, |rcvrs|, sizes.one);
          rcvrs, topRcvrs := MergeTables(rcvrs, topRcvrs);
          if |topRcvrs| > sizes.one {
            sorted := Sort(topRcvrs);
            SortSums(topRcvrs, PktsOf(0));
            topRcvrs := CutBackTo(sorted, |topRcvrs|, sizes.one);
          }
          rcvrs := [];
        }
      }
    }
  }
}
