/** Sums over the records of a tree, of an array of trees and of a queue, and how the
    tree operations move weight between them. */
module TreeTotals {
  import opened SearchTree

  function Total<K, V>(t: Tree<K, V>, w: V -> nat): (n: int) {
    match t
    case Nil => 0
    case Node(l, _, v, r) => Total(l, w) + w(v) + Total(r, w)
  }

  function GrandTotal<K, V>(ts: seq<Tree<K, V>>, w: V -> nat): (n: int) {
    if ts == [] then 0 else Total(ts[0], w) + GrandTotal(ts[1..], w)
  }

  function ListTotal<V>(vs: seq<V>, w: V -> nat): (n: int) {
    if vs == [] then 0 else w(vs[0]) + ListTotal(vs[1..], w)
  }

  function Values<K, V>(queue: seq<(K, V)>): (vs: seq<V>) {
    seq(|queue|, i requires 0 <= i < |queue| => queue[i].1)
  }

  function Weigh<V>(o: Option<V>, w: V -> nat): (n: int) { if o.Some? then w(o.value) else 0 }

  lemma {:induction false} PutTotal<K, V>(t: Tree<K, V>, k: K, v: V, cmp: (K, K) -> int, w: V -> nat)
    ensures Total(Put(t, k, v, cmp), w) + Weigh(Find(t, k, cmp), w) == Total(t, w) + w(v)
  {
    match t
    case Nil =>
    case Node(l, key, _, r) =>
      if cmp(k, key) < 0 { PutTotal(l, k, v, cmp, w); }
      else if cmp(k, key) > 0 { PutTotal(r, k, v, cmp, w); }
  }

  lemma {:induction false} MinTotal<K, V>(t: Tree<K, V>, w: V -> nat)
    requires t.Node?
    ensures Total(DeleteMin(t), w) + w(Min(t).1) == Total(t, w)
  {
    if t.left.Node? { MinTotal(t.left, w); }
  }

  lemma {:induction false} DeleteTotal<K, V>(t: Tree<K, V>, k: K, cmp: (K, K) -> int, w: V -> nat)
    ensures Total(Delete(t, k, cmp), w) + Weigh(Find(t, k, cmp), w) == Total(t, w)
  {
    match t
    case Nil =>
    case Node(l, key, _, r) =>
      if cmp(k, key) < 0 { DeleteTotal(l, k, cmp, w); }
      else if cmp(k, key) > 0 { DeleteTotal(r, k, cmp, w); }
      else if l.Node? && r.Node? { MinTotal(r, w); }
  }

  lemma {:induction false} GrandTotalUpdates<K, V>(ts: seq<Tree<K, V>>, i: nat, t: Tree<K, V>, w: V -> nat)
    requires i < |ts|
    ensures GrandTotal(ts[i := t], w) + Total(ts[i], w) == GrandTotal(ts, w) + Total(t, w)
  {
    if i == 0 {
      assert ts[0 := t][1..] == ts[1..];
    } else {
      GrandTotalUpdates(ts[1..], i - 1, t, w);
      assert ts[i := t][1..] == ts[1..][i - 1 := t];
    }
  }

  lemma {:induction false} EmptyTreesTotal<K, V>(ts: seq<Tree<K, V>>, w: V -> nat)
    requires forall i :: 0 <= i < |ts| ==> ts[i] == Nil
    ensures GrandTotal(ts, w) == 0
  {
    if ts != [] { EmptyTreesTotal(ts[1..], w); }
  }

  lemma {:induction false} ListTotalAppends<V>(a: seq<V>, b: seq<V>, w: V -> nat)
    ensures ListTotal(a + b, w) == ListTotal(a, w) + ListTotal(b, w)
  {
    if a == [] {
      assert a + b == b;
    } else {
      ListTotalAppends(a[1..], b, w);
      assert (a + b)[1..] == a[1..] + b;
    }
  }

  // Counting records counts keys.
  lemma {:induction false} CountIsCardinality<K(!new), V(!new)>(t: Tree<K, V>, w: V -> nat, rank: K -> int)
    requires Sorted(t, rank) && forall v :: w(v) == 1
    ensures Total(t, w) == |Contents(t)|
  {
    match t
    case Nil =>
    case Node(l, k, v, r) =>
      CountIsCardinality(l, w, rank);
      CountIsCardinality(r, w, rank);
      JoinCounts(Contents(l), k, v, Contents(r));
  }

  // The queue holds records of the tree, each once.
  ghost predicate Queued<K, V>(t: Tree<K, V>, queue: seq<(K, V)>) {
    DistinctKeys(queue) && forall n | n in queue :: n.0 in Contents(t) && Contents(t)[n.0] == n.1
  }

  lemma DeleteKeepsQueued<K(!new), V>(t: Tree<K, V>, queue: seq<(K, V)>, cmp: (K, K) -> int, rank: K -> int)
    requires IsOrder(cmp, rank) && Sorted(t, rank) && Queued(t, queue) && queue != []
    ensures var last, rest := queue[|queue| - 1], queue[..|queue| - 1];
            && Sorted(Delete(t, last.0, cmp), rank) && Queued(Delete(t, last.0, cmp), rest)
            && Find(t, last.0, cmp) == Some(last.1)
  {
    var last := queue[|queue| - 1];
    assert last in queue;
    FindIsLookup(t, last.0, cmp, rank);
    DeleteIsRemoval(t, last.0, cmp, rank);
  }

  // What the deletions take out of a tree is the weight of the queue.
  lemma {:induction false} DeleteAllTotal<K(!new), V>(t: Tree<K, V>, queue: seq<(K, V)>, cmp: (K, K) -> int, rank: K -> int, w: V -> nat)
    requires IsOrder(cmp, rank) && Sorted(t, rank) && Queued(t, queue)
    ensures Total(DeleteAll(t, queue, cmp), w) + ListTotal(Values(queue), w) == Total(t, w)
    decreases |queue|
  {
    if queue != [] {
      var last, rest := queue[|queue| - 1], queue[..|queue| - 1];
      DeleteKeepsQueued(t, queue, cmp, rank);
      DeleteAllTotal(Delete(t, last.0, cmp), rest, cmp, rank, w);
      DeleteTotal(t, last.0, cmp, w);
      QueueTotal(queue, w);
    }
  }

  lemma QueueTotal<K, V>(queue: seq<(K, V)>, w: V -> nat)
    requires queue != []
    ensures ListTotal(Values(queue), w) == ListTotal(Values(queue[..|queue| - 1]), w) + w(queue[|queue| - 1].1)
  {
    var last, rest := queue[|queue| - 1], queue[..|queue| - 1];
    assert Values(queue) == Values(rest) + [last.1];
    ListTotalAppends(Values(rest), [last.1], w);
  }
}
