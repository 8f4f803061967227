/** The binary search trees the flow tables are made of, over any comparator that
    is a strict total order, and the walk that queues idle flows under a budget. */
module SearchTree {

  datatype Option<+T> = None | Some(value: T)

  // A node holds a flow: its immutable identity (key) and its record (val).
  datatype Tree<K, V> = Nil | Node(left: Tree<K, V>, key: K, val: V, right: Tree<K, V>)

  // A comparator is a strict total order when its sign is that of a difference of
  // ranks and only equal keys compare equal.
  ghost predicate IsOrder<K(!new)>(cmp: (K, K) -> int, rank: K -> int) {
    forall a, b {:trigger cmp(a, b)} ::
                   && (cmp(a, b) < 0 <==> rank(a) < rank(b))
                   && (cmp(a, b) > 0 <==> rank(a) > rank(b))
                   && (cmp(a, b) == 0 <==> a == b)
  }

  // The tree as a map.
  function Contents<K, V>(t: Tree<K, V>): (m: map<K, V>) {
    match t
    case Nil => map[]
    case Node(l, k, v, r) => Join(Contents(l), k, v, Contents(r))
  }

  ghost predicate Sorted<K(!new), V>(t: Tree<K, V>, rank: K -> int) {
    match t
    case Nil => true
    case Node(l, k, _, r) =>
      && Sorted(l, rank) && Sorted(r, rank)
      && (forall x :: x in Contents(l) ==> rank(x) < rank(k))
      && (forall x :: x in Contents(r) ==> rank(k) < rank(x))
  }

  // ndpi_tfind
  function Find<K, V>(t: Tree<K, V>, k: K, cmp: (K, K) -> int): (r: Option<V>) {
    match t
    case Nil => None
    case Node(l, key, val, r) =>
      if cmp(k, key) == 0 then Some(val)
      else if cmp(k, key) < 0 then Find(l, k, cmp)
      else Find(r, k, cmp)
  }

  // ndpi_tsearch of a key that is absent, or an update in place of the record found.
  function Put<K, V>(t: Tree<K, V>, k: K, v: V, cmp: (K, K) -> int): (r: Tree<K, V>) {
    match t
    case Nil => Node(Nil, k, v, Nil)
    case Node(l, key, val, r) =>
      if cmp(k, key) == 0 then Node(l, key, v, r)
      else if cmp(k, key) < 0 then Node(Put(l, k, v, cmp), key, val, r)
      else Node(l, key, val, Put(r, k, v, cmp))
  }

  // ndpi_tdelete: the hole is filled by the right child's leftmost node.
  function Delete<K, V>(t: Tree<K, V>, k: K, cmp: (K, K) -> int): (r: Tree<K, V>) {
    match t
    case Nil => Nil
    case Node(l, key, val, r) =>
      if cmp(k, key) < 0 then Node(Delete(l, k, cmp), key, val, r)
      else if cmp(k, key) > 0 then Node(l, key, val, Delete(r, k, cmp))
      else if l.Nil? then r
      else if r.Nil? then l
      else var (mk, mv) := Min(r); Node(l, mk, mv, DeleteMin(r))
  }

  function Min<K, V>(t: Tree<K, V>): (r: (K, V))
    requires t.Node?
  {
    if t.left.Nil? then (t.key, t.val) else Min(t.left)
  }

  function DeleteMin<K, V>(t: Tree<K, V>): (r: Tree<K, V>)
    requires t.Node?
  {
    if t.left.Nil? then t.right else t.(left := DeleteMin(t.left))
  }

  // ------------------------------------------------------------ refinement to a map

  lemma {:induction false} FindIsLookup<K(!new), V>(t: Tree<K, V>, k: K, cmp: (K, K) -> int, rank: K -> int)
    requires IsOrder(cmp, rank) && Sorted(t, rank)
    ensures Find(t, k, cmp) == if k in Contents(t) then Some(Contents(t)[k]) else None
  {
    match t
    case Nil =>
    case Node(l, key, _, r) =>
      if cmp(k, key) < 0 { FindIsLookup(l, k, cmp, rank); }
      else if cmp(k, key) > 0 { FindIsLookup(r, k, cmp, rank); }
  }

  // How the maps of two subtrees and a node combine.
  function Join<K, V>(l: map<K, V>, k: K, v: V, r: map<K, V>): (m: map<K, V>) { l + r + map[k := v] }

  lemma JoinUpdates<K, V>(l: map<K, V>, key: K, val: V, r: map<K, V>, k: K, v: V)
    requires k != key
    ensures k !in r ==> Join(l[k := v], key, val, r) == Join(l, key, val, r)[k := v]
    ensures Join(l, key, val, r[k := v]) == Join(l, key, val, r)[k := v]
  {
  }

  lemma JoinReplaces<K, V>(l: map<K, V>, key: K, val: V, r: map<K, V>, v: V)
    ensures Join(l, key, v, r) == Join(l, key, val, r)[key := v]
  {
  }

  lemma JoinRemoves<K, V>(l: map<K, V>, key: K, val: V, r: map<K, V>, k: K)
    requires k != key
    ensures k !in r ==> Join(l - {k}, key, val, r) == Join(l, key, val, r) - {k}
    ensures k !in l ==> Join(l, key, val, r - {k}) == Join(l, key, val, r) - {k}
  {
  }

  lemma JoinDropsRoot<K, V>(l: map<K, V>, key: K, val: V, r: map<K, V>)
    requires key !in l && key !in r
    ensures l + r == Join(l, key, val, r) - {key}
    ensures l == map[] ==> r == Join(l, key, val, r) - {key}
    ensures r == map[] ==> l == Join(l, key, val, r) - {key}
  {
    assert l == map[] ==> l + r == r;
    assert r == map[] ==> l + r == l;
  }

  lemma JoinMoves<K, V>(l: map<K, V>, k: K, r: map<K, V>)
    requires k in r && k !in l
    ensures Join(l, k, r[k], r - {k}) == l + r
  {
  }

  lemma JoinCounts<K, V>(l: map<K, V>, key: K, val: V, r: map<K, V>)
    requires key !in l && key !in r && l.Keys !! r.Keys
    ensures |Join(l, key, val, r)| == |l| + 1 + |r|
  {
    var m := Join(l, key, val, r);
    assert m.Keys == l.Keys + r.Keys + {key};
    assert |m| == |m.Keys| && |l| == |l.Keys| && |r| == |r.Keys|;
  }

  lemma {:induction false} PutIsUpdate<K(!new), V>(t: Tree<K, V>, k: K, v: V, cmp: (K, K) -> int, rank: K -> int)
    requires IsOrder(cmp, rank) && Sorted(t, rank)
    ensures Sorted(Put(t, k, v, cmp), rank)
    ensures Contents(Put(t, k, v, cmp)) == Contents(t)[k := v]
  {
    match t
    case Nil =>
    case Node(l, key, val, r) =>
      if cmp(k, key) < 0 {
        PutIsUpdate(l, k, v, cmp, rank);
        JoinUpdates(Contents(l), key, val, Contents(r), k, v);
      } else if cmp(k, key) > 0 {
        PutIsUpdate(r, k, v, cmp, rank);
        JoinUpdates(Contents(l), key, val, Contents(r), k, v);
      } else {
        JoinReplaces(Contents(l), key, val, Contents(r), v);
      }
  }

  lemma {:induction false} MinLeaves<K(!new), V>(t: Tree<K, V>, rank: K -> int)
    requires Sorted(t, rank) && t.Node?
    ensures var (k, v) := Min(t);
            && k in Contents(t) && Contents(t)[k] == v
            && Contents(DeleteMin(t)) == Contents(t) - {k}
            && (forall x :: x in Contents(t) ==> x == k || rank(k) < rank(x))
    ensures Sorted(DeleteMin(t), rank)
  {
    if t.left.Node? {
      MinLeaves(t.left, rank);
      JoinRemoves(Contents(t.left), t.key, t.val, Contents(t.right), Min(t).0);
    } else {
      assert t.key !in Contents(t.right);
    }
  }

  lemma {:induction false} DeleteIsRemoval<K(!new), V>(t: Tree<K, V>, k: K, cmp: (K, K) -> int, rank: K -> int)
    requires IsOrder(cmp, rank) && Sorted(t, rank)
    ensures Sorted(Delete(t, k, cmp), rank)
    ensures Contents(Delete(t, k, cmp)) == Contents(t) - {k}
  {
    match t
    case Nil =>
    case Node(l, key, val, r) =>
      if cmp(k, key) < 0 {
        DeleteIsRemoval(l, k, cmp, rank);
        JoinRemoves(Contents(l), key, val, Contents(r), k);
      } else if cmp(k, key) > 0 {
        DeleteIsRemoval(r, k, cmp, rank);
        JoinRemoves(Contents(l), key, val, Contents(r), k);
      } else {
        JoinDropsRoot(Contents(l), key, val, Contents(r));
        if l.Node? && r.Node? {
          MinLeaves(r, rank);
          JoinMoves(Contents(l), Min(r).0, Contents(r));
        }
      }
  }

  // -------------------------------------------------------------------- idle scan

  // The idle walker under ndpi_twalk: preorder, until the queue holds `budget` flows.
  function Walk<K, V>(t: Tree<K, V>, idle: V -> bool, budget: nat, queue: seq<(K, V)>): (q: seq<(K, V)>) {
    match t
    case Nil => queue
    case Node(l, k, v, r) =>
      var visited := if |queue| != budget && idle(v) then queue + [(k, v)] else queue;
      Walk(r, idle, budget, Walk(l, idle, budget, visited))
  }

  // The queue is emptied from its end, each flow deleted from the tree.
  function DeleteAll<K, V>(t: Tree<K, V>, queue: seq<(K, V)>, cmp: (K, K) -> int): (r: Tree<K, V>)
    decreases |queue|
  {
    if queue == [] then t
    else DeleteAll(Delete(t, queue[|queue| - 1].0, cmp), queue[..|queue| - 1], cmp)
  }

  // All idle flows, in the order of the walk.
  function IdleNodes<K, V>(t: Tree<K, V>, idle: V -> bool): (ns: seq<(K, V)>) {
    match t
    case Nil => []
    case Node(l, k, v, r) => (if idle(v) then [(k, v)] else []) + IdleNodes(l, idle) + IdleNodes(r, idle)
  }

  function Take<T>(s: seq<T>, n: nat): (r: seq<T>) { if |s| <= n then s else s[..n] }

  lemma {:induction false} WalkTakesBudget<K, V>(t: Tree<K, V>, idle: V -> bool, budget: nat, queue: seq<(K, V)>)
    requires |queue| <= budget
    ensures Walk(t, idle, budget, queue) == Take(queue + IdleNodes(t, idle), budget)
  {
    match t
    case Nil => assert queue + [] == queue;
    case Node(l, k, v, r) =>
      var here := if idle(v) then [(k, v)] else [];
      var visited := if |queue| != budget && idle(v) then queue + [(k, v)] else queue;
      assert visited == Take(queue + here, budget);
      WalkTakesBudget(l, idle, budget, visited);
      WalkTakesBudget(r, idle, budget, Walk(l, idle, budget, visited));
      TakeChains(queue, here, IdleNodes(l, idle), IdleNodes(r, idle), budget);
  }

  lemma TakeChains<T>(queue: seq<T>, a: seq<T>, b: seq<T>, c: seq<T>, n: nat)
    ensures Take(Take(Take(queue + a, n) + b, n) + c, n) == Take(queue + (a + b + c), n)
  {
    TakeAppends(queue + a, b, n);
    TakeAppends(queue + a + b, c, n);
    assert queue + a + b + c == queue + (a + b + c);
  }

  lemma TakeAppends<T>(s: seq<T>, t: seq<T>, n: nat)
    ensures Take(Take(s, n) + t, n) == Take(s + t, n)
  {
  }

  lemma {:induction false} IdleNodesAreIdle<K(!new), V(!new)>(t: Tree<K, V>, idle: V -> bool, rank: K -> int)
    requires Sorted(t, rank)
    ensures forall n :: n in IdleNodes(t, idle) <==> n.0 in Contents(t) && Contents(t)[n.0] == n.1 && idle(n.1)
  {
    match t
    case Nil =>
    case Node(l, k, v, r) =>
      IdleNodesAreIdle(l, idle, rank);
      IdleNodesAreIdle(r, idle, rank);
  }

  ghost predicate DistinctKeys<K, V>(s: seq<(K, V)>) {
    forall i, j :: 0 <= i < j < |s| ==> s[i].0 != s[j].0
  }

  lemma DistinctAppends<K(!new), V(!new)>(s: seq<(K, V)>, t: seq<(K, V)>)
    requires DistinctKeys(s) && DistinctKeys(t) && (forall m, n | m in s && n in t :: m.0 != n.0)
    ensures DistinctKeys(s + t)
  {
    forall i, j | 0 <= i < j < |s + t| ensures (s + t)[i].0 != (s + t)[j].0 {
      if i < |s| <= j { assert s[i] in s && t[j - |s|] in t; }
    }
  }

  lemma {:induction false} IdleNodesAreDistinct<K(!new), V(!new)>(t: Tree<K, V>, idle: V -> bool, rank: K -> int)
    requires Sorted(t, rank)
    ensures DistinctKeys(IdleNodes(t, idle))
  {
    match t
    case Nil =>
    case Node(l, k, v, r) =>
      IdleNodesAreDistinct(l, idle, rank);
      IdleNodesAreDistinct(r, idle, rank);
      IdleNodesAreIdle(l, idle, rank);
      IdleNodesAreIdle(r, idle, rank);
      var here := if idle(v) then [(k, v)] else [];
      DistinctAppends(here, IdleNodes(l, idle));
      DistinctAppends(here + IdleNodes(l, idle), IdleNodes(r, idle));
  }

  ghost function Keys<K, V>(s: seq<(K, V)>): (r: set<K>) { set n | n in s :: n.0 }

  lemma {:induction false} DeleteAllIsRemoval<K(!new), V>(t: Tree<K, V>, queue: seq<(K, V)>, cmp: (K, K) -> int, rank: K -> int)
    requires IsOrder(cmp, rank) && Sorted(t, rank)
    ensures Sorted(DeleteAll(t, queue, cmp), rank)
    ensures Contents(DeleteAll(t, queue, cmp)) == Contents(t) - Keys(queue)
    decreases |queue|
  {
    if queue != [] {
      var last, rest := queue[|queue| - 1], queue[..|queue| - 1];
      DeleteIsRemoval(t, last.0, cmp, rank);
      DeleteAllIsRemoval(Delete(t, last.0, cmp), rest, cmp, rank);
      assert queue == rest + [last];
      assert Keys(queue) == Keys(rest) + {last.0};
      RemovesTwice(Contents(t), {last.0}, Keys(rest));
    }
  }

  lemma RemovesTwice<K, V>(m: map<K, V>, a: set<K>, b: set<K>)
    ensures m - a - b == m - (b + a)
  {
  }

  // A scan of one tree queues idle flows only, each once and within the budget, and
  // removes exactly those; it removes all idle flows when they fit.
  lemma ReapRemovesIdle<K(!new), V(!new)>(t: Tree<K, V>, idle: V -> bool, budget: nat, cmp: (K, K) -> int, rank: K -> int)
    requires IsOrder(cmp, rank) && Sorted(t, rank)
    ensures var queue := Walk(t, idle, budget, []);
            var reaped := DeleteAll(t, queue, cmp);
            && |queue| <= budget && DistinctKeys(queue)
            && (forall n | n in queue :: n.0 in Contents(t) && Contents(t)[n.0] == n.1 && idle(n.1))
            && Sorted(reaped, rank)
            && Contents(reaped) == Contents(t) - Keys(queue)
            && (|IdleNodes(t, idle)| <= budget ==>
                  forall k | k in Contents(t) :: k in Keys(queue) <==> idle(Contents(t)[k]))
  {
    WalkTakesBudget(t, idle, budget, []);
    assert [] + IdleNodes(t, idle) == IdleNodes(t, idle);
    IdleNodesAreIdle(t, idle, rank);
    IdleNodesAreDistinct(t, idle, rank);
    DeleteAllIsRemoval(t, Walk(t, idle, budget, []), cmp, rank);
    if |IdleNodes(t, idle)| <= budget {
      forall k | k in Contents(t) ensures k in Keys(IdleNodes(t, idle)) <==> idle(Contents(t)[k]) {
        assert (k, Contents(t)[k]) in IdleNodes(t, idle) <==> idle(Contents(t)[k]);
      }
    }
  }
}
