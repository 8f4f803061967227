/** The per-port tree of addresses: a binary tree that branches on the address alone
    but stores one node per address and IP version. */
module AddressTree {
  import opened Octets
  import opened SearchTree
  import opened TreeTotals

  datatype Host = Host(version: byte, addr: U32)

  type Counts = Tree<Host, nat>

  const UPDATED_TREE: nat := 1

  // updateIpTree: the new tree and the count of the host.
  function Update(t: Counts, h: Host): (r: (Counts, nat)) {
    match t
    case Nil => (Node(Nil, h, UPDATED_TREE, Nil), UPDATED_TREE)
    case Node(l, k, n, r) =>
      if h.version == k.version && h.addr == k.addr then (Node(l, k, n + 1, r), n + 1)
      else if h.addr < k.addr then var (l', c) := Update(l, h); (Node(l', k, n, r), c)
      else var (r', c) := Update(r, h); (Node(l, k, n, r'), c)
  }

  // Smaller addresses to the left; equal ones (of another version) to the right.
  ghost predicate Branches(t: Counts) {
    match t
    case Nil => true
    case Node(l, k, _, r) =>
      && Branches(l) && Branches(r) && k !in Contents(r)
      && (forall h :: h in Contents(l) ==> h.addr < k.addr)
      && (forall h :: h in Contents(r) ==> k.addr <= h.addr)
  }

  ghost function CountOf(t: Counts, h: Host): nat { if h in Contents(t) then Contents(t)[h] else 0 }

  lemma {:induction false} UpdateContents(t: Counts, h: Host)
    requires Branches(t)
    ensures var (r, c) := Update(t, h); c == CountOf(t, h) + 1 && Contents(r) == Contents(t)[h := c]
  {
    match t
    case Nil =>
    case Node(l, k, n, r) =>
      if h == k {
        JoinReplaces(Contents(l), k, n, Contents(r), n + 1);
      } else if h.addr < k.addr {
        UpdateContents(l, h);
        JoinUpdates(Contents(l), k, n, Contents(r), h, Update(l, h).1);
      } else {
        UpdateContents(r, h);
        JoinUpdates(Contents(l), k, n, Contents(r), h, Update(r, h).1);
      }
  }

  lemma {:induction false} UpdateBranches(t: Counts, h: Host)
    requires Branches(t)
    ensures Branches(Update(t, h).0)
  {
    match t
    case Nil =>
    case Node(l, k, n, r) =>
      if h != k {
        if h.addr < k.addr {
          UpdateContents(l, h);
          UpdateBranches(l, h);
        } else {
          UpdateContents(r, h);
          UpdateBranches(r, h);
        }
      }
  }

  // The tree refines a map from hosts to numbers of updates.
  lemma UpdateCounts(t: Counts, h: Host)
    requires Branches(t)
    ensures var (r, c) := Update(t, h);
            && Branches(r) && c == CountOf(t, h) + 1
            && Contents(r) == Contents(t)[h := c]
  {
    UpdateContents(t, h);
    UpdateBranches(t, h);
  }

  function One(n: nat): (r: nat) { 1 }
  function Itself(n: nat): (r: nat) { n }

  // A host is counted once; updates are counted every time.
  lemma {:induction false} UpdateTotals(t: Counts, h: Host)
    requires Branches(t)
    ensures var (r, c) := Update(t, h);
            && Total(r, Itself) == Total(t, Itself) + 1
            && Total(r, One) == Total(t, One) + (if h in Contents(t) then 0 else 1)
  {
    match t
    case Nil =>
    case Node(l, k, n, r) =>
      if h != k {
        if h.addr < k.addr { UpdateTotals(l, h); } else { UpdateTotals(r, h); }
      }
  }

  // No host has two nodes.
  lemma {:induction false} OneNodePerHost(t: Counts)
    requires Branches(t)
    ensures Total(t, One) == |Contents(t)|
  {
    match t
    case Nil =>
    case Node(l, k, n, r) =>
      OneNodePerHost(l);
      OneNodePerHost(r);
      JoinCounts(Contents(l), k, n, Contents(r));
  }

  // ---------------------------------------------------------------- nodes in memory

  // A node as malloc gives it; a pointer is a position in memory, NULL is -1.
  datatype AddrNode = AddrNode(host: Host, count: nat, left: int, right: int)

  const NULL := -1

  // Which nodes hang where.
  datatype Shape = Leaf | Fork(left: Shape, at: nat, right: Shape)

  ghost function Places(s: Shape): set<nat> {
    match s
    case Leaf => {}
    case Fork(l, p, r) => {p} + Places(l) + Places(r)
  }

  // The pointer i leads to nodes linked in the shape s, none of them reached twice.
  ghost predicate Linked(mem: seq<AddrNode>, i: int, s: Shape)
    decreases s
  {
    match s
    case Leaf => i == NULL
    case Fork(l, p, r) =>
      && i == p < |mem| && Linked(mem, mem[p].left, l) && Linked(mem, mem[p].right, r)
      && p !in Places(l) && p !in Places(r) && Places(l) !! Places(r)
  }

  ghost predicate Inside(mem: seq<AddrNode>, s: Shape) {
    match s
    case Leaf => true
    case Fork(l, p, r) => p < |mem| && Inside(mem, l) && Inside(mem, r)
  }

  ghost function Denote(mem: seq<AddrNode>, s: Shape): Counts
    requires Inside(mem, s)
  {
    match s
    case Leaf => Nil
    case Fork(l, p, r) => Node(Denote(mem, l), mem[p].host, mem[p].count, Denote(mem, r))
  }

  lemma {:induction false} LinkedInside(mem: seq<AddrNode>, i: int, s: Shape)
    requires Linked(mem, i, s)
    ensures Inside(mem, s) && |mem| !in Places(s)
    decreases s
  {
    match s
    case Leaf =>
    case Fork(l, p, r) =>
      LinkedInside(mem, mem[p].left, l);
      LinkedInside(mem, mem[p].right, r);
  }

  // Writing nodes outside a shape does not disturb it.
  lemma {:induction false} LinkedFrame(mem: seq<AddrNode>, mem': seq<AddrNode>, i: int, s: Shape)
    requires Linked(mem, i, s)
    requires forall p | p in Places(s) && p < |mem| :: p < |mem'| && mem'[p] == mem[p]
    ensures Linked(mem', i, s) && Inside(mem, s) && Inside(mem', s)
    ensures Denote(mem', s) == Denote(mem, s)
    decreases s
  {
    match s
    case Leaf =>
    case Fork(l, p, r) =>
      LinkedFrame(mem, mem', mem[p].left, l);
      LinkedFrame(mem, mem', mem[p].right, r);
  }

  // The node where the search for h stops: the host itself or its future parent.
  ghost function Stop(mem: seq<AddrNode>, s: Shape, h: Host): nat
    requires s.Fork? && Inside(mem, s)
    ensures Stop(mem, s, h) in Places(s) && Stop(mem, s, h) < |mem|
  {
    var n := mem[s.at];
    var next := if h.addr < n.host.addr then s.left else s.right;
    if n.host == h || next.Leaf? then s.at else Stop(mem, next, h)
  }

  // Memory after the call: the count of the host found, or a new node linked below.
  ghost function Written(mem: seq<AddrNode>, at: nat, h: Host): seq<AddrNode>
    requires at < |mem|
  {
    var n := mem[at];
    if n.host == h then mem[at := n.(count := n.count + 1)]
    else if h.addr < n.host.addr then mem[at := n.(left := |mem|)] + [AddrNode(h, UPDATED_TREE, NULL, NULL)]
    else mem[at := n.(right := |mem|)] + [AddrNode(h, UPDATED_TREE, NULL, NULL)]
  }

  ghost function Grown(mem: seq<AddrNode>, s: Shape, h: Host): Shape
    requires Inside(mem, s)
  {
    match s
    case Leaf => Fork(Leaf, |mem|, Leaf)
    case Fork(l, p, r) =>
      if mem[p].host == h then s
      else if h.addr < mem[p].host.addr then Fork(Grown(mem, l, h), p, r)
      else Fork(l, p, Grown(mem, r, h))
  }

  lemma NewLeaf(mem: seq<AddrNode>, p: nat, h: Host)
    requires p < |mem| && mem[p] == AddrNode(h, UPDATED_TREE, NULL, NULL)
    ensures Linked(mem, p, Fork(Leaf, p, Leaf)) && Inside(mem, Fork(Leaf, p, Leaf))
    ensures Denote(mem, Fork(Leaf, p, Leaf)) == Update(Nil, h).0
  {
  }

  // The one write, wherever the search stops, turns the linked tree into the updated one.
  lemma {:induction false} WriteUpdates(mem: seq<AddrNode>, i: int, s: Shape, h: Host)
    requires Linked(mem, i, s) && s.Fork? && Inside(mem, s)
    ensures var mem', s' := Written(mem, Stop(mem, s, h), h), Grown(mem, s, h);
            && Linked(mem', i, s') && Inside(mem', s') && Places(s') <= Places(s) + {|mem|}
            && Denote(mem', s') == Update(Denote(mem, s), h).0
    decreases s
  {
    var n := mem[s.at];
    var mem' := Written(mem, Stop(mem, s, h), h);
    LinkedInside(mem, n.left, s.left);
    LinkedInside(mem, n.right, s.right);
    if n.host == h {
      LinkedFrame(mem, mem', n.left, s.left);
      LinkedFrame(mem, mem', n.right, s.right);
    } else if h.addr < n.host.addr {
      LinkedFrame(mem, mem', n.right, s.right);
      if s.left.Fork? { WriteUpdates(mem, n.left, s.left, h); } else { NewLeaf(mem', |mem|, h); }
    } else {
      LinkedFrame(mem, mem', n.left, s.left);
      if s.right.Fork? { WriteUpdates(mem, n.right, s.right, h); } else { NewLeaf(mem', |mem|, h); }
    }
  }

  lemma {:induction false} StopCounts(mem: seq<AddrNode>, s: Shape, h: Host)
    requires s.Fork? && Inside(mem, s)
    ensures var n := mem[Stop(mem, s, h)];
            Update(Denote(mem, s), h).1 == if n.host == h then n.count + 1 else UPDATED_TREE
    decreases s
  {
    var n := mem[s.at];
    var next := if h.addr < n.host.addr then s.left else s.right;
    if n.host != h && next.Fork? { StopCounts(mem, next, h); }
  }

  class AddrTree {
    var mem: seq<AddrNode>
    var root: int
    ghost var shape: Shape

    ghost predicate Valid()
      reads this
    {
      Linked(mem, root, shape) && Inside(mem, shape) && Branches(Denote(mem, shape))
    }

    ghost function View(): Counts
      requires Valid()
      reads this
    {
      Denote(mem, shape)
    }

    // The tree of a port seen for the first time.
    constructor (h: Host)
      ensures Valid() && View() == Node(Nil, h, 1, Nil)
    {
      mem, root, shape := [AddrNode(h, 1, NULL, NULL)], 0, Fork(Leaf, 0, Leaf);
      new;
      NewLeaf(mem, 0, h);
    }

    // The loop of updateIpTree: follow the links down to the host or to its future parent.
    method Descend(h: Host) returns (cur: int)
      requires Valid() && shape.Fork?
      ensures cur == Stop(mem, shape, h)
    {
      cur := root;
      ghost var sub := shape;
      while mem[cur].host != h && (if h.addr < mem[cur].host.addr then mem[cur].left else mem[cur].right) != NULL
        invariant sub.Fork? && Linked(mem, cur, sub) && Inside(mem, sub)
        invariant Stop(mem, sub, h) == Stop(mem, shape, h)
        decreases sub
      {
        if h.addr < mem[cur].host.addr {
          cur, sub := mem[cur].left, sub.left;
        } else {
          cur, sub := mem[cur].right, sub.right;
        }
      }
    }

    // Count the host found, or link a new node below its parent.
    method Write(cur: nat, h: Host) returns (count: nat)
      requires cur < |mem|
      modifies `mem
      ensures mem == Written(old(mem), cur, h)
      ensures count == var n := old(mem[cur]); if n.host == h then n.count + 1 else UPDATED_TREE
    {
      var n := mem[cur];
      if n.host == h {
        count := n.count + 1;
        mem := mem[cur := n.(count := count)];
      } else {
        count := UPDATED_TREE;
        mem := mem[cur := if h.addr < n.host.addr then n.(left := |mem|) else n.(right := |mem|)]
               + [AddrNode(h, UPDATED_TREE, NULL, NULL)];
      }
    }

    // The first node of an empty tree.
    method Plant(h: Host)
      requires Valid() && root == NULL
      modifies this
      ensures Valid() && View() == Update(old(View()), h).0
    {
      root := |mem|;
      mem := mem + [AddrNode(h, UPDATED_TREE, NULL, NULL)];
      shape := Fork(Leaf, root, Leaf);
      NewLeaf(mem, root, h);
    }

    // updateIpTree.
    method UpdateIpTree(h: Host) returns (count: nat)
      requires Valid()
      modifies this
      ensures Valid() && (View(), count) == Update(old(View()), h)
    {
      if root == NULL {
        Plant(h);
        count := UPDATED_TREE;
      } else {
        UpdateBranches(View(), h);
        var cur := Descend(h);
        WriteUpdates(mem, root, shape, h);
        StopCounts(mem, shape, h);
        shape := Grown(mem, shape, h);
        count := Write(cur, h);
      }
    }
  }
}
