// The value-level picture of the timer heap of 3rd/libuv/src/heap-inl.h:
// binary trees of node references with one-hole contexts, level-order
// positions, completeness and heap order.
module HeapShape {
  // A heap_node inside some element.  The comparator is represented by the
  // integer rank it gives to that element: less_than(a, b) is a.rank < b.rank.
  class Node {
    const rank: int
    var left: Node?
    var right: Node?
    var parent: Node?

    constructor (rank: int)
      ensures this.rank == rank && left == null && right == null && parent == null
    {
      this.rank := rank;
      left, right, parent := null, null, null;
    }
  }

  datatype Tree = Leaf | Bin(l: Tree, n: Node, r: Tree)

  // The path from a hole back to the root, innermost frame first.
  datatype Ctx = Top | InLeft(n: Node, r: Tree, up: Ctx) | InRight(l: Tree, n: Node, up: Ctx)

  ghost function Root(t: Tree): Node? { if t.Leaf? then null else t.n }

  ghost function Plug(c: Ctx, t: Tree): Tree {
    match c
    case Top => t
    case InLeft(n, r, up) => Plug(up, Bin(t, n, r))
    case InRight(l, n, up) => Plug(up, Bin(l, n, t))
  }

  // The innermost frame of c closed around s.
  ghost function Fill(c: Ctx, s: Tree): Tree
    requires c != Top
  {
    if c.InLeft? then Bin(s, c.n, c.r) else Bin(c.l, c.n, s)
  }

  ghost function Sibling(c: Ctx): Tree
    requires c != Top
  {
    if c.InLeft? then c.r else c.l
  }

  function Depth(c: Ctx): nat {
    if c == Top then 0 else 1 + Depth(c.up)
  }

  // ---------- which nodes ----------

  ghost function Nodes(t: Tree): set<Node> {
    match t
    case Leaf => {}
    case Bin(l, n, r) => Nodes(l) + {n} + Nodes(r)
  }

  ghost function CtxNodes(c: Ctx): set<Node> {
    match c
    case Top => {}
    case InLeft(n, r, up) => {n} + Nodes(r) + CtxNodes(up)
    case InRight(l, n, up) => {n} + Nodes(l) + CtxNodes(up)
  }

  ghost function All(c: Ctx, s: Tree): set<Node> { CtxNodes(c) + Nodes(s) }

  ghost predicate Distinct(t: Tree) {
    match t
    case Leaf => true
    case Bin(l, n, r) =>
      && n !in Nodes(l) && n !in Nodes(r) && Nodes(l) !! Nodes(r)
      && Distinct(l) && Distinct(r)
  }

  ghost predicate CtxDistinct(c: Ctx) {
    match c
    case Top => true
    case InLeft(n, r, up) =>
      && n !in Nodes(r) && n !in CtxNodes(up) && Nodes(r) !! CtxNodes(up)
      && Distinct(r) && CtxDistinct(up)
    case InRight(l, n, up) =>
      && n !in Nodes(l) && n !in CtxNodes(up) && Nodes(l) !! CtxNodes(up)
      && Distinct(l) && CtxDistinct(up)
  }

  ghost predicate Apart(c: Ctx, t: Tree) {
    CtxDistinct(c) && Distinct(t) && CtxNodes(c) !! Nodes(t)
  }

  lemma {:induction false} NodesPlug(c: Ctx, t: Tree)
    ensures Nodes(Plug(c, t)) == All(c, t)
  {
    if c != Top { NodesPlug(c.up, Fill(c, t)); }
  }

  lemma FillSame(c: Ctx, s: Tree)
    requires c != Top
    ensures All(c.up, Fill(c, s)) == All(c, s) && Plug(c.up, Fill(c, s)) == Plug(c, s)
  {
  }

  // ---------- level order: the children of slot p are 2p and 2p + 1 ----------

  function Pos(c: Ctx): (p: nat)
    ensures p >= 1
  {
    match c
    case Top => 1
    case InLeft(_, _, up) => 2 * Pos(up)
    case InRight(_, _, up) => 2 * Pos(up) + 1
  }

  // t, hanging at slot p, occupies exactly the slots below p that are <= n.
  ghost predicate Filled(t: Tree, p: nat, n: nat) {
    match t
    case Leaf => p > n
    case Bin(l, _, r) => p <= n && Filled(l, 2 * p, n) && Filled(r, 2 * p + 1, n)
  }

  ghost predicate CtxFilled(c: Ctx, n: nat) {
    match c
    case Top => true
    case InLeft(_, r, up) => Pos(up) <= n && Filled(r, 2 * Pos(up) + 1, n) && CtxFilled(up, n)
    case InRight(l, _, up) => Pos(up) <= n && Filled(l, 2 * Pos(up), n) && CtxFilled(up, n)
  }

  // A complete tree of n nodes: slots 1 to n in level order.
  ghost predicate Complete(t: Tree, n: nat) { Filled(t, 1, n) }

  lemma {:induction false} FilledPlug(c: Ctx, t: Tree, n: nat)
    ensures Complete(Plug(c, t), n) <==> CtxFilled(c, n) && Filled(t, Pos(c), n)
  {
    if c != Top { FilledPlug(c.up, Fill(c, t), n); }
  }

  // m is q or lies below q.
  predicate Under(q: nat, m: nat)
    decreases m
  {
    m == q || (m > q && m > 0 && Under(q, m / 2))
  }

  lemma {:induction false} UnderParent(q: nat, m: nat)
    requires q >= 1 && (Under(2 * q, m) || Under(2 * q + 1, m))
    ensures Under(q, m)
    decreases m
  {
    if m > 2 * q + 1 || (m == 2 * q + 1 && !Under(2 * q + 1, m)) {
      UnderParent(q, m / 2);
    } else {
      assert m / 2 == q;
    }
  }

  lemma {:induction false} UnderOneSide(q: nat, m: nat)
    requires q >= 1 && Under(2 * q, m)
    ensures !Under(2 * q + 1, m)
    decreases m
  {
    if m > 2 * q {
      if m / 2 == 2 * q || m / 2 > 2 * q { UnderOneSide(q, m / 2); }
    }
  }

  // A subtree that does not contain slot n + 1 looks the same for n + 1 nodes.
  lemma {:induction false} FilledGrow(t: Tree, p: nat, n: nat)
    requires p >= 1 && !Under(p, n + 1)
    ensures Filled(t, p, n) <==> Filled(t, p, n + 1)
    decreases t
  {
    if t.Bin? {
      if Under(2 * p, n + 1) || Under(2 * p + 1, n + 1) { UnderParent(p, n + 1); }
      FilledGrow(t.l, 2 * p, n);
      FilledGrow(t.r, 2 * p + 1, n);
    }
  }

  lemma {:induction false} CtxGrow(c: Ctx, n: nat)
    requires Under(Pos(c), n + 1) && Pos(c) <= n + 1
    ensures c != Top ==> (Pos(c.up) <= n)
    ensures CtxFilled(c, n) <==> CtxFilled(c, n + 1)
    decreases c
  {
    if c != Top {
      UnderParent(Pos(c.up), n + 1);
      CtxGrow(c.up, n);
      if c.InLeft? {
        UnderOneSide(Pos(c.up), n + 1);
        FilledGrow(c.r, Pos(c) + 1, n);
      } else {
        if Under(Pos(c) - 1, n + 1) { UnderOneSide(Pos(c.up), n + 1); }
        FilledGrow(c.l, Pos(c) - 1, n);
      }
    }
  }

  // ---------- counting ----------

  ghost function Size(t: Tree): nat {
    match t
    case Leaf => 0
    case Bin(l, _, r) => Size(l) + 1 + Size(r)
  }

  // How many slots <= n lie below slot p.
  function Slots(p: nat, n: nat): nat
    decreases if p <= n then n - p + 1 else 0
  {
    if p == 0 || p > n then 0 else 1 + Slots(2 * p, n) + Slots(2 * p + 1, n)
  }

  lemma {:induction false} SizeSlots(t: Tree, p: nat, n: nat)
    requires p >= 1 && Filled(t, p, n)
    ensures Size(t) == Slots(p, n)
    decreases t
  {
    if t.Bin? {
      SizeSlots(t.l, 2 * p, n);
      SizeSlots(t.r, 2 * p + 1, n);
    }
  }

  lemma {:induction false} SlotsGrow(p: nat, n: nat)
    requires p >= 1
    ensures Slots(p, n + 1) == Slots(p, n) + (if Under(p, n + 1) then 1 else 0)
    decreases if p <= n + 1 then n + 2 - p else 0
  {
    if p <= n {
      SlotsGrow(2 * p, n);
      SlotsGrow(2 * p + 1, n);
      if Under(2 * p, n + 1) { UnderOneSide(p, n + 1); UnderParent(p, n + 1); }
      if Under(2 * p + 1, n + 1) { UnderParent(p, n + 1); }
      if Under(p, n + 1) { UnderSplit(p, n + 1); }
    } else if p == n + 1 {
      assert Slots(2 * p, n + 1) == 0 && Slots(2 * p + 1, n + 1) == 0;
    }
  }

  lemma {:induction false} UnderSplit(q: nat, m: nat)
    requires q >= 1 && Under(q, m) && m != q
    ensures Under(2 * q, m) || Under(2 * q + 1, m)
    decreases m
  {
    if m / 2 != q { UnderSplit(q, m / 2); }
  }

  lemma {:induction false} EverythingUnderRoot(m: nat)
    requires m >= 1
    ensures Under(1, m)
  {
    if m > 1 { EverythingUnderRoot(m / 2); }
  }

  lemma {:induction false} SlotsOfRoot(n: nat)
    ensures Slots(1, n) == n
  {
    if n > 0 {
      SlotsOfRoot(n - 1);
      SlotsGrow(1, n - 1);
      EverythingUnderRoot(n);
    }
  }

  // A complete tree for n has exactly n nodes.
  lemma CompleteSize(t: Tree, n: nat)
    requires Complete(t, n)
    ensures Size(t) == n
  {
    SizeSlots(t, 1, n);
    SlotsOfRoot(n);
  }

  lemma {:induction false} DistinctSize(t: Tree)
    requires Distinct(t)
    ensures |Nodes(t)| == Size(t)
  {
    if t.Bin? {
      DistinctSize(t.l);
      DistinctSize(t.r);
      assert |Nodes(t.l) + {t.n}| == |Nodes(t.l)| + 1;
      assert (Nodes(t.l) + {t.n}) !! Nodes(t.r);
    }
  }

  // ---------- heap order ----------

  // The root of t, if any, is not less than k.
  ghost predicate AtLeast(t: Tree, k: int) { t.Leaf? || k <= t.n.rank }

  ghost predicate Ordered(t: Tree) {
    match t
    case Leaf => true
    case Bin(l, n, r) => AtLeast(l, n.rank) && AtLeast(r, n.rank) && Ordered(l) && Ordered(r)
  }

  // Rank k may stand in the hole as far as the frame above is concerned.
  ghost predicate Fits(c: Ctx, k: int) { c == Top || c.n.rank <= k }

  // All order laws of the context that do not involve the hole.
  ghost predicate CtxOrdered(c: Ctx) {
    c == Top || (AtLeast(Sibling(c), c.n.rank) && Ordered(Sibling(c)) && Fits(c.up, c.n.rank) && CtxOrdered(c.up))
  }

  ghost predicate FitsTree(c: Ctx, t: Tree) { t.Leaf? || Fits(c, t.n.rank) }

  lemma {:induction false} OrderedPlug(c: Ctx, t: Tree)
    ensures Ordered(Plug(c, t)) <==> CtxOrdered(c) && Ordered(t) && FitsTree(c, t)
  {
    if c != Top { OrderedPlug(c.up, Fill(c, t)); }
  }

  lemma {:induction false} RootIsLeast(t: Tree, m: Node)
    requires Ordered(t) && m in Nodes(t)
    ensures t.Bin? && t.n.rank <= m.rank
  {
    if m in Nodes(t.l) { RootIsLeast(t.l, m); }
    if m in Nodes(t.r) { RootIsLeast(t.r, m); }
  }

  // Only the node at s may be wrong, and only because it is too small.
  ghost predicate Rising(c: Ctx, s: Tree) {
    s.Bin? && Ordered(s) && CtxOrdered(c) && FitsTree(c, s.l) && FitsTree(c, s.r)
  }

  // Only the node at s may be wrong, in either direction.
  ghost predicate Sinking(c: Ctx, s: Tree) {
    s.Bin? && Ordered(s.l) && Ordered(s.r) && CtxOrdered(c) && FitsTree(c, s.l) && FitsTree(c, s.r)
  }

  // The node of s changes places with the node of its parent frame.
  ghost function Swapped(c: Ctx, s: Tree): Tree
    requires c != Top && s.Bin?
  {
    var low := Bin(s.l, c.n, s.r);
    if c.InLeft? then Bin(low, s.n, c.r) else Bin(c.l, s.n, low)
  }

  lemma RiseKeeps(c: Ctx, s: Tree)
    requires Rising(c, s) && c != Top && s.n.rank < c.n.rank
    ensures Rising(c.up, Swapped(c, s))
  {
  }

  lemma RisenOrdered(c: Ctx, s: Tree)
    requires Rising(c, s) && (c == Top || c.n.rank <= s.n.rank)
    ensures Ordered(Plug(c, s))
  {
    OrderedPlug(c, s);
  }

  lemma SunkOrdered(c: Ctx, s: Tree)
    requires Sinking(c, s) && AtLeast(s.l, s.n.rank) && AtLeast(s.r, s.n.rank)
    ensures Rising(c, s)
  {
  }

  // The smaller child comes up, the node of s goes down in its place.
  lemma SinkKeeps(c: Ctx, s: Tree, left: bool)
    requires Sinking(c, s) && (if left then s.l.Bin? else s.r.Bin?)
    requires var k := (if left then s.l else s.r).n.rank; k < s.n.rank && AtLeast(s.l, k) && AtLeast(s.r, k)
    ensures var x := if left then s.l else s.r;
            var low := Bin(x.l, s.n, x.r);
            Sinking(if left then InLeft(x.n, s.r, c) else InRight(s.l, x.n, c), low) && Size(low) < Size(s)
  {
  }

  lemma SwapSameNodes(c: Ctx, s: Tree)
    requires c != Top && s.Bin?
    ensures All(c.up, Swapped(c, s)) == All(c, s)
  {
    var low := Bin(s.l, c.n, s.r);
    assert Nodes(s) == Nodes(s.l) + {s.n} + Nodes(s.r);
    assert Nodes(low) == Nodes(s.l) + {c.n} + Nodes(s.r);
    assert Nodes(Swapped(c, s)) == Nodes(low) + {s.n} + Nodes(Sibling(c));
    assert CtxNodes(c) == {c.n} + Nodes(Sibling(c)) + CtxNodes(c.up);
  }

  lemma SwapShape(c: Ctx, s: Tree, n: nat)
    requires c != Top && s.Bin?
    ensures Complete(Plug(c.up, Swapped(c, s)), n) == Complete(Plug(c, s), n)
  {
    hide Plug, Complete;
    FilledPlug(c, s, n);
    FilledPlug(c.up, Swapped(c, s), n);
    assert Filled(Bin(s.l, c.n, s.r), Pos(c), n) == Filled(s, Pos(c), n);
  }

  // ---------- the two ends of the last level ----------

  // The slot after the last one is empty, and taking it keeps the tree complete.
  lemma FreeSlot(c: Ctx, s: Tree, n: nat, e: Node)
    requires Complete(Plug(c, s), n) && Ordered(Plug(c, s)) && Pos(c) == n + 1
    ensures s == Leaf && Nodes(s) == {} && Complete(Plug(c, Bin(Leaf, e, Leaf)), n + 1)
    ensures Rising(c, Bin(Leaf, e, Leaf)) && Nodes(Bin(Leaf, e, Leaf)) == {e}
  {
    FilledPlug(c, s, n);
    CtxGrow(c, n);
    FilledPlug(c, Bin(Leaf, e, Leaf), n + 1);
    OrderedPlug(c, s);
  }

  // The last slot holds a leaf node, and emptying it keeps the tree complete.
  lemma LastSlot(c: Ctx, s: Tree, n: nat)
    requires Complete(Plug(c, s), n) && Ordered(Plug(c, s)) && Pos(c) == n && n >= 1
    ensures s.Bin? && s == Bin(Leaf, s.n, Leaf)
    ensures Complete(Plug(c, Leaf), n - 1) && Ordered(Plug(c, Leaf))
  {
    FilledPlug(c, s, n);
    CtxGrow(c, n - 1);
    FilledPlug(c, Leaf, n - 1);
    OrderedPlug(c, s);
    OrderedPlug(c, Leaf);
  }

  lemma LastNodes(c: Ctx, s: Tree)
    requires s.Bin? && s == Bin(Leaf, s.n, Leaf)
    ensures All(c, s) == All(c, Leaf) + {s.n}
  {
  }

  lemma PlugTop(t: Tree)
    ensures Plug(Top, t) == t
  {
  }

  // Another node in the place of s.n can only be wrong there.
  lemma ReplaceLaws(c: Ctx, s: Tree, e: Node, n: nat)
    requires s.Bin? && Ordered(Plug(c, s)) && Complete(Plug(c, s), n)
    ensures Sinking(c, s.(n := e)) && Complete(Plug(c, s.(n := e)), n)
  {
    OrderedPlug(c, s);
    FilledPlug(c, s, n);
    FilledPlug(c, s.(n := e), n);
  }

  lemma ReplaceNodes(c: Ctx, s: Tree, e: Node)
    requires s.Bin? && Apart(c, s) && e !in All(c, s)
    ensures All(c, s.(n := e)) == All(c, s) - {s.n} + {e}
  {
    assert Nodes(s) == Nodes(s.l) + {s.n} + Nodes(s.r);
    assert Nodes(s.(n := e)) == Nodes(s.l) + {e} + Nodes(s.r);
  }

  // ---------- finding a node ----------

  lemma {:induction false} LocateIn(c0: Ctx, t: Tree, e: Node) returns (c: Ctx, s: Tree)
    requires e in Nodes(t)
    ensures s.Bin? && s.n == e && Plug(c, s) == Plug(c0, t)
    decreases t
  {
    if e == t.n {
      c, s := c0, t;
    } else if e in Nodes(t.l) {
      c, s := LocateIn(InLeft(t.n, t.r, c0), t.l, e);
    } else {
      c, s := LocateIn(InRight(t.l, t.n, c0), t.r, e);
    }
  }
}
