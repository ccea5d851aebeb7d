// The pointer algorithms of 3rd/libuv/src/heap-inl.h.
module TimerHeap {
  import opened HeapShape

  const UINT_MAX: nat := 0xFFFF_FFFF

  // The links at and below n, whose parent pointer must be p, spell t.
  ghost predicate Sub(t: Tree, n: Node?, p: Node?)
    reads Nodes(t)
  {
    match t
    case Leaf => n == null
    case Bin(l, x, r) => n == x && x.parent == p && Sub(l, x.left, x) && Sub(r, x.right, x)
  }

  ghost function Opt(n: Node?): set<Node> { if n == null then {} else {n} }

  function LessThan(a: Node, b: Node): bool { a.rank < b.rank }

  // m with its last k binary digits dropped.
  function Shift(m: nat, k: nat): nat {
    if k == 0 then m else Shift(m, k - 1) / 2
  }

  // The last k binary digits of m, in reverse order.
  function Path(m: nat, k: nat): nat {
    if k == 0 then 0 else 2 * Path(m, k - 1) + Shift(m, k - 1) % 2
  }

  lemma {:induction false} ShiftSmaller(m: nat, k: nat)
    requires k > 0 && m > 0
    ensures Shift(m, k) < m
  {
    if k > 1 { ShiftSmaller(m, k - 1); }
  }

  function Product(a: nat, b: nat): nat { a * b }

  lemma OneTimes(n: nat)
    ensures Product(1, n) == n
  {
  }

  lemma Halve(scale: nat, n: nat)
    requires n >= 2
    ensures 2 * scale <= Product(2 * scale, n / 2) <= Product(scale, n)
  {
    hide Product;
    var h, b := n / 2, n % 2;
    assert n == 2 * h + b;
    Distribute(scale, h, b);
    TimesPositive(2 * scale, h);
  }

  lemma Distribute(a: nat, h: nat, b: nat)
    ensures Product(a, 2 * h + b) == Product(2 * a, h) + Product(a, b)
  {
  }

  lemma TimesPositive(a: nat, h: nat)
    requires h >= 1
    ensures a <= Product(a, h)
  {
  }

  // The path from the root to slot m: k steps, first step in the lowest bit.
  method PathTo(m: nat) returns (path: nat, k: nat)
    requires 1 <= m <= UINT_MAX
    ensures Shift(m, k) == 1 && path == Path(m, k)
  {
    hide Product;
    path, k := 0, 0;
    var n := m;
    ghost var scale := 1;
    OneTimes(m);
    while n >= 2
      invariant n == Shift(m, k) && n >= 1 && path == Path(m, k)
      invariant path < scale <= Product(scale, n) <= m
    {
      Halve(scale, n);
      path := (path * 2) % (UINT_MAX + 1) + n % 2;
      scale := 2 * scale;
      k := k + 1;
      n := n / 2;
    }
  }

  class Heap {
    var min: Node?
    var nelts: nat
    ghost var tree: Tree

    // heap_init
    constructor ()
      ensures Valid() && tree == Leaf && nelts == 0
    {
      min, nelts, tree := null, 0, Leaf;
    }

    // The links from heap->min down to the hole spell c; the hole is reached by
    // a pointer holding n, and p is the node that holds it.
    ghost predicate Above(c: Ctx, n: Node?, p: Node?)
      reads this`min, CtxNodes(c)
    {
      match c
      case Top => min == n && p == null
      case InLeft(x, r, up) => p == x && x.left == n && Sub(r, x.right, x) && Above(up, x, x.parent)
      case InRight(l, x, up) => p == x && x.right == n && Sub(l, x.left, x) && Above(up, x, x.parent)
    }

    // The whole structure, seen from the subtree s at n.
    ghost predicate At(c: Ctx, s: Tree, n: Node?, p: Node?)
      reads this`min, CtxNodes(c), Nodes(s)
    {
      Apart(c, s) && Above(c, n, p) && Sub(s, n, p)
    }

    ghost predicate Shape(t: Tree)
      reads this`min, Nodes(t)
    {
      Distinct(t) && Sub(t, min, null)
    }

    ghost predicate Valid()
      reads this, Nodes(tree)
    {
      Shape(tree) && Complete(tree, nelts) && Ordered(tree) && nelts <= UINT_MAX
    }

    // ---------- moving the focus ----------

    lemma {:induction false} AtWhole(c: Ctx, s: Tree, n: Node?, p: Node?)
      requires At(c, s, n, p)
      ensures Nodes(Plug(c, s)) == All(c, s) && Shape(Plug(c, s))
      decreases c
    {
      NodesPlug(c, s);
      if c != Top {
        Rise(c, s, n, p);
        AtWhole(c.up, Fill(c, s), p, p.parent);
      }
    }

    lemma {:induction false} WholeAt(c: Ctx, s: Tree) returns (n: Node?, p: Node?)
      requires Nodes(Plug(c, s)) == All(c, s) && Shape(Plug(c, s))
      ensures At(c, s, n, p)
      decreases c
    {
      if c == Top {
        n, p := min, null;
      } else {
        FillSame(c, s);
        var n', p' := WholeAt(c.up, Fill(c, s));
        n, p := if c.InLeft? then c.n.left else c.n.right, c.n;
      }
    }

    lemma Rise(c: Ctx, s: Tree, n: Node?, p: Node?)
      requires c != Top && At(c, s, n, p)
      ensures p == c.n && At(c.up, Fill(c, s), p, p.parent) && All(c.up, Fill(c, s)) == All(c, s)
    {
      FillSame(c, s);
      assert Distinct(Fill(c, s));
    }

    lemma DescendLeft(c: Ctx, s: Tree, n: Node?, p: Node?)
      requires s.Bin? && At(c, s, n, p)
      ensures n == s.n && n.left == Root(s.l) && At(InLeft(s.n, s.r, c), s.l, n.left, n)
      ensures All(InLeft(s.n, s.r, c), s.l) == All(c, s)
    {
      assert Sub(s.l, n.left, n);
    }

    lemma DescendRight(c: Ctx, s: Tree, n: Node?, p: Node?)
      requires s.Bin? && At(c, s, n, p)
      ensures n == s.n && n.right == Root(s.r) && At(InRight(s.l, s.n, c), s.r, n.right, n)
      ensures All(InRight(s.l, s.n, c), s.r) == All(c, s)
    {
      assert Sub(s.r, n.right, n);
    }

    // What the pointers at the hole say about its context.
    lemma AtHole(c: Ctx, s: Tree, n: Node?, p: Node?)
      requires At(c, s, n, p)
      ensures n == Root(s) && (s.Bin? ==> n.parent == p && n in All(c, s))
      ensures p == null <==> c == Top
      ensures c != Top ==> p == c.n && p != n && p in All(c, s)
      ensures c.InLeft? ==> p.left == n
      ensures c.InRight? ==> p.right == n && (n != null ==> p.left != n)
    {
    }

    lemma Links(c: Ctx, s: Tree, n: Node)
      requires s.Bin? && At(c, s, n, n.parent)
      ensures n == s.n && n.left == Root(s.l) && n.right == Root(s.r)
    {
      assert Sub(s.l, n.left, n) && Sub(s.r, n.right, n);
    }

    // ---------- elementary link changes ----------

    // The pointer that led from p (or heap->min) to n now leads to m.
    method ReplaceChild(p: Node?, n: Node, m: Node?, ghost c: Ctx)
      requires CtxDistinct(c) && Above(c, n, p) && n !in CtxNodes(c)
      modifies this`min, Opt(p)`left, Opt(p)`right
      ensures Above(c, m, p)
    {
      if p == null {
        min := m;
      } else if p.left == n {
        p.left := m;
      } else {
        p.right := m;
      }
    }

    // The root of t, if there is one, gets p as its parent.
    method Adopt(n: Node?, p: Node?, ghost q: Node?, ghost t: Tree)
      requires Sub(t, n, q) && Distinct(t)
      modifies Opt(n)`parent
      ensures Sub(t, n, p)
    {
      if n != null {
        n.parent := p;
      }
    }

    // The separate pieces around a node and its parent.
    ghost predicate Pieces(parent: Node, child: Node, c: Ctx, l: Tree, r: Tree, sib: Tree)
    {
      && parent != child && CtxDistinct(c) && Distinct(l) && Distinct(r) && Distinct(sib)
      && Nodes(l) !! Nodes(r) && Nodes(l) !! Nodes(sib) && Nodes(r) !! Nodes(sib)
      && CtxNodes(c) !! Nodes(l) && CtxNodes(c) !! Nodes(r) && CtxNodes(c) !! Nodes(sib)
      && {parent, child} !! CtxNodes(c) && {parent, child} !! Nodes(l)
      && {parent, child} !! Nodes(r) && {parent, child} !! Nodes(sib)
    }

    lemma Unpack(parent: Node, child: Node, c: Ctx, s: Tree)
      requires c != Top && s.Bin? && At(c, s, child, parent)
      ensures Pieces(parent, child, c.up, s.l, s.r, Sibling(c)) && child.parent == parent && parent == c.n
      ensures Above(c.up, parent, parent.parent) && Opt(parent.parent) <= CtxNodes(c.up)
      ensures Sub(s.l, child.left, child) && Opt(child.left) <= Nodes(s.l)
      ensures Sub(s.r, child.right, child) && Opt(child.right) <= Nodes(s.r)
      ensures c.InLeft? ==> parent.left == child && Sub(c.r, parent.right, parent) && Opt(parent.right) <= Nodes(c.r)
      ensures c.InRight? ==>
                parent.right == child && parent.left != child && Sub(c.l, parent.left, parent)
                  && Opt(parent.left) <= Nodes(c.l)
      ensures {parent, child} + Nodes(s.l) + Nodes(s.r) + Nodes(Sibling(c)) + CtxNodes(c.up) == All(c, s)
    {
      assert Nodes(s) == Nodes(s.l) + {child} + Nodes(s.r);
      assert Sub(s.l, child.left, child) && Sub(s.r, child.right, child);
      AtHole(c, s, child, parent);
      Rise(c, s, child, parent);
      AtHole(c.up, Fill(c, s), parent, parent.parent);
      assert Opt(parent.parent) <= CtxNodes(c.up);
    }

    lemma Pack(parent: Node, child: Node, c: Ctx, s: Tree)
      requires c != Top && s.Bin? && Pieces(parent, child, c.up, s.l, s.r, Sibling(c)) && child == s.n && parent == c.n
      requires Above(c.up, child, child.parent) && parent.parent == child
      requires Sub(s.l, parent.left, parent) && Sub(s.r, parent.right, parent)
      requires c.InLeft? ==> child.left == parent && Sub(c.r, child.right, child)
      requires c.InRight? ==> child.right == parent && Sub(c.l, child.left, child)
      ensures At(c.up, Swapped(c, s), child, child.parent)
    {
      ghost var low := Bin(s.l, parent, s.r);
      assert Distinct(low) && Nodes(low) == Nodes(s.l) + {parent} + Nodes(s.r);
      assert Sub(low, parent, child);
    }

    // heap_node_swap
    method SwapNodes(parent: Node, child: Node, ghost c: Ctx, ghost s: Tree)
      requires c != Top && s.Bin? && At(c, s, child, parent)
      modifies this`min, All(c, s)
      ensures At(c.up, Swapped(c, s), child, child.parent)
    {
      hide Sub, Above, Nodes, CtxNodes, Distinct, CtxDistinct, Pieces, At;
      Unpack(parent, child, c, s);
      AtHole(c, s, child, parent);
      ghost var l, r, sib, up := s.l, s.r, Sibling(c), c.up;
      assert allocated(Nodes(l)) && allocated(Nodes(r)) && allocated(Nodes(sib)) && allocated(CtxNodes(up));
      var sibling := SwapFields(parent, child, c.InLeft?, up, l, r, sib);
      Reconnect(parent, child, sibling, up, l, r, sib);
      Pack(parent, child, c, s);
    }

    // The two structs trade contents; then child takes parent as its own child.
    method SwapFields(parent: Node, child: Node, ghost left: bool, ghost c: Ctx, ghost l: Tree, ghost r: Tree,
        ghost sib: Tree)
      returns (sibling: Node?)
      requires Pieces(parent, child, c, l, r, sib) && child.parent == parent && Above(c, parent, parent.parent)
      requires Sub(l, child.left, child) && Sub(r, child.right, child)
      requires if left then parent.left == child && Sub(sib, parent.right, parent)
                       else parent.right == child && parent.left != child && Sub(sib, parent.left, parent)
      modifies parent, child
      ensures parent.left == old(child.left) && parent.right == old(child.right) && parent.parent == child
      ensures child.parent == old(parent.parent)
      ensures sibling == if left then old(parent.right) else old(parent.left)
      ensures if left then child.left == parent && child.right == sibling else
              child.right == parent
              && child.left == sibling
      ensures Above(c, parent, child.parent) && Sub(l, parent.left, child) && Sub(r, parent.right, child)
              && Sub(sib, sibling, parent)
    {
      hide Sub, Above, Nodes, CtxNodes, Distinct, CtxDistinct;
      parent.left, parent.right, parent.parent, child.left, child.right, child.parent :=
        child.left, child.right, child.parent, parent.left, parent.right, parent.parent;
      parent.parent := child;
      if child.left == child {
        child.left := parent;
        sibling := child.right;
      } else {
        child.right := parent;
        sibling := child.left;
      }
    }

    // The neighbours learn about the exchange.
    method Reconnect(parent: Node, child: Node, sibling: Node?, ghost c: Ctx, ghost l: Tree, ghost r: Tree,
        ghost sib: Tree)
      requires Pieces(parent, child, c, l, r, sib) && Above(c, parent, child.parent)
      requires Sub(l, parent.left, child) && Sub(r, parent.right, child) && Sub(sib, sibling, parent)
      requires Opt(parent.left) <= Nodes(l) && Opt(parent.right) <= Nodes(r) && Opt(sibling) <= Nodes(sib)
      requires Opt(child.parent) <= CtxNodes(c)
      modifies this`min, Opt(parent.left)`parent, Opt(parent.right)`parent, Opt(sibling)`parent
      modifies Opt(child.parent)`left, Opt(child.parent)`right
      ensures Above(c, child, child.parent)
      ensures Sub(l, parent.left, parent) && Sub(r, parent.right, parent) && Sub(sib, sibling, child)
    {
      hide Sub, Above, Nodes, CtxNodes, Distinct, CtxDistinct;
      assert allocated(Nodes(l)) && allocated(Nodes(r)) && allocated(Nodes(sib)) && allocated(CtxNodes(c));
      Adopt(sibling, child, parent, sib);
      Adopt(parent.left, parent, child, l);
      Adopt(parent.right, parent, child, r);
      ReplaceChild(child.parent, parent, child, c);
    }

    // ---------- walking to a slot ----------

    // Follow the path bits down from heap->min: slot is the pointer found at
    // level-order slot m, owner and right say where that pointer is stored.
    method Walk(path0: nat, k0: nat, ghost m: nat)
      returns (slot: Node?, owner: Node?, right: bool, ghost c: Ctx, ghost s: Tree)
      requires Valid() && 1 <= m <= nelts + 1 && Shift(m, k0) == 1 && path0 == Path(m, k0)
      ensures At(c, s, slot, owner) && Plug(c, s) == tree && All(c, s) == Nodes(tree) && Pos(c) == m
      ensures c.InLeft? ==> !right
      ensures c.InRight? ==> right
    {
      hide Sub, Above, Nodes, CtxNodes, Distinct, CtxDistinct, Apart, Plug, Ordered;
      var path, k := path0, k0;
      slot, owner, right := min, null, false;
      c, s := Top, tree;
      FromRoot();
      while k > 0
        invariant At(c, s, slot, owner) && Plug(c, s) == tree && All(c, s) == Nodes(tree)
        invariant Pos(c) == Shift(m, k) && path == Path(m, k) && Filled(s, Pos(c), nelts)
        invariant (c.InLeft? ==> !right) && (c.InRight? ==> right)
      {
        ShiftSmaller(m, k);
        assert Shift(m, k - 1) == 2 * Shift(m, k) + path % 2;
        AtHole(c, s, slot, owner);
        owner := slot;
        right := path % 2 == 1;
        if right {
          DescendRight(c, s, slot, slot.parent);
          FillSame(InRight(s.l, s.n, c), s.r);
          slot := slot.right;
          c, s := InRight(s.l, s.n, c), s.r;
        } else {
          DescendLeft(c, s, slot, slot.parent);
          FillSame(InLeft(s.n, s.r, c), s.l);
          slot := slot.left;
          c, s := InLeft(s.n, s.r, c), s.l;
        }
        path := path / 2;
        k := k - 1;
      }
    }

    lemma FromRoot()
      requires Valid()
      ensures At(Top, tree, min, null) && Plug(Top, tree) == tree && All(Top, tree) == Nodes(tree)
    {
    }

    // *slot = m
    method SetSlot(owner: Node?, right: bool, m: Node?, ghost n: Node?, ghost c: Ctx)
      requires CtxDistinct(c) && Above(c, n, owner) && (c.InLeft? ==> !right) && (c.InRight? ==> right)
      modifies this`min, Opt(owner)`left, Opt(owner)`right
      ensures Above(c, m, owner)
    {
      if owner == null {
        min := m;
      } else if right {
        owner.right := m;
      } else {
        owner.left := m;
      }
    }

    // ---------- sifting ----------

    method SiftUp(node: Node, ghost c0: Ctx, ghost s0: Tree, ghost n: nat)
      requires At(c0, s0, node, node.parent) && Rising(c0, s0) && Complete(Plug(c0, s0), n)
      modifies this`min, this`tree, All(c0, s0)
      ensures Shape(tree) && Ordered(tree) && Complete(tree, n) && Nodes(tree) == All(c0, s0)
    {
      hide Sub, Above, Nodes, CtxNodes, Distinct, CtxDistinct, Apart, Plug, Ordered, CtxOrdered, Complete;
      ghost var c, s := c0, s0;
      AtHole(c, s, node, node.parent);
      while node.parent != null && LessThan(node, node.parent)
        invariant At(c, s, node, node.parent) && s.Bin? && node == s.n && (node.parent == null <==> c == Top)
        invariant c != Top ==> node.parent == c.n
        invariant Rising(c, s) && Complete(Plug(c, s), n) && All(c, s) == All(c0, s0)
        decreases Depth(c)
      {
        RiseKeeps(c, s);
        SwapSameNodes(c, s);
        SwapShape(c, s, n);
        SwapNodes(node.parent, node, c, s);
        c, s := c.up, Swapped(c, s);
        AtHole(c, s, node, node.parent);
      }
      RisenOrdered(c, s);
      AtWhole(c, s, node, node.parent);
      tree := Plug(c, s);
    }

    method SiftDown(child: Node, ghost c0: Ctx, ghost s0: Tree, ghost n: nat) returns (ghost c: Ctx, ghost s: Tree)
      requires At(c0, s0, child, child.parent) && Sinking(c0, s0) && Complete(Plug(c0, s0), n)
      modifies this`min, All(c0, s0)
      ensures At(c, s, child, child.parent) && Rising(c, s) && Complete(Plug(c, s), n) && All(c, s) == All(c0, s0)
    {
      hide Sub, Above, Nodes, CtxNodes, Distinct, CtxDistinct, Apart, Plug, Ordered, CtxOrdered, Complete;
      c, s := c0, s0;
      AtHole(c, s, child, child.parent);
      while true
        invariant At(c, s, child, child.parent) && s.Bin? && child == s.n
        invariant Sinking(c, s) && Complete(Plug(c, s), n) && All(c, s) == All(c0, s0)
        decreases Size(s)
      {
        Links(c, s, child);
        var smallest := child;
        if child.left != null && LessThan(child.left, smallest) {
          smallest := child.left;
        }
        if child.right != null && LessThan(child.right, smallest) {
          smallest := child.right;
        }
        if smallest == child {
          SunkOrdered(c, s);
          break;
        }
        ghost var left := smallest == Root(s.l) && (s.r.Leaf? || smallest != s.r.n);
        ghost var down, low := if left then InLeft(s.n, s.r, c) else InRight(s.l, s.n, c), if left then s.l else s.r;
        if left { DescendLeft(c, s, child, child.parent); } else { DescendRight(c, s, child, child.parent); }
        AtHole(down, low, smallest, child);
        FillSame(down, low);
        SwapSameNodes(down, low);
        SwapShape(down, low, n);
        SinkKeeps(c, s, left);
        SwapNodes(child, smallest, down, low);
        ghost var top := Swapped(down, low);
        if left {
          DescendLeft(c, top, smallest, smallest.parent);
        } else {
          DescendRight(c, top, smallest, smallest.parent);
        }
        c, s := if left then InLeft(top.n, top.r, c) else InRight(top.l, top.n, c), Bin(low.l, child, low.r);
        FillSame(c, s);
        AtHole(c, s, child, smallest);
      }
    }

    // ---------- heap_insert ----------

    method Insert(newnode: Node)
      requires Valid() && newnode !in Nodes(tree) && nelts < UINT_MAX
      modifies this, Nodes(tree), newnode
      ensures Valid() && nelts == old(nelts) + 1
      ensures Nodes(tree) == old(Nodes(tree)) + {newnode}
    {
      hide Sub, Above, Nodes, CtxNodes, Distinct, CtxDistinct, Apart, Plug, Ordered, CtxOrdered, Complete, CtxFilled,
           Filled;
      assert allocated(Nodes(tree));
      newnode.left, newnode.right, newnode.parent := null, null, null;
      var path, k := PathTo(1 + nelts);
      var slot, owner, right;
      ghost var c, s;
      slot, owner, right, c, s := Walk(path, k, 1 + nelts);
      FreeSlot(c, s, nelts, newnode);
      AtHole(c, s, slot, owner);
      ghost var leaf := Bin(Leaf, newnode, Leaf);
      Place(newnode, owner, right, c);
      nelts := nelts + 1;
      SiftUp(newnode, c, leaf, nelts);
    }

    // *child = newnode, newnode->parent = *parent
    method Place(newnode: Node, owner: Node?, right: bool, ghost c: Ctx)
      requires At(c, Leaf, null, owner) && newnode !in CtxNodes(c) && newnode.left == newnode.right == null
      requires (c.InLeft? ==> !right) && (c.InRight? ==> right)
      modifies this`min, newnode`parent, Opt(owner)`left, Opt(owner)`right
      ensures At(c, Bin(Leaf, newnode, Leaf), newnode, owner) && newnode.parent == owner
    {
      AtHole(c, Leaf, null, owner);
      assert owner != null ==> owner in CtxNodes(c);
      assert allocated(CtxNodes(c));
      newnode.parent := owner;
      SetSlot(owner, right, newnode, null, c);
    }

    // ---------- heap_remove ----------

    method Remove(node: Node)
      requires Valid() && (nelts > 0 ==> node in Nodes(tree))
      modifies this, Nodes(tree)
      ensures Valid() && nelts == (if old(nelts) == 0 then 0 else old(nelts) - 1)
      ensures Nodes(tree) == old(Nodes(tree)) - {node}
    {
      hide Sub, Above, Nodes, CtxNodes, Distinct, CtxDistinct, Apart, Plug, Ordered, CtxOrdered, Complete, CtxFilled,
           Filled;
      if nelts == 0 {
        EmptyHeap();
        return;
      }
      assert allocated(Nodes(tree));
      var path, k := PathTo(nelts);
      var child, owner, right;
      ghost var c, s;
      child, owner, right, c, s := Walk(path, k, nelts);
      LastSlot(c, s, nelts);
      AtHole(c, s, child, owner);
      nelts := nelts - 1;
      Unlink(child, owner, right, c, s);
      LastNodes(c, s);
      if child == node {
        // The source clears heap->min here if it still points to child; Unlink
        // has already done that when child was the root.
        assert child != min;
        AtWhole(c, Leaf, null, owner);
        tree := Plug(c, Leaf);
        return;
      }
      Replace(node, child, c);
    }

    // *max = NULL
    method Unlink(child: Node, owner: Node?, right: bool, ghost c: Ctx, ghost s: Tree)
      requires At(c, s, child, owner) && s == Bin(Leaf, child, Leaf) && (c.InLeft? ==> !right) && (c.InRight? ==> right)
      modifies this`min, Opt(owner)`left, Opt(owner)`right
      ensures At(c, Leaf, null, owner) && child !in All(c, Leaf) && min != child
    {
      AtHole(c, s, child, owner);
      assert owner != null ==> owner in CtxNodes(c);
      assert allocated(CtxNodes(c));
      SetSlot(owner, right, null, child, c);
      MinAbove(c, null, owner);
    }

    lemma {:induction false} MinAbove(c: Ctx, n: Node?, p: Node?)
      requires Above(c, n, p)
      ensures if c == Top then min == n else min in CtxNodes(c)
      decreases c
    {
      if c != Top { MinAbove(c.up, p, p.parent); }
    }

    // The unlinked last node takes the place of the removed one.
    method Replace(node: Node, child: Node, ghost c: Ctx)
      requires exists o :: At(c, Leaf, null, o)
      requires Ordered(Plug(c, Leaf)) && Complete(Plug(c, Leaf), nelts)
      requires node in All(c, Leaf) && child !in All(c, Leaf) && nelts <= UINT_MAX
      modifies this`min, this`tree, All(c, Leaf), child
      ensures Valid() && Nodes(tree) == All(c, Leaf) - {node} + {child}
    {
      hide Sub, Above, Nodes, CtxNodes, Distinct, CtxDistinct, Apart, Plug, Ordered, CtxOrdered, Complete, CtxFilled,
           Filled;
      ghost var o :| At(c, Leaf, null, o);
      AtWhole(c, Leaf, null, o);
      ghost var t := Plug(c, Leaf);
      ghost var d, u := LocateIn(Top, t, node);
      PlugTop(t);
      NodesPlug(d, u);
      ghost var n, p := WholeAt(d, u);
      AtHole(d, u, n, p);
      ReplaceLaws(d, u, child, nelts);
      ReplaceNodes(d, u, child);
      TakePlace(node, child, d, u);
      ghost var e, v := SiftDown(child, d, u.(n := child), nelts);
      SiftUp(child, e, v, nelts);
    }

    // The struct copy and the links of node's neighbours.
    method TakePlace(node: Node, child: Node, ghost c: Ctx, ghost s: Tree)
      requires s.Bin? && At(c, s, node, node.parent) && child !in All(c, s)
      modifies this`min, All(c, s), child
      ensures At(c, s.(n := child), child, child.parent)
    {
      Links(c, s, node);
      ghost var p, l, r := node.parent, s.l, s.r;
      assert Distinct(l) && Distinct(r) && Nodes(l) !! Nodes(r) && node !in Nodes(l) && node !in Nodes(r);
      assert Opt(node.left) <= Nodes(l) && Opt(node.right) <= Nodes(r) && Opt(p) <= CtxNodes(c);
      TakeLinks(node, child, c, l, r);
      assert s.(n := child) == Bin(l, child, r);
    }

    method TakeLinks(node: Node, child: Node, ghost c: Ctx, ghost l: Tree, ghost r: Tree)
      requires CtxDistinct(c) && Above(c, node, node.parent) && Sub(l, node.left, node) && Sub(r, node.right, node)
      requires Distinct(l) && Distinct(r) && Nodes(l) !! Nodes(r) && CtxNodes(c) !! Nodes(l) && CtxNodes(c) !! Nodes(r)
      requires child != node && {child, node} !! CtxNodes(c) && {child, node} !! Nodes(l) && {child, node} !! Nodes(r)
      requires Opt(node.left) <= Nodes(l) && Opt(node.right) <= Nodes(r) && Opt(node.parent) <= CtxNodes(c)
      modifies this`min, child, Opt(node.parent)`left, Opt(node.parent)`right, Opt(node.left)`parent,
               Opt(node.right)`parent
      ensures Above(c, child, child.parent) && Sub(l, child.left, child) && Sub(r, child.right, child)
    {
      hide Sub, Above, Nodes, CtxNodes, Distinct, CtxDistinct;
      assert allocated(Nodes(l)) && allocated(Nodes(r)) && allocated(CtxNodes(c));
      child.left, child.right, child.parent := node.left, node.right, node.parent;
      Adopt(child.left, child, node, l);
      Adopt(child.right, child, node, r);
      ReplaceChild(node.parent, node, child, c);
    }

    lemma EmptyHeap()
      requires Valid() && nelts == 0
      ensures Nodes(tree) == {}
    {
    }

    // heap_dequeue
    method Dequeue()
      requires Valid()
      modifies this, Nodes(tree)
      ensures Valid() && nelts == (if old(nelts) == 0 then 0 else old(nelts) - 1)
      ensures old(nelts) > 0 ==>
                && old(min) in old(Nodes(tree)) && Nodes(tree) == old(Nodes(tree)) - {old(min)}
                && forall m :: m in old(Nodes(tree)) ==> old(min).rank <= m.rank
      ensures old(nelts) == 0 ==> Nodes(tree) == {}
    {
      if nelts > 0 {
        MinIsLeast();
        Remove(min);
      } else {
        EmptyHeap();
      }
    }

    // heap_min
    lemma MinIsLeast()
      requires Valid() && nelts > 0
      ensures min != null && min in Nodes(tree)
      ensures forall m :: m in Nodes(tree) ==> min.rank <= m.rank
      ensures |Nodes(tree)| == nelts
    {
      forall m | m in Nodes(tree) ensures min.rank <= m.rank {
        RootIsLeast(tree, m);
      }
      CompleteSize(tree, nelts);
      DistinctSize(tree);
    }
  }
}
