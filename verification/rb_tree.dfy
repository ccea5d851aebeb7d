// The pointer algorithms of the red-black tree macros in 3rd/libuv/include/tree.h.
module RBTree {
  import opened RBShape

  // The links at and below n, whose parent pointer must be p, spell t.
  ghost predicate Sub(t: Tree, n: Node?, p: Node?)
    reads Nodes(t)
  {
    match t
    case Leaf => n == null
    case Bin(l, x, red, r) =>
      && n == x && x.parent == p && x.red == red
      && Sub(l, x.left, x) && Sub(r, x.right, x)
  }

  ghost function Opt(n: Node?): set<Node> { if n == null then {} else {n} }

  ghost function Root(t: Tree): Node? { if t.Leaf? then null else t.n }

  // The comparator of RB_GENERATE, by rank.
  function Compare(a: Node, b: Node): int { a.key - b.key }

  class Head {
    var root: Node?
    ghost var tree: Tree

    constructor ()
      ensures Valid() && tree == Leaf
    {
      root, tree := null, Leaf;
    }

    // The links from the root down to the hole spell c; the hole itself is
    // reached by a pointer holding n, and p is the node that holds it.
    ghost predicate Above(c: Ctx, n: Node?, p: Node?)
      reads this`root, CtxNodes(c)
    {
      match c
      case Top => root == n && p == null
      case InLeft(x, red, r, up) =>
        p == x && x.left == n && x.red == red && Sub(r, x.right, x) && Above(up, x, x.parent)
      case InRight(l, x, red, up) =>
        p == x && x.right == n && x.red == red && Sub(l, x.left, x) && Above(up, x, x.parent)
    }

    // The whole structure, seen from the subtree s at n.
    ghost predicate At(c: Ctx, s: Tree, n: Node?, p: Node?)
      reads this`root, CtxNodes(c), Nodes(s)
    {
      Apart(c, s) && Above(c, n, p) && Sub(s, n, p)
    }

    ghost predicate Shape(t: Tree)
      reads this`root, Nodes(t)
    {
      Distinct(t) && Sub(t, root, null)
    }

    ghost predicate Valid()
      reads this, Nodes(tree)
    {
      Shape(tree) && Sorted(Inorder(tree)) && RedBlack(tree)
    }

    lemma {:induction false} AtWhole(c: Ctx, s: Tree, n: Node?, p: Node?)
      requires At(c, s, n, p)
      ensures Nodes(Plug(c, s)) == CtxNodes(c) + Nodes(s)
      ensures Shape(Plug(c, s))
      decreases c
    {
      NodesPlug(c, s);
      match c
      case Top =>
      case InLeft(x, red, r, up) => AtWhole(up, Bin(s, x, red, r), x, x.parent);
      case InRight(l, x, red, up) => AtWhole(up, Bin(l, x, red, s), x, x.parent);
    }

    lemma {:induction false} WholeAt(c: Ctx, s: Tree) returns (n: Node?, p: Node?)
      requires Nodes(Plug(c, s)) == CtxNodes(c) + Nodes(s)
      requires Shape(Plug(c, s))
      ensures At(c, s, n, p)
      decreases c
    {
      match c
      case Top => n, p := root, null;
      case InLeft(x, red, r, up) =>
        NodesPlug(up, Bin(s, x, red, r));
        var n', p' := WholeAt(up, Bin(s, x, red, r));
        n, p := x.left, x;
      case InRight(l, x, red, up) =>
        NodesPlug(up, Bin(l, x, red, s));
        var n', p' := WholeAt(up, Bin(l, x, red, s));
        n, p := x.right, x;
    }

    // RB_COLOR(n) = red
    method SetColor(n: Node, red: bool, ghost c: Ctx, ghost s: Tree)
      requires s.Bin? && At(c, s, n, n.parent)
      modifies n`red
      ensures At(c, s.(red := red), n, n.parent)
    {
      n.red := red;
    }

    // The links of n's parent, or the head's root, now lead to m.
    method ReplaceChild(p: Node?, n: Node, m: Node?, ghost c: Ctx)
      requires CtxDistinct(c) && Above(c, n, p) && n !in CtxNodes(c)
      modifies this`root, Opt(p)`left, Opt(p)`right
      ensures Above(c, m, p)
    {
      if p != null {
        if p.left == n {
          p.left := m;
        } else {
          p.right := m;
        }
      } else {
        root := m;
      }
    }

    // ---------- rotations ----------

    // What a node with a right child looks like in memory.
    lemma UnfoldRight(c: Ctx, s: Tree, elm: Node)
      requires s.Bin? && s.r.Bin? && At(c, s, elm, elm.parent)
      ensures elm == s.n && elm.right == s.r.n && elm != s.r.n
      ensures Sub(s.l, elm.left, elm) && Sub(s.r.l, s.r.n.left, s.r.n) && Sub(s.r.r, s.r.n.right, s.r.n)
      ensures Nodes(s) == Nodes(s.l) + {elm} + Nodes(s.r.l) + {s.r.n} + Nodes(s.r.r)
      ensures Nodes(s.l) !! Nodes(s.r.l) !! Nodes(s.r.r)
      ensures {elm, s.r.n} !! Nodes(s.l) + Nodes(s.r.l) + Nodes(s.r.r)
      ensures Distinct(s.l) && Distinct(s.r.l) && Distinct(s.r.r)
      ensures elm.parent != null ==> elm.parent in CtxNodes(c)
      ensures s.r.n.left != null ==> s.r.n.left in Nodes(s.r.l)
      ensures elm.red == s.red && s.r.n.red == s.r.red
    {
      assert Sub(s.r, elm.right, elm) && Distinct(s.r) && Nodes(s.r) == Nodes(s.r.l) + {s.r.n} + Nodes(s.r.r);
    }

    // What a node with a left child looks like in memory.
    lemma UnfoldLeft(c: Ctx, s: Tree, elm: Node)
      requires s.Bin? && s.l.Bin? && At(c, s, elm, elm.parent)
      ensures elm == s.n && elm.left == s.l.n && elm != s.l.n
      ensures Sub(s.r, elm.right, elm) && Sub(s.l.r, s.l.n.right, s.l.n) && Sub(s.l.l, s.l.n.left, s.l.n)
      ensures Nodes(s) == Nodes(s.r) + {elm} + Nodes(s.l.r) + {s.l.n} + Nodes(s.l.l)
      ensures Nodes(s.r) !! Nodes(s.l.r) !! Nodes(s.l.l)
      ensures {elm, s.l.n} !! Nodes(s.r) + Nodes(s.l.r) + Nodes(s.l.l)
      ensures Distinct(s.r) && Distinct(s.l.r) && Distinct(s.l.l)
      ensures elm.parent != null ==> elm.parent in CtxNodes(c)
      ensures s.l.n.right != null ==> s.l.n.right in Nodes(s.l.r)
      ensures elm.red == s.red && s.l.n.red == s.l.red
    {
      assert Sub(s.l, elm.left, elm) && Distinct(s.l) && Nodes(s.l) == Nodes(s.l.r) + {s.l.n} + Nodes(s.l.l);
    }

    // RB_ROTATE_LEFT
    method RotateLeft(elm: Node, ghost c: Ctx, ghost s: Tree) returns (tmp: Node)
      requires s.Bin? && s.r.Bin? && At(c, s, elm, elm.parent)
      modifies this`root, CtxNodes(c), Nodes(s)
      ensures tmp == s.r.n && tmp.parent == old(elm.parent)
      ensures At(c, Bin(Bin(s.l, s.n, s.red, s.r.l), s.r.n, s.r.red, s.r.r), tmp, tmp.parent)
    {
      UnfoldRight(c, s, elm);
      tmp := elm.right;
      RotateLeftLinks(elm, tmp, c, s.l, s.r.l, s.r.r);
      FoldLeft(c, s, tmp);
    }

    lemma FoldLeft(c: Ctx, s: Tree, tmp: Node)
      requires s.Bin? && s.r.Bin? && Apart(c, s) && tmp == s.r.n && tmp.left == s.n && s.n.parent == tmp
      requires Above(c, tmp, tmp.parent)
      requires Sub(s.l, s.n.left, s.n) && Sub(s.r.l, s.n.right, s.n) && Sub(s.r.r, tmp.right, tmp)
      requires s.n.red == s.red && tmp.red == s.r.red
      ensures At(c, Bin(Bin(s.l, s.n, s.red, s.r.l), s.r.n, s.r.red, s.r.r), tmp, tmp.parent)
    {
      assert Distinct(s.r) && Nodes(s.r) == Nodes(s.r.l) + {tmp} + Nodes(s.r.r);
      ghost var inner := Bin(s.l, s.n, s.red, s.r.l);
      assert Distinct(inner) && Nodes(inner) == Nodes(s.l) + {s.n} + Nodes(s.r.l);
      assert Nodes(Bin(inner, tmp, s.r.red, s.r.r)) == Nodes(s);
      assert Sub(Bin(s.l, s.n, s.red, s.r.l), tmp.left, tmp);
    }

    method RotateLeftLinks(elm: Node, tmp: Node, ghost c: Ctx, ghost a: Tree, ghost b: Tree, ghost d: Tree)
      requires elm.right == tmp && elm != tmp && CtxDistinct(c) && Above(c, elm, elm.parent)
      requires Sub(a, elm.left, elm) && Sub(b, tmp.left, tmp) && Sub(d, tmp.right, tmp)
      requires Distinct(b) && CtxNodes(c) !! Nodes(a) && CtxNodes(c) !! Nodes(b) && CtxNodes(c) !! Nodes(d)
      requires Nodes(a) !! Nodes(b) && Nodes(a) !! Nodes(d) && Nodes(b) !! Nodes(d)
      requires elm !in CtxNodes(c) + Nodes(a) + Nodes(b) + Nodes(d)
      requires tmp !in CtxNodes(c) + Nodes(a) + Nodes(b) + Nodes(d)
      requires Opt(tmp.left) <= Nodes(b) && Opt(elm.parent) <= CtxNodes(c)
      modifies this`root, elm, tmp, Opt(tmp.left)`parent, Opt(elm.parent)`left, Opt(elm.parent)`right
      ensures Above(c, tmp, tmp.parent) && tmp.left == elm && elm.parent == tmp
      ensures Sub(a, elm.left, elm) && Sub(b, elm.right, elm) && Sub(d, tmp.right, tmp)
      ensures tmp.parent == old(elm.parent) && elm.red == old(elm.red) && tmp.red == old(tmp.red)
    {
      hide Sub, Above, Nodes, CtxNodes, Distinct, CtxDistinct;
      assert allocated(Nodes(a)) && allocated(Nodes(b)) && allocated(Nodes(d)) && allocated(CtxNodes(c));
      elm.right := tmp.left;
      Adopt(elm.right, elm, tmp, b);
      tmp.parent := elm.parent;
      ReplaceChild(elm.parent, elm, tmp, c);
      tmp.left := elm;
      elm.parent := tmp;
    }

    // The root of t, if there is one, gets p as its parent.
    method Adopt(n: Node?, p: Node?, ghost q: Node?, ghost t: Tree)
      requires Sub(t, n, q) && Distinct(t)
      modifies Opt(n)`parent
      ensures Sub(t, n, p)
    {
      if n != null {
        n.parent := p;
      }
    }

    // RB_ROTATE_RIGHT
    method RotateRight(elm: Node, ghost c: Ctx, ghost s: Tree) returns (tmp: Node)
      requires s.Bin? && s.l.Bin? && At(c, s, elm, elm.parent)
      modifies this`root, CtxNodes(c), Nodes(s)
      ensures tmp == s.l.n && tmp.parent == old(elm.parent)
      ensures At(c, Bin(s.l.l, s.l.n, s.l.red, Bin(s.l.r, s.n, s.red, s.r)), tmp, tmp.parent)
    {
      UnfoldLeft(c, s, elm);
      tmp := elm.left;
      RotateRightLinks(elm, tmp, c, s.r, s.l.r, s.l.l);
      FoldRight(c, s, tmp);
    }

    lemma FoldRight(c: Ctx, s: Tree, tmp: Node)
      requires s.Bin? && s.l.Bin? && Apart(c, s) && tmp == s.l.n && tmp.right == s.n && s.n.parent == tmp
      requires Above(c, tmp, tmp.parent)
      requires Sub(s.r, s.n.right, s.n) && Sub(s.l.r, s.n.left, s.n) && Sub(s.l.l, tmp.left, tmp)
      requires s.n.red == s.red && tmp.red == s.l.red
      ensures At(c, Bin(s.l.l, s.l.n, s.l.red, Bin(s.l.r, s.n, s.red, s.r)), tmp, tmp.parent)
    {
      assert Distinct(s.l) && Nodes(s.l) == Nodes(s.l.r) + {tmp} + Nodes(s.l.l);
      ghost var inner := Bin(s.l.r, s.n, s.red, s.r);
      assert Distinct(inner) && Nodes(inner) == Nodes(s.l.r) + {s.n} + Nodes(s.r);
      assert Nodes(Bin(s.l.l, tmp, s.l.red, inner)) == Nodes(s);
      assert Sub(Bin(s.l.r, s.n, s.red, s.r), tmp.right, tmp);
    }

    method RotateRightLinks(elm: Node, tmp: Node, ghost c: Ctx, ghost a: Tree, ghost b: Tree, ghost d: Tree)
      requires elm.left == tmp && elm != tmp && CtxDistinct(c) && Above(c, elm, elm.parent)
      requires Sub(a, elm.right, elm) && Sub(b, tmp.right, tmp) && Sub(d, tmp.left, tmp)
      requires Distinct(b) && CtxNodes(c) !! Nodes(a) && CtxNodes(c) !! Nodes(b) && CtxNodes(c) !! Nodes(d)
      requires Nodes(a) !! Nodes(b) && Nodes(a) !! Nodes(d) && Nodes(b) !! Nodes(d)
      requires elm !in CtxNodes(c) + Nodes(a) + Nodes(b) + Nodes(d)
      requires tmp !in CtxNodes(c) + Nodes(a) + Nodes(b) + Nodes(d)
      requires Opt(tmp.right) <= Nodes(b) && Opt(elm.parent) <= CtxNodes(c)
      modifies this`root, elm, tmp, Opt(tmp.right)`parent, Opt(elm.parent)`left, Opt(elm.parent)`right
      ensures Above(c, tmp, tmp.parent) && tmp.right == elm && elm.parent == tmp
      ensures Sub(a, elm.right, elm) && Sub(b, elm.left, elm) && Sub(d, tmp.left, tmp)
      ensures tmp.parent == old(elm.parent) && elm.red == old(elm.red) && tmp.red == old(tmp.red)
    {
      hide Sub, Above, Nodes, CtxNodes, Distinct, CtxDistinct;
      assert allocated(Nodes(a)) && allocated(Nodes(b)) && allocated(Nodes(d)) && allocated(CtxNodes(c));
      elm.left := tmp.right;
      Adopt(elm.left, elm, tmp, b);
      tmp.parent := elm.parent;
      ReplaceChild(elm.parent, elm, tmp, c);
      tmp.right := elm;
      elm.parent := tmp;
    }


    // ---------- moving the focus ----------

    lemma Rise(c: Ctx, s: Tree, n: Node?, p: Node?)
      requires c != Top && At(c, s, n, p)
      ensures p == c.n && At(c.up, Fill(c, s), p, p.parent)
      ensures All(c.up, Fill(c, s)) == All(c, s) && Spell(c.up, Fill(c, s)) == Spell(c, s)
    {
      FillSame(c, s);
      if c.InLeft? {
        assert Distinct(Bin(s, c.n, c.red, c.r));
      } else {
        assert Distinct(Bin(c.l, c.n, c.red, s));
      }
    }

    lemma DescendLeft(c: Ctx, s: Tree, n: Node?, p: Node?)
      requires s.Bin? && At(c, s, n, p)
      ensures n == s.n && n.left == Root(s.l) && At(InLeft(s.n, s.red, s.r, c), s.l, n.left, n)
    {
      assert Sub(s.l, n.left, n);
    }

    lemma DescendRight(c: Ctx, s: Tree, n: Node?, p: Node?)
      requires s.Bin? && At(c, s, n, p)
      ensures n == s.n && n.right == Root(s.r) && At(InRight(s.l, s.n, s.red, c), s.r, n.right, n)
    {
      assert Sub(s.r, n.right, n);
    }

    // ---------- insertion ----------

    // RB_COLOR(n) = red, for a child n of the node in focus.
    method SetChildColor(n: Node, red: bool, ghost left: bool, ghost c: Ctx, ghost s: Tree)
      requires s.Bin? && At(c, s, s.n, s.n.parent)
      requires if left then s.l.Bin? && s.l.n == n else s.r.Bin? && s.r.n == n
      modifies n`red
      ensures At(c, if left then s.(l := s.l.(red := red)) else s.(r := s.r.(red := red)), s.n, s.n.parent)
    {
      ghost var p := s.n.parent;
      if left { DescendLeft(c, s, s.n, p); } else { DescendRight(c, s, s.n, p); }
      ghost var c', s' := if left then InLeft(s.n, s.red, s.r, c) else InRight(s.l, s.n, s.red, c),
                          if left then s.l else s.r;
      SetColor(n, red, c', s');
      Rise(c', s'.(red := red), n, n.parent);
    }

    // RB_SET_BLACKRED on a child and the node in focus.
    method SetBlackRed(black: Node, red: Node, ghost left: bool, ghost c: Ctx, ghost s: Tree)
      requires s.Bin? && s.n == red && At(c, s, red, red.parent)
      requires if left then s.l.Bin? && s.l.n == black else s.r.Bin? && s.r.n == black
      modifies black`red, red`red
      ensures At(c, if left then Bin(s.l.(red := false), red, true, s.r) else Bin(s.l, red, true, s.r.(red := false)),
                 red, red.parent)
    {
      SetChildColor(black, false, left, c, s);
      SetColor(red, true, c, if left then s.(l := s.l.(red := false)) else s.(r := s.r.(red := false)));
    }

    // What the pointers at the hole say about its context.
    lemma AtHole(c: Ctx, s: Tree, n: Node?, p: Node?)
      requires At(c, s, n, p)
      ensures n == Root(s) && (s.Bin? ==> n.parent == p && n.red == s.red && n in All(c, s))
      ensures p == null <==> c == Top
      ensures c != Top ==> p == c.n && p.red == c.red && p != n && p in All(c, s)
      ensures c.InLeft? ==> p.left == n && p.right == Root(c.r) && (n != null ==> p.right != n)
      ensures c.InRight? ==> p.right == n && p.left == Root(c.l) && (n != null ==> p.left != n)
      ensures c.InLeft? && c.r.Bin? ==> c.r.n.red == c.r.red && c.r.n in All(c, s)
      ensures c.InRight? && c.l.Bin? ==> c.l.n.red == c.l.red && c.l.n in All(c, s)
    {
    }

    // One round of RB_INSERT_COLOR's loop.
    method InsertStep(elm: Node, ghost c: Ctx, ghost s: Tree)
      returns (next: Node, ghost c': Ctx, ghost s': Tree)
      requires At(c, s, elm, elm.parent) && Inserting(c, s) && c != Top && c.red
      modifies this`root, All(c, s)
      ensures At(c', s', next, next.parent) && Inserting(c', s') && Depth(c') < Depth(c)
      ensures All(c', s') == All(c, s) && Spell(c', s') == Spell(c, s)
    {
      hide Sub, Above, Nodes, CtxNodes, Distinct, CtxDistinct, NoRedRed, Balanced, BlackHeight, Inorder;
      var parent := elm.parent;
      AtHole(c, s, elm, parent);
      RedParent(c, s);
      Rise(c, s, elm, parent);
      var gparent := parent.parent;
      ghost var up, p := c.up, Fill(c, s);
      AtHole(up, p, parent, gparent);
      Rise(up, p, parent, gparent);
      if parent == gparent.left {
        next, c', s' := InsertStepLeft(elm, parent, gparent, c, s);
      } else {
        next, c', s' := InsertStepRight(elm, parent, gparent, c, s);
      }
    }

    method InsertStepLeft(elm: Node, parent: Node, gparent: Node, ghost c: Ctx, ghost s: Tree)
      returns (next: Node, ghost c': Ctx, ghost s': Tree)
      requires Inserting(c, s) && c != Top && c.red && c.up.InLeft?
      requires parent == c.n && gparent == c.up.n && elm == s.n && gparent == parent.parent
      requires At(c, s, elm, parent)
      modifies this`root, All(c, s)
      ensures At(c', s', next, next.parent) && Inserting(c', s') && Depth(c') < Depth(c)
      ensures All(c', s') == All(c, s) && Spell(c', s') == Spell(c, s)
    {
      hide Sub, Above, Nodes, CtxNodes, Distinct, CtxDistinct, NoRedRed, Balanced, BlackHeight, Inorder, CtxNoRedRed,
           CtxBalanced;
      AtHole(c, s, elm, parent);
      Rise(c, s, elm, parent);
      ghost var up, p := c.up, Fill(c, s);
      AtHole(up, p, parent, gparent);
      RedParent(c, s);
      var tmp := gparent.right;
      if tmp != null && tmp.red {
        Rise(up, p, parent, gparent);
        ghost var g := Fill(up, p);
        SetChildColor(tmp, false, false, up.up, g);
        SetBlackRed(parent, gparent, true, up.up, g.(r := g.r.(red := false)));
        InsertRecolor(c, s);
        PaintSame(up.up, g, Bin(g.l.(red := false), gparent, true, g.r.(red := false)));
        next, c', s' := gparent, up.up, Bin(g.l.(red := false), gparent, true, g.r.(red := false));
      } else if parent.right == elm {
        tmp := RotateLeft(parent, up, p);
        tmp := parent;
        ghost var s1 := Bin(Bin(c.l, parent, true, s.l), elm, true, s.r);
        DescendLeft(up, s1, elm, gparent);
        InsertStraightenLeft(c, s);
        RotationSame(c.l, parent, true, s.l, elm, true, s.r);
        FillSame(InLeft(elm, true, s.r, up), s1.l);
        next, c', s' := InsertOuterLeft(tmp, elm, gparent, InLeft(elm, true, s.r, up), s1.l);
      } else {
        next, c', s' := InsertOuterLeft(elm, parent, gparent, c, s);
      }
    }

    method InsertOuterLeft(elm: Node, parent: Node, gparent: Node, ghost c: Ctx, ghost s: Tree)
      returns (next: Node, ghost c': Ctx, ghost s': Tree)
      requires Inserting(c, s) && c.InLeft? && c.red && c.up.InLeft? && !IsRed(c.up.r)
      requires parent == c.n && gparent == c.up.n && elm == s.n && gparent == parent.parent
      requires At(c, s, elm, parent)
      modifies this`root, All(c, s)
      ensures At(c', s', next, next.parent) && Inserting(c', s') && Depth(c') < Depth(c)
      ensures All(c', s') == All(c, s) && Spell(c', s') == Spell(c, s)
    {
      hide Sub, Above, Nodes, CtxNodes, Distinct, CtxDistinct, NoRedRed, Balanced, BlackHeight, Inorder, CtxNoRedRed,
           CtxBalanced;
      AtHole(c, s, elm, parent);
      Rise(c, s, elm, parent);
      AtHole(c.up, Fill(c, s), parent, gparent);
      Rise(c.up, Fill(c, s), parent, gparent);
      ghost var up, g := c.up.up, Fill(c.up, Fill(c, s));
      SetBlackRed(parent, gparent, true, up, g);
      ghost var g1 := Bin(Bin(s, parent, false, c.r), gparent, true, c.up.r);
      PaintSame(up, g, g1);
      var tmp := RotateRight(gparent, up, g1);
      ghost var g2 := Bin(s, parent, false, Bin(c.r, gparent, true, c.up.r));
      DescendLeft(up, g2, parent, parent.parent);
      InsertRotateRight(c, s);
      RotationSame(s, parent, false, c.r, gparent, true, c.up.r);
      next, c', s' := elm, InLeft(parent, false, g2.r, up), s;
      FillSame(c', s');
      AtHole(c', s', elm, parent);
      assert Depth(c.up) == 1 + Depth(up);
    }

    method InsertStepRight(elm: Node, parent: Node, gparent: Node, ghost c: Ctx, ghost s: Tree)
      returns (next: Node, ghost c': Ctx, ghost s': Tree)
      requires Inserting(c, s) && c != Top && c.red && c.up.InRight?
      requires parent == c.n && gparent == c.up.n && elm == s.n && gparent == parent.parent
      requires At(c, s, elm, parent)
      modifies this`root, All(c, s)
      ensures At(c', s', next, next.parent) && Inserting(c', s') && Depth(c') < Depth(c)
      ensures All(c', s') == All(c, s) && Spell(c', s') == Spell(c, s)
    {
      hide Sub, Above, Nodes, CtxNodes, Distinct, CtxDistinct, NoRedRed, Balanced, BlackHeight, Inorder, CtxNoRedRed,
           CtxBalanced;
      AtHole(c, s, elm, parent);
      Rise(c, s, elm, parent);
      ghost var up, p := c.up, Fill(c, s);
      AtHole(up, p, parent, gparent);
      RedParent(c, s);
      var tmp := gparent.left;
      if tmp != null && tmp.red {
        Rise(up, p, parent, gparent);
        ghost var g := Fill(up, p);
        SetChildColor(tmp, false, true, up.up, g);
        SetBlackRed(parent, gparent, false, up.up, g.(l := g.l.(red := false)));
        InsertRecolor(c, s);
        PaintSame(up.up, g, Bin(g.l.(red := false), gparent, true, g.r.(red := false)));
        next, c', s' := gparent, up.up, Bin(g.l.(red := false), gparent, true, g.r.(red := false));
      } else if parent.left == elm {
        tmp := RotateRight(parent, up, p);
        tmp := parent;
        ghost var s1 := Bin(s.l, elm, true, Bin(s.r, parent, true, c.r));
        DescendRight(up, s1, elm, gparent);
        InsertStraightenRight(c, s);
        RotationSame(s.l, elm, true, s.r, parent, true, c.r);
        FillSame(InRight(s.l, elm, true, up), s1.r);
        next, c', s' := InsertOuterRight(tmp, elm, gparent, InRight(s.l, elm, true, up), s1.r);
      } else {
        next, c', s' := InsertOuterRight(elm, parent, gparent, c, s);
      }
    }

    method InsertOuterRight(elm: Node, parent: Node, gparent: Node, ghost c: Ctx, ghost s: Tree)
      returns (next: Node, ghost c': Ctx, ghost s': Tree)
      requires Inserting(c, s) && c.InRight? && c.red && c.up.InRight? && !IsRed(c.up.l)
      requires parent == c.n && gparent == c.up.n && elm == s.n && gparent == parent.parent
      requires At(c, s, elm, parent)
      modifies this`root, All(c, s)
      ensures At(c', s', next, next.parent) && Inserting(c', s') && Depth(c') < Depth(c)
      ensures All(c', s') == All(c, s) && Spell(c', s') == Spell(c, s)
    {
      hide Sub, Above, Nodes, CtxNodes, Distinct, CtxDistinct, NoRedRed, Balanced, BlackHeight, Inorder, CtxNoRedRed,
           CtxBalanced;
      AtHole(c, s, elm, parent);
      Rise(c, s, elm, parent);
      AtHole(c.up, Fill(c, s), parent, gparent);
      Rise(c.up, Fill(c, s), parent, gparent);
      ghost var up, g := c.up.up, Fill(c.up, Fill(c, s));
      SetBlackRed(parent, gparent, false, up, g);
      ghost var g1 := Bin(c.up.l, gparent, true, Bin(c.l, parent, false, s));
      PaintSame(up, g, g1);
      var tmp := RotateLeft(gparent, up, g1);
      ghost var g2 := Bin(Bin(c.up.l, gparent, true, c.l), parent, false, s);
      DescendRight(up, g2, parent, parent.parent);
      InsertRotateLeft(c, s);
      RotationSame(c.up.l, gparent, true, c.l, parent, false, s);
      next, c', s' := elm, InRight(g2.l, parent, false, up), s;
      FillSame(c', s');
      AtHole(c', s', elm, parent);
      assert Depth(c.up) == 1 + Depth(up);
    }

    // RB_INSERT_COLOR
    method InsertColor(elm0: Node, ghost c0: Ctx, ghost s0: Tree)
      requires At(c0, s0, elm0, elm0.parent) && Inserting(c0, s0)
      modifies this, All(c0, s0)
      ensures Shape(tree) && RedBlack(tree)
      ensures Inorder(tree) == Spell(c0, s0)
    {
      hide Sub, Above, Nodes, CtxNodes, Distinct, CtxDistinct, NoRedRed, Balanced, BlackHeight, Inorder;
      ghost var c, s := c0, s0;
      var elm: Node := elm0;
      AtHole(c, s, elm, elm.parent);
      while elm.parent != null && elm.parent.red
        invariant At(c, s, elm, elm.parent) && Inserting(c, s)
        invariant c != Top ==> elm.parent == c.n && c.n.red == c.red
        invariant c == Top ==> elm.parent == null
        invariant All(c, s) == All(c0, s0) && Spell(c, s) == Spell(c0, s0)
        decreases Depth(c)
      {
        elm, c, s := InsertStep(elm, c, s);
        AtHole(c, s, elm, elm.parent);
      }
      InsertingDone(c, s);
      Finish(elm, c, s);
    }

    // RB_COLOR(root) = RB_BLACK
    method Finish(elm: Node, ghost c: Ctx, ghost s: Tree)
      requires At(c, s, elm, elm.parent) && Inserting(c, s) && (c == Top || !c.red)
      modifies this`tree, All(c, s)
      ensures Shape(tree) && RedBlack(tree) && Inorder(tree) == Spell(c, s)
    {
      InsertingDone(c, s);
      AtWhole(c, s, elm, elm.parent);
      ghost var t := Plug(c, s);
      InorderPlug(c, s);
      NodesPlug(c, s);
      root.red := false;
      tree := t.(red := false);
    }

    // The descent of RB_INSERT: the element equal to elm, or the empty hole
    // where elm belongs, its parent and the last comparison made there.
    method Search(elm: Node) returns (found: Node?, parent: Node?, comp: int, ghost c: Ctx)
      requires Valid()
      ensures found != null ==> found in Nodes(tree) && found.key == elm.key
      ensures found == null ==>
                && At(c, Leaf, null, parent) && Plug(c, Leaf) == tree && CtxNodes(c) == Nodes(tree)
                && Before(c) + After(c) == Inorder(tree)
                && Below(Before(c), elm.key) && Beyond(After(c), elm.key)
                && (c.InLeft? ==> comp < 0) && (c.InRight? ==> comp > 0)
    {
      hide Sub, Above, CtxDistinct, NoRedRed, Balanced, BlackHeight, Plug, Before, After, Distinct, Apart;
      var tmp: Node? := root;
      parent, comp, c := null, 0, Top;
      ghost var s := tree;
      StartAtRoot();
      AtHole(c, s, tmp, parent);
      while tmp != null
        invariant At(c, s, tmp, parent) && tmp == Root(s)
        invariant Plug(c, s) == tree && All(c, s) == Nodes(tree) && Spell(c, s) == Inorder(tree)
        invariant Below(Before(c), elm.key) && Beyond(After(c), elm.key)
        invariant (c.InLeft? ==> comp < 0) && (c.InRight? ==> comp > 0)
        decreases s
      {
        AtHole(c, s, tmp, parent);
        parent := tmp;
        comp := Compare(elm, parent);
        if comp < 0 {
          DescendLeft(c, s, tmp, tmp.parent);
          NarrowLeft(c, s, elm.key);
          tmp := tmp.left;
          c, s := InLeft(s.n, s.red, s.r, c), s.l;
        } else if comp > 0 {
          DescendRight(c, s, tmp, tmp.parent);
          NarrowRight(c, s, elm.key);
          tmp := tmp.right;
          c, s := InRight(s.l, s.n, s.red, c), s.r;
        } else {
          return tmp, parent, comp, c;
        }
      }
      found := null;
    }

    // RB_INSERT
    method Insert(elm: Node) returns (r: Node?)
      requires Valid()
      modifies this, Nodes(tree), elm
      ensures Valid()
      ensures r != null ==> r in old(Nodes(tree)) && r.key == elm.key
      ensures r != null ==> unchanged(this) && unchanged(elm)
      ensures r == null ==> (forall n :: n in old(Nodes(tree)) ==> n.key != elm.key)
      ensures r == null ==> Nodes(tree) == old(Nodes(tree)) + {elm}
    {
      hide Sub, Above, CtxDistinct, NoRedRed, Balanced, BlackHeight, Distinct, Apart, Inorder, Nodes, Before, After,
           CtxNodes,
           CtxNoRedRed, CtxBalanced, CtxBlackRoot, Plug;
      var parent, comp;
      ghost var c;
      assert allocated(Nodes(tree));
      r, parent, comp, c := Search(elm);
      if r == null {
        ghost var t, a, b := tree, Before(c), After(c);
        AbsentKey(t, a, b, elm);
        ghost var leaf := Bin(Leaf, elm, true, Leaf);
        assert Inorder(leaf) == [elm] && Nodes(leaf) == {elm} by { SingleNode(elm); }
        InsertingLeaf(c, elm);
        Link(elm, parent, comp, c);
        InsertColor(elm, c, leaf);
        InsertContents(t, a, b, elm, tree);
      }
    }

    lemma StartAtRoot()
      requires Shape(tree)
      ensures At(Top, tree, root, null) && Plug(Top, tree) == tree
      ensures Before(Top) == After(Top) == []
    {
    }

    // RB_SET and the link from the parent.
    method Link(elm: Node, parent: Node?, comp: int, ghost c: Ctx)
      requires At(c, Leaf, null, parent) && elm !in CtxNodes(c)
      requires (c.InLeft? ==> comp < 0) && (c.InRight? ==> comp > 0)
      modifies this`root, elm, CtxNodes(c)
      ensures At(c, Bin(Leaf, elm, true, Leaf), elm, parent) && elm.parent == parent
    {
      assert Opt(parent) <= CtxNodes(c);
      elm.parent := parent;
      elm.left, elm.right := null, null;
      elm.red := true;
      if parent != null {
        if comp < 0 {
          parent.left := elm;
        } else {
          parent.right := elm;
        }
      } else {
        root := elm;
      }
    }

    // ---------- removal: RB_REMOVE_COLOR ----------

    // A red sibling is turned black by one rotation at the parent.
    method BorrowBlackLeft(parent: Node, tmp: Node, ghost c: Ctx, ghost s: Tree) returns (sibling: Node, ghost c': Ctx)
      requires Removing(c, s) && !IsRed(s) && c.InLeft? && IsRed(c.r)
      requires At(c, s, parent.left, parent) && parent == c.n && tmp == c.r.n
      modifies this`root, All(c, s)
      ensures At(c', s, parent.left, parent) && Removing(c', s)
      ensures c'.InLeft? && parent == c'.n && c'.r.Bin? && sibling == c'.r.n && !c'.r.red && c'.red
      ensures All(c', s) == All(c, s) && Spell(c', s) == Spell(c, s)
    {
      hide Sub, Above, Nodes, CtxNodes, Distinct, CtxDistinct, NoRedRed, Balanced, BlackHeight, Inorder, CtxNoRedRed,
           CtxBalanced, CtxBlackRoot, Apart, Before, After, Plug;
      AtHole(c, s, parent.left, parent);
      RedSiblingLeft(c, s);
      Rise(c, s, parent.left, parent);
      ghost var up, g, w := c.up, Fill(c, s), c.r;
      ghost var g1 := Bin(s, parent, true, w.(red := false));
      ghost var g2 := Bin(Bin(s, parent, true, w.l), tmp, false, w.r);
      SetBlackRed(tmp, parent, false, up, g);
      PaintSame(up, g, g1);
      var top := RotateLeft(parent, up, g1);
      RotationSame(s, parent, true, w.l, tmp, false, w.r);
      DescendLeft(up, g2, tmp, tmp.parent);
      ghost var d := InLeft(tmp, false, w.r, up);
      FillSame(d, g2.l);
      DescendLeft(d, g2.l, parent, tmp);
      c' := InLeft(parent, true, w.l, d);
      FillSame(c', s);
      AtHole(c', s, parent.left, parent);
      sibling := parent.right;
    }

    // The inner nephew is red, the outer one black: rotate at the sibling.
    method StraightenNephewLeft(parent: Node, tmp: Node, ghost c: Ctx, ghost s: Tree)
      returns (sibling: Node, ghost c': Ctx)
      requires Removing(c, s) && !IsRed(s) && c.InLeft?
      requires c.r.Bin? && !c.r.red && IsRed(c.r.l) && !IsRed(c.r.r)
      requires At(c, s, parent.left, parent) && parent == c.n && tmp == c.r.n
      modifies this`root, All(c, s)
      ensures At(c', s, parent.left, parent) && Removing(c', s)
      ensures c'.InLeft? && parent == c'.n && c'.r.Bin? && sibling == c'.r.n && !c'.r.red && IsRed(c'.r.r)
      ensures c'.red == c.red && c'.up == c.up
      ensures All(c', s) == All(c, s) && Spell(c', s) == Spell(c, s)
    {
      hide Sub, Above, Nodes, CtxNodes, Distinct, CtxDistinct, NoRedRed, Balanced, BlackHeight, Inorder, CtxNoRedRed,
           CtxBalanced, CtxBlackRoot, Apart, Before, After, Plug;
      AtHole(c, s, parent.left, parent);
      InnerNephewLeft(c, s);
      Rise(c, s, parent.left, parent);
      ghost var up, g, w := c.up, Fill(c, s), c.r;
      DescendRight(up, g, parent, parent.parent);
      ghost var d := InRight(s, parent, c.red, up);
      FillSame(d, w);
      AtHole(d, w, tmp, parent);
      ghost var w1 := Bin(w.l.(red := false), tmp, true, w.r);
      ghost var w2 := Bin(w.l.l, w.l.n, false, Bin(w.l.r, tmp, true, w.r));
      DescendLeft(d, w, tmp, parent);
      FillSame(InLeft(tmp, w.red, w.r, d), w.l);
      AtHole(InLeft(tmp, w.red, w.r, d), w.l, tmp.left, tmp);
      var oleft := tmp.left;
      if oleft != null {
        SetChildColor(oleft, false, true, d, w);
      }
      SetColor(tmp, true, d, w.(l := w.l.(red := false)));
      PaintSame(d, w, w1);
      oleft := RotateRight(tmp, d, w1);
      RotationSame(w.l.l, w.l.n, false, w.l.r, tmp, true, w.r);
      Rise(d, w2, oleft, oleft.parent);
      DescendLeft(up, Bin(s, parent, c.red, w2), parent, parent.parent);
      c' := c.(r := w2);
      FillSame(c', s);
      AtHole(c', s, parent.left, parent);
      sibling := parent.right;
    }

    // The outer nephew is red: rotating at the parent pays the debt.
    method SettleLeft(parent: Node, tmp: Node, ghost c: Ctx, ghost s: Tree)
      requires Removing(c, s) && !IsRed(s) && c.InLeft? && c.r.Bin? && !c.r.red && IsRed(c.r.r)
      requires At(c, s, parent.left, parent) && parent == c.n && tmp == c.r.n
      modifies this, All(c, s)
      ensures Shape(tree) && RedBlack(tree) && Inorder(tree) == Spell(c, s)
    {
      hide Sub, Above, Nodes, CtxNodes, Distinct, CtxDistinct, NoRedRed, Balanced, BlackHeight, Inorder, CtxNoRedRed,
           CtxBalanced, CtxBlackRoot, Apart, Before, After, Plug;
      AtHole(c, s, parent.left, parent);
      OuterNephewLeft(c, s);
      Rise(c, s, parent.left, parent);
      ghost var up, g, w := c.up, Fill(c, s), c.r;
      ghost var g1 := Bin(s, parent, false, w.(red := c.red));
      ghost var g2 := g1.(r := g1.r.(r := w.r.(red := false)));
      ghost var g3 := Bin(Bin(s, parent, false, w.l), tmp, c.red, w.r.(red := false));
      SetChildColor(tmp, parent.red, false, up, g);
      SetColor(parent, false, up, g.(r := w.(red := c.red)));
      PaintSame(up, g, g1);
      DescendRight(up, g1, parent, parent.parent);
      ghost var d := InRight(s, parent, false, up);
      FillSame(d, g1.r);
      AtHole(d, g1.r, tmp, parent);
      DescendRight(d, g1.r, tmp, parent);
      FillSame(InRight(w.l, tmp, c.red, d), w.r);
      AtHole(InRight(w.l, tmp, c.red, d), w.r, tmp.right, tmp);
      if tmp.right != null {
        SetChildColor(tmp.right, false, false, d, g1.r);
      }
      PaintSame(d, g1.r, g2.r);
      Rise(d, g2.r, tmp, parent);
      var top := RotateLeft(parent, up, g2);
      RotationSame(s, parent, false, w.l, tmp, c.red, w.r.(red := false));
      tree := Plug(up, g3);
      AtWhole(up, g3, top, top.parent);
      InorderPlug(up, g3);
    }

    // A red sibling is turned black by one rotation at the parent.
    method BorrowBlackRight(parent: Node, tmp: Node, ghost c: Ctx, ghost s: Tree) returns (sibling: Node, ghost c': Ctx)
      requires Removing(c, s) && !IsRed(s) && c.InRight? && IsRed(c.l)
      requires At(c, s, parent.right, parent) && parent == c.n && tmp == c.l.n
      modifies this`root, All(c, s)
      ensures At(c', s, parent.right, parent) && Removing(c', s)
      ensures c'.InRight? && parent == c'.n && c'.l.Bin? && sibling == c'.l.n && !c'.l.red && c'.red
      ensures All(c', s) == All(c, s) && Spell(c', s) == Spell(c, s)
    {
      hide Sub, Above, Nodes, CtxNodes, Distinct, CtxDistinct, NoRedRed, Balanced, BlackHeight, Inorder, CtxNoRedRed,
           CtxBalanced, CtxBlackRoot, Apart, Before, After, Plug;
      AtHole(c, s, parent.right, parent);
      RedSiblingRight(c, s);
      Rise(c, s, parent.right, parent);
      ghost var up, g, w := c.up, Fill(c, s), c.l;
      ghost var g1 := Bin(w.(red := false), parent, true, s);
      ghost var g2 := Bin(w.l, tmp, false, Bin(w.r, parent, true, s));
      SetBlackRed(tmp, parent, true, up, g);
      PaintSame(up, g, g1);
      var top := RotateRight(parent, up, g1);
      RotationSame(w.l, tmp, false, w.r, parent, true, s);
      DescendRight(up, g2, tmp, tmp.parent);
      ghost var d := InRight(w.l, tmp, false, up);
      FillSame(d, g2.r);
      DescendRight(d, g2.r, parent, tmp);
      c' := InRight(w.r, parent, true, d);
      FillSame(c', s);
      AtHole(c', s, parent.right, parent);
      sibling := parent.left;
    }

    // The inner nephew is red, the outer one black: rotate at the sibling.
    method StraightenNephewRight(parent: Node, tmp: Node, ghost c: Ctx, ghost s: Tree)
      returns (sibling: Node, ghost c': Ctx)
      requires Removing(c, s) && !IsRed(s) && c.InRight?
      requires c.l.Bin? && !c.l.red && IsRed(c.l.r) && !IsRed(c.l.l)
      requires At(c, s, parent.right, parent) && parent == c.n && tmp == c.l.n
      modifies this`root, All(c, s)
      ensures At(c', s, parent.right, parent) && Removing(c', s)
      ensures c'.InRight? && parent == c'.n && c'.l.Bin? && sibling == c'.l.n && !c'.l.red && IsRed(c'.l.l)
      ensures c'.red == c.red && c'.up == c.up
      ensures All(c', s) == All(c, s) && Spell(c', s) == Spell(c, s)
    {
      hide Sub, Above, Nodes, CtxNodes, Distinct, CtxDistinct, NoRedRed, Balanced, BlackHeight, Inorder, CtxNoRedRed,
           CtxBalanced, CtxBlackRoot, Apart, Before, After, Plug;
      AtHole(c, s, parent.right, parent);
      InnerNephewRight(c, s);
      Rise(c, s, parent.right, parent);
      ghost var up, g, w := c.up, Fill(c, s), c.l;
      DescendLeft(up, g, parent, parent.parent);
      ghost var d := InLeft(parent, c.red, s, up);
      FillSame(d, w);
      AtHole(d, w, tmp, parent);
      ghost var w1 := Bin(w.l, tmp, true, w.r.(red := false));
      ghost var w2 := Bin(Bin(w.l, tmp, true, w.r.l), w.r.n, false, w.r.r);
      DescendRight(d, w, tmp, parent);
      FillSame(InRight(w.l, tmp, w.red, d), w.r);
      AtHole(InRight(w.l, tmp, w.red, d), w.r, tmp.right, tmp);
      var oright := tmp.right;
      if oright != null {
        SetChildColor(oright, false, false, d, w);
      }
      SetColor(tmp, true, d, w.(r := w.r.(red := false)));
      PaintSame(d, w, w1);
      oright := RotateLeft(tmp, d, w1);
      RotationSame(w.l, tmp, true, w.r.l, w.r.n, false, w.r.r);
      Rise(d, w2, oright, oright.parent);
      DescendRight(up, Bin(w2, parent, c.red, s), parent, parent.parent);
      c' := c.(l := w2);
      FillSame(c', s);
      AtHole(c', s, parent.right, parent);
      sibling := parent.left;
    }

    // The outer nephew is red: rotating at the parent pays the debt.
    method SettleRight(parent: Node, tmp: Node, ghost c: Ctx, ghost s: Tree)
      requires Removing(c, s) && !IsRed(s) && c.InRight? && c.l.Bin? && !c.l.red && IsRed(c.l.l)
      requires At(c, s, parent.right, parent) && parent == c.n && tmp == c.l.n
      modifies this, All(c, s)
      ensures Shape(tree) && RedBlack(tree) && Inorder(tree) == Spell(c, s)
    {
      hide Sub, Above, Nodes, CtxNodes, Distinct, CtxDistinct, NoRedRed, Balanced, BlackHeight, Inorder, CtxNoRedRed,
           CtxBalanced, CtxBlackRoot, Apart, Before, After, Plug;
      AtHole(c, s, parent.right, parent);
      OuterNephewRight(c, s);
      Rise(c, s, parent.right, parent);
      ghost var up, g, w := c.up, Fill(c, s), c.l;
      ghost var g1 := Bin(w.(red := c.red), parent, false, s);
      ghost var g2 := g1.(l := g1.l.(l := w.l.(red := false)));
      ghost var g3 := Bin(w.l.(red := false), tmp, c.red, Bin(w.r, parent, false, s));
      SetChildColor(tmp, parent.red, true, up, g);
      SetColor(parent, false, up, g.(l := w.(red := c.red)));
      PaintSame(up, g, g1);
      DescendLeft(up, g1, parent, parent.parent);
      ghost var d := InLeft(parent, false, s, up);
      FillSame(d, g1.l);
      AtHole(d, g1.l, tmp, parent);
      DescendLeft(d, g1.l, tmp, parent);
      FillSame(InLeft(tmp, c.red, w.r, d), w.l);
      AtHole(InLeft(tmp, c.red, w.r, d), w.l, tmp.left, tmp);
      if tmp.left != null {
        SetChildColor(tmp.left, false, true, d, g1.l);
      }
      PaintSame(d, g1.l, g2.l);
      Rise(d, g2.l, tmp, parent);
      var top := RotateRight(parent, up, g2);
      RotationSame(w.l.(red := false), tmp, c.red, w.r, parent, false, s);
      tree := Plug(up, g3);
      AtWhole(up, g3, top, top.parent);
      InorderPlug(up, g3);
    }

    // ---------- removal: the loop ----------

    // A red root of s ends the loop; otherwise the hole moves towards the root.
    static ghost function Measure(c: Ctx, s: Tree): nat { if IsRed(s) then 0 else 1 + Depth(c) }

    // What the sibling's own links say.
    lemma AtSibling(c: Ctx, s: Tree, n: Node?, p: Node?)
      requires c != Top && At(c, s, n, p) && Sibling(c).Bin?
      ensures var w := Sibling(c);
              && w.n.left == Root(w.l) && w.n.right == Root(w.r)
              && (w.l.Bin? ==> w.l.n.red == w.l.red) && (w.r.Bin? ==> w.r.n.red == w.r.red)
    {
      ghost var w := Sibling(c);
      assert Sub(w, w.n, p);
      assert Sub(w.l, w.n.left, w.n) && Sub(w.r, w.n.right, w.n);
    }

    // After the tree is sound again the focus is the root.
    lemma WholeTree(c: Ctx, s: Tree)
      requires Shape(tree) && RedBlack(tree) && Inorder(tree) == Spell(c, s)
      ensures At(Top, tree, root, null) && Removing(Top, tree) && !IsRed(tree)
      ensures All(Top, tree) == All(c, s) && Spell(Top, tree) == Spell(c, s)
    {
      StartAtRoot();
      SameNodes(tree, c, s);
    }

    // Only the root lies at the top.
    lemma {:induction false} RootAbove(c: Ctx, n: Node?, p: Node?)
      requires Above(c, n, p)
      ensures c == Top ==> root == n
      ensures c != Top ==> root != null && root in CtxNodes(c)
      decreases c
    {
      if c != Top { RootAbove(c.up, p, p.parent); }
    }

    lemma AtRoot(c: Ctx, s: Tree, n: Node?, p: Node?)
      requires At(c, s, n, p)
      ensures n == root <==> c == Top
    {
      RootAbove(c, n, p);
    }

    // One round of RB_REMOVE_COLOR's loop, with the deficit on the left.
    method RemoveStepLeft(parent: Node, ghost c: Ctx, ghost s: Tree)
      returns (elm': Node?, parent': Node?, ghost c': Ctx, ghost s': Tree)
      requires At(c, s, parent.left, parent) && Removing(c, s) && !IsRed(s) && c.InLeft? && parent == c.n
      modifies this, All(c, s)
      ensures At(c', s', elm', parent') && Removing(c', s')
      ensures All(c', s') == All(c, s) && Spell(c', s') == Spell(c, s)
      ensures Measure(c', s') < Measure(c, s)
    {
      hide Sub, Above, Nodes, CtxNodes, Distinct, CtxDistinct, NoRedRed, Balanced, BlackHeight, Inorder, CtxNoRedRed,
           CtxBalanced, CtxBlackRoot, Apart, Before, After, Plug;
      AtHole(c, s, parent.left, parent);
      DebtHasSibling(c, s);
      ghost var d := c;
      var tmp := parent.right;
      if tmp.red {
        tmp, d := BorrowBlackLeft(parent, tmp, c, s);
      }
      AtHole(d, s, parent.left, parent);
      AtSibling(d, s, parent.left, parent);
      if (tmp.left == null || !tmp.left.red) && (tmp.right == null || !tmp.right.red) {
        BlackNephewsLeft(d, s);
        Rise(d, s, parent.left, parent);
        SetChildColor(tmp, true, false, d.up, Fill(d, s));
        elm' := parent;
        parent' := elm'.parent;
        c', s' := d.up, Bin(s, d.n, d.red, d.r.(red := true));
        PaintSame(d.up, Fill(d, s), s');
        AtHole(c', s', elm', parent');
      } else {
        if tmp.right == null || !tmp.right.red {
          tmp, d := StraightenNephewLeft(parent, tmp, d, s);
        }
        SettleLeft(parent, tmp, d, s);
        WholeTree(d, s);
        elm', parent', c', s' := root, null, Top, tree;
      }
    }

    // One round of RB_REMOVE_COLOR's loop, with the deficit on the right.
    method RemoveStepRight(parent: Node, ghost c: Ctx, ghost s: Tree)
      returns (elm': Node?, parent': Node?, ghost c': Ctx, ghost s': Tree)
      requires At(c, s, parent.right, parent) && Removing(c, s) && !IsRed(s) && c.InRight? && parent == c.n
      modifies this, All(c, s)
      ensures At(c', s', elm', parent') && Removing(c', s')
      ensures All(c', s') == All(c, s) && Spell(c', s') == Spell(c, s)
      ensures Measure(c', s') < Measure(c, s)
    {
      hide Sub, Above, Nodes, CtxNodes, Distinct, CtxDistinct, NoRedRed, Balanced, BlackHeight, Inorder, CtxNoRedRed,
           CtxBalanced, CtxBlackRoot, Apart, Before, After, Plug;
      AtHole(c, s, parent.right, parent);
      DebtHasSibling(c, s);
      ghost var d := c;
      var tmp := parent.left;
      if tmp.red {
        tmp, d := BorrowBlackRight(parent, tmp, c, s);
      }
      AtHole(d, s, parent.right, parent);
      AtSibling(d, s, parent.right, parent);
      if (tmp.left == null || !tmp.left.red) && (tmp.right == null || !tmp.right.red) {
        BlackNephewsRight(d, s);
        Rise(d, s, parent.right, parent);
        SetChildColor(tmp, true, true, d.up, Fill(d, s));
        elm' := parent;
        parent' := elm'.parent;
        c', s' := d.up, Bin(d.l.(red := true), d.n, d.red, s);
        PaintSame(d.up, Fill(d, s), s');
        AtHole(c', s', elm', parent');
      } else {
        if tmp.left == null || !tmp.left.red {
          tmp, d := StraightenNephewRight(parent, tmp, d, s);
        }
        SettleRight(parent, tmp, d, s);
        WholeTree(d, s);
        elm', parent', c', s' := root, null, Top, tree;
      }
    }

    // RB_REMOVE_COLOR
    method RemoveColor(parent0: Node?, elm0: Node?, ghost c0: Ctx, ghost s0: Tree)
      requires At(c0, s0, elm0, parent0) && Removing(c0, s0)
      modifies this, All(c0, s0)
      ensures Shape(tree) && RedBlack(tree) && Inorder(tree) == Spell(c0, s0)
    {
      hide Sub, Above, Nodes, CtxNodes, Distinct, CtxDistinct, NoRedRed, Balanced, BlackHeight, Inorder, CtxNoRedRed,
           CtxBalanced, CtxBlackRoot, Apart, Before, After, Plug;
      var parent, elm := parent0, elm0;
      ghost var c, s := c0, s0;
      AtHole(c, s, elm, parent);
      AtRoot(c, s, elm, parent);
      while (elm == null || !elm.red) && elm != root
        invariant At(c, s, elm, parent) && Removing(c, s)
        invariant elm == Root(s) && (elm != null ==> elm.red == s.red)
        invariant elm == root <==> c == Top
        invariant All(c, s) == All(c0, s0) && Spell(c, s) == Spell(c0, s0)
        decreases Measure(c, s)
      {
        AtHole(c, s, elm, parent);
        DebtHasSibling(c, s);
        if parent.left == elm {
          elm, parent, c, s := RemoveStepLeft(parent, c, s);
        } else {
          elm, parent, c, s := RemoveStepRight(parent, c, s);
        }
        AtHole(c, s, elm, parent);
        AtRoot(c, s, elm, parent);
      }
      PaintAndFinish(elm, parent, c, s);
    }

    method PaintAndFinish(elm: Node?, parent: Node?, ghost c: Ctx, ghost s: Tree)
      requires At(c, s, elm, parent) && Removing(c, s) && (c == Top || IsRed(s))
      modifies this`tree, All(c, s)
      ensures Shape(tree) && RedBlack(tree) && Inorder(tree) == Spell(c, s)
    {
      hide Above, Nodes, CtxNodes, Distinct, CtxDistinct, NoRedRed, Balanced, BlackHeight, Inorder, CtxNoRedRed,
           CtxBalanced,
           CtxBlackRoot, Before, After, Plug;
      AtHole(c, s, elm, parent);
      RemovingDone(c, s);
      if elm != null {
        SetColor(elm, false, c, s);
        PaintSame(c, s, Blacken(s));
      }
      AtWhole(c, Blacken(s), elm, parent);
      InorderPlug(c, Blacken(s));
      tree := Plug(c, Blacken(s));
    }

    // ---------- removal: RB_REMOVE ----------

    // The child that takes the place of a node with at most one child.
    static ghost function OnlyChild(s: Tree): Tree
      requires s.Bin?
    {
      if s.l.Leaf? then s.r else s.l
    }

    // Unlink elm, which has at most one child, and link that child instead.
    method Splice(elm: Node, child: Node?, ghost c: Ctx, ghost s: Tree)
      returns (parent: Node?, red: bool)
      requires s.Bin? && (s.l.Leaf? || s.r.Leaf?) && At(c, s, elm, elm.parent) && child == Root(OnlyChild(s))
      modifies this`root, All(c, s)
      ensures At(c, OnlyChild(s), child, parent) && red == s.red && elm !in All(c, OnlyChild(s))
      ensures elm.parent == parent
    {
      parent := elm.parent;
      red := elm.red;
      ghost var x := OnlyChild(s);
      assert Distinct(x) && Nodes(s) == {elm} + Nodes(x) && elm !in Nodes(x);
      assert Sub(s.l, elm.left, elm) && Sub(s.r, elm.right, elm);
      assert Sub(x, child, elm);
      assert allocated(Nodes(x)) && allocated(CtxNodes(c));
      assert Opt(child) <= Nodes(x) && Opt(parent) <= CtxNodes(c);
      Adopt(child, parent, elm, x);
      ReplaceChild(parent, elm, child, c);
    }

    // From a hole below the frame d up to the hole of d.
    lemma {:induction false} RiseTo(c: Ctx, d: Ctx, s: Tree, n: Node?, p: Node?) returns (n': Node?, p': Node?)
      requires At(Onto(c, d), s, n, p)
      ensures At(d, Plug(c, s), n', p') && n' == Root(Plug(c, s))
      ensures All(d, Plug(c, s)) == All(Onto(c, d), s)
      decreases c
    {
      if c == Top {
        n', p' := n, p;
      } else {
        Rise(Onto(c, d), s, n, p);
        n', p' := RiseTo(c.up, d, Fill(c, s), p, p.parent);
      }
    }

    // The walk to the leftmost node of the right subtree.
    method Successor(elm0: Node, ghost d: Ctx, ghost t0: Tree) returns (elm: Node, ghost c: Ctx, ghost t: Tree)
      requires t0.Bin? && At(d, t0, elm0, elm0.parent)
      ensures t.Bin? && t.l == Leaf && elm == t.n && Plug(c, t) == t0 && Before(c) == []
      ensures At(Onto(c, d), t, elm, elm.parent) && All(Onto(c, d), t) == All(d, t0)
    {
      hide Sub, Above, Nodes, CtxNodes, Distinct, CtxDistinct, Inorder;
      elm := elm0;
      c, t := Top, t0;
      var left := elm.left;
      LeftLink(d, t0, elm0);
      while left != null
        invariant t.Bin? && elm == t.n && left == elm.left == Root(t.l)
        invariant At(Onto(c, d), t, elm, elm.parent) && Plug(c, t) == t0 && Before(c) == []
        invariant All(Onto(c, d), t) == All(d, t0)
        decreases t
      {
        ghost var c' := InLeft(t.n, t.red, t.r, c);
        DescendLeft(Onto(c, d), t, elm, elm.parent);
        AtHole(Onto(c', d), t.l, left, elm);
        FillSame(Onto(c', d), t.l);
        elm := left;
        c, t := c', t.l;
        LeftLink(Onto(c, d), t, elm);
        left := elm.left;
      }
    }

    lemma LeftLink(c: Ctx, s: Tree, n: Node)
      requires s.Bin? && At(c, s, n, n.parent)
      ensures n == s.n && n.left == Root(s.l) && n.right == Root(s.r) && n.red == s.red
    {
      assert Sub(s.l, n.left, n) && Sub(s.r, n.right, n);
    }

    // (elm)->field = (old)->field and the links of old's neighbours.
    method TakePlace(gone: Node, elm: Node, ghost c: Ctx, ghost s: Tree)
      requires s.Bin? && s.l.Bin? && At(c, s, gone, gone.parent) && elm !in All(c, s)
      modifies this`root, All(c, s), elm
      ensures At(c, s.(n := elm), elm, elm.parent)
    {
      LeftLink(c, s, gone);
      ghost var p, l, r := gone.parent, s.l, s.r;
      assert Distinct(l) && Distinct(r) && Nodes(l) !! Nodes(r) && gone !in Nodes(l) && gone !in Nodes(r);
      assert Opt(gone.left) <= Nodes(l) && Opt(gone.right) <= Nodes(r) && Opt(p) <= CtxNodes(c);
      assert allocated(Nodes(l)) && allocated(Nodes(r)) && allocated(CtxNodes(c));
      TakeLinks(gone, elm, c, l, r);
      assert s.(n := elm) == Bin(l, elm, s.red, r);
    }

    method TakeLinks(gone: Node, elm: Node, ghost c: Ctx, ghost l: Tree, ghost r: Tree)
      requires CtxDistinct(c) && Above(c, gone, gone.parent) && Sub(l, gone.left, gone) && Sub(r, gone.right, gone)
      requires Distinct(l) && Distinct(r) && Nodes(l) !! Nodes(r) && CtxNodes(c) !! Nodes(l) && CtxNodes(c) !! Nodes(r)
      requires elm != gone && {elm, gone} !! CtxNodes(c) && {elm, gone} !! Nodes(l) && {elm, gone} !! Nodes(r)
      requires Opt(gone.left) <= Nodes(l) && Opt(gone.right) <= Nodes(r) && Opt(gone.parent) <= CtxNodes(c)
      requires gone.left != null
      modifies this`root, elm, Opt(gone.parent)`left, Opt(gone.parent)`right, Opt(gone.left)`parent,
               Opt(gone.right)`parent
      ensures Above(c, elm, elm.parent) && Sub(l, elm.left, elm) && Sub(r, elm.right, elm)
      ensures elm.red == gone.red
    {
      hide Sub, Above, Nodes, CtxNodes, Distinct, CtxDistinct;
      assert allocated(Nodes(l)) && allocated(Nodes(r)) && allocated(CtxNodes(c));
      elm.left, elm.right, elm.parent, elm.red := gone.left, gone.right, gone.parent, gone.red;
      ReplaceChild(gone.parent, gone, elm, c);
      Adopt(gone.left, elm, gone, l);
      Adopt(gone.right, elm, gone, r);
    }

    // Repair if a black node went, otherwise just record the new tree.
    method Close(parent: Node?, child: Node?, red: bool, ghost c: Ctx, ghost s: Tree)
      requires At(c, s, child, parent) && (if red then RedBlack(Plug(c, s)) else Removing(c, s))
      modifies this, All(c, s)
      ensures Shape(tree) && RedBlack(tree) && Inorder(tree) == Spell(c, s)
    {
      hide Sub, Above, Nodes, CtxNodes, Distinct, CtxDistinct;
      if !red {
        RemoveColor(parent, child, c, s);
      } else {
        AtWhole(c, s, child, parent);
        InorderPlug(c, s);
        tree := Plug(c, s);
      }
    }

    // RB_REMOVE when elm has at most one child.
    method RemoveShallow(elm: Node, child: Node?, ghost c: Ctx, ghost s: Tree)
      requires s.Bin? && (s.l.Leaf? || s.r.Leaf?) && At(c, s, elm, elm.parent) && child == Root(OnlyChild(s))
      requires RedBlack(Plug(c, s))
      modifies this, All(c, s)
      ensures Shape(tree) && RedBlack(tree)
      ensures Inorder(tree) == Before(c) + (Inorder(s.l) + Inorder(s.r)) + After(c)
    {
      hide Sub, Above, Nodes, CtxNodes, Distinct, CtxDistinct, NoRedRed, Balanced, BlackHeight, Inorder, Before, After;
      ghost var x := OnlyChild(s);
      SpliceLaws(c, s, x);
      SpliceNodes(c, s, x);
      var parent, red := Splice(elm, child, c, s);
      Close(parent, child, red, c, x);
      assert Inorder(x) == Inorder(s.l) + Inorder(s.r) by { OnlyChildOrder(s); }
    }

    static lemma OnlyChildOrder(s: Tree)
      requires s.Bin? && (s.l.Leaf? || s.r.Leaf?)
      ensures Inorder(OnlyChild(s)) == Inorder(s.l) + Inorder(s.r)
    {
    }

    // RB_REMOVE when elm has two children: its successor takes its place.
    method RemoveDeep(elm: Node, ghost c: Ctx, ghost s: Tree)
      requires s.Bin? && s.l.Bin? && s.r.Bin? && At(c, s, elm, elm.parent) && RedBlack(Plug(c, s))
      modifies this, All(c, s)
      ensures Shape(tree) && RedBlack(tree)
      ensures Inorder(tree) == Before(c) + (Inorder(s.l) + Inorder(s.r)) + After(c)
    {
      hide Sub, Above, Nodes, CtxNodes, Distinct, CtxDistinct, NoRedRed, Balanced, BlackHeight, Inorder, CtxNoRedRed,
           CtxBalanced, CtxBlackRoot, Apart, Before, After, Plug, Onto, Spell;
      ghost var gone, d := elm, InRight(s.l, elm, s.red, c);
      LeftLink(c, s, elm);
      DescendRight(c, s, elm, elm.parent);
      FillSame(d, s.r);
      AtHole(d, s.r, elm.right, elm);
      var succ;
      ghost var c1, t;
      succ, c1, t := Successor(elm.right, d, s.r);
      ghost var d0, x := Onto(c1, d), t.r;
      LeftLink(d0, t, succ);
      DeepLaws(c, s, c1, t, succ);
      var child := succ.right;
      AtHole(d0, t, succ, succ.parent);
      SpliceNodes(d0, t, x);
      var parent, red := Splice(succ, child, d0, t);
      AtHole(d0, x, child, parent);
      TopFrame(c1, d, x);
      if succ.parent == elm {
        parent := succ;
      }
      ghost var d1 := Onto(c1, InRight(s.l, succ, s.red, c));
      Substitute(elm, succ, child, parent, c, s, c1, x);
      FillSame(d, s.r);
      SubstituteNodes(c, s, c1, t, succ);
      Close(parent, child, red, d1, x);
      DeepOrder(c, s, c1, t, succ);
    }

    // The spliced-out successor takes the place of the removed node.
    method Substitute(gone: Node, elm: Node, ghost child: Node?, ghost parent: Node?, ghost c: Ctx, ghost s: Tree,
        ghost c1: Ctx, ghost x: Tree)
      requires s.Bin? && s.l.Bin? && gone == s.n && child == Root(x)
      requires parent == if c1 == Top then elm else c1.n
      requires exists p :: At(Onto(c1, InRight(s.l, gone, s.red, c)), x, child, p)
      requires elm !in All(Onto(c1, InRight(s.l, gone, s.red, c)), x)
      modifies this`root, All(Onto(c1, InRight(s.l, gone, s.red, c)), x), elm
      ensures At(Onto(c1, InRight(s.l, elm, s.red, c)), x, child, parent)
    {
      hide Sub, Above, Nodes, CtxNodes, Distinct, CtxDistinct;
      ghost var d, d1, r1 := InRight(s.l, gone, s.red, c), InRight(s.l, elm, s.red, c), Plug(c1, x);
      ghost var p0 :| At(Onto(c1, d), x, child, p0);
      ghost var n', p' := RiseTo(c1, d, x, child, p0);
      Rise(d, r1, n', p');
      TakePlace(gone, elm, c, Bin(s.l, gone, s.red, r1));
      ghost var s2 := Bin(s.l, elm, s.red, r1);
      AtWhole(c, s2, elm, elm.parent);
      OntoPlug(c1, d1, x);
      NodesPlug(Onto(c1, d1), x);
      assert Plug(d1, r1) == Plug(c, s2);
      ghost var n2, p2 := WholeAt(Onto(c1, d1), x);
      AtHole(Onto(c1, d1), x, n2, p2);
    }

    // The frame at the hole belongs to d only when c is empty.
    lemma TopFrame(c: Ctx, d: Ctx, s: Tree)
      requires d != Top && Apart(Onto(c, d), s)
      ensures c != Top ==> c.n != d.n
      ensures Onto(c, d) != Top && Onto(c, d).n == if c == Top then d.n else c.n
    {
      if c != Top { OntoHas(c.up, d); }
    }

    // RB_REMOVE
    method Remove(elm: Node) returns (r: Node)
      requires Valid() && elm in Nodes(tree)
      modifies this, Nodes(tree)
      ensures Valid() && r == elm && Nodes(tree) == old(Nodes(tree)) - {elm}
    {
      hide Sub, Above, Nodes, CtxNodes, Distinct, CtxDistinct, NoRedRed, Balanced, BlackHeight, Inorder, Before, After,
           Plug, Apart, At;
      ghost var t := tree;
      ghost var c, s := Locate(t, elm);
      NodesPlug(c, s);
      ghost var n, p := WholeAt(c, s);
      AtHole(c, s, n, p);
      LeftLink(c, s, elm);
      HoleOrder(c, s);
      var child;
      if elm.left == null {
        child := elm.right;
        RemoveShallow(elm, child, c, s);
      } else if elm.right == null {
        child := elm.left;
        RemoveShallow(elm, child, c, s);
      } else {
        RemoveDeep(elm, c, s);
      }
      ghost var a, b := Before(c) + Inorder(s.l), Inorder(s.r) + After(c);
      assert a + b == Before(c) + (Inorder(s.l) + Inorder(s.r)) + After(c);
      RemoveContents(t, a, elm, b, tree);
      r := elm;
    }
  }
}
