// The value-level picture of the red-black tree of 3rd/libuv/include/tree.h:
// a tree of node references, the one-hole context around a subtree, and the
// red-black laws stated on both.
module RBShape {
  // One element carrying an RB_ENTRY.  The comparator is represented by the
  // integer rank it assigns to an element.
  class Node {
    const key: int
    var left: Node?
    var right: Node?
    var parent: Node?
    var red: bool

    constructor (key: int)
      ensures this.key == key && left == null && right == null && parent == null && !red
    {
      this.key := key;
      left, right, parent, red := null, null, null, false;
    }
  }

  datatype Tree = Leaf | Bin(l: Tree, n: Node, red: bool, r: Tree)

  // The path from a hole back to the root, innermost frame first.
  datatype Ctx = Top
               | InLeft(n: Node, red: bool, r: Tree, up: Ctx)
               | InRight(l: Tree, n: Node, red: bool, up: Ctx)

  ghost function Plug(c: Ctx, t: Tree): Tree {
    match c
    case Top => t
    case InLeft(n, red, r, up) => Plug(up, Bin(t, n, red, r))
    case InRight(l, n, red, up) => Plug(up, Bin(l, n, red, t))
  }

  // ---------- contents and order ----------

  ghost function Inorder(t: Tree): seq<Node> {
    match t
    case Leaf => []
    case Bin(l, n, _, r) => Inorder(l) + [n] + Inorder(r)
  }

  ghost function Before(c: Ctx): seq<Node> {
    match c
    case Top => []
    case InLeft(_, _, _, up) => Before(up)
    case InRight(l, n, _, up) => Before(up) + Inorder(l) + [n]
  }

  ghost function After(c: Ctx): seq<Node> {
    match c
    case Top => []
    case InLeft(n, _, r, up) => [n] + Inorder(r) + After(up)
    case InRight(_, _, _, up) => After(up)
  }

  lemma {:induction false} InorderPlug(c: Ctx, t: Tree)
    ensures Inorder(Plug(c, t)) == Before(c) + Inorder(t) + After(c)
  {
    match c
    case Top =>
    case InLeft(n, red, r, up) =>
      InorderPlug(up, Bin(t, n, red, r));
      Regroup(Before(up), Inorder(t), n, Inorder(r), After(up));
    case InRight(l, n, red, up) =>
      InorderPlug(up, Bin(l, n, red, t));
      Regroup(Before(up), Inorder(l), n, Inorder(t), After(up));
  }

  lemma Regroup(a: seq<Node>, b: seq<Node>, n: Node, d: seq<Node>, e: seq<Node>)
    ensures a + (b + [n] + d) + e == a + b + ([n] + d + e) == (a + b + [n]) + d + e
    ensures a + (b + [n] + d) + e == (a + b) + [n] + (d + e)
  {
  }

  ghost predicate Sorted(s: seq<Node>) {
    forall i, j :: 0 <= i < j < |s| ==> s[i].key < s[j].key
  }

  ghost predicate Below(s: seq<Node>, k: int) {
    forall n :: n in s ==> n.key < k
  }

  ghost predicate Beyond(s: seq<Node>, k: int) {
    forall n :: n in s ==> k < n.key
  }

  // Sorted stays sorted when an element goes between the smaller and the larger.
  lemma SortedInsert(a: seq<Node>, n: Node, b: seq<Node>)
    requires Sorted(a + b) && Below(a, n.key) && Beyond(b, n.key)
    ensures Sorted(a + [n] + b)
  {
    var s, r := a + b, a + [n] + b;
    forall i, j | 0 <= i < j < |r| ensures r[i].key < r[j].key {
      assert i < |a| ==> r[i] == s[i] && r[i] in a;
      assert j < |a| ==> r[j] == s[j];
      assert i > |a| ==> r[i] == s[i - 1];
      assert j > |a| ==> r[j] == s[j - 1] && r[j] in b;
    }
  }

  ghost function Nodes(t: Tree): set<Node> {
    match t
    case Leaf => {}
    case Bin(l, n, _, r) => Nodes(l) + {n} + Nodes(r)
  }

  ghost function CtxNodes(c: Ctx): set<Node> {
    match c
    case Top => {}
    case InLeft(n, _, r, up) => {n} + Nodes(r) + CtxNodes(up)
    case InRight(l, n, _, up) => {n} + Nodes(l) + CtxNodes(up)
  }

  lemma {:induction false} InorderHas(t: Tree, n: Node)
    ensures n in Inorder(t) <==> n in Nodes(t)
  {
    match t
    case Leaf =>
    case Bin(l, _, _, r) => InorderHas(l, n); InorderHas(r, n);
  }

  lemma AbsentKey(t: Tree, a: seq<Node>, b: seq<Node>, e: Node)
    requires Inorder(t) == a + b && Below(a, e.key) && Beyond(b, e.key)
    ensures forall n :: n in Nodes(t) ==> n.key != e.key
    ensures e !in Nodes(t)
  {
    InorderHas(t, e);
    forall n | n in Nodes(t) ensures n.key != e.key {
      InorderHas(t, n);
      assert n in a + b;
    }
  }

  lemma InsertContents(t: Tree, a: seq<Node>, b: seq<Node>, e: Node, t': Tree)
    requires Inorder(t) == a + b && Below(a, e.key) && Beyond(b, e.key) && Sorted(a + b)
    requires Inorder(t') == a + [e] + b
    ensures Sorted(Inorder(t')) && Nodes(t') == Nodes(t) + {e}
  {
    SortedInsert(a, e, b);
    assert allocated(Nodes(t)) && allocated(Nodes(t'));
    forall n ensures n in Nodes(t') <==> n in Nodes(t) + {e} {
      InorderHas(t, n);
      InorderHas(t', n);
      assert n in a + [e] + b <==> n in a + b || n == e;
    }
  }

  lemma {:induction false} NodesPlug(c: Ctx, t: Tree)
    ensures Nodes(Plug(c, t)) == CtxNodes(c) + Nodes(t)
  {
    match c
    case Top =>
    case InLeft(n, red, r, up) => NodesPlug(up, Bin(t, n, red, r));
    case InRight(l, n, red, up) => NodesPlug(up, Bin(l, n, red, t));
  }

  // ---------- every node occurs once ----------

  ghost predicate Distinct(t: Tree) {
    match t
    case Leaf => true
    case Bin(l, n, _, r) =>
      && n !in Nodes(l) && n !in Nodes(r) && Nodes(l) !! Nodes(r)
      && Distinct(l) && Distinct(r)
  }

  ghost predicate CtxDistinct(c: Ctx) {
    match c
    case Top => true
    case InLeft(n, _, r, up) =>
      && n !in Nodes(r) && n !in CtxNodes(up) && Nodes(r) !! CtxNodes(up)
      && Distinct(r) && CtxDistinct(up)
    case InRight(l, n, _, up) =>
      && n !in Nodes(l) && n !in CtxNodes(up) && Nodes(l) !! CtxNodes(up)
      && Distinct(l) && CtxDistinct(up)
  }

  ghost predicate Apart(c: Ctx, t: Tree) {
    CtxDistinct(c) && Distinct(t) && CtxNodes(c) !! Nodes(t)
  }

  // ---------- the red-black laws ----------

  ghost predicate IsRed(t: Tree) { t.Bin? && t.red }

  // No red node has a red child.
  ghost predicate NoRedRed(t: Tree) {
    match t
    case Leaf => true
    case Bin(l, _, red, r) =>
      (red ==> !IsRed(l) && !IsRed(r)) && NoRedRed(l) && NoRedRed(r)
  }

  function Weight(red: bool): nat { if red then 0 else 1 }

  // Black nodes on the leftmost path; on a Balanced tree, on every path.
  ghost function BlackHeight(t: Tree): nat {
    match t
    case Leaf => 0
    case Bin(l, _, red, _) => BlackHeight(l) + Weight(red)
  }

  ghost predicate Balanced(t: Tree) {
    match t
    case Leaf => true
    case Bin(l, _, _, r) => BlackHeight(l) == BlackHeight(r) && Balanced(l) && Balanced(r)
  }

  // The colour law everywhere in c, given the colour of the root of the hole.
  ghost predicate CtxNoRedRed(c: Ctx, hole: bool) {
    match c
    case Top => true
    case InLeft(_, red, r, up) => (red ==> !hole && !IsRed(r)) && NoRedRed(r) && CtxNoRedRed(up, red)
    case InRight(l, _, red, up) => (red ==> !hole && !IsRed(l)) && NoRedRed(l) && CtxNoRedRed(up, red)
  }

  // Every path through c agrees once the hole holds a tree of black height h.
  ghost predicate CtxBalanced(c: Ctx, h: nat) {
    match c
    case Top => true
    case InLeft(_, red, r, up) => Balanced(r) && BlackHeight(r) == h && CtxBalanced(up, h + Weight(red))
    case InRight(l, _, red, up) => Balanced(l) && BlackHeight(l) == h && CtxBalanced(up, h + Weight(red))
  }

  // The outermost frame, which holds the root of the whole tree, is black.
  ghost predicate CtxBlackRoot(c: Ctx) {
    match c
    case Top => true
    case InLeft(_, red, _, up) => if up.Top? then !red else CtxBlackRoot(up)
    case InRight(_, _, red, up) => if up.Top? then !red else CtxBlackRoot(up)
  }

  ghost predicate RedBlack(t: Tree) { NoRedRed(t) && Balanced(t) && !IsRed(t) }

  lemma {:induction false} NoRedRedPlug(c: Ctx, t: Tree)
    ensures NoRedRed(Plug(c, t)) <==> NoRedRed(t) && CtxNoRedRed(c, IsRed(t))
  {
    match c
    case Top =>
    case InLeft(n, red, r, up) => NoRedRedPlug(up, Bin(t, n, red, r));
    case InRight(l, n, red, up) => NoRedRedPlug(up, Bin(l, n, red, t));
  }

  lemma {:induction false} BalancedPlug(c: Ctx, t: Tree)
    ensures Balanced(Plug(c, t)) <==> Balanced(t) && CtxBalanced(c, BlackHeight(t))
  {
    match c
    case Top =>
    case InLeft(n, red, r, up) => BalancedPlug(up, Bin(t, n, red, r));
    case InRight(l, n, red, up) => BalancedPlug(up, Bin(l, n, red, t));
  }

  lemma {:induction false} BlackRootPlug(c: Ctx, t: Tree)
    ensures c != Top ==> (!IsRed(Plug(c, t)) <==> CtxBlackRoot(c))
  {
    match c
    case Top =>
    case InLeft(n, red, r, up) => BlackRootPlug(up, Bin(t, n, red, r));
    case InRight(l, n, red, up) => BlackRootPlug(up, Bin(l, n, red, t));
  }

  // The laws of a whole tree, split at a hole.
  lemma RedBlackPlug(c: Ctx, t: Tree)
    ensures RedBlack(Plug(c, t)) <==>
            && NoRedRed(t) && CtxNoRedRed(c, IsRed(t))
            && Balanced(t) && CtxBalanced(c, BlackHeight(t))
            && (if c.Top? then !IsRed(t) else CtxBlackRoot(c))
  {
    NoRedRedPlug(c, t);
    BalancedPlug(c, t);
    BlackRootPlug(c, t);
  }

  // The innermost frame of c closed around s.
  ghost function Fill(c: Ctx, s: Tree): Tree
    requires c != Top
  {
    if c.InLeft? then Bin(s, c.n, c.red, c.r) else Bin(c.l, c.n, c.red, s)
  }

  ghost function All(c: Ctx, s: Tree): set<Node> { CtxNodes(c) + Nodes(s) }

  ghost function Spell(c: Ctx, s: Tree): seq<Node> { Before(c) + Inorder(s) + After(c) }

  lemma FillSame(c: Ctx, s: Tree)
    requires c != Top
    ensures All(c.up, Fill(c, s)) == All(c, s)
    ensures Spell(c.up, Fill(c, s)) == Spell(c, s)
    ensures Plug(c.up, Fill(c, s)) == Plug(c, s)
  {
    Regroup(Before(c.up), if c.InLeft? then Inorder(s) else Inorder(c.l), c.n,
            if c.InLeft? then Inorder(c.r) else Inorder(s), After(c.up));
  }

  lemma SameNodes(t: Tree, c: Ctx, s: Tree)
    requires Inorder(t) == Spell(c, s)
    ensures Nodes(t) == All(c, s)
  {
    InorderPlug(c, s);
    NodesPlug(c, s);
    var u := Plug(c, s);
    assert allocated(Nodes(t)) && allocated(Nodes(u));
    forall n ensures n in Nodes(t) <==> n in Nodes(u) {
      InorderHas(t, n);
      InorderHas(u, n);
    }
  }

  // One step of a search for k, to the left of s.n or to its right.
  lemma NarrowLeft(c: Ctx, s: Tree, k: int)
    requires s.Bin? && Sorted(Spell(c, s)) && k < s.n.key && Below(Before(c), k) && Beyond(After(c), k)
    ensures var c' := InLeft(s.n, s.red, s.r, c);
            && Spell(c', s.l) == Spell(c, s) && Plug(c', s.l) == Plug(c, s) && All(c', s.l) == All(c, s)
            && Below(Before(c'), k) && Beyond(After(c'), k)
  {
    var c' := InLeft(s.n, s.red, s.r, c);
    FillSame(c', s.l);
    var sp, a := Spell(c', s.l), |Before(c)| + |Inorder(s.l)|;
    assert sp[a] == s.n;
    forall n | n in After(c') ensures k < n.key {
      var i :| 0 <= i < |After(c')| && After(c')[i] == n;
      assert sp[a + i] == n;
    }
  }

  lemma NarrowRight(c: Ctx, s: Tree, k: int)
    requires s.Bin? && Sorted(Spell(c, s)) && s.n.key < k && Below(Before(c), k) && Beyond(After(c), k)
    ensures var c' := InRight(s.l, s.n, s.red, c);
            && Spell(c', s.r) == Spell(c, s) && Plug(c', s.r) == Plug(c, s) && All(c', s.r) == All(c, s)
            && Below(Before(c'), k) && Beyond(After(c'), k)
  {
    var c' := InRight(s.l, s.n, s.red, c);
    FillSame(c', s.r);
    var sp, a := Spell(c', s.r), |Before(c)| + |Inorder(s.l)|;
    assert sp[a] == s.n;
    forall n | n in Before(c') ensures n.key < k {
      var i :| 0 <= i < |Before(c')| && Before(c')[i] == n;
      assert sp[i] == n;
    }
  }

  lemma HoleOrder(c: Ctx, s: Tree)
    requires s.Bin?
    ensures Inorder(Plug(c, s)) == (Before(c) + Inorder(s.l)) + [s.n] + (Inorder(s.r) + After(c))
  {
    hide Before, After, Plug;
    InorderPlug(c, s);
    Regroup(Before(c), Inorder(s.l), s.n, Inorder(s.r), After(c));
  }

  lemma {:induction false} OntoHas(c: Ctx, d: Ctx)
    requires d != Top
    ensures d.n in CtxNodes(Onto(c, d))
  {
    if c != Top { OntoHas(c.up, d); }
  }

  lemma {:induction false} OntoNodes(c: Ctx, d: Ctx)
    ensures CtxNodes(Onto(c, d)) == CtxNodes(c) + CtxNodes(d)
  {
    if c != Top { OntoNodes(c.up, d); }
  }

  // Either rotation keeps the in-order sequence and the nodes.
  lemma RotationSame(a: Tree, x: Node, xr: bool, b: Tree, y: Node, yr: bool, d: Tree)
    ensures Inorder(Bin(Bin(a, x, xr, b), y, yr, d)) == Inorder(Bin(a, x, xr, Bin(b, y, yr, d)))
    ensures Nodes(Bin(Bin(a, x, xr, b), y, yr, d)) == Nodes(Bin(a, x, xr, Bin(b, y, yr, d)))
  {
    var l, m, r := Inorder(a), Inorder(b), Inorder(d);
    assert (l + [x] + m) + [y] + r == l + [x] + (m + [y] + r);
  }

  // The same tree up to the colours of its root and the root's children.
  ghost predicate SameButColours(g: Tree, h: Tree) {
    && g.Bin? && h.Bin? && g.n == h.n && SameButColour(g.l, h.l) && SameButColour(g.r, h.r)
  }

  ghost predicate SameButColour(a: Tree, b: Tree) {
    a == b || (a.Bin? && b.Bin? && a.l == b.l && a.n == b.n && a.r == b.r)
  }

  lemma PaintSame(c: Ctx, g: Tree, h: Tree)
    requires SameButColours(g, h)
    ensures All(c, g) == All(c, h) && Spell(c, g) == Spell(c, h)
  {
    assert Inorder(g.l) == Inorder(h.l) && Nodes(g.l) == Nodes(h.l);
    assert Inorder(g.r) == Inorder(h.r) && Nodes(g.r) == Nodes(h.r);
  }

  // ---------- insertion ----------

  // While insertion repairs upwards: s is red at its root and sound by itself;
  // the only law that may fail is a red node directly above s.
  ghost predicate Inserting(c: Ctx, s: Tree) {
    && IsRed(s) && NoRedRed(s) && Balanced(s)
    && CtxNoRedRed(c, false) && CtxBalanced(c, BlackHeight(s))
    && (c != Top ==> CtxBlackRoot(c))
  }

  lemma InsertingDone(c: Ctx, s: Tree)
    requires Inserting(c, s) && (c == Top || !c.red)
    ensures c == Top ==> RedBlack(s.(red := false))
    ensures c != Top ==> RedBlack(Plug(c, s))
  {
    RedBlackPlug(c, s);
  }

  lemma SingleNode(n: Node)
    ensures var s := Bin(Leaf, n, true, Leaf); Inorder(s) == [n] && Nodes(s) == {n}
  {
  }

  // A fresh red node in an empty hole of a red-black tree.
  lemma InsertingLeaf(c: Ctx, n: Node)
    requires RedBlack(Plug(c, Leaf))
    ensures Inserting(c, Bin(Leaf, n, true, Leaf))
  {
    RedBlackPlug(c, Leaf);
  }

  // The uncle's subtree.
  ghost function Uncle(c: Ctx): Tree
    requires c != Top && c.up != Top
  {
    if c.up.InLeft? then c.up.r else c.up.l
  }

  // A red parent is not the root, and the grandparent is black.
  lemma RedParent(c: Ctx, s: Tree)
    requires Inserting(c, s) && c != Top && c.red
    ensures c.up != Top && !c.up.red
    ensures NoRedRed(Uncle(c)) && Balanced(Uncle(c)) && BlackHeight(Uncle(c)) == BlackHeight(s)
    ensures CtxNoRedRed(c.up.up, false) && CtxBalanced(c.up.up, BlackHeight(s) + 1)
    ensures c.up.up != Top ==> CtxBlackRoot(c.up.up)
  {
    assert CtxNoRedRed(c.up, true) && CtxBalanced(c.up, BlackHeight(s)) && CtxBlackRoot(c.up);
  }

  // Red uncle: the grandparent turns red and becomes the new trouble spot.
  lemma InsertRecolor(c: Ctx, s: Tree)
    requires Inserting(c, s) && c != Top && c.red && c.up != Top && IsRed(Uncle(c))
    ensures var g := Fill(c.up, Fill(c, s));
            Inserting(c.up.up, Bin(g.l.(red := false), g.n, true, g.r.(red := false)))
  {
    RedParent(c, s);
  }

  // Black uncle on the other side: after the rotation at the grandparent
  // nothing is left to repair.
  lemma InsertRotateRight(c: Ctx, s: Tree)
    requires Inserting(c, s) && c.InLeft? && c.red && c.up.InLeft? && !IsRed(c.up.r)
    ensures var sibling := Bin(c.r, c.up.n, true, c.up.r);
            Inserting(InLeft(c.n, false, sibling, c.up.up), s)
  {
    RedParent(c, s);
  }

  lemma InsertRotateLeft(c: Ctx, s: Tree)
    requires Inserting(c, s) && c.InRight? && c.red && c.up.InRight? && !IsRed(c.up.l)
    ensures var sibling := Bin(c.up.l, c.up.n, true, c.l);
            Inserting(InRight(sibling, c.n, false, c.up.up), s)
  {
    RedParent(c, s);
  }

  // An inner grandchild: rotating at the parent turns it into the outer case.
  lemma InsertStraightenLeft(c: Ctx, s: Tree)
    requires Inserting(c, s) && c.InRight? && c.red && c.up.InLeft? && !IsRed(c.up.r)
    ensures Inserting(InLeft(s.n, true, s.r, c.up), Bin(c.l, c.n, true, s.l))
  {
    RedParent(c, s);
  }

  lemma InsertStraightenRight(c: Ctx, s: Tree)
    requires Inserting(c, s) && c.InLeft? && c.red && c.up.InRight? && !IsRed(c.up.l)
    ensures Inserting(InRight(s.l, s.n, true, c.up), Bin(s.r, c.n, true, c.r))
  {
    RedParent(c, s);
  }

  // c with d in place of Top.
  ghost function Onto(c: Ctx, d: Ctx): Ctx {
    match c
    case Top => d
    case InLeft(n, red, r, up) => InLeft(n, red, r, Onto(up, d))
    case InRight(l, n, red, up) => InRight(l, n, red, Onto(up, d))
  }

  lemma {:induction false} OntoPlug(c: Ctx, d: Ctx, s: Tree)
    ensures Plug(Onto(c, d), s) == Plug(d, Plug(c, s))
  {
    match c
    case Top =>
    case InLeft(n, red, r, up) => OntoPlug(up, d, Bin(s, n, red, r));
    case InRight(l, n, red, up) => OntoPlug(up, d, Bin(l, n, red, s));
  }

  // The red-black laws do not look at which node sits where.
  lemma {:induction false} OntoColours(c: Ctx, l: Tree, a: Node, b: Node, red: bool, d: Ctx, hole: bool)
    ensures var x, y := Onto(c, InRight(l, a, red, d)), Onto(c, InRight(l, b, red, d));
            CtxNoRedRed(x, hole) == CtxNoRedRed(y, hole) && CtxBlackRoot(x) == CtxBlackRoot(y)
    ensures Onto(c, InRight(l, a, red, d)) != Top && Onto(c, InRight(l, b, red, d)) != Top
    decreases c
  {
    if c != Top { OntoColours(c.up, l, a, b, red, d, c.red); }
  }

  lemma {:induction false} OntoHeights(c: Ctx, l: Tree, a: Node, b: Node, red: bool, d: Ctx, h: nat)
    ensures CtxBalanced(Onto(c, InRight(l, a, red, d)), h) == CtxBalanced(Onto(c, InRight(l, b, red, d)), h)
    decreases c
  {
    if c != Top { OntoHeights(c.up, l, a, b, red, d, h + Weight(c.red)); }
  }

  lemma {:induction false} OntoOrder(c: Ctx, d: Ctx)
    ensures Before(Onto(c, d)) == Before(d) + Before(c) && After(Onto(c, d)) == After(c) + After(d)
  {
    if c != Top { OntoOrder(c.up, d); }
  }

  lemma SortedDelete(a: seq<Node>, n: Node, b: seq<Node>)
    requires Sorted(a + [n] + b)
    ensures Sorted(a + b) && n !in a + b
  {
    var s, r := a + [n] + b, a + b;
    forall i, j | 0 <= i < j < |r| ensures r[i].key < r[j].key {
      assert i < |a| ==> r[i] == s[i];
      assert i >= |a| ==> r[i] == s[i + 1];
      assert j < |a| ==> r[j] == s[j];
      assert j >= |a| ==> r[j] == s[j + 1];
    }
    forall i | 0 <= i < |r| ensures r[i] != n {
      assert s[|a|] == n;
      assert i < |a| ==> r[i] == s[i];
      assert i >= |a| ==> r[i] == s[i + 1];
    }
  }

  lemma RemoveContents(t: Tree, a: seq<Node>, e: Node, b: seq<Node>, t': Tree)
    requires Inorder(t) == a + [e] + b && Sorted(Inorder(t)) && Inorder(t') == a + b
    ensures Sorted(Inorder(t')) && Nodes(t') == Nodes(t) - {e}
  {
    SortedDelete(a, e, b);
    assert allocated(Nodes(t)) && allocated(Nodes(t'));
    forall n ensures n in Nodes(t') <==> n in Nodes(t) - {e} {
      InorderHas(t, n);
      InorderHas(t', n);
      assert n in a + [e] + b <==> n in a + b || n == e;
    }
  }

  // ---------- removal ----------

  ghost function Blacken(t: Tree): Tree { if t.Leaf? then t else t.(red := false) }

  // While removal repairs upwards: every path through s is one black node
  // short.  A red root of s, even under a red parent, is about to turn black.
  ghost predicate Removing(c: Ctx, s: Tree) {
    && NoRedRed(Blacken(s)) && Balanced(s)
    && CtxNoRedRed(c, false) && CtxBalanced(c, BlackHeight(s) + 1)
    && (c != Top ==> CtxBlackRoot(c))
  }

  lemma RemovingDone(c: Ctx, s: Tree)
    requires Removing(c, s) && (c == Top || IsRed(s))
    ensures RedBlack(Plug(c, Blacken(s)))
  {
    RedBlackPlug(c, Blacken(s));
  }

  // Taking out a node with at most one child leaves a debt exactly when the
  // node was black.
  lemma SpliceLaws(c: Ctx, s: Tree, x: Tree)
    requires s.Bin? && RedBlack(Plug(c, s)) && ((s.l == Leaf && x == s.r) || (s.r == Leaf && x == s.l))
    ensures !s.red ==> Removing(c, x)
    ensures s.red ==> RedBlack(Plug(c, x))
  {
    hide Plug;
    RedBlackPlug(c, s);
    assert NoRedRed(x) && Balanced(x) && (s.red ==> !IsRed(x));
    assert BlackHeight(s) == BlackHeight(x) + Weight(s.red);
    AllowsBlack(c, s.red);
    if s.red { RedBlackPlug(c, x); } else { assert NoRedRed(Blacken(x)); }
  }

  lemma SpliceNodes(c: Ctx, s: Tree, x: Tree)
    requires s.Bin? && ((s.l == Leaf && x == s.r) || (s.r == Leaf && x == s.l))
    ensures All(c, s) == All(c, x) + {s.n}
  {
    assert Nodes(s) == {s.n} + Nodes(x);
  }

  // Taking out the successor t.n of s.n and putting it where s.n was.
  lemma DeepLaws(c: Ctx, s: Tree, c1: Ctx, t: Tree, succ: Node)
    requires s.Bin? && t.Bin? && t.l == Leaf && Plug(c1, t) == s.r && RedBlack(Plug(c, s))
    ensures var d1 := Onto(c1, InRight(s.l, succ, s.red, c));
            if t.red then RedBlack(Plug(d1, t.r)) else Removing(d1, t.r)
  {
    var d, e := InRight(s.l, s.n, s.red, c), InRight(s.l, succ, s.red, c);
    var d0, d1 := Onto(c1, d), Onto(c1, e);
    OntoPlug(c1, d, t);
    SpliceLaws(d0, t, t.r);
    OntoColours(c1, s.l, s.n, succ, s.red, c, false);
    OntoColours(c1, s.l, s.n, succ, s.red, c, IsRed(t.r));
    OntoHeights(c1, s.l, s.n, succ, s.red, c, BlackHeight(t.r));
    OntoHeights(c1, s.l, s.n, succ, s.red, c, BlackHeight(t.r) + 1);
    RedBlackPlug(d0, t.r);
    RedBlackPlug(d1, t.r);
  }

  lemma DeepOrder(c: Ctx, s: Tree, c1: Ctx, t: Tree, succ: Node)
    requires s.Bin? && t.Bin? && t.l == Leaf && t.n == succ && Plug(c1, t) == s.r && Before(c1) == []
    ensures Spell(Onto(c1, InRight(s.l, succ, s.red, c)), t.r) == Before(c) + (Inorder(s.l) + Inorder(s.r)) + After(c)
  {
    hide Inorder, Before, After, Onto, Plug;
    var e := InRight(s.l, succ, s.red, c);
    var b, l, n, x, a1, a := Before(c), Inorder(s.l), [succ], Inorder(t.r), After(c1), After(c);
    FrameOrder(s.l, succ, s.red, c);
    OntoOrder(c1, e);
    assert Before(Onto(c1, e)) == b + l + n;
    InorderPlug(c1, t);
    LeftmostOrder(t);
    assert Inorder(s.r) == n + x + a1;
    RegroupFive(b, l, n, x, a1, a);
  }

  lemma FrameOrder(l: Tree, n: Node, red: bool, c: Ctx)
    ensures Before(InRight(l, n, red, c)) == Before(c) + Inorder(l) + [n] && After(InRight(l, n, red, c)) == After(c)
  {
  }

  lemma LeftmostOrder(t: Tree)
    requires t.Bin? && t.l == Leaf
    ensures Inorder(t) == [t.n] + Inorder(t.r)
  {
  }

  lemma RegroupFive(b: seq<Node>, l: seq<Node>, n: seq<Node>, x: seq<Node>, a1: seq<Node>, a: seq<Node>)
    ensures (b + l + n) + x + (a1 + a) == b + (l + (n + x + a1)) + a
  {
  }

  lemma SubstituteNodes(c: Ctx, s: Tree, c1: Ctx, t: Tree, succ: Node)
    requires s.Bin? && t.Bin? && t.l == Leaf && t.n == succ && Plug(c1, t) == s.r
    ensures All(Onto(c1, InRight(s.l, succ, s.red, c)), t.r) <= All(c, s)
  {
    NodesPlug(c1, t);
    OntoNodes(c1, InRight(s.l, succ, s.red, c));
  }

  ghost function Sibling(c: Ctx): Tree
    requires c != Top
  {
    if c.InLeft? then c.r else c.l
  }

  // A hole with a debt has a sibling to borrow from.
  lemma DebtHasSibling(c: Ctx, s: Tree)
    requires Removing(c, s) && c != Top
    ensures Sibling(c).Bin?
  {
  }

  // Where a context allows some colour it allows black.
  lemma AllowsBlack(c: Ctx, hole: bool)
    requires CtxNoRedRed(c, hole)
    ensures CtxNoRedRed(c, false)
  {
  }

  // Black sibling, both of its children black: its red moves the debt up.
  lemma BlackNephewsLeft(c: Ctx, s: Tree)
    requires Removing(c, s) && !IsRed(s) && c.InLeft?
    requires c.r.Bin? && !c.r.red && !IsRed(c.r.l) && !IsRed(c.r.r)
    ensures Removing(c.up, Bin(s, c.n, c.red, c.r.(red := true)))
  {
    AllowsBlack(c.up, c.red);
  }

  // Red sibling: after a rotation the sibling is black.
  lemma RedSiblingLeft(c: Ctx, s: Tree)
    requires Removing(c, s) && !IsRed(s) && c.InLeft? && IsRed(c.r)
    ensures !c.red && c.r.l.Bin? && !c.r.l.red
    ensures Removing(InLeft(c.n, true, c.r.l, InLeft(c.r.n, false, c.r.r, c.up)), s)
  {
    var w := c.r;
    assert NoRedRed(w) && Balanced(w) && BlackHeight(w) == BlackHeight(s) + 1;
    assert CtxNoRedRed(InLeft(w.n, false, w.r, c.up), true);
    assert CtxBalanced(InLeft(w.n, false, w.r, c.up), BlackHeight(s) + 1);
    assert CtxBlackRoot(InLeft(w.n, false, w.r, c.up));
  }

  // Inner nephew red, outer one black: after a rotation the outer one is red.
  lemma InnerNephewLeft(c: Ctx, s: Tree)
    requires Removing(c, s) && !IsRed(s) && c.InLeft?
    requires c.r.Bin? && !c.r.red && IsRed(c.r.l) && !IsRed(c.r.r)
    ensures var w := c.r; Removing(c.(r := Bin(w.l.l, w.l.n, false, Bin(w.l.r, w.n, true, w.r))), s)
  {
    var w := c.r;
    assert NoRedRed(w.l) && Balanced(w.l);
    var v := Bin(w.l.r, w.n, true, w.r);
    assert NoRedRed(v) && Balanced(v) && BlackHeight(v) == BlackHeight(w.l.l);
  }

  // Outer nephew red: one more rotation pays the debt.
  lemma OuterNephewLeft(c: Ctx, s: Tree)
    requires Removing(c, s) && !IsRed(s) && c.InLeft?
    requires c.r.Bin? && !c.r.red && IsRed(c.r.r)
    ensures RedBlack(Plug(c.up, Bin(Bin(s, c.n, false, c.r.l), c.r.n, c.red, c.r.r.(red := false))))
  {
    var g := Bin(Bin(s, c.n, false, c.r.l), c.r.n, c.red, c.r.r.(red := false));
    assert NoRedRed(Bin(s, c.n, false, c.r.l)) && Balanced(Bin(s, c.n, false, c.r.l));
    assert NoRedRed(c.r.r) && Balanced(c.r.r);
    assert BlackHeight(g.l) == BlackHeight(s) + 1;
    assert g.red == c.red && NoRedRed(g) && Balanced(g);
    assert BlackHeight(g) == BlackHeight(g.l) + Weight(g.red);
    RedBlackPlug(c.up, g);
  }

  // Black sibling, both of its children black: its red moves the debt up.
  lemma BlackNephewsRight(c: Ctx, s: Tree)
    requires Removing(c, s) && !IsRed(s) && c.InRight?
    requires c.l.Bin? && !c.l.red && !IsRed(c.l.r) && !IsRed(c.l.l)
    ensures Removing(c.up, Bin(c.l.(red := true), c.n, c.red, s))
  {
    AllowsBlack(c.up, c.red);
  }

  // Red sibling: after a rotation the sibling is black.
  lemma RedSiblingRight(c: Ctx, s: Tree)
    requires Removing(c, s) && !IsRed(s) && c.InRight? && IsRed(c.l)
    ensures !c.red && c.l.r.Bin? && !c.l.r.red
    ensures Removing(InRight(c.l.r, c.n, true, InRight(c.l.l, c.l.n, false, c.up)), s)
  {
    var w := c.l;
    assert NoRedRed(w) && Balanced(w) && BlackHeight(w) == BlackHeight(s) + 1;
    assert CtxNoRedRed(InRight(w.l, w.n, false, c.up), true);
    assert CtxBalanced(InRight(w.l, w.n, false, c.up), BlackHeight(s) + 1);
    assert CtxBlackRoot(InRight(w.l, w.n, false, c.up));
  }

  // Inner nephew red, outer one black: after a rotation the outer one is red.
  lemma InnerNephewRight(c: Ctx, s: Tree)
    requires Removing(c, s) && !IsRed(s) && c.InRight?
    requires c.l.Bin? && !c.l.red && IsRed(c.l.r) && !IsRed(c.l.l)
    ensures var w := c.l; Removing(c.(l := Bin(Bin(w.l, w.n, true, w.r.l), w.r.n, false, w.r.r)), s)
  {
    var w := c.l;
    assert NoRedRed(w.r) && Balanced(w.r);
    var v := Bin(w.l, w.n, true, w.r.l);
    assert NoRedRed(v) && Balanced(v) && BlackHeight(v) == BlackHeight(w.r.r);
  }

  // Outer nephew red: one more rotation pays the debt.
  lemma OuterNephewRight(c: Ctx, s: Tree)
    requires Removing(c, s) && !IsRed(s) && c.InRight?
    requires c.l.Bin? && !c.l.red && IsRed(c.l.l)
    ensures RedBlack(Plug(c.up, Bin(c.l.l.(red := false), c.l.n, c.red, Bin(c.l.r, c.n, false, s))))
  {
    var g := Bin(c.l.l.(red := false), c.l.n, c.red, Bin(c.l.r, c.n, false, s));
    assert NoRedRed(Bin(c.l.r, c.n, false, s)) && Balanced(Bin(c.l.r, c.n, false, s));
    assert NoRedRed(c.l.l) && Balanced(c.l.l);
    assert BlackHeight(c.l.l) == BlackHeight(s) && BlackHeight(g.l) == BlackHeight(s) + 1;
    assert g.red == c.red && NoRedRed(g) && Balanced(g);
    assert BlackHeight(g) == BlackHeight(g.l) + Weight(g.red);
    RedBlackPlug(c.up, g);
  }

  function Depth(c: Ctx): nat {
    match c
    case Top => 0
    case InLeft(_, _, _, up) => 1 + Depth(up)
    case InRight(_, _, _, up) => 1 + Depth(up)
  }

  // The context of an element of a tree.
  lemma {:induction false} Locate(t: Tree, e: Node) returns (c: Ctx, s: Tree)
    requires e in Nodes(t)
    ensures s.Bin? && s.n == e && Plug(c, s) == t
  {
    c, s := LocateIn(Top, t, e);
  }

  lemma {:induction false} LocateIn(c0: Ctx, t: Tree, e: Node) returns (c: Ctx, s: Tree)
    requires e in Nodes(t)
    ensures s.Bin? && s.n == e && Plug(c, s) == Plug(c0, t)
    decreases t
  {
    if e == t.n {
      c, s := c0, t;
    } else if e in Nodes(t.l) {
      c, s := LocateIn(InLeft(t.n, t.red, t.r, c0), t.l, e);
    } else {
      c, s := LocateIn(InRight(t.l, t.n, t.red, c0), t.r, e);
    }
  }

  // ---------- height ----------

  function Pow2(n: nat): (p: nat)
    ensures p >= 1
  {
    if n == 0 then 1 else 2 * Pow2(n - 1)
  }

  function Max(a: nat, b: nat): nat { if a < b then b else a }

  ghost function Height(t: Tree): nat {
    match t
    case Leaf => 0
    case Bin(l, _, _, r) => 1 + Max(Height(l), Height(r))
  }

  ghost function Size(t: Tree): nat { |Inorder(t)| }

  lemma {:induction false} HeightByBlackHeight(t: Tree)
    requires NoRedRed(t) && Balanced(t)
    ensures Height(t) <= 2 * BlackHeight(t) + (if IsRed(t) then 1 else 0)
    ensures Pow2(BlackHeight(t)) <= Size(t) + 1
  {
    if t.Bin? {
      HeightByBlackHeight(t.l);
      HeightByBlackHeight(t.r);
    }
  }

  lemma {:induction false} Pow2Monotone(a: nat, b: nat)
    requires a <= b
    ensures Pow2(a) <= Pow2(b)
  {
    if a < b { Pow2Monotone(a, b - 1); }
  }

  lemma {:induction false} Pow2Sum(a: nat, b: nat)
    ensures Pow2(a + b) == Pow2(a) * Pow2(b)
  {
    if a > 0 { Pow2Sum(a - 1, b); }
  }

  // height <= 2 * log2(size + 1), written without the logarithm.
  lemma HeightBound(t: Tree)
    requires RedBlack(t)
    ensures Pow2(Height(t)) <= (Size(t) + 1) * (Size(t) + 1)
  {
    HeightByBlackHeight(t);
    var b, s := BlackHeight(t), Size(t) + 1;
    Pow2Monotone(Height(t), b + b);
    Pow2Sum(b, b);
    assert Pow2(b) * Pow2(b) <= s * s by { SquareMonotone(Pow2(b), s); }
  }

  lemma SquareMonotone(a: nat, b: nat)
    requires a <= b
    ensures a * a <= b * b
  {
    assert a * a <= a * b <= b * b;
  }
}
