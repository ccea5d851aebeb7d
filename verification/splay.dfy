// The top-down splay tree macros of 3rd/libuv/include/tree.h.
module Splay {
  // One element carrying a SPLAY_ENTRY.  The comparator is represented by the
  // integer rank it assigns to an element.
  class Node {
    const key: int
    var left: Node?
    var right: Node?

    constructor (key: int)
      ensures this.key == key && left == null && right == null
    {
      this.key := key;
      left, right := null, null;
    }
  }

  datatype Tree = Leaf | Bin(l: Tree, n: Node, r: Tree)

  // The trees of smaller and of larger elements that are being assembled: their
  // right and left spines, last node first, with what hangs off the spine.
  datatype Smaller = NoSmaller | Under(l: Tree, n: Node, up: Smaller)
  datatype Larger = NoLarger | Over(n: Node, r: Tree, up: Larger)

  // ---------- contents and order ----------

  ghost function Inorder(t: Tree): seq<Node> {
    if t.Leaf? then [] else Inorder(t.l) + [t.n] + Inorder(t.r)
  }

  ghost function SmallerOrder(s: Smaller): seq<Node> {
    if s.NoSmaller? then [] else SmallerOrder(s.up) + Inorder(s.l) + [s.n]
  }

  ghost function LargerOrder(s: Larger): seq<Node> {
    if s.NoLarger? then [] else [s.n] + Inorder(s.r) + LargerOrder(s.up)
  }

  // The finished trees, t hanging where the last node's link dangles.
  ghost function CloseSmaller(s: Smaller, t: Tree): Tree {
    if s.NoSmaller? then t else CloseSmaller(s.up, Bin(s.l, s.n, t))
  }

  ghost function CloseLarger(s: Larger, t: Tree): Tree {
    if s.NoLarger? then t else CloseLarger(s.up, Bin(t, s.n, s.r))
  }

  lemma {:induction false} CloseSmallerOrder(a: Smaller, t: Tree)
    ensures Inorder(CloseSmaller(a, t)) == SmallerOrder(a) + Inorder(t)
  {
    if a.Under? {
      CloseSmallerOrder(a.up, Bin(a.l, a.n, t));
      Regroup(SmallerOrder(a.up), Inorder(a.l), a.n, Inorder(t));
    }
  }

  lemma {:induction false} CloseLargerOrder(b: Larger, t: Tree)
    ensures Inorder(CloseLarger(b, t)) == Inorder(t) + LargerOrder(b)
  {
    if b.Over? {
      CloseLargerOrder(b.up, Bin(t, b.n, b.r));
      RegroupLarger(Inorder(t), b.n, Inorder(b.r), LargerOrder(b.up));
    }
  }

  lemma Regroup(a: seq<Node>, b: seq<Node>, n: Node, d: seq<Node>)
    ensures a + (b + [n] + d) == (a + b + [n]) + d
  {
  }

  lemma RegroupLarger(a: seq<Node>, n: Node, b: seq<Node>, d: seq<Node>)
    ensures a + [n] + b + d == a + ([n] + b + d)
  {
  }

  ghost predicate Sorted(s: seq<Node>) {
    forall i, j :: 0 <= i < j < |s| ==> s[i].key < s[j].key
  }

  ghost predicate Below(s: seq<Node>, k: int) {
    forall n :: n in s ==> n.key < k
  }

  ghost predicate Beyond(s: seq<Node>, k: int) {
    forall n :: n in s ==> k < n.key
  }

  // ---------- the nodes ----------

  ghost function Nodes(t: Tree): set<Node> {
    if t.Leaf? then {} else Nodes(t.l) + {t.n} + Nodes(t.r)
  }

  ghost function SmallerNodes(s: Smaller): set<Node> {
    if s.NoSmaller? then {} else Nodes(s.l) + {s.n} + SmallerNodes(s.up)
  }

  ghost function LargerNodes(s: Larger): set<Node> {
    if s.NoLarger? then {} else {s.n} + Nodes(s.r) + LargerNodes(s.up)
  }

  lemma {:induction false} InorderHas(t: Tree, n: Node)
    ensures n in Inorder(t) <==> n in Nodes(t)
  {
    if t.Bin? {
      InorderHas(t.l, n);
      InorderHas(t.r, n);
    }
  }

  // Trees with the same elements in order have the same nodes.
  lemma SameNodes(t: Tree, u: Tree)
    requires Inorder(t) == Inorder(u)
    ensures Nodes(t) == Nodes(u)
  {
    forall n | n in Nodes(t) ensures n in Nodes(u) { InorderHas(t, n); InorderHas(u, n); }
    forall n | n in Nodes(u) ensures n in Nodes(t) { InorderHas(t, n); InorderHas(u, n); }
  }

  ghost predicate Distinct(t: Tree) {
    t.Bin? ==>
      && Distinct(t.l) && Distinct(t.r)
      && t.n !in Nodes(t.l) && t.n !in Nodes(t.r) && Nodes(t.l) !! Nodes(t.r)
  }

  ghost predicate SmallerDistinct(s: Smaller) {
    s.Under? ==>
      && Distinct(s.l) && SmallerDistinct(s.up)
      && s.n !in Nodes(s.l) && s.n !in SmallerNodes(s.up) && Nodes(s.l) !! SmallerNodes(s.up)
  }

  ghost predicate LargerDistinct(s: Larger) {
    s.Over? ==>
      && Distinct(s.r) && LargerDistinct(s.up)
      && s.n !in Nodes(s.r) && s.n !in LargerNodes(s.up) && Nodes(s.r) !! LargerNodes(s.up)
  }

  // ---------- the links ----------

  // The links at and below n spell t.
  ghost predicate Sub(t: Tree, n: Node?)
    reads Nodes(t)
  {
    if t.Leaf? then n == null else n == t.n && Sub(t.l, t.n.left) && Sub(t.r, t.n.right)
  }

  // The right link of the last node of s, or of the header, is target.
  ghost predicate SmallerTo(s: Smaller, header: Node, target: Node?)
    reads header`right, SmallerNodes(s)
  {
    if s.NoSmaller? then header.right == target
    else s.n.right == target && Sub(s.l, s.n.left) && SmallerTo(s.up, header, s.n)
  }

  ghost predicate LargerTo(s: Larger, header: Node, target: Node?)
    reads header`left, LargerNodes(s)
  {
    if s.NoLarger? then header.left == target
    else s.n.left == target && Sub(s.r, s.n.right) && LargerTo(s.up, header, s.n)
  }

  // s is in place up to its last node; that node's right link says nothing yet.
  ghost predicate SmallerAt(s: Smaller, header: Node, last: Node)
    reads header`right, SmallerNodes(s)
  {
    if s.NoSmaller? then last == header
    else last == s.n && Sub(s.l, s.n.left) && SmallerTo(s.up, header, s.n)
  }

  ghost predicate LargerAt(s: Larger, header: Node, last: Node)
    reads header`left, LargerNodes(s)
  {
    if s.NoLarger? then last == header
    else last == s.n && Sub(s.r, s.n.right) && LargerTo(s.up, header, s.n)
  }

  ghost predicate Apart(a: Smaller, t: Tree, b: Larger, header: Node) {
    && Distinct(t) && SmallerDistinct(a) && LargerDistinct(b)
    && SmallerNodes(a) !! Nodes(t) && SmallerNodes(a) !! LargerNodes(b) && Nodes(t) !! LargerNodes(b)
    && header !in SmallerNodes(a) + Nodes(t) + LargerNodes(b)
  }

  lemma LastIn(a: Smaller, b: Larger, header: Node, left: Node, right: Node)
    requires SmallerAt(a, header, left) && LargerAt(b, header, right)
    ensures left == header || left in SmallerNodes(a)
    ensures right == header || right in LargerNodes(b)
  {
  }

  // ---------- the order around the key ----------

  // Everything in the order s is smaller, in u larger than k; t is in between.
  ghost predicate Around(s: seq<Node>, a: Smaller, t: Tree, b: Larger, k: int) {
    s == SmallerOrder(a) + Inorder(t) + LargerOrder(b) && Below(SmallerOrder(a), k) && Beyond(LargerOrder(b), k)
  }

  lemma SortedParts(a: seq<Node>, b: seq<Node>, n: Node, d: seq<Node>, e: seq<Node>)
    requires Sorted(a + (b + [n] + d) + e)
    ensures Below(a + b, n.key) && Beyond(d + e, n.key)
  {
    var s := a + (b + [n] + d) + e;
    var m := |a| + |b|;
    assert s[m] == n;
    forall x | x in a + b ensures x.key < n.key {
      var i :| 0 <= i < m && (a + b)[i] == x;
      assert s[i] == x;
    }
    forall x | x in d + e ensures n.key < x.key {
      var i :| 0 <= i < |d| + |e| && (d + e)[i] == x;
      assert s[m + 1 + i] == x;
    }
  }

  lemma RegroupAround(a: seq<Node>, b: seq<Node>, n: Node, d: seq<Node>, e: seq<Node>)
    ensures a + (b + [n] + d) + e == a + b + ([n] + d + e)
    ensures a + (b + [n] + d) + e == a + b + [n] + d + e
    ensures a + (b + [n] + d) + e == (a + b) + [n] + (d + e)
    ensures [n] + d + e == [n] + (d + e)
  {
  }

  lemma BelowSnoc(a: seq<Node>, n: Node, k: int)
    requires Below(a, n.key) && n.key < k
    ensures Below(a + [n], k)
  {
  }

  lemma BeyondCons(n: Node, a: seq<Node>, k: int)
    requires Beyond(a, n.key) && k < n.key
    ensures Beyond([n] + a, k)
  {
  }

  lemma Unfold(t: Tree, a: Smaller, b: Larger)
    requires t.Bin?
    ensures Inorder(t) == Inorder(t.l) + [t.n] + Inorder(t.r)
    ensures LargerOrder(Over(t.n, t.r, b)) == [t.n] + Inorder(t.r) + LargerOrder(b)
    ensures SmallerOrder(Under(t.l, t.n, a)) == SmallerOrder(a) + Inorder(t.l) + [t.n]
  {
  }

  // The root goes to the larger elements, with its right subtree.
  lemma AroundLeft(s: seq<Node>, a: Smaller, t: Tree, b: Larger, k: int)
    requires t.Bin? && Around(s, a, t, b, k) && Sorted(s) && k < t.n.key
    ensures Around(s, a, t.l, Over(t.n, t.r, b), k)
  {
    hide Inorder, SmallerOrder, LargerOrder, Below, Beyond, Sorted;
    Unfold(t, a, b);
    SortedParts(SmallerOrder(a), Inorder(t.l), t.n, Inorder(t.r), LargerOrder(b));
    BeyondCons(t.n, Inorder(t.r) + LargerOrder(b), k);
    RegroupAround(SmallerOrder(a), Inorder(t.l), t.n, Inorder(t.r), LargerOrder(b));
  }

  lemma AroundRight(s: seq<Node>, a: Smaller, t: Tree, b: Larger, k: int)
    requires t.Bin? && Around(s, a, t, b, k) && Sorted(s) && t.n.key < k
    ensures Around(s, Under(t.l, t.n, a), t.r, b, k)
  {
    hide Inorder, SmallerOrder, LargerOrder, Below, Beyond, Sorted;
    Unfold(t, a, b);
    SortedParts(SmallerOrder(a), Inorder(t.l), t.n, Inorder(t.r), LargerOrder(b));
    BelowSnoc(SmallerOrder(a) + Inorder(t.l), t.n, k);
    RegroupAround(SmallerOrder(a), Inorder(t.l), t.n, Inorder(t.r), LargerOrder(b));
  }

  ghost function RotatedRight(t: Tree): Tree
    requires t.Bin? && t.l.Bin?
  {
    Bin(t.l.l, t.l.n, Bin(t.l.r, t.n, t.r))
  }

  ghost function RotatedLeft(t: Tree): Tree
    requires t.Bin? && t.r.Bin?
  {
    Bin(Bin(t.l, t.n, t.r.l), t.r.n, t.r.r)
  }

  lemma RotatedIs(t: Tree)
    requires t.Bin?
    ensures t.l.Bin? ==> RotatedRight(t) == Bin(t.l.l, t.l.n, Bin(t.l.r, t.n, t.r))
    ensures t.r.Bin? ==> RotatedLeft(t) == Bin(Bin(t.l, t.n, t.r.l), t.r.n, t.r.r)
  {
  }

  lemma RegroupRotation(a: seq<Node>, m: Node, b: seq<Node>, n: Node, d: seq<Node>)
    ensures (a + [m] + b) + [n] + d == a + [m] + (b + [n] + d)
  {
  }

  lemma RotationSame(t: Tree)
    requires t.Bin?
    ensures t.l.Bin? ==> Inorder(RotatedRight(t)) == Inorder(t)
    ensures t.r.Bin? ==> Inorder(RotatedLeft(t)) == Inorder(t)
  {
    if t.l.Bin? { RegroupRotation(Inorder(t.l.l), t.l.n, Inorder(t.l.r), t.n, Inorder(t.r)); }
    if t.r.Bin? { RegroupRotation(Inorder(t.l), t.n, Inorder(t.r.l), t.r.n, Inorder(t.r.r)); }
  }

  // What a splay leaves at the root: the key, or a neighbour of where it would be.
  ghost predicate Neighbour(t: Tree, k: int) {
    t.Bin? &&
      if t.n.key == k then true
      else if k < t.n.key then Below(Inorder(t.l), k)
      else Beyond(Inorder(t.r), k)
  }

  // The assembled tree.
  ghost function Assembled(a: Smaller, t: Tree, b: Larger): Tree
    requires t.Bin?
  {
    Bin(CloseSmaller(a, t.l), t.n, CloseLarger(b, t.r))
  }

  lemma AssembledOrder(s: seq<Node>, a: Smaller, t: Tree, b: Larger, k: int)
    requires t.Bin? && Around(s, a, t, b, k)
    requires t.n.key == k || (k < t.n.key && t.l.Leaf?) || (t.n.key < k && t.r.Leaf?)
    ensures Inorder(Assembled(a, t, b)) == s && Neighbour(Assembled(a, t, b), k)
  {
    CloseSmallerOrder(a, t.l);
    CloseLargerOrder(b, t.r);
    Unfold(t, a, b);
    Unfold(Assembled(a, t, b), a, b);
    RegroupAround(SmallerOrder(a), Inorder(t.l), t.n, Inorder(t.r), LargerOrder(b));
    if t.l.Leaf? { assert SmallerOrder(a) + Inorder(t.l) == SmallerOrder(a); }
    if t.r.Leaf? { assert Inorder(t.r) + LargerOrder(b) == LargerOrder(b); }
    hide Inorder, SmallerOrder, LargerOrder, CloseSmaller, CloseLarger, Below, Beyond;
  }

  lemma {:induction false} CloseSmallerLinks(a: Smaller, header: Node, t: Tree, target: Node?)
    requires SmallerTo(a, header, target) && Sub(t, target)
    requires SmallerDistinct(a) && Distinct(t) && SmallerNodes(a) !! Nodes(t)
    ensures var u := CloseSmaller(a, t); Sub(u, header.right) && Distinct(u) && Nodes(u) == SmallerNodes(a) + Nodes(t)
    decreases a
  {
    if a.Under? { CloseSmallerLinks(a.up, header, Bin(a.l, a.n, t), a.n); }
  }

  lemma {:induction false} CloseLargerLinks(b: Larger, header: Node, t: Tree, target: Node?)
    requires LargerTo(b, header, target) && Sub(t, target)
    requires LargerDistinct(b) && Distinct(t) && LargerNodes(b) !! Nodes(t)
    ensures var u := CloseLarger(b, t); Sub(u, header.left) && Distinct(u) && Nodes(u) == LargerNodes(b) + Nodes(t)
    decreases b
  {
    if b.Over? { CloseLargerLinks(b.up, header, Bin(t, b.n, b.r), b.n); }
  }

  lemma NodesOf(l: Tree, n: Node, r: Tree)
    ensures Nodes(Bin(l, n, r)) == Nodes(l) + {n} + Nodes(r)
    ensures Distinct(Bin(l, n, r)) <==>
            Distinct(l) && Distinct(r) && n !in Nodes(l) && n !in Nodes(r)
            && Nodes(l) !! Nodes(r)
  {
  }

  lemma RotatedNodes(t: Tree)
    requires t.Bin? && Distinct(t)
    ensures t.l.Bin? ==> Nodes(RotatedRight(t)) == Nodes(t) && Distinct(RotatedRight(t))
    ensures t.r.Bin? ==> Nodes(RotatedLeft(t)) == Nodes(t) && Distinct(RotatedLeft(t))
  {
    hide Nodes, Distinct;
    NodesOf(t.l, t.n, t.r);
    if t.l.Bin? {
      NodesOf(t.l.l, t.l.n, t.l.r);
      NodesOf(t.l.r, t.n, t.r);
      NodesOf(t.l.l, t.l.n, Bin(t.l.r, t.n, t.r));
    }
    if t.r.Bin? {
      NodesOf(t.r.l, t.r.n, t.r.r);
      NodesOf(t.l, t.n, t.r.l);
      NodesOf(Bin(t.l, t.n, t.r.l), t.r.n, t.r.r);
    }
  }

  lemma RotatedApart(a: Smaller, t: Tree, b: Larger, header: Node)
    requires t.Bin? && Apart(a, t, b, header)
    ensures t.l.Bin? ==> Apart(a, RotatedRight(t), b, header)
    ensures t.r.Bin? ==> Apart(a, RotatedLeft(t), b, header)
  {
    RotatedNodes(t);
    hide Nodes, Distinct;
  }

  // Two levels of the tree at n, in memory.
  lemma SubOf(t: Tree, n: Node?)
    requires t.Bin? && Sub(t, n)
    ensures n == t.n && Sub(t.l, n.left) && Sub(t.r, n.right)
    ensures if t.l.Leaf? then n.left == null else n.left == t.l.n && Sub(t.l.l, t.l.n.left) && Sub(t.l.r, t.l.n.right)
    ensures if t.r.Leaf? then n.right == null else n.right == t.r.n && Sub(t.r.l, t.r.n.left) && Sub(t.r.r, t.r.n.right)
  {
  }

  lemma SubFold(t: Tree, n: Node?)
    requires t.Bin? && n == t.n && Sub(t.l, n.left) && Sub(t.r, n.right)
    ensures Sub(t, n)
  {
  }

  lemma LinkNodes(a: Smaller, t: Tree, b: Larger)
    requires t.Bin?
    ensures SmallerNodes(a) + Nodes(t.l) + LargerNodes(Over(t.n, t.r, b)) == SmallerNodes(a) + Nodes(t) + LargerNodes(b)
    ensures SmallerNodes(Under(t.l, t.n, a)) + Nodes(t.r) + LargerNodes(b) == SmallerNodes(a) + Nodes(t)
            + LargerNodes(b)
  {
  }

  // The comparator of SPLAY_GENERATE, by rank.
  function Compare(x: Node, y: Node): int { x.key - y.key }

  // elm fits between the elements of l and the rest.
  lemma PlaceBefore(l: Tree, n: Node, u: Tree, elm: Node)
    requires Sorted(Inorder(Bin(l, n, u))) && Below(Inorder(l), elm.key) && elm.key < n.key
    ensures Sorted(Inorder(Bin(l, elm, Bin(Leaf, n, u))))
    ensures forall x :: x in Nodes(l) + {n} + Nodes(u) ==> x.key != elm.key
  {
    var a, b := Inorder(l), [n] + Inorder(u);
    assert Inorder(l) + [n] + Inorder(u) == a + b;
    assert [] + [n] + Inorder(u) == b;
    SortedParts([], a, n, Inorder(u), []);
    assert [] + (a + [n] + Inorder(u)) + [] == a + b;
    assert Inorder(u) + [] == Inorder(u);
    SortedInsert(a, elm, b);
    InTree(l, u, elm.key, n);
  }

  lemma PlaceAfter(l: Tree, n: Node, u: Tree, elm: Node)
    requires Sorted(Inorder(Bin(l, n, u))) && Beyond(Inorder(u), elm.key) && elm.key > n.key
    ensures Sorted(Inorder(Bin(Bin(l, n, Leaf), elm, u)))
    ensures forall x :: x in Nodes(l) + {n} + Nodes(u) ==> x.key != elm.key
  {
    var a, b := Inorder(l) + [n], Inorder(u);
    assert Inorder(l) + [n] + [] == a;
    SortedParts([], Inorder(l), n, b, []);
    assert [] + (Inorder(l) + [n] + b) + [] == a + b;
    assert [] + Inorder(l) == Inorder(l);
    SortedInsert(a, elm, b);
    InTreeAfter(l, u, elm.key, n);
  }

  lemma InTree(l: Tree, u: Tree, k: int, n: Node)
    requires Below(Inorder(l), k) && k < n.key && Beyond(Inorder(u), n.key)
    ensures forall x :: x in Nodes(l) + {n} + Nodes(u) ==> x.key != k
  {
    forall x | x in Nodes(l) + {n} + Nodes(u) ensures x.key != k {
      InorderHas(l, x);
      InorderHas(u, x);
    }
  }

  lemma InTreeAfter(l: Tree, u: Tree, k: int, n: Node)
    requires Beyond(Inorder(u), k) && n.key < k && Below(Inorder(l), n.key)
    ensures forall x :: x in Nodes(l) + {n} + Nodes(u) ==> x.key != k
  {
    forall x | x in Nodes(l) + {n} + Nodes(u) ensures x.key != k {
      InorderHas(l, x);
      InorderHas(u, x);
    }
  }

  // Sorted stays sorted when an element goes between the smaller and the larger.
  lemma SortedInsert(a: seq<Node>, n: Node, b: seq<Node>)
    requires Sorted(a + b) && Below(a, n.key) && Beyond(b, n.key)
    ensures Sorted(a + [n] + b)
  {
    var s, r := a + b, a + [n] + b;
    forall i, j | 0 <= i < j < |r| ensures r[i].key < r[j].key {
      assert i < |a| ==> r[i] == s[i] && r[i] in a;
      assert j < |a| ==> r[j] == s[j];
      assert i > |a| ==> r[i] == s[i - 1];
      assert j > |a| ==> r[j] == s[j - 1] && r[j] in b;
    }
  }

  lemma SortedDelete(a: seq<Node>, n: Node, b: seq<Node>)
    requires Sorted(a + [n] + b)
    ensures Sorted(a + b) && Sorted(a) && Sorted(b)
  {
    SortedWithout(a, n, b);
    SortedHalves(a, b);
  }

  lemma SortedWithout(a: seq<Node>, n: Node, b: seq<Node>)
    requires Sorted(a + [n] + b)
    ensures Sorted(a + b)
  {
    var s, r := a + [n] + b, a + b;
    assert forall i :: 0 <= i < |r| ==> r[i] == s[if i < |a| then i else i + 1];
  }

  lemma SortedHalves(a: seq<Node>, b: seq<Node>)
    requires Sorted(a + b)
    ensures Sorted(a) && Sorted(b)
  {
    var s := a + b;
    assert forall i :: 0 <= i < |a| ==> a[i] == s[i];
    assert forall i :: 0 <= i < |b| ==> b[i] == s[|a| + i];
  }

  lemma NoNodes(t: Tree)
    ensures t.Leaf? ==> Nodes(t) == {}
  {
  }

  // The key is not at the root, so it is nowhere.
  lemma AbsentAtRoot(l: Tree, n: Node, u: Tree, k: int)
    requires Sorted(Inorder(Bin(l, n, u))) && Neighbour(Bin(l, n, u), k) && n.key != k
    ensures forall x :: x in Nodes(Bin(l, n, u)) ==> x.key != k
  {
    SortedAround(Inorder(l), n, Inorder(u));
    if k < n.key { InTree(l, u, k, n); } else { InTreeAfter(l, u, k, n); }
  }

  lemma SortedAround(a: seq<Node>, n: Node, b: seq<Node>)
    requires Sorted(a + [n] + b)
    ensures Below(a, n.key) && Beyond(b, n.key)
  {
    assert [] + (a + [n] + b) + [] == a + [n] + b;
    assert [] + a == a && b + [] == b;
    SortedParts([], a, n, b, []);
  }

  // What remains when the root goes.
  lemma RemovedParts(l: Tree, n: Node, u: Tree)
    requires Sorted(Inorder(Bin(l, n, u)))
    ensures Sorted(Inorder(l)) && Sorted(Inorder(u)) && Sorted(Inorder(l) + Inorder(u))
    ensures Below(Inorder(l), n.key) && forall x :: x in Nodes(l) + Nodes(u) ==> x.key != n.key
  {
    Unfold(Bin(l, n, u), NoSmaller, NoLarger);
    hide Inorder, Sorted, Nodes;
    SortedDelete(Inorder(l), n, Inorder(u));
    SortedAround(Inorder(l), n, Inorder(u));
    forall x | x in Nodes(l) + Nodes(u) ensures x.key != n.key {
      InorderHas(l, x);
      InorderHas(u, x);
    }
  }

  // Splaying for a key beyond all elements brings the largest to the root.
  lemma MaxAtRoot(t: Tree, l: Tree, k: int)
    requires Inorder(t) == Inorder(l) && Below(Inorder(l), k) && Neighbour(t, k)
    ensures t.Bin? && t.r.Leaf? && Nodes(t) == Nodes(l) && t.n in Nodes(t)
  {
    SameNodes(t, l);
    assert t.n in Inorder(t);
    assert forall n :: n in Inorder(t.r) ==> n in Inorder(t);
    assert t.r.Bin? ==> t.r.n in Inorder(t.r);
  }

  lemma ReattachOrder(a: Tree, m: Node, u: Tree)
    ensures Inorder(Bin(a, m, Leaf)) + Inorder(u) == Inorder(Bin(a, m, u))
  {
    assert Inorder(a) + [m] + [] + Inorder(u) == Inorder(a) + [m] + Inorder(u);
  }

  class Head {
    var root: Node?
    ghost var tree: Tree

    constructor ()
      ensures Valid() && tree == Leaf
    {
      root, tree := null, Leaf;
    }

    ghost predicate Shape(t: Tree)
      reads this`root, Nodes(t)
    {
      Distinct(t) && Sub(t, root)
    }

    ghost predicate Valid()
      reads this, Nodes(tree)
    {
      Shape(tree) && Sorted(Inorder(tree))
    }

    // In the middle of a splay.
    ghost predicate Mid(a: Smaller, t: Tree, b: Larger, header: Node, left: Node, right: Node)
      reads this`root, header, SmallerNodes(a), Nodes(t), LargerNodes(b)
    {
      Apart(a, t, b, header) && SmallerAt(a, header, left) && Sub(t, root) && LargerAt(b, header, right)
    }

    // SPLAY_LINKLEFT: the root and what is right of it join the larger elements.
    method LinkLeft(right: Node, ghost a: Smaller, ghost t: Tree, ghost b: Larger, ghost header: Node, ghost left: Node)
      returns (right': Node)
      requires t.Bin? && Mid(a, t, b, header, left, right)
      modifies this`root, right`left
      ensures right' == t.n && Mid(a, t.l, Over(t.n, t.r, b), header, left, right')
    {
      LastIn(a, b, header, left, right);
      right' := LinkLeftLinks(right, t.n, a, t.l, t.r, b, header, left);
    }

    method LinkLeftLinks(right: Node, ghost n: Node, ghost a: Smaller, ghost l: Tree, ghost r: Tree, ghost b: Larger,
        ghost header: Node, ghost left: Node)
      returns (right': Node)
      requires root == n && Sub(l, n.left) && Sub(r, n.right) && SmallerAt(a, header, left)
      requires b.NoLarger? ==> right == header
      requires b.Over? ==> right == b.n && Sub(b.r, right.right) && LargerTo(b.up, header, right)
                           && right !in Nodes(b.r) && right !in LargerNodes(b.up) && right != header
      requires right !in Nodes(l) + Nodes(r) + SmallerNodes(a) && right != n
      modifies this`root, right`left
      ensures right' == n && Sub(l, root) && Sub(r, n.right) && SmallerAt(a, header, left) && LargerTo(b, header, n)
    {
      hide Sub, Nodes, SmallerAt, SmallerNodes, LargerNodes, SmallerTo;
      assert allocated(Nodes(l)) && allocated(Nodes(r)) && allocated(SmallerNodes(a));
      if b.Over? { assert allocated(Nodes(b.r)) && allocated(LargerNodes(b.up)); }
      right.left := root;
      right' := root;
      root := root.left;
    }

    // SPLAY_LINKRIGHT: the root and what is left of it join the smaller elements.
    method LinkRight(left: Node, ghost a: Smaller, ghost t: Tree, ghost b: Larger, ghost header: Node,
        ghost right: Node)
      returns (left': Node)
      requires t.Bin? && Mid(a, t, b, header, left, right)
      modifies this`root, left`right
      ensures left' == t.n && Mid(Under(t.l, t.n, a), t.r, b, header, left', right)
    {
      LastIn(a, b, header, left, right);
      left' := LinkRightLinks(left, t.n, a, t.l, t.r, b, header, right);
    }

    method LinkRightLinks(left: Node, ghost n: Node, ghost a: Smaller, ghost l: Tree, ghost r: Tree, ghost b: Larger,
        ghost header: Node, ghost right: Node)
      returns (left': Node)
      requires root == n && Sub(l, n.left) && Sub(r, n.right) && LargerAt(b, header, right)
      requires a.NoSmaller? ==> left == header
      requires a.Under? ==> left == a.n && Sub(a.l, left.left) && SmallerTo(a.up, header, left)
                            && left !in Nodes(a.l) && left !in SmallerNodes(a.up) && left != header
      requires left !in Nodes(l) + Nodes(r) + LargerNodes(b) && left != n
      modifies this`root, left`right
      ensures left' == n && Sub(l, n.left) && Sub(r, root) && LargerAt(b, header, right) && SmallerTo(a, header, n)
    {
      hide Sub, Nodes, LargerAt, SmallerNodes, LargerNodes, LargerTo;
      assert allocated(Nodes(l)) && allocated(Nodes(r)) && allocated(LargerNodes(b));
      if a.Under? { assert allocated(Nodes(a.l)) && allocated(SmallerNodes(a.up)); }
      left.right := root;
      left' := root;
      root := root.right;
    }

    // SPLAY_ROTATE_RIGHT
    method RotateRight(tmp: Node, ghost a: Smaller, ghost t: Tree, ghost b: Larger, ghost header: Node,
        ghost left: Node, ghost right: Node)
      requires t.Bin? && t.l.Bin? && tmp == t.l.n && Mid(a, t, b, header, left, right)
      modifies this`root, t.n`left, tmp`right
      ensures Mid(a, RotatedRight(t), b, header, left, right)
    {
      hide Nodes, Distinct, Sub, SmallerNodes, LargerNodes, SmallerDistinct, LargerDistinct, SmallerAt, LargerAt;
      SubOf(t, root);
      NodesOf(t.l, t.n, t.r);
      NodesOf(t.l.l, t.l.n, t.l.r);
      RotateRightLinks(tmp, a, t.n, t.l.l, t.l.r, t.r, b, header, left, right);
      RotatedApart(a, t, b, header);
      SubFold(Bin(t.l.r, t.n, t.r), t.n);
      SubFold(RotatedRight(t), root);
    }

    method RotateRightLinks(tmp: Node, ghost a: Smaller, ghost n: Node, ghost u: Tree, ghost v: Tree, ghost w: Tree,
        ghost b: Larger,
                            ghost header: Node, ghost left: Node, ghost right: Node)
      requires root == n && n.left == tmp && Sub(u, tmp.left) && Sub(v, tmp.right) && Sub(w, n.right)
      requires SmallerAt(a, header, left) && LargerAt(b, header, right) && n != tmp && header != n && header != tmp
      requires {n, tmp} !! Nodes(u) + Nodes(v) + Nodes(w) + SmallerNodes(a) + LargerNodes(b)
      modifies this`root, n`left, tmp`right
      ensures root == tmp && tmp.right == n && Sub(u, tmp.left) && Sub(v, n.left) && Sub(w, n.right)
      ensures SmallerAt(a, header, left) && LargerAt(b, header, right)
    {
      hide Sub, Nodes, LargerAt, SmallerAt, SmallerNodes, LargerNodes;
      assert allocated(Nodes(u)) && allocated(Nodes(v)) && allocated(Nodes(w)) && allocated(SmallerNodes(a))
        && allocated(LargerNodes(b));
      root.left := tmp.right;
      tmp.right := root;
      root := tmp;
    }

    // SPLAY_ROTATE_LEFT
    method RotateLeft(tmp: Node, ghost a: Smaller, ghost t: Tree, ghost b: Larger, ghost header: Node,
        ghost left: Node, ghost right: Node)
      requires t.Bin? && t.r.Bin? && tmp == t.r.n && Mid(a, t, b, header, left, right)
      modifies this`root, t.n`right, tmp`left
      ensures Mid(a, RotatedLeft(t), b, header, left, right)
    {
      hide Nodes, Distinct, Sub, SmallerNodes, LargerNodes, SmallerDistinct, LargerDistinct, SmallerAt, LargerAt;
      SubOf(t, root);
      NodesOf(t.l, t.n, t.r);
      NodesOf(t.r.l, t.r.n, t.r.r);
      RotateLeftLinks(tmp, a, t.n, t.l, t.r.l, t.r.r, b, header, left, right);
      RotatedApart(a, t, b, header);
      SubFold(Bin(t.l, t.n, t.r.l), t.n);
      SubFold(RotatedLeft(t), root);
    }

    method RotateLeftLinks(tmp: Node, ghost a: Smaller, ghost n: Node, ghost u: Tree, ghost v: Tree, ghost w: Tree,
        ghost b: Larger,
                           ghost header: Node, ghost left: Node, ghost right: Node)
      requires root == n && n.right == tmp && Sub(u, n.left) && Sub(v, tmp.left) && Sub(w, tmp.right)
      requires SmallerAt(a, header, left) && LargerAt(b, header, right) && n != tmp && header != n && header != tmp
      requires {n, tmp} !! Nodes(u) + Nodes(v) + Nodes(w) + SmallerNodes(a) + LargerNodes(b)
      modifies this`root, n`right, tmp`left
      ensures root == tmp && tmp.left == n && Sub(u, n.left) && Sub(v, n.right) && Sub(w, tmp.right)
      ensures SmallerAt(a, header, left) && LargerAt(b, header, right)
    {
      hide Sub, Nodes, LargerAt, SmallerAt, SmallerNodes, LargerNodes;
      assert allocated(Nodes(u)) && allocated(Nodes(v)) && allocated(Nodes(w)) && allocated(SmallerNodes(a))
        && allocated(LargerNodes(b));
      root.right := tmp.left;
      tmp.left := root;
      root := tmp;
    }

    // SPLAY_ASSEMBLE
    method Assemble(header: Node, left: Node, right: Node, ghost a: Smaller, ghost t: Tree, ghost b: Larger)
      requires t.Bin? && Mid(a, t, b, header, left, right)
      modifies this`tree, header, left`right, right`left, t.n`left, t.n`right
      ensures tree == Assembled(a, t, b) && Shape(tree)
    {
      hide *;
      AssembleFacts(a, t, b, header, left, right);
      ghost var ln, rn := t.n.left, t.n.right;
      AssembleLinks(header, left, right, t.n, a, t.l, t.r, b);
      AssembleClose(a, t, b, header, ln, rn);
      assert allocated(Nodes(Assembled(a, t, b)));
      tree := Assembled(a, t, b);
    }

    lemma AssembleClose(a: Smaller, t: Tree, b: Larger, header: Node, ln: Node?, rn: Node?)
      requires t.Bin? && Apart(a, t, b, header) && root == t.n && t.n.left == header.right && t.n.right == header.left
      requires Sub(t.l, ln) && Sub(t.r, rn) && SmallerTo(a, header, ln) && LargerTo(b, header, rn)
      ensures Shape(Assembled(a, t, b))
    {
      hide Nodes, Distinct, Sub, SmallerNodes, LargerNodes, SmallerDistinct, LargerDistinct, SmallerTo, LargerTo;
      NodesOf(t.l, t.n, t.r);
      CloseSmallerLinks(a, header, t.l, ln);
      CloseLargerLinks(b, header, t.r, rn);
      NodesOf(CloseSmaller(a, t.l), t.n, CloseLarger(b, t.r));
      SubFold(Assembled(a, t, b), root);
    }

    lemma AssembleFacts(a: Smaller, t: Tree, b: Larger, header: Node, left: Node, right: Node)
      requires t.Bin? && Mid(a, t, b, header, left, right)
      ensures root == t.n && Sub(t.l, t.n.left) && Sub(t.r, t.n.right) && Apart(a, t, b, header) && t.n != header
      ensures {left, right, t.n} !! Nodes(t.l) + Nodes(t.r) && header !in Nodes(t.l) + Nodes(t.r)
      ensures left != t.n && right != t.n && (left == right ==> left == header)
      ensures SmallerAt(a, header, left) && LargerAt(b, header, right)
      ensures a.Under? ==> left == a.n && Sub(a.l, left.left) && SmallerTo(a.up, header, left)
                           && left !in Nodes(a.l) && left !in SmallerNodes(a.up) && left != header
                           && {right, t.n, header} !! Nodes(a.l) + SmallerNodes(a.up)
      ensures b.Over? ==> right == b.n && Sub(b.r, right.right) && LargerTo(b.up, header, right)
                          && right !in Nodes(b.r) && right !in LargerNodes(b.up) && right != header
                          && {left, t.n, header} !! Nodes(b.r) + LargerNodes(b.up)
      ensures left == header || left in SmallerNodes(a)
      ensures right == header || right in LargerNodes(b)
      ensures a.NoSmaller? ==> left == header
      ensures b.NoLarger? ==> right == header
    {
      LastIn(a, b, header, left, right);
    }

    method AssembleLinks(header: Node, left: Node, right: Node, ghost n: Node, ghost a: Smaller, ghost l: Tree,
        ghost r: Tree, ghost b: Larger)
      requires root == n && Sub(l, n.left) && Sub(r, n.right) && n != header
      requires a.NoSmaller? ==> left == header
      requires a.Under? ==> left == a.n && Sub(a.l, left.left) && SmallerTo(a.up, header, left)
                            && left !in Nodes(a.l) && left !in SmallerNodes(a.up) && left != header
                            && {right, n, header} !! Nodes(a.l) + SmallerNodes(a.up)
      requires b.NoLarger? ==> right == header
      requires b.Over? ==> right == b.n && Sub(b.r, right.right) && LargerTo(b.up, header, right)
                           && right !in Nodes(b.r) && right !in LargerNodes(b.up) && right != header
                           && {left, n, header} !! Nodes(b.r) + LargerNodes(b.up)
      requires {left, right, n} !! Nodes(l) + Nodes(r) && header !in Nodes(l) + Nodes(r)
      requires left != n && right != n && (left == right ==> left == header)
      modifies header, left`right, right`left, n`left, n`right
      ensures root == n && Sub(l, old(n.left)) && Sub(r, old(n.right)) && n.left == header.right
              && n.right == header.left
      ensures SmallerTo(a, header, old(n.left)) && LargerTo(b, header, old(n.right))
    {
      hide Sub, Nodes, SmallerNodes, LargerNodes;
      assert allocated(Nodes(l)) && allocated(Nodes(r));
      if a.Under? { assert allocated(Nodes(a.l)) && allocated(SmallerNodes(a.up)); }
      if b.Over? { assert allocated(Nodes(b.r)) && allocated(LargerNodes(b.up)); }
      left.right := root.left;
      right.left := root.right;
      root.left := header.right;
      root.right := header.left;
    }

    // ---------- SPLAY ----------

    // Moves the element with the key of elm, or a neighbour, to the root.
    method SplayTo(elm: Node)
      requires Valid() && root != null
      modifies this, Nodes(tree)
      ensures Valid() && Inorder(tree) == old(Inorder(tree)) && Nodes(tree) == old(Nodes(tree))
              && Neighbour(tree, elm.key)
      ensures root == tree.n
    {
      hide *;
      ghost var s, all, tree0 := Inorder(tree), Nodes(tree), tree;
      ValidFacts();
      assert allocated(all);
      var header := new Node(0);
      var left, right := header, header;
      ghost var a, t, b := NoSmaller, tree, NoLarger;
      Start(s, all, tree, header, elm.key);
      while Compare(elm, root) != 0
        invariant t.Bin? && Going(s, all, a, t, b, header, left, right, elm.key) && root == t.n && fresh(header)
        decreases t
      {
        GoingFacts(s, all, a, t, b, header, left, right, elm.key);
        LinksFacts(t);
        CompareIs(elm, root);
        if Compare(elm, root) < 0 {
          var tmp := root.left;
          if tmp == null { break; }
          CompareIs(elm, tmp);
          if Compare(elm, tmp) < 0 {
            RotatedIs(t);
            t := ZigRight(tmp, s, all, a, t, b, header, left, right, elm.key);
            GoingFacts(s, all, a, t, b, header, left, right, elm.key);
            LinksFacts(t);
            if root.left == null { break; }
          }
          right, t, b := MoveLeft(s, all, a, t, b, header, left, right, elm.key);
        } else {
          var tmp := root.right;
          if tmp == null { break; }
          CompareIs(elm, tmp);
          if Compare(elm, tmp) > 0 {
            RotatedIs(t);
            t := ZigLeft(tmp, s, all, a, t, b, header, left, right, elm.key);
            GoingFacts(s, all, a, t, b, header, left, right, elm.key);
            LinksFacts(t);
            if root.right == null { break; }
          }
          left, t, a := MoveRight(s, all, a, t, b, header, left, right, elm.key);
        }
        GoingFacts(s, all, a, t, b, header, left, right, elm.key);
        LinksFacts(t);
      }
      GoingFacts(s, all, a, t, b, header, left, right, elm.key);
      LinksFacts(t);
      CompareIs(elm, root);
      AssembledOrder(s, a, t, b, elm.key);
      Assemble(header, left, right, a, t, b);
      SameNodes(tree, tree0);
      ValidIs();
      AssembledRoot(a, t, b);
    }

    lemma ValidFacts()
      requires Valid()
      ensures Shape(tree) && Sorted(Inorder(tree)) && Distinct(tree) && Sub(tree, root)
      ensures root == null <==> tree.Leaf?
      ensures root != null ==> root == tree.n && Links(tree)
    {
      if tree.Bin? { SubOf(tree, root); }
    }

    lemma ValidIs()
      requires Shape(tree) && Sorted(Inorder(tree))
      ensures Valid()
    {
    }

    lemma LinksFacts(t: Tree)
      requires t.Bin? && Links(t)
      ensures root == t.n && (if t.l.Leaf? then t.n.left == null else t.n.left == t.l.n)
      ensures if t.r.Leaf? then t.n.right == null else t.n.right == t.r.n
    {
    }

    static lemma CompareIs(x: Node, y: Node)
      ensures Compare(x, y) == x.key - y.key
    {
    }

    static lemma AssembledRoot(a: Smaller, t: Tree, b: Larger)
      requires t.Bin?
      ensures Assembled(a, t, b).Bin? && Assembled(a, t, b).n == t.n
    {
    }

    // The invariant of the loop.
    ghost predicate Going(s: seq<Node>, all: set<Node>, a: Smaller, t: Tree, b: Larger, header: Node, left: Node,
        right: Node, k: int)
      reads this`root, header, SmallerNodes(a), Nodes(t), LargerNodes(b)
    {
      && t.Bin? && Mid(a, t, b, header, left, right) && Around(s, a, t, b, k) && Sorted(s)
      && SmallerNodes(a) + Nodes(t) + LargerNodes(b) == all && header !in all
    }
    method ZigRight(tmp: Node, ghost s: seq<Node>, ghost all: set<Node>, ghost a: Smaller, ghost t: Tree,
        ghost b: Larger,
                    ghost header: Node, ghost left: Node, ghost right: Node, ghost k: int) returns (ghost t': Tree)
      requires Going(s, all, a, t, b, header, left, right, k) && t.l.Bin? && tmp == t.l.n
      modifies this`root, t.n`left, tmp`right
      ensures t' == RotatedRight(t) && Going(s, all, a, t', b, header, left, right, k)
    {
      hide *;
      GoingFacts(s, all, a, t, b, header, left, right, k);
      RotateRight(tmp, a, t, b, header, left, right);
      RotationSame(t);
      RotatedNodes(t);
      RotatedIs(t);
      t' := RotatedRight(t);
      GoingFrom(s, all, a, t', b, header, left, right, k, t);
    }

    method ZigLeft(tmp: Node, ghost s: seq<Node>, ghost all: set<Node>, ghost a: Smaller, ghost t: Tree,
        ghost b: Larger,
                    ghost header: Node, ghost left: Node, ghost right: Node, ghost k: int) returns (ghost t': Tree)
      requires Going(s, all, a, t, b, header, left, right, k) && t.r.Bin? && tmp == t.r.n
      modifies this`root, t.n`right, tmp`left
      ensures t' == RotatedLeft(t) && Going(s, all, a, t', b, header, left, right, k)
    {
      hide *;
      GoingFacts(s, all, a, t, b, header, left, right, k);
      RotateLeft(tmp, a, t, b, header, left, right);
      RotationSame(t);
      RotatedNodes(t);
      RotatedIs(t);
      t' := RotatedLeft(t);
      GoingFrom(s, all, a, t', b, header, left, right, k, t);
    }

    method MoveLeft(ghost s: seq<Node>, ghost all: set<Node>, ghost a: Smaller, ghost t: Tree, ghost b: Larger,
                    ghost header: Node, ghost left: Node, right: Node, ghost k: int)
                      returns (right': Node, ghost t': Tree, ghost b': Larger)
      requires Going(s, all, a, t, b, header, left, right, k) && t.l.Bin? && k < t.n.key
      modifies this`root, right`left
      ensures t' == t.l && b' == Over(t.n, t.r, b) && Going(s, all, a, t', b', header, left, right', k)
    {
      hide *;
      GoingFacts(s, all, a, t, b, header, left, right, k);
      right' := LinkLeft(right, a, t, b, header, left);
      AroundLeft(s, a, t, b, k);
      LinkNodes(a, t, b);
      t', b' := t.l, Over(t.n, t.r, b);
      GoingIs(s, all, a, t', b', header, left, right', k);
    }

    method MoveRight(ghost s: seq<Node>, ghost all: set<Node>, ghost a: Smaller, ghost t: Tree, ghost b: Larger,
                     ghost header: Node, left: Node, ghost right: Node, ghost k: int)
                       returns (left': Node, ghost t': Tree, ghost a': Smaller)
      requires Going(s, all, a, t, b, header, left, right, k) && t.r.Bin? && t.n.key < k
      modifies this`root, left`right
      ensures t' == t.r && a' == Under(t.l, t.n, a) && Going(s, all, a', t', b, header, left', right, k)
    {
      hide *;
      GoingFacts(s, all, a, t, b, header, left, right, k);
      left' := LinkRight(left, a, t, b, header, right);
      AroundRight(s, a, t, b, k);
      LinkNodes(a, t, b);
      t', a' := t.r, Under(t.l, t.n, a);
      GoingIs(s, all, a', t', b, header, left', right, k);
    }

    lemma GoingFacts(s: seq<Node>, all: set<Node>, a: Smaller, t: Tree, b: Larger, header: Node, left: Node,
        right: Node, k: int)
      requires Going(s, all, a, t, b, header, left, right, k)
      ensures t.Bin? && Mid(a, t, b, header, left, right) && Around(s, a, t, b, k) && Sorted(s) && Distinct(t)
              && Links(t)
      ensures SmallerNodes(a) + Nodes(t) + LargerNodes(b) == all && header !in all
      ensures t.n in all && (t.l.Bin? ==> t.l.n in all) && (t.r.Bin? ==> t.r.n in all)
      ensures left in all + {header} && right in all + {header}
    {
      MidFacts(a, t, b, header, left, right);
      hide Nodes, SmallerNodes, LargerNodes, Mid, Around;
    }

    lemma GoingIs(s: seq<Node>, all: set<Node>, a: Smaller, t: Tree, b: Larger, header: Node, left: Node, right: Node,
        k: int)
      requires t.Bin? && Mid(a, t, b, header, left, right) && Around(s, a, t, b, k) && Sorted(s)
      requires SmallerNodes(a) + Nodes(t) + LargerNodes(b) == all && header !in all
      ensures Going(s, all, a, t, b, header, left, right, k)
    {
    }

    lemma GoingFrom(s: seq<Node>, all: set<Node>, a: Smaller, t: Tree, b: Larger, header: Node, left: Node,
        right: Node, k: int, t0: Tree)
      requires t.Bin? && Mid(a, t, b, header, left, right) && Around(s, a, t0, b, k) && Sorted(s)
      requires Inorder(t) == Inorder(t0) && Nodes(t) == Nodes(t0)
      requires SmallerNodes(a) + Nodes(t0) + LargerNodes(b) == all && header !in all
      ensures Going(s, all, a, t, b, header, left, right, k)
    {
      hide Mid, Sorted, Inorder, Nodes, SmallerNodes, LargerNodes;
    }

    // The root's links in the middle of a splay.
    ghost predicate Links(t: Tree)
      requires t.Bin?
      reads this`root, t.n
    {
      && root == t.n
      && (if t.l.Leaf? then t.n.left == null else t.n.left == t.l.n)
      && (if t.r.Leaf? then t.n.right == null else t.n.right == t.r.n)
    }

    lemma MidFacts(a: Smaller, t: Tree, b: Larger, header: Node, left: Node, right: Node)
      requires t.Bin? && Mid(a, t, b, header, left, right)
      ensures Links(t) && Distinct(t) && t.n in Nodes(t) && header !in Nodes(t)
      ensures left in SmallerNodes(a) + {header} && right in LargerNodes(b) + {header}
      ensures (t.l.Bin? ==> t.l.n in Nodes(t)) && (t.r.Bin? ==> t.r.n in Nodes(t))
    {
      LastIn(a, b, header, left, right);
      SubOf(t, root);
      hide Sub, SmallerAt, LargerAt, SmallerDistinct, LargerDistinct;
    }

    lemma Start(s: seq<Node>, all: set<Node>, t: Tree, header: Node, k: int)
      requires Shape(t) && t.Bin? && header !in Nodes(t) && s == Inorder(t) && Sorted(s) && all == Nodes(t)
      ensures Going(s, all, NoSmaller, t, NoLarger, header, header, header, k)
    {
      assert [] + Inorder(t) + [] == Inorder(t);
    }

    // ---------- SPLAY_INSERT, SPLAY_REMOVE and SPLAY_FIND ----------

    lemma Parts()
      requires Valid() && tree.Bin?
      ensures root == tree.n && Shape(tree) && Sorted(Inorder(tree)) && Sub(tree.l, root.left)
              && Sub(tree.r, root.right)
      ensures Distinct(tree.l) && Distinct(tree.r) && root !in Nodes(tree.l) + Nodes(tree.r)
              && Nodes(tree.l) !! Nodes(tree.r)
      ensures Nodes(tree) == Nodes(tree.l) + {root} + Nodes(tree.r)
      ensures root.left == null <==> tree.l.Leaf?
    {
      SubOf(tree, root);
      NodesOf(tree.l, tree.n, tree.r);
    }

    // Adds elm, unless an element with its key is there: that one is returned.
    method Insert(elm: Node) returns (r: Node?)
      requires Valid()
      modifies this, Nodes(tree), elm
      ensures Valid()
      ensures if r != null then
                && r in Nodes(tree) && r.key == elm.key
                && Inorder(tree) == old(Inorder(tree)) && Nodes(tree) == old(Nodes(tree))
              else
                && elm !in old(Nodes(tree)) && Nodes(tree) == old(Nodes(tree)) + {elm}
                && forall n :: n in old(Nodes(tree)) ==> n.key != elm.key
    {
      hide *;
      ValidFacts();
      if root == null {
        elm.left, elm.right := null, null;
        root := elm;
        tree := Bin(Leaf, elm, Leaf);
        SingleTree(elm);
        return null;
      }
      ghost var all := Nodes(tree);
      SplayTo(elm);
      NeighbourCases(tree, elm.key);
      Parts();
      CompareIs(elm, root);
      var comp := Compare(elm, root);
      ghost var l, n, u := tree.l, tree.n, tree.r;
      if comp < 0 {
        PlaceBefore(l, n, u, elm);
        InsertBefore(elm, l, n, u);
      } else if comp > 0 {
        PlaceAfter(l, n, u, elm);
        InsertAfter(elm, l, n, u);
      } else {
        return root;
      }
      return null;
    }

    // The links of a new root in front of the old one.
    method InsertBefore(elm: Node, ghost l: Tree, ghost n: Node, ghost u: Tree)
      requires root == n && Sub(l, n.left) && Sub(u, n.right) && elm !in Nodes(l) + {n} + Nodes(u)
      requires Distinct(Bin(l, n, u)) && Sorted(Inorder(Bin(l, elm, Bin(Leaf, n, u))))
      modifies this, elm, n
      ensures Valid() && Nodes(tree) == Nodes(l) + {n} + Nodes(u) + {elm}
    {
      hide Inorder, Sorted;
      assert allocated(Nodes(l)) && allocated(Nodes(u));
      elm.left := root.left;
      elm.right := root;
      root.left := null;
      root := elm;
      tree := Bin(l, elm, Bin(Leaf, n, u));
      NodesOf(Leaf, n, u);
      NodesOf(l, elm, Bin(Leaf, n, u));
      SubFold(Bin(Leaf, n, u), n);
      SubFold(tree, elm);
    }

    // The links of a new root behind the old one.
    method InsertAfter(elm: Node, ghost l: Tree, ghost n: Node, ghost u: Tree)
      requires root == n && Sub(l, n.left) && Sub(u, n.right) && elm !in Nodes(l) + {n} + Nodes(u)
      requires Distinct(Bin(l, n, u)) && Sorted(Inorder(Bin(Bin(l, n, Leaf), elm, u)))
      modifies this, elm, n
      ensures Valid() && Nodes(tree) == Nodes(l) + {n} + Nodes(u) + {elm}
    {
      hide Inorder, Sorted;
      assert allocated(Nodes(l)) && allocated(Nodes(u));
      elm.right := root.right;
      elm.left := root;
      root.right := null;
      root := elm;
      tree := Bin(Bin(l, n, Leaf), elm, u);
      NodesOf(l, n, Leaf);
      NodesOf(Bin(l, n, Leaf), elm, u);
      SubFold(Bin(l, n, Leaf), n);
      SubFold(tree, elm);
    }

    lemma SingleTree(elm: Node)
      requires root == elm && elm.left == null && elm.right == null && tree == Bin(Leaf, elm, Leaf)
      ensures Valid() && Nodes(tree) == {elm} && Nodes(Leaf) == {}
    {
    }

    static lemma NeighbourCases(t: Tree, k: int)
      requires Neighbour(t, k)
      ensures t.Bin? && (k < t.n.key ==> Below(Inorder(t.l), k)) && (k > t.n.key ==> Beyond(Inorder(t.r), k))
    {
    }

    // Removes the element with the key of elm.  What is returned is elm itself,
    // whether or not it is the element that goes.
    method Remove(elm: Node) returns (r: Node?, ghost gone: Node?)
      requires Valid()
      modifies this, Nodes(tree)
      ensures Valid()
      ensures if r == null then
                && gone == null && Inorder(tree) == old(Inorder(tree))
                && forall n :: n in old(Nodes(tree)) ==> n.key != elm.key
              else
                && r == elm && gone in old(Nodes(tree)) && gone.key == elm.key
                && Nodes(tree) == old(Nodes(tree)) - {gone}
                && forall n :: n in Nodes(tree) ==> n.key != elm.key
    {
      hide *;
      ValidFacts();
      gone := null;
      if root == null {
        NoNodes(tree);
        return null, null;
      }
      SplayTo(elm);
      NeighbourCases(tree, elm.key);
      Parts();
      CompareIs(elm, root);
      ghost var l, n, u := tree.l, tree.n, tree.r;
      if Compare(elm, root) == 0 {
        gone := n;
        RemovedParts(l, n, u);
        if root.left == null {
          root := root.right;
          tree := u;
          ValidIs();
          NoNodes(l);
        } else {
          var tmp := root.right;
          root := root.left;
          tree := l;
          ValidIs();
          assert allocated(Nodes(u));
          SplayTo(elm);
          MaxAtRoot(tree, l, elm.key);
          Reattach(tmp, l, u);
        }
        return elm, gone;
      }
      AbsentAtRoot(l, n, u, elm.key);
      return null, null;
    }

    // The right subtree of the old root goes below the largest smaller element.
    method Reattach(tmp: Node?, ghost l: Tree, ghost u: Tree)
      requires Valid() && tree.Bin? && tree.r.Leaf? && Nodes(tree) == Nodes(l) && Sub(u, tmp) && Distinct(u)
               && Nodes(l) !! Nodes(u)
      requires Sorted(Inorder(tree) + Inorder(u)) && root == tree.n
      modifies this, tree.n
      ensures Valid() && Nodes(tree) == Nodes(l) + Nodes(u)
    {
      hide Sorted, Inorder;
      Parts();
      ghost var a, m := tree.l, tree.n;
      assert allocated(Nodes(a)) && allocated(Nodes(u));
      ReattachOrder(a, m, u);
      NodesOf(a, m, Leaf);
      root.right := tmp;
      tree := Bin(a, m, u);
      NodesOf(a, m, u);
      SubFold(tree, m);
    }

    // Finds the element with the key of elm.
    method Find(elm: Node) returns (r: Node?)
      requires Valid()
      modifies this, Nodes(tree)
      ensures Valid() && Inorder(tree) == old(Inorder(tree))
      ensures if r == null then forall n :: n in Nodes(tree) ==> n.key != elm.key
              else r in Nodes(tree) && r.key == elm.key
    {
      hide *;
      ValidFacts();
      if root == null {
        NoNodes(tree);
        return null;
      }
      SplayTo(elm);
      NeighbourCases(tree, elm.key);
      Parts();
      CompareIs(elm, root);
      if Compare(elm, root) == 0 {
        return root;
      }
      AbsentAtRoot(tree.l, tree.n, tree.r, elm.key);
      return null;
    }
  }
}
