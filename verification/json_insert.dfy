// Adding a child to a node, as json_insert_child of 3rd/mjson/json.c does it.
module JsonInsert {
  import opened JsonText
  import opened JsonValue
  import opened JsonTree

  ghost predicate Links(s: set<Node>)
    reads s`kids, s`child, s`child_end, s`parent, s`previous, s`next
  {
    forall n :: n in s ==> Linked(s, n)
  }

  // A node that no node has as a child.
  predicate Detached(n: Node)
    reads n
  {
    n.parent == null && n.previous == null && n.next == null
  }

  // What the types of the two nodes allow.
  predicate Allowed(parent: Type, child: Type, hasKids: bool) {
    match parent
    case String => child.Object? || child.Array? || !hasKids
    case Object => child.String?
    case Array => child.Object? || child.Array? || !hasKids
    case _ => false
  }

  lemma LinksAt(s: set<Node>, n: Node, i: nat)
    requires Links(s) && n in s && i < |n.kids|
    ensures LinkedKid(s, n, i)
  {
    assert Linked(s, n);
  }

  // A child of a node is no other child of it, nor a child of another node.
  lemma OneParent(s: set<Node>, n: Node, i: nat, m: Node, j: nat)
    requires Links(s) && n in s && m in s && i < |n.kids| && j < |m.kids| && n.kids[i] == m.kids[j]
    ensures n == m && (j + 1 == |m.kids| ==> i == j)
  {
    LinksAt(s, n, i);
    LinksAt(s, m, j);
  }

  // Only the fields that tie a node to others differ.
  twostate predicate Same(n: Node)
    reads n
  {
    n.ty == old(n.ty) && n.text == old(n.text) && n.model == old(n.model)
  }

  // The pointer updates at the end of the list of children.
  method Attach(parent: Node, child: Node)
    requires parent != child && child != parent.child_end && parent != parent.child_end
    requires parent.child != null <==> parent.child_end != null
    modifies parent, child, parent.child_end
    ensures Same(parent) && Same(child) && (old(parent.child_end) != null ==> Same(old(parent.child_end)))
    ensures parent.kids == old(parent.kids) + [child] && parent.child_end == child
    ensures parent.child == if old(parent.child) != null then old(parent.child) else child
    ensures parent.parent == old(parent.parent) && parent.previous == old(parent.previous)
            && parent.next == old(parent.next)
    ensures child.parent == parent && child.next == old(child.next)
    ensures child.previous == if old(parent.child) != null then old(parent.child_end) else old(child.previous)
    ensures child.child == old(child.child) && child.child_end == old(child.child_end) && child.kids == old(child.kids)
    ensures var last := old(parent.child_end);
            last != null ==>
              last.next == child && last.previous == old(last.previous) && last.parent == old(last.parent)
              && last.child == old(last.child) && last.child_end == old(last.child_end) && last.kids == old(last.kids)
  {
    child.parent := parent;
    if parent.child != null {
      child.previous := parent.child_end;
      parent.child_end.next := child;
      parent.child_end := child;
    } else {
      parent.child := child;
      parent.child_end := child;
    }
    parent.kids := parent.kids + [child];
  }

  // What the links say before a child is added.
  lemma Around(s: set<Node>, parent: Node, child: Node)
    requires Links(s) && parent in s && child in s && Detached(child) && parent != child && parent !in parent.kids
    ensures (parent.child != null <==> parent.child_end != null) && (parent.child != null <==> parent.kids != [])
    ensures parent.child_end != child && parent.child_end != parent
            && (parent.child_end != null ==> parent.child_end in s)
    ensures forall n, i :: n in s && 0 <= i < |n.kids| ==>
              LinkedKid(s, n, i) && n.kids[i] != child && (n.kids[i] == parent.child_end ==>
                n == parent
                && i + 1 == |n.kids|)
  {
    assert Linked(s, parent);
    var last := parent.child_end;
    forall n, i | n in s && 0 <= i < |n.kids|
      ensures LinkedKid(s, n, i) && n.kids[i] != child && (n.kids[i] == last ==> n == parent && i + 1 == |n.kids|)
    {
      LinksAt(s, n, i);
      if n.kids[i] == last { OneParent(s, n, i, parent, |parent.kids| - 1); }
    }
    if last != null {
      LinksAt(s, parent, |parent.kids| - 1);
    }
  }

  // ---------- the links before a child is added ----------

  datatype Snap = Snap(kids: seq<Node>, parent: Node?, previous: Node?, next: Node?, child: Node?, childEnd: Node?)

  ghost function Shot(n: Node): Snap
    reads n
  {
    Snap(n.kids, n.parent, n.previous, n.next, n.child, n.child_end)
  }

  ghost predicate WasKid(s: set<Node>, was: map<Node, Snap>, n: Node, i: nat)
    requires s == was.Keys && n in s && i < |was[n].kids|
  {
    var kids := was[n].kids;
    kids[i] in s && was[kids[i]].parent == n && was[kids[i]].previous == Before(kids, i)
      && was[kids[i]].next == After(kids, i)
  }

  // Linked, with what adding child to parent relies on.
  ghost predicate WasLinked(s: set<Node>, was: map<Node, Snap>, n: Node, parent: Node, child: Node)
    requires s == was.Keys && n in s && parent in s
  {
    var kids := was[n].kids;
    && (if kids == [] then was[n].child == null && was[n].childEnd == null
        else was[n].child == kids[0] && was[n].childEnd == kids[|kids| - 1])
    && forall i :: 0 <= i < |kids| ==>
         && WasKid(s, was, n, i) && kids[i] != child
         && (kids[i] == was[parent].childEnd ==> n == parent && i + 1 == |kids|)
  }

  lemma SnapLinked(s: set<Node>, was: map<Node, Snap>, parent: Node, child: Node, n: Node)
    requires Links(s) && parent in s && child in s && Detached(child) && parent != child && parent !in parent.kids
    requires s == was.Keys && (forall m :: m in s ==> was[m] == Shot(m)) && n in s
    ensures WasLinked(s, was, n, parent, child)
  {
    hide Before, After;
    Around(s, parent, child);
    assert Linked(s, n);
    forall i | 0 <= i < |n.kids| ensures WasKid(s, was, n, i) { LinksAt(s, n, i); }
  }

  // What Attach leaves in the fields of a node.
  ghost predicate Attached(s: set<Node>, was: map<Node, Snap>, parent: Node, child: Node)
    requires s == was.Keys && parent in s && child in s
    reads s
  {
    var last := was[parent].childEnd;
    && (forall n :: n in s && n != child ==> n.parent == was[n].parent && n.previous == was[n].previous)
    && (forall n :: n in s && n != last ==> n.next == was[n].next)
    && (forall n :: n in s && n != parent ==>
       n.kids == was[n].kids && n.child == was[n].child
       && n.child_end == was[n].childEnd)
    && (last != null && last in s ==> last.next == child)
    && child.parent == parent && child.previous == last
    && parent.kids == was[parent].kids + [child] && parent.child_end == child
    && (parent.child == if was[parent].child != null then was[parent].child else child)
  }

  lemma AddedLast(kids: seq<Node>, child: Node)
    ensures forall i :: 0 <= i < |kids| ==> Before(kids + [child], i) == Before(kids, i)
    ensures forall i :: 0 <= i < |kids| - 1 ==> After(kids + [child], i) == After(kids, i)
    ensures kids != [] ==> After(kids + [child], |kids| - 1) == child
    ensures Before(kids + [child], |kids|) == if kids == [] then null else kids[|kids| - 1]
    ensures After(kids + [child], |kids|) == null
  {}

  lemma RelinkOther(s: set<Node>, was: map<Node, Snap>, parent: Node, child: Node, n: Node)
    requires s == was.Keys && parent in s && child in s && n in s && n != parent
    requires Attached(s, was, parent, child) && WasLinked(s, was, n, parent, child)
    ensures Linked(s, n)
  {
    hide Before, After;
    forall i | 0 <= i < |n.kids| ensures LinkedKid(s, n, i) { assert WasKid(s, was, n, i); }
  }

  lemma RelinkParent(s: set<Node>, was: map<Node, Snap>, parent: Node, child: Node)
    requires s == was.Keys && parent in s && child in s
    requires Attached(s, was, parent, child) && WasLinked(s, was, parent, parent, child) && was[child].next == null
    requires child != was[parent].childEnd
    ensures Linked(s, parent)
  {
    hide Before, After;
    var kids := was[parent].kids;
    AddedLast(kids, child);
    forall i | 0 <= i < |parent.kids| ensures LinkedKid(s, parent, i) {
      if i < |kids| { assert WasKid(s, was, parent, i); }
    }
  }

  lemma Relink(s: set<Node>, was: map<Node, Snap>, parent: Node, child: Node)
    requires s == was.Keys && parent in s && child in s
    requires Attached(s, was, parent, child) && was[child].next == null && child != was[parent].childEnd
    requires forall n :: n in s ==> WasLinked(s, was, n, parent, child)
    ensures Links(s)
  {
    hide Attached, WasLinked, Linked;
    forall n | n in s ensures Linked(s, n) {
      if n == parent { RelinkParent(s, was, parent, child); } else { RelinkOther(s, was, parent, child, n); }
    }
  }

  // The links of json_insert_child.
  method LinkChild(parent: Node, child: Node, ghost s: set<Node>) returns (ok: bool)
    requires Links(s) && parent in s && child in s && Detached(child) && parent != child && parent !in parent.kids
    modifies parent, child, parent.child_end
    ensures ok == Allowed(old(parent.ty), old(child.ty), old(child.child) != null)
    ensures !ok ==> unchanged(s)
    ensures ok ==> Links(s) && parent.kids == old(parent.kids) + [child] && child.parent == parent
    ensures forall n :: n in s ==> Same(n)
    ensures forall n :: n in s && n != parent ==> n.kids == old(n.kids)
    ensures forall n :: n in s && n != child ==> n.parent == old(n.parent)
  {
    hide Links, Linked, LinkedKid, WasLinked, WasKid, Before, After;
    ok := Allowed(parent.ty, child.ty, child.child != null);
    if !ok { return; }
    ghost var was := map n | n in s :: Shot(n);
    forall n | n in s ensures WasLinked(s, was, n, parent, child) { SnapLinked(s, was, parent, child, n); }
    Around(s, parent, child);
    Attach(parent, child);
    Relink(s, was, parent, child);
  }

  // ---------- the trees above a node that grows ----------

  ghost function Above(trail: Trail): set<Node> {
    match trail
    case Top => {}
    case In(up, node, _, _) => {node} + Above(up)
  }

  // The way down from root, by the links alone.
  ghost predicate Path(s: set<Node>, trail: Trail, root: Node, n: Node)
    reads Above(trail)`kids
  {
    n in s
    && match trail
       case Top => n == root
       case In(up, node, _, k) => node in s && k < |node.kids| && node.kids[k] == n && Path(s, up, root, node)
  }

  function Depth(trail: Trail): nat {
    match trail
    case Top => 0
    case In(up, _, _, _) => 1 + Depth(up)
  }

  lemma {:induction false} AboveIn(s: set<Node>, trail: Trail, root: Node, n: Node)
    requires Path(s, trail, root, n)
    ensures Above(trail) <= s && root in s
    decreases trail
  {
    if trail.In? { AboveIn(s, trail.up, root, trail.node); }
  }

  lemma {:induction false} SameDepth(s: set<Node>, a: Trail, b: Trail, root: Node, n: Node)
    requires Links(s) && root.parent == null && Path(s, a, root, n) && Path(s, b, root, n)
    ensures Depth(a) == Depth(b)
    decreases a
  {
    if a.In? { LinksAt(s, a.node, a.k); }
    if b.In? { LinksAt(s, b.node, b.k); }
    if a.In? && b.In? { SameDepth(s, a.up, b.up, root, a.node); }
  }

  lemma {:induction false} NotAbove(s: set<Node>, trail: Trail, sub: Trail, root: Node, n: Node, m: Node)
    requires Links(s) && root.parent == null && Path(s, trail, root, n) && Path(s, sub, root, m)
             && Depth(sub) <= Depth(trail)
    ensures n !in Above(sub)
    decreases sub
  {
    if sub.In? {
      if sub.node == n { SameDepth(s, trail, sub.up, root, n); }
      NotAbove(s, trail, sub.up, root, n, sub.node);
    }
  }

  // The trees of the nodes above, without the child that leads down and what
  // comes after it.
  ghost function Lead(trail: Trail): seq<Tree>
    reads Above(trail)`model
  {
    match trail
    case Top => []
    case In(up, node, _, k) =>
      Lead(up) + [if k <= |node.model.kids| then node.model.(kids := node.model.kids[..k]) else node.model]
  }

  // Modelled, if the tree of n were t.
  ghost predicate ModelledAs(s: set<Node>, n: Node, t: Tree)
    reads n`ty, n`text, n`kids, s`model
  {
    && t.ty == n.ty && t.text == n.text && |t.kids| == |n.kids|
    && forall i :: 0 <= i < |n.kids| ==> n.kids[i] in s && n.kids[i].model == t.kids[i]
  }

  // The tree at the root, once the tree at the end of the trail is t.
  ghost function Grown(trail: Trail, t: Tree): Tree
    reads Above(trail)`model
  {
    match trail
    case Top => t
    case In(up, node, _, k) =>
      Grown(up, if k < |node.model.kids| then node.model.(kids := node.model.kids[k := t]) else node.model)
  }

  // Only the node above n has n as a child.
  lemma OnlyAbove(s: set<Node>, trail: Trail, root: Node, n: Node, m: Node)
    requires Links(s) && Path(s, trail, root, n) && root.parent == null && m in s && n in m.kids
    ensures trail.In? && m == trail.node && m.kids[trail.k] == n && forall i :: 0 <= i < |m.kids| && m.kids[i] == n ==>
            i == trail.k
  {
    var j :| 0 <= j < |m.kids| && m.kids[j] == n;
    LinksAt(s, m, j);
    if trail.In? {
      LinksAt(s, trail.node, trail.k);
      forall i | 0 <= i < |m.kids| && m.kids[i] == n ensures i == trail.k { SamePlace(s, m, i, trail.k); }
    }
  }

  // The links tell the children of a node apart.
  lemma {:induction false} SamePlace(s: set<Node>, m: Node, i: nat, j: nat)
    requires Links(s) && m in s && i < |m.kids| && j < |m.kids| && m.kids[i] == m.kids[j]
    ensures i == j
    decreases i + j
  {
    LinksAt(s, m, i);
    LinksAt(s, m, j);
    if i > 0 && j > 0 { SamePlace(s, m, i - 1, j - 1); }
  }

  // The tree of n becomes t; only the node above it has to follow.
  ghost method SetModel(s: set<Node>, trail: Trail, root: Node, n: Node, t: Tree)
    requires Links(s) && Path(s, trail, root, n) && root.parent == null && n !in n.kids
    requires ModelledAs(s, n, t) && forall m :: m in s && m != n ==> Modelled(s, m)
    modifies n`model
    ensures n.model == t && Modelled(s, n)
    ensures forall m :: m in s && (trail.Top? || m != trail.node) ==> Modelled(s, m)
    ensures trail.In? ==> trail.node != n && trail.k < |trail.node.model.kids|
                          && ModelledAs(s, trail.node, trail.node.model.(kids := trail.node.model.kids[trail.k := t]))
  {
    forall m | m in s && n in m.kids
      ensures trail.In? && m == trail.node && forall i :: 0 <= i < |m.kids| && m.kids[i] == n ==> i == trail.k
    {
      OnlyAbove(s, trail, root, n, m);
    }
    if trail.In? {
      assert n in trail.node.kids;
      assert Modelled(s, trail.node);
    }
    n.model := t;
    forall m | m in s && m != n && (trail.Top? || m != trail.node) ensures Modelled(s, m) {
      assert old(Modelled(s, m)) && n !in m.kids;
    }
  }

  lemma NotOwnKid(s: set<Node>, trail: Trail, root: Node, n: Node)
    requires Links(s) && Path(s, trail, root, n) && root.parent == null
    ensures n !in n.kids
  {
    if n in n.kids {
      OnlyAbove(s, trail, root, n, n);
      NotAbove(s, trail, trail, root, n, n);
    }
  }

  // The tree of n becomes t, and those above follow.
  ghost method Regrow(s: set<Node>, trail: Trail, root: Node, n: Node, t: Tree)
    requires Links(s) && Path(s, trail, root, n) && root.parent == null
    requires ModelledAs(s, n, t) && forall m :: m in s && m != n ==> Modelled(s, m)
    modifies n`model, Above(trail)`model
    ensures forall m :: m in s ==> Modelled(s, m)
    ensures n.model == t && Lead(trail) == old(Lead(trail)) && root.model == old(Grown(trail, t))
    decreases trail
  {
    hide Links, Modelled, ModelledAs;
    NotAbove(s, trail, trail, root, n, n);
    NotOwnKid(s, trail, root, n);
    if trail.In? { assert allocated(trail.up) && allocated(Above(trail.up)); }
    SetModel(s, trail, root, n, t);
    if trail.In? {
      var up, node, k := trail.up, trail.node, trail.k;
      NotAbove(s, up, up, root, node, node);
      var before := node.model;
      var grown := before.(kids := before.kids[k := t]);
      assert n !in Above(up) && grown.kids[..k] == before.kids[..k];
      assert Lead(up) == old(Lead(up)) && Grown(up, grown) == old(Grown(up, grown));
      Regrow(s, up, root, node, grown);
      assert Lead(up) == old(Lead(up));
      assert n.model == t;
    }
  }

  lemma ForestLinks(s: set<Node>)
    ensures Forest(s) <==> Links(s) && forall n :: n in s ==> Modelled(s, n)
  {}

  lemma AdoptModelled(s: set<Node>, n: Node, child: Node, kids: seq<Node>, t: Tree)
    requires n.kids == kids + [child] && child in s && t.ty == n.ty && t.text == n.text && |t.kids| == |kids|
    requires forall i :: 0 <= i < |kids| ==> kids[i] in s && kids[i].model == t.kids[i]
    ensures ModelledAs(s, n, Adopt(t, child.model))
  {}

  lemma Hanging(s: set<Node>, trail: Trail, root: Node, n: Node)
    requires Links(s) && Path(s, trail, root, n) && trail.In?
    ensures n.parent == trail.node
  {
    LinksAt(s, trail.node, trail.k);
  }

  // The links of json_insert_child, which leave the trees of the other nodes.
  method LinkKeeping(parent: Node, child: Node, ghost s: set<Node>) returns (ok: bool)
    requires Links(s) && parent in s && child in s && Detached(child) && parent != child && parent !in parent.kids
    requires forall n :: n in s ==> Modelled(s, n)
    modifies parent, child, parent.child_end
    ensures ok == Allowed(old(parent.ty), old(child.ty), old(child.child) != null)
    ensures !ok ==> unchanged(s)
    ensures ok ==> Links(s) && parent.kids == old(parent.kids) + [child] && child.parent == parent
                   && ModelledAs(s, parent, Adopt(old(parent.model), old(child.model)))
    ensures forall n :: n in s ==> Same(n)
    ensures forall n :: n in s && n != parent ==> n.kids == old(n.kids) && Modelled(s, n)
    ensures forall n :: n in s && n != child ==> n.parent == old(n.parent)
  {
    hide Links;
    ghost var kids, t := parent.kids, parent.model;
    assert Modelled(s, parent);
    ok := LinkChild(parent, child, s);
    forall n | n in s && n != parent ensures Modelled(s, n) { assert old(Modelled(s, n)); }
    if ok { AdoptModelled(s, parent, child, kids, t); }
  }

  // json_insert_child, of a child that hangs nowhere: the tree of the parent
  // adopts the tree of the child, and the trees above follow.
  method InsertChild(parent: Node, child: Node, ghost s: set<Node>, ghost trail: Trail, ghost root: Node)
      returns (ok: bool)
    requires Forest(s) && Path(s, trail, root, parent) && root.parent == null
    requires child in s && Detached(child) && child != root
    modifies parent, child, parent.child_end, Above(trail)`model
    ensures ok == Allowed(old(parent.ty), old(child.ty), old(child.child) != null)
    ensures !ok ==> unchanged(s)
    ensures ok ==>
              && Forest(s) && parent.model == Adopt(old(parent.model), old(child.model))
                 && root.model == old(Grown(trail, Adopt(parent.model, child.model)))
              && parent.kids == old(parent.kids) + [child] && child.parent == parent
              && Path(s, trail, root, parent) && root.parent == null && Lead(trail) == old(Lead(trail))
    ensures forall n :: n in s && n != parent && n !in Above(trail) ==> n.model == old(n.model)
    ensures forall n :: n in s ==> n.ty == old(n.ty) && n.text == old(n.text)
    ensures forall n :: n in s && n != parent ==> n.kids == old(n.kids)
    ensures forall n :: n in s && n != child ==> n.parent == old(n.parent)
  {
    hide Forest, Links, Modelled, ModelledAs, Linked;
    ForestLinks(s);
    NotOwnKid(s, trail, root, parent);
    NotAbove(s, trail, trail, root, parent, parent);
    AboveIn(s, trail, root, parent);
    if trail.In? { Hanging(s, trail, root, parent); }
    assert allocated(Above(trail));
    ok := LinkKeeping(parent, child, s);
    if !ok { return; }
    Regrow(s, trail, root, parent, Adopt(parent.model, child.model));
    ForestLinks(s);
  }
}
