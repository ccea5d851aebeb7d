// The tree that the parser of 3rd/mjson/json.c grows, with its cursor: the
// pointers carry out what the parser's machine does on values.
module JsonBuilder {
  import opened JsonText
  import opened JsonValue
  import opened JsonTree
  import opened JsonInsert

  // Every step of the trail leads to the last child.
  ghost predicate Rightmost(trail: Trail)
    reads Above(trail)`kids
  {
    match trail
    case Top => true
    case In(up, node, _, k) => k + 1 == |node.kids| && Rightmost(up)
  }

  lemma {:induction false} PathMore(s: set<Node>, t: set<Node>, trail: Trail, root: Node, n: Node)
    requires Path(s, trail, root, n) && s <= t
    ensures Path(t, trail, root, n)
    decreases trail
  {
    if trail.In? { PathMore(s, t, trail.up, root, trail.node); }
  }

  // A new node beside a forest.
  lemma ForestMore(s: set<Node>, n: Node)
    requires Forest(s) && n !in s && n.kids == [] && n.child == null && n.child_end == null
             && n.model == Tree(n.ty, n.text, [])
    ensures Forest(s + {n})
  {
    forall m | m in s + {n} ensures Linked(s + {n}, m) && Modelled(s + {n}, m) {
      if m in s {
        assert Linked(s, m) && Modelled(s, m);
        forall i | 0 <= i < |m.kids| ensures LinkedKid(s + {n}, m, i) { assert LinkedKid(s, m, i); }
      }
    }
  }

  lemma FreshNode(n: Node)
    requires n.parent == null && n.previous == null && n.next == null
    ensures Detached(n)
  {}

  // The cursor is not above itself.
  lemma Alone(s: set<Node>, trail: Trail, root: Node, n: Node)
    requires Forest(s) && Path(s, trail, root, n) && root.parent == null
    ensures n !in Above(trail) && Above(trail) <= s && root in s && |n.model.kids| == |n.kids| && n.model.ty == n.ty
            && n.model.text == n.text
    ensures n.child_end == null || n.child_end in s
  {
    ForestLinks(s);
    NotAbove(s, trail, trail, root, n, n);
    AboveIn(s, trail, root, n);
    assert Modelled(s, n) && Linked(s, n);
    if n.kids != [] { LinksAt(s, n, |n.kids| - 1); }
  }

  class Builder {
    var cursor: Node?
    ghost var nodes: set<Node>
    ghost var trail: Trail
    ghost var root: Node?

    ghost predicate Valid()
      reads this, nodes, Above(trail)
    {
      if cursor == null then nodes == {} && root == null && trail == Top
      else
        && root != null && root in nodes && root.parent == null && cursor in nodes && Above(trail) <= nodes
        && Forest(nodes) && Path(nodes, trail, root, cursor) && Rightmost(trail)
    }

    // The open nodes, each with the children that are complete.
    ghost function Zip(): seq<Tree>
      reads this, cursor, Above(trail)
    {
      if cursor == null then [] else Lead(trail) + [cursor.model]
    }

    constructor ()
      ensures Valid() && cursor == null && Zip() == [] && nodes == {}
    {
      cursor, nodes, trail, root := null, {}, Top, null;
    }

    // A new node becomes the last child of the cursor.
    method AddChild(ty: Type, text: string) returns (n: Node)
      requires Valid() && cursor != null && Allowed(cursor.ty, ty, false)
      modifies this`nodes, nodes
      ensures Valid() && fresh(n) && nodes == old(nodes) + {n} && n.ty == ty && n.text == text
              && n.model == Tree(ty, text, [])
      ensures n.parent == cursor && n in nodes && n.kids == []
      ensures cursor.kids == old(cursor.kids) + [n] && cursor.model == Adopt(old(cursor.model), Tree(ty, text, []))
      ensures Lead(trail) == old(Lead(trail)) && |cursor.model.kids| == |cursor.kids|
    {
      hide Forest, Path, Lead, Rightmost, Above, Detached, Allowed;
      assert allocated(nodes) && allocated(Above(trail));
      Alone(nodes, trail, root, cursor);
      n := new Node(ty, text);
      assert Detached(n) by { FreshNode(n); }
      ForestMore(nodes, n);
      PathMore(nodes, nodes + {n}, trail, root, cursor);
      nodes := nodes + {n};
      var ok := InsertChild(cursor, n, nodes, trail, root);
      assert ok;
    }

    // The cursor gets a child without children of its own.
    method AddLeaf(ty: Type, text: string)
      requires Valid() && cursor != null && Allowed(cursor.ty, ty, false)
      modifies this`nodes, nodes
      ensures Valid() && fresh(nodes - old(nodes)) && old(nodes) <= nodes
      ensures Zip() == Insert(old(Zip()), Tree(ty, text, []))
    {
      hide Valid, Lead, Insert, Adopt, Above;
      ghost var zip := Zip();
      assert allocated(Above(trail));
      var n := AddChild(ty, text);
      InsertZip(Lead(trail), old(cursor.model), Tree(ty, text, []));
    }

    // The first node of a document.
    method AddRoot(ty: Type, text: string)
      requires Valid() && cursor == null
      modifies this
      ensures Valid() && cursor != null && fresh(nodes) && Zip() == [Tree(ty, text, [])]
    {
      var n := new Node(ty, text);
      cursor := n;
      root, nodes, trail := n, {n}, Top;
      assert Linked(nodes, n) && Modelled(nodes, n);
    }

    // The cursor gets a child and moves on to it.
    method AddOpen(ty: Type, text: string)
      requires Valid() && (cursor != null ==> Allowed(cursor.ty, ty, false))
      modifies this, nodes
      ensures Valid() && fresh(nodes - old(nodes)) && old(nodes) <= nodes && cursor != null
      ensures Zip() == Push(old(Zip()), Tree(ty, text, []))
    {
      hide Forest, Path, Lead, Rightmost, Above, Allowed, Adopt;
      if cursor == null {
        assert Zip() == [];
        AddRoot(ty, text);
      } else {
        assert allocated(Above(trail));
        var n := AddChild(ty, text);
        Down(nodes, trail, root, cursor, n, old(cursor.model));
        trail := In(trail, cursor, cursor.model, |cursor.kids| - 1);
        cursor := n;
      }
    }

    // The cursor moves to its parent.
    method GoUp()
      requires Valid() && cursor != null && cursor.parent != null
      modifies this`cursor, this`trail
      ensures Valid() && cursor == old(cursor.parent) && cursor != null && |old(Zip())| > 1
      ensures Zip() == Pop(old(Zip()))
    {
      hide Forest, Path, Lead, Rightmost, Above, Pop;
      Up(nodes, trail, root, cursor);
      cursor := cursor.parent;
      trail := trail.up;
    }
  }

  // The trail that goes on to a child that was added last.
  lemma Down(s: set<Node>, trail: Trail, root: Node, n: Node, kid: Node, before: Tree)
    requires Path(s, trail, root, n) && Rightmost(trail) && kid in s && n.kids != [] && n.kids[|n.kids| - 1] == kid
    requires |n.model.kids| == |n.kids| && n.model == Adopt(before, kid.model)
    ensures var down := In(trail, n, n.model, |n.kids| - 1);
            Path(s, down, root, kid) && Rightmost(down) && Lead(down) == Lead(trail) + [before]
              && Above(down) == {n} + Above(trail)
  {
    assert n.model.kids[..|n.kids| - 1] == before.kids;
  }

  lemma UpLinks(s: set<Node>, trail: Trail, root: Node, n: Node)
    requires Forest(s) && Path(s, trail, root, n) && Rightmost(trail) && root.parent == null && n.parent != null
    ensures trail.In? && trail.node == n.parent && n.parent in s && Path(s, trail.up, root, n.parent)
            && Rightmost(trail.up)
    ensures Above(trail) == {trail.node} + Above(trail.up)
    ensures var t, k := trail.node.model, trail.k; k + 1 == |t.kids| && t.kids[k] == n.model
  {
    hide Forest, Lead;
    ForestLinks(s);
    Hanging(s, trail, root, n);
    assert Modelled(s, trail.node);
  }

  lemma PopZip(lead: seq<Tree>, t: Tree, kid: Tree)
    requires t.kids != [] && t.kids[|t.kids| - 1] == kid
    ensures Pop(lead + [t.(kids := t.kids[..|t.kids| - 1])] + [kid]) == lead + [t]
  {
    var zip := lead + [t.(kids := t.kids[..|t.kids| - 1])] + [kid];
    assert t.kids[..|t.kids| - 1] + [kid] == t.kids;
    assert zip[..|zip| - 2] == lead;
  }

  lemma Up(s: set<Node>, trail: Trail, root: Node, n: Node)
    requires Forest(s) && Path(s, trail, root, n) && Rightmost(trail) && root.parent == null && n.parent != null
    ensures trail.In? && trail.node == n.parent && n.parent in s && Path(s, trail.up, root, n.parent)
            && Rightmost(trail.up)
    ensures Above(trail.up) <= Above(trail) && |Lead(trail)| > 0
    ensures Pop(Lead(trail) + [n.model]) == Lead(trail.up) + [n.parent.model]
  {
    hide Forest, Path, Rightmost, Pop, Above;
    UpLinks(s, trail, root, n);
    PopZip(Lead(trail.up), trail.node.model, n.model);
  }

  lemma InsertZip(lead: seq<Tree>, t: Tree, leaf: Tree)
    ensures Insert(lead + [t], leaf) == lead + [Adopt(t, leaf)]
  {
    assert (lead + [t])[..|lead|] == lead;
  }

  lemma {:induction false} LeadDepth(trail: Trail)
    ensures |Lead(trail)| == Depth(trail)
    decreases trail
  {
    if trail.In? { LeadDepth(trail.up); }
  }

  // What the list of open nodes says about the cursor.
  lemma ZipFacts(b: Builder)
    requires b.Valid()
    ensures var zip := b.Zip();
            if b.cursor == null then zip == []
            else zip != [] && (b.cursor.parent == null <==> |zip| == 1) && zip[|zip| - 1].ty == b.cursor.ty
  {
    hide Forest;
    if b.cursor != null {
      LeadDepth(b.trail);
      Alone(b.nodes, b.trail, b.root, b.cursor);
      ForestLinks(b.nodes);
      if b.trail.In? { Hanging(b.nodes, b.trail, b.root, b.cursor); }
    }
  }
}
