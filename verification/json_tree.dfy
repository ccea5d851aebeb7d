// The tree nodes of 3rd/mjson/json.c, linked by pointers: adding a child, and
// writing a tree as text by a walk along the links.
module JsonTree {
  import opened JsonText
  import opened JsonValue

  class Node {
    var ty: Type
    var text: string
    var next: Node?
    var previous: Node?
    var parent: Node?
    var child: Node?
    var child_end: Node?
    // The children in order, and the tree that the node stands for.
    ghost var kids: seq<Node>
    ghost var model: Tree

    // json_new_value, json_new_string and json_new_number
    constructor (ty: Type, text: string)
      ensures this.ty == ty && this.text == text && kids == [] && model == Tree(ty, text, [])
      ensures next == null && previous == null && parent == null && child == null && child_end == null
    {
      this.ty := ty;
      this.text := text;
      next, previous, parent, child, child_end := null, null, null, null, null;
      kids := [];
      model := Tree(ty, text, []);
    }
  }

  function Before(kids: seq<Node>, i: nat): Node?
    requires i < |kids|
  {
    if i == 0 then null else kids[i - 1]
  }

  function After(kids: seq<Node>, i: nat): Node?
    requires i < |kids|
  {
    if i + 1 == |kids| then null else kids[i + 1]
  }

  ghost predicate LinkedKid(s: set<Node>, n: Node, i: nat)
    requires i < |n.kids|
    reads n`kids, s`parent, s`previous, s`next
  {
    && n.kids[i] in s
    && n.kids[i].parent == n
    && n.kids[i].previous == Before(n.kids, i)
    && n.kids[i].next == After(n.kids, i)
  }

  // The links of a node and of its children agree.
  ghost predicate Linked(s: set<Node>, n: Node)
    reads n`kids, n`child, n`child_end, s`parent, s`previous, s`next
  {
    && (if n.kids == [] then n.child == null && n.child_end == null
        else n.child == n.kids[0] && n.child_end == n.kids[|n.kids| - 1])
    && forall i :: 0 <= i < |n.kids| ==> LinkedKid(s, n, i)
  }

  // The tree of a node is made of the trees of its children.
  ghost predicate Modelled(s: set<Node>, n: Node)
    reads n`model, n`ty, n`text, n`kids, s`model
  {
    && n.model.ty == n.ty && n.model.text == n.text && |n.model.kids| == |n.kids|
    && forall i :: 0 <= i < |n.kids| ==> n.kids[i] in s && n.kids[i].model == n.model.kids[i]
  }

  ghost predicate Forest(s: set<Node>)
    reads s
  {
    forall n :: n in s ==> Linked(s, n) && Modelled(s, n)
  }

  // ---------- the walk ----------

  // The way from the root to a node: the nodes above it, their trees, and
  // which of their children leads on.
  datatype Trail = Top | In(up: Trail, node: Node, t: Tree, k: nat)

  function CloseOf(ty: Type): string { if ty.Object? then "}" else if ty.Array? then "]" else "" }

  // What is still to be written once the current node is complete.
  function Remaining(trail: Trail): string {
    match trail
    case Top => ""
    case In(up, _, t, k) =>
      (if k < |t.kids| then Rest(t.kids[k + 1..], t.ty.Object?) else "") + (CloseOf(t.ty) + Remaining(up))
  }

  predicate BadAhead(trail: Trail) {
    match trail
    case Top => false
    case In(up, _, t, k) => (k < |t.kids| && BadAmong(t.kids[k + 1..], t.ty.Object?)) || BadAhead(up)
  }

  function Effort(trail: Trail): nat {
    match trail
    case Top => 0
    case In(up, _, t, k) => (if k < |t.kids| then 2 * SizeAll(t.kids[k + 1..]) else 0) + 1 + Effort(up)
  }

  predicate Parental(ty: Type) { ty.String? || ty.Object? || ty.Array? }

  // trail leads from root to n.
  ghost predicate Reaches(s: set<Node>, trail: Trail, root: Node, n: Node)
    reads s
  {
    n in s
    && match trail
       case Top => n == root
       case In(up, node, t, k) =>
         node in s && t == node.model && k < |node.kids| && node.kids[k] == n && Parental(t.ty)
           && Reaches(s, up, root, node)
  }

  // The current node is below the root, so it is smaller.
  lemma {:induction false} Smaller(s: set<Node>, trail: Trail, root: Node, n: Node)
    requires Forest(s) && Reaches(s, trail, root, n)
    ensures if trail.Top? then n == root else Size(n.model) < Size(root.model)
    decreases trail
  {
    if trail.In? {
      KidSize(trail.t.kids, trail.k);
      Smaller(s, trail.up, root, trail.node);
    }
  }

  lemma {:induction false} KidSize(kids: seq<Tree>, k: nat)
    requires k < |kids|
    ensures Size(kids[k]) + SizeAll(kids[k + 1..]) <= SizeAll(kids)
    decreases |kids|
  {
    if k > 0 {
      KidSize(kids[1..], k - 1);
      assert kids[1..][k..] == kids[k + 1..];
    }
  }

  // ---------- json_tree_to_string ----------

  // Whether a string at the root is written as a label.
  ghost predicate RootKey(root: Node)
    reads root, root.parent
  {
    root.parent == null || root.parent.ty.Object?
  }

  // The key that a node is written with.
  ghost predicate KeyAt(trail: Trail, root: Node)
    reads root, root.parent
  {
    match trail
    case Top => RootKey(root)
    case In(_, _, t, _) => t.ty.Object?
  }

  // Before a node is written.
  ghost predicate Opening(s: set<Node>, root: Node, trail: Trail, n: Node, out: string)
    reads s, root, root.parent
  {
    && Reaches(s, trail, root, n)
    && Text(root.model, RootKey(root))
       == out + Comma(trail) + Text(n.model, KeyAt(trail, root)) + Remaining(trail)
    && Bad(root.model, RootKey(root)) == (Bad(n.model, KeyAt(trail, root)) || BadAhead(trail))
  }

  // Once a node and its children are written, but for its closing sign.
  ghost predicate Closing(s: set<Node>, root: Node, trail: Trail, n: Node, out: string)
    reads s, root, root.parent
  {
    && Reaches(s, trail, root, n)
    && Text(root.model, RootKey(root)) == out + CloseOf(n.model.ty) + Remaining(trail)
    && Bad(root.model, RootKey(root)) == BadAhead(trail)
  }

  // What is written for the node itself, before its children.
  function OpenOf(t: Tree, key: bool): string {
    match t.ty
    case String => "\"" + t.text + "\"" + (if key then ":" else "")
    case Number => t.text
    case Object => "{"
    case Array => "["
    case True => "true"
    case False => "false"
    case Null => "null"
  }

  lemma TextParts(t: Tree, key: bool)
    ensures Text(t, key) == OpenOf(t, key) + (if Parental(t.ty) then Items(t.kids, t.ty.Object?) else "")
            + CloseOf(t.ty)
  {
    hide Items;
    if !Parental(t.ty) {
      assert OpenOf(t, key) + "" + "" == OpenOf(t, key);
    } else if t.ty.String? {
      assert OpenOf(t, key) + Items(t.kids, false) + "" == OpenOf(t, key) + Items(t.kids, false);
    }
  }

  function Comma(trail: Trail): string { if trail.In? && trail.k > 0 then "," else "" }

  lemma ItemsForm(kids: seq<Tree>, key: bool)
    requires kids != []
    ensures Items(kids, key) == Text(kids[0], key) + Rest(kids[1..], key)
    ensures BadAmong(kids, key) == (Bad(kids[0], key) || BadAmong(kids[1..], key))
    ensures SizeAll(kids) == Size(kids[0]) + SizeAll(kids[1..])
  {}

  lemma BadParts(t: Tree, key: bool)
    ensures Bad(t, key) == ((t.ty.String? && key && t.kids == []) || (Parental(t.ty) && BadAmong(t.kids, t.ty.Object?)))
  {}

  lemma Reassoc(x: string, o: string, a: string, b: string, c: string, r: string)
    ensures x + (o + (a + b) + c) + r == (x + o) + "" + a + (b + (c + r))
  {}

  // Down to the first child.
  lemma DownText(trail: Trail, n: Node, t: Tree, key: bool, out: string)
    requires t.kids != [] && Parental(t.ty)
    ensures out + Comma(trail) + Text(t, key) + Remaining(trail)
            == (out + Comma(trail) + OpenOf(t, key)) + "" + Text(t.kids[0], t.ty.Object?)
              + Remaining(In(trail, n, t, 0))
  {
    hide Text, Rest, Items, OpenOf, CloseOf;
    TextParts(t, key);
    ItemsForm(t.kids, t.ty.Object?);
    Reassoc(out + Comma(trail), OpenOf(t, key), Text(t.kids[0], t.ty.Object?), Rest(t.kids[1..], t.ty.Object?),
      CloseOf(t.ty), Remaining(trail));
  }

  lemma DownBad(trail: Trail, n: Node, t: Tree, key: bool)
    requires t.kids != [] && Parental(t.ty)
    ensures (Bad(t, key) || BadAhead(trail)) == (Bad(t.kids[0], t.ty.Object?) || BadAhead(In(trail, n, t, 0)))
    ensures 2 * Size(t.kids[0]) + Effort(In(trail, n, t, 0)) < 2 * Size(t) + Effort(trail)
  {
    hide Bad, BadAmong, SizeAll;
    BadParts(t, key);
    ItemsForm(t.kids, t.ty.Object?);
    assert Size(t) == 1 + SizeAll(t.kids);
  }

  lemma NodeFacts(s: set<Node>, n: Node)
    requires Forest(s) && n in s
    ensures n.ty == n.model.ty && n.text == n.model.text && (n.child == null <==> n.model.kids == [])
    ensures n.child != null ==> n.child in s && n.kids != [] && n.kids[0] == n.child && n.child.model == n.model.kids[0]
  {}

  lemma SiblingFacts(s: set<Node>, p: Node, k: nat)
    requires Forest(s) && p in s && k < |p.kids|
    ensures var n := p.kids[k];
            && n in s && n.parent == p && |p.model.kids| == |p.kids| && n.model == p.model.kids[k]
               && (n.previous != null <==> k > 0)
            && (if k + 1 == |p.kids| then n.next == null
                else n.next == p.kids[k + 1] && n.next in s && n.next.model == p.model.kids[k + 1])
  {
    hide Forest;
    ForestAt(s, p);
    assert LinkedKid(s, p, k);
    if k + 1 < |p.kids| { assert p.kids[k + 1] in s && p.kids[k + 1].model == p.model.kids[k + 1]; }
  }

  lemma ForestAt(s: set<Node>, n: Node)
    requires Forest(s) && n in s
    ensures Linked(s, n) && Modelled(s, n)
  {}

  lemma GoDown(s: set<Node>, root: Node, trail: Trail, n: Node, out: string)
    requires Forest(s) && Opening(s, root, trail, n, out) && n.child != null && Parental(n.ty)
    ensures var down := In(trail, n, n.model, 0);
            && Opening(s, root, down, n.child, out + Comma(trail) + OpenOf(n.model, KeyAt(trail, root)))
            && 2 * Size(n.child.model) + Effort(down) < 2 * Size(n.model) + Effort(trail)
  {
    hide Text, Rest, Bad, BadAhead, Remaining, Effort, Size, OpenOf, CloseOf, Forest, Linked, Modelled;
    NodeFacts(s, n);
    DownText(trail, n, n.model, KeyAt(trail, root), out);
    DownBad(trail, n, n.model, KeyAt(trail, root));
  }

  lemma PastText(trail: Trail, t: Tree, key: bool, out: string)
    requires (t.kids == [] || !Parental(t.ty)) && !(t.ty.String? && key && t.kids == [])
    ensures out + Comma(trail) + Text(t, key) + Remaining(trail) == (out + Comma(trail) + OpenOf(t, key))
            + CloseOf(t.ty) + Remaining(trail)
    ensures !Bad(t, key)
  {
    hide Text, Bad, OpenOf, CloseOf, Remaining;
    TextParts(t, key);
    BadParts(t, key);
    var o, c, r := OpenOf(t, key), CloseOf(t.ty), Remaining(trail);
    assert out + Comma(trail) + (o + "" + c) + r == (out + Comma(trail) + o) + c + r;
  }

  // A node without children, or whose children are not written.
  lemma GoPast(s: set<Node>, root: Node, trail: Trail, n: Node, out: string)
    requires Forest(s) && Opening(s, root, trail, n, out) && (n.child == null || !Parental(n.ty))
    requires !(n.ty.String? && KeyAt(trail, root) && n.child == null)
    ensures Closing(s, root, trail, n, out + Comma(trail) + OpenOf(n.model, KeyAt(trail, root)))
    ensures 1 + Effort(trail) < 2 * Size(n.model) + Effort(trail)
  {
    hide Text, Rest, Bad, BadAhead, Remaining, Effort, OpenOf, CloseOf, Forest, Linked, Modelled;
    NodeFacts(s, n);
    PastText(trail, n.model, KeyAt(trail, root), out);
  }

  // On to the next sibling, or up to the parent.
  lemma GoOn(s: set<Node>, root: Node, trail: Trail, n: Node, out: string)
    requires Forest(s) && Closing(s, root, trail, n, out) && trail.In?
    ensures n.parent == trail.node && n != root
    ensures n.next != null ==>
              var on := trail.(k := trail.k + 1);
              Opening(s, root, on, n.next, out + CloseOf(n.ty)) && 2 * Size(n.next.model) + Effort(on) < 1
                + Effort(trail)
    ensures n.next == null ==>
              Closing(s, root, trail.up, trail.node, out + CloseOf(n.ty)) && 1 + Effort(trail.up) < 1 + Effort(trail)
  {
    hide Text, Bad, BadAmong, OpenOf, CloseOf, Size, SizeAll, BadAhead, Remaining, Effort, Forest, Linked, Modelled;
    Smaller(s, trail, root, n);
    NodeFacts(s, n);
    SiblingFacts(s, trail.node, trail.k);
    if n.next != null { OnText(trail, out, CloseOf(n.ty)); } else { UpText(trail, out, CloseOf(n.ty)); }
  }

  lemma OnText(trail: Trail, out: string, close: string)
    requires trail.In? && trail.k + 1 < |trail.t.kids|
    ensures var on := trail.(k := trail.k + 1);
            var key := trail.t.ty.Object?;
            && out + close + Remaining(trail) == (out + close) + Comma(on) + Text(trail.t.kids[on.k], key)
               + Remaining(on)
            && BadAhead(trail) == (Bad(trail.t.kids[on.k], key) || BadAhead(on))
            && 2 * Size(trail.t.kids[on.k]) + Effort(on) < 1 + Effort(trail)
  {
    hide Text, Bad, Size, CloseOf;
    var kids, k, key := trail.t.kids, trail.k, trail.t.ty.Object?;
    var rest := kids[k + 1..];
    assert rest[0] == kids[k + 1] && rest[1..] == kids[k + 2..];
    assert Rest(rest, key) == "," + Text(kids[k + 1], key) + Rest(kids[k + 2..], key);
    assert SizeAll(rest) == Size(kids[k + 1]) + SizeAll(kids[k + 2..]);
    var c := CloseOf(trail.t.ty) + Remaining(trail.up);
    var a, b := Text(kids[k + 1], key), Rest(kids[k + 2..], key);
    assert out + close + (("," + a + b) + c) == (out + close) + "," + a + (b + c);
  }

  lemma UpText(trail: Trail, out: string, close: string)
    requires trail.In? && trail.k + 1 == |trail.t.kids|
    ensures out + close + Remaining(trail) == (out + close) + CloseOf(trail.t.ty) + Remaining(trail.up)
    ensures BadAhead(trail) == BadAhead(trail.up)
    ensures 1 + Effort(trail.up) < 1 + Effort(trail)
  {
    hide Text, Bad, Size, CloseOf;
    var c, r := CloseOf(trail.t.ty), Remaining(trail.up);
    assert trail.t.kids[trail.k + 1..] == [];
    assert out + close + ("" + (c + r)) == (out + close) + c + r;
  }

  lemma Begin(s: set<Node>, root: Node)
    requires root in s
    ensures Opening(s, root, Top, root, "")
  {
    hide Text, Bad;
    assert "" + "" + Text(root.model, RootKey(root)) + "" == Text(root.model, RootKey(root));
  }

  // What the links say about the place of a node.
  lemma Place(s: set<Node>, root: Node, trail: Trail, n: Node, out: string)
    requires Forest(s) && Opening(s, root, trail, n, out)
    ensures (n.previous != null && n != root) == (trail.In? && trail.k > 0)
    ensures KeyAt(trail, root) == (n.parent == null || n.parent.ty.Object?)
    ensures n in s
  {
    hide Forest, Text, Bad, Size, Linked, Modelled;
    Smaller(s, trail, root, n);
    if trail.In? {
      SiblingFacts(s, trail.node, trail.k);
      NodeFacts(s, trail.node);
    }
  }

  lemma EmptyLabel(s: set<Node>, root: Node, trail: Trail, n: Node, out: string)
    requires Forest(s) && Opening(s, root, trail, n, out) && n.ty.String? && KeyAt(trail, root) && n.child == null
    ensures Bad(root.model, RootKey(root))
  {
    hide Forest, Text, Linked, Modelled;
    NodeFacts(s, n);
  }

  // A string, and its colon if it is a label; failed if it is a label without
  // a value.
  method WriteString(output: Rcs, cursor: Node) returns (failed: bool)
    requires output.Valid()
    modifies output, output.text
    ensures output.Valid() && (output.text == old(output.text) || fresh(output.text))
    ensures var key := cursor.parent == null || cursor.parent.ty.Object?;
            && failed == (key && cursor.child == null)
            && (!failed ==>
               output.Contents() == old(output.Contents())
               + ("\"" + cursor.text + "\"" + (if key then ":" else "")))
  {
    failed := false;
    ghost var before := output.Contents();
    output.Catc('"');
    output.Catcs(cursor.text);
    output.Catc('"');
    assert output.Contents() == before + ("\"" + cursor.text + "\"");
    if cursor.parent == null || cursor.parent.ty.Object? {
      if cursor.child != null {
        output.Catc(':');
        assert before + ("\"" + cursor.text + "\"") + ":" == before + ("\"" + cursor.text + "\"" + ":");
      } else {
        failed := true;
      }
    } else {
      assert before + ("\"" + cursor.text + "\"") == before + ("\"" + cursor.text + "\"" + "");
    }
  }

  // A node up to its first child; failed if it is a label without a value.
  method WriteOpen(output: Rcs, root: Node, cursor: Node) returns (failed: bool)
    requires output.Valid()
    modifies output, output.text
    ensures output.Valid() && (output.text == old(output.text) || fresh(output.text))
    ensures var key := cursor.parent == null || cursor.parent.ty.Object?;
            && failed == (cursor.ty.String? && key && cursor.child == null)
            && (!failed ==>
               output.Contents() == old(output.Contents())
               + (if cursor.previous != null && cursor != root then "," else "")
                                                 + OpenOf(Tree(cursor.ty, cursor.text, []), key))
  {
    failed := false;
    ghost var before := output.Contents();
    if cursor.previous != null && cursor != root { output.Catc(','); } else { assert before + "" == before; }
    if cursor.ty.String? {
      failed := WriteString(output, cursor);
    } else if cursor.ty.Number? {
      output.Catcs(cursor.text);
    } else if cursor.ty.Object? {
      output.Catc('{');
    } else if cursor.ty.Array? {
      output.Catc('[');
    } else if cursor.ty.True? {
      output.Catcs("true");
    } else if cursor.ty.False? {
      output.Catcs("false");
    } else {
      output.Catcs("null");
    }
  }

  // What json_tree_to_string returns; text is empty unless it is Ok.
  method TreeToString(root: Node, ghost s: set<Node>) returns (code: Code, text: string)
    requires Forest(s) && root in s
    requires NUL !in Text(root.model, RootKey(root))
    ensures code == if Bad(root.model, RootKey(root)) then BadTree else Ok
    ensures code.Ok? ==> text == Text(root.model, RootKey(root))
  {
    hide Forest, Opening, Closing, Text, Bad, Size, Effort, Linked, Modelled, KeyAt, RootKey, OpenOf, Reaches,
         Remaining, BadAhead;
    text := "";
    var output := new Rcs(DEFAULT_LENGTH);
    var cursor: Node := root;
    var opening := true;
    ghost var trail := Top;
    Begin(s, root);
    while true
      invariant output.Valid() && fresh(output) && fresh(output.text)
      invariant Forest(s)
      invariant if opening then Opening(s, root, trail, cursor, output.Contents())
                else Closing(s, root, trail, cursor, output.Contents())
      decreases Effort(trail) + if opening then 2 * Size(cursor.model) else 1
    {
      ghost var out := output.Contents();
      if opening {
        Place(s, root, trail, cursor, out);
        NodeFacts(s, cursor);
        OpenOfNode(cursor.model, KeyAt(trail, root));
        ghost var key := KeyAt(trail, root);
        if cursor.ty.String? && key && cursor.child == null { EmptyLabel(s, root, trail, cursor, out); }
        var failed := WriteOpen(output, root, cursor);
        if failed { return BadTree, ""; }
        if cursor.child != null && (cursor.ty.String? || cursor.ty.Object? || cursor.ty.Array?) {
          GoDown(s, root, trail, cursor, out);
          trail := In(trail, cursor, cursor.model, 0);
          cursor := cursor.child;
        } else {
          GoPast(s, root, trail, cursor, out);
          opening := false;
        }
      } else {
        ClosingFacts(s, root, trail, cursor, out);
        if cursor.ty.Object? { output.Catc('}'); } else if cursor.ty.Array? { output.Catc(']'); }
        if cursor.parent == null || cursor == root {
          text := output.Unwrap();
          return Ok, text;
        }
        GoOn(s, root, trail, cursor, out);
        if cursor.next != null {
          trail := trail.(k := trail.k + 1);
          cursor := cursor.next;
          opening := true;
        } else {
          trail := trail.up;
          cursor := cursor.parent;
        }
      }
    }
  }

  lemma OpenOfNode(t: Tree, key: bool)
    ensures OpenOf(Tree(t.ty, t.text, []), key) == OpenOf(t, key)
  {}

  lemma ClosingFacts(s: set<Node>, root: Node, trail: Trail, n: Node, out: string)
    requires Forest(s) && Closing(s, root, trail, n, out)
    ensures n.ty == n.model.ty
    ensures trail.Top? <==> n == root
    ensures trail.Top? ==> Text(root.model, RootKey(root)) == out + CloseOf(n.ty) && !Bad(root.model, RootKey(root))
    ensures trail.In? ==> n.parent != null
    ensures out + "" == out
  {
    hide Forest, Text, Bad, Size, Linked, Modelled;
    Smaller(s, trail, root, n);
    NodeFacts(s, n);
    if trail.In? { SiblingFacts(s, trail.node, trail.k); }
  }
}
