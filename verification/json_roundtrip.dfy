// Parsing what was printed gives the same tree: the printed text is a layout
// without white space.
module JsonRoundTrip {
  import opened JsonText
  import opened JsonLexer
  import opened JsonValue
  import opened JsonGrammar
  import opened JsonTokens
  import opened JsonAccept

  lemma StringForm(t: Tree)
    requires t.ty.String? && t.kids == []
    ensures Text(t, false) == "\"" + t.text + "\""
  {
    assert "\"" + t.text + "\"" + "" + "" == "\"" + t.text + "\"";
  }

  lemma SizeOfPair(t: Tree)
    requires |t.kids| == 1
    ensures Size(t) == 1 + Size(t.kids[0])
  {
    assert t.kids[1..] == [];
    assert SizeAll(t.kids) == Size(t.kids[0]) + SizeAll([]);
  }

  lemma PairForm(t: Tree)
    requires IsPair(t)
    ensures Text(t, true) == ("\"" + t.text + "\"" + ":") + Text(t.kids[0], false)
  {
    assert t.kids[1..] == [];
    assert Items(t.kids, false) == Text(t.kids[0], false) + "";
  }

  // ---------- the compact layout ----------

  function Compact(t: Tree): (x: Layout)
    ensures x.ty == t.ty && |x.kids| == |t.kids|
    decreases t, 1
  {
    Layout(t.ty, t.text, seq(|t.kids|, i requires 0 <= i < |t.kids| => CompactKid(t, i)), NoComma, "")
  }

  function CompactKid(t: Tree, i: nat): Kid
    requires i < |t.kids|
    decreases t, 0
  {
    var k := t.kids[i];
    if t.ty.Object? && k.kids != [] then Kid("", "", k.text, "", "", Compact(k.kids[0]))
    else Kid("", "", "", "", "", Compact(k))
  }

  lemma {:induction false} CompactProper(t: Tree)
    requires IsValue(t)
    ensures Proper(Compact(t)) && Meaning(Compact(t)) == t
    decreases t, 2
  {
    CompactAll(t, |t.kids|);
    BodyIsText(t.text);
    FormIsText(t.text);
    hide StringText, StringBody, NumberText, NumberForm, CompactKid, Meanings, ProperKid;
  }

  lemma {:induction false} CompactAll(t: Tree, n: nat)
    requires IsValue(t) && n <= |t.kids|
    ensures Meanings(Compact(t), n) == t.kids[..n] && forall i :: 0 <= i < n ==> ProperKid(CompactKid(t, i))
    decreases t, 1, n
  {
    hide Meaning, ProperKid, CompactKid, IsPair;
    if n > 0 {
      CompactAll(t, n - 1);
      CompactOne(t, n - 1);
    }
  }

  lemma {:induction false} CompactOne(t: Tree, i: nat)
    requires IsValue(t) && i < |t.kids|
    ensures var k := CompactKid(t, i);
            ProperKid(k) && t.kids[i] == if t.ty.Object? then Tree(String, k.key, [Meaning(k.value)])
              else Meaning(k.value)
    decreases t, 0
  {
    hide StringText, StringBody, NumberText, NumberForm, Proper, Meaning, Compact;
    var k := t.kids[i];
    BodyIsText("");
    EmptyBody();
    if t.ty.Object? {
      assert IsPair(k);
      BodyIsText(k.text);
      CompactProper(k.kids[0]);
      assert k == Tree(String, k.text, [k.kids[0]]);
    } else {
      assert t.ty.Array?;
      CompactProper(k);
    }
  }

  lemma EmptyBody()
    ensures StringBody("")
  {
  }

  // The layout is written as the printer writes the tree.
  lemma {:induction false} CompactWritten(t: Tree)
    requires IsValue(t)
    ensures Write(Compact(t)) == Text(t, false)
    decreases t, 2
  {
    hide CompactKid, WriteKids, Items, Text;
    if t.ty.Object? || t.ty.Array? {
      CompactItems(t, |t.kids|);
      ContainerParts(t);
    } else {
      LeafText(t);
    }
  }

  lemma LeafText(t: Tree)
    requires IsValue(t) && !t.ty.Object? && !t.ty.Array?
    ensures Write(Compact(t)) == Text(t, false)
  {
    if t.ty.String? { StringForm(t); }
    hide StringText, NumberText;
  }

  lemma ContainerParts(t: Tree)
    requires t.ty.Object? || t.ty.Array?
    requires WriteKids(Compact(t), |t.kids|) + Rest([], t.ty.Object?) == Items(t.kids, t.ty.Object?)
    ensures Write(Compact(t)) == Text(t, false)
  {
    assert Rest([], t.ty.Object?) == "";
    assert WriteKids(Compact(t), |t.kids|) + "" == WriteKids(Compact(t), |t.kids|);
    hide WriteKids, Items, CompactKid;
    assert Trailing(Compact(t)) == "" && Compact(t).close == "";
  }

  // The first n children, then the rest as the printer writes it.
  lemma {:induction false} CompactItems(t: Tree, n: nat)
    requires IsValue(t) && (t.ty.Object? || t.ty.Array?) && n <= |t.kids|
    ensures n == 0 ==> WriteKids(Compact(t), 0) == ""
    ensures n > 0 || t.kids == [] ==>
              WriteKids(Compact(t), n) + Rest(t.kids[n..], t.ty.Object?) == Items(t.kids, t.ty.Object?)
    decreases t, 1, n
  {
    hide *;
    var x, key := Compact(t), t.ty.Object?;
    NoItems(t);
    if n > 0 {
      CompactItems(t, n - 1);
      CompactNext(t, n);
      RestNext(t.kids, n, key);
    }
  }

  lemma NoItems(t: Tree)
    ensures WriteKids(Compact(t), 0) == "" && Rest([], t.ty.Object?) == "" && Items([], t.ty.Object?) == ""
  {
  }

  lemma RestNext(kids: seq<Tree>, n: nat, key: bool)
    requires 0 < n <= |kids|
    ensures if n == 1 then Items(kids, key) == Text(kids[0], key) + Rest(kids[1..], key)
            else Rest(kids[n - 1..], key) == "," + Text(kids[n - 1], key) + Rest(kids[n..], key)
  {
    hide Text;
    assert kids[n - 1..][1..] == kids[n..];
  }

  lemma {:induction false} CompactNext(t: Tree, n: nat)
    requires IsValue(t) && (t.ty.Object? || t.ty.Array?) && 0 < n <= |t.kids|
    ensures WriteKids(Compact(t), n)
         == WriteKids(Compact(t), n - 1) + (if n == 1 then "" else ",") + Text(t.kids[n - 1], t.ty.Object?)
    decreases t, 0, n
  {
    hide *;
    var x := Compact(t);
    var k := x.kids[n - 1];
    CompactPiece(t, n - 1);
    CompactKidIs(t, n - 1);
    KidsPiece(x, n);
    PieceIs(x, n);
    SeparatorIs(k, n);
    Regrouped(WriteKids(x, n - 1), Separator(k, n), Tag(k, t.ty), k.gap, Write(k.value));
    assert k.comma + "," == ",";
  }

  lemma Regrouped(a: string, b: string, c: string, d: string, e: string)
    ensures a + (b + (c + (d + e))) == a + b + (c + d + e)
  {
  }

  lemma CompactKidIs(t: Tree, i: nat)
    requires i < |t.kids|
    ensures Compact(t).kids[i] == CompactKid(t, i)
  {
  }

  lemma {:induction false} CompactPiece(t: Tree, i: nat)
    requires IsValue(t) && (t.ty.Object? || t.ty.Array?) && i < |t.kids|
    ensures var k := CompactKid(t, i);
            k.comma == "" && Tag(k, t.ty) + k.gap + Write(k.value) == Text(t.kids[i], t.ty.Object?)
    decreases t, 0, 0
  {
    hide Text, Write, StringText;
    var k := t.kids[i];
    if t.ty.Object? {
      assert IsPair(k);
      PairForm(k);
      CompactWritten(k.kids[0]);
      assert Tag(CompactKid(t, i), t.ty) == "" + ("\"" + k.text + "\"") + ("" + ":");
    } else {
      CompactWritten(k);
    }
  }

  // Parsing the text of a document gives the document.
  lemma PrintedIsParsed(t: Tree)
    requires IsDocument(t)
    ensures Document(Text(t, false)).code.Ok? && Document(Text(t, false)).q.zip == [t]
  {
    hide *;
    DocumentParts(t);
    CompactProper(t);
    CompactWritten(t);
    PlainWritten(Compact(t));
    WrittenIsParsed(Write(Compact(t)), "", Compact(t), "");
  }

  lemma DocumentParts(t: Tree)
    requires IsDocument(t)
    ensures IsValue(t) && t.ty.Object?
  {
  }

  // ---------- well-formed trees are never refused ----------

  lemma {:induction false} PairsAreFine(kids: seq<Tree>)
    requires forall i :: 0 <= i < |kids| ==> IsPair(kids[i])
    ensures !BadAmong(kids, true)
    decreases SizeAll(kids), 1
  {
    hide StringText;
    if kids != [] {
      var k := kids[0];
      SizeOfPair(k);
      ValueIsFine(k.kids[0]);
      assert k.kids[1..] == [] && !BadAmong(k.kids[1..], false);
      assert !BadAmong(k.kids, false);
      assert !Bad(k, true);
      PairsAreFine(kids[1..]);
    }
  }

  lemma {:induction false} ValuesAreFine(kids: seq<Tree>)
    requires forall i :: 0 <= i < |kids| ==> IsValue(kids[i])
    ensures !BadAmong(kids, false)
    decreases SizeAll(kids), 1
  {
    hide StringText;
    if kids != [] {
      ValueIsFine(kids[0]);
      ValuesAreFine(kids[1..]);
    }
  }

  lemma {:induction false} ValueIsFine(t: Tree)
    requires IsValue(t)
    ensures !Bad(t, false)
    decreases Size(t), 0
  {
    hide StringText;
    if t.ty.Object? { PairsAreFine(t.kids); } else if t.ty.Array? { ValuesAreFine(t.kids); }
  }
}
