// Single steps of the parser's machine: signs, values, containers and labels.
module JsonSteps {
  import opened JsonText
  import opened JsonLexer
  import opened JsonValue

  lemma AtSplit(buffer: string, i: nat, a: string, b: string)
    requires At(buffer, i, a + b)
    ensures At(buffer, i, a) && At(buffer, i + |a|, b)
  {
    assert buffer[i..i + |a|] == (a + b)[..|a|];
    assert buffer[i + |a|..i + |a| + |b|] == (a + b)[|a|..];
  }

  lemma AtChar(buffer: string, i: nat, c: char, rest: string)
    requires At(buffer, i, [c] + rest)
    ensures i < |buffer| && buffer[i] == c && At(buffer, i + 1, rest)
  {
    AtSplit(buffer, i, [c], rest);
    assert buffer[i..i + 1][0] == c;
  }

  lemma SignLeads(p: Parser, buffer: string, i: nat, q: Parser)
    requires i < |buffer| && Good(p) && !Opening(p) && p.lex.Root? && SignTok(buffer[i]) != Invalid
    requires React(p, SignTok(buffer[i])) == Next(q)
    ensures Leads(p, buffer, i, q, i + 1)
  {
    hide React, Lex, Good;
    LexSign(buffer, i, p.text);
    assert p.(text := p.text) == p;
    TokenLeads(p, buffer, i, SignTok(buffer[i]), i + 1, p.text, q);
  }

  lemma TakeIsHaving(p: Parser, tok: Tok, text: string, t: Tree)
    requires Expecting(p) && tok in LEAVES && t == Leaf(tok, text)
    ensures React(p.(text := text), tok) == Next(Having(p, t, if tok.StringTok? || tok.NumberTok? then "" else text))
  {}

  lemma TokenIsHaving(p: Parser, buffer: string, i: nat, tok: Tok, j: nat, text: string, t: Tree)
      returns (after: string)
    requires i < |buffer| && Expecting(p) && tok in LEAVES && t == Leaf(tok, text)
    requires Lex(buffer, i, Root, p.text) == Lexed(tok, j, Root, text)
    ensures j <= |buffer| && Leads(p, buffer, i, Having(p, t, after), j)
  {
    hide React, Lex, Good, Having, Leaf;
    after := if tok.StringTok? || tok.NumberTok? then "" else text;
    TakeIsHaving(p, tok, text, t);
    TokenLeads(p, buffer, i, tok, j, text, Having(p, t, after));
  }

  // The parser inside of a container that has the children kids.
  function Inside(p: Parser, ty: Type, kids: seq<Tree>, text: string): Parser {
    p.(st := if ty.Object? then if kids == [] then InObject else AfterField else if kids == [] then InArray
      else AfterElement,
       zip := Push(p.zip, Tree(ty, "", kids)), text := text)
  }

  // Where a container may be open: at the root, or where a value may come.
  predicate Under(p: Parser, ty: Type) {
    p.lex.Root? && (ty.Object? || ty.Array?) && if p.zip == [] then ty.Object? else Expecting(p)
  }

  lemma InsideGood(p: Parser, ty: Type, kids: seq<Tree>, text: string)
    requires Under(p, ty)
    ensures Good(Inside(p, ty, kids, text)) && !Opening(Inside(p, ty, kids, text))
  {
    if p.zip != [] { PushSpine(p.zip, Tree(ty, "", kids)); }
  }

  lemma UnderType(p: Parser, ty: Type)
    requires Under(p, ty)
    ensures ty.Object? || ty.Array?
  {}

  lemma ExpectingUnder(p: Parser, ty: Type)
    requires Expecting(p) && (ty.Object? || ty.Array?)
    ensures Under(p, ty)
  {}

  lemma OpenLeads(p: Parser, buffer: string, i: nat, ty: Type)
    requires Expecting(p) && (ty.Object? || ty.Array?) && i + 1 < |buffer|
             && buffer[i] == (if ty.Object? then '{' else '[')
    ensures Leads(p, buffer, i, Inside(p, ty, [], p.text), i + 1)
  {
    hide Spine, Lex, Run;
    var q := p.(st := if ty.Object? then OpenObject else OpenArray);
    assert Good(q) && Opening(q);
    assert React(p, SignTok(buffer[i])) == Next(q);
    SignLeads(p, buffer, i, q);
    OpeningLeads(q, buffer, i + 1);
    assert Opened(q) == Inside(p, ty, [], p.text);
    LeadsOn(p, q, Opened(q), buffer, i, i + 1, i + 1);
  }

  lemma CloseIsHaving(p: Parser, t: Tree, text: string)
    requires Expecting(p) && (t.ty.Object? || t.ty.Array?) && t.text == ""
    ensures Close(Inside(p, t.ty, t.kids, text)) == Next(Having(p, t, text))
  {
    var q := Inside(p, t.ty, t.kids, text);
    assert Tree(t.ty, "", t.kids) == t;
    assert q.zip == p.zip + [t] && Pop(q.zip) == Insert(p.zip, t);
    HavingGood(p, t, text);
    InsertSpine(p.zip, t);
    if p.st.Value? { PopSpine(Insert(p.zip, t)); }
  }

  // The comma before a further child.
  lemma CommaLeads(p: Parser, buffer: string, i: nat, ty: Type, done: seq<Tree>, text: string)
    requires Under(p, ty) && done != [] && i < |buffer| && buffer[i] == ','
    ensures var q := Inside(p, ty, done, text);
            Leads(q, buffer, i, q.(st := if ty.Object? then NextField else InArray), i + 1)
  {
    hide Lex, Run, Spine;
    InsideGood(p, ty, done, text);
    var q := Inside(p, ty, done, text);
    SignLeads(q, buffer, i, q.(st := if ty.Object? then NextField else InArray));
  }

  // The parser after the label of a pair and its colon.
  function Labelled(q: Parser, key: string): Parser {
    q.(st := Value, zip := Push(q.zip, Tree(String, key, [])), text := "")
  }

  lemma LabelledGood(q: Parser, key: string)
    requires Good(q) && q.lex.Root? && (q.st.InObject? || q.st.NextField?)
    ensures Expecting(Labelled(q, key)) && Good(Labelled(q, key).(st := Label))
    ensures React(q.(text := key), StringTok) == Next(Labelled(q, key).(st := Label))
  {
    PushSpine(q.zip, Tree(String, key, []));
  }

  // A pair is complete when its value is.
  lemma PairZip(zip: seq<Tree>, done: seq<Tree>, pair: Tree)
    requires |pair.kids| == 1 && pair.ty.String?
    ensures var below := Push(zip, Tree(Object, "", done));
            Pop(Insert(Push(below, Tree(String, pair.text, [])), pair.kids[0])) ==
              Push(zip, Tree(Object, "", done + [pair]))
  {
    var below := Push(zip, Tree(Object, "", done));
    var v := pair.kids[0];
    assert [] + [v] == pair.kids;
    assert Adopt(Tree(String, pair.text, []), v) == pair;
    var inner := Push(below, Tree(String, pair.text, []));
    assert inner[..|inner| - 1] == below;
    var full := Insert(inner, v);
    assert full == below + [pair];
    assert full[..|full| - 2] == zip;
  }

  lemma PairHad(q: Parser, zip: seq<Tree>, done: seq<Tree>, pair: Tree, after: string)
    requires |pair.kids| == 1 && pair.ty.String? && q.zip == Push(zip, Tree(Object, "", done))
    requires Expecting(Labelled(q, pair.text))
    ensures var had := Having(Labelled(q, pair.text), pair.kids[0], after);
            had == q.(st := AfterField, zip := Push(zip, Tree(Object, "", done + [pair])), text := after)
  {
    hide Expecting, Push, Pop, Insert;
    PairZip(zip, done, pair);
  }

  lemma ElementHad(p: Parser, done: seq<Tree>, text: string, t: Tree, after: string)
    requires Under(p, Array)
    ensures var q := Inside(p, Array, done, text).(st := InArray);
            Expecting(q) && Having(q, t, after) == Inside(p, Array, done + [t], after)
  {
    InsideGood(p, Array, done, text);
    var q := Inside(p, Array, done, text).(st := InArray);
    assert Insert(q.zip, t) == p.zip + [Tree(Array, "", done + [t])];
  }
}
