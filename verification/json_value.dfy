// JSON trees as values, the text that the printer makes of them, and the
// parser's state machine.
module JsonValue {
  import opened JsonText
  import opened JsonLexer

  datatype Type = String | Number | Object | Array | True | False | Null

  // A json_t with its children; text is empty where the source has NULL.
  datatype Tree = Tree(ty: Type, text: string, kids: seq<Tree>)

  // ---------- printing ----------

  // What json_tree_to_string writes for a node; key says that a string is
  // the label of a pair.
  function Text(t: Tree, key: bool): string
    decreases t, 0
  {
    match t.ty
    case String => "\"" + t.text + "\"" + (if key then ":" else "") + Items(t.kids, false)
    case Number => t.text
    case Object => "{" + Items(t.kids, true) + "}"
    case Array => "[" + Items(t.kids, false) + "]"
    case True => "true"
    case False => "false"
    case Null => "null"
  }

  function Items(kids: seq<Tree>, key: bool): string
    decreases kids, 1
  {
    if kids == [] then "" else Text(kids[0], key) + Rest(kids[1..], key)
  }

  function Rest(kids: seq<Tree>, key: bool): string
    decreases kids, 1
  {
    if kids == [] then "" else "," + Text(kids[0], key) + Rest(kids[1..], key)
  }

  // A label without a value, for which the printer gives up.
  predicate Bad(t: Tree, key: bool)
    decreases t, 0
  {
    match t.ty
    case String => (key && t.kids == []) || BadAmong(t.kids, false)
    case Object => BadAmong(t.kids, true)
    case Array => BadAmong(t.kids, false)
    case _ => false
  }

  predicate BadAmong(kids: seq<Tree>, key: bool)
    decreases kids, 1
  {
    kids != [] && (Bad(kids[0], key) || BadAmong(kids[1..], key))
  }

  // Size, to count what is left to print or to parse.
  function Size(t: Tree): nat
    decreases t, 0
  {
    1 + SizeAll(t.kids)
  }

  function SizeAll(kids: seq<Tree>): nat
    decreases kids, 1
  {
    if kids == [] then 0 else Size(kids[0]) + SizeAll(kids[1..])
  }

  // ---------- well-formed documents ----------

  ghost predicate IsValue(t: Tree)
    decreases t
  {
    match t.ty
    case String => t.kids == [] && StringText(t.text)
    case Number => t.kids == [] && NumberText(t.text)
    case Object => t.text == "" && forall i :: 0 <= i < |t.kids| ==> IsPair(t.kids[i])
    case Array => t.text == "" && forall i :: 0 <= i < |t.kids| ==> IsValue(t.kids[i])
    case _ => t.kids == [] && t.text == ""
  }

  // A label with exactly one value.
  ghost predicate IsPair(t: Tree)
    decreases t
  {
    t.ty.String? && StringText(t.text) && |t.kids| == 1 && IsValue(t.kids[0])
  }

  ghost predicate IsDocument(t: Tree) { t.ty.Object? && IsValue(t) }

  // ---------- parsing ----------

  datatype State =
    | Start | OpenObject | InObject | AfterField | NextField | Label | Value | OpenArray | InArray | AfterElement | Done

  datatype Code = Ok | Incomplete | WaitingForEof | Malformed | BadTree | IllegalCharacter

  // The parser: its state, the lexer's state and text, and the open nodes from
  // the root to the cursor, each with the children that are complete.
  datatype Parser = Parser(st: State, lex: LexState, text: string, zip: seq<Tree>)

  datatype Reaction = Next(q: Parser) | Halt(code: Code, q: Parser)

  const LEAVES: map<Tok, Type> := map[StringTok := String, NumberTok := Number, TrueTok := True, FalseTok := False,
    NullTok := Null]

  function Leaf(tok: Tok, text: string): Tree
    requires tok in LEAVES
  {
    Tree(LEAVES[tok], if tok.StringTok? || tok.NumberTok? then text else "", [])
  }

  function Adopt(t: Tree, kid: Tree): Tree { t.(kids := t.kids + [kid]) }

  // The cursor becomes a new child of the cursor.
  function Push(zip: seq<Tree>, t: Tree): seq<Tree> { zip + [t] }

  // The cursor becomes its parent.
  function Pop(zip: seq<Tree>): seq<Tree>
    requires |zip| > 1
  {
    zip[..|zip| - 2] + [Adopt(zip[|zip| - 2], zip[|zip| - 1])]
  }

  // A new child without children of its own.
  function Insert(zip: seq<Tree>, t: Tree): seq<Tree>
    requires zip != []
  {
    zip[..|zip| - 1] + [Adopt(zip[|zip| - 1], t)]
  }

  function Cursor(p: Parser): Tree
    requires p.zip != []
  {
    p.zip[|p.zip| - 1]
  }

  // The closing of an object, or of an array: on to the parent, and over the
  // label that it may be.
  function Close(p: Parser): Reaction
    requires p.zip != []
  {
    if |p.zip| == 1 then Next(p.(st := Done))
    else
      var q := p.(zip := Pop(p.zip));
      match Cursor(q).ty
      case String =>
        if |q.zip| == 1 then Halt(BadTree, q)
        else
          var r := q.(zip := Pop(q.zip));
          if Cursor(r).ty.Object? then Next(r.(st := AfterField)) else Halt(BadTree, r)
      case Array => Next(q.(st := AfterElement))
      case _ => Halt(BadTree, q)
  }

  // A value inside of a container, or after a label.
  function Take(p: Parser, tok: Tok): Reaction
    requires p.zip != [] && tok in LEAVES
  {
    var q := p.(zip := Insert(p.zip, Leaf(tok, p.text)), text := if tok.StringTok?
      || tok.NumberTok? then "" else p.text);
    if p.st.InArray? then Next(q.(st := AfterElement))
    else if |q.zip| > 1 then Next(q.(zip := Pop(q.zip), st := AfterField))
    else Next(q.(st := AfterField))
  }

  // json_parse_fragment on one token.
  function React(p: Parser, tok: Tok): Reaction
    requires !p.st.Start? ==> p.zip != []
    requires !p.st.OpenObject? && !p.st.OpenArray?
  {
    match p.st
    case Start => if tok.BeginObject? then Next(p.(st := OpenObject)) else Halt(Malformed, p)
    case InObject =>
      if tok.StringTok? then Next(Parser(Label, p.lex, "", Push(p.zip, Tree(String, p.text, []))))
      else if tok.EndObject? then Close(p)
      else Halt(if tok.More? then Incomplete else Malformed, p)
    case AfterField =>
      if tok.ValueSeparator? then Next(p.(st := NextField))
      else if tok.EndObject? then Close(p)
      else Halt(if tok.More? then Incomplete else Malformed, p)
    case NextField =>
      if tok.StringTok? then Next(Parser(Label, p.lex, "", Push(p.zip, Tree(String, p.text, []))))
      else Halt(if tok.More? then Incomplete else if tok.Invalid? then IllegalCharacter else Malformed, p)
    case Label =>
      if tok.NameSeparator? then Next(p.(st := Value)) else Halt(if tok.More? then Incomplete else Malformed, p)
    case Value =>
      if tok in LEAVES then Take(p, tok)
      else if tok.BeginObject? then Next(p.(st := OpenObject))
      else if tok.BeginArray? then Next(p.(st := OpenArray))
      else Halt(if tok.More? then Incomplete else if tok.Invalid? then IllegalCharacter else Malformed, p)
    case InArray =>
      if tok in LEAVES then Take(p, tok)
      else if tok.BeginObject? then Next(p.(st := OpenObject))
      else if tok.BeginArray? then Next(p.(st := OpenArray))
      else if tok.EndArray? then Close(p)
      else Halt(if tok.More? then Incomplete else if tok.Invalid? then IllegalCharacter else Malformed, p)
    case AfterElement =>
      if tok.ValueSeparator? then Next(p.(st := InArray))
      else if tok.EndArray? then Close(p)
      else Halt(if tok.More? then Incomplete else Malformed, p)
    case _ => Halt(if tok.More? then WaitingForEof else Malformed, p) // Done
  }

  // Which open node may stand below which.
  predicate Nests(parent: Type, child: Type) {
    (parent.Object? && child.String?) || (parent.String? && (child.Object? || child.Array?))
      || (parent.Array? && (child.Object? || child.Array?))
  }

  // The open nodes of a document.
  predicate Spine(zip: seq<Tree>) {
    zip != [] && zip[0].ty.Object? && forall i :: 0 < i < |zip| ==> Nests(zip[i - 1].ty, zip[i].ty)
  }

  // What holds of the cursor in each state.
  predicate Good(p: Parser) {
    if p.zip == [] then p.st.Start? || p.st.OpenObject?
    else
      var ty := Cursor(p).ty;
      && Spine(p.zip) && !p.st.Start?
      && (p.st.InObject? || p.st.AfterField? || p.st.NextField? ==> ty.Object?)
      && (p.st.Label? || p.st.Value? ==> ty.String?)
      && (p.st.InArray? || p.st.AfterElement? ==> ty.Array?)
      && (p.st.OpenObject? || p.st.OpenArray? ==> ty.String? || ty.Array?)
      && (p.st.Done? ==> |p.zip| == 1)
  }

  lemma PushSpine(zip: seq<Tree>, t: Tree)
    requires Spine(zip) && Nests(zip[|zip| - 1].ty, t.ty)
    ensures Spine(Push(zip, t))
  {}

  lemma PopSpine(zip: seq<Tree>)
    requires Spine(zip) && |zip| > 1
    ensures Spine(Pop(zip)) && |Pop(zip)| == |zip| - 1 && Pop(zip)[|zip| - 2].ty == zip[|zip| - 2].ty
    ensures Nests(zip[|zip| - 2].ty, zip[|zip| - 1].ty)
    ensures |zip| == 2 ==> zip[0].ty.Object?
  {}

  lemma InsertSpine(zip: seq<Tree>, t: Tree)
    requires Spine(zip)
    ensures Spine(Insert(zip, t)) && |Insert(zip, t)| == |zip| && Insert(zip, t)[|zip| - 1].ty == zip[|zip| - 1].ty
  {}

  lemma CloseGood(p: Parser)
    requires p.zip != [] && Spine(p.zip) && (Cursor(p).ty.Object? || Cursor(p).ty.Array?)
    ensures Close(p).Next? && Good(Close(p).q) && Close(p).q.lex == p.lex && Close(p).q.text == p.text
  {
    hide Spine, Pop;
    if |p.zip| > 1 {
      PopSpine(p.zip);
      var q := p.(zip := Pop(p.zip));
      assert Cursor(q).ty.String? || Cursor(q).ty.Array?;
      SpineRoot(q.zip);
      if Cursor(q).ty.String? {
        assert |q.zip| > 1;
        PopSpine(q.zip);
        var r := q.(zip := Pop(q.zip));
        assert Cursor(r).ty.Object?;
        assert Close(p) == Next(r.(st := AfterField));
      } else {
        assert Close(p) == Next(q.(st := AfterElement));
      }
    }
  }

  lemma SpineRoot(zip: seq<Tree>)
    requires Spine(zip)
    ensures zip[0].ty.Object?
  {}

  lemma TakeGood(p: Parser, tok: Tok)
    requires Spine(p.zip) && tok in LEAVES && ((p.st.InArray? && Cursor(p).ty.Array?)
             || (p.st.Value? && Cursor(p).ty.String?))
    ensures Take(p, tok).Next? && Good(Take(p, tok).q) && Take(p, tok).q.lex == p.lex
  {
    hide Spine, Pop, Insert;
    InsertSpine(p.zip, Leaf(tok, p.text));
    var zip := Insert(p.zip, Leaf(tok, p.text));
    if |zip| > 1 { PopSpine(zip); } else { SpineRoot(zip); }
  }

  // Every token keeps what the states rely on; the parser never finds its own
  // tree out of shape.
  lemma ReactGood(p: Parser, tok: Tok)
    requires Good(p) && !p.st.OpenObject? && !p.st.OpenArray?
    ensures React(p, tok).Next? ==> Good(React(p, tok).q) && React(p, tok).q.lex == p.lex && !tok.More? && !tok.Invalid?
    ensures React(p, tok).Halt? ==> React(p, tok).q == p && React(p, tok).code != BadTree
  {
    hide Spine, Close, Take, Push;
    if p.zip != [] {
      if Cursor(p).ty.Object? || Cursor(p).ty.Array? { CloseGood(p); }
      if tok in LEAVES && (p.st.InArray? || p.st.Value?) { TakeGood(p, tok); }
      if p.st.InObject? || p.st.NextField? { LabelGood(p); }
    }
  }

  lemma LabelGood(p: Parser)
    requires Spine(p.zip) && Cursor(p).ty.Object?
    ensures Good(Parser(Label, p.lex, "", Push(p.zip, Tree(String, p.text, []))))
  {
    PushSpine(p.zip, Tree(String, p.text, []));
  }

  predicate Opening(p: Parser) { p.st.OpenObject? || p.st.OpenArray? }

  function Opened(p: Parser): Parser
    requires Opening(p)
  {
    p.(st := if p.st.OpenObject? then InObject else InArray, zip :=
      Push(p.zip, Tree(if p.st.OpenObject? then Object else Array, "", [])))
  }

  lemma OpenedGood(p: Parser)
    requires Good(p) && Opening(p)
    ensures Good(Opened(p))
  {
    if p.zip != [] { PushSpine(p.zip, Tree(if p.st.OpenObject? then Object else Array, "", [])); }
  }

  datatype Outcome = Outcome(code: Code, q: Parser)

  // json_parse_fragment on buffer from position i on.
  function Run(p: Parser, buffer: string, i: nat): Outcome
    requires i <= |buffer| && Good(p)
    decreases |buffer| - i, if p.lex.Root? then 0 else 1, if Opening(p) then 1 else 0
  {
    if i == |buffer| then Outcome(if p.st.Done? then WaitingForEof else Incomplete, p)
    else if Opening(p) then
      OpenedGood(p);
      Run(Opened(p), buffer, i)
    else
      var l := Lex(buffer, i, p.lex, p.text);
      var q := p.(lex := l.state, text := l.text);
      ReactGood(q, l.tok);
      match React(q, l.tok)
      case Next(r) => Run(r, buffer, l.at)
      case Halt(code, r) => Outcome(code, r)
  }

  const FRESH: Parser := Parser(Start, Root, "", [])

  // json_parse_document
  function Document(text: string): Outcome {
    var o := Run(FRESH, text, 0); if o.code.WaitingForEof? then Outcome(Ok, o.q) else o
  }

  // ---------- the parser undoes the printer ----------

  // A run that goes on as another one, further on in the buffer.
  predicate Leads(p: Parser, buffer: string, i: nat, q: Parser, j: nat)
  {
    i <= |buffer| && j <= |buffer| && Good(p) && Good(q) && Run(p, buffer, i) == Run(q, buffer, j)
  }

  lemma LeadsOn(p: Parser, q: Parser, r: Parser, buffer: string, i: nat, j: nat, k: nat)
    requires Leads(p, buffer, i, q, j) && Leads(q, buffer, j, r, k)
    ensures Leads(p, buffer, i, r, k)
  {}

  // One token.
  lemma TokenLeads(p: Parser, buffer: string, i: nat, tok: Tok, j: nat, text: string, q: Parser)
    requires i < |buffer| && Good(p) && !Opening(p) && p.lex.Root?
    requires Lex(buffer, i, Root, p.text) == Lexed(tok, j, Root, text)
    requires React(p.(text := text), tok) == Next(q)
    ensures j <= |buffer| && Leads(p, buffer, i, q, j)
  {
    hide React, Lex, Good;
    var l := Lex(buffer, i, p.lex, p.text);
    var r := p.(lex := l.state, text := l.text);
    assert r == p.(text := text);
    GoodText(p, l.state, l.text);
    ReactGood(r, tok);
  }

  lemma GoodText(p: Parser, lex: LexState, text: string)
    requires Good(p)
    ensures Good(p.(lex := lex, text := text)) && Good(p.(text := text))
  {}

  // A container that has just been opened.
  lemma OpeningLeads(p: Parser, buffer: string, i: nat)
    requires i < |buffer| && Good(p) && Opening(p)
    ensures Leads(p, buffer, i, Opened(p), i)
  {
    hide Good;
    OpenedGood(p);
  }

  // Where a value may come, and what the parser is once it has it.
  predicate Expecting(p: Parser) { Good(p) && p.lex.Root? && (p.st.Value? || p.st.InArray?) }

  function Having(p: Parser, t: Tree, text: string): Parser
    requires Expecting(p)
  {
    if p.st.InArray? then p.(st := AfterElement, zip := Insert(p.zip, t), text := text)
    else p.(st := AfterField, zip := Pop(Insert(p.zip, t)), text := text)
  }

  lemma HavingGood(p: Parser, t: Tree, text: string)
    requires Expecting(p)
    ensures |p.zip| > 1 || p.st.InArray?
    ensures Good(Having(p, t, text))
  {
  }
}
