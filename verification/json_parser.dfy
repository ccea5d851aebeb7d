// The parser of 3rd/mjson/json.c on its own state: lexer text in a growing
// buffer, tree nodes linked by pointers.
module JsonParser {
  import opened JsonText
  import opened JsonLexer
  import opened JsonValue
  import opened JsonTree
  import opened JsonInsert
  import opened JsonBuilder
  import opened JsonGrammar
  import opened JsonSteps
  import opened JsonAccept
  import opened JsonRoundTrip

  // In the states that need the text, what a character does to the state does
  // not depend on the text, and it is added to it or left out.
  lemma TextStep(s: LexState, text: string, c: char)
    requires NeedsText(s)
    ensures match LexStep(s, "", c)
            case Go(t, _) => LexStep(s, text, c) == Go(t, text + [c])
            case Emit(tok, t, _, taken) => LexStep(s, text, c) == Emit(tok, t, text, taken)
  {
    hide HexValue, Literal;
    assert "" + [c] == [c];
  }

  // The characters that begin a string or a number.
  predicate Begins(c: char) { c == '"' || c == '-' || IsDigit(c) }

  lemma OtherStep(s: LexState, text: string, c: char)
    requires !NeedsText(s) && (s.Root? ==> !Begins(c))
    ensures match LexStep(s, "", c)
            case Go(t, _) => LexStep(s, text, c) == Go(t, text) && !NeedsText(t)
            case Emit(tok, t, _, taken) => LexStep(s, text, c) == Emit(tok, t, text, taken) && !NeedsText(t)
  {}

  // What a state says about the cursor.
  lemma Standing(p: Parser)
    requires Good(p)
    ensures p.zip != [] ==> Spine(p.zip)
    ensures p.zip == [] ==> p.st.Start? || p.st.OpenObject?
    ensures p.zip != [] ==>
              && (p.st.InObject? || p.st.AfterField? || p.st.NextField? ==> Cursor(p).ty.Object?)
              && (p.st.Label? || p.st.Value? ==> Cursor(p).ty.String?)
              && (p.st.InArray? || p.st.AfterElement? ==> Cursor(p).ty.Array?)
              && (p.st.OpenObject? || p.st.OpenArray? ==> Cursor(p).ty.String? || Cursor(p).ty.Array?)
  {}

  class ParsingInfo {
    var st: State
    var lex: LexState
    var lexText: Rcs?
    const tree: Builder

    // json_jpi_init
    constructor ()
      ensures st.Start? && lex.Root? && lexText == null && fresh(tree) && tree.Valid() && tree.cursor == null
              && tree.nodes == {}
    {
      st, lex, lexText := Start, Root, null;
      tree := new Builder();
    }

    ghost function Texts(): set<array<char>>
      reads this`lexText, lexText
    {
      if lexText == null then {} else {lexText.text}
    }

    ghost predicate TextOk()
      reads this`lex, this`lexText, lexText, Texts()
    {
      (lexText != null ==> lexText.Valid() && NUL !in lexText.Contents()) && (NeedsText(lex) ==> lexText != null)
    }

    ghost function Read(): string
      reads this`lexText, this`lex, lexText, Texts()
      requires TextOk()
    {
      if lexText == null then "" else lexText.Contents()
    }

    // One character in the lexer.
    method LexChar(c: char) returns (tok: Tok, done: bool, taken: bool)
      requires TextOk() && c != NUL
      modifies this`lex, this`lexText, lexText, Texts()
      ensures TextOk() && fresh(Texts() - old(Texts())) && (lexText == old(lexText) || fresh(lexText))
              && (!done ==> taken)
      ensures LexStep(old(lex), old(Read()), c) == if done then Emit(tok, lex, Read(), taken) else Go(lex, Read())
    {
      hide LexStep;
      ghost var text := Read();
      tok, done, taken := JsonLexer.More, false, true;
      if NeedsText(lex) {
        TextStep(lex, text, c);
        match LexStep(lex, "", c) {
          case Go(next, _) =>
            lexText.Catc(c);
            lex := next;
          case Emit(t, next, _, took) =>
            tok, done, taken, lex := t, true, took, next;
        }
      } else if lex.Root? && Begins(c) {
        BeginStep(text, c);
        lexText := new Rcs(DEFAULT_LENGTH);
        if c != '"' { lexText.Catc(c); }
        lex := if c == '"' then InString else if c == '-' then Minus else if c == '0' then Zero else JsonLexer.Int;
      } else {
        OtherStep(lex, text, c);
        match LexStep(lex, "", c) {
          case Go(next, _) =>
            lex := next;
          case Emit(t, next, _, took) =>
            tok, done, taken, lex := t, true, took, next;
        }
      }
    }

    // lexer
    method Lexer(buffer: string, from: nat) returns (tok: Tok, p: nat)
      requires TextOk() && from <= |buffer| && NUL !in buffer
      modifies this`lex, this`lexText, lexText, Texts()
      ensures TextOk() && fresh(Texts() - old(Texts())) && (lexText == old(lexText) || fresh(lexText))
      ensures p <= |buffer| && Lex(buffer, from, old(lex), old(Read())) == Lexed(tok, p, lex, Read())
    {
      hide LexStep, NeedsText;
      p := from;
      while p < |buffer|
        invariant from <= p <= |buffer| && TextOk() && fresh(Texts() - old(Texts()))
                  && (lexText == old(lexText) || fresh(lexText))
        invariant Lex(buffer, from, old(lex), old(Read())) == Lex(buffer, p, lex, Read())
        decreases |buffer| - p
      {
        var done, taken;
        tok, done, taken := LexChar(buffer[p]);
        if taken { p := p + 1; }
        if done { return; }
      }
      tok := JsonLexer.More;
    }

    ghost predicate Valid()
      reads this, lexText, Texts(), tree, tree.nodes, tree.cursor, Above(tree.trail)
    {
      TextOk() && tree.Valid() && Good(Now())
    }

    // The machine's view of this state.
    ghost function Now(): Parser
      reads this, lexText, Texts(), tree, tree.cursor, Above(tree.trail)
      requires TextOk()
    {
      Parser(st, lex, Read(), tree.Zip())
    }

    // The text of the token, which the new node takes over.
    method TakeText() returns (text: string)
      requires TextOk() && lex.Root?
      modifies this`lexText
      ensures TextOk() && text == old(Read()) && lexText == null
    {
      if lexText == null {
        text := "";
      } else {
        text := lexText.Unwrap();
        lexText := null;
      }
    }

    // A value without children, inside of an array or after a label.
    method TakeLeaf(tok: Tok)
      requires Valid() && tok in LEAVES && lex.Root? && (st.InArray? || st.Value?)
      modifies this`st, this`lexText, tree, tree.nodes
      ensures Valid() && JsonValue.Take(old(Now()), tok) == Next(Now()) && fresh(tree.nodes - old(tree.nodes))
      ensures (lexText == old(lexText) && Texts() == old(Texts())) || lexText == null
    {
      hide Good, Builder.Valid, Builder.Zip, Rcs.Valid, Rcs.Contents, Push, Pop, Insert, Nests;
      assert allocated(Texts()) && allocated(tree.nodes) && allocated(Above(tree.trail));
      ZipFacts(tree);
      Standing(Now());
      TakeGood(Now(), tok);
      ghost var p := Now();
      var text := "";
      if tok.StringTok? || tok.NumberTok? { text := TakeText(); }
      tree.AddLeaf(LEAVES[tok], text);
      ghost var q := p.(zip := Insert(p.zip, Leaf(tok, p.text)), text := if tok.StringTok?
        || tok.NumberTok? then "" else p.text);
      assert Now() == q;
      ZipFacts(tree);
      LeaveLeaf(p, q, tok);
    }

    // On from a value that has been added.
    method LeaveLeaf(ghost p: Parser, ghost q: Parser, ghost tok: Tok)
      requires TextOk() && tree.Valid() && tree.cursor != null && Now() == q && (st.InArray? || st.Value?)
      requires Good(p) && p.st == st && p.zip != [] && tok in LEAVES
      requires q == p.(zip := Insert(p.zip, Leaf(tok, p.text)), text := if tok.StringTok?
               || tok.NumberTok? then "" else p.text)
      requires JsonValue.Take(p, tok).Next? && Good(JsonValue.Take(p, tok).q)
      modifies this`st, tree`cursor, tree`trail
      ensures Valid() && JsonValue.Take(p, tok) == Next(Now()) && tree.nodes == old(tree.nodes)
    {
      hide Good, Builder.Valid, Builder.Zip, Rcs.Valid, Rcs.Contents, Push, Pop, Insert, Nests;
      ZipFacts(tree);
      assert allocated(Above(tree.trail));
      if st.InArray? {
        st := AfterElement;
      } else {
        if tree.cursor.parent != null { tree.GoUp(); }
        assert allocated(Above(tree.trail));
        st := AfterField;
      }
    }

    // A label.
    method TakeLabel()
      requires Valid() && lex.Root? && (st.InObject? || st.NextField?)
      modifies this`st, this`lexText, tree, tree.nodes
      ensures Valid() && fresh(tree.nodes - old(tree.nodes)) && lexText == null
      ensures var p := old(Now()); Now() == Parser(Label, p.lex, "", Push(p.zip, Tree(String, p.text, [])))
    {
      hide Good, Builder.Valid, Builder.Zip, Rcs.Valid, Rcs.Contents, Push, Pop, Insert, Nests;
      assert allocated(Texts()) && allocated(tree.nodes) && allocated(Above(tree.trail));
      ZipFacts(tree);
      Standing(Now());
      LabelGood(Now());
      var text := TakeText();
      tree.AddOpen(String, text);
      assert allocated(Above(tree.trail));
      st := Label;
    }

    // begin object and begin array
    method OpenContainer()
      requires Valid() && JsonValue.Opening(Now())
      modifies this`st, tree, tree.nodes
      ensures Valid() && Now() == Opened(old(Now())) && fresh(tree.nodes - old(tree.nodes)) && Texts() == old(Texts())
    {
      hide Good, Builder.Valid, Builder.Zip, Rcs.Valid, Rcs.Contents, Push, Pop, Insert, Nests;
      assert allocated(Texts()) && allocated(tree.nodes) && allocated(Above(tree.trail));
      ZipFacts(tree);
      Standing(Now());
      OpenedGood(Now());
      tree.AddOpen(if st.OpenObject? then Object else Array, "");
      assert allocated(Above(tree.trail));
      st := if st.OpenObject? then InObject else InArray;
    }

    // end object and end array
    method CloseContainer() returns (halted: bool, code: Code)
      requires Valid() && tree.cursor != null && (tree.cursor.ty.Object? || tree.cursor.ty.Array?)
      modifies this`st, tree`cursor, tree`trail
      ensures Valid() && !halted && JsonValue.Close(old(Now())) == Next(Now()) && tree.nodes == old(tree.nodes)
              && Texts() == old(Texts())
    {
      hide Good, Builder.Valid, Builder.Zip, Rcs.Valid, Rcs.Contents, Push, Pop, Insert, Nests;
      ZipFacts(tree);
      Standing(Now());
      CloseGood(Now());
      halted, code := false, Ok;
      if tree.cursor.parent == null {
        assert allocated(Above(tree.trail));
        st := JsonValue.Done;
        return;
      }
      tree.GoUp();
      assert allocated(Above(tree.trail));
      ZipFacts(tree);
      if tree.cursor.ty.String? {
        if tree.cursor.parent == null { return true, BadTree; }
        tree.GoUp();
      assert allocated(Above(tree.trail));
        ZipFacts(tree);
        if !tree.cursor.ty.Object? { return true, BadTree; }
        st := AfterField;
      } else if tree.cursor.ty.Array? {
        st := AfterElement;
      } else {
        return true, BadTree;
      }
    }

    // json_parse_fragment on one token.
    method ReactTo(tok: Tok) returns (halted: bool, code: Code)
      requires Valid() && !JsonValue.Opening(Now()) && (tok.StringTok? || tok.NumberTok? || tok in LEAVES ==> lex.Root?)
      modifies this`st, this`lexText, tree, tree.nodes
      ensures Valid() && fresh(tree.nodes - old(tree.nodes))
      ensures (lexText == old(lexText) && Texts() == old(Texts())) || lexText == null
      ensures match React(old(Now()), tok)
              case Next(q) => !halted && Now() == q
              case Halt(c, q) => halted && code == c && Now() == q
    {
      hide Good, Builder.Valid, Builder.Zip, Rcs.Valid, Rcs.Contents, JsonValue.Take, JsonValue.Close, Push, Nests;
      assert allocated(Above(tree.trail));
      ZipFacts(tree);
      Standing(Now());
      ReactGood(Now(), tok);
      halted, code := true, if tok.More? then Incomplete else Malformed;
      if st.Start? {
        if tok.BeginObject? { st, halted := OpenObject, false; }
        else { code := Malformed; }
      } else if st.InObject? {
        if tok.StringTok? { TakeLabel(); halted := false; }
        else if tok.EndObject? { halted, code := CloseContainer(); }
      } else if st.AfterField? {
        if tok.ValueSeparator? { st, halted := NextField, false; }
        else if tok.EndObject? { halted, code := CloseContainer(); }
      } else if st.NextField? {
        if tok.StringTok? { TakeLabel(); halted := false; }
        else if tok.Invalid? { code := IllegalCharacter; }
      } else if st.Label? {
        if tok.NameSeparator? { st, halted := Value, false; }
      } else if st.Value? || st.InArray? {
        if tok in LEAVES { TakeLeaf(tok); halted := false; }
        else if tok.BeginObject? { st, halted := OpenObject, false; }
        else if tok.BeginArray? { st, halted := OpenArray, false; }
        else if st.InArray? && tok.EndArray? { halted, code := CloseContainer(); }
        else if tok.Invalid? { code := IllegalCharacter; }
      } else if st.AfterElement? {
        if tok.ValueSeparator? { st, halted := InArray, false; }
        else if tok.EndArray? { halted, code := CloseContainer(); }
      } else {
        if tok.More? { code := WaitingForEof; }
      }
    }

    // json_parse_fragment
    method ParseFragment(buffer: string) returns (code: Code)
      requires Valid() && NUL !in buffer
      modifies this, lexText, Texts(), tree, tree.nodes
      ensures Valid() && fresh(tree.nodes - old(tree.nodes))
      ensures Outcome(code, Now()) == Run(old(Now()), buffer, 0)
    {
      hide Good, React, Builder.Valid, Builder.Zip, Rcs.Valid, Rcs.Contents, Lex, Run;
      var p := 0;
      while p < |buffer|
        invariant p <= |buffer| && Valid()
        invariant fresh(tree.nodes - old(tree.nodes)) && fresh(Texts() - old(Texts()))
                  && (lexText == old(lexText) || lexText == null || fresh(lexText))
        invariant Run(old(Now()), buffer, 0) == Run(Now(), buffer, p)
        decreases |buffer| - p, if lex.Root? then 0 else 1, if st.OpenObject? || st.OpenArray? then 1 else 0
      {
        RunStep(Now(), buffer, p);
        if st.OpenObject? || st.OpenArray? {
          OpenContainer();
        } else {
          var tok, halted;
          assert allocated(Above(tree.trail)) && allocated(tree.nodes);
          TokenGood(Now(), buffer, p);
          tok, p := Lexer(buffer, p);
          halted, code := ReactTo(tok);
          if halted { return; }
        }
      }
      RunStep(Now(), buffer, p);
      return if st.Done? then WaitingForEof else Incomplete;
    }
  }

  lemma BeginStep(text: string, c: char)
    requires Begins(c)
    ensures LexStep(Root, text, c) == if c == '"' then Go(InString, "") else if c == '-' then Go(Minus, [c])
            else if c == '0' then Go(Zero, [c]) else Go(JsonLexer.Int, [c])
  {}

  // One turn of the parser's loop.
  // The state that the lexer leaves, and whether the text is complete.
  lemma TokenGood(p: Parser, buffer: string, i: nat)
    requires i < |buffer| && Good(p) && !JsonValue.Opening(p)
    ensures var l := Lex(buffer, i, p.lex, p.text);
            && Good(p.(lex := l.state, text := l.text)) && (l.tok in LEAVES ==> l.state.Root?)
            && (React(p.(lex := l.state, text := l.text), l.tok).Next? ==> l.at > i || (!p.lex.Root? && l.state.Root?))
  {
    hide Lex, React, Good;
    var l := Lex(buffer, i, p.lex, p.text);
    GoodText(p, l.state, l.text);
    ReactGood(p.(lex := l.state, text := l.text), l.tok);
    LexRoot(buffer, i, p.lex, p.text);
  }

  // A token that is a value ends in the lexer's first state.
  lemma {:induction false} LexRoot(buffer: string, i: nat, s: LexState, text: string)
    requires i <= |buffer|
    ensures Lex(buffer, i, s, text).tok in LEAVES ==> Lex(buffer, i, s, text).state.Root?
    decreases |buffer| - i
  {
    hide LexStep;
    if i < |buffer| {
      StepRoot(s, text, buffer[i]);
      match LexStep(s, text, buffer[i]) {
        case Go(t, more) => LexRoot(buffer, i + 1, t, more);
        case Emit(_, _, _, _) =>
      }
    }
  }

  lemma StepRoot(s: LexState, text: string, c: char)
    ensures match LexStep(s, text, c)
            case Go(_, _) => true
            case Emit(tok, t, _, _) => tok in LEAVES ==> t.Root?
  {
    hide HexValue, Literal;
  }

  // json_parse_document: it succeeds exactly for the texts of the grammar, and
  // then gives the root of a new tree, whose links are in order and which stands
  // for the tree that the text spells.
  method ParseDocument(text: string) returns (code: Code, root: Node?, ghost nodes: set<Node>)
    requires NUL !in text
    ensures code == Document(text).code && (code.Ok? <==> exists t :: Spells(text, t))
    ensures code.Ok? ==> root != null && Spells(text, root.model)
    ensures code.Ok? ==> root != null && root in nodes && root.parent == null && Forest(nodes) && fresh(nodes)
                         && Document(text).q.zip == [root.model]
    ensures !code.Ok? ==> root == null
  {
    hide Forest, Run, Good, Path, Lead, Above, Rightmost, Spells;
    var info := new ParsingInfo();
    assert info.Now() == FRESH;
    assert Good(FRESH) by { FreshGood(); }
    code := info.ParseFragment(text);
    nodes := info.tree.nodes;
    root := null;
    RunDoneAtEnd(FRESH, text, 0);
    if code.WaitingForEof? {
      code := Ok;
      root := info.tree.cursor;
      assert Run(FRESH, text, 0) == Outcome(WaitingForEof, info.Now());
      DoneIsRoot(info.tree);
      AcceptedExactly(text, root.model);
    } else {
      forall t ensures !Spells(text, t) { AcceptedExactly(text, t); }
    }
  }

  lemma DoneIsRoot(b: Builder)
    requires b.Valid() && |b.Zip()| == 1
    ensures b.cursor != null && b.cursor.parent == null && b.Zip() == [b.cursor.model]
  {
    hide Forest;
    ZipFacts(b);
    LeadDepth(b.trail);
  }

  // ---------- the printer and the parser together ----------

  lemma {:induction false} StringPlain(s: string)
    requires StringText(s)
    ensures NUL !in s
    decreases |s|
  {
    if s != "" {
      if s[0] != '\\' {
        StringPlain(s[1..]);
        assert s == [s[0]] + s[1..];
      } else if s[1] == 'u' {
        StringPlain(s[6..]);
        assert s == s[..6] + s[6..];
        assert s[2..][0] == s[2] && s[2..][1] == s[3] && s[2..][2] == s[4] && s[2..][3] == s[5];
      } else {
        StringPlain(s[2..]);
        assert s == s[..2] + s[2..];
      }
    }
  }

  lemma NumberPlain(s: string)
    requires NumberText(s)
    ensures NUL !in s
  {
    var minus, whole, frac, exp :| NumberParts(minus, whole, frac, exp) && s == minus + whole + frac + exp;
    if frac != "" { assert frac == [frac[0]] + frac[1..]; }
    if exp != "" {
      assert exp == [exp[0]] + exp[1..];
      if exp[1] == '-' || exp[1] == '+' { assert exp == exp[..2] + exp[2..]; }
    }
  }

  lemma {:induction false} PairsPlain(kids: seq<Tree>)
    requires forall i :: 0 <= i < |kids| ==> IsPair(kids[i])
    ensures NUL !in Items(kids, true) && NUL !in Rest(kids, true)
    decreases SizeAll(kids), 1
  {
    hide StringText, NumberText, Text;
    if kids != [] {
      var k := kids[0];
      SizeOfPair(k);
      PairForm(k);
      StringPlain(k.text);
      ValuePlain(k.kids[0]);
      PairsPlain(kids[1..]);
    }
  }

  lemma {:induction false} ValuesPlain(kids: seq<Tree>)
    requires forall i :: 0 <= i < |kids| ==> IsValue(kids[i])
    ensures NUL !in Items(kids, false) && NUL !in Rest(kids, false)
    decreases SizeAll(kids), 1
  {
    hide StringText, NumberText, Text;
    if kids != [] {
      ValuePlain(kids[0]);
      ValuesPlain(kids[1..]);
    }
  }

  // The text of a value holds no NUL.
  lemma {:induction false} ValuePlain(t: Tree)
    requires IsValue(t)
    ensures NUL !in Text(t, false)
    decreases Size(t), 0
  {
    hide StringText, NumberText, Items;
    if t.ty.Object? { PairsPlain(t.kids); }
    else if t.ty.Array? { ValuesPlain(t.kids); }
    else if t.ty.String? { StringPlain(t.text); StringForm(t); }
    else if t.ty.Number? { NumberPlain(t.text); }
  }

  lemma ObjectKey(t: Tree, key: bool)
    requires t.ty.Object?
    ensures Text(t, key) == Text(t, false) && Bad(t, key) == Bad(t, false)
  {}

  // A well-formed document, written by json_tree_to_string and read back by
  // json_parse_document: both succeed, and the new tree equals the old one.
  method PrintAndParse(root: Node, ghost s: set<Node>) returns (text: string, copy: Node, ghost nodes: set<Node>)
    requires Forest(s) && root in s && IsDocument(root.model)
    ensures text == Text(root.model, false)
    ensures fresh(nodes) && Forest(nodes) && copy in nodes && copy.parent == null && copy.model == root.model
  {
    hide Forest, Text, Bad, IsValue, Document;
    ObjectKey(root.model, RootKey(root));
    ValueIsFine(root.model);
    ValuePlain(root.model);
    PrintedIsParsed(root.model);
    var code;
    code, text := TreeToString(root, s);
    var parsed;
    code, parsed, nodes := ParseDocument(text);
    copy := parsed;
  }
}
