// The parser of 3rd/mjson/json.c accepts exactly the texts of its grammar, with
// the trees that they spell.
module JsonAccept {
  import opened JsonText
  import opened JsonLexer
  import opened JsonValue
  import opened JsonGrammar
  import opened JsonTokens
  import opened JsonSteps

  // ---------- every text of the grammar is accepted ----------

  lemma RunStep(p: Parser, buffer: string, i: nat)
    requires i <= |buffer| && Good(p)
    ensures Run(p, buffer, i)
            == if i == |buffer| then Outcome(if p.st.Done? then WaitingForEof else Incomplete, p)
               else if Opening(p) then (OpenedGood(p); Run(Opened(p), buffer, i))
               else
                 (var l := Lex(buffer, i, p.lex, p.text);
                  var q := p.(lex := l.state, text := l.text);
                  GoodText(p, l.state, l.text);
                  ReactGood(q, l.tok);
                  match React(q, l.tok)
                  case Next(r) => Run(r, buffer, l.at)
                  case Halt(code, r) => Outcome(code, r))
  {}

  lemma RunToken(p: Parser, buffer: string, i: nat)
    requires i < |buffer| && Good(p) && !Opening(p)
    ensures var l := Lex(buffer, i, p.lex, p.text);
            var q := p.(lex := l.state, text := l.text);
            && Good(q)
            && Run(p, buffer, i) == (match React(q, l.tok) case Next(r) => (ReactGood(q, l.tok); Run(r, buffer, l.at))
                                                         case Halt(code, r) => Outcome(code, r))
  {
    hide Lex, React, Good;
    var l := Lex(buffer, i, p.lex, p.text);
    GoodText(p, l.state, l.text);
  }

  lemma SpacesLead(p: Parser, buffer: string, i: nat, ws: string)
    requires Good(p) && !Opening(p) && p.lex.Root? && At(buffer, i, ws) && Spaces(ws) && i + |ws| < |buffer|
    ensures Leads(p, buffer, i, p, i + |ws|)
  {
    hide Lex, React, Good, Run;
    LexSpaces(buffer, i, ws, p.text);
    RunToken(p, buffer, i);
    RunToken(p, buffer, i + |ws|);
  }

  // White space, then a sign.
  lemma SpacedSign(p: Parser, buffer: string, i: nat, ws: string, c: char, q: Parser)
    requires Good(p) && !Opening(p) && p.lex.Root? && At(buffer, i, ws + [c]) && Spaces(ws)
    requires SignTok(c) != Invalid && React(p, SignTok(c)) == Next(q)
    ensures Leads(p, buffer, i, q, i + |ws| + 1)
  {
    hide Lex, React, Good, Run;
    AtSplit(buffer, i, ws, [c]);
    assert [c] == [c] + "";
    AtChar(buffer, i + |ws|, c, "");
    SpacesLead(p, buffer, i, ws);
    SignLeads(p, buffer, i + |ws|, q);
    LeadsOn(p, p, q, buffer, i, i + |ws|, i + |ws| + 1);
  }

  // Where a value may end.
  predicate EndsAt(buffer: string, j: nat) {
    j < |buffer| && Delimits(buffer[j]) && (IsSpace(buffer[j]) ==> j + 1 < |buffer|)
  }

  predicate IsLeaf(ty: Type) { !ty.Object? && !ty.Array? }

  lemma LeafAt(p: Parser, buffer: string, i: nat, x: Layout) returns (after: string)
    requires Expecting(p) && Proper(x) && IsLeaf(x.ty) && At(buffer, i, Write(x)) && EndsAt(buffer, i + |Write(x)|)
    ensures Leads(p, buffer, i, Having(p, Meaning(x), after), i + |Write(x)|)
  {
    hide Lex, Having, Good, NumberText, StringText, NumberForm, StringBody, React, Run;
    assert Meaning(x) == Tree(x.ty, x.text, []);
    match x.ty {
      case String =>
        BodyIsText(x.text);
        LexString(buffer, i, p.text, x.text);
        after := TokenIsHaving(p, buffer, i, StringTok, i + |x.text| + 2, x.text, Meaning(x));
      case Number =>
        FormIsText(x.text);
        var j := i + |x.text|;
        LexNumber(buffer, i, p.text, x.text);
        after := TokenIsHaving(p, buffer, i, NumberTok, j + (if IsSpace(buffer[j]) then 1 else 0), x.text, Meaning(x));
        HavingRoot(p, Meaning(x), after);
        if IsSpace(buffer[j]) { SpaceBack(p, buffer, i, Having(p, Meaning(x), after), j); }
      case True =>
        LexTrue(buffer, i, p.text);
        after := TokenIsHaving(p, buffer, i, TrueTok, i + 4, p.text, Meaning(x));
      case False =>
        LexFalse(buffer, i, p.text);
        after := TokenIsHaving(p, buffer, i, FalseTok, i + 5, p.text, Meaning(x));
      case Null =>
        LexNull(buffer, i, p.text);
        after := TokenIsHaving(p, buffer, i, NullTok, i + 4, p.text, Meaning(x));
    }
  }

  // White space that was taken with a token may as well be left.
  lemma SpaceBack(p: Parser, buffer: string, i: nat, q: Parser, j: nat)
    requires Leads(p, buffer, i, q, j + 1) && !Opening(q) && q.lex.Root? && j + 1 < |buffer| && IsSpace(buffer[j])
    ensures Leads(p, buffer, i, q, j)
  {
    hide Run, Good;
    assert buffer[j..j + 1] == [buffer[j]];
    SpacesLead(q, buffer, j, [buffer[j]]);
  }

  lemma HavingRoot(p: Parser, t: Tree, text: string)
    requires Expecting(p)
    ensures Good(Having(p, t, text)) && Having(p, t, text).lex.Root? && !Opening(Having(p, t, text))
  {
    HavingGood(p, t, text);
  }

  // What separates a child from the one before.
  function Separator(k: Kid, n: nat): string { if n == 1 then "" else k.comma + "," }

  function Piece(x: Layout, n: nat): string
    requires 0 < n <= |x.kids|
  {
    var k := x.kids[n - 1]; Separator(k, n) + (Tag(k, x.ty) + (k.gap + Write(k.value)))
  }

  lemma KidsPiece(x: Layout, n: nat)
    requires 0 < n <= |x.kids|
    ensures WriteKids(x, n) == WriteKids(x, n - 1) + Piece(x, n)
  {
    hide Write, Tag;
  }

  // The parser before child n: after the comma if it is not the first one.
  function Before(p: Parser, x: Layout, n: nat, text: string): Parser
    requires 0 < n <= |x.kids|
  {
    Inside(p, x.ty, Meanings(x, n - 1), text).(st := if x.ty.Array? then InArray else if n == 1 then InObject
      else NextField)
  }

  lemma SeparatorLeads(p: Parser, buffer: string, i: nat, x: Layout, n: nat, text: string)
    requires Under(p, x.ty) && 0 < n <= |x.kids| && ProperKid(x.kids[n - 1])
    requires At(buffer, i, Separator(x.kids[n - 1], n)) && i < |buffer|
    ensures Leads(Inside(p, x.ty, Meanings(x, n - 1), text), buffer, i, Before(p, x, n, text),
                  i + |Separator(x.kids[n - 1], n)|)
  {
    hide Run, Lex, Spine, Meanings;
    var done := Meanings(x, n - 1);
    InsideGood(p, x.ty, done, text);
    var a, k := Inside(p, x.ty, done, text), x.kids[n - 1];
    if n > 1 {
      AtSplit(buffer, i, k.comma, ",");
      assert "," == [','] + "";
      AtChar(buffer, i + |k.comma|, ',', "");
      SpacesLead(a, buffer, i, k.comma);
      CommaLeads(p, buffer, i + |k.comma|, x.ty, done, text);
      LeadsOn(a, a, Before(p, x, n, text), buffer, i, i + |k.comma|, i + |k.comma| + 1);
    }
  }

  // A label and its colon.
  lemma LabelAt(q: Parser, buffer: string, i: nat, k: Kid)
    requires Good(q) && q.lex.Root? && (q.st.InObject? || q.st.NextField?) && ProperKid(k)
    requires At(buffer, i, Tag(k, Object))
    ensures Expecting(Labelled(q, k.key)) && Leads(q, buffer, i, Labelled(q, k.key), i + |Tag(k, Object)|)
  {
    hide Run, Lex, Good, StringText, StringBody, React;
    var quoted, colon := "\"" + k.key + "\"", k.colon + ":";
    LabelledGood(q, k.key);
    var r := Labelled(q, k.key);
    var l := r.(st := Label);
    AtSplit(buffer, i, k.open + quoted, colon);
    AtSplit(buffer, i, k.open, quoted);
    var a := i + |k.open|;
    var b := a + |quoted|;
    SpacesLead(q, buffer, i, k.open);
    BodyIsText(k.key);
    LexString(buffer, a, q.text, k.key);
    TokenLeads(q, buffer, a, StringTok, b, k.key, l);
    assert colon == k.colon + [':'];
    assert React(l, NameSeparator) == Next(r) by { LabelReacts(l, r); }
    assert !Opening(l);
    SpacedSign(l, buffer, b, k.colon, ':', r);
    LeadsOn(q, q, l, buffer, i, a, b);
    LeadsOn(q, l, r, buffer, i, b, b + |colon|);
  }

  lemma LabelReacts(l: Parser, r: Parser)
    requires l.st == Label && r == l.(st := Value) && l.zip != []
    ensures React(l, NameSeparator) == Next(r)
  {
  }

  lemma {:induction false} PieceAt(p: Parser, buffer: string, i: nat, x: Layout, n: nat, text: string)
      returns (after: string)
    requires Under(p, x.ty) && Proper(x) && 0 < n <= |x.kids| && At(buffer, i, Piece(x, n))
    requires EndsAt(buffer, i + |Piece(x, n)|)
    ensures Leads(Inside(p, x.ty, Meanings(x, n - 1), text), buffer, i, Inside(p, x.ty, Meanings(x, n), after),
                  i + |Piece(x, n)|)
    decreases x, 0, n
  {
    hide Run, Lex, Good, Spine, Write, Meaning, Having, Expecting, StringBody, Tag, Inside;
    var k, done := x.kids[n - 1], Meanings(x, n - 1);
    var v := Meaning(k.value);
    var sep, tag, value := Separator(k, n), Tag(k, x.ty), k.gap + Write(k.value);
    var a, q := Inside(p, x.ty, done, text), Before(p, x, n, text);
    AtSplit(buffer, i, sep, tag + value);
    AtSplit(buffer, i + |sep|, tag, value);
    AtSplit(buffer, i + |sep| + |tag|, k.gap, Write(k.value));
    SeparatorLeads(p, buffer, i, x, n, text);
    var b := i + |sep| + |tag|;
    var r := if x.ty.Object? then Labelled(q, k.key) else q;
    BeforeGood(p, x, n, text);
    if x.ty.Object? {
      LabelAt(q, buffer, i + |sep|, k);
    } else {
      NoLabel(k, x.ty);
      ElementHad(p, done, text, v, "");
    }
    LeadsOn(a, q, r, buffer, i, i + |sep|, b);
    SpacesLead(r, buffer, b, k.gap);
    after := ValueAt(r, buffer, b + |k.gap|, k.value);
    LeadsOn(a, r, r, buffer, i, b, b + |k.gap|);
    LeadsOn(a, r, Having(r, v, after), buffer, i, b + |k.gap|, i + |Piece(x, n)|);
    if x.ty.Object? {
      PairHad(q, p.zip, done, Tree(String, k.key, [v]), after);
    } else {
      ElementHad(p, done, text, v, after);
    }
    PieceDone(p, x, n, text, after);
  }

  lemma PieceDone(p: Parser, x: Layout, n: nat, text: string, after: string)
    requires Under(p, x.ty) && 0 < n <= |x.kids|
    ensures var k, done := x.kids[n - 1], Meanings(x, n - 1);
            var kid := if x.ty.Object? then Tree(String, k.key, [Meaning(k.value)]) else Meaning(k.value);
            && Meanings(x, n) == done + [kid]
            && (x.ty.Object? ==>
                  Before(p, x, n, text).(st := AfterField, zip := Push(p.zip, Tree(Object, "", done + [kid])),
                    text := after)
                  == Inside(p, x.ty, Meanings(x, n), after))
  {
    hide Meaning;
  }

  lemma BeforeGood(p: Parser, x: Layout, n: nat, text: string)
    requires Under(p, x.ty) && 0 < n <= |x.kids|
    ensures var q := Before(p, x, n, text); Good(q) && !Opening(q) && q.lex.Root?
    ensures x.ty.Object? ==> Before(p, x, n, text).st.InObject? || Before(p, x, n, text).st.NextField?
    ensures Before(p, x, n, text).zip == Push(p.zip, Tree(x.ty, "", Meanings(x, n - 1)))
  {
    InsideGood(p, x.ty, Meanings(x, n - 1), text);
    hide Meanings;
  }

  lemma NoLabel(k: Kid, ty: Type)
    requires !ty.Object?
    ensures Tag(k, ty) == ""
  {
  }

  // The first n children.
  lemma {:induction false} KidsAt(p: Parser, buffer: string, i: nat, x: Layout, n: nat, text: string)
      returns (after: string)
    requires Under(p, x.ty) && Proper(x) && n <= |x.kids| && At(buffer, i, WriteKids(x, n)) && i < |buffer|
    requires n > 0 ==> EndsAt(buffer, i + |WriteKids(x, n)|)
    ensures Leads(Inside(p, x.ty, [], text), buffer, i, Inside(p, x.ty, Meanings(x, n), after), i + |WriteKids(x, n)|)
    decreases x, 1, n
  {
    hide Run, Good, Proper, Inside, Under, EndsAt, Piece;
    if n == 0 {
      InsideGood(p, x.ty, [], text);
      after := text;
    } else {
      KidsPiece(x, n);
      var j := i + |WriteKids(x, n - 1)|;
      AtSplit(buffer, i, WriteKids(x, n - 1), Piece(x, n));
      UnderType(p, x.ty);
      if n > 1 { PieceStarts(buffer, j, x, n); }
      var mid := KidsAt(p, buffer, i, x, n - 1, text);
      after := PieceAt(p, buffer, j, x, n, mid);
      LeadsOn(Inside(p, x.ty, [], text), Inside(p, x.ty, Meanings(x, n - 1), mid),
        Inside(p, x.ty, Meanings(x, n), after),
        buffer, i, j, i + |WriteKids(x, n)|);
    }
  }

  lemma PieceStarts(buffer: string, j: nat, x: Layout, n: nat)
    requires Proper(x) && (x.ty.Object? || x.ty.Array?) && 1 < n <= |x.kids| && At(buffer, j, Piece(x, n))
    ensures EndsAt(buffer, j)
  {
    hide Write, Tag;
    var k := x.kids[n - 1];
    assert ProperKid(k);
    var w := Piece(x, n);
    assert |w| >= |k.comma| + 1 && w[|k.comma|] == ',';
    AtChars(buffer, j, w);
    if k.comma != "" { assert Space(k.comma[0]) && w[0] == k.comma[0]; }
  }

  // The end of a container: the comma that nothing follows, and the bracket.
  function Ending(x: Layout): string
    requires x.ty.Object? || x.ty.Array?
  {
    Trailing(x) + (x.close + [if x.ty.Object? then '}' else ']'])
  }

  lemma ContainerText(x: Layout)
    requires Proper(x) && (x.ty.Object? || x.ty.Array?)
    ensures Write(x) == [if x.ty.Object? then '{' else '['] + (WriteKids(x, |x.kids|) + Ending(x))
    ensures Meaning(x) == Tree(x.ty, "", Meanings(x, |x.kids|))
  {
    if x.ty.Object? {
      assert Trailing(x) == "";
      assert "{" + WriteKids(x, |x.kids|) + x.close + "}" == "{" + (WriteKids(x, |x.kids|) + ("" + (x.close + "}")));
    } else {
      assert "[" + WriteKids(x, |x.kids|) + Trailing(x) + x.close + "]"
          == "[" + (WriteKids(x, |x.kids|) + (Trailing(x) + (x.close + "]")));
    }
  }

  lemma EndingStarts(buffer: string, j: nat, x: Layout)
    requires Proper(x) && (x.ty.Object? || x.ty.Array?) && At(buffer, j, Ending(x))
    ensures EndsAt(buffer, j)
  {
    var w, t := Ending(x), Trailing(x);
    AtChars(buffer, j, w);
    assert w == t + x.close + [w[|w| - 1]];
    if t != "" {
      assert w[|t| - 1] == ',';
      if |t| > 1 { assert w[0] == x.trailing.space[0] && Space(x.trailing.space[0]); }
    } else if x.close != "" {
      assert w[0] == x.close[0] && Space(x.close[0]);
    }
  }

  // What the parser is when a container is closed.
  function Closed(p: Parser, ty: Type, kids: seq<Tree>, text: string): Parser
    requires Under(p, ty)
  {
    if p.zip == [] then Inside(p, ty, kids, text).(st := JsonValue.Done)
    else Having(p, Tree(ty, "", kids), text)
  }

  lemma CloseReacts(p: Parser, ty: Type, kids: seq<Tree>, text: string)
    requires Under(p, ty)
    ensures var a := Inside(p, ty, kids, text);
            && Good(a) && !Opening(a) && a.lex.Root? && Good(Closed(p, ty, kids, text))
            && React(a, if ty.Object? then EndObject else EndArray) == Next(Closed(p, ty, kids, text))
  {
    InsideGood(p, ty, kids, text);
    if p.zip != [] {
      CloseIsHaving(p, Tree(ty, "", kids), text);
      HavingGood(p, Tree(ty, "", kids), text);
    }
    hide Close, Good, Having;
  }

  // The bracket after a comma does the same.
  lemma LateReacts(p: Parser, kids: seq<Tree>, text: string)
    requires Under(p, Array)
    ensures var a := Inside(p, Array, kids, text); var q := a.(st := InArray);
            Good(q) && !Opening(q) && q.lex.Root? && React(q, EndArray) == React(a, EndArray)
  {
    InsideGood(p, Array, kids, text);
  }

  lemma EndingParts(x: Layout)
    requires Proper(x) && (x.ty.Object? || x.ty.Array?)
    ensures Spaces(x.close) && Ending(x) == Trailing(x) + (x.close + [if x.ty.Object? then '}' else ']'])
    ensures if x.trailing.Comma? then Spaces(x.trailing.space) && x.kids != [] && x.ty.Array?
              && Trailing(x) == x.trailing.space + [','] else Trailing(x) == ""
    ensures |Meanings(x, |x.kids|)| == |x.kids|
  {
  }

  lemma EndingLeads(p: Parser, buffer: string, i: nat, x: Layout, text: string)
    requires Under(p, x.ty) && Proper(x) && At(buffer, i, Ending(x))
    ensures var kids := Meanings(x, |x.kids|);
            Leads(Inside(p, x.ty, kids, text), buffer, i, Closed(p, x.ty, kids, text), i + |Ending(x)|)
  {
    hide *;
    UnderType(p, x.ty);
    EndingParts(x);
    var kids := Meanings(x, |x.kids|);
    var a, c := Inside(p, x.ty, kids, text), if x.ty.Object? then '}' else ']';
    var q, z, t := if x.trailing.Comma? then a.(st := InArray) else a, Closed(p, x.ty, kids, text), Trailing(x);
    Signs();
    CloseReacts(p, x.ty, kids, text);
    AtSplit(buffer, i, t, x.close + [c]);
    if x.trailing.Comma? {
      CommaReacts(p, kids, text);
      LateReacts(p, kids, text);
      SpacedSign(a, buffer, i, x.trailing.space, ',', q);
    }
    SpacedSign(q, buffer, i + |t|, x.close, c, z);
    if x.trailing.Comma? { LeadsOn(a, q, z, buffer, i, i + |t|, i + |Ending(x)|); }
  }

  lemma Signs()
    ensures SignTok(',') == ValueSeparator && SignTok('}') == EndObject && SignTok(']') == EndArray
  {
  }

  lemma CommaReacts(p: Parser, kids: seq<Tree>, text: string)
    requires Under(p, Array) && kids != []
    ensures var a := Inside(p, Array, kids, text); React(a, ValueSeparator) == Next(a.(st := InArray))
  {
  }

  lemma {:induction false} ValueAt(p: Parser, buffer: string, i: nat, x: Layout) returns (after: string)
    requires Expecting(p) && Proper(x) && At(buffer, i, Write(x)) && EndsAt(buffer, i + |Write(x)|)
    ensures Leads(p, buffer, i, Having(p, Meaning(x), after), i + |Write(x)|)
    decreases x, 2, 0
  {
    hide *;
    if x.ty.Object? || x.ty.Array? {
      ContainerText(x);
      ExpectingUnder(p, x.ty);
      var kids := WriteKids(x, |x.kids|);
      AtChar(buffer, i, if x.ty.Object? then '{' else '[', kids + Ending(x));
      AtSplit(buffer, i + 1, kids, Ending(x));
      var j := i + 1 + |kids|;
      EndingStarts(buffer, j, x);
      InRange(buffer, j);
      OpenLeads(p, buffer, i, x.ty);
      var text := KidsAt(p, buffer, i + 1, x, |x.kids|, p.text);
      EndingLeads(p, buffer, j, x, text);
      ClosedIs(p, x, text);
      after := text;
      LeadsOn(p, Inside(p, x.ty, [], p.text), Inside(p, x.ty, Meanings(x, |x.kids|), text), buffer, i, i + 1, j);
      LeadsOn(p, Inside(p, x.ty, Meanings(x, |x.kids|), text), Having(p, Meaning(x), text), buffer, i, j,
        j + |Ending(x)|);
    } else {
      LeafIs(x.ty);
      after := LeafAt(p, buffer, i, x);
    }
  }

  lemma InRange(buffer: string, j: nat)
    requires EndsAt(buffer, j)
    ensures j < |buffer|
  {
  }

  lemma LeafIs(ty: Type)
    requires !ty.Object? && !ty.Array?
    ensures IsLeaf(ty)
  {
  }

  lemma ClosedIs(p: Parser, x: Layout, text: string)
    requires Expecting(p) && Under(p, x.ty) && Meaning(x) == Tree(x.ty, "", Meanings(x, |x.kids|))
    ensures Closed(p, x.ty, Meanings(x, |x.kids|), text) == Having(p, Meaning(x), text)
  {
    hide Meaning, Meanings;
    SpineRoot(p.zip);
  }

  // ---------- whatever is accepted is a text of the grammar ----------

  ghost predicate Succeeds(p: Parser, buffer: string, i: nat) {
    i <= |buffer| && Good(p) && p.lex.Root? && Run(p, buffer, i).code.WaitingForEof?
  }

  // In a run that succeeds each token is taken; it stands from k to e.
  lemma Advances(p: Parser, buffer: string, i: nat) returns (l: Lexed, q: Parser, k: nat, e: nat)
    requires Succeeds(p, buffer, i) && !Opening(p) && !p.st.Done?
    ensures i <= k < e <= l.at <= |buffer| && Spaces(buffer[i..k]) && Spaces(buffer[e..l.at])
    ensures Spelled(l.tok, l.text, buffer[k..e]) && (!l.tok.NumberTok? ==> e == l.at)
    ensures l == Lex(buffer, i, Root, p.text) && l.state.Root?
    ensures React(p.(text := l.text), l.tok) == Next(q) && Leads(p, buffer, i, q, l.at) && Succeeds(q, buffer, l.at)
  {
    hide Lex, React, Spelled, Run;
    NotAtEnd(p, buffer, i);
    l := Lex(buffer, i, Root, p.text);
    RootReached(p.text);
    assert buffer[i..i] == "";
    k, e := LexSound(buffer, i, i, i, Root, p.text);
    var a := p.(lex := l.state, text := l.text);
    RunToken(p, buffer, i);
    if React(a, l.tok).Halt? { HaltCode(a, l.tok); }
    q := React(a, l.tok).q;
    ReactGood(a, l.tok);
    assert a == p.(text := l.text);
  }

  lemma NotAtEnd(p: Parser, buffer: string, i: nat)
    requires Succeeds(p, buffer, i) && !p.st.Done?
    ensures i < |buffer|
  {
  }

  // A container that has been opened; q is the state after its bracket.
  lemma OpenedSound(p: Parser, buffer: string, i: nat, q: Parser, j: nat, ty: Type, text: string)
    requires Expecting(p) && (ty.Object? || ty.Array?) && Succeeds(q, buffer, j)
    requires q == p.(st := if ty.Object? then OpenObject else OpenArray, text := text) && Leads(p, buffer, i, q, j)
    ensures Under(p, ty) && Leads(p, buffer, i, Inside(p, ty, [], text), j)
    ensures Succeeds(Inside(p, ty, [], text), buffer, j)
  {
    hide Run, Good, Spine;
    ExpectingUnder(p, ty);
    NotAtEnd(q, buffer, j);
    OpeningLeads(q, buffer, j);
    assert Opened(q) == Inside(p, ty, [], text);
    LeadsOn(p, q, Opened(q), buffer, i, j, j);
  }

  // Which tokens may come where a value is expected.
  lemma ValueReacts(p: Parser, tok: Tok, text: string)
    requires Expecting(p) && React(p.(text := text), tok).Next?
    ensures tok in LEAVES || tok.BeginObject? || tok.BeginArray? || (tok.EndArray? && p.st.InArray?)
    ensures tok.BeginObject? || tok.BeginArray? ==>
              React(p.(text := text), tok) == Next(p.(text := text,
                st := if tok.BeginObject? then OpenObject else OpenArray))
  {
    hide Close, JsonValue.Take;
  }

  function LeafLayout(ty: Type, text: string): Layout { Layout(ty, text, [], NoComma, "") }

  lemma LeafSound(tok: Tok, text: string, w: string)
    requires tok in LEAVES && Spelled(tok, text, w)
    ensures var t := Leaf(tok, text); var x := LeafLayout(t.ty, t.text); Proper(x) && Write(x) == w && Meaning(x) == t
  {
    hide StringText, NumberText, StringBody, NumberForm;
    BodyIsText(text);
    FormIsText(text);
  }

  // The value that a run takes stands in the text from k to e.
  lemma {:induction false} ValueSound(p: Parser, buffer: string, i: nat)
      returns (x: Layout, k: nat, e: nat, j: nat, after: string)
    requires Expecting(p) && Succeeds(p, buffer, i)
    requires p.st.InArray? ==> !Lex(buffer, i, Root, p.text).tok.EndArray?
    ensures i <= k < e <= j <= |buffer| && Spaces(buffer[i..k]) && buffer[k..e] == Write(x) && Spaces(buffer[e..j])
    ensures Proper(x) && Leads(p, buffer, i, Having(p, Meaning(x), after), j)
    ensures Succeeds(Having(p, Meaning(x), after), buffer, j)
    decreases |buffer| - i, 1
  {
    hide Lex, React, Spelled, Run, Having, Leaf, Write, Meaning, Proper, Good, Spine;
    var l, q, m, n := Advances(p, buffer, i);
    k := m;
    ValueReacts(p, l.tok, l.text);
    if l.tok in LEAVES {
      var t := Leaf(l.tok, l.text);
      LeafSound(l.tok, l.text, buffer[k..n]);
      x, e, j := LeafLayout(t.ty, t.text), n, l.at;
      after := TokenIsHaving(p, buffer, i, l.tok, l.at, l.text, t);
      HavingRoot(p, t, after);
    } else {
      var ty := if l.tok.BeginObject? then Object else Array;
      OpenedSound(p, buffer, i, q, l.at, ty, l.text);
      assert buffer[l.at..l.at] == "";
      EmptyLayout(ty);
      x, e, after := InsideSound(p, buffer, l.at, l.at, l.at, Empty(ty), l.text);
      j := e;
      ContainerSound(p, buffer, k, l, x, e, after);
      LeadsOn(p, Inside(p, ty, [], l.text), Having(p, Meaning(x), after), buffer, i, l.at, j);
      assert buffer[e..j] == "";
    }
  }

  function Empty(ty: Type): Layout { Layout(ty, "", [], NoComma, "") }

  lemma EmptyLayout(ty: Type)
    ensures WriteKids(Empty(ty), 0) == "" && Meanings(Empty(ty), 0) == [] && OpenLayout(Empty(ty))
  {
  }

  lemma ContainerSound(p: Parser, buffer: string, k: nat, l: Lexed, x: Layout, e: nat, after: string)
    requires Expecting(p) && Under(p, x.ty) && Proper(x) && k < l.at <= e <= |buffer|
    requires Spelled(l.tok, l.text, buffer[k..l.at]) && l.tok == if x.ty.Object? then BeginObject else BeginArray
    requires buffer[l.at..e] == WriteKids(x, |x.kids|) + Ending(x)
    ensures buffer[k..e] == Write(x) && Closed(p, x.ty, Meanings(x, |x.kids|), after) == Having(p, Meaning(x), after)
  {
    UnderType(p, x.ty);
    ContainerText(x);
    ClosedIs(p, x, after);
    assert buffer[k..e] == buffer[k..l.at] + buffer[l.at..e];
    hide Write, Having, Closed, Meaning, Meanings, WriteKids, Ending, Proper, Expecting;
    var w := buffer[k..l.at];
    assert w == [w[0]];
  }

  // A container whose end is still to come.
  ghost predicate OpenLayout(x: Layout) {
    && x.text == "" && x.trailing.NoComma? && x.close == ""
    && forall i :: 0 <= i < |x.kids| ==> ProperKid(x.kids[i])
  }

  // The parser where a further child may come.
  function Ready(p: Parser, ty: Type, done: seq<Tree>, text: string): Parser {
    Inside(p, ty, done, text).(st := if ty.Array? then InArray else if done == [] then InObject else NextField)
  }

  function CloseTok(ty: Type): Tok { if ty.Object? then EndObject else EndArray }

  lemma SplitSpaces(buffer: string, m: nat, j: nat, k: nat)
    requires m <= j <= k <= |buffer| && Spaces(buffer[m..j]) && Spaces(buffer[j..k])
    ensures Spaces(buffer[m..k])
  {
    assert buffer[m..k] == buffer[m..j] + buffer[j..k];
  }

  lemma ReadyState(p: Parser, ty: Type, done: seq<Tree>, text: string)
    requires Under(p, ty)
    ensures var q := Ready(p, ty, done, text);
            Good(q) && !Opening(q) && q.lex.Root? && !q.st.Done? && q.text == text && (ty.Array? ==> Expecting(q))
    ensures var a := Inside(p, ty, done, text); !Opening(a) && !a.st.Done?
    ensures done == [] ==> Inside(p, ty, done, text) == Ready(p, ty, done, text)
  {
    InsideGood(p, ty, done, text);
  }

  // The tokens that may come after the children done.
  lemma InsideReacts(p: Parser, ty: Type, done: seq<Tree>, text: string, tok: Tok, more: string)
    requires Under(p, ty) && React(Inside(p, ty, done, text).(text := more), tok).Next?
    ensures var r := React(Inside(p, ty, done, text).(text := more), tok);
            && (tok == CloseTok(ty) ==> r == Next(Closed(p, ty, done, more)))
            && (tok != CloseTok(ty) && done != [] ==> tok.ValueSeparator? && r == Next(Ready(p, ty, done, more)))
            && (tok != CloseTok(ty) && done == [] && ty.Object? ==> tok.StringTok?)
  {
    assert Inside(p, ty, done, text).(text := more) == Inside(p, ty, done, more);
    CloseReacts(p, ty, done, more);
    hide Close, JsonValue.Take;
  }

  lemma WrittenEnd(buffer: string, i: nat, m: nat, e: nat, y: Layout)
    requires OpenLayout(y.(trailing := NoComma, close := "")) && (y.ty.Object? || y.ty.Array?)
    requires i <= m < e <= |buffer| && buffer[i..m] == WriteKids(y, |y.kids|) && buffer[m..e] == Ending(y)
    requires Spaces(y.close) && (y.trailing.Comma? ==> y.ty.Array? && y.kids != [] && Spaces(y.trailing.space))
    ensures Proper(y) && buffer[i..e] == WriteKids(y, |y.kids|) + Ending(y)
  {
    hide WriteKids, Ending;
    assert buffer[i..e] == buffer[i..m] + buffer[m..e];
  }

  // The children that are written do not depend on the end of the container.
  lemma {:induction false} SameKids(x: Layout, y: Layout, n: nat)
    requires n <= |x.kids| && n <= |y.kids| && x.ty == y.ty && forall i :: 0 <= i < n ==> x.kids[i] == y.kids[i]
    ensures WriteKids(x, n) == WriteKids(y, n) && Meanings(x, n) == Meanings(y, n)
  {
    hide Write, Meaning, Tag;
    if n > 0 { SameKids(x, y, n - 1); }
  }

  lemma SignSpelled(tok: Tok, text: string, w: string, c: char)
    requires Spelled(tok, text, w) && SignTok(c) == tok && tok != Invalid
    ensures w == [c]
  {
    assert w == [w[0]];
  }

  // The bracket of a container without a trailing comma.
  lemma FinishSound(buffer: string, i: nat, m: nat, k: nat, e: nat, x: Layout, tok: Tok, text: string)
    requires OpenLayout(x) && (x.ty.Object? || x.ty.Array?) && i <= m <= k < e <= |buffer|
    requires buffer[i..m] == WriteKids(x, |x.kids|) && Spaces(buffer[m..k])
    requires tok == CloseTok(x.ty) && Spelled(tok, text, buffer[k..e])
    ensures var y := x.(close := buffer[m..k]);
            && Proper(y) && buffer[i..e] == WriteKids(y, |y.kids|) + Ending(y)
            && Meanings(y, |y.kids|) == Meanings(x, |x.kids|)
  {
    var y := x.(close := buffer[m..k]);
    SameKids(x, y, |x.kids|);
    SignSpelled(tok, text, buffer[k..e], if x.ty.Object? then '}' else ']');
    assert buffer[m..e] == buffer[m..k] + buffer[k..e];
    assert Trailing(y) == "";
    assert buffer[m..e] == "" + (y.close + buffer[k..e]);
    hide WriteKids, Meanings;
    WrittenEnd(buffer, i, m, e, y);
  }

  // The bracket of an array after a comma from k to n.
  lemma TrailingSound(buffer: string, i: nat, m: nat, k: nat, n: nat, l: nat, e: nat, x: Layout, text: string,
                      text2: string)
    requires OpenLayout(x) && x.ty.Array? && x.kids != [] && i <= m <= k < n <= l < e <= |buffer|
    requires buffer[i..m] == WriteKids(x, |x.kids|) && Spaces(buffer[m..k]) && Spaces(buffer[n..l])
    requires Spelled(ValueSeparator, text, buffer[k..n]) && Spelled(EndArray, text2, buffer[l..e])
    ensures var y := x.(trailing := Comma(buffer[m..k]), close := buffer[n..l]);
            && Proper(y) && buffer[i..e] == WriteKids(y, |y.kids|) + Ending(y)
            && Meanings(y, |y.kids|) == Meanings(x, |x.kids|)
  {
    var y := x.(trailing := Comma(buffer[m..k]), close := buffer[n..l]);
    SameKids(x, y, |x.kids|);
    SignSpelled(ValueSeparator, text, buffer[k..n], ',');
    SignSpelled(EndArray, text2, buffer[l..e], ']');
    assert buffer[m..e] == buffer[m..k] + buffer[k..n] + (buffer[n..l] + buffer[l..e]);
    hide WriteKids, Meanings;
    WrittenEnd(buffer, i, m, e, y);
  }

  function KidTree(k: Kid, ty: Type): Tree {
    if ty.Object? then Tree(String, k.key, [Meaning(k.value)]) else Meaning(k.value)
  }

  // One more child, from s to e, after the comma if there is one.
  lemma KidWritten(buffer: string, i: nat, m: nat, s: nat, e: nat, x: Layout, kid: Kid)
    requires OpenLayout(x) && ProperKid(kid) && i <= m <= s <= e <= |buffer|
    requires buffer[i..m] == WriteKids(x, |x.kids|) && buffer[m..s] == Separator(kid, |x.kids| + 1)
    requires buffer[s..e] == Tag(kid, x.ty) + (kid.gap + Write(kid.value))
    ensures var y := x.(kids := x.kids + [kid]);
            && OpenLayout(y) && buffer[i..e] == WriteKids(y, |y.kids|)
            && Meanings(y, |y.kids|) == Meanings(x, |x.kids|) + [KidTree(kid, x.ty)]
  {
    hide *;
    var y, n := x.(kids := x.kids + [kid]), |x.kids|;
    MoreKids(x, kid);
    KidsPiece(y, n + 1);
    PieceIs(y, n + 1);
    assert buffer[i..e] == buffer[i..m] + (buffer[m..s] + buffer[s..e]);
  }

  lemma PieceIs(x: Layout, n: nat)
    requires 0 < n <= |x.kids|
    ensures var k := x.kids[n - 1]; Piece(x, n) == Separator(k, n) + (Tag(k, x.ty) + (k.gap + Write(k.value)))
  {
  }

  lemma MoreKids(x: Layout, kid: Kid)
    requires OpenLayout(x) && ProperKid(kid)
    ensures var y, n := x.(kids := x.kids + [kid]), |x.kids|;
            && OpenLayout(y) && y.kids[n] == kid && |y.kids| == n + 1 && WriteKids(y, n) == WriteKids(x, n)
            && Meanings(y, n + 1) == Meanings(x, n) + [KidTree(kid, x.ty)]
  {
    var y, n := x.(kids := x.kids + [kid]), |x.kids|;
    SameKids(x, y, n);
    hide Write, Meaning, WriteKids, ProperKid;
  }

  // The rest of a container, m being the end of what was written and j that of
  // what was read.
  lemma {:induction false} InsideSound(p: Parser, buffer: string, i: nat, m: nat, j: nat, x: Layout, text: string)
      returns (y: Layout, e: nat, after: string)
    requires Under(p, x.ty) && OpenLayout(x) && i <= m <= j <= |buffer| && (x.kids == [] ==> m == j)
    requires buffer[i..m] == WriteKids(x, |x.kids|) && Spaces(buffer[m..j])
    requires Succeeds(Inside(p, x.ty, Meanings(x, |x.kids|), text), buffer, j)
    ensures y.ty == x.ty && Proper(y) && m < e <= |buffer| && buffer[i..e] == WriteKids(y, |y.kids|) + Ending(y)
    ensures Leads(Inside(p, x.ty, Meanings(x, |x.kids|), text), buffer, j,
                  Closed(p, x.ty, Meanings(y, |y.kids|), after), e)
    ensures Succeeds(Closed(p, x.ty, Meanings(y, |y.kids|), after), buffer, e)
    decreases |buffer| - j, 3
  {
    hide *;
    UnderType(p, x.ty);
    CloseIsSign(x.ty);
    var done := Meanings(x, |x.kids|);
    var a := Inside(p, x.ty, done, text);
    ReadyState(p, x.ty, done, text);
    var l, q, k, n := Advances(a, buffer, j);
    InsideReacts(p, x.ty, done, text, l.tok, l.text);
    SplitSpaces(buffer, m, j, k);
    if l.tok == CloseTok(x.ty) {
      y, e, after := x.(close := buffer[m..k]), n, l.text;
      FinishSound(buffer, i, m, k, n, x, l.tok, l.text);
    } else {
      var comma, s, z := "", j, text;
      if x.kids != [] {
        Signs();
        SignSpelled(ValueSeparator, l.text, buffer[k..n], ',');
        comma, s, z := buffer[m..k], n, l.text;
        assert buffer[m..s] == buffer[m..k] + buffer[k..n];
      }
      var b := Ready(p, x.ty, done, z);
      ReadyState(p, x.ty, done, z);
      if x.kids != [] && x.ty.Array? && Lex(buffer, s, Root, z).tok.EndArray? {
        var l2, q2, k2, n2 := Advances(b, buffer, s);
        LateCloses(p, done, z, l2.text);
        TrailingSound(buffer, i, m, k, n, k2, n2, x, l.text, l2.text);
        y, e, after := x.(trailing := Comma(comma), close := buffer[s..k2]), n2, l2.text;
        LeadsOn(a, b, q2, buffer, j, s, e);
      } else {
        var kid0, e2, j2, after2 := KidSound(p, buffer, s, x.ty, done, z);
        var kid := kid0.(comma := comma);
        CommaKid(kid0, comma, x.ty);
        SeparatorIs(kid, |x.kids| + 1);
        assert x.kids == [] ==> buffer[m..s] == "";
        KidWritten(buffer, i, m, s, e2, x, kid);
        var x2 := x.(kids := x.kids + [kid]);
        y, e, after := InsideSound(p, buffer, i, e2, j2, x2, after2);
        LeadsOn(a, b, Inside(p, x.ty, Meanings(x2, |x2.kids|), after2), buffer, j, s, j2);
        LeadsOn(a, Inside(p, x.ty, Meanings(x2, |x2.kids|), after2), Closed(p, x.ty, Meanings(y, |y.kids|), after),
          buffer, j, j2, e);
      }
    }
  }

  lemma CloseIsSign(ty: Type)
    ensures !CloseTok(ty).NumberTok? && CloseTok(Array) == EndArray && Spaces("")
  {
  }

  lemma SeparatorIs(k: Kid, n: nat)
    ensures Separator(k, n) == if n == 1 then "" else k.comma + ","
  {
  }

  lemma CommaKid(k: Kid, comma: string, ty: Type)
    requires ProperKid(k) && Spaces(comma)
    ensures var c := k.(comma := comma);
            ProperKid(c) && Tag(c, ty) == Tag(k, ty) && KidTree(c, ty) == KidTree(k, ty)
  {
    hide StringBody, Proper, Meaning;
  }

  lemma LateCloses(p: Parser, done: seq<Tree>, text: string, more: string)
    requires Under(p, Array)
    ensures React(Ready(p, Array, done, text).(text := more), EndArray) == Next(Closed(p, Array, done, more))
  {
    CloseReacts(p, Array, done, more);
    LateReacts(p, done, more);
    assert Ready(p, Array, done, text).(text := more) == Inside(p, Array, done, more).(st := InArray);
    hide React, Inside, Closed;
  }

  // A child and what comes with it, from s to e.
  lemma {:induction false} KidSound(p: Parser, buffer: string, s: nat, ty: Type, done: seq<Tree>, text: string)
      returns (kid: Kid, e: nat, j: nat, after: string)
    requires Under(p, ty) && Succeeds(Ready(p, ty, done, text), buffer, s)
    requires done == [] || ty.Array? ==> Lex(buffer, s, Root, text).tok != CloseTok(ty)
    ensures s < e <= j <= |buffer| && buffer[s..e] == Tag(kid, ty) + (kid.gap + Write(kid.value))
            && Spaces(buffer[e..j])
    ensures ProperKid(kid) && var b := Inside(p, ty, done + [KidTree(kid, ty)], after);
              Leads(Ready(p, ty, done, text), buffer, s, b, j) && Succeeds(b, buffer, j)
    decreases |buffer| - s, 2
  {
    hide *;
    UnderType(p, ty);
    CloseIsSign(ty);
    var q := Ready(p, ty, done, text);
    ReadyState(p, ty, done, text);
    if ty.Object? {
      var l, q1, k, n := Advances(q, buffer, s);
      FirstReacts(p, done, text, l.tok, l.text);
      var key := l.text;
      var l2, q2, k2, n2 := Advances(q1, buffer, n);
      ColonReacts(q, key, l2.tok, l2.text);
      LeadsOn(q, q1, q2, buffer, s, n, n2);
      var x, k3, e3, j3, after3 := ValueSound(q2, buffer, n2);
      kid, e, j, after := Kid("", buffer[s..k], key, buffer[n..k2], buffer[n2..k3], x), e3, j3, after3;
      PairWritten(buffer, s, k, n, k2, n2, k3, e, kid, l2.text);
      PairTree(p, done, text, key, l2.text, x, after);
      LeadsOn(q, q2, Having(q2, Meaning(x), after), buffer, s, n2, j);
    } else {
      var x, k, e3, j3, after3 := ValueSound(q, buffer, s);
      kid, e, j, after := Kid("", "", "", "", buffer[s..k], x), e3, j3, after3;
      ElementWritten(buffer, s, k, e, kid);
      ElementTree(p, done, text, kid, after);
    }
  }

  lemma FirstReacts(p: Parser, done: seq<Tree>, text: string, tok: Tok, key: string)
    requires Under(p, Object) && (done == [] ==> tok != CloseTok(Object))
    requires React(Ready(p, Object, done, text).(text := key), tok).Next?
    ensures var q := Ready(p, Object, done, text); var l := Labelled(q, key).(st := Label);
            tok.StringTok? && React(q.(text := key), tok) == Next(l) && !Opening(l) && !l.st.Done?
    ensures Ready(p, Object, done, text).st.InObject? || Ready(p, Object, done, text).st.NextField?
  {
    ReadyState(p, Object, done, text);
    LabelledGood(Ready(p, Object, done, text), key);
    hide Close;
  }

  lemma ColonReacts(q: Parser, key: string, tok: Tok, more: string)
    requires Good(q) && q.lex.Root? && (q.st.InObject? || q.st.NextField?)
    requires React(Labelled(q, key).(st := Label, text := more), tok).Next?
    ensures var r := Labelled(q, key).(text := more);
            && tok.NameSeparator? && React(Labelled(q, key).(st := Label, text := more), tok) == Next(r)
            && Expecting(r) && !r.st.InArray?
  {
    LabelledGood(q, key);
    GoodText(Labelled(q, key), Root, more);
    hide Good;
  }

  lemma PairWritten(buffer: string, s: nat, k: nat, n: nat, k2: nat, n2: nat, k3: nat, e: nat, kid: Kid, text: string)
    requires s <= k < n <= k2 < n2 <= k3 < e <= |buffer|
    requires kid == Kid("", buffer[s..k], kid.key, buffer[n..k2], buffer[n2..k3], kid.value)
    requires Spaces(buffer[s..k]) && Spaces(buffer[n..k2]) && Spaces(buffer[n2..k3]) && Proper(kid.value)
    requires Spelled(StringTok, kid.key, buffer[k..n]) && Spelled(NameSeparator, text, buffer[k2..n2])
    requires buffer[k3..e] == Write(kid.value)
    ensures ProperKid(kid) && buffer[s..e] == Tag(kid, Object) + (kid.gap + Write(kid.value))
  {
    hide StringText, StringBody, Proper, Write;
    BodyIsText(kid.key);
    SignSpelled(NameSeparator, text, buffer[k2..n2], ':');
    assert buffer[s..e] == buffer[s..k] + buffer[k..n] + (buffer[n..k2] + buffer[k2..n2])
                           + (buffer[n2..k3] + buffer[k3..e]);
  }

  lemma PairTree(p: Parser, done: seq<Tree>, text: string, key: string, more: string, x: Layout, after: string)
    requires Under(p, Object) && Expecting(Labelled(Ready(p, Object, done, text), key).(text := more))
    ensures Having(Labelled(Ready(p, Object, done, text), key).(text := more), Meaning(x), after)
            == Inside(p, Object, done + [Tree(String, key, [Meaning(x)])], after)
    ensures forall k: Kid :: k.key == key && k.value == x ==> KidTree(k, Object) == Tree(String, key, [Meaning(x)])
  {
    hide Meaning, Spine;
    var q, pair := Ready(p, Object, done, text), Tree(String, key, [Meaning(x)]);
    assert q.zip == Push(p.zip, Tree(Object, "", done));
    assert Expecting(Labelled(q, key));
    PairHad(q, p.zip, done, pair, after);
  }

  lemma ElementWritten(buffer: string, s: nat, k: nat, e: nat, kid: Kid)
    requires s <= k < e <= |buffer| && Spaces(buffer[s..k]) && Proper(kid.value) && buffer[k..e] == Write(kid.value)
    requires kid == Kid("", "", "", "", buffer[s..k], kid.value)
    ensures ProperKid(kid) && buffer[s..e] == Tag(kid, Array) + (kid.gap + Write(kid.value))
  {
    hide Proper, Write;
    assert buffer[s..e] == buffer[s..k] + buffer[k..e];
  }

  lemma ElementTree(p: Parser, done: seq<Tree>, text: string, kid: Kid, after: string)
    requires Under(p, Array)
    ensures Expecting(Ready(p, Array, done, text))
    ensures Having(Ready(p, Array, done, text), Meaning(kid.value), after)
            == Inside(p, Array, done + [KidTree(kid, Array)], after)
  {
    hide Meaning;
    ElementHad(p, done, text, Meaning(kid.value), after);
  }

  // ---------- documents ----------

  // Only a complete document makes the parser wait for the end.
  lemma {:induction false} RunDoneAtEnd(p: Parser, buffer: string, i: nat)
    requires i <= |buffer| && Good(p)
    ensures var o := Run(p, buffer, i); o.code.WaitingForEof? ==> |o.q.zip| == 1
    ensures !Run(p, buffer, i).code.Ok?
    decreases |buffer| - i, if p.lex.Root? then 0 else 1, if Opening(p) then 1 else 0
  {
    hide Lex, React, Run;
    RunStep(p, buffer, i);
    if i < |buffer| {
      if Opening(p) {
        OpenedGood(p);
        RunDoneAtEnd(Opened(p), buffer, i);
      } else {
        var l := Lex(buffer, i, p.lex, p.text);
        var q := p.(lex := l.state, text := l.text);
        GoodText(p, l.state, l.text);
        ReactGood(q, l.tok);
        if React(q, l.tok).Next? { RunDoneAtEnd(React(q, l.tok).q, buffer, l.at); } else { HaltCode(q, l.tok); }
      }
    }
  }

  lemma HaltCode(p: Parser, tok: Tok)
    requires Good(p) && !Opening(p) && React(p, tok).Halt?
    ensures !React(p, tok).code.Ok? && (React(p, tok).code.WaitingForEof? ==> p.st.Done?)
  {
    hide Spine;
    if p.zip != [] && (Cursor(p).ty.Object? || Cursor(p).ty.Array?) { assert Spine(p.zip); CloseGood(p); }
  }

  lemma FreshGood()
    ensures Good(FRESH)
  {}

  // After the document.
  lemma DoneRun(p: Parser, buffer: string, e: nat)
    requires Good(p) && p.st.Done? && p.lex.Root? && e <= |buffer|
    ensures Run(p, buffer, e).code.WaitingForEof? <==> LooseEnd(buffer[e..])
    ensures Run(p, buffer, e).q.zip == p.zip
  {
    hide Lex, Good, LooseEnd;
    LooseIsMore(buffer, e, p.text);
    RunStep(p, buffer, e);
    if e == |buffer| {
      LexEmpty(buffer, Root, p.text);
    }
  }

  lemma RootOpens(buffer: string, k: nat)
    requires k + 1 < |buffer| && buffer[k] == '{' && Spaces(buffer[..k])
    ensures Under(FRESH, Object) && Leads(FRESH, buffer, 0, Inside(FRESH, Object, [], ""), k + 1)
  {
    hide Run, Lex;
    var q := FRESH.(st := OpenObject);
    assert buffer[0..0 + k] == buffer[..k];
    SpacesLead(FRESH, buffer, 0, buffer[..k]);
    SignLeads(FRESH, buffer, k, q);
    OpeningLeads(q, buffer, k + 1);
    assert Opened(q) == Inside(FRESH, Object, [], "");
    LeadsOn(FRESH, FRESH, q, buffer, 0, k, k + 1);
    LeadsOn(FRESH, q, Opened(q), buffer, 0, k + 1, k + 1);
  }

  // Every text of the grammar is accepted, with the tree it spells.
  lemma WrittenIsParsed(text: string, lead: string, x: Layout, tail: string)
    requires Written(text, lead, x, tail)
    ensures Document(text).code.Ok? && Document(text).q.zip == [Meaning(x)]
  {
    hide *;
    var kids, k := WriteKids(x, |x.kids|), |lead|;
    WrittenParts(text, lead, x, tail);
    var j, e := k + 1 + |kids|, |text| - |tail|;
    EndingStarts(text, j, x);
    InRange(text, j);
    RootOpens(text, k);
    var inner := KidsAt(FRESH, text, k + 1, x, |x.kids|, "");
    EndingLeads(FRESH, text, j, x, inner);
    var a, z := Inside(FRESH, Object, Meanings(x, |x.kids|), inner),
      Closed(FRESH, Object, Meanings(x, |x.kids|), inner);
    LeadsOn(FRESH, Inside(FRESH, Object, [], ""), a, text, 0, k + 1, j);
    LeadsOn(FRESH, a, z, text, 0, j, e);
    ClosedRoot(x, inner);
    DoneRun(z, text, e);
    LeadsRun(FRESH, text, 0, z, e);
    DocumentIs(text);
  }

  lemma WrittenParts(text: string, lead: string, x: Layout, tail: string)
    requires Written(text, lead, x, tail)
    ensures var kids, k := WriteKids(x, |x.kids|), |lead|;
            var j, e := k + 1 + |kids|, |text| - |tail|;
            && x.ty == Object && Proper(x) && k + 1 < |text| && text[k] == '{' && Spaces(text[..k])
            && At(text, k + 1, kids) && At(text, j, Ending(x)) && e == j + |Ending(x)| && LooseEnd(text[e..])
  {
    var kids, k := WriteKids(x, |x.kids|), |lead|;
    ContainerText(x);
    hide WriteKids, Write, Ending, LooseEnd;
    assert At(text, k, ['{'] + (kids + Ending(x))) by { assert text[k..k + |Write(x)|] == Write(x); }
    AtChar(text, k, '{', kids + Ending(x));
    AtSplit(text, k + 1, kids, Ending(x));
    assert text[..k] == lead && text[|text| - |tail|..] == tail;
    assert Ending(x) != "" by { EndingParts(x); }
  }

  lemma ClosedRoot(x: Layout, text: string)
    requires x.ty == Object && Proper(x) && Under(FRESH, Object)
    ensures var z := Closed(FRESH, Object, Meanings(x, |x.kids|), text);
            Good(z) && z.st.Done? && z.lex.Root? && z.zip == [Meaning(x)]
  {
    CloseReacts(FRESH, Object, Meanings(x, |x.kids|), text);
    ContainerText(x);
    hide Meaning, Meanings;
  }

  lemma LeadsRun(p: Parser, buffer: string, i: nat, q: Parser, j: nat)
    requires Leads(p, buffer, i, q, j)
    ensures i <= |buffer| && j <= |buffer| && Good(p) && Good(q) && Run(p, buffer, i) == Run(q, buffer, j)
  {
  }

  lemma DocumentIs(text: string)
    ensures Good(FRESH)
    ensures Document(text).code.Ok? <==> Run(FRESH, text, 0).code.WaitingForEof?
    ensures Document(text).q == Run(FRESH, text, 0).q
  {
    FreshGood();
    RunDoneAtEnd(FRESH, text, 0);
    hide Run;
  }

  // Whatever is accepted is a text of the grammar and spells the tree it gives.
  lemma ParsedIsWritten(text: string) returns (lead: string, x: Layout, tail: string)
    requires Document(text).code.Ok?
    ensures Written(text, lead, x, tail) && Document(text).q.zip == [Meaning(x)]
  {
    hide *;
    DocumentIs(text);
    FreshSucceeds(text);
    var l, q, k, n := Advances(FRESH, text, 0);
    RootReacts(text, l, q, k, n);
    EmptyLayout(Object);
    var a := Inside(FRESH, Object, [], l.text);
    var y, e, after := InsideSound(FRESH, text, n, n, n, Empty(Object), l.text);
    lead, x, tail := text[..k], y, text[e..];
    var z := Closed(FRESH, Object, Meanings(y, |y.kids|), after);
    ClosedRoot(y, after);
    SucceedsParts(z, text, e);
    DoneRun(z, text, e);
    LeadsOn(FRESH, a, z, text, 0, n, e);
    LeadsRun(FRESH, text, 0, z, e);
    RootWritten(text, k, n, e, l.text, y);
  }

  lemma FreshSucceeds(text: string)
    requires Good(FRESH) && Run(FRESH, text, 0).code.WaitingForEof?
    ensures Succeeds(FRESH, text, 0) && !Opening(FRESH) && !FRESH.st.Done? && FRESH.lex.Root?
  {
  }

  lemma SucceedsParts(p: Parser, buffer: string, i: nat)
    requires Succeeds(p, buffer, i)
    ensures i <= |buffer| && Good(p) && Run(p, buffer, i).code.WaitingForEof?
  {
  }

  lemma RootReacts(text: string, l: Lexed, q: Parser, k: nat, n: nat)
    requires k < n <= l.at <= |text| && (!l.tok.NumberTok? ==> n == l.at) && Spelled(l.tok, l.text, text[k..n])
    requires React(FRESH.(text := l.text), l.tok) == Next(q) && Leads(FRESH, text, 0, q, l.at)
             && Succeeds(q, text, l.at)
    ensures l.tok.BeginObject? && n == l.at && text[n..n] == "" && Spaces("") && text[k..n] == "{"
    ensures Under(FRESH, Object) && Empty(Object).ty == Object && Empty(Object).kids == []
    ensures var a := Inside(FRESH, Object, [], l.text); Leads(FRESH, text, 0, a, n) && Succeeds(a, text, n)
  {
    SignSpelled(BeginObject, l.text, text[k..n], '{');
    hide Run, Lex;
    assert q == FRESH.(text := l.text, st := OpenObject);
    NotAtEnd(q, text, n);
    OpeningLeads(q, text, n);
    assert Opened(q) == Inside(FRESH, Object, [], l.text);
    LeadsOn(FRESH, q, Opened(q), text, 0, n, n);
  }

  lemma RootWritten(text: string, k: nat, n: nat, e: nat, inner: string, y: Layout)
    requires k < n < e <= |text| && Spaces(text[0..k]) && text[k..n] == "{" && Proper(y) && y.ty == Object
    requires text[n..e] == WriteKids(y, |y.kids|) + Ending(y) && LooseEnd(text[e..])
    ensures Written(text, text[..k], y, text[e..])
  {
    ContainerText(y);
    assert text[0..k] == text[..k];
    assert text == text[..k] + (text[k..n] + text[n..e]) + text[e..];
    hide Write, WriteKids, Ending, LooseEnd;
  }

  // json_parse_document accepts exactly the texts of the grammar, and gives the
  // tree they spell.
  lemma AcceptedExactly(text: string, t: Tree)
    ensures Document(text).code.Ok? && Document(text).q.zip == [t] <==> Spells(text, t)
  {
    hide Document, Written, Meaning;
    if Document(text).code.Ok? && Document(text).q.zip == [t] {
      var lead, x, tail := ParsedIsWritten(text);
      assert [Meaning(x)][0] == [t][0];
    }
    if Spells(text, t) {
      var lead, x, tail :| Written(text, lead, x, tail) && Meaning(x) == t;
      WrittenIsParsed(text, lead, x, tail);
    }
  }

  // ---------- the two liberties ----------

  // `[true,]` stands for an array of one element.
  function TrueList(): Layout {
    Layout(Array, "", [Kid("", "", "", "", "", LeafLayout(True, ""))], Comma(""), "")
  }

  lemma TrueListIs()
    ensures Proper(TrueList()) && Write(TrueList()) == "[true,]"
    ensures Meaning(TrueList()) == Tree(Array, "", [Tree(True, "", [])])
  {
    var x := TrueList();
    var leaf := LeafLayout(True, "");
    assert Write(leaf) == "true" && Meaning(leaf) == Tree(True, "", []) && Proper(leaf) && ProperKid(x.kids[0]);
    OneKid(x);
    hide Write, Meaning, Meanings, WriteKids, Proper;
    OneProper(x);
    ContainerText(x);
    assert Ending(x) == ",]";
    assert WriteKids(x, 1) == "true" && ['['] + ("true" + ",]") == "[true,]";
  }

  lemma OneProper(x: Layout)
    requires |x.kids| == 1 && ProperKid(x.kids[0]) && x.text == "" && Spaces(x.close)
    requires if x.ty.Array? then x.trailing.Comma? ==> Spaces(x.trailing.space) else x.ty.Object? && x.trailing.NoComma?
    ensures Proper(x)
  {
  }

  lemma OneKid(x: Layout)
    requires |x.kids| == 1
    ensures var k := x.kids[0];
            && WriteKids(x, 1) == Tag(k, x.ty) + k.gap + Write(k.value) && Meanings(x, 1) == [KidTree(k, x.ty)]
  {
    hide Write, Meaning, Tag;
    assert WriteKids(x, 0) == "" && Meanings(x, 0) == [];
  }

  // `{"a":[true,]}` is accepted as `{"a":[true]}` is.
  lemma TrailingCommaAccepted()
    ensures var text := "{\"a\":[true,]}"; var v := Tree(Array, "", [Tree(True, "", [])]);
            Document(text).code.Ok? && Document(text).q.zip == [Tree(Object, "", [Tree(String, "a", [v])])]
  {
    hide *;
    var k := Kid("", "", "a", "", "", TrueList());
    var x := Layout(Object, "", [k], NoComma, "");
    TrueListIs();
    LabelA(k);
    OneProper(x);
    OneKid(x);
    ContainerText(x);
    EndsPlain(x);
    assert |x.kids| == 1 && "\"a\":" + "" + "[true,]" == "\"a\":[true,]";
    assert WriteKids(x, |x.kids|) == "\"a\":[true,]";
    assert Write(x) == ['{'] + ("\"a\":[true,]" + "}");
    assert ['{'] + ("\"a\":[true,]" + "}") == "{\"a\":[true,]}";
    assert Meanings(x, |x.kids|) == [Tree(String, "a", [Meaning(TrueList())])];
    PlainWritten(x);
    WrittenIsParsed(Write(x), "", x, "");
  }

  lemma LabelA(k: Kid)
    requires k.key == "a" && k.comma == k.open == k.colon == k.gap == "" && Proper(k.value)
    ensures ProperKid(k) && Tag(k, Object) == "\"a\":" && KidTree(k, Object) == Tree(String, "a", [Meaning(k.value)])
    ensures Spaces("")
  {
    hide Proper, Meaning;
    assert "a"[1..] == "" && StringBody("") && StringBody("a");
    assert "" + ("\"" + "a" + "\"") + ("" + ":") == "\"a\":";
  }

  lemma EndsPlain(x: Layout)
    requires x.ty.Object? && x.trailing.NoComma? && x.close == ""
    ensures Ending(x) == "}"
  {
  }

  // A layout with nothing around it.
  lemma PlainWritten(x: Layout)
    requires Proper(x) && x.ty.Object?
    ensures Written(Write(x), "", x, "")
  {
    hide Write, Proper;
    assert "" + Write(x) + "" == Write(x);
    assert Spaces("");
  }

  // `{}tru` is accepted as `{}` is: the end is not asked for when the lexer
  // wants more.
  lemma UnfinishedAccepted()
    ensures Spells("{}tru", Tree(Object, "", [])) && Document("{}tru").code.Ok?
  {
    hide Document;
    var x := Empty(Object);
    assert Write(x) == "{}" && Meaning(x) == Tree(Object, "", []);
    assert Unfinished("tru") by { assert "true"[..3] == "tru"; }
    assert "tru"[0..] == "tru" && "tru"[..0] == "" && Spaces("");
    assert LooseEnd("tru");
    assert Written("{}tru", "", x, "tru");
    WrittenIsParsed("{}tru", "", x, "tru");
  }
}
