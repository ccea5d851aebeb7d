// The lexer of 3rd/mjson/json.c against the grammar of tokens: what it skips,
// what it reports, and when it wants more.
module JsonTokens {
  import opened JsonText
  import opened JsonLexer
  import opened JsonValue
  import opened JsonGrammar

  // ---------- the grammar's characters are the lexer's ----------

  lemma {:induction false} BodyIsText(s: string)
    ensures StringBody(s) <==> StringText(s)
    decreases |s|
  {
    if s != "" {
      if s[0] != '\\' {
        BodyIsText(s[1..]);
      } else if |s| >= 2 && s[1] == 'u' {
        if |s| >= 6 { BodyIsText(s[6..]); }
      } else if |s| >= 2 {
        BodyIsText(s[2..]);
      }
    }
  }

  lemma FormIsText(s: string)
    ensures NumberForm(s) <==> NumberText(s)
  {
    if NumberForm(s) {
      var minus, whole, frac, exp :| NumberOf(s, minus, whole, frac, exp);
      PartsSame(s, minus, whole, frac, exp);
    }
    if NumberText(s) {
      var minus, whole, frac, exp :| NumberParts(minus, whole, frac, exp) && s == minus + whole + frac + exp;
      PartsSame(s, minus, whole, frac, exp);
    }
  }

  lemma PartsSame(s: string, minus: string, whole: string, frac: string, exp: string)
    requires s == minus + whole + frac + exp
    ensures NumberOf(s, minus, whole, frac, exp) <==> NumberParts(minus, whole, frac, exp)
  {
    assert Whole(whole) <==> IsInt(whole);
    assert Fraction(frac) <==> frac == "" || IsFrac(frac);
    assert Power(exp) <==> exp == "" || IsExp(exp) by { PowerIsExp(exp); }
  }

  lemma PowerIsExp(s: string)
    ensures Power(s) <==> s == "" || IsExp(s)
  {
    if |s| >= 2 { assert s[1..][0] == s[1]; }
  }

  // ---------- white space ----------

  lemma {:induction false} LexSpaces(buffer: string, i: nat, ws: string, text: string)
    requires At(buffer, i, ws) && Spaces(ws)
    ensures Lex(buffer, i, Root, text) == Lex(buffer, i + |ws|, Root, text)
    decreases |ws|
  {
    hide Lex;
    if ws != "" {
      assert buffer[i] == ws[0];
      LexGo(buffer, i, Root, text, Root, text);
      AtRest(buffer, i, ws, 1);
      LexSpaces(buffer, i + 1, ws[1..], text);
    }
  }

  // ---------- what a token looks like ----------

  ghost predicate Spelled(tok: Tok, text: string, w: string) {
    match tok
    case StringTok => StringText(text) && w == "\"" + text + "\""
    case NumberTok => NumberText(text) && w == text
    case TrueTok => w == "true"
    case FalseTok => w == "false"
    case NullTok => w == "null"
    case More => false
    case Invalid => false
    case _ => |w| == 1 && SignTok(w[0]) == tok
  }

  lemma LexUnfold(buffer: string, p: nat, s: LexState, text: string)
    requires p < |buffer|
    ensures Lex(buffer, p, s, text) ==
            match LexStep(s, text, buffer[p])
            case Go(s1, text1) => Lex(buffer, p + 1, s1, text1)
            case Emit(tok, s1, text1, taken) => Lexed(tok, if taken then p + 1 else p, s1, text1)
  {
  }

  lemma LexEmpty(buffer: string, s: LexState, text: string)
    ensures Lex(buffer, |buffer|, s, text) == Lexed(More, |buffer|, s, text)
  {
  }

  // ---------- tokens in progress ----------

  // text is a string's text up to where state s is.
  ghost predicate StringReached(s: LexState, text: string) {
    exists a, b :: StringText(a) && text == a + b && EscapeReached(s, b)
  }

  // b is an escape sequence up to where state s is.
  predicate EscapeReached(s: LexState, b: string) {
    match s
    case InString => b == ""
    case Escape => b == "\\"
    case U1 => b == "\\u"
    case U2 => HexReached(b, 3)
    case U3 => HexReached(b, 4)
    case U4 => HexReached(b, 5)
    case _ => false
  }

  predicate HexReached(b: string, n: nat) {
    |b| == n && n >= 2 && b[0] == '\\' && b[1] == 'u' && forall i :: 2 <= i < n ==> HexValue(b[i]) >= 0
  }

  lemma {:induction false} StringJoin(a: string, b: string)
    requires StringText(a) && StringText(b)
    ensures StringText(a + b)
    decreases |a|
  {
    hide Hex4, Literal;
    var w := a + b;
    if a == "" {
      assert w == b;
    } else {
      assert w[0] == a[0] && w[1..] == a[1..] + b;
      if a[0] != '\\' {
        StringJoin(a[1..], b);
      } else {
        assert |a| >= 2 && w[1] == a[1] && w[2..] == a[2..] + b;
        if a[1] == 'u' {
          HexLonger(a[2..], b);
          StringJoin(a[6..], b);
          assert w[6..] == a[6..] + b;
        } else {
          StringJoin(a[2..], b);
        }
      }
    }
  }

  lemma HexLonger(s: string, b: string)
    requires Hex4(s)
    ensures Hex4(s + b) && |s| >= 4
  {
  }

  lemma StringGoes(s: LexState, text: string, c: char)
    requires StringReached(s, text) && LexStep(s, text, c).Go?
    ensures var r := LexStep(s, text, c); r.text == text + [c] && StringReached(r.state, r.text)
  {
    hide StringText, HexValue;
    var a, b :| StringText(a) && text == a + b && EscapeReached(s, b);
    var r := LexStep(s, text, c);
    assert text + [c] == a + (b + [c]);
    if r.state.InString? {
      Complete(s, b, c);
      StringJoin(a, b + [c]);
      assert text + [c] == (a + (b + [c])) + "";
    } else {
      assert EscapeReached(r.state, b + [c]);
    }
  }

  // A character or an escape sequence that is complete.
  lemma Complete(s: LexState, b: string, c: char)
    requires EscapeReached(s, b) && LexStep(s, "", c).Go? && LexStep(s, "", c).state.InString?
    ensures StringText(b + [c])
  {
    var w := b + [c];
    match s {
      case InString => assert w[1..] == "";
      case Escape => assert w[2..] == "";
      case U4 =>
        assert w[6..] == "";
        assert forall k :: 0 <= k < 4 ==> w[2..][k] == w[k + 2];
      case _ =>
    }
  }

  // text is a number up to where state s is.
  ghost predicate NumberReached(s: LexState, text: string) {
    exists minus, whole, frac, exp ::
      && text == minus + whole + frac + exp && PartsReached(s, whole, frac, exp)
      && (minus == "-" || (minus == "" && !s.Minus?))
  }

  predicate PartsReached(s: LexState, whole: string, frac: string, exp: string) {
    match s
    case Minus => whole == "" && frac == "" && exp == ""
    case Zero => whole == "0" && frac == "" && exp == ""
    case Int => whole != "0" && IsInt(whole) && frac == "" && exp == ""
    case FracStart => IsInt(whole) && frac == "." && exp == ""
    case Frac => IsInt(whole) && IsFrac(frac) && exp == ""
    case ExpStart => IsInt(whole) && (frac == "" || IsFrac(frac)) && |exp| == 1 && IsE(exp[0])
    case ExpSign =>
      IsInt(whole) && (frac == "" || IsFrac(frac)) && |exp| == 2 && IsE(exp[0]) && (exp[1] == '-' || exp[1] == '+')
    case Exp => IsInt(whole) && (frac == "" || IsFrac(frac)) && IsExp(exp)
    case _ => false
  }

  lemma NumberGoes(s: LexState, text: string, c: char)
    requires NumberReached(s, text) && LexStep(s, text, c).Go?
    ensures var r := LexStep(s, text, c); r.text == text + [c] && NumberReached(r.state, r.text)
  {
    var minus, whole, frac, exp :|
      text == minus + whole + frac + exp && (minus == "-" || (minus == "" && !s.Minus?))
        && PartsReached(s, whole, frac, exp);
    StateKept(s, text, c);
    hide *;
    var w, f, e := NextParts(s, whole, frac, exp, c);
    Together(minus, whole, frac, exp);
    Together(minus, w, f, e);
    assert text + [c] == minus + (whole + frac + exp + [c]);
    ReachedOf(LexStep(s, "", c).state, text + [c], minus, w, f, e);
  }

  lemma Together(a: string, b: string, c: string, d: string)
    ensures a + b + c + d == a + (b + c + d)
  {
  }

  lemma ReachedOf(s: LexState, text: string, minus: string, whole: string, frac: string, exp: string)
    requires text == minus + whole + frac + exp && PartsReached(s, whole, frac, exp)
    requires (minus == "" || minus == "-") && !s.Minus?
    ensures NumberReached(s, text)
  {
  }

  lemma StateKept(s: LexState, text: string, c: char)
    requires Numeric(s) && LexStep(s, text, c).Go?
    ensures LexStep(s, "", c).Go? && LexStep(s, text, c) == Go(LexStep(s, "", c).state, text + [c])
    ensures !LexStep(s, "", c).state.Minus?
  {
  }

  // The part that c belongs to.
  lemma NextParts(s: LexState, whole: string, frac: string, exp: string, c: char)
      returns (w: string, f: string, e: string)
    requires PartsReached(s, whole, frac, exp) && LexStep(s, "", c).Go?
    ensures PartsReached(LexStep(s, "", c).state, w, f, e) && w + f + e == whole + frac + exp + [c]
  {
    var t := LexStep(s, "", c).state;
    w, f, e := whole, frac, exp;
    if t.Zero? || t.Int? {
      WholeGrows(s, whole, frac, exp, c);
      w := whole + [c];
    } else if t.FracStart? || t.Frac? {
      FracGrows(s, whole, frac, exp, c);
      f := frac + [c];
    } else {
      ExpGrows(s, exp, c);
      e := exp + [c];
      assert whole + frac + (exp + [c]) == whole + frac + exp + [c];
    }
  }

  lemma WholeGrows(s: LexState, whole: string, frac: string, exp: string, c: char)
    requires PartsReached(s, whole, frac, exp) && LexStep(s, "", c).Go?
    requires LexStep(s, "", c).state.Zero? || LexStep(s, "", c).state.Int?
    ensures frac == "" && exp == "" && whole + [c] + frac + exp == whole + frac + exp + [c]
    ensures PartsReached(LexStep(s, "", c).state, whole + [c], frac, exp)
  {
    if s.Int? {
      assert |whole + [c]| >= 2 && Digits(whole + [c]);
    } else {
      assert whole + [c] == [c];
    }
  }

  lemma FracGrows(s: LexState, whole: string, frac: string, exp: string, c: char)
    requires PartsReached(s, whole, frac, exp) && LexStep(s, "", c).Go?
    requires LexStep(s, "", c).state.FracStart? || LexStep(s, "", c).state.Frac?
    ensures exp == "" && whole + (frac + [c]) + exp == whole + frac + exp + [c]
    ensures PartsReached(LexStep(s, "", c).state, whole, frac + [c], exp)
  {
    var f := frac + [c];
    if s.FracStart? || s.Frac? { assert f[1..] == frac[1..] + [c]; } else { assert frac == ""; }
  }

  lemma ExpGrows(s: LexState, exp: string, c: char)
    requires s.Zero? || s.Int? || s.Frac? ==> exp == ""
    requires s.ExpStart? ==> |exp| == 1 && IsE(exp[0])
    requires s.ExpSign? ==> |exp| == 2 && IsE(exp[0]) && (exp[1] == '-' || exp[1] == '+')
    requires s.Exp? ==> IsExp(exp)
    requires Numeric(s) && LexStep(s, "", c).Go?
    ensures var t, e := LexStep(s, "", c).state, exp + [c];
            && (t.ExpStart? ==> |e| == 1 && IsE(e[0]))
            && (t.ExpSign? ==> |e| == 2 && IsE(e[0]) && (e[1] == '-' || e[1] == '+'))
            && (t.Exp? ==> IsExp(e))
  {
    var e := exp + [c];
    if s.ExpStart? { assert e[1..] == [c]; }
    if s.ExpSign? { assert e[2..] == [c]; }
    if s.Exp? {
      assert e[1] == exp[1];
      assert e[1..] == exp[1..] + [c];
      if |exp| >= 3 { assert e[2..] == exp[2..] + [c]; }
    }
  }

  // Where a number may end it is one.
  lemma NumberEnds(s: LexState, text: string)
    requires NumberReached(s, text) && EndState(s)
    ensures NumberText(text)
  {
    var minus, whole, frac, exp :|
      text == minus + whole + frac + exp && (minus == "-" || (minus == "" && !s.Minus?))
        && PartsReached(s, whole, frac, exp);
    assert NumberParts(minus, whole, frac, exp);
  }

  // ---------- the lexer in the middle of a token ----------

  // The part of a word that has been read.
  function WordRead(s: LexState): string {
    match s
    case T1 => "t"
    case T2 => "tr"
    case T3 => "tru"
    case F1 => "f"
    case F2 => "fa"
    case F3 => "fal"
    case F4 => "fals"
    case N1 => "n"
    case N2 => "nu"
    case N3 => "nul"
    case _ => ""
  }

  predicate InText(s: LexState) { s.InString? || s.Escape? || s.U1? || s.U2? || s.U3? || s.U4? }

  // w is what has been read of the token at hand.
  ghost predicate Reached(s: LexState, text: string, w: string) {
    if s.Root? then w == ""
    else if InText(s) then w == "\"" + text && StringReached(s, text)
    else if Numeric(s) then w == text && NumberReached(s, text)
    else w == WordRead(s)
  }

  lemma ReachedGoes(s: LexState, text: string, w: string, c: char)
    requires Reached(s, text, w) && LexStep(s, text, c).Go?
    ensures var r := LexStep(s, text, c);
            if s.Root? && r.state.Root? then Space(c) else Reached(r.state, r.text, w + [c])
  {
    hide StringText, HexValue, Literal, StringReached, NumberReached;
    if s.Root? {
      FirstReached(text, c);
    } else if InText(s) {
      StringGoes(s, text, c);
    } else if Numeric(s) {
      NumberGoes(s, text, c);
    }
  }

  lemma FirstReached(text: string, c: char)
    requires RootStep(text, c).Go?
    ensures var r := RootStep(text, c); if r.state.Root? then Space(c) else Reached(r.state, r.text, [c])
  {
    var r := RootStep(text, c);
    if r.state.InString? {
      assert StringText("") && "" == "" + "";
      assert EscapeReached(InString, "");
    } else if Numeric(r.state) {
      if c == '-' { assert [c] == "-" + "" + "" + "" && PartsReached(Minus, "", "", ""); }
      else { assert [c] == "" + [c] + "" + "" && PartsReached(r.state, [c], "", ""); }
    }
  }

  // A token that is reported is spelled out.
  lemma ReachedEmits(s: LexState, text: string, w: string, c: char)
    requires Reached(s, text, w) && LexStep(s, text, c).Emit? && !LexStep(s, text, c).tok.Invalid?
    ensures var r := LexStep(s, text, c);
            && r.state.Root? && !r.tok.More?
            && if r.tok.NumberTok? then w != "" && Spelled(NumberTok, r.text, w) && (r.taken ==> Space(c))
               && !Space(w[|w| - 1])
               else r.taken && Spelled(r.tok, r.text, w + [c])
  {
    hide HexValue, Literal, StringText, NumberText, StringReached, NumberReached;
    if InText(s) {
      StringEmits(s, text, c);
    } else if Numeric(s) {
      NumberEmits(s, text, c);
    }
  }

  lemma StringEmits(s: LexState, text: string, c: char)
    requires StringReached(s, text) && LexStep(s, text, c).Emit? && !LexStep(s, text, c).tok.Invalid?
    ensures LexStep(s, text, c) == Emit(StringTok, Root, text, true) && StringText(text) && c == '"'
  {
    hide HexValue, Literal, StringText;
    var a, b :| StringText(a) && text == a + b && EscapeReached(s, b);
    if s.InString? { assert text == a; }
  }

  lemma NumberEmits(s: LexState, text: string, c: char)
    requires NumberReached(s, text) && Numeric(s) && LexStep(s, text, c).Emit? && !LexStep(s, text, c).tok.Invalid?
    ensures LexStep(s, text, c) == Emit(NumberTok, Root, text, Space(c)) && NumberText(text)
    ensures text != "" && !Space(text[|text| - 1])
  {
    hide NumberText, NumberReached;
    assert EndState(s);
    NumberEnds(s, text);
    LastOfNumber(text);
  }

  lemma LastOfNumber(s: string)
    requires NumberText(s)
    ensures s != "" && !Space(s[|s| - 1])
  {
    var minus, whole, frac, exp :| NumberParts(minus, whole, frac, exp) && s == minus + whole + frac + exp;
    var c := s[|s| - 1];
    if exp != "" {
      assert c == exp[|exp| - 1];
      if exp[1] == '-' || exp[1] == '+' { assert c == exp[2..][|exp| - 3]; } else { assert c == exp[1..][|exp| - 2]; }
    } else if frac != "" {
      assert c == frac[1..][|frac| - 2];
    } else {
      assert c == whole[|whole| - 1];
    }
  }

  // ---------- the lexer ----------

  // From the middle of a token that begins at k, white space before it from i
  // on: the token that is reported stands in the buffer from k' to e, or the
  // buffer ends within a token.
  lemma {:induction false} LexSound(buffer: string, i: nat, k: nat, p: nat, s: LexState, text: string)
      returns (k': nat, e: nat)
    requires i <= k <= p <= |buffer| && Spaces(buffer[i..k]) && Reached(s, text, buffer[k..p])
    ensures var r := Lex(buffer, p, s, text);
            if r.tok.Invalid? then true
            else if r.tok.More? then
              i <= k' <= |buffer| && Spaces(buffer[i..k']) && Reached(r.state, r.text, buffer[k'..])
            else
              && r.state.Root? && i <= k' < e <= r.at && Spaces(buffer[i..k']) && Spaces(buffer[e..r.at])
              && Spelled(r.tok, r.text, buffer[k'..e]) && (!r.tok.NumberTok? ==> e == r.at)
    decreases |buffer| - p
  {
    hide Lex, LexStep, Reached, Spelled;
    if p == |buffer| {
      LexEmpty(buffer, s, text);
      assert buffer[k..p] == buffer[k..];
      k', e := k, p;
    } else {
      var w, c := buffer[k..p], buffer[p];
      LexUnfold(buffer, p, s, text);
      assert buffer[k..p + 1] == w + [c];
      var r := LexStep(s, text, c);
      if r.Go? {
        ReachedGoes(s, text, w, c);
        if s.Root? && r.state.Root? {
          RootEmpty(text, w);
          assert buffer[i..p + 1] == buffer[i..k] + [c];
          assert buffer[p + 1..p + 1] == "";
          RootReached(r.text);
          k', e := LexSound(buffer, i, p + 1, p + 1, Root, r.text);
        } else {
          k', e := LexSound(buffer, i, k, p + 1, r.state, r.text);
        }
      } else if !r.tok.Invalid? {
        ReachedEmits(s, text, w, c);
        k' := k;
        if r.tok.NumberTok? {
          e := p;
          assert buffer[p..p + 1] == [c];
        } else {
          e := p + 1;
        }
      } else {
        k', e := k, p;
      }
    }
  }

  lemma RootEmpty(text: string, w: string)
    requires Reached(Root, text, w)
    ensures w == ""
  {
  }

  lemma RootReached(text: string)
    ensures Reached(Root, text, "")
  {
  }

  // The lexer looks at nothing behind the token it reports.
  lemma {:induction false} LexLonger(buffer: string, more: string, p: nat, s: LexState, text: string)
    requires p <= |buffer| && !Lex(buffer, p, s, text).tok.More?
    ensures Lex(buffer + more, p, s, text) == Lex(buffer, p, s, text)
    decreases |buffer| - p
  {
    hide Lex, LexStep;
    if p == |buffer| {
      LexEmpty(buffer, s, text);
    } else {
      LexUnfold(buffer, p, s, text);
      LexUnfold(buffer + more, p, s, text);
      assert (buffer + more)[p] == buffer[p];
      var r := LexStep(s, text, buffer[p]);
      if r.Go? { LexLonger(buffer, more, p + 1, r.state, r.text); }
    }
  }

  // ---------- unfinished tokens ----------

  // What would finish an escape sequence.
  function Remainder(s: LexState): string {
    match s
    case Escape => "n"
    case U1 => "0000"
    case U2 => "000"
    case U3 => "00"
    case U4 => "0"
    case _ => ""
  }

  lemma RemainderCompletes(s: LexState, b: string)
    requires EscapeReached(s, b)
    ensures StringText(b + Remainder(s))
  {
    var w := b + Remainder(s);
    if s.Escape? {
      assert w[2..] == "";
    } else if !s.InString? {
      assert w[6..] == "" && w[1] == 'u';
      assert forall k :: 0 <= k < 4 ==> w[2..][k] == w[k + 2];
    }
  }

  lemma NumberRest(s: LexState, text: string) returns (rest: string)
    requires NumberReached(s, text) && Numeric(s)
    ensures NumberText(text + rest)
  {
    if EndState(s) {
      rest := "";
      NumberEnds(s, text);
      assert text + "" == text;
    } else {
      rest := "0";
      NumberGoes(s, text, '0');
      var r := LexStep(s, text, '0');
      NumberEnds(r.state, r.text);
    }
  }

  // The lexer wants more exactly in the middle of a token.
  lemma ReachedIsUnfinished(s: LexState, text: string, w: string)
    requires Reached(s, text, w) && !s.Root?
    ensures Unfinished(w)
  {
    hide StringText, StringBody, NumberForm, NumberText, NumberReached;
    if InText(s) {
      var a, b :| StringText(a) && text == a + b && EscapeReached(s, b);
      RemainderCompletes(s, b);
      StringJoin(a, b + Remainder(s));
      var body := a + (b + Remainder(s));
      BodyIsText(body);
      assert body == text + Remainder(s);
      assert ("\"" + body + "\"")[..|w|] == w;
      assert ProperPrefix(w, "\"" + body + "\"");
    } else if Numeric(s) {
      assert w != "" by { NumberStarts(s, w); }
      var rest := NumberRest(s, text);
      FormIsText(w + rest);
    }
  }

  lemma NumberStarts(s: LexState, w: string)
    requires NumberReached(s, w) && Numeric(s)
    ensures w != ""
  {
    var minus, whole, frac, exp :|
      w == minus + whole + frac + exp && (minus == "-" || (minus == "" && !s.Minus?))
        && PartsReached(s, whole, frac, exp);
  }

  lemma WordFinishes(buffer: string, k: nat, word: string, tok: Tok, text: string)
    requires k <= |buffer| && ProperPrefix(buffer[k..], word) && word != ""
    requires forall b, t :: At(b, k, word) ==> Lex(b, k, Root, t) == Lexed(tok, k + |word|, Root, t)
    ensures Lex(buffer, k, Root, text).tok.More?
  {
    hide Lex;
    var w := buffer[k..];
    var rest := word[|w|..];
    assert word == w + rest && buffer + rest == buffer[..k] + word;
    assert At(buffer + rest, k, word);
    if !Lex(buffer, k, Root, text).tok.More? { LexLonger(buffer, rest, k, Root, text); }
  }

  lemma StringFinishes(buffer: string, k: nat, body: string, text: string)
    requires k <= |buffer| && StringBody(body) && ProperPrefix(buffer[k..], "\"" + body + "\"")
    ensures Lex(buffer, k, Root, text).tok.More?
  {
    hide Lex, StringBody, StringText;
    BodyIsText(body);
    var w, whole := buffer[k..], "\"" + body + "\"";
    var rest := whole[|w|..];
    assert whole == w + rest && buffer + rest == buffer[..k] + whole;
    assert At(buffer + rest, k, whole);
    LexString(buffer + rest, k, text, body);
    if !Lex(buffer, k, Root, text).tok.More? { LexLonger(buffer, rest, k, Root, text); }
  }

  lemma NumberFinishes(buffer: string, k: nat, rest: string, text: string)
    requires k <= |buffer| && NumberForm(buffer[k..] + rest)
    ensures Lex(buffer, k, Root, text).tok.More?
  {
    hide Lex, NumberForm, NumberText;
    var whole := buffer[k..] + rest;
    FormIsText(whole);
    var more := rest + " ";
    var b := buffer + more;
    assert b == buffer[..k] + whole + " ";
    assert At(b, k, whole) && b[k + |whole|] == ' ';
    LexNumber(b, k, text, whole);
    if !Lex(buffer, k, Root, text).tok.More? { LexLonger(buffer, more, k, Root, text); }
  }

  lemma UnfinishedIsMore(buffer: string, k: nat, text: string)
    requires k <= |buffer| && Unfinished(buffer[k..])
    ensures Lex(buffer, k, Root, text).tok.More?
  {
    hide Lex, StringBody, NumberForm;
    var w := buffer[k..];
    if ProperPrefix(w, "true") {
      forall b, t | At(b, k, "true") ensures Lex(b, k, Root, t) == Lexed(TrueTok, k + 4, Root, t) { LexTrue(b, k, t); }
      WordFinishes(buffer, k, "true", TrueTok, text);
    } else if ProperPrefix(w, "false") {
      forall b, t | At(b, k, "false") ensures Lex(b, k, Root, t) == Lexed(FalseTok, k + 5, Root, t) {
        LexFalse(b, k, t);
      }
      WordFinishes(buffer, k, "false", FalseTok, text);
    } else if ProperPrefix(w, "null") {
      forall b, t | At(b, k, "null") ensures Lex(b, k, Root, t) == Lexed(NullTok, k + 4, Root, t) { LexNull(b, k, t); }
      WordFinishes(buffer, k, "null", NullTok, text);
    } else if body :| StringBody(body) && ProperPrefix(w, "\"" + body + "\"") {
      StringFinishes(buffer, k, body, text);
    } else {
      var rest :| NumberForm(w + rest);
      NumberFinishes(buffer, k, rest, text);
    }
  }

  // After a document: the lexer wants more exactly at the end of the text or in
  // an unfinished token.
  lemma LooseIsMore(buffer: string, j: nat, text: string)
    requires j <= |buffer|
    ensures LooseEnd(buffer[j..]) <==> Lex(buffer, j, Root, text).tok.More?
  {
    hide Lex, Unfinished, Reached;
    var tail := buffer[j..];
    if Spaces(tail) {
      LexSpaces(buffer, j, tail, text);
      LexEmpty(buffer, Root, text);
    } else if LooseEnd(tail) {
      var k :| 0 <= k <= |tail| && Spaces(tail[..k]) && Unfinished(tail[k..]);
      assert buffer[j..j + k] == tail[..k] && buffer[j + k..] == tail[k..];
      LexSpaces(buffer, j, tail[..k], text);
      UnfinishedIsMore(buffer, j + k, text);
    }
    if Lex(buffer, j, Root, text).tok.More? {
      var r := Lex(buffer, j, Root, text);
      RootReached(text);
      assert buffer[j..j] == "";
      var k, e := LexSound(buffer, j, j, j, Root, text);
      assert buffer[j..k] == tail[..k - j] && buffer[k..] == tail[k - j..];
      if r.state.Root? {
        RootEmpty(r.text, buffer[k..]);
        assert tail == tail[..k - j];
      } else {
        ReachedIsUnfinished(r.state, r.text, buffer[k..]);
      }
    }
  }
}
