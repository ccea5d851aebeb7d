// The lexer of 3rd/mjson/json.c: one character at a time, and whole tokens.
module JsonLexer {
  import opened JsonText

  datatype Tok =
    | More | Invalid | TrueTok | FalseTok | NullTok | BeginObject | EndObject | BeginArray | EndArray
    | NameSeparator | ValueSeparator | StringTok | NumberTok

  datatype LexState =
    | Root | InString | Escape | U1 | U2 | U3 | U4
    | T1 | T2 | T3 | F1 | F2 | F3 | F4 | N1 | N2 | N3
    | Minus | Zero | Int | FracStart | Frac | ExpStart | ExpSign | Exp

  // The next character is taken into state and text, or a token is reported,
  // with or without taking it.
  datatype LexOut = Go(state: LexState, text: string) | Emit(tok: Tok, state: LexState, text: string, taken: bool)

  predicate IsSpace(c: char) { c == ' ' || c == '\t' || c == '\n' || c == '\r' }

  predicate IsDigit(c: char) { '0' <= c <= '9' }

  function Word(c: char, want: char, next: LexState, self: LexState, text: string): LexOut {
    if c == want then Go(next, text) else Emit(Invalid, self, text, true)
  }

  function RootStep(text: string, c: char): LexOut {
    if IsSpace(c) then Go(Root, text)
    else if c == '{' then Emit(BeginObject, Root, text, true)
    else if c == '}' then Emit(EndObject, Root, text, true)
    else if c == '[' then Emit(BeginArray, Root, text, true)
    else if c == ']' then Emit(EndArray, Root, text, true)
    else if c == ':' then Emit(NameSeparator, Root, text, true)
    else if c == ',' then Emit(ValueSeparator, Root, text, true)
    else if c == '"' then Go(InString, "")
    else if c == 't' then Go(T1, text)
    else if c == 'f' then Go(F1, text)
    else if c == 'n' then Go(N1, text)
    else if c == '-' then Go(Minus, "-")
    else if c == '0' then Go(Zero, "0")
    else if '1' <= c <= '9' then Go(Int, [c])
    else Emit(Invalid, Root, text, true)
  }

  function HexStep(self: LexState, next: LexState, text: string, c: char): LexOut {
    if HexValue(c) >= 0 then Go(next, text + [c]) else Emit(Invalid, self, text, false)
  }

  // The end of a number: spaces are taken, other delimiters are left.
  predicate Delimits(c: char) { IsSpace(c) || c == ']' || c == '}' || c == ',' }

  function NumberEnd(text: string, c: char): LexOut
    requires Delimits(c)
  {
    Emit(NumberTok, Root, text, IsSpace(c))
  }

  predicate IsE(c: char) { c == 'e' || c == 'E' }

  function NumberStep(s: LexState, text: string, c: char): LexOut {
    match s
    case Minus => if c == '0' then Go(Zero, text + [c]) else if '1' <= c <= '9' then Go(Int, text + [c])
      else Emit(Invalid, s, text, false)
    case Zero =>
      if Delimits(c) then NumberEnd(text, c) else if c == '.' then Go(FracStart, text + [c]) else if IsE(c)
        then Go(ExpStart, text + [c])
      else Emit(Invalid, s, text, false)
    case Int =>
      if Delimits(c) then NumberEnd(text, c) else if c == '.' then Go(FracStart, text + [c]) else if IsE(c)
        then Go(ExpStart, text + [c])
      else if IsDigit(c) then Go(Int, text + [c]) else Emit(Invalid, s, text, false)
    case FracStart => if IsDigit(c) then Go(Frac, text + [c]) else Emit(Invalid, s, text, false)
    case Frac =>
      if Delimits(c) then NumberEnd(text, c) else if IsE(c) then Go(ExpStart, text + [c])
      else if IsDigit(c) then Go(Frac, text + [c]) else Emit(Invalid, s, text, false)
    case ExpStart =>
      if c == '-' || c == '+' then Go(ExpSign, text + [c]) else if IsDigit(c) then Go(Exp, text + [c])
        else Emit(Invalid, s, text, false)
    case ExpSign => if IsDigit(c) then Go(Exp, text + [c]) else Emit(Invalid, s, text, false)
    case _ => // Exp
      if Delimits(c) then NumberEnd(text, c) else if IsDigit(c) then Go(Exp, text + [c])
        else Emit(Invalid, s, text, false)
  }

  function StringStep(text: string, c: char): LexOut {
    if c < ' ' then Emit(Invalid, InString, text, false)
    else if c == '"' then Emit(StringTok, Root, text, true)
    else if c == '\\' then Go(Escape, text + [c])
    else Go(InString, text + [c])
  }

  function EscapeStep(text: string, c: char): LexOut {
    if c == 'u' then Go(U1, text + [c])
    else if Literal(c) != "" then Go(InString, text + [c])
    else Emit(Invalid, Escape, text, false)
  }

  function LexStep(s: LexState, text: string, c: char): LexOut {
    match s
    case Root => RootStep(text, c)
    case InString => StringStep(text, c)
    case Escape => EscapeStep(text, c)
    case U1 => HexStep(U1, U2, text, c)
    case U2 => HexStep(U2, U3, text, c)
    case U3 => HexStep(U3, U4, text, c)
    case U4 => HexStep(U4, InString, text, c)
    case T1 => Word(c, 'r', T2, T1, text)
    case T2 => Word(c, 'u', T3, T2, text)
    case T3 => if c == 'e' then Emit(TrueTok, Root, text, true) else Emit(Invalid, T3, text, true)
    case F1 => Word(c, 'a', F2, F1, text)
    case F2 => Word(c, 'l', F3, F2, text)
    case F3 => Word(c, 's', F4, F3, text)
    case F4 => if c == 'e' then Emit(FalseTok, Root, text, true) else Emit(Invalid, F4, text, true)
    case N1 => Word(c, 'u', N2, N1, text)
    case N2 => Word(c, 'l', N3, N2, text)
    case N3 => if c == 'l' then Emit(NullTok, Root, text, true) else Emit(Invalid, N3, text, true)
    case _ => NumberStep(s, text, c)
  }

  // The states that write into the text.
  predicate NeedsText(s: LexState) {
    s.InString? || s.Escape? || s.U1? || s.U2? || s.U3? || s.U4?
    || s.Minus? || s.Zero? || s.Int? || s.FracStart? || s.Frac? || s.ExpStart? || s.ExpSign? || s.Exp?
  }

  datatype Lexed = Lexed(tok: Tok, at: nat, state: LexState, text: string)

  // The next token of buffer from position p on.
  function Lex(buffer: string, p: nat, s: LexState, text: string): (r: Lexed)
    requires p <= |buffer|
    ensures p <= r.at <= |buffer|
    ensures r.at > p || r.tok.More? || r.tok.Invalid? || (!s.Root? && r.state.Root?)
    decreases |buffer| - p
  {
    if p == |buffer| then Lexed(More, p, s, text)
    else
      match LexStep(s, text, buffer[p])
      case Go(s1, text1) => Lex(buffer, p + 1, s1, text1)
      case Emit(tok, s1, text1, taken) => Lexed(tok, if taken then p + 1 else p, s1, text1)
  }

  // What stands in buffer from position p on.
  predicate At(buffer: string, p: nat, w: string) { p + |w| <= |buffer| && buffer[p..p + |w|] == w }

  // ---------- strings ----------

  // The texts that may stand between the quotes of a string.
  predicate StringText(s: string)
    decreases |s|
  {
    s == ""
    || (if s[0] == '\\' then
          |s| >= 2 && (if s[1] == 'u' then Hex4(s[2..]) && StringText(s[6..]) else
            Literal(s[1]) != ""
            && StringText(s[2..]))
        else s[0] != '"' && s[0] >= ' ' && StringText(s[1..]))
  }

  lemma LexGo(buffer: string, p: nat, s: LexState, text: string, s1: LexState, text1: string)
    requires p < |buffer| && LexStep(s, text, buffer[p]) == Go(s1, text1)
    ensures Lex(buffer, p, s, text) == Lex(buffer, p + 1, s1, text1)
  {}

  lemma LexUnicode(buffer: string, p: nat, text: string, body: string)
    requires At(buffer, p, body) && |body| >= 4 && Hex4(body)
    ensures Lex(buffer, p, U1, text) == Lex(buffer, p + 4, InString, text + body[..4])
  {
    hide Lex, HexValue;
    assert buffer[p] == body[0] && buffer[p + 1] == body[1] && buffer[p + 2] == body[2] && buffer[p + 3] == body[3];
    LexGo(buffer, p, U1, text, U2, text + [body[0]]);
    LexGo(buffer, p + 1, U2, text + [body[0]], U3, text + [body[0]] + [body[1]]);
    LexGo(buffer, p + 2, U3, text + [body[0]] + [body[1]], U4, text + [body[0]] + [body[1]] + [body[2]]);
    LexGo(buffer, p + 3, U4, text + [body[0]] + [body[1]] + [body[2]], InString,
      text + [body[0]] + [body[1]] + [body[2]] + [body[3]]);
    assert text + [body[0]] + [body[1]] + [body[2]] + [body[3]] == text + body[..4];
  }

  lemma AtRest(buffer: string, p: nat, w: string, k: nat)
    requires At(buffer, p, w) && k <= |w|
    ensures At(buffer, p + k, w[k..])
  {
    assert buffer[p + k..p + |w|] == buffer[p..p + |w|][k..];
  }

  lemma Regroup(text: string, body: string, k: nat)
    requires k <= |body|
    ensures text + body[..k] + body[k..] == text + body
  {}

  // A string body and its closing quote are one token.
  lemma {:induction false} LexStringBody(buffer: string, p: nat, text: string, body: string)
    requires At(buffer, p, body + "\"") && StringText(body)
    ensures Lex(buffer, p, InString, text) == Lexed(StringTok, p + |body| + 1, Root, text + body)
    decreases |body|
  {
    hide Lex, HexValue, Literal;
    if body == "" {
      assert buffer[p..p + 1] == "\"" && buffer[p] == buffer[p..p + 1][0];
      assert text + body == text;
      LexEnd(buffer, p, text);
    } else {
      assert buffer[p] == (body + "\"")[0] == body[0];
      if body[0] != '\\' {
        LexGo(buffer, p, InString, text, InString, text + [body[0]]);
        assert text + [body[0]] == text + body[..1];
        StringRest(buffer, p, text, body, 1);
      } else {
        assert buffer[p + 1] == (body + "\"")[1] == body[1];
        LexGo(buffer, p, InString, text, Escape, text + [body[0]]);
        if body[1] == 'u' {
          LexGo(buffer, p + 1, Escape, text + [body[0]], U1, text + [body[0]] + [body[1]]);
          AtRest(buffer, p, body + "\"", 2);
          assert (body + "\"")[2..] == body[2..] + "\"";
          LexUnicode(buffer, p + 2, text + [body[0]] + [body[1]], body[2..] + "\"");
          assert text + [body[0]] + [body[1]] + (body[2..] + "\"")[..4] == text + body[..6];
          StringRest(buffer, p, text, body, 6);
        } else {
          LexGo(buffer, p + 1, Escape, text + [body[0]], InString, text + [body[0]] + [body[1]]);
          assert text + [body[0]] + [body[1]] == text + body[..2];
          StringRest(buffer, p, text, body, 2);
        }
      }
    }
  }

  lemma LexEnd(buffer: string, p: nat, text: string)
    requires p < |buffer| && buffer[p] == '"'
    ensures Lex(buffer, p, InString, text) == Lexed(StringTok, p + 1, Root, text)
  {}

  lemma {:induction false} StringRest(buffer: string, p: nat, text: string, body: string, k: nat)
    requires At(buffer, p, body + "\"") && 0 < k <= |body| && StringText(body[k..])
    ensures Lex(buffer, p + k, InString, text + body[..k]) == Lexed(StringTok, p + |body| + 1, Root, text + body)
    decreases |body|, 0
  {
    hide Lex, StringText;
    AtRest(buffer, p, body + "\"", k);
    assert (body + "\"")[k..] == body[k..] + "\"";
    LexStringBody(buffer, p + k, text + body[..k], body[k..]);
    Regroup(text, body, k);
  }

  lemma LexString(buffer: string, p: nat, text: string, body: string)
    requires At(buffer, p, "\"" + body + "\"") && StringText(body)
    ensures Lex(buffer, p, Root, text) == Lexed(StringTok, p + |body| + 2, Root, body)
  {
    hide Lex, StringText, LexStep;
    var w := "\"" + body + "\"";
    AtRest(buffer, p, w, 0);
    assert buffer[p] == buffer[p..p + |w|][0] == w[0];
    AtRest(buffer, p, w, 1);
    assert w[1..] == body + "\"";
    LexQuote(buffer, p, text);
    LexStringBody(buffer, p + 1, "", body);
    assert "" + body == body;
  }

  lemma LexQuote(buffer: string, p: nat, text: string)
    requires p < |buffer| && buffer[p] == '"'
    ensures Lex(buffer, p, Root, text) == Lex(buffer, p + 1, InString, "")
  {
    hide Lex;
    LexGo(buffer, p, Root, text, InString, "");
  }

  // ---------- the escaped form of a text ----------

  lemma EscapedByteText(c: char, rest: string)
    requires c != NUL && c < 256 as char && StringText(rest)
    ensures StringText(EscapedByte(c) + rest)
  {
    var e := EscapedByte(c);
    var s := e + rest;
    if |e| == 1 {
      assert s[1..] == rest;
    } else if |e| == 2 {
      assert s[2..] == rest;
      assert s[0] == '\\' && s[1] == e[1] && Literal(e[1]) != "" && e[1] != 'u';
    } else {
      assert s[6..] == rest;
      DigitValue(c as int / 16);
      DigitValue(c as int % 16);
      assert s[2..][..4] == e[2..];
      assert s[2] == '0' && s[3] == '0' && s[4] == e[4] && s[5] == e[5];
      assert Hex4(s[2..]);
    }
  }

  lemma {:induction false} EscapedText(s: string)
    requires Plain(s)
    ensures StringText(Escaped(s))
    decreases |s|
  {
    hide EscapedByte;
    if s != "" {
      assert s == [s[0]] + s[1..];
      EscapedText(s[1..]);
      EscapedFirst(s[0], s[1..]);
      EscapedByteText(s[0], Escaped(s[1..]));
    }
  }

  // The quoted escaped form of any text is exactly one string token, whose
  // text is that form.
  lemma EscapedIsOneToken(s: string)
    requires Plain(s)
    ensures var w := "\"" + Escaped(s) + "\""; Lex(w, 0, Root, "") == Lexed(StringTok, |w|, Root, Escaped(s))
  {
    hide Lex, StringText;
    EscapedText(s);
    var w := "\"" + Escaped(s) + "\"";
    assert w[0..0 + |w|] == w;
    LexString(w, 0, "", Escaped(s));
  }

  // ---------- numbers ----------

  predicate Digits(s: string) { forall i :: 0 <= i < |s| ==> IsDigit(s[i]) }

  // The grammar of section 6 of RFC 8259.
  predicate IsInt(s: string) { s == "0" || (s != "" && '1' <= s[0] <= '9' && Digits(s)) }

  predicate IsFrac(s: string) { |s| >= 2 && s[0] == '.' && Digits(s[1..]) }

  predicate IsExp(s: string) {
    && |s| >= 2 && IsE(s[0])
    && (if s[1] == '-' || s[1] == '+' then |s| >= 3 && Digits(s[2..]) else Digits(s[1..]))
  }

  predicate NumberParts(minus: string, whole: string, frac: string, exp: string) {
    (minus == "" || minus == "-") && IsInt(whole) && (frac == "" || IsFrac(frac)) && (exp == "" || IsExp(exp))
  }

  ghost predicate NumberText(s: string) {
    exists minus, whole, frac, exp :: NumberParts(minus, whole, frac, exp) && s == minus + whole + frac + exp
  }

  // The states in which a number may end.
  predicate EndState(s: LexState) { s.Zero? || s.Int? || s.Frac? || s.Exp? }

  predicate Numeric(s: LexState) { EndState(s) || s.Minus? || s.FracStart? || s.ExpStart? || s.ExpSign? }

  // The next state of a number, Root where there is none.
  function Delta(s: LexState, c: char): LexState {
    if !Numeric(s) then Root
    else match NumberStep(s, "", c) case Go(t, _) => t case Emit(_, _, _, _) => Root
  }

  lemma DeltaGoes(s: LexState, c: char, text: string)
    requires Delta(s, c) != Root
    ensures Numeric(s) && Numeric(Delta(s, c)) && LexStep(s, text, c) == Go(Delta(s, c), text + [c])
  {}

  function After(s: LexState, w: string): LexState
    decreases |w|
  {
    if w == "" then s else After(Delta(s, w[0]), w[1..])
  }

  lemma {:induction false} AfterSum(s: LexState, a: string, b: string)
    ensures After(s, a + b) == After(After(s, a), b)
    decreases |a|
  {
    hide Delta;
    if a == "" {
      assert a + b == b;
    } else {
      assert (a + b)[1..] == a[1..] + b;
      AfterSum(Delta(s, a[0]), a[1..], b);
    }
  }

  lemma {:induction false} DeadStays(w: string)
    ensures After(Root, w) == Root
    decreases |w|
  {
    if w != "" { DeadStays(w[1..]); }
  }

  lemma {:induction false} DigitsStay(s: LexState, w: string)
    requires Digits(w) && (s.Int? || s.Frac? || s.Exp?)
    ensures After(s, w) == s
    decreases |w|
  {
    if w != "" { DigitsStay(s, w[1..]); }
  }

  lemma FracRuns(s: LexState, frac: string)
    requires (s.Zero? || s.Int?) && IsFrac(frac)
    ensures After(s, frac) == Frac
  {
    var rest := frac[1..];
    assert Delta(s, '.') == FracStart && Delta(FracStart, rest[0]) == Frac;
    DigitsStay(Frac, rest[1..]);
  }

  lemma ExpRuns(s: LexState, exp: string)
    requires (s.Zero? || s.Int? || s.Frac?) && IsExp(exp)
    ensures After(s, exp) == Exp
  {
    hide After;
    ExpDelta(s, exp);
    AfterOne(s, exp);
    AfterOne(ExpStart, exp[1..]);
    if exp[1] == '-' || exp[1] == '+' {
      assert exp[1..][1..] == exp[2..];
      AfterOne(ExpSign, exp[2..]);
      DigitsStay(Exp, exp[2..][1..]);
    } else {
      DigitsStay(Exp, exp[1..][1..]);
    }
  }

  lemma ExpDelta(s: LexState, exp: string)
    requires (s.Zero? || s.Int? || s.Frac?) && IsExp(exp)
    ensures Delta(s, exp[0]) == ExpStart
    ensures Delta(ExpStart, exp[1]) == if exp[1] == '-' || exp[1] == '+' then ExpSign else Exp
    ensures (exp[1] == '-' || exp[1] == '+') ==> Delta(ExpSign, exp[2]) == Exp
  {
    if exp[1] == '-' || exp[1] == '+' { assert exp[2..][0] == exp[2]; } else { assert exp[1..][0] == exp[1]; }
  }

  // The state after the first character of a number.
  function First(c: char): LexState {
    if c == '-' then Minus else if c == '0' then Zero else if '1' <= c <= '9' then Int else Root
  }

  lemma IntRuns(whole: string)
    requires IsInt(whole)
    ensures var s := After(First(whole[0]), whole[1..]); s.Zero? || s.Int?
    ensures Delta(Minus, whole[0]) == First(whole[0])
  {
    if whole != "0" { DigitsStay(Int, whole[1..]); }
  }

  lemma NumberRuns(s: string)
    requires NumberText(s)
    ensures s != "" && First(s[0]) != Root && EndState(After(First(s[0]), s[1..]))
  {
    hide After, Delta;
    var minus, whole, frac, exp :| NumberParts(minus, whole, frac, exp) && s == minus + whole + frac + exp;
    IntRuns(whole);
    var t := After(First(whole[0]), whole[1..]);
    if frac != "" { FracRuns(t, frac); } else { AfterNone(t); }
    var u := After(t, frac);
    if exp != "" { ExpRuns(u, exp); } else { AfterNone(u); }
    AfterSum(t, frac, exp);
    AfterSum(First(whole[0]), whole[1..], frac + exp);
    if minus == "" {
      assert s[1..] == whole[1..] + (frac + exp);
    } else {
      assert s[1..] == whole + (frac + exp);
      AfterOne(Minus, whole + (frac + exp));
      assert (whole + (frac + exp))[1..] == whole[1..] + (frac + exp);
    }
  }

  lemma AfterNone(s: LexState)
    ensures After(s, "") == s
  {}

  lemma AfterOne(s: LexState, w: string)
    requires w != ""
    ensures After(s, w) == After(Delta(s, w[0]), w[1..])
  {}

  lemma {:induction false} LexAfter(buffer: string, p: nat, s: LexState, text: string, w: string)
    requires At(buffer, p, w) && Numeric(s) && Numeric(After(s, w))
    ensures Lex(buffer, p, s, text) == Lex(buffer, p + |w|, After(s, w), text + w)
    decreases |w|
  {
    hide Lex, Delta, Numeric, LexStep;
    if w == "" {
      assert text + w == text;
    } else {
      assert buffer[p] == w[0];
      if Delta(s, w[0]) == Root {
        DeadStays(w[1..]);
        assert !Numeric(Root) by { RootIsNone(); }
      } else {
        DeltaGoes(s, w[0], text);
        LexGo(buffer, p, s, text, Delta(s, w[0]), text + [w[0]]);
        AtRest(buffer, p, w, 1);
        LexAfter(buffer, p + 1, Delta(s, w[0]), text + [w[0]], w[1..]);
        assert text + [w[0]] + w[1..] == text + w;
      }
    }
  }

  lemma RootIsNone()
    ensures !Numeric(Root)
  {}

  // A number is one token; white space that ends it is taken.
  lemma LexNumber(buffer: string, p: nat, text: string, w: string)
    requires At(buffer, p, w) && NumberText(w) && p + |w| < |buffer| && Delimits(buffer[p + |w|])
    ensures Lex(buffer, p, Root, text) ==
            Lexed(NumberTok, p + |w| + (if IsSpace(buffer[p + |w|]) then 1 else 0), Root, w)
  {
    hide Lex, After, Delta, NumberText;
    NumberRuns(w);
    assert buffer[p] == w[0];
    LexGo(buffer, p, Root, text, First(w[0]), [w[0]]);
    AtRest(buffer, p, w, 1);
    LexAfter(buffer, p + 1, First(w[0]), [w[0]], w[1..]);
    assert [w[0]] + w[1..] == w;
    LexDelimiter(buffer, p + |w|, After(First(w[0]), w[1..]), w);
  }

  lemma LexDelimiter(buffer: string, p: nat, s: LexState, text: string)
    requires p < |buffer| && EndState(s) && Delimits(buffer[p])
    ensures Lex(buffer, p, s, text) == Lexed(NumberTok, p + (if IsSpace(buffer[p]) then 1 else 0), Root, text)
  {}

  // ---------- words and signs ----------

  lemma LexTrue(buffer: string, p: nat, text: string)
    requires At(buffer, p, "true")
    ensures Lex(buffer, p, Root, text) == Lexed(TrueTok, p + 4, Root, text)
  {
    hide Lex, HexValue;
    AtChars(buffer, p, "true");
    LexGo(buffer, p, Root, text, T1, text);
    LexGo(buffer, p + 1, T1, text, T2, text);
    LexGo(buffer, p + 2, T2, text, T3, text);
    LexLast(buffer, p + 3, T3, text);
  }

  lemma LexFalse(buffer: string, p: nat, text: string)
    requires At(buffer, p, "false")
    ensures Lex(buffer, p, Root, text) == Lexed(FalseTok, p + 5, Root, text)
  {
    hide Lex, HexValue;
    AtChars(buffer, p, "false");
    LexGo(buffer, p, Root, text, F1, text);
    LexGo(buffer, p + 1, F1, text, F2, text);
    LexGo(buffer, p + 2, F2, text, F3, text);
    LexGo(buffer, p + 3, F3, text, F4, text);
    LexLast(buffer, p + 4, F4, text);
  }

  lemma LexNull(buffer: string, p: nat, text: string)
    requires At(buffer, p, "null")
    ensures Lex(buffer, p, Root, text) == Lexed(NullTok, p + 4, Root, text)
  {
    hide Lex, HexValue;
    AtChars(buffer, p, "null");
    LexGo(buffer, p, Root, text, N1, text);
    LexGo(buffer, p + 1, N1, text, N2, text);
    LexGo(buffer, p + 2, N2, text, N3, text);
    LexLast(buffer, p + 3, N3, text);
  }

  lemma AtChars(buffer: string, p: nat, w: string)
    requires At(buffer, p, w)
    ensures forall k :: p <= k < p + |w| ==> buffer[k] == w[k - p]
  {
    forall k | p <= k < p + |w| ensures buffer[k] == w[k - p] { assert buffer[p..p + |w|][k - p] == w[k - p]; }
  }

  lemma LexLast(buffer: string, p: nat, s: LexState, text: string)
    requires p < |buffer| && ((s.T3? && buffer[p] == 'e') || (s.F4? && buffer[p] == 'e') || (s.N3? && buffer[p] == 'l'))
    ensures Lex(buffer, p, s, text) == Lexed(if s.T3? then TrueTok else if s.F4? then FalseTok else NullTok, p + 1,
            Root, text)
  {}

  function SignTok(c: char): Tok {
    if c == '{' then BeginObject else if c == '}' then EndObject else if c == '[' then BeginArray else if c == ']'
      then EndArray
    else if c == ':' then NameSeparator else if c == ',' then ValueSeparator else Invalid
  }

  lemma LexSign(buffer: string, p: nat, text: string)
    requires p < |buffer| && SignTok(buffer[p]) != Invalid
    ensures Lex(buffer, p, Root, text) == Lexed(SignTok(buffer[p]), p + 1, Root, text)
  {}
}
