// The grammar of JSON texts (RFC 8259), with the two liberties that the parser
// of 3rd/mjson/json.c takes: a comma may end an array, and a token may be left
// unfinished after the document.
module JsonGrammar {
  import opened JsonValue

  // ---------- characters and tokens (sections 2, 6 and 7) ----------

  predicate Space(c: char) { c == ' ' || c == '\t' || c == '\n' || c == '\r' }

  predicate Spaces(s: string) { forall i :: 0 <= i < |s| ==> Space(s[i]) }

  predicate Digit(c: char) { '0' <= c <= '9' }

  predicate HexDigit(c: char) { '0' <= c <= '9' || 'a' <= c <= 'f' || 'A' <= c <= 'F' }

  predicate Escapable(c: char) {
    c == '"' || c == '\\' || c == '/' || c == 'b' || c == 'f' || c == 'n' || c == 'r' || c == 't'
  }

  // What may stand between the quotes of a string.
  predicate StringBody(s: string)
    decreases |s|
  {
    s == ""
    || (if s[0] != '\\' then s[0] != '"' && s[0] >= ' ' && StringBody(s[1..])
        else if |s| >= 2 && s[1] == 'u' then
          |s| >= 6 && HexDigit(s[2]) && HexDigit(s[3]) && HexDigit(s[4]) && HexDigit(s[5]) && StringBody(s[6..])
        else |s| >= 2 && Escapable(s[1]) && StringBody(s[2..]))
  }

  predicate AllDigits(s: string) { s != "" && forall i :: 0 <= i < |s| ==> Digit(s[i]) }

  predicate Whole(s: string) { s == "0" || (AllDigits(s) && s[0] != '0') }

  predicate Fraction(s: string) { s == "" || (s[0] == '.' && AllDigits(s[1..])) }

  predicate Power(s: string) {
    s == "" || ((s[0] == 'e' || s[0] == 'E')
                && (AllDigits(s[1..]) || (|s| >= 2 && (s[1] == '+' || s[1] == '-') && AllDigits(s[2..]))))
  }

  predicate NumberOf(s: string, minus: string, whole: string, frac: string, exp: string) {
    && (minus == "" || minus == "-") && Whole(whole) && Fraction(frac) && Power(exp)
    && s == minus + whole + frac + exp
  }

  ghost predicate NumberForm(s: string) { exists minus, whole, frac, exp :: NumberOf(s, minus, whole, frac, exp) }

  // ---------- values as they are written ----------

  // The white space in front of each sign and each value is part of the layout:
  // open in front of a label, colon and gap around its colon, comma in front of
  // the comma that separates a child from the one before, close in front of the
  // closing bracket, trailing in front of a comma that nothing follows, which
  // RFC 8259 does not have.
  datatype Layout = Layout(ty: Type, text: string, kids: seq<Kid>, trailing: Comma, close: string)

  datatype Comma = NoComma | Comma(space: string)

  datatype Kid = Kid(comma: string, open: string, key: string, colon: string, gap: string, value: Layout)

  function Write(x: Layout): string
    decreases x, 1
  {
    match x.ty
    case String => "\"" + x.text + "\""
    case Number => x.text
    case True => "true"
    case False => "false"
    case Null => "null"
    case Object => "{" + WriteKids(x, |x.kids|) + x.close + "}"
    case Array => "[" + WriteKids(x, |x.kids|) + Trailing(x) + x.close + "]"
  }

  function Trailing(x: Layout): string { if x.trailing.Comma? then x.trailing.space + "," else "" }

  // The first n children.
  function WriteKids(x: Layout, n: nat): string
    requires n <= |x.kids|
    decreases x, 0, n
  {
    if n == 0 then ""
    else
      var k := x.kids[n - 1];
      WriteKids(x, n - 1) + (if n == 1 then "" else k.comma + ",") + Tag(k, x.ty) + k.gap + Write(k.value)
  }

  // The label of a pair and its colon.
  function Tag(k: Kid, ty: Type): string {
    if ty.Object? then k.open + ("\"" + k.key + "\"") + (k.colon + ":") else ""
  }

  ghost predicate Proper(x: Layout)
    decreases x
  {
    && (x.trailing.Comma? ==> x.ty.Array? && x.kids != [] && Spaces(x.trailing.space))
    && match x.ty
       case String => x.kids == [] && StringBody(x.text)
       case Number => x.kids == [] && NumberForm(x.text)
       case Object => x.text == "" && Spaces(x.close) && forall i :: 0 <= i < |x.kids| ==> ProperKid(x.kids[i])
       case Array => x.text == "" && Spaces(x.close) && forall i :: 0 <= i < |x.kids| ==> ProperKid(x.kids[i])
       case _ => x.kids == [] && x.text == ""
  }

  ghost predicate ProperKid(k: Kid)
    decreases k
  {
    Spaces(k.comma) && Spaces(k.open) && Spaces(k.colon) && Spaces(k.gap) && StringBody(k.key) && Proper(k.value)
  }

  // The tree that is meant.
  function Meaning(x: Layout): Tree
    decreases x, 1
  {
    Tree(x.ty, x.text, Meanings(x, |x.kids|))
  }

  function Meanings(x: Layout, n: nat): (s: seq<Tree>)
    requires n <= |x.kids|
    ensures |s| == n
    decreases x, 0, n
  {
    if n == 0 then []
    else
      var k := x.kids[n - 1];
      var v := Meaning(k.value);
      Meanings(x, n - 1) + [if x.ty.Object? then Tree(String, k.key, [v]) else v]
  }

  // ---------- documents ----------

  predicate ProperPrefix(w: string, whole: string) { |w| < |whole| && whole[..|w|] == w }

  // The beginning of a word, of a string, or of a number.
  ghost predicate Unfinished(w: string) {
    w != ""
    && (ProperPrefix(w, "true") || ProperPrefix(w, "false") || ProperPrefix(w, "null")
        || (exists body :: StringBody(body) && ProperPrefix(w, "\"" + body + "\""))
        || exists rest :: NumberForm(w + rest))
  }

  ghost predicate LooseEnd(tail: string) {
    Spaces(tail) || exists k :: 0 <= k <= |tail| && Spaces(tail[..k]) && Unfinished(tail[k..])
  }

  // text is the object x, with white space around it, and perhaps a token that
  // has only begun.
  ghost predicate Written(text: string, lead: string, x: Layout, tail: string) {
    Spaces(lead) && Proper(x) && x.ty.Object? && LooseEnd(tail) && text == lead + Write(x) + tail
  }

  ghost predicate Spells(text: string, t: Tree) {
    exists lead, x, tail :: Written(text, lead, x, tail) && Meaning(x) == t
  }
}
