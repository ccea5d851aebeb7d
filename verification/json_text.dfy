// The growable text buffer of 3rd/mjson/json.c, and its escaper and unescaper.
// Characters are bytes, below 256; a text is a C string without its final NUL.
module JsonText {
  const NUL: char := 0 as char

  predicate Plain(s: string) { forall i :: 0 <= i < |s| ==> s[i] != NUL && s[i] < 256 as char }

  const INC_STEP: nat := 5
  const DEFAULT_LENGTH: nat := 8

  // rcstring
  class Rcs {
    var text: array<char>
    var length: nat
    var max: nat

    predicate Valid()
      reads this, text
    {
      length <= max && text.Length == max + 1 && text[length] == NUL
    }

    function Contents(): string
      reads this, text
      requires Valid()
    {
      text[..length]
    }

    // rcs_create
    constructor (size: nat)
      ensures Valid() && fresh(text) && Contents() == "" && max == size
    {
      text := new char[size + 1];
      length := 0;
      max := size;
      new;
      text[0] := NUL;
    }

    // rcs_resize
    method Resize(size: nat)
      requires Valid() && size >= length
      modifies this`text, this`max
      ensures fresh(text) && text.Length == size + 1 && max == size
      ensures text[..length] == old(text[..length])
    {
      var larger := new char[size + 1];
      var i := 0;
      while i < length
        modifies larger
        invariant i <= length && larger[..i] == text[..i]
      {
        larger[i] := text[i];
        i := i + 1;
      }
      text := larger;
      max := size;
      text[max] := NUL;
    }

    // rcs_catc
    method Catc(c: char)
      requires Valid()
      modifies this, text
      ensures Valid() && Contents() == old(Contents()) + [c]
      ensures text == old(text) || fresh(text)
    {
      if max <= length { Resize(max + INC_STEP); }
      text[length] := c;
      length := length + 1;
      text[length] := NUL;
    }

    // rcs_catcs, for a whole C string.
    method Catcs(s: string)
      requires Valid()
      modifies this, text
      ensures Valid() && Contents() == old(Contents()) + s
      ensures text == old(text) || fresh(text)
    {
      if max < length + |s| { Resize(length + |s| + INC_STEP); }
      ghost var before := text[..length];
      var i := 0;
      while i < |s|
        modifies text
        invariant i <= |s| && text[..length + i] == before + s[..i]
      {
        text[length + i] := s[i];
        i := i + 1;
      }
      text[length + |s|] := NUL;
      length := length + |s|;
      assert s[..|s|] == s;
    }

    // rcs_unwrap, which cuts the text at its first NUL.
    method Unwrap() returns (out: string)
      requires Valid()
      ensures |out| <= length && out == Contents()[..|out|] && NUL !in out
      ensures NUL !in Contents() ==> out == Contents()
    {
      var n := 0;
      while text[n] != NUL
        invariant n <= length && NUL !in text[..n]
        decreases length - n
      {
        n := n + 1;
      }
      out := text[..n];
    }
  }

  // ---------- escaping ----------

  function HexDigit(n: nat): char
    requires n < 16
  {
    if n < 10 then ('0' as int + n) as char else ('a' as int + n - 10) as char
  }

  // What the escaper writes for one byte.
  function EscapedByte(c: char): string {
    if c == '\\' then "\\\\"
    else if c == '"' then "\\\""
    else if c == '/' then "\\/"
    else if c == 8 as char then "\\b"
    else if c == 12 as char then "\\f"
    else if c == '\n' then "\\n"
    else if c == '\r' then "\\r"
    else if c == '\t' then "\\t"
    else if c < 32 as char then "\\u00" + [HexDigit(c as int / 16), HexDigit(c as int % 16)]
    else [c]
  }

  function Escaped(s: string): string {
    if s == "" then "" else Escaped(s[..|s| - 1]) + EscapedByte(s[|s| - 1])
  }

  // ---------- unescaping ----------

  // The value of a hexadecimal digit, or -1.
  function HexValue(c: char): int {
    if '0' <= c <= '9' then c as int - '0' as int
    else if 'a' <= c <= 'f' then c as int - 'a' as int + 10
    else if 'A' <= c <= 'F' then c as int - 'A' as int + 10
    else -1
  }

  predicate Hex4(s: string) {
    |s| >= 4 && HexValue(s[0]) >= 0 && HexValue(s[1]) >= 0 && HexValue(s[2]) >= 0 && HexValue(s[3]) >= 0
  }

  // strtol of four digits
  function Hex4Value(s: string): nat
    requires Hex4(s)
  {
    4096 * HexValue(s[0]) + 256 * HexValue(s[1]) + 16 * HexValue(s[2]) + HexValue(s[3])
  }

  // The UTF-8 form of a code point.
  function Utf8(u: nat): (b: string)
    requires u < 0x110000
    ensures 1 <= |b| <= 4 && forall i :: 0 <= i < |b| ==> b[i] < 256 as char
  {
    if u < 0x80 then [u as char]
    else if u < 0x800 then [(0xC0 + u / 64) as char, (0x80 + u % 64) as char]
    else if u < 0x10000 then [(0xE0 + u / 4096) as char, (0x80 + u / 64 % 64) as char, (0x80 + u % 64) as char]
    else [(0xF0 + u / 262144) as char, (0x80 + u / 4096 % 64) as char, (0x80 + u / 64 % 64) as char,
      (0x80 + u % 64) as char]
  }

  // One unit of escaped text: how many characters it takes and what it stands
  // for; None where the unescaper has no answer.
  datatype Unit = None | Some(taken: nat, bytes: string)

  predicate High(u: nat) { 0xD800 <= u <= 0xDBFF }

  predicate Low(u: nat) { 0xDC00 <= u <= 0xDFFF }

  function Literal(c: char): string {
    if c == '"' || c == '\\' || c == '/' then [c]
    else if c == 'b' then [8 as char]
    else if c == 'f' then [12 as char]
    else if c == 'n' then "\n"
    else if c == 'r' then "\r"
    else if c == 't' then "\t"
    else ""
  }

  function Unicode(s: string): Unit {
    if !Hex4(s) then None
    else
      var u := Hex4Value(s);
      if !High(u) then Some(6, Utf8(u))
      else if |s| >= 10 && s[4] == '\\' && s[5] == 'u' && Hex4(s[6..]) && Low(Hex4Value(s[6..]))
      then Some(12, Utf8(Pair(u, Hex4Value(s[6..]))))
      else None
  }

  // The code point of a surrogate pair.
  function Pair(high: nat, low: nat): (u: nat)
    requires High(high) && Low(low)
    ensures 0x10000 <= u < 0x110000
  {
    (high - 0xD800) * 1024 + (low - 0xDC00) + 0x10000
  }

  // The unit that a text begins with.
  function FirstUnit(s: string): (u: Unit)
    requires s != ""
    ensures u.Some? ==> 0 < u.taken <= |s| && 0 < |u.bytes| <= u.taken
  {
    if s[0] != '\\' then Some(1, [s[0]])
    else if |s| == 1 then None
    else if s[1] == 'u' then Unicode(s[2..])
    else if Literal(s[1]) == "" then None
    else Some(2, Literal(s[1]))
  }

  // Texts that are in escaped form throughout.
  predicate WellEscaped(s: string)
    decreases |s|
  {
    s == "" || (FirstUnit(s).Some? && WellEscaped(s[FirstUnit(s).taken..]))
  }

  function Unescaped(s: string): string
    requires WellEscaped(s)
    decreases |s|
  {
    if s == "" then "" else FirstUnit(s).bytes + Unescaped(s[FirstUnit(s).taken..])
  }

  // ---------- the two operations ----------

  lemma EscapedMore(s: string, i: nat)
    requires i < |s|
    ensures Escaped(s[..i + 1]) == Escaped(s[..i]) + EscapedByte(s[i])
  {
    assert s[..i + 1][..i] == s[..i];
  }

  lemma {:induction false} EscapedPlain(s: string)
    requires Plain(s)
    ensures Plain(Escaped(s))
    decreases |s|
  {
    if s != "" { EscapedPlain(s[..|s| - 1]); }
  }

  // json_escape
  method Escape(text: string) returns (out: string)
    requires Plain(text)
    ensures out == Escaped(text)
  {
    var output := new Rcs(|text|);
    var i := 0;
    while i < |text|
      invariant i <= |text| && output.Valid() && output.Contents() == Escaped(text[..i])
      invariant fresh(output) && fresh(output.text)
    {
      EscapedMore(text, i);
      var c := text[i];
      if c == '\\' {
        output.Catcs("\\\\");
      } else if c == '"' {
        output.Catcs("\\\"");
      } else if c == '/' {
        output.Catcs("\\/");
      } else if c == 8 as char {
        output.Catcs("\\b");
      } else if c == 12 as char {
        output.Catcs("\\f");
      } else if c == '\n' {
        output.Catcs("\\n");
      } else if c == '\r' {
        output.Catcs("\\r");
      } else if c == '\t' {
        output.Catcs("\\t");
      } else if c < 32 as char {
        output.Catcs("\\u00" + [HexDigit(c as int / 16), HexDigit(c as int % 16)]);
      } else {
        output.Catc(c);
      }
      i := i + 1;
    }
    assert text[..|text|] == text;
    EscapedPlain(text);
    out := output.Unwrap();
  }

  // One unit, read from position r on and written from position w on.
  method Take(text: string, r: nat, result: array<char>, w: nat) returns (r1: nat, w1: nat)
    requires w <= r < |text| < result.Length && FirstUnit(text[r..]).Some?
    modifies result
    ensures var u := FirstUnit(text[r..]);
            r1 == r + u.taken && w1 == w + |u.bytes| && result[..w1] == old(result[..w]) + u.bytes
  {
    hide Utf8;
    ghost var rest := text[r..];
    if text[r] != '\\' {
      result[w] := text[r];
      return r + 1, w + 1;
    }
    if text[r + 1] == 'u' {
      assert text[r + 2..] == rest[2..];
      var u := Hex4Value(text[r + 2..]);
      if !High(u) {
        w1 := Encode(result, w, u);
        return r + 6, w1;
      }
      assert text[r + 8..] == rest[2..][6..];
      w1 := Encode(result, w, Pair(u, Hex4Value(text[r + 8..])));
      return r + 12, w1;
    }
    var c := text[r + 1];
    result[w] := if c == '"' || c == '\\' || c == '/' then c else if c == 'b' then 8 as char else if c == 'f'
      then 12 as char
                 else if c == 'n' then '\n' else if c == 'r' then '\r' else '\t';
    return r + 2, w + 1;
  }

  // json_unescape.  The write cursor never passes the read cursor.
  method Unescape(text: string) returns (result: array<char>, w: nat)
    requires Plain(text) && WellEscaped(text)
    ensures fresh(result) && result.Length == |text| + 1
    ensures w <= |text| && result[..w] == Unescaped(text) && result[w] == NUL
  {
    hide FirstUnit;
    result := new char[|text| + 1];
    var r := 0;
    w := 0;
    assert text[0..] == text;
    while r < |text|
      modifies result
      invariant w <= r <= |text| && WellEscaped(text[r..])
      invariant result[..w] + Unescaped(text[r..]) == Unescaped(text)
      decreases |text| - r
    {
      ghost var unit, before, rest := FirstUnit(text[r..]), result[..w], text[r..];
      assert rest[unit.taken..] == text[r + unit.taken..];
      r, w := Take(text, r, result, w);
      Joined(before, unit.bytes, Unescaped(text[r..]));
    }
    result[w] := NUL;
  }

  lemma Joined(a: string, b: string, c: string)
    ensures (a + b) + c == a + (b + c)
  {}

  // The bytes of a code point, written from position w on.
  method Encode(result: array<char>, w: nat, u: nat) returns (after: nat)
    requires u < 0x110000 && w + |Utf8(u)| <= result.Length
    modifies result
    ensures after == w + |Utf8(u)| && result[..after] == old(result[..w]) + Utf8(u)
    ensures forall k :: after <= k < result.Length ==> result[k] == old(result[k])
  {
    if u < 0x80 {
      result[w] := u as char;
      after := w + 1;
    } else if u < 0x800 {
      result[w] := (0xC0 + u / 64) as char;
      result[w + 1] := (0x80 + u % 64) as char;
      after := w + 2;
    } else if u < 0x10000 {
      result[w] := (0xE0 + u / 64 / 64) as char;
      result[w + 1] := (0x80 + u / 64 % 64) as char;
      result[w + 2] := (0x80 + u % 64) as char;
      after := w + 3;
    } else {
      result[w] := (0xF0 + u / 64 / 64 / 64) as char;
      result[w + 1] := (0x80 + u / 64 / 64 % 64) as char;
      result[w + 2] := (0x80 + u / 64 % 64) as char;
      result[w + 3] := (0x80 + u % 64) as char;
      after := w + 4;
    }
  }

  // ---------- one undoes the other ----------

  // The escaped form of a byte is one unit, which stands for that byte.
  lemma ByteUnit(c: char, rest: string)
    requires c != NUL && c < 256 as char
    ensures FirstUnit(EscapedByte(c) + rest) == Some(|EscapedByte(c)|, [c])
  {
    var s := EscapedByte(c) + rest;
    if c < 32 as char && |EscapedByte(c)| == 6 { ControlUnit(c, rest); }
  }

  lemma ControlUnit(c: char, rest: string)
    requires 0 < c as int < 32 && |EscapedByte(c)| == 6
    ensures Unicode((EscapedByte(c) + rest)[2..]) == Some(6, [c])
  {
    var s := (EscapedByte(c) + rest)[2..];
    assert s[0] == '0' && s[1] == '0' && s[2] == HexDigit(c as int / 16) && s[3] == HexDigit(c as int % 16);
    DigitValue(c as int / 16);
    DigitValue(c as int % 16);
    assert Hex4Value(s) == c as int;
  }

  lemma DigitValue(n: nat)
    requires n < 16
    ensures HexValue(HexDigit(n)) == n
  {}

  lemma {:induction false} EscapedFirst(c: char, s: string)
    ensures Escaped([c] + s) == EscapedByte(c) + Escaped(s)
    decreases |s|
  {
    hide EscapedByte;
    if s == "" {
      assert [c] + s == [c];
      assert [c][..0] == "";
    } else {
      EscapedFirst(c, s[..|s| - 1]);
      assert ([c] + s)[..|s|] == [c] + s[..|s| - 1];
      Joined(EscapedByte(c), Escaped(s[..|s| - 1]), EscapedByte(s[|s| - 1]));
    }
  }

  // Unescaping undoes escaping.
  lemma {:induction false} EscapeUndone(s: string)
    requires Plain(s)
    ensures WellEscaped(Escaped(s)) && Unescaped(Escaped(s)) == s
    decreases |s|
  {
    hide FirstUnit, EscapedByte;
    if s != "" {
      var c, rest := s[0], s[1..];
      assert s == [c] + rest;
      EscapeUndone(rest);
      EscapedFirst(c, rest);
      ByteUnit(c, Escaped(rest));
      assert (EscapedByte(c) + Escaped(rest))[|EscapedByte(c)|..] == Escaped(rest);
    }
  }

  // The escaper and the unescaper as a caller sees them.
  method EscapeAndBack(s: string) returns (out: string)
    requires Plain(s)
    ensures out == s
  {
    EscapeUndone(s);
    EscapedPlain(s);
    var escaped := Escape(s);
    var result, w := Unescape(escaped);
    out := result[..w];
  }

  // ---------- what the unescaper writes is UTF-8 ----------

  function Tail(c: char): int { if 0x80 <= c as int < 0xC0 then c as int - 0x80 else -1 }

  // The code point that UTF-8 bytes spell, by the table of section 3 of RFC 3629.
  function CodePoint(b: string): int {
    if |b| == 1 && b[0] as int < 0x80 then b[0] as int
    else if |b| == 2 && 0xC0 <= b[0] as int < 0xE0 && Tail(b[1]) >= 0 then (b[0] as int - 0xC0) * 64 + Tail(b[1])
    else if |b| == 3 && 0xE0 <= b[0] as int < 0xF0 && Tail(b[1]) >= 0 && Tail(b[2]) >= 0
    then (b[0] as int - 0xE0) * 4096 + Tail(b[1]) * 64 + Tail(b[2])
    else if |b| == 4 && 0xF0 <= b[0] as int < 0xF8 && Tail(b[1]) >= 0 && Tail(b[2]) >= 0 && Tail(b[3]) >= 0
    then (b[0] as int - 0xF0) * 262144 + Tail(b[1]) * 4096 + Tail(b[2]) * 64 + Tail(b[3])
    else -1
  }

  lemma Split(u: nat)
    ensures u / 4096 * 4096 + u / 64 % 64 * 64 + u % 64 == u
    ensures u / 262144 * 262144 + u / 4096 % 64 * 4096 + u / 64 % 64 * 64 + u % 64 == u
  {}

  lemma Spell2(u: nat)
    requires 0x80 <= u < 0x800
    ensures CodePoint(Utf8(u)) == u && |Utf8(u)| == 2
  {}

  lemma Spell3(u: nat)
    requires 0x800 <= u < 0x10000
    ensures CodePoint(Utf8(u)) == u && |Utf8(u)| == 3
  {
    Split(u);
    var b := Utf8(u);
    assert Tail(b[1]) == u / 64 % 64 && Tail(b[2]) == u % 64;
  }

  lemma Spell4(u: nat)
    requires 0x10000 <= u < 0x110000
    ensures CodePoint(Utf8(u)) == u && |Utf8(u)| == 4
  {
    Split(u);
    var b := Utf8(u);
    assert Tail(b[1]) == u / 4096 % 64 && Tail(b[2]) == u / 64 % 64 && Tail(b[3]) == u % 64;
  }

  // The bytes spell the code point, in as few bytes as they can.
  lemma Utf8IsRight(u: nat)
    requires u < 0x110000
    ensures CodePoint(Utf8(u)) == u
    ensures |Utf8(u)| == if u < 0x80 then 1 else if u < 0x800 then 2 else if u < 0x10000 then 3 else 4
  {
    hide Tail;
    if 0x80 <= u < 0x800 { Spell2(u); } else if 0x800 <= u < 0x10000 { Spell3(u); } else if 0x10000 <= u { Spell4(u); }
  }

  // ---------- escapes of code points ----------

  // A hexadecimal digit, in either case.
  function AnyDigit(n: nat, upper: bool): char
    requires n < 16
  {
    if n < 10 then ('0' as int + n) as char else if upper then ('A' as int + n - 10) as char
    else ('a' as int + n - 10) as char
  }

  function UnitEscape(n: nat, upper: bool): (e: string)
    requires n < 0x10000
    ensures |e| == 6
  {
    "\\u" + [AnyDigit(n / 4096, upper), AnyDigit(n / 256 % 16, upper), AnyDigit(n / 16 % 16, upper),
             AnyDigit(n % 16, upper)]
  }

  // A code point as one unit, or as the surrogate pair of section 7 of RFC 8259.
  function PointEscape(u: nat, upper: bool): string
    requires u < 0x110000
  {
    if u < 0x10000 then UnitEscape(u, upper)
    else UnitEscape(0xD800 + (u - 0x10000) / 1024, upper) + UnitEscape(0xDC00 + (u - 0x10000) % 1024, upper)
  }

  lemma AnyDigitValue(n: nat, upper: bool)
    requires n < 16
    ensures HexValue(AnyDigit(n, upper)) == n
  {}

  lemma Nibbles(n: nat)
    ensures n == 4096 * (n / 4096) + 256 * (n / 256 % 16) + 16 * (n / 16 % 16) + n % 16
  {
    var a := n / 16;
    var b := a / 16;
    assert b == n / 256 && b / 16 == n / 4096;
  }

  lemma UnitValue(n: nat, upper: bool, rest: string)
    requires n < 0x10000
    ensures var s := (UnitEscape(n, upper) + rest)[2..]; Hex4(s) && Hex4Value(s) == n && s[4..] == rest
  {
    var s := (UnitEscape(n, upper) + rest)[2..];
    AnyDigitValue(n / 4096, upper);
    AnyDigitValue(n / 256 % 16, upper);
    AnyDigitValue(n / 16 % 16, upper);
    AnyDigitValue(n % 16, upper);
    Nibbles(n);
    hide AnyDigit, HexValue;
    assert s[0] == AnyDigit(n / 4096, upper) && s[1] == AnyDigit(n / 256 % 16, upper);
    assert s[2] == AnyDigit(n / 16 % 16, upper) && s[3] == AnyDigit(n % 16, upper);
  }

  // The escape of every code point but the surrogates is one unit, whose bytes
  // spell the code point.
  lemma PointUndone(u: nat, upper: bool, rest: string)
    requires u < 0x110000 && !(0xD800 <= u <= 0xDFFF)
    ensures var e := PointEscape(u, upper); var unit := FirstUnit(e + rest);
            unit.Some? && unit.taken == |e| && CodePoint(unit.bytes) == u
  {
    Utf8IsRight(u);
    hide Utf8, CodePoint, AnyDigit, HexValue;
    if u < 0x10000 {
      UnitValue(u, upper, rest);
    } else {
      var high, low := 0xD800 + (u - 0x10000) / 1024, 0xDC00 + (u - 0x10000) % 1024;
      UnitValue(high, upper, UnitEscape(low, upper) + rest);
      UnitValue(low, upper, rest);
      PairBack(u);
      PairUnit(high, low, upper, rest);
    }
  }

  lemma PairBack(u: nat)
    requires 0x10000 <= u < 0x110000
    ensures var high, low := 0xD800 + (u - 0x10000) / 1024, 0xDC00 + (u - 0x10000) % 1024;
            High(high) && Low(low) && Pair(high, low) == u
  {}

  lemma PairUnit(high: nat, low: nat, upper: bool, rest: string)
    requires High(high) && Low(low)
    ensures FirstUnit(UnitEscape(high, upper) + UnitEscape(low, upper) + rest) == Some(12, Utf8(Pair(high, low)))
  {
    var tail := UnitEscape(low, upper) + rest;
    var s := UnitEscape(high, upper) + tail;
    assert UnitEscape(high, upper) + UnitEscape(low, upper) + rest == s;
    UnitValue(high, upper, tail);
    UnitValue(low, upper, rest);
    hide Utf8, AnyDigit, HexValue, Hex4Value;
    assert s[2..][4..] == tail && s[2..][4] == tail[0] == '\\' && s[2..][5] == tail[1] == 'u';
    assert s[2..][6..] == tail[2..];
  }
}
