// Text forms of IP addresses: 3rd/libuv/src/inet.c.  A formatter and a parser
// that undo each other, with the run of zero words that RFC 5952 compresses.
module Inet {
  newtype Byte = x: int | 0 <= x < 256

  datatype Result<+T> = Ok(value: T) | Invalid | NoSpace

  const ADDRSTRLEN4: nat := 16
  const ADDRSTRLEN6: nat := 46

  type Octets = s: seq<Byte> | |s| == 4 witness [0, 0, 0, 0]
  type Words = s: seq<nat> | |s| == 8 && forall i :: 0 <= i < 8 ==> s[i] < 0x10000 witness [0, 0, 0, 0, 0, 0, 0, 0]

  // ---------- digits ----------

  const DIGITS: string := "0123456789abcdef"

  function Digit(d: nat): (c: char)
    requires d < 16
    ensures d < 10 ==> '0' <= c <= '9' && c as int - '0' as int == d
    ensures d >= 10 ==> 'a' <= c <= 'f' && c as int - 'a' as int == d - 10
  {
    DIGITS[d]
  }

  function DecValue(c: char): int { if '0' <= c <= '9' then c as int - '0' as int else -1 }

  function HexValue(c: char): (d: int)
    ensures d < 16
  {
    if '0' <= c <= '9' then c as int - '0' as int
    else if 'a' <= c <= 'f' then c as int - 'a' as int + 10
    else if 'A' <= c <= 'F' then c as int - 'A' as int + 10
    else -1
  }

  // "%u" of a number below 1000, "%x" of a 16-bit word.
  function Dec(n: nat): string
    requires n < 1000
  {
    if n < 10 then [Digit(n)]
    else if n < 100 then [Digit(n / 10), Digit(n % 10)]
    else [Digit(n / 100), Digit(n / 10 % 10), Digit(n % 10)]
  }

  function Hex(n: nat): string
    requires n < 0x10000
  {
    if n < 0x10 then [Digit(n)]
    else if n < 0x100 then [Digit(n / 0x10), Digit(n % 0x10)]
    else if n < 0x1000 then [Digit(n / 0x100), Digit(n / 0x10 % 0x10), Digit(n % 0x10)]
    else [Digit(n / 0x1000), Digit(n / 0x100 % 0x10), Digit(n / 0x10 % 0x10), Digit(n % 0x10)]
  }

  // ---------- dotted quads ----------

  function Dotted(a: Octets): string {
    Dec(a[0] as nat) + "." + Dec(a[1] as nat) + "." + Dec(a[2] as nat) + "." + Dec(a[3] as nat)
  }

  // inet_ntop4
  method Ntop4(src: Octets, size: nat) returns (r: Result<string>)
    ensures r == if |Dotted(src)| >= size then NoSpace else Ok(Dotted(src))
    ensures size >= ADDRSTRLEN4 ==> r.Ok?
  {
    var l := Dotted(src);
    if |l| >= size {
      return NoSpace;
    }
    return Ok(l);
  }

  // The parser's state: finished octets, the one being read, and whether a
  // digit of it was seen.
  datatype State4 = State4(done: seq<Byte>, cur: nat, saw: bool)

  // What is left of inet_pton4's loop.
  function Run4(s: string, st: State4): Result<seq<Byte>>
    requires st.cur < 256
  {
    if s == "" then
      if |st.done| + (if st.saw then 1 else 0) < 4 then Invalid else Ok(st.done + [st.cur as Byte])
    else
      var d := DecValue(s[0]);
      if d >= 0 then
        var nw := st.cur * 10 + d;
        if st.saw && st.cur == 0 then Invalid
        else if nw > 255 then Invalid
        else if !st.saw && |st.done| + 1 > 4 then Invalid
        else Run4(s[1..], st.(cur := nw, saw := true))
      else if s[0] == '.' && st.saw then
        if |st.done| + 1 == 4 then Invalid else Run4(s[1..], State4(st.done + [st.cur as Byte], 0, false))
      else Invalid
  }

  function Parse4(s: string): Result<seq<Byte>> { Run4(s, State4([], 0, false)) }

  // inet_pton4
  method Pton4(src: string) returns (r: Result<seq<Byte>>)
    ensures r == Parse4(src)
    ensures r.Ok? ==> |r.value| == 4
  {
    var sawDigit, octets := false, 0;
    var tmp: seq<Byte> := [];
    var cur: nat := 0;
    var i := 0;
    assert src[0..] == src;
    while i < |src|
      invariant 0 <= i <= |src| && cur < 256 && octets == |tmp| + (if sawDigit then 1 else 0) <= 4 && |tmp| <= 3
      invariant Parse4(src) == Run4(src[i..], State4(tmp, cur, sawDigit))
    {
      var ch := src[i];
      assert src[i..][0] == ch && src[i..][1..] == src[i + 1..];
      i := i + 1;
      var digit := DecValue(ch);
      if digit >= 0 {
        var nw := cur * 10 + digit;
        if sawDigit && cur == 0 {
          return Invalid;
        }
        if nw > 255 {
          return Invalid;
        }
        cur := nw;
        if !sawDigit {
          octets := octets + 1;
          if octets > 4 {
            return Invalid;
          }
          sawDigit := true;
        }
      } else if ch == '.' && sawDigit {
        if octets == 4 {
          return Invalid;
        }
        tmp := tmp + [cur as Byte];
        cur := 0;
        sawDigit := false;
      } else {
        return Invalid;
      }
    }
    if octets < 4 {
      return Invalid;
    }
    return Ok(tmp + [cur as Byte]);
  }

  // The decimal digits of one octet, read from the start of an octet.
  lemma RunDec(n: nat, rest: string, done: seq<Byte>)
    requires n < 256 && |done| <= 3
    ensures Run4(Dec(n) + rest, State4(done, 0, false)) == Run4(rest, State4(done, n, true))
  {
    hide Run4, Digit;
    var st := State4(done, 0, false);
    var lo, mid := [Digit(n % 10)], [Digit(n / 10 % 10)];
    if n < 10 {
      ReadDec(n, rest, st);
    } else if n < 100 {
      assert Dec(n) + rest == [Digit(n / 10)] + (lo + rest);
      ReadDec(n / 10, lo + rest, st);
      ReadDec(n % 10, rest, st.(cur := n / 10, saw := true));
    } else {
      assert Dec(n) + rest == [Digit(n / 100)] + (mid + (lo + rest));
      ReadDec(n / 100, mid + (lo + rest), st);
      ReadDec(n / 10 % 10, lo + rest, st.(cur := n / 100, saw := true));
      ReadDec(n % 10, rest, st.(cur := n / 10, saw := true));
    }
  }

  lemma ReadDec(d: nat, rest: string, st: State4)
    requires d < 10 && st.cur * 10 + d < 256 && |st.done| <= 3 && !(st.saw && st.cur == 0)
    ensures Run4([Digit(d)] + rest, st) == Run4(rest, st.(cur := st.cur * 10 + d, saw := true))
  {
    var s := [Digit(d)] + rest;
    assert s[0] == Digit(d) && s[1..] == rest;
  }

  lemma ReadDot(rest: string, done: seq<Byte>, n: nat)
    requires n < 256 && |done| < 3
    ensures Run4("." + rest, State4(done, n, true)) == Run4(rest, State4(done + [n as Byte], 0, false))
  {
    var s := "." + rest;
    assert s[0] == '.' && s[1..] == rest;
  }

  // inet_pton4 undoes inet_ntop4.
  lemma RoundTrip4(a: Octets)
    ensures Parse4(Dotted(a)) == Ok(a)
  {
    var x, y, z, w := a[0] as nat, a[1] as nat, a[2] as nat, a[3] as nat;
    var tail3 := Dec(w) + "";
    var tail2 := Dec(z) + ("." + tail3);
    var tail1 := Dec(y) + ("." + tail2);
    DottedIs(a, tail1, tail2, tail3);
    hide Run4, Dec, Dotted;
    RunDec(x, "." + tail1, []);
    ReadDot(tail1, [], x);
    assert [] + [a[0]] == [a[0]];
    RunDec(y, "." + tail2, [a[0]]);
    ReadDot(tail2, [a[0]], y);
    assert [a[0]] + [a[1]] == [a[0], a[1]];
    RunDec(z, "." + tail3, [a[0], a[1]]);
    ReadDot(tail3, [a[0], a[1]], z);
    assert [a[0], a[1]] + [a[2]] == [a[0], a[1], a[2]];
    RunDec(w, "", [a[0], a[1], a[2]]);
    LastOctet(a);
  }

  lemma DottedIs(a: Octets, tail1: string, tail2: string, tail3: string)
    requires tail3 == Dec(a[3] as nat) + "" && tail2 == Dec(a[2] as nat) + ("." + tail3)
             && tail1 == Dec(a[1] as nat) + ("." + tail2)
    ensures Dotted(a) == Dec(a[0] as nat) + ("." + tail1)
  {
    hide Dec;
  }

  lemma LastOctet(a: Octets)
    ensures Run4("", State4([a[0], a[1], a[2]], a[3] as nat, true)) == Ok(a)
  {
    assert [a[0], a[1], a[2]] + [a[3]] == a;
  }

  // ---------- the run of zero words ----------

  type Address = s: seq<Byte> | |s| == 16 witness seq(16, _ => 0)

  function WordAt(src: Address, k: nat): nat
    requires k < 8
  {
    256 * (src[2 * k] as nat) + src[2 * k + 1] as nat
  }

  function WordsOf(src: Address): Words { seq(8, k requires 0 <= k < 8 => WordAt(src, k)) }

  // base is -1 where there is no run.
  datatype ZeroRun = ZeroRun(base: int, len: nat)

  predicate IsRun(w: Words, base: int, len: nat) {
    0 <= base && base + len <= 8 && forall i :: base <= i < base + len ==> w[i] == 0
  }

  // Section 4.2 of RFC 5952: the longest run of at least two zero words, and
  // the first of those.
  ghost predicate LeftmostLongest(w: Words, r: ZeroRun) {
    if r.base == -1 then forall b, l :: IsRun(w, b, l) ==> l < 2
    else r.len >= 2 && IsRun(w, r.base, r.len) && forall b, l: nat :: IsRun(w, b, l) ==>
      l <= r.len
      && (l == r.len ==> r.base <= b)
  }

  // The best run that ends at or before e.
  ghost predicate BestUpTo(w: Words, best: ZeroRun, e: int) {
    && (best.base == -1 ==> best.len == 0) && (best.base != -1 ==>
       best.len >= 1 && IsRun(w, best.base, best.len)
       && best.base + best.len <= e)
    && forall b, l: nat :: IsRun(w, b, l) && b + l <= e && l > 0 ==>
       best.base != -1 && l <= best.len
       && (l == best.len ==> best.base <= b)
  }

  // The run that is being counted when word i is next.
  ghost predicate CurrentRun(w: Words, cur: ZeroRun, i: int) {
    0 <= i <= 8 &&
    if cur.base == -1 then i > 0 ==> w[i - 1] != 0
    else
      0 <= cur.base < i && cur.len == i - cur.base && IsRun(w, cur.base, cur.len)
      && (cur.base > 0 ==> w[cur.base - 1] != 0)
  }

  lemma RunsSplit(w: Words, m: nat, b: int, l: nat)
    requires m < 8 && w[m] != 0 && IsRun(w, b, l)
    ensures l == 0 || b + l <= m || b > m
  {
  }

  // A counted run has ended: it is taken if it is longer than the best.
  lemma TakeRun(w: Words, best: ZeroRun, cur: ZeroRun, i: int)
    requires 0 <= i <= 8 && cur.base != -1 && CurrentRun(w, cur, i) && BestUpTo(w, best, cur.base)
    ensures BestUpTo(w, if best.base == -1 || cur.len > best.len then cur else best, i)
  {
    var next := if best.base == -1 || cur.len > best.len then cur else best;
    forall b, l: nat | IsRun(w, b, l) && b + l <= i && l > 0
      ensures next.base != -1 && l <= next.len && (l == next.len ==> next.base <= b)
    {
      if cur.base > 0 { RunsSplit(w, cur.base - 1, b, l); }
    }
  }

  lemma SkipWord(w: Words, best: ZeroRun, i: nat)
    requires i < 8 && w[i] != 0 && BestUpTo(w, best, i)
    ensures BestUpTo(w, best, i + 1)
  {
    forall b, l: nat | IsRun(w, b, l) && b + l <= i + 1 && l > 0
      ensures best.base != -1 && l <= best.len && (l == best.len ==> best.base <= b)
    {
      RunsSplit(w, i, b, l);
    }
  }

  // inet_ntop6, finding the run.
  method FindRun(words: Words) returns (best: ZeroRun)
    ensures LeftmostLongest(words, best) && (best.base != -1 ==> best.base + best.len <= 8)
  {
    best := ZeroRun(-1, 0);
    var cur := ZeroRun(-1, 0);
    for i := 0 to 8
      invariant CurrentRun(words, cur, i) && BestUpTo(words, best, if cur.base == -1 then i else cur.base)
    {
      if words[i] == 0 {
        if cur.base == -1 {
          cur := ZeroRun(i, 1);
        } else {
          cur := cur.(len := cur.len + 1);
        }
      } else {
        if cur.base != -1 {
          TakeRun(words, best, cur, i);
          if best.base == -1 || cur.len > best.len {
            best := cur;
          }
          cur := cur.(base := -1);
        }
        SkipWord(words, best, i);
      }
    }
    if cur.base != -1 {
      TakeRun(words, best, cur, 8);
      if best.base == -1 || cur.len > best.len {
        best := cur;
      }
    }
    if best.base != -1 && best.len < 2 {
      best := best.(base := -1);
    }
  }

  // ---------- the text ----------

  function Join(ws: seq<nat>): string
    requires forall i :: 0 <= i < |ws| ==> ws[i] < 0x10000
  {
    if ws == [] then "" else if |ws| == 1 then Hex(ws[0]) else Hex(ws[0]) + ":" + Join(ws[1..])
  }

  // Does an IPv4 address hide in the last two words?
  predicate Embedded(w: Words, r: ZeroRun) { r.base == 0 && (r.len == 6 || (r.len == 5 && w[5] == 0xFFFF)) }

  // What follows the compressed run.
  function Rest(src: Address, r: ZeroRun): string
    requires 0 <= r.base && r.base + r.len <= 8
  {
    var w := WordsOf(src);
    if Embedded(w, r) then (if r.len == 5 then Hex(w[5]) + ":" else "") + Dotted(src[12..])
    else Join(w[r.base + r.len..])
  }

  // The text of an address whose run r is compressed.
  function Text6(src: Address, r: ZeroRun): string
    requires r.base == -1 || (0 <= r.base && r.base + r.len <= 8)
  {
    var w := WordsOf(src);
    if r.base == -1 then Join(w) else Join(w[..r.base]) + "::" + Rest(src, r)
  }

  lemma {:induction false} JoinSnoc(ws: seq<nat>, x: nat)
    requires x < 0x10000 && forall i :: 0 <= i < |ws| ==> ws[i] < 0x10000
    ensures Join(ws + [x]) == if ws == [] then Hex(x) else Join(ws) + ":" + Hex(x)
  {
    hide Hex;
    if ws == [] {
      assert ws + [x] == [x];
    } else {
      assert (ws + [x])[1..] == ws[1..] + [x];
      JoinSnoc(ws[1..], x);
      if |ws| == 1 {
        assert ws[1..] + [x] == [x];
      } else {
        assert Hex(ws[0]) + ":" + (Join(ws[1..]) + ":" + Hex(x)) == Hex(ws[0]) + ":" + Join(ws[1..]) + ":" + Hex(x);
      }
    }
  }

  // What inet_ntop6 has written before word i.
  function Written(w: Words, r: ZeroRun, i: nat): string
    requires i <= 8 && (r.base == -1 || (0 <= r.base && r.base + r.len <= 8))
  {
    if r.base == -1 || i <= r.base then Join(w[..i])
    else if i <= r.base + r.len then Join(w[..r.base]) + ":"
    else Join(w[..r.base]) + "::" + Join(w[r.base + r.len..i])
  }

  lemma WriteWord(w: Words, r: ZeroRun, i: nat)
    requires i < 8 && (r.base == -1 || (0 <= r.base && r.base + r.len <= 8))
             && !(r.base != -1 && r.base <= i < r.base + r.len)
    requires r.base != -1 ==> r.len > 0
    ensures Written(w, r, i + 1) == Written(w, r, i) + (if i != 0 then ":" else "") + Hex(w[i])
  {
    hide Hex;
    var pre := if r.base == -1 || i < r.base then w[..i] else w[r.base + r.len..i];
    JoinSnoc(pre, w[i]);
    hide Join;
    if r.base == -1 || i < r.base {
      assert w[..i + 1] == w[..i] + [w[i]];
      WriteFirst(w, i);
    } else {
      assert w[r.base + r.len..i + 1] == pre + [w[i]];
      var a, h, j := Join(w[..r.base]), Hex(w[i]), Join(pre);
      if pre == [] { Colons(a, h); } else { Assoc(a, j, h); }
    }
  }

  lemma WriteFirst(w: Words, i: nat)
    requires i < 8
    ensures i == 0 ==> Join(w[..i]) == "" && forall h: string :: "" + "" + h == h
  {
  }

  lemma Colons(a: string, h: string)
    ensures a + ":" + ":" + h == a + "::" + h
  {
  }

  lemma Assoc(a: string, j: string, h: string)
    ensures a + "::" + (j + ":" + h) == a + "::" + j + ":" + h
  {
  }

  lemma WriteRun(w: Words, r: ZeroRun, i: nat)
    requires r.base != -1 && 0 <= r.base <= i < r.base + r.len <= 8
    ensures Written(w, r, i + 1) == if i == r.base then Written(w, r, i) + ":" else Written(w, r, i)
  {
  }

  lemma EmptyJoin(w: Words, r: ZeroRun)
    ensures Join(w[..0]) == "" && (r.base == -1 || (0 <= r.base && r.base + r.len <= 8) ==> Written(w, r, 0) == "")
  {
  }

  // The bytes paired into words.
  method ReadWords(src: Address) returns (words: Words)
    ensures words == WordsOf(src)
  {
    var w: seq<nat> := seq(8, _ => 0);
    for i := 0 to 16
      invariant |w| == 8
      invariant forall k :: 0 <= k < 8 ==>
        w[k] == if 2 * k + 1 < i then WordAt(src, k) else if 2 * k < i then 256 * (src[2 * k] as nat) else 0
    {
      w := w[i / 2 := w[i / 2] + (if i % 2 == 0 then 256 * (src[i] as nat) else src[i] as nat)];
    }
    words := w;
  }

  // The text when the loop has written all words.
  lemma AllWritten(src: Address, r: ZeroRun)
    requires r.base == -1 || (0 <= r.base && r.base + r.len <= 8 && r.len > 0)
    requires !Embedded(WordsOf(src), r)
    ensures var w := WordsOf(src);
            Text6(src, r) == if r.base != -1 && r.base + r.len == 8 then Written(w, r, 8) + ":" else Written(w, r, 8)
  {
    var w := WordsOf(src);
    hide Hex;
    assert w[..8] == w;
    if r.base != -1 {
      var a := Join(w[..r.base]);
      if r.base + r.len == 8 {
        assert w[r.base + r.len..] == [];
        Colons(a, "");
        assert a + "::" + "" == a + ":" + ":" by { assert a + ":" + ":" + "" == a + "::" + ""; }
      } else {
        assert w[r.base + r.len..8] == w[r.base + r.len..];
      }
    }
  }

  // The text when the last two words are written as an IPv4 address.
  lemma QuadWritten(src: Address, r: ZeroRun, quad: string)
    requires Embedded(WordsOf(src), r) && quad == Dotted(src[12..])
    ensures Text6(src, r) == Written(WordsOf(src), r, 6) + ":" + quad && |Written(WordsOf(src), r, 6)| <= 6
  {
    var w := WordsOf(src);
    hide Dotted;
    assert w[..0] == [];
    if r.len == 5 {
      assert w[5..6] == [w[5]];
      assert Join([w[5]]) == Hex(w[5]);
      var h := Hex(w[5]);
      assert "" + "::" + (h + ":" + quad) == "" + "::" + h + ":" + quad;
    } else {
      assert "" + "::" + ("" + quad) == "" + ":" + ":" + quad;
    }
  }

  lemma {:induction false} JoinLength(ws: seq<nat>)
    requires forall i :: 0 <= i < |ws| ==> ws[i] < 0x10000
    ensures |Join(ws)| <= 5 * |ws|
  {
    if |ws| > 1 { JoinLength(ws[1..]); }
  }

  // No text is longer than INET6_ADDRSTRLEN allows.
  lemma TextFits(src: Address, r: ZeroRun)
    requires r.base == -1 || (0 <= r.base && r.base + r.len <= 8)
    ensures |Text6(src, r)| < ADDRSTRLEN6
  {
    var w := WordsOf(src);
    if r.base == -1 {
      JoinLength(w);
    } else {
      JoinLength(w[..r.base]);
      JoinLength(w[r.base + r.len..]);
      if Embedded(w, r) {
        DottedFits(src[12..]);
        hide Dotted;
        assert w[..0] == [];
      }
    }
  }

  lemma DottedFits(a: Octets)
    ensures |Dotted(a)| < ADDRSTRLEN4
  {
  }

  // inet_ntop6
  method Ntop6(src: Address, size: nat) returns (r: Result<string>, ghost best: ZeroRun)
    ensures LeftmostLongest(WordsOf(src), best) && (best.base == -1 || (0 <= best.base && best.base + best.len <= 8))
    ensures size >= ADDRSTRLEN6 ==> r.Ok?
    ensures r == if |Text6(src, best)| + 1 > size then NoSpace else Ok(Text6(src, best))
  {
    var words := ReadWords(src);
    var run := FindRun(words);
    best := run;
    var last := words[7];
    var tmp := "";
    var i := 0;
    assert words[..0] == [];
    assert run.base != -1 ==> run.len > 0;
    hide Hex, Join, LeftmostLongest, IsRun, Dotted, Text6, Written;
    EmptyJoin(words, run);
    while i < 8
      invariant 0 <= i <= 8 && tmp == Written(words, run, i) && (Embedded(words, run) ==> i <= 6)
      decreases 8 - i
    {
      if run.base != -1 && i >= run.base && i < run.base + run.len {
        WriteRun(words, run, i);
        if i == run.base {
          tmp := tmp + ":";
        }
        i := i + 1;
        continue;
      }
      WriteWord(words, run, i);
      if i == 6 && Embedded(words, run) { QuadWritten(src, run, Dotted(src[12..])); }
      if i != 0 {
        tmp := tmp + ":";
      }
      if i == 6 && run.base == 0
         && (run.len == 6 || (run.len == 7 && last != 0x0001) || (run.len == 5 && words[5] == 0xFFFF)) {
        // With a run of seven words, word 6 is inside the run and this place is not reached.
        var quad := Ntop4(src[12..], ADDRSTRLEN6 - |tmp|);
        if !quad.Ok? {
          return NoSpace, best;
        }
        tmp := tmp + quad.value;
        assert tmp == Text6(src, run);
        break;
      }
      tmp := tmp + Hex(words[i]);
      i := i + 1;
    }
    if !Embedded(words, run) { AllWritten(src, run); }
    if run.base != -1 && run.base + run.len == 8 {
      tmp := tmp + ":";
    }
    TextFits(src, run);
    if |tmp| + 1 > size {
      return NoSpace, best;
    }
    return Ok(tmp), best;
  }

  // ---------- reading ----------

  // The bytes written, where "::" was seen (-1: nowhere), the group being read,
  // its number of digits, and the text from where it starts.
  datatype State6 = State6(out: seq<Byte>, colon: int, val: nat, seen: nat, tok: string)

  predicate Ok6(st: State6) { |st.out| <= 16 && -1 <= st.colon <= |st.out| && st.val < 0x10000 && st.seen <= 4 }

  // A group of so many hexadecimal digits.
  predicate Group(val: nat, seen: nat) {
    seen <= 4 && val < if seen == 0 then 1 else if seen == 1 then 0x10 else if seen == 2 then 0x100 else if seen == 3
      then 0x1000 else 0x10000
  }

  lemma NoDigits()
    ensures Group(0, 0) && forall val, seen :: Group(val, seen) ==>
            val < 0x10000 && seen <= 4
            && (seen == 0 ==> val == 0)
  {
  }

  function WordBytes(v: nat): (s: seq<Byte>)
    requires v < 0x10000
    ensures |s| == 2
  {
    [(v / 256) as Byte, (v % 256) as Byte]
  }

  function Zeros(n: nat): (s: seq<Byte>)
    ensures |s| == n
  {
    seq(n, _ => 0)
  }

  // The end of inet_pton6.
  function Finish6(st: State6): Result<seq<Byte>>
    requires Ok6(st)
  {
    if st.seen > 0 && |st.out| + 2 > 16 then Invalid
    else
      var out := if st.seen > 0 then st.out + WordBytes(st.val) else st.out;
      if st.colon != -1 then
        if |out| == 16 then Invalid else Ok(out[..st.colon] + Zeros(16 - |out|) + out[st.colon..])
      else if |out| != 16 then Invalid
      else Ok(out)
  }

  // What is left of inet_pton6's loop.
  function Run6(s: string, st: State6): Result<seq<Byte>>
    requires Ok6(st) && Group(st.val, st.seen)
    decreases s
  {
    if s == "" then Finish6(st)
    else
      var d := HexValue(s[0]);
      if d >= 0 then
        if st.seen + 1 > 4 then Invalid else Run6(s[1..], st.(val := 16 * st.val + d, seen := st.seen + 1))
      else if s[0] == ':' then
        if st.seen == 0 then
          if st.colon != -1 then Invalid else Run6(s[1..], st.(colon := |st.out|, tok := s[1..]))
        else if s[1..] == "" then Invalid
        else if |st.out| + 2 > 16 then Invalid
        else Run6(s[1..], State6(st.out + WordBytes(st.val), st.colon, 0, 0, s[1..]))
      else if s[0] == '.' && |st.out| + 4 <= 16 then
        var quad := Parse4(st.tok);
        if quad.Ok? && |quad.value| == 4 then Finish6(st.(out := st.out + quad.value, seen := 0)) else Invalid
      else Invalid
  }

  // One character of the loop.
  lemma ReadDigit(s: string, st: State6)
    requires Ok6(st) && Group(st.val, st.seen) && s != "" && HexValue(s[0]) >= 0
    ensures st.seen == 4 ==> Run6(s, st) == Invalid
    ensures st.seen < 4 ==> Group(16 * st.val + HexValue(s[0]), st.seen + 1)
                            && Run6(s, st) == Run6(s[1..], st.(val := 16 * st.val + HexValue(s[0]),
                               seen := st.seen + 1))
  {
  }

  lemma ReadColon(s: string, st: State6)
    requires Ok6(st) && Group(st.val, st.seen) && s != "" && s[0] == ':'
    ensures Group(0, 0)
    ensures st.seen == 0 ==> Run6(s, st) == if st.colon != -1 then Invalid
            else Run6(s[1..], st.(colon := |st.out|, tok := s[1..]))
    ensures st.seen > 0 ==> Run6(s, st) == if s[1..] == "" || |st.out| + 2 > 16 then Invalid
                                           else Run6(s[1..], State6(st.out + WordBytes(st.val), st.colon, 0, 0, s[1..]))
  {
    hide Parse4, Finish6;
  }

  lemma ReadOther(s: string, st: State6)
    requires Ok6(st) && Group(st.val, st.seen) && s != "" && HexValue(s[0]) < 0 && s[0] != ':'
    ensures Run6(s, st) == if s[0] == '.' && |st.out| + 4 <= 16 && Parse4(st.tok).Ok? && |Parse4(st.tok).value| == 4
                           then Finish6(st.(out := st.out + Parse4(st.tok).value, seen := 0)) else Invalid
  {
    hide Parse4, Finish6;
  }

  lemma ReadEnd(st: State6)
    requires Ok6(st) && Group(st.val, st.seen)
    ensures Run6("", st) == Finish6(st)
  {
  }

  function Parse6(s: string): Result<seq<Byte>> {
    if s != "" && s[0] == ':' then
      if s[1..] == "" || s[1] != ':' then Invalid else Run6(s[1..], State6([], -1, 0, 0, s[1..]))
    else Run6(s, State6([], -1, 0, 0, s))
  }

  // The hand-made shift at the end of inet_pton6: what follows "::" moves to the end.
  method Shift(tmp: array<Byte>, colonp: nat, tp: nat)
    requires tmp.Length == 16 && colonp <= tp < 16 && forall k :: tp <= k < 16 ==> tmp[k] == 0
    modifies tmp
    ensures tmp[..] == old(tmp[..colonp]) + Zeros(16 - tp) + old(tmp[colonp..tp])
  {
    var n := tp - colonp;
    ghost var out := tmp[..];
    for i := 1 to n + 1
      invariant forall p :: 17 - i <= p < 16 ==> tmp[p] == out[p - 16 + tp]
      invariant forall p :: tp - i < p < 17 - i ==> tmp[p] == 0
      invariant forall p :: 0 <= p <= tp - i ==> tmp[p] == out[p]
    {
      tmp[16 - i] := tmp[colonp + n - i];
      tmp[colonp + n - i] := 0;
    }
    Shifted(out, tmp[..], colonp, tp);
  }

  lemma Shifted(out: seq<Byte>, r: seq<Byte>, colonp: nat, tp: nat)
    requires |out| == |r| == 16 && colonp <= tp < 16
    requires forall p :: colonp + 16 - tp <= p < 16 ==> r[p] == out[p - 16 + tp]
    requires forall p :: colonp <= p < colonp + 16 - tp ==> r[p] == 0
    requires forall p :: 0 <= p < colonp ==> r[p] == out[p]
    ensures r == out[..colonp] + Zeros(16 - tp) + out[colonp..tp]
  {
    assert r[..colonp] == out[..colonp];
    assert r[colonp..colonp + 16 - tp] == Zeros(16 - tp);
    assert r[colonp + 16 - tp..] == out[colonp..tp];
    assert r == r[..colonp] + r[colonp..colonp + 16 - tp] + r[colonp + 16 - tp..];
  }

  // Writing at tp.
  method Store(tmp: array<Byte>, tp: nat, bytes: seq<Byte>)
    requires tmp.Length == 16 && tp + |bytes| <= 16 && forall k :: tp <= k < 16 ==> tmp[k] == 0
    modifies tmp
    ensures tmp[..tp + |bytes|] == old(tmp[..tp]) + bytes && forall k :: tp + |bytes| <= k < 16 ==> tmp[k] == 0
  {
    forall k | 0 <= k < |bytes| {
      tmp[tp + k] := bytes[k];
    }
  }

  // inet_pton6
  method Pton6(src: string) returns (r: Result<seq<Byte>>)
    ensures r == Parse6(src)
    ensures r.Ok? ==> |r.value| == 16
  {
    hide Finish6, HexValue, Parse4, WordBytes, Group, Run6;
    var tmp := new Byte[16](_ => 0);
    var tp: nat, colonp: int := 0, -1;
    var i := 0;
    if |src| > 0 && src[0] == ':' {
      i := 1;
      if |src| == 1 || src[1] != ':' {
        return Invalid;
      }
    }
    var curtok, seen: nat, val: nat := i, 0, 0;
    assert src[0..] == src;
    NoDigits();
    while i < |src|
      invariant 0 <= curtok <= i <= |src| && tp <= 16 && -1 <= colonp <= tp
      invariant forall k :: tp <= k < 16 ==> tmp[k] == 0
      invariant val < 0x10000 && seen <= 4
      invariant var st := State6(tmp[..tp], colonp, val, seen, src[curtok..]);
                && Ok6(st) && Group(val, seen) && Parse6(src) == Run6(src[i..], st)
    {
      var ch := src[i];
      assert src[i..][0] == ch && src[i..][1..] == src[i + 1..];
      ghost var s, st := src[i..], State6(tmp[..tp], colonp, val, seen, src[curtok..]);
      i := i + 1;
      var digit := HexValue(ch);
      if digit >= 0 {
        ReadDigit(s, st);
        if seen + 1 > 4 {
          return Invalid;
        }
        val := 16 * val + digit;
        seen := seen + 1;
        continue;
      }
      if ch == ':' {
        ReadColon(s, st);
        curtok := i;
        if seen == 0 {
          if colonp != -1 {
            return Invalid;
          }
          colonp := tp;
          continue;
        } else if i == |src| {
          return Invalid;
        }
        if tp + 2 > 16 {
          return Invalid;
        }
        Store(tmp, tp, WordBytes(val));
        tp := tp + 2;
        seen, val := 0, 0;
        continue;
      }
      ReadOther(s, st);
      if ch == '.' && tp + 4 <= 16 {
        var quad := Pton4(src[curtok..]);
        if quad.Ok? {
          Store(tmp, tp, quad.value);
          tp := tp + 4;
          seen := 0;
          r := Close(tmp, tp, colonp, val, seen);
          return;
        }
      }
      return Invalid;
    }
    assert src[i..] == "";
    ReadEnd(State6(tmp[..tp], colonp, val, seen, src[curtok..]));
    r := Close(tmp, tp, colonp, val, seen);
  }

  // After the loop: the last group, the shift and the length check.
  method Close(tmp: array<Byte>, tp0: nat, colonp: int, val: nat, seen: nat) returns (r: Result<seq<Byte>>)
    requires tmp.Length == 16 && tp0 <= 16 && -1 <= colonp <= tp0 && val < 0x10000 && seen <= 4
    requires forall k :: tp0 <= k < 16 ==> tmp[k] == 0
    modifies tmp
    ensures forall tok :: r == Finish6(State6(old(tmp[..tp0]), colonp, val, seen, tok))
    ensures r.Ok? ==> |r.value| == 16
  {
    var tp := tp0;
    ghost var out := tmp[..tp];
    if seen > 0 {
      if tp + 2 > 16 {
        return Invalid;
      }
      Store(tmp, tp, WordBytes(val));
      tp := tp + 2;
    }
    if colonp != -1 {
      if tp == 16 {
        return Invalid;
      }
      ghost var all := tmp[..tp];
      Shift(tmp, colonp, tp);
      assert all[..colonp] + Zeros(16 - tp) + all[colonp..] == tmp[..];
      tp := 16;
    }
    if tp != 16 {
      return Invalid;
    }
    assert tmp[..16] == tmp[..];
    return Ok(tmp[..]);
  }

  // ---------- the round trip ----------

  lemma DigitValue(d: nat)
    requires d < 16
    ensures HexValue(Digit(d)) == d
  {
  }

  lemma ReadHexDigit(d: nat, rest: string, st: State6)
    requires d < 16 && Ok6(st) && Group(st.val, st.seen) && st.seen < 4
    ensures Group(16 * st.val + d, st.seen + 1)
    ensures Run6([Digit(d)] + rest, st) == Run6(rest, st.(val := 16 * st.val + d, seen := st.seen + 1))
  {
    hide Run6, Digit, HexValue;
    var s := [Digit(d)] + rest;
    assert s[0] == Digit(d) && s[1..] == rest;
    DigitValue(d);
    ReadDigit(s, st);
  }

  lemma HexGroup(w: nat)
    requires w < 0x10000
    ensures Group(w, |Hex(w)|) && 1 <= |Hex(w)| <= 4 && Hex(w)[0] != ':'
  {
  }

  // The digits of one word.
  lemma RunHex(w: nat, rest: string, st: State6)
    requires w < 0x10000 && Ok6(st) && st.seen == 0 && st.val == 0
    ensures Group(w, |Hex(w)|) && Group(0, 0) && Run6(Hex(w) + rest, st) == Run6(rest, st.(val := w, seen := |Hex(w)|))
  {
    hide Run6, Hex, Digit, Group;
    HexGroup(w);
    NoDigits();
    HexParts(w);
    var a, b, c, d := w / 0x1000, w / 0x100 % 0x10, w / 0x10 % 0x10, w % 0x10;
    var tail1 := [Digit(d)] + rest;
    var tail2 := [Digit(c)] + tail1;
    var tail3 := [Digit(b)] + tail2;
    if w < 0x10 {
      HexOne(w);
      ReadHexDigit(w, rest, st);
    } else if w < 0x100 {
      HexTwo(w, rest);
      ReadHexDigit(w / 0x10, tail1, st);
      ReadHexDigit(d, rest, st.(val := w / 0x10, seen := 1));
    } else if w < 0x1000 {
      HexThree(w, rest);
      ReadHexDigit(w / 0x100, tail2, st);
      ReadHexDigit(c, tail1, st.(val := w / 0x100, seen := 1));
      ReadHexDigit(d, rest, st.(val := w / 0x10, seen := 2));
    } else {
      HexFour(w, rest);
      ReadHexDigit(a, tail3, st);
      ReadHexDigit(b, tail2, st.(val := w / 0x1000, seen := 1));
      ReadHexDigit(c, tail1, st.(val := w / 0x100, seen := 2));
      ReadHexDigit(d, rest, st.(val := w / 0x10, seen := 3));
    }
  }

  lemma HexParts(w: nat)
    ensures w / 0x1000 * 0x10 + w / 0x100 % 0x10 == w / 0x100 && w / 0x100 * 0x10 + w / 0x10 % 0x10 == w / 0x10
    ensures w / 0x10 * 0x10 + w % 0x10 == w
  {
  }

  lemma HexOne(w: nat)
    requires w < 0x10
    ensures Hex(w) == [Digit(w)]
  {
  }

  lemma HexTwo(w: nat, rest: string)
    requires 0x10 <= w < 0x100
    ensures Hex(w) + rest == [Digit(w / 0x10)] + ([Digit(w % 0x10)] + rest) && |Hex(w)| == 2
  {
  }

  lemma HexThree(w: nat, rest: string)
    requires 0x100 <= w < 0x1000
    ensures Hex(w) + rest == [Digit(w / 0x100)] + ([Digit(w / 0x10 % 0x10)] + ([Digit(w % 0x10)] + rest))
            && |Hex(w)| == 3
  {
  }

  lemma HexFour(w: nat, rest: string)
    requires 0x1000 <= w < 0x10000
    ensures Hex(w) + rest
         == [Digit(w / 0x1000)] + ([Digit(w / 0x100 % 0x10)] + ([Digit(w / 0x10 % 0x10)] + ([Digit(w % 0x10)] + rest)))
           && |Hex(w)| == 4
  {
  }

  function Bytes(ws: seq<nat>): (s: seq<Byte>)
    requires forall i :: 0 <= i < |ws| ==> ws[i] < 0x10000
    ensures |s| == 2 * |ws|
  {
    if ws == [] then [] else WordBytes(ws[0]) + Bytes(ws[1..])
  }

  lemma {:induction false} BytesAt(ws: seq<nat>, k: nat)
    requires k < |ws| && forall i :: 0 <= i < |ws| ==> ws[i] < 0x10000
    ensures Bytes(ws)[2 * k] as int == ws[k] / 256 && Bytes(ws)[2 * k + 1] as int == ws[k] % 256
  {
    if k > 0 {
      BytesAt(ws[1..], k - 1);
      assert Bytes(ws)[2 * k] == Bytes(ws[1..])[2 * (k - 1)] && Bytes(ws)[2 * k + 1] == Bytes(ws[1..])[2 * (k - 1) + 1];
    }
  }

  // What reading the groups ws leaves: all but the last are stored.
  function AfterGroups(st: State6, ws: seq<nat>, rest: string): State6
    requires ws != [] && forall i :: 0 <= i < |ws| ==> ws[i] < 0x10000
  {
    var n := |ws| - 1;
    State6(st.out + Bytes(ws[..n]), st.colon, ws[n], |Hex(ws[n])|, if n == 0 then st.tok else Hex(ws[n]) + rest)
  }

  lemma {:induction false} RunJoin(ws: seq<nat>, rest: string, st: State6)
    requires ws != [] && forall i :: 0 <= i < |ws| ==> ws[i] < 0x10000
    requires Ok6(st) && st.seen == 0 && st.val == 0 && |st.out| + 2 * |ws| <= 16 + 2
    ensures var st1 := AfterGroups(st, ws, rest);
            Ok6(st1) && Group(st1.val, st1.seen) && Group(0, 0) && Run6(Join(ws) + rest, st) == Run6(rest, st1)
    decreases |ws|
  {
    NoDigits();
    hide Run6, Hex, Group, WordBytes;
    if |ws| == 1 {
      RunHex(ws[0], rest, st);
      assert st.out + [] == st.out;
    } else {
      var tail := Join(ws[1..]) + rest;
      var w := ws[0];
      JoinHead(ws, rest);
      RunHex(w, ":" + tail, st);
      var st1 := st.(val := w, seen := |Hex(w)|);
      HexGroup(w);
      JoinSome(ws[1..], rest);
      assert (":" + tail)[0] == ':' && (":" + tail)[1..] == tail;
      ReadColon(":" + tail, st1);
      var st2 := State6(st.out + WordBytes(w), st.colon, 0, 0, tail);
      RunJoin(ws[1..], rest, st2);
      GroupsOn(ws, rest, st, st2);
    }
  }

  lemma GroupsOn(ws: seq<nat>, rest: string, st: State6, st2: State6)
    requires |ws| > 1 && forall i :: 0 <= i < |ws| ==> ws[i] < 0x10000
    requires st2 == State6(st.out + WordBytes(ws[0]), st.colon, 0, 0, Join(ws[1..]) + rest)
    ensures AfterGroups(st2, ws[1..], rest) == AfterGroups(st, ws, rest)
  {
    hide Hex, WordBytes;
    var n := |ws| - 1;
    assert ws[1..][..n - 1] == ws[..n][1..];
    assert Bytes(ws[..n]) == WordBytes(ws[0]) + Bytes(ws[1..][..n - 1]);
    assert st.out + WordBytes(ws[0]) + Bytes(ws[1..][..n - 1]) == st.out + Bytes(ws[..n]);
    if |ws| == 2 { assert Join(ws[1..]) == Hex(ws[1]); }
  }

  lemma JoinHead(ws: seq<nat>, rest: string)
    requires |ws| > 1 && forall i :: 0 <= i < |ws| ==> ws[i] < 0x10000
    ensures Join(ws) + rest == Hex(ws[0]) + (":" + (Join(ws[1..]) + rest))
  {
    hide Hex;
    var h, j := Hex(ws[0]), Join(ws[1..]);
    assert h + ":" + j + rest == h + (":" + (j + rest));
  }

  lemma JoinSome(ws: seq<nat>, rest: string)
    requires ws != [] && forall i :: 0 <= i < |ws| ==> ws[i] < 0x10000
    ensures Join(ws) != "" && Join(ws) + rest != "" && (Join(ws) + rest)[0] != ':'
  {
    HexGroup(ws[0]);
    hide Hex;
  }

  // The first octet of a dotted quad is read as if it were a group.
  lemma RunOctet(n: nat, rest: string, st: State6) returns (val: nat)
    requires n < 256 && Ok6(st) && st.seen == 0 && st.val == 0
    ensures Group(val, |Dec(n)|) && Group(0, 0) && 1 <= |Dec(n)| <= 3
    ensures Run6(Dec(n) + rest, st) == Run6(rest, st.(val := val, seen := |Dec(n)|))
  {
    hide Run6, Digit, Group;
    NoDigits();
    var lo, mid := [Digit(n % 10)], [Digit(n / 10 % 10)];
    if n < 10 {
      ReadHexDigit(n, rest, st);
      val := n;
    } else if n < 100 {
      assert Dec(n) + rest == [Digit(n / 10)] + (lo + rest);
      ReadHexDigit(n / 10, lo + rest, st);
      val := 16 * (n / 10);
      ReadHexDigit(n % 10, rest, st.(val := n / 10, seen := 1));
      val := val + n % 10;
    } else {
      assert Dec(n) + rest == [Digit(n / 100)] + (mid + (lo + rest));
      ReadHexDigit(n / 100, mid + (lo + rest), st);
      val := 16 * (n / 100) + n / 10 % 10;
      ReadHexDigit(n / 10 % 10, lo + rest, st.(val := n / 100, seen := 1));
      ReadHexDigit(n % 10, rest, st.(val := val, seen := 2));
      val := 16 * val + n % 10;
    }
  }

  // Without digits, the value read last does not matter at the end.
  lemma FinishIgnores(st: State6, val: nat)
    requires Ok6(st) && st.seen == 0 && val < 0x10000
    ensures Finish6(st.(val := val)) == Finish6(st)
  {
  }

  // A dotted quad at the start of a group is handed to inet_pton4.
  lemma RunQuad(a: Octets, st: State6)
    requires Ok6(st) && st.seen == 0 && st.val == 0 && st.tok == Dotted(a) && |st.out| <= 12
    ensures Group(0, 0) && Run6(Dotted(a), st) == Finish6(st.(out := st.out + a))
  {
    var n := a[0] as nat;
    var tail3 := Dec(a[3] as nat) + "";
    var tail2 := Dec(a[2] as nat) + ("." + tail3);
    var tail1 := Dec(a[1] as nat) + ("." + tail2);
    DottedIs(a, tail1, tail2, tail3);
    RoundTrip4(a);
    hide Run6, Parse4, Dec, Dotted, Finish6, Group;
    var val := RunOctet(n, "." + tail1, st);
    NoDigits();
    var st1 := st.(val := val, seen := |Dec(n)|);
    var s := "." + tail1;
    assert s[0] == '.';
    ReadOther(s, st1);
    FinishIgnores(st.(out := st.out + a), val);
  }

  // ---------- whole addresses ----------

  // The bytes of an address whose run r is zero.
  lemma BytesOfAddress(src: Address, base: nat, len: nat)
    requires base + len <= 8 && IsRun(WordsOf(src), base, len)
    ensures var w := WordsOf(src); src == Bytes(w[..base]) + Zeros(2 * len) + Bytes(w[base + len..])
  {
    var w := WordsOf(src);
    var r := Bytes(w[..base]) + Zeros(2 * len) + Bytes(w[base + len..]);
    forall k | 0 <= k < 8 ensures src[2 * k] == r[2 * k] && src[2 * k + 1] == r[2 * k + 1] {
      WordBack(src, k);
      if k < base {
        BytesAt(w[..base], k);
      } else if k < base + len {
        assert w[k] == 0;
      } else {
        BytesAt(w[base + len..], k - base - len);
      }
    }
    forall p | 0 <= p < 16 ensures src[p] == r[p] {
      assert p == 2 * (p / 2) || p == 2 * (p / 2) + 1;
    }
  }

  lemma WordBack(src: Address, k: nat)
    requires k < 8
    ensures WordsOf(src)[k] / 256 == src[2 * k] as int && WordsOf(src)[k] % 256 == src[2 * k + 1] as int
  {
  }

  // What the end makes of the bytes written.
  function Closed(out: seq<Byte>, colon: int): Result<seq<Byte>>
    requires -1 <= colon <= |out| <= 16
  {
    if colon == -1 then Ok(out) else Ok(out[..colon] + Zeros(16 - |out|) + out[colon..])
  }

  lemma FinishWith(st: State6, out: seq<Byte>)
    requires Ok6(st) && |st.out| + (if st.seen > 0 then 2 else 0) <= 16
    requires out == if st.seen > 0 then st.out + WordBytes(st.val) else st.out
    requires if st.colon == -1 then |out| == 16 else |out| < 16
    ensures Finish6(st) == Closed(out, st.colon)
  {
  }

  lemma ClosedTail(a: seq<Byte>, b: seq<Byte>)
    requires |a| + |b| < 16
    ensures Closed(a + b, |a|) == Ok(a + Zeros(16 - |a| - |b|) + b)
  {
    assert (a + b)[..|a|] == a && (a + b)[|a|..] == b;
  }

  // Every group read, or none.
  lemma FinishGroups(st: State6, ws: seq<nat>)
    requires forall i :: 0 <= i < |ws| ==> ws[i] < 0x10000
    requires Ok6(st) && st.seen == 0 && st.val == 0 && |st.out| + 2 * |ws| <= 16
    requires if st.colon == -1 then |st.out| + 2 * |ws| == 16 else |st.out| + 2 * |ws| < 16
    ensures Group(0, 0) && Run6(Join(ws), st) == Closed(st.out + Bytes(ws), st.colon)
  {
    hide Run6, Hex, Group, Join, Bytes, WordBytes, Finish6, Closed;
    NoDigits();
    if ws == [] {
      NoBytes();
      ReadEnd(st);
      FinishWith(st, st.out);
      assert st.out + [] == st.out;
    } else {
      RunJoin(ws, "", st);
      assert Join(ws) + "" == Join(ws);
      FinishSome(st, ws);
    }
  }

  lemma FinishSome(st: State6, ws: seq<nat>)
    requires ws != [] && forall i :: 0 <= i < |ws| ==> ws[i] < 0x10000
    requires Ok6(st) && st.seen == 0 && st.val == 0 && |st.out| + 2 * |ws| <= 16
    requires if st.colon == -1 then |st.out| + 2 * |ws| == 16 else |st.out| + 2 * |ws| < 16
    ensures var st1 := AfterGroups(st, ws, "");
            Ok6(st1) && Group(st1.val, st1.seen) && Run6("", st1) == Closed(st.out + Bytes(ws), st.colon)
  {
    hide Run6, Hex, Group, Join, Bytes, WordBytes, Finish6, Closed;
    var n := |ws| - 1;
    var st1 := AfterGroups(st, ws, "");
    var out := st1.out + WordBytes(ws[n]);
    HexGroup(ws[n]);
    ReadEnd(st1);
    FinishWith(st1, out);
    BytesSnoc(ws);
    AssocBytes(st.out, Bytes(ws[..n]), WordBytes(ws[n]));
    hide *;
    assert out == st.out + Bytes(ws);
  }

  lemma AssocBytes(a: seq<Byte>, b: seq<Byte>, c: seq<Byte>)
    ensures a + b + c == a + (b + c)
  {
  }

  lemma NoBytes()
    ensures Bytes([]) == [] && Join([]) == ""
  {
  }

  lemma {:induction false} BytesSnoc(ws: seq<nat>)
    requires ws != [] && forall i :: 0 <= i < |ws| ==> ws[i] < 0x10000
    ensures Bytes(ws) == Bytes(ws[..|ws| - 1]) + WordBytes(ws[|ws| - 1])
  {
    hide WordBytes;
    var n := |ws| - 1;
    if n > 0 {
      BytesSnoc(ws[1..]);
      assert ws[1..][..n - 1] == ws[..n][1..];
      assert Bytes(ws[..n]) == WordBytes(ws[0]) + Bytes(ws[1..][..n - 1]);
    } else {
      assert ws[1..] == [] && ws[..0] == [];
    }
  }

  // The state in which what follows the compressed run is read.
  function RestState(w: Words, base: nat, rest: string): State6
    requires base <= 8
  {
    State6(Bytes(w[..base]), 2 * base, 0, 0, rest)
  }

  lemma ReachRestLeading(rest: string)
    ensures Group(0, 0) && Parse6("::" + rest) == Run6(rest, State6([], 0, 0, 0, rest))
  {
    NoDigits();
    var text := "::" + rest;
    assert text[0] == ':' && text[1] == ':' && text[1..] == ":" + rest && text[1..][1..] == rest;
    ReadColon(text[1..], State6([], -1, 0, 0, text[1..]));
    hide Run6, Group;
  }

  // "::" after some groups.
  lemma ReadDoubleColon(rest: string, st: State6)
    requires Ok6(st) && Group(st.val, st.seen) && st.seen > 0 && st.colon == -1 && |st.out| + 2 <= 16
    ensures Group(0, 0) && Run6("::" + rest, st) == Run6(rest, State6(st.out + WordBytes(st.val), |st.out| + 2, 0, 0,
            rest))
  {
    hide Run6, Group, WordBytes;
    var s := "::" + rest;
    assert s[0] == ':' && s[1..] == ":" + rest && s[1..][0] == ':' && s[1..][1..] == rest;
    NoDigits();
    ReadColon(s, st);
    ReadColon(s[1..], State6(st.out + WordBytes(st.val), -1, 0, 0, s[1..]));
  }

  lemma ReachRestLater(pre: seq<nat>, rest: string)
    requires 0 < |pre| < 8 && forall i :: 0 <= i < |pre| ==> pre[i] < 0x10000
    ensures Group(0, 0) && Parse6(Join(pre) + "::" + rest) == Run6(rest, State6(Bytes(pre), 2 * |pre|, 0, 0, rest))
  {
    hide Run6, Hex, Group, Join, Bytes, WordBytes, Finish6;
    var text := Join(pre) + ("::" + rest);
    assert text == Join(pre) + "::" + rest;
    JoinSome(pre, "::" + rest);
    var st := State6([], -1, 0, 0, text);
    RunJoin(pre, "::" + rest, st);
    var n := |pre| - 1;
    HexGroup(pre[n]);
    BytesSnoc(pre);
    assert [] + Bytes(pre[..n]) == Bytes(pre[..n]);
    ReadDoubleColon(rest, AfterGroups(st, pre, "::" + rest));
  }

  lemma ReachRest(w: Words, base: nat, rest: string)
    requires base < 8
    ensures Ok6(RestState(w, base, rest)) && Group(0, 0) && Parse6(Join(w[..base]) + "::" + rest) ==
            Run6(rest, RestState(w, base, rest))
  {
    NoDigits();
    if base == 0 {
      NoBytes();
      assert w[..0] == [];
      hide Run6, Group, Join, Bytes, Parse6;
      ReachRestLeading(rest);
      assert "" + "::" + rest == "::" + rest;
    } else {
      hide Run6, Group, Join, Bytes, Parse6;
      ReachRestLater(w[..base], rest);
    }
  }

  // inet_pton6 undoes inet_ntop6, for every address and every run of at least
  // two zero words, the leftmost longest one included.
  lemma RoundTrip6(src: Address, r: ZeroRun)
    requires LeftmostLongest(WordsOf(src), r) && (r.base != -1 ==> 0 <= r.base && r.base + r.len <= 8)
    ensures Parse6(Text6(src, r)) == Ok(src)
  {
    if r.base == -1 {
      hide LeftmostLongest;
      PlainRoundTrip(src, r);
    } else {
      assert IsRun(WordsOf(src), r.base, r.len) && r.len >= 2;
      hide LeftmostLongest, IsRun, Text6, Parse6;
      if Embedded(WordsOf(src), r) { QuadRoundTrip(src, r); } else { GroupsRoundTrip(src, r); }
    }
  }

  lemma GroupsRoundTrip(src: Address, r: ZeroRun)
    requires 0 <= r.base && 2 <= r.len && r.base + r.len <= 8 && IsRun(WordsOf(src), r.base, r.len)
             && !Embedded(WordsOf(src), r)
    ensures Parse6(Text6(src, r)) == Ok(src)
  {
    hide Run6, Hex, Join, Bytes, Finish6, IsRun, Parse6, Group, Closed;
    var w := WordsOf(src);
    var post := w[r.base + r.len..];
    var st := RestState(w, r.base, Join(post));
    ReachRest(w, r.base, Join(post));
    BytesOfAddress(src, r.base, r.len);
    FinishGroups(st, post);
    ClosedTail(Bytes(w[..r.base]), Bytes(post));
  }

  lemma PlainRoundTrip(src: Address, r: ZeroRun)
    requires r.base == -1
    ensures Parse6(Text6(src, r)) == Ok(src)
  {
    var w := WordsOf(src);
    NoDigits();
    JoinSome(w, "");
    NoZeroBytes(src);
    hide Run6, Hex, Join, Bytes, Finish6, Group;
    assert Join(w) + "" == Join(w);
    FinishGroups(State6([], -1, 0, 0, Join(w)), w);
    assert [] + Bytes(w) == Bytes(w);
  }

  lemma NoZeroBytes(src: Address)
    ensures Bytes(WordsOf(src)) == src
  {
    var w := WordsOf(src);
    NoBytes();
    BytesOfAddress(src, 0, 0);
    hide Bytes;
    assert w[0..] == w && w[..0] == [];
    assert [] + Zeros(0) + Bytes(w) == Bytes(w);
  }

  lemma QuadRoundTrip(src: Address, r: ZeroRun)
    requires Embedded(WordsOf(src), r) && IsRun(WordsOf(src), r.base, r.len)
    ensures Parse6(Text6(src, r)) == Ok(src)
  {
    hide Run6, Hex, Join, Bytes, Finish6, Dotted, Group, Parse6, IsRun, Closed;
    var w := WordsOf(src);
    var rest := Rest(src, r);
    ReachRest(w, 0, rest);
    BytesOfAddress(src, 0, r.len);
    assert w[..0] == [];
    NoBytes();
    LastWords(src);
    NoDigits();
    if r.len == 6 { MappedFour(src, rest); } else { MappedSix(src, rest); }
  }

  // "::" and a dotted quad.
  lemma MappedFour(src: Address, rest: string)
    requires rest == "" + Dotted(src[12..])
    ensures Group(0, 0) && Run6(rest, State6([], 0, 0, 0, rest)) == Ok([] + Zeros(12) + src[12..])
  {
    hide Run6, Finish6, Dotted, Group;
    var quad: Octets := src[12..];
    assert rest == Dotted(quad);
    var st := State6([], 0, 0, 0, rest);
    NoDigits();
    RunQuad(quad, st);
    assert [] + quad == quad;
    FinishWith(st.(out := quad), quad);
    ClosedTail([], quad);
  }

  // "::ffff:" and a dotted quad.
  lemma MappedSix(src: Address, rest: string)
    requires rest == Hex(WordsOf(src)[5]) + ":" + Dotted(src[12..])
    ensures Group(0, 0) && Run6(rest, State6([], 0, 0, 0, rest)) ==
            Ok([] + Zeros(10) + (WordBytes(WordsOf(src)[5]) + src[12..]))
  {
    hide Run6, Finish6, Dotted, Group, Hex, WordBytes;
    var quad: Octets := src[12..];
    var w5 := WordsOf(src)[5];
    var s := ":" + Dotted(quad);
    assert rest == Hex(w5) + s;
    var st := State6([], 0, 0, 0, rest);
    NoDigits();
    RunHex(w5, s, st);
    assert s[0] == ':' && s[1..] == Dotted(quad);
    HexGroup(w5);
    DottedSome(quad);
    ReadColon(s, st.(val := w5, seen := |Hex(w5)|));
    var b := WordBytes(w5);
    assert [] + b == b;
    var st1 := State6(b, 0, 0, 0, Dotted(quad));
    RunQuad(quad, st1);
    FinishWith(st1.(out := b + quad), b + quad);
    assert [] + (b + quad) == b + quad;
    ClosedTail([], b + quad);
  }

  lemma DottedSome(a: Octets)
    ensures Dotted(a) != ""
  {
    hide Dec;
  }

  // The last four bytes are the last two words.
  lemma LastWords(src: Address)
    ensures var w := WordsOf(src); Bytes(w[6..]) == src[12..] && Bytes(w[5..]) == WordBytes(w[5]) + src[12..]
  {
    var w := WordsOf(src);
    assert w[6..] == [w[6], w[7]] && [w[6], w[7]][1..] == [w[7]] && [w[7]][1..] == [];
    assert w[5..][1..] == w[6..] && w[5..][0] == w[5];
    WordBack(src, 6);
    WordBack(src, 7);
    assert Bytes([w[7]]) == WordBytes(w[7]) + [];
    assert Bytes([w[6], w[7]]) == WordBytes(w[6]) + Bytes([w[7]]);
    assert src[12..] == [src[12], src[13], src[14], src[15]];
    assert Bytes(w[5..]) == WordBytes(w[5]) + Bytes(w[6..]);
  }

  // ---------- either case ----------

  function SmallLetter(c: char): char { if 'A' <= c <= 'Z' then (c as int + 32) as char else c }

  // The same text but for the case of its letters.
  predicate Alike(a: string, b: string) {
    |a| == |b| && forall i :: 0 <= i < |a| ==> SmallLetter(a[i]) == SmallLetter(b[i])
  }

  lemma CharAlike(c: char, d: char)
    requires SmallLetter(c) == SmallLetter(d)
    ensures HexValue(c) == HexValue(d) && DecValue(c) == DecValue(d) && (c == ':' <==> d == ':')
            && (c == '.' <==> d == '.')
  {
  }

  lemma {:induction false} Run4Alike(a: string, b: string, st: State4)
    requires Alike(a, b) && st.cur < 256
    ensures Run4(a, st) == Run4(b, st)
    decreases |a|
  {
    if a != "" {
      CharAlike(a[0], b[0]);
      hide SmallLetter, DecValue;
      var d := DecValue(a[0]);
      if d >= 0 {
        if st.cur * 10 + d <= 255 { Run4Alike(a[1..], b[1..], st.(cur := st.cur * 10 + d, saw := true)); }
      } else {
        Run4Alike(a[1..], b[1..], State4(st.done + [st.cur as Byte], 0, false));
      }
    }
  }

  lemma {:induction false} Run6Alike(a: string, b: string, st: State6, tok: string)
    requires Alike(a, b) && Alike(st.tok, tok) && Ok6(st) && Group(st.val, st.seen)
    ensures Run6(a, st) == Run6(b, st.(tok := tok))
    decreases |a|
  {
    var st2 := st.(tok := tok);
    hide Run6, SmallLetter, HexValue, Finish6, Parse4, WordBytes, Group;
    NoDigits();
    if a == "" {
      ReadEnd(st);
      ReadEnd(st2);
      assert Finish6(st) == Finish6(st2) by { FinishAlike(st, tok); }
    } else {
      CharAlike(a[0], b[0]);
      var d, rest, rest2 := HexValue(a[0]), a[1..], b[1..];
      if d >= 0 {
        ReadDigit(a, st);
        ReadDigit(b, st2);
        if st.seen < 4 { Run6Alike(rest, rest2, st.(val := 16 * st.val + d, seen := st.seen + 1), tok); }
      } else if a[0] == ':' {
        ReadColon(a, st);
        ReadColon(b, st2);
        if st.seen == 0 {
          if st.colon == -1 { Run6Alike(rest, rest2, st.(colon := |st.out|, tok := rest), rest2); }
        } else if rest != "" && |st.out| + 2 <= 16 {
          Run6Alike(rest, rest2, State6(st.out + WordBytes(st.val), st.colon, 0, 0, rest), rest2);
        }
      } else {
        ReadOther(a, st);
        ReadOther(b, st2);
        Parse4Alike(st.tok, tok);
        if st.tok != tok { FinishAlike(st, tok); }
        QuadAlike(st, tok);
      }
    }
  }

  lemma FinishAlike(st: State6, tok: string)
    requires Ok6(st)
    ensures Finish6(st) == Finish6(st.(tok := tok))
  {
  }

  lemma QuadAlike(st: State6, tok: string)
    requires Ok6(st) && Parse4(st.tok) == Parse4(tok)
    ensures |st.out| + 4 <= 16 && Parse4(tok).Ok? && |Parse4(tok).value| == 4 ==>
            var out := st.out + Parse4(tok).value;
            Finish6(st.(out := out, seen := 0)) == Finish6(st.(tok := tok, out := out, seen := 0))
  {
    hide Parse4;
  }

  lemma Parse4Alike(a: string, b: string)
    requires Alike(a, b)
    ensures Parse4(a) == Parse4(b)
  {
    Run4Alike(a, b, State4([], 0, false));
    hide Run4;
  }

  // Letters count alike in either case.
  lemma CaseDoesNotMatter(a: string, b: string)
    requires Alike(a, b)
    ensures Parse6(a) == Parse6(b)
  {
    NoDigits();
    if a != "" { CharAlike(a[0], b[0]); }
    if |a| > 1 { CharAlike(a[1], b[1]); }
    hide Run6, SmallLetter, HexValue, DecValue, Group;
    if a != "" && a[0] == ':' {
      if |a| > 1 && a[1] == ':' { Run6Alike(a[1..], b[1..], State6([], -1, 0, 0, a[1..]), b[1..]); }
    } else {
      Run6Alike(a, b, State6([], -1, 0, 0, a), b);
    }
  }
}
