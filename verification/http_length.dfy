// The length fields of the HTTP parser: content_length is the number that the
// digits spell, and the body that is handed over is as long as announced.
module HttpLength {
  import opened HttpMachine
  import opened HttpShape
  import opened HttpStream

  // ---------- the numbers ----------

  // A Content-Length value: digits, among which the parser skips spaces.
  predicate Digits(s: string) { forall i :: 0 <= i < |s| ==> IsNum(s[i]) || s[i] == ' ' }

  function Decimal(s: string): nat
    requires Digits(s)
  {
    if s == "" then 0
    else
      var n := Decimal(s[..|s| - 1]);
      if s[|s| - 1] == ' ' then n else 10 * n + Num(s[|s| - 1])
  }

  predicate HexDigits(s: string) { forall i :: 0 <= i < |s| ==> Unhex(s[i]) != -1 }

  function Hexadecimal(s: string): nat
    requires HexDigits(s)
  {
    if s == "" then 0 else 16 * Hexadecimal(s[..|s| - 1]) + Unhex(s[|s| - 1])
  }

  // The largest numbers that the conservative tests let through.
  const MAX_LENGTH: nat := 18446744073709551609
  const MAX_CHUNK: nat := 18446744073709551599

  lemma NumRange(c: char)
    requires IsNum(c)
    ensures 0 <= Num(c) < 10 && c < 256 as char && c != CR && c != LF && c != ' ' && IsHeaderChar(c)
  {}

  lemma DecimalTest(n: nat, d: nat)
    requires d < 10
    ensures (ULLONG_MAX - 10) / 10 >= n <==> 10 * n + d <= MAX_LENGTH
    ensures (ULLONG_MAX - 10) / 10 >= n ==> (10 * n + d) % TWO64 == 10 * n + d
  {}

  lemma HexTest(n: nat, d: nat)
    requires d < 16
    ensures (ULLONG_MAX - 16) / 16 >= n <==> 16 * n + d <= MAX_CHUNK
    ensures (ULLONG_MAX - 16) / 16 >= n ==> (16 * n + d) % TWO64 == 16 * n + d
  {}

  // The first digit of a Content-Length.
  lemma FirstDigit(p: Parser, c: char)
    requires p.st.ValueStart? && p.hs.ContentLength? && !p.flags.contentLength && IsNum(c)
    ensures c < 256 as char
    ensures var s := ByteStep(p, c);
            s.end.Going? && s.p.st.HeaderValue? && s.p.hs.ContentLength? && s.p.cl == Num(c)
  {
    hide ShouldKeepAlive;
    assert OneByte(p, c) == ValueStartByte(p, c);
  }

  // Every further digit.
  lemma NextDigit(p: Parser, c: char)
    requires p.st.HeaderValue? && p.hs.ContentLength? && IsNum(c)
    ensures c < 256 as char
    ensures var s := ByteStep(p, c);
            if 10 * p.cl + Num(c) <= MAX_LENGTH then s.end.Going? && s.p == p.(cl := 10 * p.cl + Num(c))
            else s.end == Failed(InvalidContentLength)
  {
    NumRange(c);
    DecimalTest(p.cl, Num(c));
    hide OneStep, BodyStep, FieldChar;
    assert p.(st := HeaderValue) == p;
  }

  lemma FirstHex(p: Parser, c: char)
    requires p.st.ChunkSizeStart? && Unhex(c) != -1
    ensures c < 256 as char
    ensures ByteStep(p, c) == Step(p.(cl := Unhex(c), st := ChunkSize), [], Going)
  {
    hide Unhex, NewMessage;
    HexChar(c);
  }

  lemma HexChar(c: char)
    requires Unhex(c) != -1
    ensures c < 256 as char && c != CR && 0 <= Unhex(c) < 16
  {}

  lemma NextHex(p: Parser, c: char)
    requires p.st.ChunkSize? && Unhex(c) != -1
    ensures c < 256 as char
    ensures var s := ByteStep(p, c);
            if 16 * p.cl + Unhex(c) <= MAX_CHUNK then s == Step(p.(cl := 16 * p.cl + Unhex(c)), [], Going)
            else s.end == Failed(InvalidContentLength)
  {
    HexChar(c);
    HexTest(p.cl, Unhex(c));
    hide Unhex, NewMessage;
  }

  lemma SkipSpace(p: Parser)
    requires p.st.HeaderValue? && p.hs.ContentLength?
    ensures ByteStep(p, ' ').end.Going? && ByteStep(p, ' ').p == p
  {
    hide OneStep, BodyStep, FieldChar;
    assert p.(st := HeaderValue) == p;
  }

  // A Content-Length is accepted exactly up to MAX_LENGTH, and content_length
  // is then the number that its digits spell.
  lemma {:induction false} ContentLengthExact(r: Run, s: string)
    requires r.end.Going? && r.p.st.ValueStart? && r.p.hs.ContentLength? && !r.p.flags.contentLength
    requires Digits(s) && s != "" && IsNum(s[0])
    ensures Bytes(s)
    ensures var q := RunOver(r, s);
            if Decimal(s) <= MAX_LENGTH then q.end.Going? && q.p.st.HeaderValue? && q.p.hs.ContentLength?
              && q.p.cl == Decimal(s) < ULLONG_MAX
            else q.end == Failed(InvalidContentLength)
    decreases |s|
  {
    hide ByteStep, Extend, Unhex;
    var front, c := s[..|s| - 1], s[|s| - 1];
    if |s| == 1 {
      assert front == "";
      assert RunOver(r, front) == r;
      FirstDigit(r.p, c);
      NumRange(c);
    } else {
      ContentLengthExact(r, front);
      var q := RunOver(r, front);
      if q.end.Going? {
        if c == ' ' { SkipSpace(q.p); } else { NextDigit(q.p, c); }
      }
    }
  }

  // A chunk size is accepted exactly up to MAX_CHUNK, and content_length is
  // then the number that its digits spell.
  lemma {:induction false} ChunkSizeExact(r: Run, s: string)
    requires r.end.Going? && r.p.st.ChunkSizeStart? && HexDigits(s) && s != ""
    ensures Bytes(s)
    ensures var q := RunOver(r, s);
            if Hexadecimal(s) <= MAX_CHUNK then q.end.Going? && q.p.st.ChunkSize?
              && q.p.cl == Hexadecimal(s) < ULLONG_MAX && q.log == r.log
            else q.end == Failed(InvalidContentLength)
    decreases |s|
  {
    hide ByteStep, Unhex, Extend;
    var front, c := s[..|s| - 1], s[|s| - 1];
    HexChar(c);
    if |s| == 1 {
      assert front == "";
      assert RunOver(r, front) == r;
      assert Hexadecimal(front) == 0;
      FirstHex(r.p, c);
      ExtendEmpty(r.log);
    } else {
      ChunkSizeExact(r, front);
      var q := RunOver(r, front);
      if q.end.Going? {
        NextHex(q.p, c);
        ExtendEmpty(q.log);
      } else {
        assert Feed(q, c) == q;
      }
    }
  }

  lemma ExtendEmpty(log: seq<Event>)
    ensures Extend(log, []) == log
  {}
}
