// The numbers that the HTTP parser announces are the numbers that were spelled
// in the input.
module HttpAnnounce {
  import opened HttpMachine
  import opened HttpShape
  import opened HttpStream
  import opened HttpLength
  import Ledger = HttpLedger

  // ---------- chunks ----------

  // What may stand between a chunk size and the end of its line.
  predicate Extension(s: string) { Bytes(s) && CR !in s && (s != "" ==> s[0] == ';' || s[0] == ' ') }

  lemma SizeEnds(p: Parser, c: char)
    requires p.st.ChunkSize? && (c == ';' || c == ' ' || c == CR)
    ensures ByteStep(p, c) == Step(p.(st := if c == CR then ChunkSizeAlmostDone else ChunkParameters), [], Going)
  {
    hide NewMessage;
  }

  lemma ParametersGoOn(p: Parser, c: char)
    requires p.st.ChunkParameters? && c < 256 as char
    ensures ByteStep(p, c) == Step(p.(st := if c == CR then ChunkSizeAlmostDone else ChunkParameters), [], Going)
  {
    hide NewMessage, Unhex;
  }

  lemma SizeLineEnds(p: Parser)
    requires p.st.ChunkSizeAlmostDone?
    ensures var s := ByteStep(p, LF); s.end.Going? && s.events == [Noted(ChunkHeader, p.cl)] && s.p.cl == p.cl
  {
    hide NewMessage, Unhex;
    assert [Notify(ChunkHeader)][1..] == [];
    assert Told([Notify(ChunkHeader)], p.cl) == [Noted(ChunkHeader, p.cl)];
  }

  predicate InSize(r: Run, n: nat, log: seq<Event>, first: bool) {
    r.end.Going? && r.p.cl == n && r.log == log && if first then r.p.st.ChunkSize? else r.p.st.ChunkParameters?
  }

  lemma {:induction false} ExtensionSkipped(r: Run, ext: string)
    requires r.end.Going? && r.p.st.ChunkSize? && Extension(ext)
    ensures InSize(RunOver(r, ext), r.p.cl, r.log, ext == "")
    decreases |ext|
  {
    hide ByteStep, Extend;
    if ext != "" {
      var front, c := ext[..|ext| - 1], ext[|ext| - 1];
      ExtensionSkipped(r, front);
      var q := RunOver(r, front);
      ExtendEmpty(q.log);
      if front == "" { SizeEnds(q.p, c); } else { ParametersGoOn(q.p, c); }
    }
  }

  // The size that on_chunk_header finds is the number that the digits spell.
  lemma ChunkSizeAnnounced(r: Run, s: string, ext: string)
    requires r.end.Going? && r.p.st.ChunkSizeStart? && HexDigits(s) && s != "" && Hexadecimal(s) <= MAX_CHUNK
             && Extension(ext)
    ensures Bytes(s + ext + [CR] + [LF])
    ensures var q := RunOver(r, s + ext + [CR] + [LF]);
            q.end.Going? && q.p.cl == Hexadecimal(s) && q.log == Append(r.log, Noted(ChunkHeader, Hexadecimal(s)))
  {
    hide ByteStep, Extend, Append, RunOver, Hexadecimal;
    ChunkSizeExact(r, s);
    var a := RunOver(r, s);
    ExtensionSkipped(a, ext);
    RunSum(r, s, ext);
    var b := RunOver(a, ext);
    if ext == "" { SizeEnds(b.p, CR); } else { ParametersGoOn(b.p, CR); }
    OneMore(r, s + ext, CR);
    ExtendEmpty(b.log);
    var d := Feed(b, CR);
    SizeLineEnds(d.p);
    OneMore(r, s + ext + [CR], LF);
    ExtendOne(d.log, Noted(ChunkHeader, d.p.cl));
  }

  lemma OneMore(r: Run, data: string, c: char)
    requires Bytes(data) && c < 256 as char
    ensures Bytes(data + [c]) && RunOver(r, data + [c]) == Feed(RunOver(r, data), c)
  {
    assert (data + [c])[..|data|] == data;
  }

  // ---------- Content-Length ----------

  predicate HeaderState(s: St) {
    s.FieldStart? || s.HeaderField? || ValueState(s) || s.HeaderValue? || s.HeadersAlmostDone?
  }

  // In the headers of a message, after the Content-Length n.
  predicate Holds(p: Parser, n: nat) {
    HeaderState(p.st) && p.flags.contentLength && !p.flags.trailing && p.cl == n
      && !(p.st.HeaderValue? && p.hs.ContentLength?)
  }

  predicate IsAnnouncement(e: Event) { e.Noted? && e.note.HeadersComplete? }

  // The first announcement from position i on, if there is one, is of n.
  ghost predicate Announced(log: seq<Event>, from: nat, n: nat) {
    exists i :: from <= i < |log| && log[i] == Noted(HeadersComplete, n) && forall k :: from <= k < i ==>
      !IsAnnouncement(log[k])
  }

  predicate NotYet(log: seq<Event>, from: nat) { forall k :: from <= k < |log| ==> !IsAnnouncement(log[k]) }

  // What one turn of the switch does.
  predicate Keeps(o: Out, n: nat) {
    o.flow.Fail? || (Holds(o.p, n) && !o.flow.Stop? && forall i :: 0 <= i < |o.acts| ==> !o.acts[i].Notify?)
  }

  lemma FieldStartKeeps(p: Parser, c: char, n: nat)
    requires p.st.FieldStart? && Holds(p, n)
    ensures Keeps(FieldStartByte(p, c), n)
  {
    hide Token;
  }

  lemma ValueStartKeeps(p: Parser, c: char, n: nat)
    requires c < 256 as char && ValueState(p.st) && Holds(p, n)
    ensures Keeps(ValueStartByte(p, c), n)
  {
    hide Lower;
  }

  lemma EndFlagsHold(h: HState, flags: Flags)
    ensures EndFlags(h, flags).contentLength == flags.contentLength
    ensures EndFlags(h, flags).trailing == flags.trailing
  {}

  lemma HeaderEndHolds(p: Parser, n: nat)
    requires ValueState(p.st) && Holds(p, n)
    ensures Holds(HeaderEnd(p).(st := FieldStart), n)
  {
    hide EndFlags;
    EndFlagsHold(p.hs, p.flags);
  }

  lemma FoldKeeps(p: Parser, c: char, n: nat)
    requires c < 256 as char && FoldState(p.st) && Holds(p, n)
    ensures Keeps(ValueByte(p, c), n)
  {
    hide ValueStartByte, HeaderEnd;
    HeaderEndHolds(p, n);
  }

  lemma GapKeeps(p: Parser, c: char, n: nat)
    requires c < 256 as char && (p.st.DiscardWs? || p.st.ValueStart?) && Holds(p, n)
    ensures Keeps(ValueByte(p, c), n)
  {
    hide ValueStartByte, HeaderEnd;
    ValueStartKeeps(p, c, n);
  }

  lemma AlmostDoneKeeps(p: Parser, c: char, n: nat)
    requires p.st.HeadersAlmostDone? && Holds(p, n)
    ensures var o := HeadersByte(p, c); o.flow.Fail? || (o.acts == [Notify(HeadersComplete)] && o.p.cl == n)
  {}

  lemma TurnKeeps(p: Parser, c: char, n: nat)
    requires c < 256 as char && Holds(p, n) && !Looping(p.st)
    ensures var o := OneByte(p, c);
            if p.st.HeadersAlmostDone? then o.flow.Fail? || (o.acts == [Notify(HeadersComplete)] && o.p.cl == n)
              else Keeps(o, n)
  {
    hide Keeps, FieldStartByte, ValueByte, HeadersByte, StartByte, ResponseByte, RequestByte, ChunkByte;
    if p.st.FieldStart? { FieldStartKeeps(p, c, n); }
    else if p.st.HeadersAlmostDone? { AlmostDoneKeeps(p, c, n); }
    else if FoldState(p.st) { FoldKeeps(p, c, n); }
    else { GapKeeps(p, c, n); }
  }

  // What a byte does to parser and events.
  ghost predicate StepKeeps(s: Step, n: nat) {
    s.end.Failed? || s.end.Unspecified? || Announced(s.events, 0, n)
      || (Holds(s.p, n) && s.end.Going? && NotYet(s.events, 0))
  }

  lemma {:induction false} ToldNothing(acts: seq<Act>, cl: nat)
    requires forall i :: 0 <= i < |acts| ==> !acts[i].Notify?
    ensures NotYet(Told(acts, cl), 0)
    decreases |acts|
  {
    if acts != [] { ToldNothing(acts[1..], cl); }
  }

  lemma AnnouncedFirst(n: nat, rest: seq<Event>)
    ensures Announced([Noted(HeadersComplete, n)] + rest, 0, n)
  {
    assert ([Noted(HeadersComplete, n)] + rest)[0] == Noted(HeadersComplete, n);
  }

  lemma AnnouncedLater(a: seq<Event>, b: seq<Event>, n: nat)
    requires NotYet(a, 0)
    ensures Announced(b, 0, n) ==> Announced(a + b, 0, n)
    ensures NotYet(b, 0) ==> NotYet(a + b, 0)
  {
    if Announced(b, 0, n) {
      var i :| 0 <= i < |b| && b[i] == Noted(HeadersComplete, n) && forall k :: 0 <= k < i ==> !IsAnnouncement(b[k]);
      assert (a + b)[|a| + i] == Noted(HeadersComplete, n);
    }
  }

  lemma {:induction false} OneStepKeeps(p: Parser, c: char, n: nat)
    requires c < 256 as char && Holds(p, n) && !Looping(p.st)
    ensures StepKeeps(OneStep(p, c), n)
    decreases Rank(p.st)
  {
    hide OneByte, Holds, Announced, NotYet, Told, Looping, Rank, Open, Plain, Begins;
    TurnKeeps(p, c, n);
    var o := OneByte(p, c);
    if !o.flow.Fail? {
      var told := Told(o.acts, o.p.cl);
      if p.st.HeadersAlmostDone? {
        OneTold(HeadersComplete, n);
        var rest := OneStep(p, c).events[1..];
        if o.flow.Again? { RankFalls(p, c); }
        assert OneStep(p, c).events == [Noted(HeadersComplete, n)] + rest by { EventsBegin(p, c, n); }
        AnnouncedFirst(n, rest);
      } else {
        ToldNothing(o.acts, o.p.cl);
        if o.flow.Again? {
          RankFalls(p, c);
          OneStepKeeps(o.p, c, n);
          AnnouncedLater(told, OneStep(o.p, c).events, n);
        } else {
          ItemQuiet(o.p.st, c);
          AnnouncedLater(told, Item(o.p.st, c), n);
        }
      }
    }
  }

  lemma OneTold(note: Note, n: nat)
    ensures Told([Notify(note)], n) == [Noted(note, n)]
  {
    assert [Notify(note)][1..] == [];
    assert Told([], n) == [];
  }

  lemma EventsBegin(p: Parser, c: char, n: nat)
    requires c < 256 as char && !Looping(p.st)
    requires var o := OneByte(p, c); !o.flow.Fail? && o.acts == [Notify(HeadersComplete)] && o.p.cl == n
    ensures var e := OneStep(p, c).events; e != [] && e == [Noted(HeadersComplete, n)] + e[1..]
  {
    hide OneByte, Told, Item, Looping;
    OneTold(HeadersComplete, n);
    if OneByte(p, c).flow.Again? { RankFalls(p, c); }
  }

  lemma ItemQuiet(s: St, c: char)
    ensures NotYet(Item(s, c), 0)
  {}

  lemma WordHolds(p: Parser, n: nat, l: char, word: string, done: HState, otherwise: HState)
    requires p.st.HeaderValue? && Holds(p, n) && WordHs(done) && WordHs(otherwise) && WordHs(p.hs)
    ensures Holds(MatchWord(p, l, word, done, otherwise).(st := HeaderValue), n)
  {
    hide MatchWord;
    Ledger.MatchWordKeeps(p, l, word, done, otherwise);
    MatchWordInv(p, l, word, done, otherwise);
  }

  lemma MatchingHolds(p: Parser, c: char, n: nat)
    requires c < 256 as char && p.st.HeaderValue? && Holds(p, n) && Ledger.MatchingWord(p.hs)
    ensures Holds(ValueChar(p, c).p, n)
  {
    hide MatchWord, Lower, Holds;
    var l := Lower(c);
    if p.hs.MatchingChunked? { WordHolds(p, n, l, "chunked", Chunked, General); }
    else if p.hs.MatchingKeepAlive? { WordHolds(p, n, l, "keep-alive", KeepAlive, ConnToken); }
    else if p.hs.MatchingClose? { WordHolds(p, n, l, "close", Close, ConnToken); }
    else { WordHolds(p, n, l, "upgrade", ConnUpgrade, ConnToken); }
  }

  lemma WordEndHolds(p: Parser, c: char, n: nat, flags: Flags)
    requires p.st.HeaderValue? && Holds(p, n) && flags.contentLength == p.flags.contentLength
             && flags.trailing == p.flags.trailing
    ensures Holds(WordEnd(p, c, flags).p, n)
  {}

  lemma MatchedHolds(p: Parser, c: char, n: nat)
    requires c < 256 as char && p.st.HeaderValue? && Holds(p, n) && Ledger.MatchedWord(p.hs)
    ensures Holds(ValueChar(p, c).p, n)
  {
    hide MatchWord, Lower, Token, WordEnd, Holds;
    assert Holds(p, n);
    WordEndHolds(p, c, n, p.flags.(keepAlive := true));
    WordEndHolds(p, c, n, p.flags.(close := true));
    WordEndHolds(p, c, n, p.flags.(connUpgrade := true));
  }

  lemma OtherHolds(p: Parser, c: char, n: nat)
    requires c < 256 as char && p.st.HeaderValue? && Holds(p, n) && !Ledger.MatchingWord(p.hs)
             && !Ledger.MatchedWord(p.hs)
    ensures Holds(ValueChar(p, c).p, n)
  {
    hide MatchWord, Lower, Token, WordEnd;
  }

  lemma ValueHolds(p: Parser, c: char, n: nat)
    requires c < 256 as char && p.st.HeaderValue? && Holds(p, n)
    ensures Holds(ValueChar(p, c).p, n)
  {
    hide ValueChar, Holds;
    if Ledger.MatchingWord(p.hs) { MatchingHolds(p, c, n); }
    else if Ledger.MatchedWord(p.hs) { MatchedHolds(p, c, n); }
    else { OtherHolds(p, c, n); }
  }

  lemma OneQuiet(k: Kind, b: string)
    ensures NotYet([Data(k, b)], 0)
  {}

  lemma ValueKeeps(p: Parser, c: char, n: nat)
    requires c < 256 as char && p.st.HeaderValue? && Holds(p, n)
    ensures StepKeeps(ValueStep(p, c), n)
  {
    hide ValueChar, OneStep, IsHeaderChar, Announced, NotYet;
    OneQuiet(Value, "");
    OneQuiet(Value, [c]);
    ValueHolds(p, c, n);
    if c == LF {
      var q := p.(st := HeaderAlmostDone);
      OneStepKeeps(q, c, n);
      AnnouncedLater([Data(Value, "")], OneStep(q, c).events, n);
    }
  }

  lemma FieldKeeps(p: Parser, c: char, n: nat)
    requires c < 256 as char && p.st.HeaderField? && Holds(p, n)
    ensures StepKeeps(ByteStep(p, c), n)
  {
    hide FieldChar, Token, Announced, NotYet;
    Ledger.FieldKnown(p, c, Token(c));
    OneQuiet(Field, "");
    OneQuiet(Field, [c]);
  }

  lemma ByteKeeps(p: Parser, c: char, n: nat)
    requires c < 256 as char && Holds(p, n)
    ensures StepKeeps(ByteStep(p, c), n)
  {
    hide OneStep, ValueStep, BodyStep, StepKeeps, FieldChar, Token;
    if !Looping(p.st) { OneStepKeeps(p, c, n); }
    else if p.st.HeaderField? { FieldKeeps(p, c, n); }
    else { ValueKeeps(p, c, n); }
  }

  // ---------- over whole runs ----------

  // Later events change no notice that is in the log.
  lemma AppendKeeps(log: seq<Event>, e: Event, from: nat, n: nat)
    requires from <= |log|
    ensures |Append(log, e)| >= |log|
    ensures Announced(log, from, n) ==> Announced(Append(log, e), from, n)
    ensures NotYet(log, from) && !IsAnnouncement(e) ==> NotYet(Append(log, e), from)
    ensures NotYet(log, from) && e == Noted(HeadersComplete, n) ==> Announced(Append(log, e), from, n)
  {
    var more := Append(log, e);
    assert forall k :: 0 <= k < |log| ==>
      IsAnnouncement(more[k]) == IsAnnouncement(log[k])
      && (log[k].Noted? ==> more[k] == log[k]);
    if Announced(log, from, n) {
      var i :| from <= i < |log| && log[i] == Noted(HeadersComplete, n) && forall k :: from <= k < i ==>
        !IsAnnouncement(log[k]);
      assert more[i] == Noted(HeadersComplete, n);
    }
    if e == Noted(HeadersComplete, n) { assert more[|log|] == e; }
  }

  lemma {:induction false} ExtendKeeps(log: seq<Event>, es: seq<Event>, from: nat, n: nat)
    requires from <= |log|
    ensures |Extend(log, es)| >= |log|
    ensures Announced(log, from, n) ==> Announced(Extend(log, es), from, n)
    ensures NotYet(log, from) && NotYet(es, 0) ==> NotYet(Extend(log, es), from)
    ensures NotYet(log, from) && Announced(es, 0, n) ==> Announced(Extend(log, es), from, n)
    decreases |es|
  {
    hide Append;
    if es != [] {
      var m := |es| - 1;
      var front := es[..m];
      ExtendKeeps(log, front, from, n);
      AppendKeeps(Extend(log, front), es[m], from, n);
      if Announced(es, 0, n) {
        var i :| 0 <= i < |es| && es[i] == Noted(HeadersComplete, n) && forall k :: 0 <= k < i ==>
          !IsAnnouncement(es[k]);
        if i < m { assert front[i] == Noted(HeadersComplete, n); }
      }
    }
  }

  // A run that is in the headers of a message, after the Content-Length n:
  // the next announcement is of n.
  lemma {:induction false} HeldUntilAnnounced(r: Run, data: string, n: nat)
    requires Bytes(data) && r.end.Going? && Holds(r.p, n)
    ensures var q := RunOver(r, data);
            && |q.log| >= |r.log|
            && (q.end.Failed? || q.end.Unspecified? || Announced(q.log, |r.log|, n)
               || (q.end.Going? && Holds(q.p, n) && NotYet(q.log, |r.log|)))
    decreases |data|
  {
    hide ByteStep, Holds, Announced, NotYet, Extend;
    if data == "" {
      NothingNew(r.log);
    } else {
      var front, c := data[..|data| - 1], data[|data| - 1];
      HeldUntilAnnounced(r, front, n);
      var q := RunOver(r, front);
      if q.end.Going? {
        ExtendKeeps(q.log, ByteStep(q.p, c).events, |r.log|, n);
        if Holds(q.p, n) { ByteKeeps(q.p, c, n); }
      }
    }
  }

  lemma NothingNew(log: seq<Event>)
    ensures NotYet(log, |log|)
  {}

  lemma ValueEnds(p: Parser)
    requires p.st.HeaderValue? && p.flags.contentLength && !p.flags.trailing
    ensures ByteStep(p, CR).end.Going? && Holds(ByteStep(p, CR).p, p.cl) && ByteStep(p, CR).events == [Data(Value, "")]
  {}

  // What on_headers_complete finds in content_length is the number that the
  // digits of the Content-Length spell.
  lemma ContentLengthAnnounced(r: Run, s: string, data: string)
    requires r.end.Going? && r.p.st.ValueStart? && r.p.hs.ContentLength? && !r.p.flags.contentLength
             && !r.p.flags.trailing
    requires Digits(s) && s != "" && IsNum(s[0]) && Decimal(s) <= MAX_LENGTH && Bytes(data)
    ensures Bytes(s + [CR] + data)
    ensures var q := RunOver(r, s + [CR] + data);
            q.end.Failed? || q.end.Unspecified? || Announced(q.log, |RunOver(r, s + [CR]).log|, Decimal(s))
            || (q.end.Going? && Holds(q.p, Decimal(s)))
  {
    hide ByteStep, Extend, RunOver, Decimal, Holds, Announced;
    ContentLengthExact(r, s);
    LengthFlags(r, s);
    var a := RunOver(r, s);
    ValueEnds(a.p);
    OneMore(r, s, CR);
    RunSum(r, s + [CR], data);
    HeldUntilAnnounced(RunOver(r, s + [CR]), data, Decimal(s));
  }

  lemma FirstFlags(p: Parser, c: char)
    requires p.st.ValueStart? && p.hs.ContentLength? && !p.flags.contentLength && IsNum(c)
    ensures ByteStep(p, c).p.flags == p.flags.(contentLength := true)
  {
    assert OneByte(p, c) == ValueStartByte(p, c);
  }

  // The flags while the digits are read.
  lemma {:induction false} LengthFlags(r: Run, s: string)
    requires r.end.Going? && r.p.st.ValueStart? && r.p.hs.ContentLength? && !r.p.flags.contentLength
    requires Digits(s) && s != "" && IsNum(s[0]) && Bytes(s) && RunOver(r, s).end.Going?
    ensures RunOver(r, s).p.flags == r.p.flags.(contentLength := true)
    decreases |s|
  {
    hide ByteStep, Extend, Decimal;
    var front, c := s[..|s| - 1], s[|s| - 1];
    if |s| == 1 {
      assert front == "" && RunOver(r, front) == r;
      FirstFlags(r.p, c);
    } else {
      LengthFlags(r, front);
      ContentLengthExact(r, front);
      var q := RunOver(r, front);
      if c == ' ' { SkipSpace(q.p); } else { NextDigit(q.p, c); }
    }
  }
}
