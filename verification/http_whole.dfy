// Whole messages: what the HTTP parser reports of a message is what its parts
// say.
module HttpWhole {
  import opened HttpMachine
  import opened HttpShape
  import opened HttpStream
  import opened HttpSegments
  import opened HttpLine
  import opened HttpFirstLine
  import opened HttpValues
  import opened HttpHeaders
  import opened HttpBody
  import opened HttpMessage
  import HttpLength
  import HttpPieces
  import HttpParser

  // ---------- the end of the header ----------

  // What the parser knows once the header is read.
  ghost predicate Knows(a: Parser, m: Message) {
    && Means(a.flags, a.cl, Meaning(m.headers))
    && (if m.RequestMessage? then a.ty == Request && a.verb == m.verb
        else a.ty == Response && a.verb != "CONNECT" && a.status == Number(m.status))
    && a.major == Number(m.version.major) && a.minor == Number(m.version.minor)
  }

  // The state in which the next message is awaited.
  function NextState(m: Message): St {
    if !Persists(m) then Dead else if m.RequestMessage? then StartReq else StartRes
  }

  // What matters of a proper message after its first line.
  predicate Fits(m: Message) {
    var w := Meaning(m.headers);
    && BodyFits(m) && !(w.chunked && w.length.Length?) && (w.length.Length? ==> w.length.n <= HttpLength.MAX_LENGTH)
    && (m.ResponseMessage? ==> Number(m.status) <= 999)
  }

  lemma ProperFits(m: Message)
    requires ProperMessage(m)
    ensures Fits(m)
  {
    LengthSmall(m.headers);
    hide Meaning, Number, ProperTarget, ProperBody, ProperHeader, BodyFits;
  }

  lemma NextIs(a: Parser, m: Message)
    requires Knows(a, m) && Fits(m)
    ensures NeedsEof(a) == OpenEnded(m) && NewMessage(a) == NextState(m)
  {
    hide Meaning, Number, BodyFits;
  }

  // The same after the body.
  lemma NextAfterBody(a: Parser, b: Parser, m: Message)
    requires Knows(a, m) && Fits(m) && Framed(m)
    requires b == a.(cl := 0, st := b.st, flags := a.flags.(trailing := b.flags.trailing), upgrade := b.upgrade,
                     hs := b.hs, index := b.index)
    ensures NewMessage(b) == NextState(m)
  {
    hide Meaning, Number, BodyFits;
  }

  // The parser after the line feed of the empty line.
  function Chosen(a: Parser, m: Message): Parser {
    a.(upgrade := Switches(m),
       st := match m.body case NoBody => NextState(m) case SizedBody(_) => BodyIdentity
             case ChunkedBody(_, _, _, _) => ChunkSizeStart case RestBody(_) => BodyIdentityEof)
  }

  function ToldEvents(m: Message): seq<Event> {
    [Noted(HeadersComplete, Announced(m))] + if m.body.NoBody? then [Noted(MessageComplete, Announced(m))] else []
  }

  function ToldEnd(m: Message): End { if m.body.NoBody? then EndOf(Switches(m)) else Going }

  lemma HeadersTold(a: Parser, m: Message)
    requires a.st.HeadersAlmostDone? && Knows(a, m) && Fits(m)
    ensures var b := a.(st := HeadersDone, upgrade := Switches(m));
            OneByte(a, LF) == Out(b, [Notify(HeadersComplete)], Again) && a.cl == Announced(m)
  {
    hide Meaning, Number, BodyFits, NewMessage, NeedsEof;
  }

  lemma BodyChosen(b: Parser, m: Message)
    requires b.st.HeadersDone? && Knows(b, m) && Fits(m) && b.upgrade == Switches(m)
    ensures OneByte(b, LF) == Out(Chosen(b, m), if m.body.NoBody? then [Notify(MessageComplete)] else [],
                                  if m.body.NoBody? && Switches(m) then Stop else Advance)
  {
    NextIs(b, m);
    hide Meaning, Number, NewMessage, NeedsEof, NextState;
  }

  lemma LineFeedLeads(a: Parser, m: Message)
    requires a.st.HeadersAlmostDone? && Knows(a, m) && Fits(m)
    ensures Leads(a, "\n", Chosen(a, m), ToldEvents(m), ToldEnd(m))
  {
    var b := a.(st := HeadersDone, upgrade := Switches(m));
    var z := Chosen(a, m);
    HeadersTold(a, m);
    assert Knows(b, m) by { KnowsOn(a, b, m); }
    BodyChosen(b, m);
    RankFalls(a, LF);
    hide OneByte, Knows, Fits, NextState, Switches, Announced;
    ToldOne(Notify(HeadersComplete), b.cl);
    ToldOne(Notify(MessageComplete), z.cl);
    LineFeedStep(a, b, z, m);
    hide OneStep, ByteStep;
    LeadsByte(a, LF, z, ToldEvents(m), ToldEnd(m));
  }

  lemma KnowsOn(a: Parser, b: Parser, m: Message)
    requires Knows(a, m) && b == a.(st := b.st, upgrade := b.upgrade, hs := b.hs, index := b.index)
    ensures Knows(b, m)
  {
    hide Meaning, Number;
  }

  lemma LineFeedStep(a: Parser, b: Parser, z: Parser, m: Message)
    requires a.st.HeadersAlmostDone? && b == a.(st := HeadersDone, upgrade := Switches(m)) && z == Chosen(b, m)
    requires a.cl == Announced(m)
    requires OneByte(a, LF) == Out(b, [Notify(HeadersComplete)], Again)
    requires OneByte(b, LF) == Out(z, if m.body.NoBody? then [Notify(MessageComplete)] else [],
                                   if m.body.NoBody? && Switches(m) then Stop else Advance)
    ensures ByteStep(a, LF) == Step(z, ToldEvents(m), ToldEnd(m))
  {
    hide OneByte, Switches, Announced;
    ToldOne(Notify(HeadersComplete), b.cl);
    ToldOne(Notify(MessageComplete), z.cl);
    assert Told([], z.cl) == [];
    assert Item(z.st, LF) == [] by { hide Persists; }
    var rest := if m.body.NoBody? then [Noted(MessageComplete, z.cl)] else [];
    assert rest + [] == rest;
    assert OneStep(b, LF) == Step(z, rest, ToldEnd(m));
  }

  // ---------- the body ----------

  // What is left of the events once the headers are told.
  function RestEvents(m: Message): seq<Event> { if m.body.NoBody? then [] else BodyEvents(m) }

  // The parser when the message is over, or when its body goes on for ever.
  ghost predicate Over(a: Parser, m: Message, q: Parser) {
    && q.st == (if m.body.RestBody? then BodyIdentityEof else NextState(m))
    && q.ty == a.ty && q.verb == a.verb && q.major == a.major && q.minor == a.minor && q.status == a.status
    && q.upgrade == Switches(m)
  }

  lemma SizedOver(a: Parser, m: Message) returns (q: Parser)
    requires Knows(a, m) && Fits(m) && m.body.SizedBody? && ProperBody(m.body)
    ensures Over(a, m, q) && Leads(Chosen(a, m), BodyText(m.body), q, RestEvents(m), EndOf(Switches(m)))
  {
    var b := Chosen(a, m);
    var d := b.(cl := 0, st := MessageDone);
    SizedLength(a, m);
    SizedLeads(b, m.body.bytes);
    NextAfterBody(a, d, m);
    q := d.(st := NewMessage(d));
    hide Leads, NewMessage, Switches, Persists, Knows, Fits;
  }

  lemma SizedLength(a: Parser, m: Message)
    requires Knows(a, m) && Fits(m) && m.body.SizedBody?
    ensures a.cl == |m.body.bytes| && (m.body.bytes != "" ==> Framed(m))
  {
    hide Meaning, Number;
  }

  lemma RestOver(a: Parser, m: Message)
    requires Knows(a, m) && Fits(m) && m.body.RestBody? && ProperBody(m.body)
    ensures var b := Chosen(a, m);
            Over(a, m, b) && Leads(b, BodyText(m.body), b, RestEvents(m), EndOf(Switches(m)))
  {
    var b := Chosen(a, m);
    RestLeads(b, m.body.bytes);
    RestKeeps(m);
    hide Leads, Switches, Persists, Knows, Fits;
  }

  lemma RestKeeps(m: Message)
    requires Fits(m) && m.body.RestBody?
    ensures !Switches(m)
  {
    hide Meaning, Number;
  }

  lemma ChunkedFramed(a: Parser, m: Message)
    requires Knows(a, m) && Fits(m) && m.body.ChunkedBody?
    ensures Framed(m) && !a.flags.contentLength && !a.flags.trailing
  {
    hide Meaning, Number;
  }

  // The last chunk, which has no data.
  lemma LastChunkLeads(p: Parser, last: string, extension: string) returns (q: Parser)
    requires p.st.ChunkSizeStart? && HexNumeral(last) && HexNumber(last) == 0 && ProperExtension(extension)
    ensures q == p.(cl := 0, flags := p.flags.(trailing := true), st := FieldStart)
    ensures Leads(p, last + extension + "\r\n", q, [Noted(ChunkHeader, 0)], Going)
  {
    hide Leads, HexNumber, HexNumeral;
    var a := p.(cl := 0, st := ChunkSizeAlmostDone);
    q := p.(cl := 0, flags := p.flags.(trailing := true), st := FieldStart);
    SizeLineLeads(p, last, extension);
    ChunkStarts(a);
    LeadsAfter(p, last + extension + "\r", a, "\n", q, [Noted(ChunkHeader, 0)], Going);
    assert last + extension + "\r" + "\n" == last + extension + "\r\n";
  }

  // The trailers and the empty line after them.
  lemma TrailersLead(s: Parser, hs: seq<Header>) returns (q: Parser)
    requires s.st.FieldStart? && s.flags.trailing && !s.flags.contentLength && s.cl == 0
    requires forall i :: 0 <= i < |hs| ==> ProperHeader(hs[i]) && hs[i].PlainHeader?
    ensures q == s.(hs := q.hs, index := q.index, st := q.st)
    ensures var d := q.(st := MessageDone); q.st == NewMessage(d)
    ensures Leads(s, HeadersText(hs) + "\r\n", q,
                  HeaderEvents(hs) + [Noted(ChunkComplete, 0), Noted(MessageComplete, 0)], EndOf(s.upgrade))
  {
    hide Leads, ProperHeader, NewMessage, HeadersText, HeaderEvents;
    var z, es := HeadersLead(s, hs);
    PlainChangesNothing(s.flags, s.cl, hs);
    var a := Settled(z).(st := HeadersAlmostDone);
    var d := a.(st := MessageDone);
    q := d.(st := NewMessage(d));
    var end := [Noted(ChunkComplete, 0)] + [Noted(MessageComplete, 0)];
    TrailersEnd(a);
    EmptyLineLeads(z, q, end, EndOf(s.upgrade));
    LeadsOn(s, HeadersText(hs), z, es, "\r\n", q, Owed(z) + end, EndOf(s.upgrade));
    assert es + (Owed(z) + end) == HeaderEvents(hs) + [Noted(ChunkComplete, 0), Noted(MessageComplete, 0)];
    assert q.(st := MessageDone) == d;
  }

  // The events of a chunked body after its chunks.
  function EndEvents(t: Body): seq<Event>
    requires t.ChunkedBody?
  {
    HeaderEvents(t.trailers) + [Noted(ChunkComplete, 0), Noted(MessageComplete, 0)]
  }

  function EndText(t: Body): string
    requires t.ChunkedBody?
  {
    t.last + t.extension + "\r\n" + (HeadersText(t.trailers) + "\r\n")
  }

  // The parser after a chunked body that began in state b.
  ghost predicate ChunksOver(b: Parser, q: Parser) {
    && q == b.(cl := 0, flags := b.flags.(trailing := true), hs := q.hs, index := q.index, st := q.st)
    && q.st == NewMessage(q.(st := MessageDone))
  }

  // The last chunk and the trailers.
  lemma EndLeads(b: Parser, t: Body) returns (q: Parser)
    requires t.ChunkedBody? && ProperBody(t) && b.st.ChunkSizeStart? && !b.flags.contentLength
    ensures ChunksOver(b, q) && Leads(b, EndText(t), q, [Noted(ChunkHeader, 0)] + EndEvents(t), EndOf(b.upgrade))
  {
    ChunkedParts(t);
    var s := LastChunkLeads(b, t.last, t.extension);
    q := TrailersLead(s, t.trailers);
    hide Leads, HeadersText, HeaderEvents, NewMessage, ProperBody;
    LeadsOn(b, t.last + t.extension + "\r\n", s, [Noted(ChunkHeader, 0)], HeadersText(t.trailers) + "\r\n", q,
      EndEvents(t), EndOf(b.upgrade));
  }

  lemma ChunkedParts(t: Body)
    requires t.ChunkedBody? && ProperBody(t)
    ensures HexNumeral(t.last) && HexNumber(t.last) == 0 && ProperExtension(t.extension)
    ensures forall i :: 0 <= i < |t.chunks| ==> ProperChunk(t.chunks[i])
    ensures forall i :: 0 <= i < |t.trailers| ==> ProperHeader(t.trailers[i]) && t.trailers[i].PlainHeader?
    ensures BodyText(t) == ChunksText(t.chunks) + EndText(t)
  {
    hide HexNumeral, HexNumber, ProperExtension, ProperChunk, ProperHeader, ChunksText, HeadersText;
    var line := t.last + t.extension + "\r\n";
    assert line + HeadersText(t.trailers) + "\r\n" == line + (HeadersText(t.trailers) + "\r\n");
  }

  // All chunks, the last one, and the trailers.
  lemma ChunkedLeads(b: Parser, t: Body) returns (q: Parser)
    requires t.ChunkedBody? && ProperBody(t) && b.st.ChunkSizeStart? && !b.flags.contentLength
    ensures ChunksOver(b, q)
    ensures Leads(b, BodyText(t), q, ChunkEvents(t.chunks) + ([Noted(ChunkHeader, 0)] + EndEvents(t)), EndOf(b.upgrade))
  {
    hide *;
    ChunkedParts(t);
    ChunksLead(b, t.chunks);
    var b2 := if t.chunks == [] then b else b.(cl := 0);
    q := EndLeads(b2, t);
    LeadsOn(b, ChunksText(t.chunks), b2, ChunkEvents(t.chunks), EndText(t), q, [Noted(ChunkHeader, 0)] + EndEvents(t),
      EndOf(b.upgrade));
    SameOver(b, b2, q);
  }

  lemma SameOver(b: Parser, b2: Parser, q: Parser)
    requires ChunksOver(b2, q) && (b2 == b || b2 == b.(cl := 0))
    ensures ChunksOver(b, q)
  {
    hide NewMessage;
  }

  lemma ChunkedOver(a: Parser, m: Message) returns (q: Parser)
    requires Knows(a, m) && Fits(m) && m.body.ChunkedBody? && ProperBody(m.body)
    ensures Over(a, m, q) && Leads(Chosen(a, m), BodyText(m.body), q, RestEvents(m), EndOf(Switches(m)))
  {
    hide *;
    ChunkedFramed(a, m);
    ChosenChunks(a, m);
    q := ChunkedLeads(Chosen(a, m), m.body);
    ChunksOverIs(a, m, q);
    ChunkedEvents(m);
  }

  lemma ChosenChunks(a: Parser, m: Message)
    requires m.body.ChunkedBody?
    ensures Chosen(a, m) == a.(upgrade := Switches(m), st := ChunkSizeStart)
  {
    hide Switches;
  }

  lemma ChunksOverIs(a: Parser, m: Message, q: Parser)
    requires Knows(a, m) && Fits(m) && Framed(m) && m.body.ChunkedBody? && ChunksOver(Chosen(a, m), q)
    ensures Over(a, m, q)
  {
    NextAfterBody(a, q.(st := MessageDone), m);
    hide NewMessage, NextState, Knows, Fits, Switches, Framed;
  }

  lemma ChunkedEvents(m: Message)
    requires m.body.ChunkedBody?
    ensures ChunkEvents(m.body.chunks) + ([Noted(ChunkHeader, 0)] + EndEvents(m.body)) == RestEvents(m)
  {
    hide ChunkEvents, HeaderEvents;
    var t := m.body;
    var one, two := [Noted(ChunkHeader, 0)], [Noted(ChunkComplete, 0), Noted(MessageComplete, 0)];
    assert ChunkEvents(t.chunks) + (one + (HeaderEvents(t.trailers) + two)) == BodyEvents(m);
  }

  // ---------- whole messages ----------

  // Can the parser take a message of this kind?
  predicate Ready(p: Parser, m: Message) {
    && Waits(p)
    && if m.RequestMessage? then !p.st.StartRes? else !p.st.StartReq? && p.verb != "CONNECT"
  }

  // What the parser holds when the message is over.
  ghost predicate Reported(m: Message, q: Parser) {
    && q.st == (if m.body.RestBody? then BodyIdentityEof else NextState(m))
    && q.ty == (if m.RequestMessage? then Request else Response)
    && (if m.RequestMessage? then q.verb == m.verb else q.status == Number(m.status) && q.verb != "CONNECT")
    && q.major == Number(m.version.major) && q.minor == Number(m.version.minor) && q.upgrade == Switches(m)
  }

  lemma FirstLineLeads(p: Parser, m: Message) returns (s: Parser)
    requires Ready(p, m) && ProperMessage(m)
    ensures s.st.FieldStart? && s.flags == NO_FLAGS && s.cl == ULLONG_MAX
    ensures s.ty == (if m.RequestMessage? then Request else Response)
    ensures if m.RequestMessage? then s.verb == m.verb else s.verb != "CONNECT" && s.status == Number(m.status)
    ensures s.major == Number(m.version.major) && s.minor == Number(m.version.minor)
    ensures Leads(p, FirstLine(m) + "\r\n", s, [Noted(MessageBegin, UNKNOWN)] + LineEvents(m), Going)
  {
    hide Leads, ProperHeaders, ProperBody, ProperTarget, ProperVersion, BodyFits, Number, FirstLine, LineEvents;
    if m.RequestMessage? {
      RequestLineLeads(p, m);
      s := RequestBegun(p, m);
    } else {
      StatusLineLeads(p, m);
      s := ResponseBegun(p, m);
    }
  }

  lemma KnowsAfter(s: Parser, m: Message, z: Parser, es: seq<Event>)
    requires s.st.FieldStart? && s.flags == NO_FLAGS && s.cl == ULLONG_MAX
    requires s.ty == (if m.RequestMessage? then Request else Response)
    requires if m.RequestMessage? then s.verb == m.verb else s.verb != "CONNECT" && s.status == Number(m.status)
    requires s.major == Number(m.version.major) && s.minor == Number(m.version.minor)
    requires HeadersRead(s, m.headers, z, es)
    ensures Knows(Settled(z).(st := HeadersAlmostDone), m)
  {
    HeadersMean(m.headers);
    hide Leads, Means, FlagsOf, LengthOf, Meaning, Number, HeadersText, HeaderEvents;
  }

  // The rest of a message after the empty line.
  lemma AfterHeaders(a: Parser, m: Message) returns (q: Parser)
    requires a.st.HeadersAlmostDone? && Knows(a, m) && Fits(m) && ProperBody(m.body)
    ensures Over(a, m, q)
    ensures if m.body.NoBody? then q == Chosen(a, m)
            else Leads(Chosen(a, m), BodyText(m.body), q, RestEvents(m), EndOf(Switches(m)))
  {
    hide Leads, Knows, Fits, ProperBody, Switches, NextState;
    match m.body
    case NoBody => q := Chosen(a, m);
    case SizedBody(_) => q := SizedOver(a, m);
    case ChunkedBody(_, _, _, _) => q := ChunkedOver(a, m);
    case RestBody(_) =>
      RestOver(a, m);
      q := Chosen(a, m);
  }

  // What a parser that awaits a message makes of one, when nothing is said about
  // how: the callbacks in order, with the method, the version, the status, the
  // switch of protocols and the state for the next message.
  lemma MessageLeads(p: Parser, m: Message) returns (q: Parser)
    requires Ready(p, m) && ProperMessage(m)
    ensures Reported(m, q) && Leads(p, MessageText(m), q, MessageEvents(m), EndOf(Switches(m)))
  {
    ProperParts(m);
    ProperFits(m);
    hide *;
    var s := FirstLineLeads(p, m);
    NoLengthAtFirst();
    var z, es := HeadersLead(s, m.headers);
    HeadersReadParts(s, m.headers, z, es);
    KnowsAfter(s, m, z, es);
    var a := Settled(z).(st := HeadersAlmostDone);
    LineFeedLeads(a, m);
    q := AfterHeaders(a, m);
    EmptyLineLeads(z, Chosen(a, m), ToldEvents(m), ToldEnd(m));
    var begin := [Noted(MessageBegin, UNKNOWN)] + LineEvents(m);
    var c := Chosen(a, m);
    LeadsOn(p, FirstLine(m) + "\r\n", s, begin, HeadersText(m.headers), z, es, Going);
    LeadsOn(p, FirstLine(m) + "\r\n" + HeadersText(m.headers), z, begin + es, "\r\n", c, Owed(z) + ToldEvents(m),
      ToldEnd(m));
    Finish(p, m, a, c, q, z, begin, es);
    OverReported(s, z, a, m, q);
  }

  lemma NoLengthAtFirst()
    ensures !NO_FLAGS.contentLength
  {
  }

  lemma HeadersReadParts(s: Parser, hs: seq<Header>, z: Parser, es: seq<Event>)
    requires HeadersRead(s, hs, z, es)
    ensures Pending(z) && Leads(s, HeadersText(hs), z, es, Going) && es + Owed(z) == HeaderEvents(hs)
    ensures var t := Settled(z); t == s.(hs := t.hs, index := t.index, flags := t.flags, cl := t.cl)
  {
    hide Leads, FlagsOf, LengthOf, HeadersText, HeaderEvents;
  }

  lemma ProperParts(m: Message)
    requires ProperMessage(m)
    ensures ProperBody(m.body) && OneLength(m.headers)
    ensures forall i :: 0 <= i < |m.headers| ==> ProperHeader(m.headers[i])
  {
    hide ProperBody, ProperHeader, BodyFits, Meaning, ProperTarget, Number;
  }

  lemma OverReported(s: Parser, z: Parser, a: Parser, m: Message, q: Parser)
    requires Knows(a, m) && Over(a, m, q)
    ensures Reported(m, q)
  {
    hide Means, Switches, NextState, Number;
  }

  // From the empty line to the end of the message.
  lemma Finish(p: Parser, m: Message, a: Parser, c: Parser, q: Parser, z: Parser, begin: seq<Event>, es: seq<Event>)
    requires Leads(p, FirstLine(m) + "\r\n" + HeadersText(m.headers) + "\r\n", c,
             begin + es + (Owed(z) + ToldEvents(m)),
                   ToldEnd(m))
    requires es + Owed(z) == HeaderEvents(m.headers) && begin == [Noted(MessageBegin, UNKNOWN)] + LineEvents(m)
    requires if m.body.NoBody? then q == c else Leads(c, BodyText(m.body), q, RestEvents(m), EndOf(Switches(m)))
    ensures Leads(p, MessageText(m), q, MessageEvents(m), EndOf(Switches(m)))
  {
    hide Leads, FirstLine, HeadersText, BodyText, Owed, LineEvents, HeaderEvents, BodyEvents, Switches, Announced;
    var head, told := FirstLine(m) + "\r\n" + HeadersText(m.headers) + "\r\n", [Noted(HeadersComplete, Announced(m))];
    assert MessageText(m) == head + BodyText(m.body);
    assert begin + es + (Owed(z) + ToldEvents(m)) == begin + (es + Owed(z)) + ToldEvents(m);
    if m.body.NoBody? {
      NoBodyEvents(m);
      assert BodyText(m.body) == "" by { NoBodyText(m.body); }
      assert head + "" == head;
      assert begin + HeaderEvents(m.headers) + ToldEvents(m) == MessageEvents(m);
    } else {
      LeadsOn(p, head, c, begin + es + (Owed(z) + ToldEvents(m)), BodyText(m.body), q, RestEvents(m),
        EndOf(Switches(m)));
      assert ToldEvents(m) == told;
      assert begin + HeaderEvents(m.headers) + told + BodyEvents(m) == MessageEvents(m);
    }
  }

  lemma NoBodyEvents(m: Message)
    requires m.body.NoBody?
    ensures ToldEvents(m) == [Noted(HeadersComplete, Announced(m))] + BodyEvents(m)
  {
    hide Announced;
  }

  lemma NoBodyText(b: Body)
    requires b.NoBody?
    ensures BodyText(b) == ""
  {
  }

  // A run of the parser over a message.
  lemma MessageIsReported(r: Run, m: Message)
    requires r.end.Going? && Ready(r.p, m) && ProperMessage(m)
    ensures Bytes(MessageText(m))
    ensures var q := RunOver(r, MessageText(m));
            && Reported(m, q.p) && q.log == Extend(r.log, MessageEvents(m)) && q.end == EndOf(Switches(m))
            && q.count == r.count + |MessageText(m)|
  {
    hide *;
    var q := MessageLeads(r.p, m);
    LeadsRun(r, MessageText(m), q, MessageEvents(m), EndOf(Switches(m)));
  }

  // ---------- messages in calls of the parser ----------

  // One call of http_parser_execute: it reads exactly the message where the
  // protocol changes, whatever follows.
  lemma MessageInOneCall(v: HttpParser.View, m: Message, rest: string, n: nat, w: HttpParser.View)
    requires v.errno.OK? && Ready(v.p, m) && ProperMessage(m) && Bytes(rest) && (Switches(m) || rest == "")
    requires Bytes(MessageText(m) + rest) && HttpParser.Called(v, MessageText(m) + rest, n, w)
    ensures w.errno.HeaderOverflow?
            || (w.errno.OK? && n == |MessageText(m)| && Reported(m, w.p)
                && Joined(w.log) == Extend(Joined(v.log), MessageEvents(m)))
  {
    var text := MessageText(m);
    var r := HttpParser.Start(v);
    MessageIsReported(r, m);
    TextStarts(m);
    if rest == "" {
      assert text + rest == text;
    } else {
      RunSum(r, text, rest);
      RunEnded(RunOver(r, text), rest);
    }
    hide RunOver, Joined, Extend, Reported, Ready, ProperMessage, MessageText, MessageEvents, Switches;
  }

  lemma TextStarts(m: Message)
    ensures MessageText(m) != ""
  {
    hide FirstLine, HeadersText, BodyText;
  }

  // Any number of calls, however the message is cut.
  lemma MessageInPieces(v: HttpParser.View, m: Message, pieces: seq<string>, w: HttpParser.View)
    requires v.errno.OK? && Ready(v.p, m) && ProperMessage(m) && !Switches(m)
    requires HttpPieces.AllBytes(pieces) && HttpPieces.Concat(pieces) == MessageText(m) && HttpPieces.Fed(v, pieces, w)
    ensures w.errno.HeaderOverflow?
            || (w.errno.OK? && Reported(m, w.p) && Joined(w.log) == Extend(Joined(v.log), MessageEvents(m)))
  {
    hide RunOver, Joined, Extend, Reported, Ready, ProperMessage, MessageText, MessageEvents, Switches, HttpPieces.Fed,
         HttpPieces.Concat;
    MessageIsReported(HttpParser.Start(v), m);
    if !w.errno.HeaderOverflow? { HttpPieces.FedIsRun(v, pieces, w); }
  }

  // A new parser is ready for every message of its kind.
  lemma FreshIsReady(p: Parser, m: Message)
    requires p.verb == "DELETE"
    requires if m.RequestMessage? then p.ty != Response else p.ty != Request
    requires p.st == if p.ty == Request then StartReq else if p.ty == Response then StartRes else StartReqOrRes
    ensures Ready(p, m)
  {
  }

  // After a message that keeps the connection the parser is ready for the next
  // one of the same kind.
  lemma ReadyAgain(m: Message, q: Parser, next: Message)
    requires Reported(m, q) && Persists(m) && !m.body.RestBody? && (m.RequestMessage? <==> next.RequestMessage?)
    ensures Ready(q, next)
  {
  }
}
