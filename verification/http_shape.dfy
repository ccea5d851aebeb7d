// What every branch of the switch has in common: which callbacks it may make,
// which states it leads to, and what it keeps.
module HttpShape {
  import opened HttpMachine

  // The item that a state is in the middle of; a run of body bytes is told
  // apart.
  function Open(s: St): set<Kind> {
    if UrlState(s) then {Url} else if s.ResStatus? then {Status} else if s.HeaderField? then {Field}
      else if s.HeaderValue? then {Value}
    else {}
  }

  // The states in which body bytes may be waiting for their callback.
  predicate BodyState(s: St) { s.BodyIdentity? || s.BodyIdentityEof? || s.ChunkData? || s.ChunkDataAlmostDone? }

  // The states that have an item or the data of a chunk in hand when they
  // meet a byte that they refuse.
  predicate Holding(s: St) { Open(s) != {} || s.ChunkDataAlmostDone? }

  // How many states may still look at the same byte.
  function Rank(s: St): nat {
    match s
    case DiscardLws => 5
    case ValueLws => 5
    case FieldStart => 4
    case HeadersAlmostDone => 3
    case HeadersDone => 2
    case MessageDone => 1
    case StartReqOrRes => 1
    case _ => 0
  }

  // The states that set nread to zero.
  predicate Resets(s: St) { s.HeadersDone? || s.ChunkSizeAlmostDone? || s.ChunkDataDone? }

  predicate Calm(s: St) { !Holding(s) }

  // A byte taken outside of any item, without a mark being left.
  predicate Plain(s: St, o: Out) {
    && (o.acts == [] || (|o.acts| == 1 && o.acts[0].Notify?) || o.acts == [Mark(Value), Flush(Value)])
    && Open(s) == {}
    && (if o.flow.Fail? then o.acts == [] else Calm(s) && Calm(o.p.st))
    && (o.flow.Again? ==> Rank(o.p.st) < Rank(s) && !Looping(o.p.st) && !o.p.st.ChunkSizeStart?)
  }

  // A byte that begins an item.
  predicate Begins(s: St, o: Out) {
    Calm(s) && |o.acts| == 1 && o.acts[0].Mark? && !o.acts[0].k.Body? && !o.flow.Again? && !o.flow.Stop?
    && (o.flow.Advance? ==> Open(o.p.st) == {o.acts[0].k})
  }

  // A byte inside of an item, or the one that ends it.
  predicate Continues(s: St, o: Out) {
    !o.flow.Again? && !o.flow.Stop?
    && (if o.acts == [] then o.flow.Advance? ==> Open(o.p.st) == Open(s)
        else
          o.flow.Advance? && |o.acts| == 1 && o.acts[0].Flush? && Open(s) == {o.acts[0].k} && Calm(o.p.st)
          && !BodyState(o.p.st))
  }

  // The byte after the data of a chunk.
  predicate EndsChunk(s: St, o: Out) {
    s.ChunkDataAlmostDone? && (if o.flow.Fail? then o.acts == [] else
      o.flow.Advance? && o.acts == [Flush(Body)]
      && o.p.st.ChunkDataDone?)
  }

  predicate Shape(s: St, o: Out) {
    && (if Open(s) != {} then Continues(s, o) else Begins(s, o) || Plain(s, o) || EndsChunk(s, o))
    && (o.flow.Advance? && o.p.st.ChunkSizeStart? ==> Resets(s))
    && (o.flow.Stop? ==> !o.p.st.ChunkSizeStart?)
    && (o.flow.Fail? ==> !o.flow.e.OK? && !o.flow.e.HeaderOverflow?)
  }

  lemma StartShape(p: Parser, c: char)
    requires StartState(p.st)
    ensures Shape(p.st, StartByte(p, c))
  {
    hide FirstVerb;
  }

  predicate StatusState(s: St) {
    s.ResFirstStatus? || s.ResStatusCode? || s.ResStatusStart? || s.ResStatus? || s.ResLineAlmostDone?
  }

  lemma StatusShape(p: Parser, c: char)
    requires StatusState(p.st)
    ensures Shape(p.st, ResponseByte(p, c))
  {
    hide MoreNum, Num;
  }

  lemma VersionShape(p: Parser, c: char)
    requires ResponseState(p.st) && !StatusState(p.st)
    ensures Shape(p.st, ResponseByte(p, c))
  {
    hide MoreNum, Num;
  }

  lemma ResponseShape(p: Parser, c: char)
    requires ResponseState(p.st)
    ensures Shape(p.st, ResponseByte(p, c))
  {
    hide Shape, ResponseByte;
    if StatusState(p.st) { StatusShape(p, c); } else { VersionShape(p, c); }
  }

  lemma VerbShape(p: Parser, c: char)
    requires p.st.ReqMethod?
    ensures Shape(p.st, VerbByte(p, c))
  {
    hide OtherVerb, VerbAt;
  }

  // A character that fits leads from one state of the URL to another.
  lemma UrlCharStays(s: St, c: char)
    ensures UrlChar(s, c).Dead? || UrlState(UrlChar(s, c))
  {}

  lemma UrlShape(p: Parser, c: char)
    requires UrlState(p.st)
    ensures Shape(p.st, UrlByte(p, c))
  {
    hide UrlChar;
    UrlCharStays(p.st, c);
  }

  lemma SpacesShape(p: Parser, c: char)
    requires p.st.ReqSpaces?
    ensures Shape(p.st, SpacesByte(p, c))
  {
    hide UrlChar;
    UrlCharStays(ServerStart, c);
    UrlCharStays(ReqSpaces, c);
  }

  predicate ProtocolState(s: St) {
    s.ReqHttpStart? || s.ReqH? || s.ReqHT? || s.ReqHTT? || s.ReqHTTP? || s.ReqFirstMajor?
  }

  lemma ProtocolShape(p: Parser, c: char)
    requires ProtocolState(p.st)
    ensures Shape(p.st, RequestByte(p, c))
  {
    hide VerbByte, SpacesByte, UrlByte, MoreNum, Num;
  }

  lemma OtherRequestShape(p: Parser, c: char)
    requires RequestState(p.st) && !ProtocolState(p.st)
    ensures Shape(p.st, RequestByte(p, c))
  {
    hide VerbByte, SpacesByte, UrlByte, MoreNum, Num;
    if p.st.ReqMethod? {
      VerbShape(p, c);
    } else if p.st.ReqSpaces? {
      SpacesShape(p, c);
    } else if UrlState(p.st) {
      UrlShape(p, c);
    }
  }

  lemma RequestShape(p: Parser, c: char)
    requires RequestState(p.st)
    ensures Shape(p.st, RequestByte(p, c))
  {
    hide Shape, RequestByte;
    if ProtocolState(p.st) { ProtocolShape(p, c); } else { OtherRequestShape(p, c); }
  }

  lemma FieldShape(p: Parser, c: char)
    requires p.st.FieldStart?
    ensures Shape(p.st, FieldStartByte(p, c))
  {
    hide Token;
  }

  lemma ValueStartShape(p: Parser, c: char)
    requires c < 256 as char
    ensures var o := ValueStartByte(p, c);
            o.acts == [Mark(Value)] && o.p.st.HeaderValue? && !o.flow.Again? && !o.flow.Stop?
              && (o.flow.Fail? ==> !o.flow.e.OK? && !o.flow.e.HeaderOverflow?)
  {
    hide Lower;
  }

  predicate FoldState(s: St) { s.DiscardWsAlmostDone? || s.DiscardLws? || s.ValueLws? || s.HeaderAlmostDone? }

  lemma FoldShape(p: Parser, c: char)
    requires c < 256 as char && FoldState(p.st)
    ensures Shape(p.st, ValueByte(p, c))
  {
    hide ValueStartByte, HeaderEnd;
  }

  lemma FirstValueShape(p: Parser, c: char)
    requires c < 256 as char && ValueState(p.st) && !FoldState(p.st)
    ensures Shape(p.st, ValueByte(p, c))
  {
    hide ValueStartByte, HeaderEnd;
    ValueStartShape(p, c);
  }

  lemma ValueShape(p: Parser, c: char)
    requires c < 256 as char && ValueState(p.st)
    ensures Shape(p.st, ValueByte(p, c))
  {
    hide Shape, ValueByte;
    if FoldState(p.st) { FoldShape(p, c); } else { FirstValueShape(p, c); }
  }

  lemma NewMessageState(p: Parser)
    ensures var s := NewMessage(p); s.StartReq? || s.StartRes? || s.Dead?
  {}

  lemma HeadersShape(p: Parser, c: char)
    requires p.st.HeadersAlmostDone? || p.st.HeadersDone?
    ensures Shape(p.st, HeadersByte(p, c))
  {
    if c == LF && p.st.HeadersAlmostDone? { EndShape(p); }
    if c == LF && p.st.HeadersDone? { BeginShape(p); }
    hide HeadersEnd, BodyBegin;
  }

  lemma EndShape(p: Parser)
    requires p.st.HeadersAlmostDone?
    ensures Shape(p.st, HeadersEnd(p))
  {}

  lemma BeginShape(p: Parser)
    requires p.st.HeadersDone?
    ensures Shape(p.st, BodyBegin(p))
  {
    hide NewMessage, NeedsEof;
    NewMessageState(p);
  }

  predicate ChunkState(s: St) {
    s.ChunkSizeStart? || s.ChunkSize? || s.ChunkParameters? || s.ChunkSizeAlmostDone? || s.ChunkDataAlmostDone?
      || s.ChunkDataDone?
  }

  predicate SizeState(s: St) { s.ChunkSizeStart? || s.ChunkSize? || s.ChunkParameters? }

  lemma SizeShape(p: Parser, c: char)
    requires SizeState(p.st)
    ensures Shape(p.st, ChunkByte(p, c))
  {
    hide NewMessage, Unhex;
  }

  lemma DataShape(p: Parser, c: char)
    requires (ChunkState(p.st) && !SizeState(p.st)) || p.st.MessageDone?
    ensures Shape(p.st, ChunkByte(p, c))
  {
    if p.st.MessageDone? { LastShape(p); }
    hide Unhex, MessageEnd;
  }

  lemma LastShape(p: Parser)
    requires p.st.MessageDone?
    ensures Shape(p.st, MessageEnd(p))
  {
    hide NewMessage;
    NewMessageState(p);
  }

  lemma ChunkShape(p: Parser, c: char)
    requires ChunkState(p.st) || p.st.MessageDone?
    ensures Shape(p.st, ChunkByte(p, c))
  {
    hide Shape, ChunkByte;
    if SizeState(p.st) { SizeShape(p, c); } else { DataShape(p, c); }
  }

  lemma OneByteShape(p: Parser, c: char)
    requires c < 256 as char && !Looping(p.st)
    ensures Shape(p.st, OneByte(p, c))
  {
    hide Shape, StartByte, ResponseByte, RequestByte, FieldStartByte, ValueByte, HeadersByte, ChunkByte;
    if StartState(p.st) { StartShape(p, c); }
    else if ResponseState(p.st) { ResponseShape(p, c); }
    else if RequestState(p.st) { RequestShape(p, c); }
    else if p.st.FieldStart? { FieldShape(p, c); }
    else if ValueState(p.st) { ValueShape(p, c); }
    else if p.st.HeadersAlmostDone? || p.st.HeadersDone? { HeadersShape(p, c); }
    else { ChunkShape(p, c); }
  }

  // ---------- what the parser's asserts rest on ----------

  predicate FieldHs(h: HState) {
    h.General? || h.HC? || h.HCO? || h.HCON? || h.MatchingConnection? || h.MatchingProxyConnection?
      || h.MatchingContentLength?
    || h.MatchingTransferEncoding? || h.MatchingUpgrade? || h.Connection? || h.ContentLength? || h.TransferEncoding?
       || h.Upgrade?
  }

  // The length fields and the flag that the states rely on.
  predicate Inv(p: Parser) {
    && p.cl <= ULLONG_MAX
    && (ChunkState(p.st) || p.st.ChunkData? ==> p.flags.chunked)
    && (p.st.ChunkSize? || p.st.ChunkParameters? || p.st.ChunkSizeAlmostDone? ==> p.cl < ULLONG_MAX)
    && (p.st.ChunkData? || p.st.BodyIdentity? ==> 0 < p.cl < ULLONG_MAX)
    && (p.st.ChunkDataAlmostDone? ==> p.cl == 0)
    && (p.st.HeaderField? ==> FieldHs(p.hs))
    && (p.st.HeaderValue? ==>
       !p.hs.Connection? && !p.hs.TransferEncoding?
       && (p.hs.ContentLength? ==> p.cl < ULLONG_MAX))
  }

  // States about which Inv only says that content_length fits.
  predicate Easy(s: St) {
    !ChunkState(s) && !s.ChunkData? && !s.BodyIdentity? && !s.HeaderField? && !s.HeaderValue?
  }

  lemma StartInv(p: Parser, c: char)
    requires StartState(p.st) && Inv(p)
    ensures Inv(StartByte(p, c).p)
  {
    hide FirstVerb;
  }

  lemma ResponseInv(p: Parser, c: char)
    requires ResponseState(p.st) && Inv(p)
    ensures Inv(ResponseByte(p, c).p)
  {
    hide MoreNum, Num;
  }

  lemma VerbInv(p: Parser, c: char)
    requires p.st.ReqMethod?
    ensures var q := VerbByte(p, c).p; q.cl == p.cl && Easy(q.st)
  {
    hide OtherVerb, VerbAt;
  }

  lemma UrlInv(p: Parser, c: char)
    requires UrlState(p.st)
    ensures var q := UrlByte(p, c).p; q.cl == p.cl && Easy(q.st)
  {
    hide UrlChar;
    UrlCharStays(p.st, c);
  }

  lemma SpacesInv(p: Parser, c: char)
    requires p.st.ReqSpaces?
    ensures var q := SpacesByte(p, c).p; q.cl == p.cl && Easy(q.st)
  {
    hide UrlChar;
    UrlCharStays(ServerStart, c);
    UrlCharStays(ReqSpaces, c);
  }

  lemma RequestInv(p: Parser, c: char)
    requires RequestState(p.st) && Inv(p)
    ensures Inv(RequestByte(p, c).p)
  {
    hide VerbByte, SpacesByte, UrlByte, MoreNum, Num;
    if p.st.ReqMethod? {
      VerbInv(p, c);
    } else if p.st.ReqSpaces? {
      SpacesInv(p, c);
    } else if UrlState(p.st) {
      UrlInv(p, c);
    }
  }

  lemma FieldInv(p: Parser, c: char)
    requires p.st.FieldStart? && Inv(p)
    ensures Inv(FieldStartByte(p, c).p)
  {
    hide Token;
  }

  lemma ValueStartInv(p: Parser, c: char)
    requires c < 256 as char && Inv(p)
    ensures Inv(ValueStartByte(p, c).p) || ValueStartByte(p, c).flow.Fail?
  {
    hide Lower;
  }

  lemma ValueInv(p: Parser, c: char)
    requires c < 256 as char && ValueState(p.st) && Inv(p)
    ensures Inv(ValueByte(p, c).p) || ValueByte(p, c).flow.Fail?
  {
    hide ValueStartByte;
    ValueStartInv(p, c);
  }

  lemma HeadersInv(p: Parser, c: char)
    requires (p.st.HeadersAlmostDone? || p.st.HeadersDone?) && Inv(p)
    ensures Inv(HeadersByte(p, c).p)
  {
    hide NewMessage, NeedsEof;
    NewMessageState(p);
  }

  lemma UnhexRange(c: char)
    ensures -1 <= Unhex(c) < 16
  {}

  // The conservative test keeps the next hexadecimal digit from wrapping.
  lemma HexFits(n: nat, d: nat)
    requires n <= (ULLONG_MAX - 16) / 16 && d < 16
    ensures (16 * n + d) % TWO64 == 16 * n + d < ULLONG_MAX
  {}

  lemma DecimalFits(n: nat, d: nat)
    requires n <= (ULLONG_MAX - 10) / 10 && d < 10
    ensures (10 * n + d) % TWO64 == 10 * n + d < ULLONG_MAX
  {}

  lemma SizeInv(p: Parser, c: char)
    requires SizeState(p.st) && Inv(p)
    ensures Inv(ChunkByte(p, c).p)
  {
    hide NewMessage, Unhex;
    UnhexRange(c);
    if p.st.ChunkSize? && Unhex(c) != -1 && (ULLONG_MAX - 16) / 16 >= p.cl { HexFits(p.cl, Unhex(c)); }
  }

  lemma ChunkInv(p: Parser, c: char)
    requires (ChunkState(p.st) || p.st.MessageDone?) && Inv(p)
    ensures Inv(ChunkByte(p, c).p)
  {
    hide NewMessage, Unhex;
    if SizeState(p.st) {
      SizeInv(p, c);
    } else {
      NewMessageState(p);
    }
  }

  lemma OneByteInv(p: Parser, c: char)
    requires c < 256 as char && !Looping(p.st) && Inv(p)
    ensures Inv(OneByte(p, c).p) || OneByte(p, c).flow.Fail?
  {
    hide Inv, StartByte, ResponseByte, RequestByte, FieldStartByte, ValueByte, HeadersByte, ChunkByte;
    if StartState(p.st) { StartInv(p, c); }
    else if ResponseState(p.st) { ResponseInv(p, c); }
    else if RequestState(p.st) { RequestInv(p, c); }
    else if p.st.FieldStart? { FieldInv(p, c); }
    else if ValueState(p.st) { ValueInv(p, c); }
    else if p.st.HeadersAlmostDone? || p.st.HeadersDone? { HeadersInv(p, c); }
    else { ChunkInv(p, c); }
  }

  lemma MatchInv(p: Parser, t: char, name: string, done: HState)
    requires FieldHs(done) && FieldHs(p.hs)
    ensures var q := Match(p, t, name, done); FieldHs(q.hs) && q.st == p.st && q.cl == p.cl && q.flags == p.flags
  {
    hide VerbAt;
  }

  lemma FieldCharInv(p: Parser, c: char, t: char)
    requires p.st.HeaderField? && Inv(p)
    ensures Inv(FieldChar(p, c, t)) && FieldChar(p, c, t).st.HeaderField?
  {
    hide Match;
    MatchInv(p, t, "connection", Connection);
    MatchInv(p, t, "proxy-connection", Connection);
    MatchInv(p, t, "content-length", ContentLength);
    MatchInv(p, t, "transfer-encoding", TransferEncoding);
    MatchInv(p, t, "upgrade", Upgrade);
  }

  predicate WordHs(h: HState) { !h.Connection? && !h.TransferEncoding? && !h.ContentLength? }

  lemma MatchWordInv(p: Parser, l: char, word: string, done: HState, otherwise: HState)
    requires WordHs(done) && WordHs(otherwise) && WordHs(p.hs)
    ensures var q := MatchWord(p, l, word, done, otherwise); q.st == p.st && q.cl == p.cl && WordHs(q.hs)
  {
    hide VerbAt;
  }

  // The words that a value is matched against.
  lemma WordInv(p: Parser, c: char)
    requires c < 256 as char && p.st.HeaderValue? && Inv(p)
    requires p.hs.MatchingChunked? || p.hs.MatchingKeepAlive? || p.hs.MatchingClose? || p.hs.MatchingConnUpgrade?
    ensures var o := ValueChar(p, c); Inv(o.p) && o.p.st.HeaderValue? && o.flow.Advance?
  {
    hide MatchWord, Lower, Token;
    var l := Lower(c);
    if p.hs.MatchingChunked? { MatchWordInv(p, l, "chunked", Chunked, General); }
    else if p.hs.MatchingKeepAlive? { MatchWordInv(p, l, "keep-alive", KeepAlive, ConnToken); }
    else if p.hs.MatchingClose? { MatchWordInv(p, l, "close", Close, ConnToken); }
    else { MatchWordInv(p, l, "upgrade", ConnUpgrade, ConnToken); }
  }

  lemma ValueCharInv(p: Parser, c: char)
    requires c < 256 as char && p.st.HeaderValue? && Inv(p)
    ensures var o := ValueChar(p, c);
            if o.flow.Fail? then !o.flow.e.OK? else Inv(o.p) && o.p.st.HeaderValue? && o.flow.Advance?
  {
    hide MatchWord, Lower, Token;
    if p.hs.MatchingChunked? || p.hs.MatchingKeepAlive? || p.hs.MatchingClose? || p.hs.MatchingConnUpgrade? {
      WordInv(p, c);
    } else if p.hs.ContentLength? && IsNum(c) && (ULLONG_MAX - 10) / 10 >= p.cl { DecimalFits(p.cl, Num(c)); }
  }
}
