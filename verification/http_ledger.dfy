// The bodies that the HTTP parser hands over are exactly as long as it has
// announced: by Content-Length, or by the size of each chunk.
module HttpLedger {
  import opened HttpMachine
  import opened HttpShape
  import opened HttpStream
  import opened HttpMarks
  import opened HttpParser
  import opened HttpPieces

  // ---------- the callbacks ----------

  predicate BodyData(e: Event) { e.Data? && e.kind.Body? }

  // A callback that promises e.cl body bytes; HeadersComplete promises none
  // when content_length is not known.
  predicate Announces(e: Event) {
    e.Noted? && ((e.note.ChunkHeader? && e.cl > 0) || (e.note.HeadersComplete? && 0 < e.cl < ULLONG_MAX))
  }

  predicate Unmeasured(e: Event) { e == Noted(HeadersComplete, ULLONG_MAX) }

  // The callback that follows the last byte of what e has announced.
  predicate Concludes(e: Event, end: Event) {
    end.Noted? && end.note == (if e.Noted? && e.note.ChunkHeader? then ChunkComplete else MessageComplete)
  }

  // What the callbacks up to i say about the one at i.
  predicate ExactAt(log: seq<Event>, i: nat)
    requires i < |log|
  {
    // body data comes only after an announcement, and never exceeds it
    && (BodyData(log[i]) ==>
          i > 0 && (Unmeasured(log[i - 1]) || (Announces(log[i - 1]) && 0 < |log[i].bytes| <= log[i - 1].cl)))
    // an announcement is followed by its data
    && (i > 0 && Announces(log[i - 1]) ==> BodyData(log[i]))
    // and the data, once it is complete, is as long as announced
    && (i > 1 && BodyData(log[i - 1]) && Announces(log[i - 2]) ==>
          |log[i - 1].bytes| == log[i - 2].cl && Concludes(log[i - 2], log[i]))
  }

  predicate Exact(log: seq<Event>) { forall i :: 0 <= i < |log| ==> ExactAt(log, i) }

  // ---------- what a state knows about the last callbacks ----------

  // left of the announced bytes are still to come.
  predicate Owing(log: seq<Event>, left: nat, note: Note) {
    var n := |log|;
    || (n > 0 && log[n - 1] == Noted(note, left) && Announces(log[n - 1]))
    || (n > 1 && BodyData(log[n - 1]) && Announces(log[n - 2]) && log[n - 2].note == note
        && log[n - 2].cl == |log[n - 1].bytes| + left)
  }

  predicate Streaming(log: seq<Event>) {
    var n := |log|;
    (n > 0 && Unmeasured(log[n - 1])) || (n > 1 && BodyData(log[n - 1]) && Unmeasured(log[n - 2]))
  }

  // All that was announced has come.
  predicate Paid(log: seq<Event>, note: Note) { |log| > 0 && BodyData(log[|log| - 1]) && Owing(log, 0, note) }

  predicate Settled(log: seq<Event>) {
    |log| > 0 ==> !Announces(log[|log| - 1]) && !BodyData(log[|log| - 1])
  }

  predicate Tied(p: Parser, log: seq<Event>) {
    match p.st
    case ChunkData => Owing(log, p.cl, ChunkHeader)
    case ChunkDataAlmostDone => Paid(log, ChunkHeader)
    case ChunkDataDone => Paid(log, ChunkHeader)
    case BodyIdentity => Owing(log, p.cl, HeadersComplete)
    case BodyIdentityEof => Streaming(log)
    case MessageDone => Paid(log, HeadersComplete) || Settled(log)
    case HeadersDone => |log| > 0 && log[|log| - 1] == Noted(HeadersComplete, p.cl)
      && (p.flags.chunked ==> p.cl == ULLONG_MAX)
    case _ => Settled(log)
  }

  // The states of a message before its body.
  predicate Early(s: St) {
    StartState(s) || ResponseState(s) || RequestState(s) || s.FieldStart? || s.HeaderField? || ValueState(s)
      || s.HeaderValue?
    || s.HeadersAlmostDone?
  }

  predicate Waiting(s: St) { s.Dead? || s.StartReqOrRes? || s.StartRes? || s.StartReq? }

  // Before the body, content_length is known only from a Content-Length.
  predicate Known(p: Parser) {
    && !p.flags.skipBody
    && (Early(p.st) && !Waiting(p.st) && !p.flags.trailing && !p.flags.contentLength ==> p.cl == ULLONG_MAX)
    && (p.st.HeaderValue? && p.hs.ContentLength? ==> p.flags.contentLength)
    && (p.st.HeadersDone? && p.flags.chunked ==> p.cl == ULLONG_MAX)
  }

  // ---------- callbacks that no body is concerned with ----------

  predicate Quiet(e: Event) { !Announces(e) && !BodyData(e) }

  lemma ExactMore(log: seq<Event>, e: Event)
    requires Exact(log) && ExactAt(log + [e], |log|)
    ensures Exact(log + [e])
  {
    var more := log + [e];
    forall i | 0 <= i < |more| ensures ExactAt(more, i) {
      if i < |log| { assert ExactAt(log, i); }
    }
  }

  lemma QuietMore(log: seq<Event>, e: Event)
    requires Exact(log) && Settled(log) && Quiet(e)
    ensures Exact(Append(log, e)) && Settled(Append(log, e))
  {
    var n := |log|;
    if n > 0 && e.Data? && log[n - 1].Data? && log[n - 1].kind == e.kind {
      var w := Data(e.kind, log[n - 1].bytes + e.bytes);
      assert log[..n - 1] + [log[n - 1]] == log;
      ExactPrefix(log, n - 1);
      assert ExactAt(log, n - 1);
      ExactMore(log[..n - 1], w);
    } else {
      ExactMore(log, e);
    }
  }

  lemma ExactPrefix(log: seq<Event>, n: nat)
    requires Exact(log) && n <= |log|
    ensures Exact(log[..n])
  {
    forall i | 0 <= i < n ensures ExactAt(log[..n], i) { assert ExactAt(log, i); }
  }

  lemma {:induction false} QuietAll(log: seq<Event>, es: seq<Event>)
    requires Exact(log) && Settled(log) && forall i :: 0 <= i < |es| ==> Quiet(es[i])
    ensures Exact(Extend(log, es)) && Settled(Extend(log, es))
    decreases |es|
  {
    if es != [] {
      QuietAll(log, es[..|es| - 1]);
      QuietMore(Extend(log, es[..|es| - 1]), es[|es| - 1]);
    }
  }

  // The callback that an announcement makes.
  lemma AnnounceMore(log: seq<Event>, note: Note, cl: nat)
    requires Exact(log) && Settled(log)
    ensures Append(log, Noted(note, cl)) == log + [Noted(note, cl)] && Exact(log + [Noted(note, cl)])
  {
    ExactMore(log, Noted(note, cl));
  }

  // The callback that ends what was announced.
  lemma PaidMore(log: seq<Event>, from: Note, note: Note, cl: nat)
    requires Exact(log) && Paid(log, from) && Concludes(Noted(from, 0), Noted(note, cl))
    ensures Exact(Append(log, Noted(note, cl))) && Settled(Append(log, Noted(note, cl)))
  {
    assert ExactAt(log, |log| - 1);
    ExactMore(log, Noted(note, cl));
  }

  // A body byte.
  lemma ByteMore(log: seq<Event>, left: nat, note: Note, c: char)
    requires Exact(log) && Owing(log, left, note) && left > 0
    ensures var more := Append(log, Data(Body, [c]));
            Exact(more) && Owing(more, left - 1, note)
            && BodyData(more[|more| - 1])
  {
    var n := |log|;
    if BodyData(log[n - 1]) {
      var w := Data(Body, log[n - 1].bytes + [c]);
      ExactPrefix(log, n - 1);
      assert ExactAt(log, n - 1);
      ExactMore(log[..n - 1], w);
    } else {
      ExactMore(log, Data(Body, [c]));
    }
  }

  lemma StreamMore(log: seq<Event>, c: char)
    requires Exact(log) && Streaming(log)
    ensures var more := Append(log, Data(Body, [c])); Exact(more) && Streaming(more)
  {
    var n := |log|;
    if BodyData(log[n - 1]) {
      var w := Data(Body, log[n - 1].bytes + [c]);
      ExactPrefix(log, n - 1);
      assert ExactAt(log, n - 1);
      ExactMore(log[..n - 1], w);
    } else {
      ExactMore(log, Data(Body, [c]));
    }
  }

  // ---------- the switch ----------

  // What the bytes of a message head may do.
  predicate EarlyOut(o: Out) {
    o.flow.Fail?
    || (Early(o.p.st) && Known(o.p) && !o.flow.Stop? && forall i :: 0 <= i < |o.acts| ==> o.acts[i].Notify? ==>
       o.acts[i].n.MessageBegin?)
  }

  lemma StartEarly(p: Parser, c: char)
    requires StartState(p.st) && Known(p)
    ensures EarlyOut(StartByte(p, c))
  {
    hide FirstVerb;
  }

  lemma ResponseEarly(p: Parser, c: char)
    requires ResponseState(p.st) && Known(p)
    ensures EarlyOut(ResponseByte(p, c))
  {
    hide MoreNum, Num;
  }

  lemma VerbEarly(p: Parser, c: char)
    requires p.st.ReqMethod? && Known(p)
    ensures EarlyOut(VerbByte(p, c))
  {
    hide OtherVerb, VerbAt;
  }

  lemma SpacesEarly(p: Parser, c: char)
    requires p.st.ReqSpaces? && Known(p)
    ensures EarlyOut(SpacesByte(p, c))
  {
    hide UrlChar;
    UrlCharStays(ServerStart, c);
    UrlCharStays(ReqSpaces, c);
  }

  lemma UrlEarly(p: Parser, c: char)
    requires UrlState(p.st) && Known(p)
    ensures EarlyOut(UrlByte(p, c))
  {
    hide UrlChar;
    UrlCharStays(p.st, c);
  }

  lemma RequestEarly(p: Parser, c: char)
    requires RequestState(p.st) && Known(p)
    ensures EarlyOut(RequestByte(p, c))
  {
    hide VerbByte, SpacesByte, UrlByte, MoreNum, Num;
    if p.st.ReqMethod? { VerbEarly(p, c); }
    else if p.st.ReqSpaces? { SpacesEarly(p, c); }
    else if UrlState(p.st) { UrlEarly(p, c); }
  }

  lemma FieldEarly(p: Parser, c: char)
    requires p.st.FieldStart? && Known(p)
    ensures EarlyOut(FieldStartByte(p, c))
  {
    hide Token;
  }

  lemma ValueStartEarly(p: Parser, c: char)
    requires c < 256 as char && Known(p) && ValueState(p.st)
    ensures EarlyOut(ValueStartByte(p, c))
  {
    hide Lower;
  }

  lemma EndFlagsKeep(h: HState, flags: Flags)
    ensures EndFlags(h, flags).contentLength == flags.contentLength
    ensures EndFlags(h, flags).trailing == flags.trailing
    ensures EndFlags(h, flags).skipBody == flags.skipBody
  {}

  lemma HeaderEndKnown(p: Parser)
    requires Known(p) && ValueState(p.st)
    ensures Known(HeaderEnd(p).(st := FieldStart))
  {
    hide EndFlags;
    EndFlagsKeep(p.hs, p.flags);
  }

  lemma FoldEarly(p: Parser, c: char)
    requires c < 256 as char && FoldState(p.st) && Known(p)
    ensures EarlyOut(ValueByte(p, c))
  {
    hide ValueStartByte, HeaderEnd;
    HeaderEndKnown(p);
  }

  lemma ValueEarly(p: Parser, c: char)
    requires c < 256 as char && ValueState(p.st) && Known(p)
    ensures EarlyOut(ValueByte(p, c))
  {
    hide ValueStartByte, EarlyOut, HeaderEnd;
    if FoldState(p.st) { FoldEarly(p, c); } else { GapEarly(p, c); }
  }

  lemma GapEarly(p: Parser, c: char)
    requires c < 256 as char && (p.st.DiscardWs? || p.st.ValueStart?) && Known(p)
    ensures EarlyOut(ValueByte(p, c))
  {
    hide ValueStartByte, HeaderEnd;
    ValueStartEarly(p, c);
  }

  lemma EarlyBytes(p: Parser, c: char)
    requires c < 256 as char && Early(p.st) && !Looping(p.st) && !p.st.HeadersAlmostDone? && Known(p)
    ensures EarlyOut(OneByte(p, c))
  {
    hide EarlyOut, Known, StartByte, ResponseByte, RequestByte, FieldStartByte, ValueByte, HeadersByte, ChunkByte;
    if StartState(p.st) { StartEarly(p, c); }
    else if ResponseState(p.st) { ResponseEarly(p, c); }
    else if RequestState(p.st) { RequestEarly(p, c); }
    else if p.st.FieldStart? { FieldEarly(p, c); }
    else { ValueEarly(p, c); }
  }

  // All that one turn of the switch tells.
  function TurnEvents(o: Out, c: char): seq<Event> {
    Told(o.acts, o.p.cl) + if o.flow.Advance? then Item(o.p.st, c) else []
  }

  // The books before and after.
  predicate Books(p: Parser, log: seq<Event>) { Inv(p) && Known(p) && Tied(p, log) && Exact(log) }

  lemma {:induction false} ToldQuiet(acts: seq<Act>, cl: nat)
    requires forall i :: 0 <= i < |acts| ==> acts[i].Notify? ==> acts[i].n.MessageBegin?
    ensures forall i :: 0 <= i < |Told(acts, cl)| ==> Quiet(Told(acts, cl)[i])
    decreases |acts|
  {
    if acts != [] { ToldQuiet(acts[1..], cl); }
  }

  lemma EarlyTurn(p: Parser, o: Out, c: char, log: seq<Event>)
    requires EarlyOut(o) && !o.flow.Fail? && Settled(log) && Exact(log) && Inv(o.p)
    ensures Books(o.p, Extend(log, TurnEvents(o, c)))
  {
    hide Exact, Extend, Settled, Inv, Known, Told;
    ToldQuiet(o.acts, o.p.cl);
    QuietAll(log, TurnEvents(o, c));
  }

  lemma NoMore(log: seq<Event>)
    ensures Extend(log, []) == log
  {}

  lemma OneTold(a: Act, cl: nat)
    ensures Told([a], cl) == Tell(a, cl) && Told([], cl) == []
  {
    assert [a][1..] == [];
  }

  // A notice that announces nothing, after which nothing is owed.
  lemma NoticeTurn(p: Parser, o: Out, n: Note, c: char, log: seq<Event>)
    requires o.acts == [Notify(n)] && Open(o.p.st) == {} && Inv(o.p) && Known(o.p)
    requires Exact(log) && Settled(log)
    requires Tied(o.p, log + [Noted(n, o.p.cl)]) || (Quiet(Noted(n, o.p.cl))
             && (Waiting(o.p.st) || o.p.st.MessageDone? || o.p.st.FieldStart?))
    ensures Books(o.p, Extend(log, TurnEvents(o, c)))
  {
    hide Exact, Extend, Append, Told, Inv, Known, Settled;
    OneTold(Notify(n), o.p.cl);
    ClosedItem(o.p.st, c);
    assert TurnEvents(o, c) == [Noted(n, o.p.cl)];
    ExtendOne(log, Noted(n, o.p.cl));
    AnnounceMore(log, n, o.p.cl);
    if Quiet(Noted(n, o.p.cl)) { QuietMore(log, Noted(n, o.p.cl)); }
  }

  lemma ClosedItem(s: St, c: char)
    requires Open(s) == {}
    ensures Item(s, c) == []
  {}

  // No callback at all.
  lemma SilentTurn(p: Parser, o: Out, c: char, log: seq<Event>)
    requires (o.acts == [] || o.acts == [Flush(Body)]) && Open(o.p.st) == {} && Inv(o.p) && Known(o.p) && Exact(log)
             && Tied(o.p, log)
    ensures Books(o.p, Extend(log, TurnEvents(o, c)))
  {
    hide Exact, Told, Inv, Known, Settled, Tied;
    OneTold(Flush(Body), o.p.cl);
    ClosedItem(o.p.st, c);
    assert TurnEvents(o, c) == [];
    NoMore(log);
  }

  lemma AlmostDoneTurn(p: Parser, c: char, log: seq<Event>)
    requires p.st.HeadersAlmostDone? && Books(p, log)
    requires var o := HeadersByte(p, c); !o.flow.Fail? && Inv(o.p)
    ensures var o := HeadersByte(p, c); Books(o.p, Extend(log, TurnEvents(o, c)))
  {
    hide Exact, Extend, Told, Inv, Books, TurnEvents;
    var o := HeadersByte(p, c);
    AlmostDoneFacts(p, c, log);
    NoticeTurn(p, o, o.acts[0].n, c, log);
  }

  lemma AlmostDoneFacts(p: Parser, c: char, log: seq<Event>)
    requires p.st.HeadersAlmostDone? && Books(p, log) && !HeadersByte(p, c).flow.Fail?
    ensures var o := HeadersByte(p, c);
            && (o.acts == [Notify(ChunkComplete)] || o.acts == [Notify(HeadersComplete)])
            && Open(o.p.st) == {} && Known(o.p) && Exact(log) && Settled(log)
            && (if o.acts[0].n.HeadersComplete? then Tied(o.p, log + [Noted(HeadersComplete, o.p.cl)])
               else o.p.st.MessageDone?)
  {
    hide Exact, Inv;
  }

  lemma HeadersDoneTurn(p: Parser, c: char, log: seq<Event>)
    requires p.st.HeadersDone? && Books(p, log)
    requires var o := HeadersByte(p, c); !o.flow.Fail? && !o.flow.Stop? && Inv(o.p)
    ensures var o := HeadersByte(p, c); Books(o.p, Extend(log, TurnEvents(o, c)))
  {
    hide Exact, Extend, Told, Inv, Books, TurnEvents;
    var o := HeadersByte(p, c);
    HeadersDoneFacts(p, c, log);
    if o.acts == [] { SilentTurn(p, o, c, log); } else { NoticeTurn(p, o, MessageComplete, c, log); }
  }

  lemma HeadersDoneFacts(p: Parser, c: char, log: seq<Event>)
    requires p.st.HeadersDone? && Books(p, log) && HeadersByte(p, c).flow.Advance?
    ensures var o := HeadersByte(p, c);
            && Open(o.p.st) == {} && Known(o.p) && Exact(log)
            && (if o.acts == [] then Tied(o.p, log) else
               o.acts == [Notify(MessageComplete)] && Settled(log)
               && Waiting(o.p.st))
  {
    hide Exact, NeedsEof, NewMessage;
    NewMessageState(p);
  }

  lemma ChunkTurn(p: Parser, c: char, log: seq<Event>)
    requires (ChunkState(p.st) || p.st.MessageDone?) && Books(p, log)
    requires var o := ChunkByte(p, c); o.flow.Advance? && Inv(o.p)
    ensures var o := ChunkByte(p, c); Books(o.p, Extend(log, TurnEvents(o, c)))
  {
    hide Exact, Extend, Told, Inv, Books, TurnEvents, ChunkByte, Tied, Known, Open;
    var o := ChunkByte(p, c);
    if p.st.ChunkDataDone? || p.st.MessageDone? {
      EndFacts(p, c, log);
      if Settled(log) {
        NoticeTurn(p, o, o.acts[0].n, c, log);
      } else {
        PaidTurn(p, o, if p.st.ChunkDataDone? then ChunkHeader else HeadersComplete, o.acts[0].n, c, log);
      }
    } else if p.st.ChunkSizeAlmostDone? {
      SizeFacts(p, c, log);
      NoticeTurn(p, o, ChunkHeader, c, log);
    } else {
      SilentFacts(p, c, log);
      SilentTurn(p, o, c, log);
    }
  }

  // The notice that ends what was announced.
  lemma PaidTurn(p: Parser, o: Out, from: Note, n: Note, c: char, log: seq<Event>)
    requires o.acts == [Notify(n)] && Open(o.p.st) == {} && Inv(o.p) && Known(o.p)
    requires Exact(log) && Paid(log, from) && Concludes(Noted(from, 0), Noted(n, o.p.cl))
             && (Waiting(o.p.st) || o.p.st.ChunkSizeStart?)
    ensures Books(o.p, Extend(log, TurnEvents(o, c)))
  {
    hide Exact, Extend, Append, Told, Inv, Known, Settled;
    OneTold(Notify(n), o.p.cl);
    ClosedItem(o.p.st, c);
    assert TurnEvents(o, c) == [Noted(n, o.p.cl)];
    ExtendOne(log, Noted(n, o.p.cl));
    PaidMore(log, from, n, o.p.cl);
  }

  lemma EndFacts(p: Parser, c: char, log: seq<Event>)
    requires (p.st.ChunkDataDone? || p.st.MessageDone?) && Books(p, log) && ChunkByte(p, c).flow.Advance?
    ensures var o := ChunkByte(p, c);
            && Open(o.p.st) == {} && Known(o.p) && Exact(log)
            && (if p.st.ChunkDataDone? then o.acts == [Notify(ChunkComplete)] && o.p.st.ChunkSizeStart?
               && Paid(log, ChunkHeader) && !Settled(log)
                else
                  o.acts == [Notify(MessageComplete)] && Waiting(o.p.st)
                  && (Settled(log) || Paid(log, HeadersComplete)))
  {
    hide Exact, NewMessage;
    NewMessageState(p);
  }

  lemma SizeFacts(p: Parser, c: char, log: seq<Event>)
    requires p.st.ChunkSizeAlmostDone? && Books(p, log) && ChunkByte(p, c).flow.Advance?
    ensures var o := ChunkByte(p, c);
            && o.acts == [Notify(ChunkHeader)] && Open(o.p.st) == {} && Known(o.p) && Exact(log) && Settled(log)
            && (Tied(o.p, log + [Noted(ChunkHeader, o.p.cl)]) || (Quiet(Noted(ChunkHeader, o.p.cl))
               && o.p.st.FieldStart?))
  {
    hide Exact, NewMessage;
  }

  lemma SilentFacts(p: Parser, c: char, log: seq<Event>)
    requires ChunkState(p.st) && !p.st.ChunkDataDone? && !p.st.ChunkSizeAlmostDone? && Books(p, log)
             && ChunkByte(p, c).flow.Advance?
    ensures var o := ChunkByte(p, c);
            (o.acts == [] || o.acts == [Flush(Body)]) && Open(o.p.st) == {} && Known(o.p) && Exact(log)
              && Tied(o.p, log)
  {
    hide Exact, NewMessage, Unhex, Owing, Paid, Settled;
  }

  // One turn of the switch keeps the books.
  lemma TurnKeeps(p: Parser, c: char, log: seq<Event>)
    requires c < 256 as char && !Looping(p.st) && Books(p, log)
    requires var o := OneByte(p, c); o.flow.Advance? || o.flow.Again?
    ensures var o := OneByte(p, c); Books(o.p, Extend(log, TurnEvents(o, c)))
  {
    hide Exact, Extend, Told, Inv, TurnEvents, HeadersByte, ChunkByte, StartByte, ResponseByte, RequestByte,
         FieldStartByte, ValueByte, EarlyOut;
    OneByteInv(p, c);
    OneByteShape(p, c);
    if Early(p.st) && !p.st.HeadersAlmostDone? {
      EarlyBytes(p, c);
      EarlyTurn(p, OneByte(p, c), c, log);
    } else if p.st.HeadersAlmostDone? {
      AlmostDoneTurn(p, c, log);
    } else if p.st.HeadersDone? {
      HeadersDoneTurn(p, c, log);
    } else {
      ChunkTakes(p, c);
      ChunkTurn(p, c, log);
    }
  }

  lemma ChunkTakes(p: Parser, c: char)
    requires ChunkState(p.st) || p.st.MessageDone?
    ensures !ChunkByte(p, c).flow.Again?
  {
    hide NewMessage, Unhex;
  }

  // ---------- whole bytes and whole runs ----------

  lemma {:induction false} OneStepKeeps(p: Parser, c: char, log: seq<Event>)
    requires c < 256 as char && !Looping(p.st) && Books(p, log) && OneStep(p, c).end.Going?
    ensures Books(OneStep(p, c).p, Extend(log, OneStep(p, c).events))
    decreases Rank(p.st)
  {
    hide OneByte, Books, Extend, Told, Item, Looping, Rank;
    var o := OneByte(p, c);
    TurnKeeps(p, c, log);
    if o.flow.Again? {
      RankFalls(p, c);
      assert TurnEvents(o, c) == Told(o.acts, o.p.cl);
      OneStepKeeps(o.p, c, Extend(log, Told(o.acts, o.p.cl)));
      ExtendSum(log, Told(o.acts, o.p.cl), OneStep(o.p, c).events);
    }
  }

  lemma FieldKeeps(p: Parser, c: char, log: seq<Event>)
    requires c < 256 as char && p.st.HeaderField? && Books(p, log) && ByteStep(p, c).end.Going?
    ensures Books(ByteStep(p, c).p, Extend(log, ByteStep(p, c).events))
  {
    hide Exact, Extend, FieldChar, Token;
    FieldKnown(p, c, Token(c));
    FieldCharInv(p, c, Token(c));
    QuietAll(log, ByteStep(p, c).events);
  }

  lemma FieldKnown(p: Parser, c: char, t: char)
    ensures var q := FieldChar(p, c, t); q.st == p.st && q.cl == p.cl && q.flags == p.flags
  {
    hide VerbAt;
  }

  lemma ValueKeeps(p: Parser, c: char, log: seq<Event>)
    requires c < 256 as char && p.st.HeaderValue? && Books(p, log) && ValueStep(p, c).end.Going?
    ensures Books(ValueStep(p, c).p, Extend(log, ValueStep(p, c).events))
  {
    hide Exact, Extend, ValueChar, OneStep, IsHeaderChar, Inv, Known;
    var q := p.(st := HeaderAlmostDone);
    AlmostKnown(p);
    if c == CR {
      QuietAll(log, [Data(Value, "")]);
    } else if c == LF {
      QuietAll(log, [Data(Value, "")]);
      OneStepKeeps(q, c, Extend(log, [Data(Value, "")]));
      ExtendSum(log, [Data(Value, "")], OneStep(q, c).events);
    } else {
      ValueCharInv(p, c);
      ValueKnown(p, c);
      QuietAll(log, [Data(Value, [c])]);
    }
  }

  lemma AlmostKnown(p: Parser)
    requires p.st.HeaderValue? && Inv(p) && Known(p)
    ensures Inv(p.(st := HeaderAlmostDone)) && Known(p.(st := HeaderAlmostDone))
  {}

  lemma MatchWordKeeps(p: Parser, l: char, word: string, done: HState, otherwise: HState)
    ensures var q := MatchWord(p, l, word, done, otherwise); q == p.(index := q.index, hs := q.hs)
  {
    hide VerbAt;
  }

  lemma MatchedKnown(p: Parser, q: Parser)
    requires p.st.HeaderValue? && Known(p) && q == p.(index := q.index, hs := q.hs) && WordHs(q.hs)
    ensures Known(q.(st := HeaderValue))
  {}

  lemma WordKnown(p: Parser, l: char, word: string, done: HState, otherwise: HState)
    requires p.st.HeaderValue? && Known(p) && WordHs(done) && WordHs(otherwise) && WordHs(p.hs)
    ensures Known(MatchWord(p, l, word, done, otherwise).(st := HeaderValue))
  {
    hide MatchWord, Known, WordHs;
    MatchWordKeeps(p, l, word, done, otherwise);
    MatchWordInv(p, l, word, done, otherwise);
    MatchedKnown(p, MatchWord(p, l, word, done, otherwise));
  }

  predicate MatchingWord(h: HState) {
    h.MatchingChunked? || h.MatchingKeepAlive? || h.MatchingClose? || h.MatchingConnUpgrade?
  }

  lemma MatchingKnown(p: Parser, c: char)
    requires c < 256 as char && p.st.HeaderValue? && Known(p) && MatchingWord(p.hs)
    ensures Known(ValueChar(p, c).p)
  {
    hide MatchWord, Lower, Known;
    var l := Lower(c);
    if p.hs.MatchingChunked? { WordKnown(p, l, "chunked", Chunked, General); }
    else if p.hs.MatchingKeepAlive? { WordKnown(p, l, "keep-alive", KeepAlive, ConnToken); }
    else if p.hs.MatchingClose? { WordKnown(p, l, "close", Close, ConnToken); }
    else { WordKnown(p, l, "upgrade", ConnUpgrade, ConnToken); }
  }

  lemma LengthKnown(p: Parser, c: char)
    requires c < 256 as char && p.st.HeaderValue? && Known(p) && p.hs.ContentLength? && !ValueChar(p, c).flow.Fail?
    ensures Known(ValueChar(p, c).p)
  {
    hide MatchWord, Lower, Token, WordEnd;
  }

  predicate MatchedWord(h: HState) { h.KeepAlive? || h.Close? || h.ConnUpgrade? }

  lemma MatchedWordKnown(p: Parser, c: char)
    requires c < 256 as char && p.st.HeaderValue? && Known(p) && MatchedWord(p.hs)
    ensures Known(ValueChar(p, c).p)
  {
    hide MatchWord, Lower, Token, WordEnd, Known;
    WordEndKnown(p, c, p.flags.(keepAlive := true));
    WordEndKnown(p, c, p.flags.(close := true));
    WordEndKnown(p, c, p.flags.(connUpgrade := true));
  }

  lemma TokenStartKnown(p: Parser, c: char)
    requires c < 256 as char && p.st.HeaderValue? && Known(p) && p.hs.TokenStart?
    ensures Known(ValueChar(p, c).p)
  {
    hide MatchWord, Lower, Token, WordEnd;
  }

  lemma TokenKnown(p: Parser, c: char)
    requires c < 256 as char && p.st.HeaderValue? && Known(p) && !MatchingWord(p.hs) && !p.hs.ContentLength?
    ensures Known(ValueChar(p, c).p)
  {
    hide MatchWord, Lower, Token, WordEnd;
    if MatchedWord(p.hs) { MatchedWordKnown(p, c); }
    else if p.hs.TokenStart? { TokenStartKnown(p, c); }
    else { assert ValueChar(p, c).p.cl == p.cl && ValueChar(p, c).p.flags == p.flags; }
  }

  lemma WordEndKnown(p: Parser, c: char, flags: Flags)
    requires p.st.HeaderValue? && Known(p) && !p.hs.ContentLength?
    requires flags.contentLength == p.flags.contentLength && flags.trailing == p.flags.trailing
             && flags.skipBody == p.flags.skipBody
    ensures Known(WordEnd(p, c, flags).p)
  {}

  lemma ValueKnown(p: Parser, c: char)
    requires c < 256 as char && p.st.HeaderValue? && Inv(p) && Known(p) && !ValueChar(p, c).flow.Fail?
    ensures Known(ValueChar(p, c).p)
  {
    hide MatchWord, Lower, Token, WordEnd, ValueChar;
    if MatchingWord(p.hs) {
      MatchingKnown(p, c);
    } else if p.hs.ContentLength? {
      LengthKnown(p, c);
    } else {
      TokenKnown(p, c);
    }
  }

  lemma IdentityKeeps(p: Parser, c: char, log: seq<Event>)
    requires c < 256 as char && p.st.BodyIdentity? && Books(p, log) && BodyStep(p, c).end.Going?
    ensures Books(BodyStep(p, c).p, Extend(log, BodyStep(p, c).events))
  {
    hide Exact, Extend, Append, OneStep, Owing;
    ByteMore(log, p.cl, HeadersComplete, c);
    ExtendOne(log, Data(Body, [c]));
    if p.cl <= 1 {
      var q := p.(cl := 0, st := MessageDone);
      OneStepKeeps(q, c, Extend(log, [Data(Body, [c])]));
      ExtendSum(log, [Data(Body, [c])], OneStep(q, c).events);
    }
  }

  lemma DataKeeps(p: Parser, c: char, log: seq<Event>)
    requires c < 256 as char && (p.st.ChunkData? || p.st.BodyIdentityEof?) && Books(p, log)
    ensures Books(ByteStep(p, c).p, Extend(log, ByteStep(p, c).events))
  {
    hide Exact, Extend, Append, Owing, Streaming;
    ExtendOne(log, Data(Body, [c]));
    if p.st.ChunkData? { ByteMore(log, p.cl, ChunkHeader, c); } else { StreamMore(log, c); }
  }

  lemma ByteKeeps(p: Parser, c: char, log: seq<Event>)
    requires c < 256 as char && Books(p, log) && ByteStep(p, c).end.Going?
    ensures Books(ByteStep(p, c).p, Extend(log, ByteStep(p, c).events))
  {
    hide Books, Extend, OneStep, ValueStep, BodyStep, FieldChar, Token;
    if !Looping(p.st) { OneStepKeeps(p, c, log); }
    else if p.st.HeaderField? { FieldKeeps(p, c, log); }
    else if p.st.HeaderValue? { ValueKeeps(p, c, log); }
    else if p.st.BodyIdentity? { IdentityKeeps(p, c, log); }
    else { DataKeeps(p, c, log); }
  }

  lemma {:induction false} RunKeeps(r: Run, data: string)
    requires Bytes(data) && r.end.Going? && Books(r.p, r.log) && RunOver(r, data).end.Going?
    ensures Books(RunOver(r, data).p, RunOver(r, data).log)
    decreases |data|
  {
    hide Books, Extend, ByteStep;
    if data != "" {
      RunKeeps(r, data[..|data| - 1]);
      var q := RunOver(r, data[..|data| - 1]);
      ByteKeeps(q.p, data[|data| - 1], q.log);
    }
  }

  // In every run of a parser from its start, as long as it goes on, each
  // announced body or chunk has come in exactly the announced number of bytes,
  // or is still coming, and content_length is the number of its bytes that
  // are left.
  lemma BodiesAreExact(p: Parser, data: string)
    requires Bytes(data) && p.flags == NO_FLAGS && p.cl == 0 && Waiting(p.st)
    requires RunOver(Run(p, [], Going, 0), data).end.Going?
    ensures var r := RunOver(Run(p, [], Going, 0), data);
            && Exact(r.log) && r.p.cl <= ULLONG_MAX
            && (r.p.st.BodyIdentity? ==> Owing(r.log, r.p.cl, HeadersComplete) && 0 < r.p.cl)
            && (r.p.st.ChunkData? ==> Owing(r.log, r.p.cl, ChunkHeader) && 0 < r.p.cl && r.p.flags.chunked)
  {
    hide RunOver, Exact, Owing;
    FreshBooks(p);
    RunKeeps(Run(p, [], Going, 0), data);
  }

  lemma FreshBooks(p: Parser)
    requires p.flags == NO_FLAGS && p.cl == 0 && Waiting(p.st)
    ensures Books(p, [])
  {}

  // The same for a parser that was fed the input in pieces.
  lemma BodiesAreExactForAllCuts(v: View, pieces: seq<string>, w: View)
    requires AllBytes(pieces) && Fed(v, pieces, w) && v.errno.OK? && v.log == [] && w.errno.OK?
    requires v.p.flags == NO_FLAGS && v.p.cl == 0 && Waiting(v.p.st)
    requires RunOver(HttpParser.Start(v), Concat(pieces)).end.Going?
    ensures Exact(Joined(w.log))
    ensures w.p.st.BodyIdentity? ==> Owing(Joined(w.log), w.p.cl, HeadersComplete)
    ensures w.p.st.ChunkData? ==> Owing(Joined(w.log), w.p.cl, ChunkHeader)
  {
    hide RunOver, Exact, Owing, Fed, Waiting;
    FedIsRun(v, pieces, w);
    assert Joined([]) == [];
    BodiesAreExact(v.p, Concat(pieces));
  }
}
