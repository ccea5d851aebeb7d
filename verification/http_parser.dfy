// http_parser_execute of 3rd/http_parser/http_parser.c: the loop over a
// buffer, with its marks and the inner loops that take several bytes at once.
// Callbacks return 0 and are appended to a log.
module HttpParser {
  import opened HttpMachine
  import opened HttpShape
  import opened HttpStream
  import opened HttpMarks

  // HTTP_MAX_HEADER_SIZE
  const MAX_HEADER_SIZE: nat := 80 * 1024
  const TWO32: nat := 0x1_0000_0000

  // Buffers up to this length cannot wrap the 32-bit count of header bytes.
  const MAX_PIECE: nat := TWO32 - MAX_HEADER_SIZE - 2

  // ---------- following the run ----------

  // Before byte i, the parser and the callbacks are those of the run.
  ghost predicate Tracks(r0: Run, data: string, i: nat, p: Parser, shown: seq<Event>)
    requires Bytes(data) && i <= |data|
  {
    var r := RunOver(r0, data[..i]);
    r.end.Unspecified? || (r.end.Going? && r.p == p && r.count == r0.count + i && r.log == shown)
  }

  // The run ends with byte i.
  ghost predicate Ended(r0: Run, data: string, i: nat, end: End, p: Parser, shown: seq<Event>)
    requires Bytes(data) && i < |data|
  {
    var r := RunOver(r0, data[..i + 1]);
    r.end.Unspecified? || (r.end == end && r.p == p && r.count == r0.count + (if end.Stopped? then i + 1 else i)
      && r.log == shown)
  }

  lemma Stepped(r0: Run, data: string, i: nat, p: Parser, shown: seq<Event>)
    requires Bytes(data) && i < |data| && Tracks(r0, data, i, p, shown)
    ensures var s := ByteStep(p, data[i]);
            && (s.end.Going? ==> Tracks(r0, data, i + 1, s.p, Extend(shown, s.events)))
            && (s.end.Stopped? || s.end.Failed? ==> Ended(r0, data, i, s.end, s.p, Extend(shown, s.events)))
            && (s.end.Unspecified? ==> RunOver(r0, data[..i + 1]).end.Unspecified?)
  {
    hide RunOver, ByteStep, Extend;
    RunNext(r0, data, i);
  }

  // One more byte of the item that is marked.
  lemma ItemTracked(r0: Run, data: string, i: nat, p: Parser, q: Parser, log: seq<Event>, marks: Marks, k: Kind)
    requires Bytes(data) && i < |data| && marks.Keys == {k} && marks[k] <= i
    requires Tracks(r0, data, i, p, Shown(log, marks, data, i))
    requires ByteStep(p, data[i]) == Step(q, [Data(k, [data[i]])], Going)
    ensures Tracks(r0, data, i + 1, q, Shown(log, marks, data, i + 1))
  {
    hide Tracks, ByteStep, Extend, Shown;
    Stepped(r0, data, i, p, Shown(log, marks, data, i));
    ShownGrows(log, marks, k, data, i);
    ExtendOne(Shown(log, marks, data, i), Data(k, [data[i]]));
  }

  // Bytes that a general header value skips over.
  lemma {:induction false} SkipTracked(r0: Run, data: string, i: nat, j: nat, p: Parser, log: seq<Event>, marks: Marks)
    requires Bytes(data) && i <= j <= |data| && marks.Keys == {Value} && marks[Value] <= i
    requires p.st.HeaderValue? && p.hs.General?
    requires forall k :: i <= k < j ==> data[k] != CR && data[k] != LF
    requires Tracks(r0, data, i, p, Shown(log, marks, data, i))
    ensures Tracks(r0, data, j, p, Shown(log, marks, data, j))
    decreases j - i
  {
    hide Tracks, ByteStep, Shown, RunOver;
    if i < j {
      var c := data[i];
      GeneralStep(p, c);
      if IsHeaderChar(c) {
        ItemTracked(r0, data, i, p, p, log, marks, Value);
      } else {
        Stepped(r0, data, i, p, Shown(log, marks, data, i));
        Lost(r0, data, i + 1, p, Shown(log, marks, data, i + 1));
      }
      SkipTracked(r0, data, i + 1, j, p, log, marks);
    }
  }

  lemma GeneralStep(p: Parser, c: char)
    requires c < 256 as char && c != CR && c != LF && p.st.HeaderValue? && p.hs.General?
    ensures ByteStep(p, c) == if IsHeaderChar(c) then Step(p, [Data(Value, [c])], Going) else Step(p, [], Unspecified)
  {
    assert p.(st := HeaderValue) == p;
  }

  lemma Lost(r0: Run, data: string, i: nat, p: Parser, shown: seq<Event>)
    requires Bytes(data) && i <= |data| && RunOver(r0, data[..i]).end.Unspecified?
    ensures Tracks(r0, data, i, p, shown)
  {}

  // Body bytes that leave more to come.
  lemma {:induction false} BodyTracked(r0: Run, data: string, i: nat, n: nat, p: Parser, log: seq<Event>, marks: Marks)
    requires Bytes(data) && i + n <= |data| && marks.Keys == {Body} && marks[Body] <= i
    requires (p.st.BodyIdentity? || p.st.ChunkData?) && n < p.cl
    requires Tracks(r0, data, i, p, Shown(log, marks, data, i))
    ensures Tracks(r0, data, i + n, p.(cl := p.cl - n), Shown(log, marks, data, i + n))
    decreases n
  {
    hide Tracks, ByteStep, Shown;
    if n == 0 {
      assert p.(cl := p.cl - 0) == p;
    } else {
      BodyTracked(r0, data, i, n - 1, p, log, marks);
      var q := p.(cl := p.cl - (n - 1));
      BodyByte(q, data[i + n - 1]);
      assert q.(cl := q.cl - 1) == p.(cl := p.cl - n);
      ItemTracked(r0, data, i + n - 1, q, q.(cl := q.cl - 1), log, marks, Body);
    }
  }

  lemma BodyByte(p: Parser, c: char)
    requires c < 256 as char && (p.st.BodyIdentity? || p.st.ChunkData?) && p.cl > 1
    ensures ByteStep(p, c) == Step(p.(cl := p.cl - 1), [Data(Body, [c])], Going)
  {
    if p.st.ChunkData? { assert p.(cl := p.cl - 1, st := ChunkData) == p.(cl := p.cl - 1); }
  }

  lemma {:induction false} EofTracked(r0: Run, data: string, i: nat, j: nat, p: Parser, log: seq<Event>, marks: Marks)
    requires Bytes(data) && i <= j <= |data| && marks.Keys == {Body} && marks[Body] <= i && p.st.BodyIdentityEof?
    requires Tracks(r0, data, i, p, Shown(log, marks, data, i))
    ensures Tracks(r0, data, j, p, Shown(log, marks, data, j))
    decreases j - i
  {
    hide Tracks, Shown;
    if i < j {
      ItemTracked(r0, data, i, p, p, log, marks, Body);
      EofTracked(r0, data, i + 1, j, p, log, marks);
    }
  }

  // memchr: the first c in the limit bytes from from on, or -1.
  method Memchr(data: string, c: char, from: nat, limit: nat) returns (at: int)
    requires from + limit <= |data|
    ensures at == -1 || from <= at < from + limit
    ensures at == -1 ==> forall k :: from <= k < from + limit ==> data[k] != c
    ensures at >= 0 ==> data[at] == c && forall k :: from <= k < at ==> data[k] != c
  {
    at := from;
    while at < from + limit
      invariant from <= at <= from + limit
      invariant forall k :: from <= k < at ==> data[k] != c
    {
      if data[at] == c { return; }
      at := at + 1;
    }
    at := -1;
  }

  // One turn of the switch.
  ghost predicate Turn(p: Parser, o: Out, b: Book, d: Book, data: string, i: nat)
    requires Bytes(data) && i < |data| && !Looping(p.st)
  {
    var s := OneStep(p, data[i]);
    var told := Told(o.acts, o.p.cl);
    && (o.flow.Again? ==>
          && !Holding(p.st) && !Holding(o.p.st)
          && !Looping(o.p.st) && Rank(o.p.st) < Rank(p.st) && !o.p.st.ChunkSizeStart? && Fits(d.marks, o.p.st, i)
             && Inv(o.p)
          && s == Step(OneStep(o.p, data[i]).p, told + OneStep(o.p, data[i]).events, OneStep(o.p, data[i]).end)
          && Seen(d, data, i) == Extend(Seen(b, data, i), told))
    && (o.flow.Advance? ==>
          && s.p == o.p && s.end == Going && Fits(d.marks, o.p.st, i + 1) && Inv(o.p)
             && (o.p.st.ChunkSizeStart? ==> Resets(p.st))
          && Seen(d, data, i + 1) == Extend(Seen(b, data, i), s.events))
    && (o.flow.Stop? ==>
          && s == Step(o.p, told, Stopped) && d.marks.Keys == {} && Inv(o.p) && !o.p.st.ChunkSizeStart?
          && Seen(d, data, i) == Extend(Seen(b, data, i), told))
    && (o.flow.Fail? ==>
          && s == Step(o.p, told, Failed(o.flow.e)) && !o.flow.e.OK? && !o.flow.e.HeaderOverflow? && Single(d.marks)
          && (Owes(d.marks, i) <==> i > 0 && Holding(p.st))
          && Seen(d, data, i) == Extend(Seen(b, data, i), told))
  }

  lemma OneTurn(p: Parser, b: Book, data: string, i: nat)
    requires Bytes(data) && i < |data| && !Looping(p.st) && Inv(p) && Fits(b.marks, p.st, i)
    ensures var o := OneByte(p, data[i]); Turn(p, o, b, DoAll(b, o.acts, data, i, o.p.cl), data, i)
  {
    hide Inv, Seen, Extend, Fits, OneByte, Told, Item, Looping, Rank, Resets, DoAll, Plain, Begins, Continues,
         EndsChunk, Open, BodyState;
    var o := OneByte(p, data[i]);
    var d := DoAll(b, o.acts, data, i, o.p.cl);
    OneByteShape(p, data[i]);
    OneByteInv(p, data[i]);
    DoneIsTold(p.st, o, b, data, i);
    if o.flow.Again? {
      RankFalls(p, data[i]);
      AgainCloses(p.st, o, d.marks, i);
    } else if o.flow.Advance? {
      ExtendSum(Seen(b, data, i), Told(o.acts, o.p.cl), Item(o.p.st, data[i]));
    }
  }

  lemma AgainCloses(s: St, o: Out, marks: Marks, i: nat)
    requires Shape(s, o) && o.flow.Again? && marks.Keys == {}
    ensures Fits(marks, o.p.st, i) && !o.p.st.ChunkSizeStart? && !Holding(s) && !Holding(o.p.st)
  {}

  lemma MoreTold(shown: seq<Event>, told: seq<Event>, more: seq<Event>)
    ensures Extend(Extend(shown, told), more) == Extend(shown, told + more)
  {
    ExtendSum(shown, told, more);
  }

  lemma FitsBelow(marks: Marks, s: St, i: nat)
    requires Fits(marks, s, i)
    ensures forall k :: k in marks ==> marks[k] <= i
  {}

  // What one byte in the switch has led to.
  ghost predicate Switched(from: St, s: Step, shown: seq<Event>, p: Parser, errno: Errno, b: Book, data: string, i: nat)
    requires i < |data|
  {
    && p == s.p && !s.end.Unspecified?
    && Seen(b, data, if s.end.Going? then i + 1 else i) == Extend(shown, s.events)
    && (if s.end.Failed? then errno == s.end.e && !errno.OK? && !errno.HeaderOverflow? && Single(b.marks)
       && (Owes(b.marks, i) <==> i > 0 && Holding(from))
        else errno.OK?)
    && (s.end.Going? ==> Inv(p) && Fits(b.marks, p.st, i + 1))
    && (s.end.Stopped? ==> Inv(p) && b.marks.Keys == {} && !p.st.ChunkSizeStart?)
  }

  lemma ExtendNone(shown: seq<Event>)
    ensures Extend(shown, []) == shown
  {}

  lemma Regroup(a: seq<Event>, b: seq<Event>, c: seq<Event>)
    ensures a + (b + c) == (a + b) + c
  {}

  // How the inner loops leave the parser: ready for byte j, or at byte j with
  // an error or a return.
  ghost predicate Read(r0: Run, data: string, i: nat, j: nat, go: bool, before: nat, nread: nat, p: Parser,
      errno: Errno, log: seq<Event>, marks: Marks)
    requires Bytes(data) && i < |data|
  {
    if errno.HeaderOverflow? then !go && before + (|data| - i) > MAX_HEADER_SIZE
    else if go then
      && errno.OK? && i < j <= |data| && Inv(p) && Fits(marks, p.st, j) && (p.st.ChunkSizeStart? ==> nread == 0)
      && nread <= MAX_HEADER_SIZE && nread <= before + (j - i) - (if j < |data| then 1 else 0)
      && Tracks(r0, data, j, p, Shown(log, marks, data, j))
    else
      && i <= j < |data| && Single(marks)
      && Ended(r0, data, j, if errno.OK? then Stopped else Failed(errno), p, Shown(log, marks, data, j))
      && (if errno.OK? then marks.Keys == {} && Inv(p) && !p.st.ChunkSizeStart? && nread <= MAX_HEADER_SIZE
          else Missing(r0, data, j, marks))
  }

  // What a failure at byte j leaves without a callback.
  ghost predicate Missing(r0: Run, data: string, j: nat, marks: Marks)
    requires Bytes(data) && j < |data|
  {
    RunOver(r0, data[..j + 1]).end.Unspecified? || (Owes(marks, j) <==> j > 0 && Holding(RunOver(r0, data[..j]).p.st))
  }

  lemma MissingHere(r0: Run, data: string, j: nat, marks: Marks, p: Parser, shown: seq<Event>)
    requires Bytes(data) && j < |data| && Tracks(r0, data, j, p, shown)
    requires Owes(marks, j) <==> j > 0 && Holding(p.st)
    ensures Missing(r0, data, j, marks)
  {
    hide RunOver, Holding, Owes, Feed;
    RunNext(r0, data, j);
    FeedLost(RunOver(r0, data[..j]), data[j]);
  }

  lemma FeedLost(r: Run, c: char)
    requires c < 256 as char
    ensures r.end.Unspecified? ==> Feed(r, c) == r
  {
    hide ByteStep, Extend;
  }

  // The callback at the end of an item.
  lemma EndTracked(r0: Run, data: string, i: nat, p: Parser, q: Parser, log: seq<Event>, marks: Marks, k: Kind)
    requires Bytes(data) && i < |data| && marks.Keys == {k} && marks[k] <= i
    requires Tracks(r0, data, i, p, Shown(log, marks, data, i))
    requires ByteStep(p, data[i]) == Step(q, [Data(k, "")], Going) && Calm(q.st)
    ensures var d := DoAll(Book(log, marks), [Flush(k)], data, i, q.cl);
            d.marks.Keys == {} && Tracks(r0, data, i + 1, q, Shown(d.log, d.marks, data, i + 1))
              && Fits(d.marks, q.st, i + 1)
  {
    hide Tracks, ByteStep, Extend, Append, Shown, Open, Do, DoAll, Joined;
    Stepped(r0, data, i, p, Shown(log, marks, data, i));
    DoOne(Book(log, marks), Flush(k), data, i, q.cl);
    FlushSeen(Book(log, marks), k, data, i, q.cl);
    var d := DoAll(Book(log, marks), [Flush(k)], data, i, q.cl);
    ExtendOne(Shown(log, marks, data, i), Data(k, ""));
    ShownNone(d.log, d.marks, data, i);
    ShownNone(d.log, d.marks, data, i + 1);
  }

  lemma StillOpen(marks: Marks, s: St, i: nat, j: nat)
    requires Fits(marks, s, i) && i <= j && !s.ChunkDataAlmostDone?
    ensures Fits(marks, s, j)
  {}

  lemma DiscardInv(p: Parser)
    requires Inv(p)
    ensures Inv(p.(st := DiscardWs)) && Calm(DiscardWs)
  {}

  lemma FailTracked(r0: Run, data: string, i: nat, p: Parser, shown: seq<Event>, e: Errno)
    requires Bytes(data) && i < |data| && Tracks(r0, data, i, p, shown)
    requires ByteStep(p, data[i]).events == [] && ByteStep(p, data[i]).p == p && ByteStep(p, data[i]).end == Failed(e)
    ensures Ended(r0, data, i, Failed(e), p, shown)
  {
    hide Tracks, ByteStep, Extend, Ended;
    Stepped(r0, data, i, p, shown);
    ExtendNone(shown);
  }

  // A refused byte in the middle of a name or a value.
  lemma OpenMissing(r0: Run, data: string, i: nat, j: nat, marks: Marks, p: Parser, shown: seq<Event>)
    requires Bytes(data) && i <= j < |data| && Tracks(r0, data, j, p, shown) && Fits(marks, p.st, i)
    requires p.st.HeaderField? || p.st.HeaderValue?
    ensures Missing(r0, data, j, marks) && Single(marks)
  {
    hide Tracks, Missing, Owes, Open;
    StillOpen(marks, p.st, i, j);
    FitsSingle(marks, p.st, j);
    FitsOwes(marks, p.st, j);
    MissingHere(r0, data, j, marks, p, shown);
  }

  lemma FieldMark(marks: Marks, s: St, i: nat)
    requires Fits(marks, s, i) && s.HeaderField?
    ensures marks.Keys == {Field} && marks[Field] <= i
  {
    assert Field in marks;
  }

  lemma FieldStep(p: Parser, c: char)
    requires c < 256 as char && p.st.HeaderField?
    ensures var t := Token(c);
            ByteStep(p, c) == if t != 0 as char then Step(FieldChar(p, c, t), [Data(Field, [c])], Going)
                              else if c == ':' then Step(p.(st := DiscardWs), [Data(Field, "")], Going)
                              else Step(p, [], Failed(InvalidHeaderToken))
  {
    hide Token, FieldChar;
  }

  // The jump of h_general to the next CR or LF, which looks no further than
  // the header limit; beyond it the count of header bytes is exceeded.
  method SkipGeneral(data: string, j: nat) returns (n: nat, ghost far: bool)
    requires j < |data| && data[j] != CR && data[j] != LF
    ensures j < n <= |data|
    ensures far ==> n == |data| && |data| - j > MAX_HEADER_SIZE
    ensures !far ==>
            (forall k :: j <= k < n ==> data[k] != CR && data[k] != LF)
            && (n < |data| ==> data[n] == CR || data[n] == LF)
  {
    var limit := if |data| - j < MAX_HEADER_SIZE then |data| - j else MAX_HEADER_SIZE;
    var cr := Memchr(data, CR, j, limit);
    var lf := Memchr(data, LF, j, limit);
    far := cr < 0 && lf < 0 && limit < |data| - j;
    if cr >= 0 {
      n := if lf >= 0 && cr >= lf then lf else cr;
    } else if lf >= 0 {
      n := lf;
    } else {
      n := |data|;
    }
  }

  lemma ValueMark(marks: Marks, s: St, i: nat)
    requires Fits(marks, s, i) && s.HeaderValue?
    ensures marks.Keys == {Value} && marks[Value] <= i
  {
    assert Value in marks;
  }

  // A value byte that is neither CR nor LF.
  lemma ValueByteStep(p: Parser, c: char)
    requires c < 256 as char && p.st.HeaderValue? && c != CR && c != LF
    ensures ByteStep(p, c) == if !IsHeaderChar(c) then Step(p, [], Unspecified)
                              else if ValueChar(p, c).flow.Fail? then Step(ValueChar(p, c).p, [],
                                Failed(ValueChar(p, c).flow.e))
                              else Step(ValueChar(p, c).p, [Data(Value, [c])], Going)
  {
    hide ValueChar, IsHeaderChar;
  }

  // A refused value byte leaves the parser as it is.
  lemma ValueCharFails(p: Parser, c: char)
    requires c < 256 as char && p.st.HeaderValue? && Inv(p) && ValueChar(p, c).flow.Fail?
    ensures ValueChar(p, c).p == p && !ValueChar(p, c).flow.e.OK? && !ValueChar(p, c).flow.e.HeaderOverflow?
  {
    hide MatchWord, Lower, Token, WordEnd;
    if !p.hs.ContentLength? { NeverFails(p, c); }
  }

  lemma NeverFails(p: Parser, c: char)
    requires c < 256 as char && !p.hs.ContentLength?
    ensures !ValueChar(p, c).flow.Fail?
  {
    hide MatchWord, Lower, Token;
  }

  lemma ReturnStep(p: Parser)
    requires p.st.HeaderValue?
    ensures ByteStep(p, CR) == Step(p.(st := HeaderAlmostDone), [Data(Value, "")], Going)
    ensures Calm(HeaderAlmostDone)
  {}

  lemma AlmostByte(p: Parser)
    requires p.st.HeaderAlmostDone?
    ensures OneByte(p, LF) == Go(p, ValueLws)
  {}

  lemma AlmostStep(p: Parser)
    requires p.st.HeaderAlmostDone?
    ensures OneStep(p, LF) == Step(p.(st := ValueLws), [], Going)
  {
    hide OneByte;
    AlmostByte(p);
  }

  lemma LineStep(p: Parser)
    requires p.st.HeaderValue?
    ensures ByteStep(p, LF) == Step(p.(st := ValueLws), [Data(Value, "")], Going) && Calm(ValueLws)
    ensures OneStep(p.(st := HeaderAlmostDone), LF) == Step(p.(st := ValueLws), [], Going)
  {
    hide OneStep;
    AlmostStep(p.(st := HeaderAlmostDone));
    assert p.(st := HeaderAlmostDone).(st := ValueLws) == p.(st := ValueLws);
    assert [Data(Value, "")] + [] == [Data(Value, "")];
  }

  lemma AlmostInv(p: Parser)
    requires Inv(p)
    ensures Inv(p.(st := HeaderAlmostDone))
  {}

  lemma BadTracked(r0: Run, data: string, i: nat, p: Parser, shown: seq<Event>, q: Parser, other: seq<Event>, e: Errno)
    requires Bytes(data) && i < |data| && Tracks(r0, data, i, p, shown) && ByteStep(p, data[i]).end.Unspecified?
    ensures Ended(r0, data, i, Failed(e), q, other)
  {
    hide Tracks, ByteStep, Extend;
    Stepped(r0, data, i, p, shown);
  }

  // MARK(body)
  lemma BodyMarked(log: seq<Event>, marks: Marks, s: St, data: string, i: nat, cl: nat)
    requires i < |data| && Fits(marks, s, i) && (s.BodyIdentity? || s.BodyIdentityEof? || s.ChunkData?)
    ensures var d := DoAll(Book(log, marks), [Mark(Body)], data, i, cl);
            && d.log == log && d.marks.Keys == {Body} && d.marks[Body] <= i
            && Shown(log, d.marks, data, i) == Shown(log, marks, data, i)
    ensures forall k :: k in marks ==> marks[k] <= i
  {
    hide Shown, Open;
    BodyOpen(s);
    DoOne(Book(log, marks), Mark(Body), data, i, cl);
    if Body in marks {
      assert marks.Keys == {Body};
    } else {
      assert marks.Keys == {};
      MarkSeen(Book(log, marks), Body, data, i, cl);
    }
  }

  lemma BodyFits(marks: Marks, s: St, j: nat)
    requires BodyState(s) && marks.Keys == {Body} && marks[Body] < j
    ensures Fits(marks, s, j)
  {}

  lemma BodyOpen(s: St)
    requires BodyState(s)
    ensures Open(s) == {}
  {}

  lemma LastChunkByte(p: Parser, c: char)
    requires c < 256 as char && p.st.ChunkData? && p.cl == 1
    ensures ByteStep(p, c) == Step(p.(cl := 0, st := ChunkDataAlmostDone), [Data(Body, [c])], Going)
  {}

  // The last byte of a body: the callback first, then the end of the message.
  lemma LastTracked(r0: Run, data: string, j: nat, p: Parser, q: Parser, log: seq<Event>, marks: Marks)
    requires Bytes(data) && j < |data| && marks.Keys == {Body} && marks[Body] <= j
    requires p.st.BodyIdentity? && p.cl == 1 && q == p.(cl := 0, st := MessageDone)
    requires Tracks(r0, data, j, p, Shown(log, marks, data, j))
    ensures var d := DoAll(Book(log, marks), [Flush(Body)], data, j + 1, q.cl);
            var s := OneStep(q, data[j]);
            var shown := Extend(Seen(d, data, j), s.events);
            && d.marks.Keys == {} && !Looping(q.st) && Fits(d.marks, q.st, j) && Inv(q) && !s.end.Failed?
            && (s.end.Going? ==> Tracks(r0, data, j + 1, s.p, shown))
            && (s.end.Stopped? || s.end.Failed? ==> Ended(r0, data, j, s.end, s.p, shown))
  {
    hide Tracks, Ended, ByteStep, OneStep, RunOver, Extend, Append, Shown, DoAll;
    var shown := Shown(log, marks, data, j);
    var c := data[j];
    var d := DoAll(Book(log, marks), [Flush(Body)], data, j + 1, q.cl);
    DoOne(Book(log, marks), Flush(Body), data, j + 1, q.cl);
    FlushSeen(Book(log, marks), Body, data, j + 1, q.cl);
    ShownNone(d.log, d.marks, data, j);
    ShownNone(d.log, d.marks, data, j + 1);
    ShownGrows(log, marks, Body, data, j);
    ExtendOne(shown, Data(Body, [c]));
    LastBodyByte(p, c);
    ExtendSum(shown, [Data(Body, [c])], OneStep(q, c).events);
    Stepped(r0, data, j, p, shown);
    MessageDoneStep(q, c);
  }

  lemma MessageDoneStep(p: Parser, c: char)
    requires c < 256 as char && p.st.MessageDone?
    ensures !OneStep(p, c).end.Failed?
  {
    hide NewMessage;
  }

  lemma LastBodyByte(p: Parser, c: char)
    requires c < 256 as char && p.st.BodyIdentity? && p.cl == 1
    ensures var next := OneStep(p.(cl := 0, st := MessageDone), c);
            ByteStep(p, c) == Step(next.p, [Data(Body, [c])] + next.events, next.end)
  {}

  // ---------- a whole buffer ----------

  // The states in which the input may end.
  predicate EofIsFine(s: St) { s.Dead? || s.StartReqOrRes? || s.StartRes? || s.StartReq? }

  // The marks that the state calls for at the start of a buffer.
  function FirstMarks(s: St): Marks {
    if s.HeaderField? then map[Field := 0] else if s.HeaderValue? then map[Value := 0] else if UrlState(s)
      then map[Url := 0]
    else if s.ResStatus? then map[Status := 0] else map[]
  }

  // The callbacks made, when an item that was being read is lost.
  ghost predicate Loses(log: seq<Event>, all: seq<Event>) {
    all == log || exists k, lost :: all == Append(log, Data(k, lost))
  }

  // What a call of http_parser_execute makes of the run over its buffer.  A
  // failure at byte n loses the item that was in hand, if the buffer holds any
  // of it.
  ghost predicate Result(r0: Run, data: string, n: nat, p: Parser, errno: Errno, log: seq<Event>)
    requires Bytes(data)
  {
    var r := RunOver(r0, data);
    || errno.HeaderOverflow? || r.end.Unspecified?
    || (p == r.p && r.count == r0.count + n && n <= |data|
        && match r.end
           case Failed(e) =>
             && errno == e && !e.OK? && Loses(Joined(log), r.log)
             && (Joined(log) == r.log <==> n == 0 || !Holding(RunOver(r0, data[..n]).p.st))
           case _ => errno.OK? && Joined(log) == r.log)
  }

  // The parser as a caller sees it.
  datatype View = View(p: Parser, errno: Errno, log: seq<Event>)

  function Start(v: View): Run { Run(v.p, Joined(v.log), Going, 0) }

  // A call of http_parser_execute that turns v into w and returns n.
  ghost predicate Called(v: View, data: string, n: nat, w: View)
    requires Bytes(data)
  {
    if !v.errno.OK? then w == v && n == 0
    else if data == "" then
      && w.p == v.p
      && w.errno == (if v.p.st.BodyIdentityEof? || EofIsFine(v.p.st) then OK else InvalidEofState)
      && w.log == v.log + (if v.p.st.BodyIdentityEof? then [Noted(MessageComplete, v.p.cl)] else [])
      && n == (if w.errno.OK? then 0 else 1)
    else Result(Start(v), data, n, w.p, w.errno, w.log)
  }

  lemma SwitchTracked(r0: Run, data: string, i: nat, p: Parser, shown: seq<Event>)
    requires Bytes(data) && i < |data| && Tracks(r0, data, i, p, shown) && !Looping(p.st)
    ensures var s := OneStep(p, data[i]);
            && (s.end.Going? ==> Tracks(r0, data, i + 1, s.p, Extend(shown, s.events)))
            && (s.end.Stopped? || s.end.Failed? ==> Ended(r0, data, i, s.end, s.p, Extend(shown, s.events)))
  {
    hide Tracks, Ended, OneStep, Extend;
    Stepped(r0, data, i, p, shown);
  }

  lemma NoMarks(marks: Marks)
    requires marks.Keys == {}
    ensures Single(marks)
  {}

  lemma AtMostOne(marks: Marks, s: St, i: nat)
    requires Fits(marks, s, i)
    ensures |marks| <= 1
  {
    FitsSingle(marks, s, i);
    assert |marks.Keys| == |marks|;
    if marks.Keys != {} {
      var a :| a in marks;
      assert marks.Keys == {a};
    }
  }

  lemma NothingPending(marks: Marks, data: string)
    ensures Pending(marks, data, 0) == []
  {}

  lemma FirstFits(s: St)
    ensures Fits(FirstMarks(s), s, 0)
  {
    hide UrlState;
    if UrlState(s) {
      UrlOpen(s);
      assert FirstMarks(s).Keys == {Url};
    } else if s.HeaderField? {
      assert FirstMarks(s).Keys == {Field};
    } else if s.HeaderValue? {
      assert FirstMarks(s).Keys == {Value};
    }
  }

  lemma UrlOpen(s: St)
    requires UrlState(s)
    ensures Open(s) == {Url} && !s.HeaderField? && !s.HeaderValue? && !BodyState(s) && !s.ResStatus?
  {}

  lemma Starting(r0: Run, data: string, log: seq<Event>, s: St)
    requires Bytes(data) && r0.p.st == s && r0.log == Joined(log) && r0.end.Going? && r0.count == 0
    ensures var marks := FirstMarks(s); Fits(marks, s, 0) && Tracks(r0, data, 0, r0.p, Shown(log, marks, data, 0))
  {
    hide Joined, Pending, Open, FirstMarks, Fits;
    var marks := FirstMarks(s);
    assert data[..0] == "";
    NothingPending(marks, data);
    FirstFits(s);
    assert log + [] == log;
  }

  lemma {:induction false} Stopping(r0: Run, data: string, j: nat, p: Parser, errno: Errno, log: seq<Event>,
      marks: Marks)
    requires Bytes(data) && j < |data| && r0.count == 0 && !errno.HeaderOverflow? && Single(marks)
             && (errno.OK? ==> marks.Keys == {})
    requires Ended(r0, data, j, if errno.OK? then Stopped else Failed(errno), p, Shown(log, marks, data, j))
    requires !errno.OK? ==> Missing(r0, data, j, marks)
    ensures Result(r0, data, if errno.OK? then j + 1 else j, p, errno, log)
  {
    hide RunOver, Joined, Append, Pending, Shown;
    RunEndedAt(r0, data, j + 1);
    if errno.OK? { ShownNone(log, marks, data, j); } else { Losing(log, marks, data, j); }
  }

  lemma Losing(log: seq<Event>, marks: Marks, data: string, j: nat)
    requires j <= |data| && Single(marks)
    ensures Loses(Joined(log), Shown(log, marks, data, j))
    ensures Joined(log) == Shown(log, marks, data, j) <==> !Owes(marks, j)
  {
    hide Joined, Append, Pending, Shown;
    if marks.Keys == {} {
      ShownNone(log, marks, data, j);
    } else {
      var k :| k in marks;
      assert marks.Keys == {k};
      if marks[k] < j {
        ShownOne(log, marks, k, data, j);
        AppendMore(Joined(log), k, data[marks[k]..j]);
      } else {
        FarMark(log, marks, k, data, j);
      }
    }
  }

  lemma AppendMore(log: seq<Event>, k: Kind, b: string)
    requires b != ""
    ensures Append(log, Data(k, b)) != log
  {
    var n := |log|;
    if n > 0 && log[n - 1].Data? && log[n - 1].kind == k {
      assert Append(log, Data(k, b))[n - 1].bytes != log[n - 1].bytes;
    } else {
      assert |Append(log, Data(k, b))| == n + 1;
    }
  }

  lemma FarMark(log: seq<Event>, marks: Marks, k: Kind, data: string, j: nat)
    requires j <= |data| && marks.Keys == {k} && marks[k] >= j
    ensures Shown(log, marks, data, j) == Joined(log)
  {
    hide Joined;
    PendingOne(marks, k, data, j);
    assert log + [] == log;
  }

  lemma Finishing(r0: Run, data: string, p: Parser, shown: seq<Event>)
    requires Bytes(data) && Tracks(r0, data, |data|, p, shown)
    ensures var r := RunOver(r0, data);
            r.end.Unspecified? || (r.end.Going? && r.p == p && r.count == r0.count + |data| && r.log == shown)
  {
    assert data[..|data|] == data;
  }

  const LEFT_OVER: seq<Act> := [Flush(Field), Flush(Value), Flush(Url), Flush(Body), Flush(Status)]

  lemma {:induction false} FlushNone(b: Book, acts: seq<Act>, data: string, i: nat, cl: nat)
    requires i <= |data| && forall a :: a in acts ==> a.Flush? && a.k !in b.marks
    ensures DoAll(b, acts, data, i, cl) == b
    decreases |acts|
  {
    if acts != [] {
      assert acts[0] in acts;
      FlushNone(b, acts[1..], data, i, cl);
    }
  }

  lemma {:induction false} FlushOnly(b: Book, acts: seq<Act>, at: nat, k: Kind, data: string, i: nat, cl: nat)
    requires i <= |data| && at < |acts| && acts[at] == Flush(k) && b.marks.Keys == {k} && b.marks[k] <= i
    requires forall n :: 0 <= n < |acts| && n != at ==> acts[n].Flush? && acts[n].k != k
    ensures DoAll(b, acts, data, i, cl) == Do(b, Flush(k), data, i, cl)
    decreases at
  {
    if at == 0 {
      FlushNone(Do(b, Flush(k), data, i, cl), acts[1..], data, i, cl);
    } else {
      FlushOnly(b, acts[1..], at - 1, k, data, i, cl);
    }
  }

  lemma FlushEmpty(b: Book, data: string, i: nat, cl: nat)
    requires i <= |data| && b.marks.Keys == {}
    ensures DoAll(b, LEFT_OVER, data, i, cl) == b
  {
    hide DoAll;
    FlushNone(b, LEFT_OVER, data, i, cl);
  }

  lemma FlushLeft(b: Book, k: Kind, data: string, i: nat, cl: nat)
    requires i <= |data| && b.marks.Keys == {k} && b.marks[k] <= i
    ensures DoAll(b, LEFT_OVER, data, i, cl) == Do(b, Flush(k), data, i, cl)
  {
    hide Do, DoAll;
    var at := if k.Field? then 0 else if k.Value? then 1 else if k.Url? then 2 else if k.Body? then 3 else 4;
    FlushOnly(b, LEFT_OVER, at, k, data, i, cl);
  }

  // The callbacks for the marks that are left over.
  lemma Leftover(log: seq<Event>, marks: Marks, s: St, data: string, cl: nat)
    requires Fits(marks, s, |data|) && data != ""
    ensures var d := DoAll(Book(log, marks), LEFT_OVER, data, |data|, cl);
            Joined(d.log) == Shown(log, marks, data, |data|)
  {
    hide Joined, Append, Pending, Shown, DoAll, Open, BodyState, LEFT_OVER;
    FitsSingle(marks, s, |data|);
    FitsBelow(marks, s, |data|);
    var b := Book(log, marks);
    if marks.Keys == {} {
      FlushEmpty(b, data, |data|, cl);
      ShownNone(log, marks, data, |data|);
    } else {
      var k :| k in marks;
      assert marks.Keys == {k};
      assert marks[k] < |data|;
      var d := Do(b, Flush(k), data, |data|, cl);
      FlushSeen(b, k, data, |data|, cl);
      FlushLeft(b, k, data, |data|, cl);
      ShownNone(d.log, d.marks, data, |data|);
    }
  }

  class Stream {
    var p: Parser
    var nread: nat
    var errno: Errno
    var log: seq<Event>

    predicate Valid()
      reads this
    {
      errno.OK? ==> Inv(p) && nread <= MAX_HEADER_SIZE && (p.st.ChunkSizeStart? ==> nread == 0)
    }

    ghost function Face(): View
      reads this
    {
      View(p, errno, log)
    }

    // http_parser_init
    constructor (ty: Type)
      ensures Valid() && errno.OK? && log == [] && nread == 0
      ensures p.ty == ty && p.verb == "DELETE" && !p.upgrade && p.flags == NO_FLAGS && p.cl == 0
      ensures p.st == if ty == Request then StartReq else if ty == Response then StartRes else StartReqOrRes
    {
      p := Parser(ty, NO_FLAGS, if ty == Request then StartReq else if ty == Response then StartRes else StartReqOrRes,
        General, 0, 0, 0, 0, 0,
                  "DELETE", false);
      nread := 0;
      errno := OK;
      log := [];
    }

    // COUNT_HEADER_SIZE
    method Count(n: nat) returns (ok: bool)
      requires errno.OK? && nread <= MAX_HEADER_SIZE && n <= MAX_PIECE
      modifies this`nread, this`errno
      ensures nread == old(nread) + n && ok == (nread <= MAX_HEADER_SIZE)
      ensures errno == if ok then OK else HeaderOverflow
    {
      nread := (nread + n) % TWO32;
      ok := nread <= MAX_HEADER_SIZE;
      if !ok { errno := HeaderOverflow; }
    }

    // The marks and callbacks of one branch.
    method Perform(acts: seq<Act>, data: string, i: nat, marks0: Marks) returns (marks: Marks)
      requires i <= |data| && forall k :: k in marks0 ==> marks0[k] <= i
      modifies this`log
      ensures Book(log, marks) == DoAll(Book(old(log), marks0), acts, data, i, p.cl)
    {
      marks := marks0;
      var k := 0;
      while k < |acts|
        invariant k <= |acts| && forall k :: k in marks ==> marks[k] <= i
        invariant DoAll(Book(log, marks), acts[k..], data, i, p.cl) ==
                  DoAll(Book(old(log), marks0), acts, data, i, p.cl)
        decreases |acts| - k
      {
        assert acts[k..][1..] == acts[k + 1..];
        assert Book(log, marks).(log := log) == Book(log, marks);
        match acts[k] {
          case Mark(kind) =>
            if kind !in marks { marks := marks[kind := i]; }
          case Flush(kind) =>
            if kind in marks {
              log := log + [Data(kind, data[marks[kind]..i])];
              marks := marks - {kind};
            }
          case Notify(n) =>
            log := log + [Noted(n, p.cl)];
        }
        k := k + 1;
      }
    }

    // The switch at byte i, once.
    method SwitchOnce(data: string, i: nat, marks0: Marks) returns (marks: Marks, flow: Flow)
      requires Bytes(data) && i < |data| && errno.OK? && Inv(p) && !Looping(p.st) && Fits(marks0, p.st, i)
      requires p.st.ChunkSizeStart? ==> nread == 1
      modifies this
      ensures p == OneByte(old(p), data[i]).p && flow == OneByte(old(p), data[i]).flow
      ensures Turn(old(p), OneByte(old(p), data[i]), Book(old(log), marks0), Book(log, marks), data, i)
      ensures errno == if flow.Fail? then flow.e else OK
      ensures nread == if Resets(old(p).st) && !flow.Fail? then 0 else old(nread)
    {
      hide OneByte, Turn, Looping, DoAll, Fits;
      // assert(parser->nread == 1) and assert(parser->flags & F_CHUNKED)
      assert p.st.ChunkSizeStart? ==> nread == 1;
      assert ChunkState(p.st) ==> p.flags.chunked;
      OneTurn(p, Book(log, marks0), data, i);
      FitsBelow(marks0, p.st, i);
      var was := p.st;
      var o := OneByte(p, data[i]);
      p := o.p;
      flow := o.flow;
      if Resets(was) && !flow.Fail? { nread := 0; }
      marks := Perform(o.acts, data, i, marks0);
      if flow.Fail? { errno := flow.e; }
    }

    // The switch at byte i, run again as long as a state leaves the byte to
    // the next one.
    method Switch(data: string, i: nat, marks0: Marks) returns (marks: Marks, go: bool)
      requires Bytes(data) && i < |data| && errno.OK? && Inv(p) && !Looping(p.st) && Fits(marks0, p.st, i)
      requires p.st.ChunkSizeStart? ==> nread == 1
      modifies this
      ensures Switched(old(p).st, OneStep(old(p), data[i]), old(Seen(Book(log, marks0), data, i)), p, errno,
              Book(log, marks), data, i)
      ensures go == OneStep(old(p), data[i]).end.Going?
      ensures nread == old(nread) || nread == 0
      ensures go && p.st.ChunkSizeStart? ==> nread == 0
    {
      hide OneByte, Looping, DoAll, Fits, OneStep, Seen, Extend, Told, Inv, Rank, Resets;
      marks := marks0;
      var flow := Again;
      ghost var told: seq<Event> := [];
      ghost var shown := Seen(Book(log, marks), data, i);
      ghost var c := data[i];
      ghost var was, b := p, Book(log, marks);
      ExtendNone(shown);
      while flow.Again?
        invariant flow.Again? ==>
          && errno.OK? && Inv(p) && !Looping(p.st) && Fits(marks, p.st, i) && Holding(p.st) == Holding(old(p).st)
          && (p.st.ChunkSizeStart? ==> nread == 1)
          && Seen(Book(log, marks), data, i) == Extend(shown, told)
          && OneStep(old(p), c) == Step(OneStep(p, c).p, told + OneStep(p, c).events, OneStep(p, c).end)
        invariant !flow.Again? ==> Switched(old(p).st, OneStep(old(p), c), shown, p, errno, Book(log, marks), data, i)
        invariant flow.Advance? == (!flow.Again? && OneStep(old(p), c).end.Going?)
        invariant nread == old(nread) || nread == 0
        invariant flow.Advance? && p.st.ChunkSizeStart? ==> nread == 0
        decreases if flow.Again? then 1 + Rank(p.st) else 0
      {
        was, b := p, Book(log, marks);
        marks, flow := SwitchOnce(data, i, marks);
        ghost var more := Told(OneByte(was, c).acts, p.cl);
        if flow.Again? {
          Regroup(told, more, OneStep(p, c).events);
          MoreTold(shown, told, more);
          told := told + more;
        } else {
          MoreTold(shown, told, OneStep(was, c).events);
        }
      }
      go := flow.Advance?;
    }

    // The colon after a name.
    method EndField(data: string, i: nat, j: nat, marks0: Marks, ghost r0: Run) returns (marks: Marks)
      requires Bytes(data) && i <= j < |data| && data[j] == ':' && errno.OK? && Inv(p) && p.st.HeaderField?
               && Fits(marks0, p.st, i)
      requires Tracks(r0, data, j, p, Shown(log, marks0, data, j))
      modifies this`p, this`log
      ensures Inv(p) && p.st.DiscardWs? && Fits(marks, p.st, j + 1)
              && Tracks(r0, data, j + 1, p, Shown(log, marks, data, j + 1))
    {
      hide Tracks, Shown, Inv, ByteStep, Fits, RunOver, Extend, DoAll, Open, Holding;
      FieldMark(marks0, p.st, i);
      FieldStep(p, ':');
      assert Token(':') == 0 as char;
      DiscardInv(p);
      EndTracked(r0, data, j, p, p.(st := DiscardWs), log, marks0, Field);
      p := p.(st := DiscardWs);
      marks := Perform([Flush(Field)], data, j, marks0);
    }

    // s_header_field, from byte i on.
    method ReadField(data: string, i: nat, marks0: Marks, ghost r0: Run) returns (j: nat, marks: Marks, go: bool)
      requires Bytes(data) && i < |data| <= MAX_PIECE && errno.OK? && Inv(p) && nread <= MAX_HEADER_SIZE
      requires p.st.HeaderField? && Fits(marks0, p.st, i) && Tracks(r0, data, i, p, Shown(log, marks0, data, i))
      modifies this
      ensures Read(r0, data, i, j, go, old(nread), nread, p, errno, log, marks)
    {
      hide FieldChar, Token, Tracks, Missing, Ended, Shown, Inv, ByteStep, Fits, RunOver, Extend, DoAll, Open;
      FieldMark(marks0, p.st, i);
      marks := marks0;
      j := i;
      var c := data[i];
      var t := Token(c);
      while j < |data|
        invariant i <= j <= |data| && p.st.HeaderField? && Inv(p) && errno.OK? && nread == old(nread) && log == old(log)
        invariant Tracks(r0, data, j, p, Shown(log, marks, data, j))
        decreases |data| - j
      {
        c := data[j];
        t := Token(c);
        if t == 0 as char { break; }
        FieldStep(p, c);
        FieldCharInv(p, c, t);
        ItemTracked(r0, data, j, p, FieldChar(p, c, t), log, marks, Field);
        p := FieldChar(p, c, t);
        j := j + 1;
      }
      var ok := Count(j - i);
      if !ok { return j, marks, false; }
      if j == |data| {
        StillOpen(marks, p.st, i, j);
        return j, marks, true;
      }
      if c == ':' {
        marks := EndField(data, i, j, marks, r0);
        return j + 1, marks, true;
      }
      FieldStep(p, c);
      FailTracked(r0, data, j, p, Shown(log, marks, data, j), InvalidHeaderToken);
      OpenMissing(r0, data, i, j, marks, p, Shown(log, marks, data, j));
      errno := InvalidHeaderToken;
      go := false;
    }

    // The loop of s_header_value, up to the end of the line or of the buffer.
    method ReadLine(data: string, i: nat, marks: Marks, ghost r0: Run) returns (j: nat, ok: bool, ghost far: bool)
      requires Bytes(data) && i < |data| <= MAX_PIECE && errno.OK? && Inv(p)
      requires p.st.HeaderValue? && Fits(marks, p.st, i) && Tracks(r0, data, i, p, Shown(log, marks, data, i))
      modifies this`p, this`errno
      ensures i <= j <= |data|
      ensures ok ==> errno.OK? && p.st.HeaderValue? && Inv(p) && (j < |data| ==> data[j] == CR || data[j] == LF)
      ensures ok && !far ==> Tracks(r0, data, j, p, Shown(log, marks, data, j))
      ensures ok && far ==> j == |data| && |data| - i > MAX_HEADER_SIZE
      ensures Single(marks)
      ensures !ok ==>
              j < |data| && Missing(r0, data, j, marks) && !errno.OK? && !errno.HeaderOverflow?
              && Ended(r0, data, j, Failed(errno), p, Shown(log, marks, data, j))
    {
      hide ValueChar, IsHeaderChar, Tracks, Missing, Ended, Shown, Inv, ByteStep, Fits, RunOver, Extend;
      ValueMark(marks, p.st, i);
      var entry := p.hs;
      j := i;
      far := false;
      while j < |data| && data[j] != CR && data[j] != LF
        invariant i <= j <= |data| && p.st.HeaderValue? && Inv(p) && errno.OK?
        invariant far ==> j == |data| && |data| - i > MAX_HEADER_SIZE
        invariant !far ==> Tracks(r0, data, j, p, Shown(log, marks, data, j))
        decreases |data| - j
      {
        var c := data[j];
        ValueByteStep(p, c);
        if !IsHeaderChar(c) {
          BadTracked(r0, data, j, p, Shown(log, marks, data, j), p.(hs := entry), Shown(log, marks, data, j),
            InvalidHeaderToken);
          OpenMissing(r0, data, i, j, marks, p, Shown(log, marks, data, j));
          errno := InvalidHeaderToken;
          p := p.(hs := entry);
          return j, false, false;
        }
        if p.hs.General? {
          var n;
          n, far := SkipGeneral(data, j);
          if !far { SkipTracked(r0, data, j, n, p, log, marks); }
          j := n;
        } else {
          ValueCharInv(p, c);
          var o := ValueChar(p, c);
          if o.flow.Fail? {
            ValueCharFails(p, c);
            FailTracked(r0, data, j, p, Shown(log, marks, data, j), o.flow.e);
            OpenMissing(r0, data, i, j, marks, p, Shown(log, marks, data, j));
            errno := o.flow.e;
            return j, false, false;
          }
          ItemTracked(r0, data, j, p, o.p, log, marks, Value);
          p := o.p;
          j := j + 1;
        }
      }
      ok := true;
    }

    // The carriage return of a value.
    method EndReturn(data: string, i: nat, j: nat, marks0: Marks, ghost r0: Run) returns (marks: Marks)
      requires Bytes(data) && i <= j < |data| && data[j] == CR && errno.OK? && Inv(p) && p.st.HeaderValue?
               && Fits(marks0, p.st, i)
      requires Tracks(r0, data, j, p, Shown(log, marks0, data, j))
      modifies this`p, this`log
      ensures Inv(p) && p.st.HeaderAlmostDone? && Fits(marks, p.st, j + 1)
              && Tracks(r0, data, j + 1, p, Shown(log, marks, data, j + 1))
    {
      hide Tracks, Shown, Inv, ByteStep, Fits, RunOver, Extend, DoAll, Open, Holding;
      ValueMark(marks0, p.st, i);
      ReturnStep(p);
      AlmostInv(p);
      EndTracked(r0, data, j, p, p.(st := HeaderAlmostDone), log, marks0, Value);
      p := p.(st := HeaderAlmostDone);
      marks := Perform([Flush(Value)], data, j, marks0);
    }

    // The line feed of a value, which s_header_almost_done looks at again.
    method EndLine(data: string, j: nat, marks0: Marks, ghost r0: Run) returns (marks: Marks, go: bool)
      requires Bytes(data) && j < |data| && data[j] == LF && errno.OK? && Inv(p) && p.st.HeaderValue?
               && Fits(marks0, p.st, j)
      requires Tracks(r0, data, j, p, Shown(log, marks0, data, j))
      modifies this
      ensures go && errno.OK? && Inv(p) && Fits(marks, p.st, j + 1) && p.st.ValueLws?
              && (nread == old(nread) || nread == 0)
      ensures Tracks(r0, data, j + 1, p, Shown(log, marks, data, j + 1))
    {
      hide Tracks, Ended, Shown, Inv, ByteStep, OneStep, RunOver, Extend, DoAll;
      ValueMark(marks0, p.st, j);
      LineStep(p);
      AlmostInv(p);
      EndTracked(r0, data, j, p, p.(st := ValueLws), log, marks0, Value);
      p := p.(st := HeaderAlmostDone);
      marks := Perform([Flush(Value)], data, j, marks0);
      ghost var l, m := log, marks;
      ShownNone(l, m, data, j);
      ShownNone(l, m, data, j + 1);
      marks, go := Switch(data, j, marks);
      ExtendNone(Shown(l, m, data, j));
    }

    // s_header_value, from byte i on.
    method ReadValue(data: string, i: nat, marks0: Marks, ghost r0: Run) returns (j: nat, marks: Marks, go: bool)
      requires Bytes(data) && i < |data| <= MAX_PIECE && errno.OK? && Inv(p) && 0 < nread <= MAX_HEADER_SIZE
      requires p.st.HeaderValue? && Fits(marks0, p.st, i) && Tracks(r0, data, i, p, Shown(log, marks0, data, i))
      modifies this
      ensures Read(r0, data, i, j, go, old(nread), nread, p, errno, log, marks)
    {
      hide ValueChar, Tracks, Missing, Ended, Shown, Inv, ByteStep, Fits, RunOver, Extend;
      ValueMark(marks0, p.st, i);
      marks := marks0;
      ghost var far;
      var ok;
      j, ok, far := ReadLine(data, i, marks, r0);
      if !ok { return j, marks, false; }
      if j < |data| && data[j] == LF {
        ok := Count(j - i);
        if !ok { return j, marks, false; }
        StillOpen(marks, p.st, i, j);
        marks, go := EndLine(data, j, marks, r0);
        return j + 1, marks, true;
      }
      if j < |data| {
        marks := EndReturn(data, i, j, marks, r0);
      }
      ok := Count(j - i);
      if !ok { return j, marks, false; }
      if j == |data| {
        StillOpen(marks, p.st, i, j);
        return j, marks, true;
      }
      return j + 1, marks, true;
    }

    // s_body_identity, from byte i on.
    method ReadIdentity(data: string, i: nat, marks0: Marks, ghost r0: Run) returns (j: nat, marks: Marks, go: bool)
      requires Bytes(data) && i < |data| && errno.OK? && Inv(p) && nread <= MAX_HEADER_SIZE
      requires p.st.BodyIdentity? && Fits(marks0, p.st, i) && Tracks(r0, data, i, p, Shown(log, marks0, data, i))
      modifies this
      ensures Read(r0, data, i, j, go, old(nread), nread, p, errno, log, marks)
    {
      hide Tracks, Ended, Shown, ByteStep, OneStep, RunOver, Extend, DoAll, Open, Looping;
      assert p.cl != 0 && p.cl != ULLONG_MAX;
      var toRead := if p.cl < |data| - i then p.cl else |data| - i;
      BodyMarked(log, marks0, p.st, data, i, p.cl);
      marks := Perform([Mark(Body)], data, i, marks0);
      j := i + toRead - 1;
      ghost var was := p;
      p := p.(cl := p.cl - toRead);
      if p.cl == 0 {
        BodyTracked(r0, data, i, toRead - 1, was, log, marks);
        p := p.(st := MessageDone);
        LastTracked(r0, data, j, was.(cl := 1), p, log, marks);
        marks := Perform([Flush(Body)], data, j + 1, marks);
        marks, go := Switch(data, j, marks);
        j := if go then j + 1 else j;
      } else {
        BodyTracked(r0, data, i, toRead, was, log, marks);
        j := j + 1;
        BodyFits(marks, p.st, j);
        go := true;
      }
    }

    // s_chunk_data, from byte i on.
    method ReadChunk(data: string, i: nat, marks0: Marks, ghost r0: Run) returns (j: nat, marks: Marks)
      requires Bytes(data) && i < |data| && errno.OK? && Inv(p) && nread <= MAX_HEADER_SIZE
      requires p.st.ChunkData? && Fits(marks0, p.st, i) && Tracks(r0, data, i, p, Shown(log, marks0, data, i))
      modifies this
      ensures Read(r0, data, i, j, true, old(nread), nread, p, errno, log, marks)
    {
      hide Tracks, Ended, Shown, ByteStep, OneStep, RunOver, Extend, DoAll, Open, Looping;
      assert p.flags.chunked;
      assert p.cl != 0 && p.cl != ULLONG_MAX;
      var toRead := if p.cl < |data| - i then p.cl else |data| - i;
      BodyMarked(log, marks0, p.st, data, i, p.cl);
      marks := Perform([Mark(Body)], data, i, marks0);
      j := i + toRead;
      ghost var was := p;
      p := p.(cl := p.cl - toRead);
      if p.cl == 0 {
        BodyTracked(r0, data, i, toRead - 1, was, log, marks);
        p := p.(st := ChunkDataAlmostDone);
        LastChunkByte(was.(cl := 1), data[j - 1]);
        ItemTracked(r0, data, j - 1, was.(cl := 1), p, log, marks, Body);
      } else {
        BodyTracked(r0, data, i, toRead, was, log, marks);
      }
      BodyFits(marks, p.st, j);
    }

    // s_body_identity_eof, from byte i on.
    method ReadEof(data: string, i: nat, marks0: Marks, ghost r0: Run) returns (j: nat, marks: Marks)
      requires Bytes(data) && i < |data| && errno.OK? && Inv(p) && nread <= MAX_HEADER_SIZE
      requires p.st.BodyIdentityEof? && Fits(marks0, p.st, i) && Tracks(r0, data, i, p, Shown(log, marks0, data, i))
      modifies this`log
      ensures Read(r0, data, i, j, true, old(nread), nread, p, errno, log, marks)
    {
      hide Tracks, Ended, Shown, ByteStep, OneStep, RunOver, Extend, DoAll, Open, Looping;
      BodyMarked(log, marks0, p.st, data, i, p.cl);
      marks := Perform([Mark(Body)], data, i, marks0);
      j := |data|;
      EofTracked(r0, data, i, j, p, log, marks);
      BodyFits(marks, p.st, j);
    }

    // Byte i, and the bytes after it that the same inner loop takes.
    method ReadOn(data: string, i: nat, marks0: Marks, ghost r0: Run) returns (j: nat, marks: Marks, go: bool)
      requires Bytes(data) && i < |data| <= MAX_PIECE && errno.OK? && Inv(p) && nread <= MAX_HEADER_SIZE
      requires p.st.ChunkSizeStart? ==> nread == 1
      requires ParsingHeader(p.st) ==> nread > 0
      requires Fits(marks0, p.st, i) && Tracks(r0, data, i, p, Shown(log, marks0, data, i))
      modifies this
      ensures Read(r0, data, i, j, go, old(nread), nread, p, errno, log, marks)
    {
      hide Tracks, Missing, Owes, Holding, Ended, Shown, ByteStep, OneStep, RunOver, Extend, Fits, Inv;
      if p.st.HeaderField? {
        j, marks, go := ReadField(data, i, marks0, r0);
      } else if p.st.HeaderValue? {
        j, marks, go := ReadValue(data, i, marks0, r0);
      } else if p.st.BodyIdentity? {
        j, marks, go := ReadIdentity(data, i, marks0, r0);
      } else if p.st.BodyIdentityEof? {
        j, marks := ReadEof(data, i, marks0, r0);
        go := true;
      } else if p.st.ChunkData? {
        j, marks := ReadChunk(data, i, marks0, r0);
        go := true;
      } else {
        ghost var was, shown := p, Shown(log, marks0, data, i);
        SwitchTracked(r0, data, i, p, shown);
        marks, go := Switch(data, i, marks0);
        j := if go then i + 1 else i;
        if !go {
          if errno.OK? { NoMarks(marks); } else { MissingHere(r0, data, i, marks, was, shown); }
        }
      }
    }

    // http_parser_execute on a buffer that is not empty.
    method ExecuteBytes(data: string) returns (n: nat)
      requires Valid() && errno.OK? && Bytes(data) && 0 < |data| <= MAX_PIECE
      modifies this
      ensures Valid()
      ensures Result(Run(old(p), Joined(old(log)), Going, 0), data, n, p, errno, log)
      ensures errno.HeaderOverflow? ==> old(nread) + |data| >= MAX_HEADER_SIZE
    {
      hide Tracks, Shown, Joined, RunOver, Inv, Fits, Ended, DoAll;
      ghost var r0 := Run(p, Joined(log), Going, 0);
      var marks := FirstMarks(p.st);
      var i := 0;
      Starting(r0, data, log, p.st);
      while i < |data|
        invariant i <= |data| && errno.OK? && Inv(p) && nread <= MAX_HEADER_SIZE
        invariant nread <= old(nread) + i + (if i == |data| then 1 else 0)
        invariant p.st.ChunkSizeStart? ==> nread == 0
        invariant Fits(marks, p.st, i) && Tracks(r0, data, i, p, Shown(log, marks, data, i))
        decreases |data| - i
      {
        if ParsingHeader(p.st) {
          var ok := Count(1);
          if !ok { return i; }
        }
        var j, go;
        j, marks, go := ReadOn(data, i, marks, r0);
        if !go {
          if !errno.HeaderOverflow? { Stopping(r0, data, j, p, errno, log, marks); }
          return if errno.OK? then j + 1 else j;
        }
        i := j;
      }
      FitsBelow(marks, p.st, i);
      // at most one mark is set
      assert |marks| <= 1 by { AtMostOne(marks, p.st, i); }
      Leftover(log, marks, p.st, data, p.cl);
      Finishing(r0, data, p, Shown(log, marks, data, |data|));
      marks := Perform(LEFT_OVER, data, i, marks);
      n := i;
    }

    // http_parser_execute
    method Execute(data: string) returns (n: nat)
      requires Valid() && Bytes(data) && |data| <= MAX_PIECE
      modifies this
      ensures Valid()
      ensures Called(old(Face()), data, n, Face())
      ensures old(errno).OK? && errno.HeaderOverflow? ==> old(nread) + |data| >= MAX_HEADER_SIZE
    {
      if !errno.OK? { return 0; }
      if |data| == 0 {
        if p.st.BodyIdentityEof? {
          log := log + [Noted(MessageComplete, p.cl)];
          return 0;
        } else if EofIsFine(p.st) {
          return 0;
        } else {
          errno := InvalidEofState;
          return 1;
        }
      }
      n := ExecuteBytes(data);
    }
  }
}
