// Headers, as the HTTP parser reads them: line by line, and what they mean.
module HttpHeaders {
  import opened HttpMachine
  import opened HttpStream
  import opened HttpSegments
  import opened HttpLine
  import opened HttpFields
  import opened HttpValues
  import opened HttpOptions
  import opened HttpMessage
  import HttpLength

  // ---------- what a header does to the parser ----------

  function ReadFlags(f: Flags, h: Header): Flags {
    match h
    case PlainHeader(_, _, _) => f
    case LengthHeader(_, _, _, _) => f.(contentLength := true)
    case CodingHeader(_, _, text) => f.(chunked := f.chunked || SaysChunked(text))
    case UpgradeHeader(_, _, text) => f.(upgrade := f.upgrade || text != "")
    case OptionsHeader(_, _, options) =>
      f.(keepAlive := f.keepAlive || Asks(options, "keep-alive"), close := f.close || Asks(options, "close"),
         connUpgrade := f.connUpgrade || Asks(options, "upgrade"))
  }

  function ReadLength(cl: nat, h: Header): nat { if h.LengthHeader? then Number(h.digits) else cl }

  // z is p but for the matching, and what the header says.
  ghost predicate Took(p: Parser, h: Header, z: Parser) {
    z == p.(hs := z.hs, index := z.index, flags := ReadFlags(p.flags, h), cl := ReadLength(p.cl, h))
  }

  // The parser at the end of a value.
  ghost predicate ValueRead(p: Parser, h: Header, q: Parser) {
    && q.st.HeaderValue? && Leads(p, HttpMessage.HeaderValue(h), q, [Data(Value, HttpMessage.HeaderValue(h))], Going)
    && q == p.(st := HttpMachine.HeaderValue, hs := q.hs, index := q.index, flags := q.flags, cl := ReadLength(p.cl, h))
    && EndFlags(q.hs, q.flags) == ReadFlags(p.flags, h)
  }

  lemma PlainRead(p: Parser, h: Header) returns (q: Parser)
    requires p.st.DiscardWs? && p.hs == NameHs(Folded(h.name)) && ProperHeader(h) && h.PlainHeader? && h.text != ""
    ensures ValueRead(p, h, q)
  {
    NameHsMeans(Folded(h.name));
    hide NameHs, Folded, TokenChar;
    q := p.(st := HttpMachine.HeaderValue, index := 0, hs := General);
    assert ValueStartByte(p, h.text[0]) == Out(q, [Mark(Value)], Advance);
    hide ValueStartByte, Leads;
    GeneralLeads(p, h.text, q);
  }

  lemma UpgradeRead(p: Parser, h: Header) returns (q: Parser)
    requires p.st.DiscardWs? && p.hs == NameHs(Folded(h.name)) && ProperHeader(h) && h.UpgradeHeader? && h.text != ""
    ensures ValueRead(p, h, q)
  {
    NameHsMeans(Folded(h.name));
    hide NameHs, Folded, TokenChar;
    q := p.(st := HttpMachine.HeaderValue, index := 0, hs := General, flags := p.flags.(upgrade := true));
    assert ValueStartByte(p, h.text[0]) == Out(q, [Mark(Value)], Advance);
    hide ValueStartByte, Leads;
    GeneralLeads(p, h.text, q);
  }

  lemma CodingRead(p: Parser, h: Header) returns (q: Parser)
    requires p.st.DiscardWs? && p.hs == NameHs(Folded(h.name)) && ProperHeader(h) && h.CodingHeader? && h.text != ""
    ensures ValueRead(p, h, q)
  {
    NameHsMeans(Folded(h.name));
    hide NameHs, Folded, TokenChar, CodingHs, EndFlags, SaysChunked, Leads;
    q := CodingLeads(p, h.text);
    CodingEnds(h.text, p.flags);
  }

  lemma LengthRead(p: Parser, h: Header) returns (q: Parser)
    requires p.st.DiscardWs? && p.hs == NameHs(Folded(h.name)) && ProperHeader(h) && h.LengthHeader?
    requires !p.flags.contentLength
    ensures ValueRead(p, h, q)
  {
    NameHsMeans(Folded(h.name));
    hide NameHs, Folded, TokenChar, Leads, Number;
    q := p.(st := HttpMachine.HeaderValue, index := 0, flags := p.flags.(contentLength := true),
      cl := Number(h.digits));
    DigitsLead(p, h.digits);
    LengthSpace(q);
    SpacesStay(p, h.digits, q, h.after);
  }

  lemma LengthSpace(q: Parser)
    requires q.st.HeaderValue? && q.hs.ContentLength?
    ensures ValueChar(q, ' ') == Out(q, [], Advance)
  {
    assert q.(st := HttpMachine.HeaderValue) == q;
  }

  lemma OptionsRead(p: Parser, h: Header) returns (q: Parser)
    requires p.st.DiscardWs? && p.hs == NameHs(Folded(h.name)) && ProperHeader(h) && h.OptionsHeader?
    ensures ValueRead(p, h, q)
  {
    var n := |h.options| - 1;
    NameHsMeans(Folded(h.name));
    q := OptionsLead(p, h.options);
    assert ProperOption(h.options[n]);
    OptionFlags(EarAt(h.options, n), h.options[n], n, q.flags);
    HeardNext(p.flags, h.options, n + 1);
    HeardMeans(p.flags, h.options, n + 1);
    AsksAll(h.options, "keep-alive");
    AsksAll(h.options, "close");
    AsksAll(h.options, "upgrade");
    hide NameHs, Folded, TokenChar, Leads, EarAt, OptionHs, HeardFlags, AskedBy, Asks, EndFlags, SetFlag, OptionsText;
  }

  lemma AsksAll(options: seq<Option>, word: string)
    ensures AskedBy(options, |options|, word) == Asks(options, word)
  {
    hide EarAt, Folded;
  }

  lemma Read(p: Parser, h: Header) returns (q: Parser)
    requires p.st.DiscardWs? && p.hs == NameHs(Folded(h.name)) && ProperHeader(h) && HttpMessage.HeaderValue(h) != ""
    requires h.LengthHeader? ==> !p.flags.contentLength
    ensures ValueRead(p, h, q)
  {
    hide ValueRead, ProperHeader, NameHs, Folded;
    match h
    case PlainHeader(_, _, _) => q := PlainRead(p, h);
    case LengthHeader(_, _, _, _) => q := LengthRead(p, h);
    case CodingHeader(_, _, _) => q := CodingRead(p, h);
    case UpgradeHeader(_, _, _) => q := UpgradeRead(p, h);
    case OptionsHeader(_, _, _) => q := OptionsRead(p, h);
  }

  // A field without a value says nothing.
  lemma EmptyRead(p: Parser, h: Header)
    requires p.hs == NameHs(Folded(h.name)) && ProperHeader(h) && HttpMessage.HeaderValue(h) == ""
    ensures EndFlags(p.hs, p.flags) == p.flags == ReadFlags(p.flags, h) && !h.LengthHeader?
  {
    if h.OptionsHeader? { LastOption(h.options); }
    hide Folded, TokenChar, PrefixOf, OptionsText;
  }

  // ---------- a line of the header ----------

  // The line leads from s to z; es are the callbacks that are made already.
  ghost predicate LineRead(s: Parser, h: Header, z: Parser, es: seq<Event>) {
    && Pending(z) && Leads(s, HeaderText(h), z, es, Going) && Took(s, h, Settled(z))
    && es + Owed(z) == [Data(Field, h.name), Data(Value, HttpMessage.HeaderValue(h))]
  }

  lemma HeaderLeads(s: Parser, h: Header) returns (z: Parser, es: seq<Event>)
    requires s.st.FieldStart? && ProperHeader(h) && (h.LengthHeader? ==> !s.flags.contentLength)
    ensures LineRead(s, h, z, es)
  {
    var v := HttpMessage.HeaderValue(h);
    NameParts(h);
    var p := FieldLeads(s, h.name, h.pad);
    if v == "" {
      EmptyRead(p, h);
      EmptyEnds(p);
      z, es := p.(st := DiscardLws), [Data(Field, h.name)];
      hide Leads, NameHs, Folded, ReadFlags;
      LeadsBefore(s, h.name + ":" + h.pad, p, es, "\r\n", z);
      assert h.name + ":" + h.pad + "\r\n" == HeaderText(h);
    } else {
      var q := Read(p, h);
      ReadEnds(p, h, q);
      z, es := q.(st := ValueLws), [Data(Field, h.name)] + [Data(Value, v)];
      hide Leads, NameHs, Folded, ReadFlags, EndFlags, HttpMessage.HeaderValue;
      LeadsOn(s, h.name + ":" + h.pad, p, [Data(Field, h.name)], v + "\r\n", z, [Data(Value, v)], Going);
      assert h.name + ":" + h.pad + (v + "\r\n") == HeaderText(h);
    }
  }

  lemma NameParts(h: Header)
    requires ProperHeader(h)
    ensures IsToken(h.name) && Blanks(h.pad)
  {
  }

  lemma ReadEnds(p: Parser, h: Header, q: Parser)
    requires ValueRead(p, h, q)
    ensures var v := HttpMessage.HeaderValue(h);
            Leads(p, v + "\r\n", q.(st := ValueLws), [Data(Value, v)], Going)
    ensures q == p.(st := HttpMachine.HeaderValue, hs := q.hs, index := q.index, flags := q.flags,
                    cl := ReadLength(p.cl, h)) && EndFlags(q.hs, q.flags) == ReadFlags(p.flags, h)
  {
    hide Leads, ReadFlags, EndFlags, HttpMessage.HeaderValue;
    ValueEnds(p, HttpMessage.HeaderValue(h), q);
  }

  // ---------- all lines ----------

  function FlagsOf(f: Flags, hs: seq<Header>): Flags {
    if hs == [] then f else ReadFlags(FlagsOf(f, hs[..|hs| - 1]), hs[|hs| - 1])
  }

  function LengthOf(cl: nat, hs: seq<Header>): nat {
    if hs == [] then cl else ReadLength(LengthOf(cl, hs[..|hs| - 1]), hs[|hs| - 1])
  }

  ghost predicate HeadersRead(s: Parser, hs: seq<Header>, z: Parser, es: seq<Event>) {
    && Pending(z) && Leads(s, HeadersText(hs), z, es, Going) && es + Owed(z) == HeaderEvents(hs)
    && var t := Settled(z);
       t == s.(hs := t.hs, index := t.index, flags := FlagsOf(s.flags, hs), cl := LengthOf(s.cl, hs))
  }

  predicate OneLength(hs: seq<Header>) {
    forall i, j :: 0 <= i < j < |hs| ==> !hs[i].LengthHeader? || !hs[j].LengthHeader?
  }

  lemma {:induction false} NoLengthYet(f: Flags, hs: seq<Header>)
    requires !f.contentLength && forall i :: 0 <= i < |hs| ==> !hs[i].LengthHeader?
    ensures !FlagsOf(f, hs).contentLength
  {
    hide Asks, SaysChunked;
    if hs != [] { NoLengthYet(f, hs[..|hs| - 1]); }
  }

  lemma {:induction false} HeadersLead(s: Parser, hs: seq<Header>) returns (z: Parser, es: seq<Event>)
    requires s.st.FieldStart? && !s.flags.contentLength && OneLength(hs)
    requires forall i :: 0 <= i < |hs| ==> ProperHeader(hs[i])
    ensures HeadersRead(s, hs, z, es)
    decreases |hs|
  {
    hide Leads, ProperHeader, ReadFlags, ReadLength, FlagsOf, LengthOf, LineRead, HeadersText, HeaderEvents, HeaderText;
    if hs == [] {
      z, es := s, [];
      NoHeaders(s);
    } else {
      var n := |hs| - 1;
      var front, h := hs[..n], hs[n];
      assert OneLength(front);
      var z0, es0 := HeadersLead(s, front);
      var t := Settled(z0);
      if h.LengthHeader? {
        assert forall i :: 0 <= i < |front| ==> front[i] == hs[i] && !front[i].LengthHeader?;
        NoLengthYet(s.flags, front);
      }
      assert t.st.FieldStart?;
      var z1, es1 := HeaderLeads(t, h);
      z, es := z1, es0 + (Owed(z0) + es1);
      OneMoreHeader(s, hs, z0, es0, z1, es1);
    }
  }

  lemma NoHeaders(s: Parser)
    requires s.st.FieldStart?
    ensures HeadersRead(s, [], s, [])
  {
    LeadsNowhere(s);
    hide Leads;
  }

  lemma OneMoreHeader(s: Parser, hs: seq<Header>, z0: Parser, es0: seq<Event>, z: Parser, es1: seq<Event>)
    requires hs != [] && HeadersRead(s, hs[..|hs| - 1], z0, es0) && LineRead(Settled(z0), hs[|hs| - 1], z, es1)
    requires ProperHeader(hs[|hs| - 1])
    ensures HeadersRead(s, hs, z, es0 + (Owed(z0) + es1))
  {
    var n := |hs| - 1;
    var front, h := hs[..n], hs[n];
    HeaderStarts(h);
    hide Leads, ProperHeader, ReadFlags, ReadLength, HeaderText, Settled, Owed, Pending, HttpMessage.HeaderValue;
    SettledLeads(z0, HeaderText(h), z, es1, Going);
    LeadsOn(s, HeadersText(front), z0, es0, HeaderText(h), z, Owed(z0) + es1, Going);
    assert es0 + (Owed(z0) + es1) + Owed(z) == es0 + Owed(z0) + (es1 + Owed(z));
  }

  lemma HeaderStarts(h: Header)
    requires ProperHeader(h)
    ensures HeaderText(h) != "" && var c := HeaderText(h)[0]; c != ' ' && c != '\t' && c < 256 as char
  {
    TokenIs(h.name[0]);
    assert HeaderText(h)[0] == h.name[0];
    hide HttpMessage.HeaderValue, Folded;
  }

  // ---------- what the headers mean ----------

  // The flags say what the headers mean.
  predicate Means(f: Flags, cl: nat, w: Meant) {
    && f.chunked == w.chunked && f.keepAlive == w.keepAlive && f.close == w.close && f.connUpgrade == w.upgradeOption
    && f.upgrade == w.upgrade && f.contentLength == w.length.Length? && !f.trailing && !f.skipBody
    && cl == if w.length.Length? then w.length.n else UNKNOWN
  }

  lemma {:induction false} HeadersMean(hs: seq<Header>)
    ensures Means(FlagsOf(NO_FLAGS, hs), LengthOf(ULLONG_MAX, hs), Meaning(hs))
  {
    hide Means, ReadFlags, ReadLength, Reads;
    if hs == [] {
      NothingMeans();
    } else {
      var front, h := hs[..|hs| - 1], hs[|hs| - 1];
      HeadersMean(front);
      MeansNext(FlagsOf(NO_FLAGS, front), LengthOf(ULLONG_MAX, front), Meaning(front), h);
    }
  }

  lemma NothingMeans()
    ensures Means(NO_FLAGS, ULLONG_MAX, NOTHING_MEANT)
  {
  }

  lemma MeansNext(f: Flags, cl: nat, w: Meant, h: Header)
    requires Means(f, cl, w)
    ensures Means(ReadFlags(f, h), ReadLength(cl, h), Reads(w, h))
  {
    hide Asks, SaysChunked, Number;
  }

  lemma {:induction false} LengthSmall(hs: seq<Header>)
    requires forall i :: 0 <= i < |hs| ==> ProperHeader(hs[i])
    ensures Meaning(hs).length.Length? ==> Meaning(hs).length.n <= HttpLength.MAX_LENGTH
  {
    hide Asks, SaysChunked, Number, Folded, TokenChar, EarAt, Trimmed;
    if hs != [] {
      LengthSmall(hs[..|hs| - 1]);
      assert ProperHeader(hs[|hs| - 1]);
    }
  }

  // Plain headers change nothing.
  lemma {:induction false} PlainChangesNothing(f: Flags, cl: nat, hs: seq<Header>)
    requires forall i :: 0 <= i < |hs| ==> hs[i].PlainHeader?
    ensures FlagsOf(f, hs) == f && LengthOf(cl, hs) == cl
  {
    hide Asks, SaysChunked;
    if hs != [] { PlainChangesNothing(f, cl, hs[..|hs| - 1]); }
  }

  // ---------- the end of the header ----------

  // The line feed of the empty line does what it does in the settled state.
  lemma EmptyLineLeads(z: Parser, q: Parser, es: seq<Event>, end: End)
    requires Pending(z) && Leads(Settled(z).(st := HeadersAlmostDone), "\n", q, es, end)
    ensures Leads(z, "\r\n", q, Owed(z) + es, end)
  {
    var s := Settled(z);
    var a := s.(st := HeadersAlmostDone);
    hide Leads, Settled, Owed;
    assert s.st.FieldStart? by { SettledStarts(z); }
    EmptyLineCr(s);
    LeadsAfter(s, "\r", a, "\n", q, es, end);
    assert "\r" + "\n" == "\r\n";
    SettledLeads(z, "\r\n", q, es, end);
  }

  lemma SettledStarts(z: Parser)
    requires Pending(z)
    ensures Settled(z).st.FieldStart?
  {
  }

  lemma EmptyLineCr(s: Parser)
    requires s.st.FieldStart?
    ensures Leads(s, "\r", s.(st := HeadersAlmostDone), [], Going)
  {
    assert OneByte(s, CR) == Out(s.(st := HeadersAlmostDone), [], Advance);
    hide OneByte;
    Walks(s, CR, HeadersAlmostDone);
  }
}
