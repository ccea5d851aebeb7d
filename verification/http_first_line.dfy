// Request lines and status lines, from the state in which a message is awaited
// to the one in which the headers begin.
module HttpFirstLine {
  import opened HttpMachine
  import opened HttpShape
  import opened HttpStream
  import opened HttpSegments
  import opened HttpLine
  import opened HttpTarget
  import opened HttpMessage

  // ---------- requests ----------

  predicate ProtocolNext(r: St, c: char, s: St) {
    match r
    case ReqHttpStart => c == 'H' && s == ReqH
    case ReqH => c == 'T' && s == ReqHT
    case ReqHT => c == 'T' && s == ReqHTT
    case ReqHTT => c == 'P' && s == ReqHTTP
    case ReqHTTP => c == '/' && s == ReqFirstMajor
    case ReqMajor => c == '.' && s == ReqFirstMinor
    case ReqMinor => c == CR && s == ReqLineAlmostDone
    case ReqLineAlmostDone => c == LF && s == FieldStart
    case _ => false
  }

  lemma ProtocolStep(p: Parser, c: char, s: St)
    requires ProtocolNext(p.st, c, s)
    ensures c < 256 as char && !Looping(p.st) && OneByte(p, c) == Out(p.(st := s), [], Advance)
  {
  }

  lemma ProtocolWalk(p: Parser, c: char, s: St)
    requires ProtocolNext(p.st, c, s)
    ensures Leads(p, [c], p.(st := s), [], Going)
  {
    ProtocolStep(p, c, s);
    hide OneByte, ProtocolNext;
    Walks(p, c, s);
  }

  lemma ProtocolSigns()
    ensures ProtocolNext(ReqHttpStart, 'H', ReqH) && ProtocolNext(ReqH, 'T', ReqHT) && ProtocolNext(ReqHT, 'T', ReqHTT)
    ensures ProtocolNext(ReqHTT, 'P', ReqHTTP) && ProtocolNext(ReqHTTP, '/', ReqFirstMajor)
  {
  }

  lemma ProtocolHalf(p: Parser)
    requires p.st.ReqHttpStart?
    ensures Leads(p, "HTT", p.(st := ReqHTT), [], Going)
  {
    hide *;
    ProtocolSigns();
    ProtocolWalk(p, 'H', ReqH);
    ProtocolWalk(p.(st := ReqH), 'T', ReqHT);
    ProtocolWalk(p.(st := ReqHT), 'T', ReqHTT);
    LeadsAfter(p, ['H'], p.(st := ReqH), ['T'], p.(st := ReqHT), [], Going);
    LeadsAfter(p, ['H'] + ['T'], p.(st := ReqHT), ['T'], p.(st := ReqHTT), [], Going);
    assert ['H'] + ['T'] + ['T'] == "HTT";
  }

  lemma ProtocolLeads(p: Parser)
    requires p.st.ReqHttpStart?
    ensures Leads(p, "HTTP/", p.(st := ReqFirstMajor), [], Going)
  {
    hide *;
    ProtocolHalf(p);
    ProtocolSigns();
    ProtocolWalk(p.(st := ReqHTT), 'P', ReqHTTP);
    ProtocolWalk(p.(st := ReqHTTP), '/', ReqFirstMajor);
    LeadsAfter(p, "HTT", p.(st := ReqHTT), ['P'], p.(st := ReqHTTP), [], Going);
    LeadsAfter(p, "HTT" + ['P'], p.(st := ReqHTTP), ['/'], p.(st := ReqFirstMajor), [], Going);
    assert "HTT" + ['P'] + ['/'] == "HTTP/";
  }

  function Versioned(p: Parser, v: Version, s: St): Parser {
    p.(major := Number(v.major), minor := Number(v.minor), st := s)
  }

  lemma VersionLeads(p: Parser, v: Version)
    requires p.st.ReqHttpStart? && ProperVersion(v) && v.major[0] != '0'
    ensures Leads(p, VersionText(v) + "\r\n", Versioned(p, v, FieldStart), [], Going)
  {
    hide Leads;
    var q1 := p.(st := ReqFirstMajor);
    var q2 := p.(major := Number(v.major), st := ReqMajor);
    var q3 := q2.(st := ReqFirstMinor);
    var q4, q5, z := Versioned(p, v, ReqMinor), Versioned(p, v, ReqLineAlmostDone), Versioned(p, v, FieldStart);
    ProtocolLeads(p);
    ReqMajorLeads(q1, v.major);
    ProtocolWalk(q2, '.', ReqFirstMinor);
    MinorLeads(q3, v.minor);
    ProtocolWalk(q4, CR, ReqLineAlmostDone);
    ProtocolWalk(q5, LF, FieldStart);
    LeadsAfter(p, "HTTP/", q1, v.major, q2, [], Going);
    LeadsAfter(p, "HTTP/" + v.major, q2, ".", q3, [], Going);
    LeadsAfter(p, "HTTP/" + v.major + ".", q3, v.minor, q4, [], Going);
    LeadsAfter(p, VersionText(v), q4, "\r", q5, [], Going);
    LeadsAfter(p, VersionText(v) + "\r", q5, "\n", z, [], Going);
    assert VersionText(v) + "\r\n" == VersionText(v) + "\r" + "\n";
  }

  // The parser after a request line.
  function RequestBegun(p: Parser, m: Message): Parser
    requires m.RequestMessage?
  {
    Versioned(AfterVerb(p, m.verb), m.version, FieldStart)
  }

  lemma RequestLineLeads(p: Parser, m: Message)
    requires Waits(p) && !p.st.StartRes? && m.RequestMessage? && m.verb in METHODS && ProperVersion(m.version)
    requires ProperTarget(m.target, m.verb == "CONNECT") && m.version.major[0] != '0'
    ensures Leads(p, FirstLine(m) + "\r\n", RequestBegun(p, m), [Noted(MessageBegin, ULLONG_MAX)] + LineEvents(m),
            Going)
  {
    var a := AfterVerb(p, m.verb);
    var b := a.(st := ReqHttpStart);
    var begin, url := [Noted(MessageBegin, ULLONG_MAX)], [Data(Kind.Url, TargetText(m.target))];
    RequestLineIs(p, m);
    hide *;
    MethodLeads(p, m.verb);
    TargetLeads(a, m.target);
    VersionLeads(b, m.version);
    LeadsOn(p, m.verb + " ", a, begin, TargetText(m.target) + " ", b, url, Going);
    LeadsBefore(p, m.verb + " " + (TargetText(m.target) + " "), b, begin + url, VersionText(m.version) + "\r\n",
      Versioned(b, m.version, FieldStart));
  }

  lemma RequestLineIs(p: Parser, m: Message)
    requires m.RequestMessage?
    ensures FirstLine(m) + "\r\n" == m.verb + " " + (TargetText(m.target) + " ") + (VersionText(m.version) + "\r\n")
    ensures LineEvents(m) == [Data(Kind.Url, TargetText(m.target))]
    ensures var a := AfterVerb(p, m.verb);
            && a.st.ReqSpaces? && a.verb == m.verb && RequestBegun(p, m) == Versioned(a, m.version, FieldStart)
            && RequestBegun(p, m) == Versioned(a.(st := ReqHttpStart), m.version, FieldStart)
  {
    hide TargetText, VersionText, Number;
  }

  // ---------- responses ----------

  function ResponseOpened(p: Parser, s: St): Parser { p.(ty := Response, flags := NO_FLAGS, cl := ULLONG_MAX, st := s) }

  lemma ResponseOpens(p: Parser)
    requires Waits(p) && !p.st.StartReq?
    ensures Leads(p, "HT", ResponseOpened(p, ResHT), [Noted(MessageBegin, ULLONG_MAX)], Going)
  {
    hide Leads, OneByte;
    var q := if p.st.StartRes? then ResponseOpened(p, ResH) else BothBegun(p);
    if p.st.StartRes? { ResponseH(p); } else { BothBegins(p); }
    ResponseT(q);
    LeadsBefore(p, "H", q, [Noted(MessageBegin, ULLONG_MAX)], "T", ResponseOpened(q, ResHT));
    assert ResponseOpened(q, ResHT) == ResponseOpened(p, ResHT);
    assert "H" + "T" == "HT";
  }

  lemma ResponseH(p: Parser)
    requires Waits(p) && p.st.StartRes?
    ensures Leads(p, "H", ResponseOpened(p, ResH), [Noted(MessageBegin, ULLONG_MAX)], Going)
  {
    var begin := Notify(MessageBegin);
    ToldOne(begin, ULLONG_MAX);
    assert OneByte(p, 'H') == Out(ResponseOpened(p, ResH), [begin], Advance);
    hide OneByte;
    Takes(p, 'H', ResponseOpened(p, ResH), [begin]);
  }

  lemma ResponseT(q: Parser)
    requires q.flags == NO_FLAGS && q.cl == ULLONG_MAX && ((q.st.ResH? && q.ty == Response) || q.st.ResOrRespH?)
    ensures Leads(q, "T", ResponseOpened(q, ResHT), [], Going)
  {
    assert OneByte(q, 'T') == Out(ResponseOpened(q, ResHT), [], Advance);
    hide OneByte;
    TakesQuietly(q, 'T', ResponseOpened(q, ResHT));
  }

  predicate StatusNext(r: St, c: char, s: St) {
    match r
    case ResHT => c == 'T' && s == ResHTT
    case ResHTT => c == 'P' && s == ResHTTP
    case ResHTTP => c == '/' && s == ResFirstMajor
    case ResMajor => c == '.' && s == ResFirstMinor
    case ResMinor => c == ' ' && s == ResFirstStatus
    case ResStatusCode => c == ' ' && s == ResStatusStart
    case ResStatusStart => c == CR && s == ResLineAlmostDone
    case ResLineAlmostDone => c == LF && s == FieldStart
    case _ => false
  }

  lemma StatusStep(p: Parser, c: char, s: St)
    requires StatusNext(p.st, c, s)
    ensures c < 256 as char && !Looping(p.st) && OneByte(p, c) == Out(p.(st := s), [], Advance)
  {
  }

  lemma StatusWalk(p: Parser, c: char, s: St)
    requires StatusNext(p.st, c, s)
    ensures Leads(p, [c], p.(st := s), [], Going)
  {
    StatusStep(p, c, s);
    hide OneByte, StatusNext;
    Walks(p, c, s);
  }

  lemma StatusProtocolLeads(p: Parser)
    requires p.st.ResHT?
    ensures Leads(p, "TP/", p.(st := ResFirstMajor), [], Going)
  {
    hide *;
    StatusSigns();
    StatusWalk(p, 'T', ResHTT);
    StatusWalk(p.(st := ResHTT), 'P', ResHTTP);
    StatusWalk(p.(st := ResHTTP), '/', ResFirstMajor);
    LeadsAfter(p, "T", p.(st := ResHTT), "P", p.(st := ResHTTP), [], Going);
    assert "T" + "P" == "TP" && "TP" + "/" == "TP/";
    LeadsAfter(p, "TP", p.(st := ResHTTP), "/", p.(st := ResFirstMajor), [], Going);
  }

  lemma StatusSigns()
    ensures StatusNext(ResHT, 'T', ResHTT) && StatusNext(ResHTT, 'P', ResHTTP)
    ensures StatusNext(ResHTTP, '/', ResFirstMajor)
  {
  }

  lemma StatusVersionLeads(p: Parser, v: Version)
    requires p.st.ResFirstMajor? && ProperVersion(v)
    ensures Leads(p, v.major + "." + v.minor + " ", Versioned(p, v, ResFirstStatus), [], Going)
  {
    hide Leads, Numeral, Number;
    var q2 := p.(major := Number(v.major), st := ResMajor);
    var q3 := q2.(st := ResFirstMinor);
    var q4, q5 := Versioned(p, v, ResMinor), Versioned(p, v, ResFirstStatus);
    ResMajorLeads(p, v.major);
    StatusWalk(q2, '.', ResFirstMinor);
    MinorLeads(q3, v.minor);
    StatusWalk(q4, ' ', ResFirstStatus);
    LeadsAfter(p, v.major, q2, ".", q3, [], Going);
    LeadsAfter(p, v.major + ".", q3, v.minor, q4, [], Going);
    LeadsAfter(p, v.major + "." + v.minor, q4, " ", q5, [], Going);
  }

  // The version and the status number.
  lemma StatusNumberLeads(p: Parser, v: Version, status: string)
    requires p.st.ResHT? && ProperVersion(v) && Numeral(status) && Number(status) <= 999
    ensures Leads(p, "TP/" + v.major + "." + v.minor + " " + status + " ",
                  Versioned(p, v, ResStatusStart).(status := Number(status)), [], Going)
  {
    hide Leads, Numeral, Number, ProperVersion;
    var q1, q5 := p.(st := ResFirstMajor), Versioned(p, v, ResFirstStatus);
    var q6 := Versioned(p, v, ResStatusCode).(status := Number(status));
    var z, w := q6.(st := ResStatusStart), v.major + "." + v.minor + " ";
    StatusProtocolLeads(p);
    StatusVersionLeads(q1, v);
    StatusLeads(q5, status);
    StatusWalk(q6, ' ', ResStatusStart);
    LeadsAfter(p, "TP/", q1, w, q5, [], Going);
    LeadsAfter(p, "TP/" + w, q5, status, q6, [], Going);
    LeadsAfter(p, "TP/" + w + status, q6, " ", z, [], Going);
    assert "TP/" + w + status + " " == "TP/" + v.major + "." + v.minor + " " + status + " ";
  }

  // ---------- the reason ----------

  lemma ReasonByte(p: Parser, c: char)
    requires (p.st.ResStatusStart? || p.st.ResStatus?) && ValueOctet(c)
    ensures Leads(p, [c], p.(st := ResStatus, index := if p.st.ResStatusStart? then 0 else p.index),
                  [Data(Kind.Status, [c])], Going)
  {
    var q := p.(st := ResStatus, index := if p.st.ResStatusStart? then 0 else p.index);
    var acts := if p.st.ResStatusStart? then [Mark(Kind.Status)] else [];
    assert OneByte(p, c) == Out(q, acts, Advance);
    hide OneByte;
    Takes(p, c, q, acts);
    ToldOne(Mark(Kind.Status), q.cl);
    assert Told([], q.cl) == [];
    assert Item(q.st, c) == [Data(Kind.Status, [c])] && [] + Item(q.st, c) == Item(q.st, c);
  }

  lemma ReasonEnds(p: Parser)
    requires p.st.ResStatus?
    ensures Leads(p, "\r", p.(st := ResLineAlmostDone), [Data(Kind.Status, "")], Going)
  {
    var q := p.(st := ResLineAlmostDone);
    assert OneByte(p, CR) == Out(q, [Flush(Kind.Status)], Advance);
    hide OneByte;
    Takes(p, CR, q, [Flush(Kind.Status)]);
    ToldOne(Flush(Kind.Status), q.cl);
    assert [Data(Kind.Status, "")] + [] == [Data(Kind.Status, "")];
  }

  lemma {:induction false} ReasonLeads(p: Parser, w: string)
    requires p.st.ResStatusStart? && w != "" && Octets(w)
    ensures Leads(p, w, p.(st := ResStatus, index := 0), [Data(Kind.Status, w)], Going)
    decreases |w|
  {
    hide Leads;
    var front, c := w[..|w| - 1], w[|w| - 1];
    var z := p.(st := ResStatus, index := 0);
    if front == "" {
      assert w == [c];
      ReasonByte(p, c);
    } else {
      ReasonLeads(p, front);
      ReasonByte(z, c);
      LeadsItem(p, front, z, Kind.Status, front, [c], z, [c]);
      assert front + [c] == w;
    }
  }

  // The parser after a status line.
  function ResponseBegun(p: Parser, m: Message): Parser
    requires m.ResponseMessage?
  {
    var q := Versioned(ResponseOpened(p, FieldStart), m.version, FieldStart).(status := Number(m.status));
    if m.reason == "" then q else q.(index := 0)
  }

  lemma ReasonLineLeads(p: Parser, w: string)
    requires p.st.ResStatusStart? && Octets(w)
    ensures Leads(p, w + "\r\n", if w == "" then p.(st := FieldStart) else p.(st := FieldStart, index := 0),
                  if w == "" then [] else [Data(Kind.Status, w)], Going)
  {
    hide Leads;
    if w == "" {
      StatusWalk(p, CR, ResLineAlmostDone);
      StatusWalk(p.(st := ResLineAlmostDone), LF, FieldStart);
      LeadsAfter(p, "\r", p.(st := ResLineAlmostDone), "\n", p.(st := FieldStart), [], Going);
      assert "\r" + "\n" == w + "\r\n";
    } else {
      var q := p.(st := ResStatus, index := 0);
      var e := q.(st := ResLineAlmostDone);
      ReasonLeads(p, w);
      ReasonEnds(q);
      LeadsItem(p, w, q, Kind.Status, w, "\r", e, "");
      assert w + "" == w;
      StatusWalk(e, LF, FieldStart);
      LeadsBefore(p, w + "\r", e, [Data(Kind.Status, w)], "\n", e.(st := FieldStart));
      assert w + "\r" + "\n" == w + "\r\n";
    }
  }

  lemma StatusLineLeads(p: Parser, m: Message)
    requires Waits(p) && !p.st.StartReq? && m.ResponseMessage? && ProperVersion(m.version)
    requires Numeral(m.status) && Number(m.status) <= 999 && Octets(m.reason)
    ensures Leads(p, FirstLine(m) + "\r\n", ResponseBegun(p, m), [Noted(MessageBegin, ULLONG_MAX)] + LineEvents(m),
                  Going)
  {
    hide *;
    StatusLineIs(p, m);
    var begin, v := [Noted(MessageBegin, ULLONG_MAX)], m.version;
    var a := ResponseOpened(p, ResHT);
    var b := Versioned(a, v, ResStatusStart).(status := Number(m.status));
    var number := "TP/" + v.major + "." + v.minor + " " + m.status + " ";
    ResponseOpens(p);
    StatusNumberLeads(a, v, m.status);
    ReasonLineLeads(b, m.reason);
    LeadsBefore(p, "HT", a, begin, number, b);
    LeadsOn(p, "HT" + number, b, begin, m.reason + "\r\n", ResponseBegun(p, m), LineEvents(m), Going);
  }

  lemma StatusLineIs(p: Parser, m: Message)
    requires m.ResponseMessage?
    ensures FirstLine(m) + "\r\n" == "HT" + ("TP/" + m.version.major + "." + m.version.minor + " " + m.status + " ")
                                     + (m.reason + "\r\n")
    ensures LineEvents(m) == if m.reason == "" then [] else [Data(Kind.Status, m.reason)]
    ensures var a := ResponseOpened(p, ResHT);
            var b := Versioned(a, m.version, ResStatusStart).(status := Number(m.status));
            && a.st.ResHT? && b.st.ResStatusStart?
            && ResponseBegun(p, m) == if m.reason == "" then b.(st := FieldStart) else b.(st := FieldStart, index := 0)
  {
    hide Number;
    var v := m.version;
    assert "HTTP/" == "HT" + "TP/";
    assert "HT" + ("TP/" + v.major + "." + v.minor + " " + m.status + " ")
        == "HTTP/" + v.major + "." + v.minor + " " + m.status + " ";
  }
}
