// Values of header fields, as the HTTP parser reads them: all but connection
// options.
module HttpValues {
  import opened HttpMachine
  import opened HttpStream
  import opened HttpSegments
  import opened HttpLine
  import opened HttpFields
  import opened HttpMessage
  import HttpLength

  // ---------- bytes of a value ----------

  lemma FirstValueByte(p: Parser, c: char, q: Parser)
    requires p.st.DiscardWs? && ValueOctet(c) && c != ' ' && c != '\t'
    requires ValueStartByte(p, c) == Out(q, [Mark(Value)], Advance) && q.st.HeaderValue?
    ensures Leads(p, [c], q, [Data(Value, [c])], Going)
  {
    hide ValueStartByte;
    assert OneByte(p, c) == Out(q, [Mark(Value)], Advance);
    hide OneByte;
    Takes(p, c, q, [Mark(Value)]);
    ToldOne(Mark(Value), q.cl);
    assert Item(q.st, c) == [Data(Value, [c])] && [] + Item(q.st, c) == Item(q.st, c);
  }

  lemma MoreValueByte(p: Parser, c: char, q: Parser)
    requires p.st.HeaderValue? && ValueOctet(c) && ValueChar(p, c) == Out(q, [], Advance)
    ensures Leads(p, [c], q, [Data(Value, [c])], Going)
  {
    hide ValueChar, OneStep, FieldChar;
    assert IsHeaderChar(c) && c != CR && c != LF;
    assert ByteStep(p, c) == Step(q, [Data(Value, [c])], Going);
    hide ByteStep;
    LeadsByte(p, c, q, [Data(Value, [c])], Going);
  }

  // One more byte after a part of the value.
  lemma ValueGoesOn(p: Parser, w: string, a: Parser, c: char, q: Parser)
    requires Leads(p, w, a, [Data(Value, w)], Going) && a.st.HeaderValue? && ValueOctet(c)
    requires ValueChar(a, c) == Out(q, [], Advance)
    ensures Leads(p, w + [c], q, [Data(Value, w + [c])], Going)
  {
    hide Leads, ValueChar;
    MoreValueByte(a, c, q);
    LeadsItem(p, w, a, Value, w, [c], q, [c]);
  }

  // The end of the line.
  lemma ValueEnds(p: Parser, w: string, q: Parser)
    requires Leads(p, w, q, [Data(Value, w)], Going) && q.st.HeaderValue?
    ensures Leads(p, w + "\r\n", q.(st := ValueLws), [Data(Value, w)], Going)
  {
    var a := q.(st := HeaderAlmostDone);
    hide Leads;
    CrEnds(q);
    LeadsItem(p, w, q, Value, w, "\r", a, "");
    assert w + "" == w && w + "\r" + "\n" == w + "\r\n";
    LfEnds(a);
    LeadsBefore(p, w + "\r", a, [Data(Value, w)], "\n", q.(st := ValueLws));
  }

  lemma CrEnds(q: Parser)
    requires q.st.HeaderValue?
    ensures Leads(q, "\r", q.(st := HeaderAlmostDone), [Data(Value, "")], Going)
  {
    hide ValueChar, OneStep, FieldChar;
    assert ByteStep(q, CR) == Step(q.(st := HeaderAlmostDone), [Data(Value, "")], Going);
    hide ByteStep;
    LeadsByte(q, CR, q.(st := HeaderAlmostDone), [Data(Value, "")], Going);
  }

  lemma LfEnds(a: Parser)
    requires a.st.HeaderAlmostDone?
    ensures Leads(a, "\n", a.(st := ValueLws), [], Going)
  {
    assert OneByte(a, LF) == Out(a.(st := ValueLws), [], Advance);
    hide OneByte;
    Walks(a, LF, ValueLws);
  }

  lemma EmptyEnds(p: Parser)
    requires p.st.DiscardWs?
    ensures Leads(p, "\r\n", p.(st := DiscardLws), [], Going)
  {
    var a := p.(st := DiscardWsAlmostDone);
    assert OneByte(p, CR) == Out(a, [], Advance);
    assert OneByte(a, LF) == Out(p.(st := DiscardLws), [], Advance);
    hide OneByte;
    Walks(p, CR, DiscardWsAlmostDone);
    Walks(a, LF, DiscardLws);
    hide Leads;
    LeadsAfter(p, "\r", a, "\n", p.(st := DiscardLws), [], Going);
    assert "\r" + "\n" == "\r\n";
  }

  // ---------- between two lines ----------

  // Where a line of the header begins; what the last value meant may not have
  // been seen to yet.
  predicate Pending(z: Parser) { z.st.FieldStart? || z.st.ValueLws? || z.st.DiscardLws? }

  function Settled(z: Parser): Parser {
    if z.st.FieldStart? then z else z.(flags := EndFlags(z.hs, z.flags), st := FieldStart)
  }

  function Owed(z: Parser): seq<Event> { if z.st.DiscardLws? then [Data(Value, "")] else [] }

  lemma SettlesLate(z: Parser, c: char)
    requires (z.st.ValueLws? || z.st.DiscardLws?) && c != ' ' && c != '\t' && c < 256 as char
    ensures var s := ByteStep(Settled(z), c); ByteStep(z, c) == Step(s.p, Owed(z) + s.events, s.end)
  {
    var s := Settled(z);
    var acts := if z.st.DiscardLws? then [Mark(Value), Flush(Value)] else [];
    hide EndFlags;
    assert OneByte(z, c) == Out(s, acts, Again);
    OwedTold(z, acts, s.cl);
    RankFalls(z, c);
    hide OneByte;
    assert ByteStep(s, c) == OneStep(s, c);
    assert ByteStep(z, c) == OneStep(z, c);
  }

  lemma OwedTold(z: Parser, acts: seq<Act>, cl: nat)
    requires acts == if z.st.DiscardLws? then [Mark(Value), Flush(Value)] else []
    ensures Told(acts, cl) == Owed(z)
  {
    if z.st.DiscardLws? {
      assert acts[1..] == [Flush(Value)];
      ToldOne(Flush(Value), cl);
      assert Told(acts, cl) == [] + Told([Flush(Value)], cl);
    }
  }

  lemma SettledLeads(z: Parser, text: string, q: Parser, es: seq<Event>, end: End)
    requires Pending(z) && text != "" && text[0] != ' ' && text[0] != '\t' && text[0] < 256 as char
    requires Leads(Settled(z), text, q, es, end)
    ensures Leads(z, text, q, Owed(z) + es, end)
  {
    hide Leads;
    if z.st.FieldStart? {
      assert Owed(z) + es == es;
    } else {
      SettlesLate(z, text[0]);
      LeadsLate(z, Settled(z), Owed(z), text, q, es, end);
    }
  }

  // ---------- values that mean nothing ----------

  lemma {:induction false} GeneralLeads(p: Parser, v: string, q: Parser)
    requires p.st.DiscardWs? && v != "" && Trimmed(v) && q.st.HeaderValue? && q.hs.General?
    requires ValueStartByte(p, v[0]) == Out(q, [Mark(Value)], Advance)
    ensures Leads(p, v, q, [Data(Value, v)], Going)
    decreases |v|
  {
    hide Leads, ValueStartByte;
    var front, c := v[..|v| - 1], v[|v| - 1];
    if front == "" {
      assert v == [c];
      FirstValueByte(p, c, q);
    } else {
      GeneralLeads(p, front, q);
      ValueGoesOn(p, front, q, c, q);
      assert front + [c] == v;
    }
  }

  // ---------- lengths ----------

  lemma {:induction false} DigitsLead(p: Parser, v: string)
    requires p.st.DiscardWs? && p.hs.ContentLength? && !p.flags.contentLength
    requires Numeral(v) && Number(v) <= HttpLength.MAX_LENGTH
    ensures var q := p.(st := HeaderValue, index := 0, flags := p.flags.(contentLength := true), cl := Number(v));
            Leads(p, v, q, [Data(Value, v)], Going)
    decreases |v|
  {
    hide Leads, Number, DigitValue, Num;
    var front, c := v[..|v| - 1], v[|v| - 1];
    var q := p.(st := HeaderValue, index := 0, flags := p.flags.(contentLength := true), cl := Number(v));
    DigitRange(v);
    assert ValueOctet(c) && c != ' ' && c != '\t' && c != CR && c != LF;
    if |v| == 1 {
      assert ValueStartByte(p, c) == Out(q, [Mark(Value)], Advance);
      hide ValueStartByte;
      FirstValueByte(p, c, q);
    } else {
      var a := q.(cl := Number(front));
      DigitsLead(p, front);
      HttpLength.NumRange(c);
      HttpLength.DecimalTest(a.cl, Num(c));
      assert ValueChar(a, c) == Out(q, [], Advance);
      hide ValueChar;
      ValueGoesOn(p, front, a, c, q);
      assert front + [c] == v;
    }
  }

  lemma {:induction false} SpacesStay(p: Parser, w: string, q: Parser, after: string)
    requires Leads(p, w, q, [Data(Value, w)], Going) && q.st.HeaderValue? && OnlySpaces(after)
    requires ValueChar(q, ' ') == Out(q, [], Advance)
    ensures Leads(p, w + after, q, [Data(Value, w + after)], Going)
    decreases |after|
  {
    hide Leads, ValueChar;
    if after == "" {
      assert w + after == w;
    } else {
      var front, c := after[..|after| - 1], after[|after| - 1];
      SpacesStay(p, w, q, front);
      ValueGoesOn(p, w + front, q, c, q);
      assert w + front + [c] == w + after;
    }
  }

  // ---------- the transfer coding ----------

  // A letter in either case.
  lemma LowerIs(c: char, x: char)
    requires ValueOctet(c) && ('a' <= x <= 'z' || x == '-')
    ensures Lower(c) == x <==> Small(c) == x
  {
  }

  function CodingHs(w: string): HState {
    if PrefixOf(Folded(w), "chunked") then if |w| == 7 then Chunked else MatchingChunked
    else if SaysChunked(w) then Chunked
    else General
  }

  lemma CodingFirst(p: Parser, c: char)
    requires p.hs.TransferEncoding? && ValueOctet(c)
    ensures ValueStartByte(p, c) == Out(p.(st := HeaderValue, index := 0, hs := CodingHs([c])), [Mark(Value)], Advance)
  {
    LowerIs(c, 'c');
    FoldedOne(c);
    Single(Small(c), "chunked");
    hide PrefixOf, Folded, Lower, Small;
  }

  lemma FoldedOne(c: char)
    ensures Folded([c]) == [Small(c)]
  {
  }

  lemma CodingNext(a: Parser, w: string, c: char) returns (q: Parser)
    requires a.st.HeaderValue? && a.hs == CodingHs(w) && w != "" && (a.hs.MatchingChunked? ==> a.index == |w| - 1)
    requires ValueOctet(c)
    ensures q == a.(hs := CodingHs(w + [c]), index := q.index) && ValueChar(a, c) == Out(q, [], Advance)
    ensures q.hs.MatchingChunked? ==> q.index == |w|
  {
    var z := w + [c];
    FoldedMore(z);
    assert z[..|z| - 1] == w;
    PrefixMore(Folded(w), Small(c), "chunked");
    ChunkedMore(w, c);
    q := ValueChar(a, c).p;
    if a.hs.MatchingChunked? { LowerIs(c, "chunked"[|w|]); }
    hide PrefixOf, Folded, Lower, Small, SaysChunked;
  }

  // Once it says chunked, only spaces may follow.
  lemma ChunkedMore(w: string, c: char)
    ensures SaysChunked(w + [c]) <==> (SaysChunked(w) && c == ' ') || (|w| == 6 && PrefixOf(Folded(w + [c]), "chunked"))
    ensures PrefixOf(Folded(w), "chunked") && |w| == 7 ==> SaysChunked(w)
  {
    var z := w + [c];
    if |w| >= 7 {
      assert z[..7] == w[..7] && z[7..] == w[7..] + [c];
      SpacesMore(w[7..], c);
    } else if |w| == 6 {
      assert z[..7] == z && z[7..] == "" && |Folded(z)| == 7;
      assert "chunked"[..7] == "chunked";
    }
    if |w| == 7 { assert w[..7] == w && w[7..] == "" && "chunked"[..7] == "chunked"; }
  }

  lemma SpacesMore(w: string, c: char)
    ensures OnlySpaces(w + [c]) <==> OnlySpaces(w) && c == ' '
  {
    if OnlySpaces(w + [c]) {
      assert (w + [c])[|w|] == c;
      forall i | 0 <= i < |w| ensures w[i] == ' ' { assert (w + [c])[i] == w[i]; }
    }
  }

  lemma {:induction false} CodingLeads(p: Parser, v: string) returns (q: Parser)
    requires p.st.DiscardWs? && p.hs.TransferEncoding? && v != "" && Trimmed(v)
    ensures q == p.(st := HeaderValue, hs := CodingHs(v), index := q.index)
    ensures q.hs.MatchingChunked? ==> q.index == |v| - 1
    ensures Leads(p, v, q, [Data(Value, v)], Going)
    decreases |v|
  {
    hide Leads, CodingHs, ValueStartByte, ValueChar;
    var front, c := v[..|v| - 1], v[|v| - 1];
    if front == "" {
      assert v == [c];
      CodingFirst(p, c);
      q := p.(st := HeaderValue, index := 0, hs := CodingHs(v));
      FirstValueByte(p, c, q);
    } else {
      var a := CodingLeads(p, front);
      q := CodingNext(a, front, c);
      ValueGoesOn(p, front, a, c, q);
      assert front + [c] == v;
    }
  }

  lemma CodingEnds(v: string, flags: Flags)
    requires v != ""
    ensures EndFlags(CodingHs(v), flags) == flags.(chunked := flags.chunked || SaysChunked(v))
  {
    if PrefixOf(Folded(v), "chunked") {
      if |v| == 7 { assert v[..7] == v && v[7..] == "" && "chunked"[..7] == "chunked"; }
    }
  }
}
