// Bodies, as the HTTP parser reads them.
module HttpBody {
  import opened HttpMachine
  import opened HttpShape
  import opened HttpStream
  import opened HttpSegments
  import opened HttpLine
  import opened HttpValues
  import opened HttpHeaders
  import opened HttpMessage
  import HttpLength

  // How a message ends that may change the protocol.
  function EndOf(upgrade: bool): End { if upgrade then Stopped else Going }

  // ---------- bodies of known size ----------

  lemma SizedByte(p: Parser, c: char)
    requires p.st.BodyIdentity? && p.cl > 1 && c < 256 as char
    ensures Leads(p, [c], p.(cl := p.cl - 1), [Data(Kind.Body, [c])], Going)
  {
    hide OneStep, FieldChar, ValueStep;
    assert ByteStep(p, c) == Step(p.(cl := p.cl - 1), [Data(Kind.Body, [c])], Going);
    hide ByteStep;
    LeadsByte(p, c, p.(cl := p.cl - 1), [Data(Kind.Body, [c])], Going);
  }

  lemma LastByte(p: Parser, c: char)
    requires p.st.BodyIdentity? && p.cl == 1 && c < 256 as char
    ensures var d := p.(cl := 0, st := MessageDone);
            Leads(p, [c], d.(st := NewMessage(d)), [Data(Kind.Body, [c])] + [Noted(MessageComplete, 0)],
              EndOf(p.upgrade))
  {
    var d := p.(cl := 0, st := MessageDone);
    var z := d.(st := NewMessage(d));
    LastStep(p, c);
    hide ByteStep, NewMessage;
    LeadsByte(p, c, z, [Data(Kind.Body, [c])] + [Noted(MessageComplete, 0)], EndOf(p.upgrade));
  }

  lemma LastStep(p: Parser, c: char)
    requires p.st.BodyIdentity? && p.cl == 1 && c < 256 as char
    ensures var d := p.(cl := 0, st := MessageDone);
            ByteStep(p, c) == Step(d.(st := NewMessage(d)), [Data(Kind.Body, [c])] + [Noted(MessageComplete, 0)],
                                   EndOf(p.upgrade))
  {
    hide *;
    DoneStep(p.(cl := 0, st := MessageDone), c);
    OnLast(p, c);
  }

  lemma OnLast(p: Parser, c: char)
    requires p.st.BodyIdentity? && p.cl == 1 && c < 256 as char
    ensures var next := OneStep(p.(cl := 0, st := MessageDone), c);
            ByteStep(p, c) == Step(next.p, [Data(Kind.Body, [c])] + next.events, next.end)
  {
    hide OneStep, FieldChar, ValueStep;
  }

  lemma DoneStep(d: Parser, c: char)
    requires d.st.MessageDone? && c < 256 as char
    ensures OneStep(d, c) == Step(d.(st := NewMessage(d)), [Noted(MessageComplete, d.cl)], EndOf(d.upgrade))
  {
    var z := d.(st := NewMessage(d));
    NewMessageState(d);
    hide NewMessage;
    assert OneByte(d, c) == Out(z, [Notify(MessageComplete)], if d.upgrade then Stop else Advance);
    hide OneByte;
    ToldOne(Notify(MessageComplete), d.cl);
    assert Item(z.st, c) == [];
    assert [Noted(MessageComplete, d.cl)] + [] == [Noted(MessageComplete, d.cl)];
  }

  lemma {:induction false} SizedPart(p: Parser, w: string)
    requires p.st.BodyIdentity? && 0 < |w| < p.cl && Bytes(w)
    ensures Leads(p, w, p.(cl := p.cl - |w|), [Data(Kind.Body, w)], Going)
    decreases |w|
  {
    hide Leads;
    var front, c := w[..|w| - 1], w[|w| - 1];
    if front == "" {
      assert w == [c];
      SizedByte(p, c);
    } else {
      SizedPart(p, front);
      var a := p.(cl := p.cl - |front|);
      SizedByte(a, c);
      LeadsItem(p, front, a, Kind.Body, front, [c], a.(cl := a.cl - 1), [c]);
      assert front + [c] == w;
    }
  }

  lemma SizedLeads(p: Parser, w: string)
    requires p.st.BodyIdentity? && p.cl == |w| > 0 && Bytes(w)
    ensures var d := p.(cl := 0, st := MessageDone);
            Leads(p, w, d.(st := NewMessage(d)), [Data(Kind.Body, w), Noted(MessageComplete, 0)], EndOf(p.upgrade))
  {
    hide Leads, NewMessage;
    var front, c := w[..|w| - 1], w[|w| - 1];
    var d := p.(cl := 0, st := MessageDone);
    var es := [Noted(MessageComplete, 0)];
    assert [Data(Kind.Body, w)] + es == [Data(Kind.Body, w), Noted(MessageComplete, 0)];
    if front == "" {
      assert w == [c];
      LastByte(p, c);
    } else {
      SizedPart(p, front);
      var a := p.(cl := 1);
      LastByte(a, c);
      assert a.(cl := 0, st := MessageDone) == d;
      LeadsItemOn(p, front, a, Kind.Body, front, [c], d.(st := NewMessage(d)), [c], es, EndOf(p.upgrade));
      assert front + [c] == w;
    }
  }

  // ---------- bodies up to the end of the connection ----------

  lemma {:induction false} RestLeads(p: Parser, w: string)
    requires p.st.BodyIdentityEof? && Bytes(w)
    ensures Leads(p, w, p, if w == "" then [] else [Data(Kind.Body, w)], Going)
    decreases |w|
  {
    hide Leads;
    if w == "" {
      LeadsNowhere(p);
    } else {
      var front, c := w[..|w| - 1], w[|w| - 1];
      RestByte(p, c);
      if front == "" {
        assert w == [c];
      } else {
        RestLeads(p, front);
        LeadsItem(p, front, p, Kind.Body, front, [c], p, [c]);
        assert front + [c] == w;
      }
    }
  }

  lemma RestByte(p: Parser, c: char)
    requires p.st.BodyIdentityEof? && c < 256 as char
    ensures Leads(p, [c], p, [Data(Kind.Body, [c])], Going)
  {
    hide OneStep, FieldChar, ValueStep, BodyStep;
    assert ByteStep(p, c) == Step(p, [Data(Kind.Body, [c])], Going);
    hide ByteStep;
    LeadsByte(p, c, p, [Data(Kind.Body, [c])], Going);
  }

  // ---------- chunks ----------

  lemma HexIs(c: char)
    requires HttpMessage.HexDigit(c)
    ensures Unhex(c) == HttpMessage.HexValue(c) && c < 256 as char && c != CR && 0 <= Unhex(c) < 16
  {
  }

  lemma HexSplit(s: string)
    requires HexNumeral(s)
    ensures HttpMessage.HexDigit(s[|s| - 1]) && (|s| > 1 ==> HexNumeral(s[..|s| - 1]))
    ensures HexNumber(s) == 16 * HexNumber(s[..|s| - 1]) + HttpMessage.HexValue(s[|s| - 1])
    ensures |s| == 1 ==> HexNumber(s[..|s| - 1]) == 0 && s == [s[|s| - 1]]
  {
    if |s| == 1 { assert s[..0] == ""; }
    hide HttpMessage.HexValue;
  }

  lemma {:induction false} SizeLeads(p: Parser, s: string)
    requires p.st.ChunkSizeStart? && HexNumeral(s) && HexNumber(s) <= HttpLength.MAX_CHUNK
    ensures Leads(p, s, p.(cl := HexNumber(s), st := ChunkSize), [], Going)
    decreases |s|
  {
    hide Leads, HexNumber, HttpMessage.HexValue, Unhex;
    var front, c := s[..|s| - 1], s[|s| - 1];
    HexSplit(s);
    HexIs(c);
    var z := p.(cl := HexNumber(s), st := ChunkSize);
    if |s| == 1 {
      FirstSize(p, c);
    } else {
      SizeLeads(p, front);
      var a := p.(cl := HexNumber(front), st := ChunkSize);
      NextSize(a, c, HexNumber(s));
      LeadsAfter(p, front, a, [c], z, [], Going);
      assert front + [c] == s;
    }
  }

  lemma FirstSize(p: Parser, c: char)
    requires p.st.ChunkSizeStart? && Unhex(c) >= 0 && c < 256 as char
    ensures Leads(p, [c], p.(cl := Unhex(c), st := ChunkSize), [], Going)
  {
    hide NewMessage, Unhex;
    var z := p.(cl := Unhex(c), st := ChunkSize);
    assert OneByte(p, c) == Out(z, [], Advance);
    hide OneByte;
    TakesQuietly(p, c, z);
  }

  lemma NextSize(p: Parser, c: char, n: nat)
    requires p.st.ChunkSize? && 0 <= Unhex(c) < 16 && c < 256 as char && c != CR
    requires n == 16 * p.cl + Unhex(c) <= HttpLength.MAX_CHUNK
    ensures Leads(p, [c], p.(cl := n), [], Going)
  {
    HttpLength.HexTest(p.cl, Unhex(c));
    hide NewMessage, Unhex;
    assert OneByte(p, c) == Out(p.(cl := n), [], Advance);
    hide OneByte;
    TakesQuietly(p, c, p.(cl := n));
  }

  lemma ExtensionByte(p: Parser, c: char)
    requires c < 256 as char && if p.st.ChunkSize? then c == ';' || c == ' ' || c == CR else p.st.ChunkParameters?
    ensures Leads(p, [c], p.(st := if c == CR then ChunkSizeAlmostDone else ChunkParameters), [], Going)
  {
    var z := p.(st := if c == CR then ChunkSizeAlmostDone else ChunkParameters);
    hide NewMessage;
    assert OneByte(p, c) == Out(z, [], Advance);
    hide OneByte;
    TakesQuietly(p, c, z);
  }

  lemma {:induction false} ExtensionLeads(p: Parser, ext: string)
    requires p.st.ChunkSize? && ProperExtension(ext)
    ensures Leads(p, ext, p.(st := if ext == "" then ChunkSize else ChunkParameters), [], Going)
    decreases |ext|
  {
    hide Leads;
    if ext == "" {
      LeadsNowhere(p);
    } else {
      var front, c := ext[..|ext| - 1], ext[|ext| - 1];
      assert front != "" ==> front[0] == ext[0];
      ExtensionLeads(p, front);
      var a := p.(st := if front == "" then ChunkSize else ChunkParameters);
      assert front == "" ==> c == ext[0];
      ExtensionByte(a, c);
      LeadsAfter(p, front, a, [c], p.(st := ChunkParameters), [], Going);
      assert front + [c] == ext;
    }
  }

  // The line with a chunk's size, up to its carriage return.
  lemma SizeLineLeads(p: Parser, s: string, ext: string)
    requires p.st.ChunkSizeStart? && HexNumeral(s) && HexNumber(s) <= HttpLength.MAX_CHUNK && ProperExtension(ext)
    ensures Leads(p, s + ext + "\r", p.(cl := HexNumber(s), st := ChunkSizeAlmostDone), [], Going)
  {
    hide Leads, HexNumber;
    var a := p.(cl := HexNumber(s), st := ChunkSize);
    var b := a.(st := if ext == "" then ChunkSize else ChunkParameters);
    SizeLeads(p, s);
    ExtensionLeads(a, ext);
    LeadsAfter(p, s, a, ext, b, [], Going);
    ExtensionByte(b, CR);
    LeadsAfter(p, s + ext, b, "\r", a.(st := ChunkSizeAlmostDone), [], Going);
  }

  lemma ChunkStarts(p: Parser)
    requires p.st.ChunkSizeAlmostDone?
    ensures var z := if p.cl == 0 then p.(flags := p.flags.(trailing := true), st := FieldStart)
            else p.(st := ChunkData);
            Leads(p, "\n", z, [Noted(ChunkHeader, p.cl)], Going)
  {
    var z := if p.cl == 0 then p.(flags := p.flags.(trailing := true), st := FieldStart) else p.(st := ChunkData);
    ChunkStart(p, z);
    hide OneByte;
    Takes(p, LF, z, [Notify(ChunkHeader)]);
    ToldOne(Notify(ChunkHeader), p.cl);
    assert Item(z.st, LF) == [] && [Noted(ChunkHeader, p.cl)] + [] == [Noted(ChunkHeader, p.cl)];
  }

  lemma ChunkStart(p: Parser, z: Parser)
    requires p.st.ChunkSizeAlmostDone?
    requires z == if p.cl == 0 then p.(flags := p.flags.(trailing := true), st := FieldStart) else p.(st := ChunkData)
    ensures OneByte(p, LF) == Out(z, [Notify(ChunkHeader)], Advance)
  {
    hide NewMessage, Unhex;
  }

  lemma ChunkByteLeads(p: Parser, c: char)
    requires p.st.ChunkData? && p.cl > 0 && c < 256 as char
    ensures Leads(p, [c], p.(cl := p.cl - 1, st := if p.cl == 1 then ChunkDataAlmostDone else ChunkData),
                  [Data(Kind.Body, [c])], Going)
  {
    var z := p.(cl := p.cl - 1, st := if p.cl == 1 then ChunkDataAlmostDone else ChunkData);
    hide OneStep, FieldChar, ValueStep, BodyStep;
    assert ByteStep(p, c) == Step(z, [Data(Kind.Body, [c])], Going);
    hide ByteStep;
    LeadsByte(p, c, z, [Data(Kind.Body, [c])], Going);
  }

  lemma {:induction false} ChunkDataLeads(p: Parser, w: string)
    requires p.st.ChunkData? && 0 < |w| <= p.cl && Bytes(w)
    ensures var z := p.(cl := p.cl - |w|, st := if p.cl == |w| then ChunkDataAlmostDone else ChunkData);
            Leads(p, w, z, [Data(Kind.Body, w)], Going)
    decreases |w|
  {
    hide Leads;
    var front, c := w[..|w| - 1], w[|w| - 1];
    if front == "" {
      assert w == [c];
      ChunkByteLeads(p, c);
    } else {
      ChunkDataLeads(p, front);
      var a := p.(cl := p.cl - |front|);
      ChunkByteLeads(a, c);
      var z := p.(cl := p.cl - |w|, st := if p.cl == |w| then ChunkDataAlmostDone else ChunkData);
      LeadsItem(p, front, a, Kind.Body, front, [c], z, [c]);
      assert front + [c] == w;
    }
  }

  lemma ChunkEnds(p: Parser)
    requires p.st.ChunkDataAlmostDone? && p.cl == 0
    ensures Leads(p, "\r\n", p.(st := ChunkSizeStart), [Noted(ChunkComplete, 0)], Going)
  {
    var a := p.(st := ChunkDataDone);
    ChunkEndsCr(p);
    ChunkEndsLf(a);
    hide Leads;
    LeadsAfter(p, "\r", a, "\n", p.(st := ChunkSizeStart), [Noted(ChunkComplete, 0)], Going);
    assert "\r" + "\n" == "\r\n";
  }

  lemma ChunkEndsCr(p: Parser)
    requires p.st.ChunkDataAlmostDone?
    ensures Leads(p, "\r", p.(st := ChunkDataDone), [], Going)
  {
    var a := p.(st := ChunkDataDone);
    hide NewMessage, Unhex;
    assert OneByte(p, CR) == Out(a, [Flush(Kind.Body)], Advance);
    hide OneByte;
    Takes(p, CR, a, [Flush(Kind.Body)]);
    ToldOne(Flush(Kind.Body), p.cl);
    assert Item(a.st, CR) == [] && [] + Item(a.st, CR) == [];
  }

  lemma ChunkEndsLf(a: Parser)
    requires a.st.ChunkDataDone?
    ensures Leads(a, "\n", a.(st := ChunkSizeStart), [Noted(ChunkComplete, a.cl)], Going)
  {
    var z := a.(st := ChunkSizeStart);
    hide NewMessage, Unhex;
    assert OneByte(a, LF) == Out(z, [Notify(ChunkComplete)], Advance);
    hide OneByte;
    Takes(a, LF, z, [Notify(ChunkComplete)]);
    ToldOne(Notify(ChunkComplete), a.cl);
    assert Item(z.st, LF) == [] && [Noted(ChunkComplete, a.cl)] + [] == [Noted(ChunkComplete, a.cl)];
  }

  // A chunk; the parser is as before, but for the length.
  lemma ChunkLeads(p: Parser, c: Chunk)
    requires p.st.ChunkSizeStart? && ProperChunk(c)
    ensures Leads(p, ChunkText(c), p.(cl := 0), ChunkEvents([c]), Going)
  {
    hide Leads, HexNumber, HexNumeral;
    var n := |c.data|;
    var a := p.(cl := n, st := ChunkSizeAlmostDone);
    var b := a.(st := ChunkData);
    var d := p.(cl := 0, st := ChunkDataAlmostDone);
    var header, data, done := [Noted(ChunkHeader, n)], [Data(Kind.Body, c.data)], [Noted(ChunkComplete, 0)];
    SizeLineLeads(p, c.size, c.extension);
    ChunkStarts(a);
    LeadsAfter(p, c.size + c.extension + "\r", a, "\n", b, header, Going);
    ChunkDataLeads(b, c.data);
    LeadsOn(p, c.size + c.extension + "\r" + "\n", b, header, c.data, d, data, Going);
    ChunkEnds(d);
    LeadsOn(p, c.size + c.extension + "\r" + "\n" + c.data, d, header + data, "\r\n", p.(cl := 0), done, Going);
    ChunkTextIs(c);
    OneChunkEvents(c);
  }

  lemma ChunkTextIs(c: Chunk)
    ensures ChunkText(c) == c.size + c.extension + "\r" + "\n" + c.data + "\r\n"
  {
    assert "\r\n" == "\r" + "\n";
  }

  lemma OneChunkEvents(c: Chunk)
    ensures ChunkEvents([c]) == [Noted(ChunkHeader, |c.data|)] + [Data(Kind.Body, c.data)] + [Noted(ChunkComplete, 0)]
  {
    assert [c][..0] == [] && ChunkEvents([]) == [];
  }

  lemma {:induction false} ChunksLead(p: Parser, cs: seq<Chunk>)
    requires p.st.ChunkSizeStart? && forall i :: 0 <= i < |cs| ==> ProperChunk(cs[i])
    ensures Leads(p, ChunksText(cs), if cs == [] then p else p.(cl := 0), ChunkEvents(cs), Going)
    decreases |cs|
  {
    hide Leads, ProperChunk, ChunkText;
    if cs == [] {
      LeadsNowhere(p);
    } else {
      var front, c := cs[..|cs| - 1], cs[|cs| - 1];
      ChunksLead(p, front);
      var a := if front == [] then p else p.(cl := 0);
      ChunkLeads(a, c);
      LeadsOn(p, ChunksText(front), a, ChunkEvents(front), ChunkText(c), p.(cl := 0), ChunkEvents([c]), Going);
      OneChunkEvents(c);
      assert ChunkEvents(cs) == ChunkEvents(front) + ChunkEvents([c]);
    }
  }

  // The empty line after the trailers.
  lemma TrailersEnd(a: Parser)
    requires a.st.HeadersAlmostDone? && a.flags.trailing
    ensures var d := a.(st := MessageDone);
            Leads(a, "\n", d.(st := NewMessage(d)), [Noted(ChunkComplete, a.cl)] + [Noted(MessageComplete, a.cl)],
                  EndOf(a.upgrade))
  {
    var d := a.(st := MessageDone);
    var z := d.(st := NewMessage(d));
    hide NewMessage, NeedsEof;
    assert OneByte(a, LF) == Out(d, [Notify(ChunkComplete)], Again);
    ToldOne(Notify(ChunkComplete), a.cl);
    RankFalls(a, LF);
    DoneStep(d, LF);
    hide OneByte;
    assert OneStep(a, LF) == Step(z, [Noted(ChunkComplete, a.cl)] + [Noted(MessageComplete, a.cl)], EndOf(a.upgrade));
    hide OneStep;
    LeadsByte(a, LF, z, [Noted(ChunkComplete, a.cl)] + [Noted(MessageComplete, a.cl)], EndOf(a.upgrade));
  }
}
