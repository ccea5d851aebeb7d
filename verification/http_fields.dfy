// Names of header fields, as the HTTP parser matches them.
module HttpFields {
  import opened HttpMachine
  import opened HttpShape
  import opened HttpStream
  import opened HttpSegments
  import opened HttpLine
  import opened HttpMessage

  // ---------- the states of a name ----------

  // w is the beginning of name, or all of it.
  predicate PrefixOf(w: string, name: string) { |w| <= |name| && name[..|w|] == w }

  lemma PrefixMore(w: string, t: char, name: string)
    ensures PrefixOf(w + [t], name) <==> PrefixOf(w, name) && |w| < |name| && name[|w|] == t
  {
    if |w| < |name| {
      assert name[..|w| + 1] == name[..|w|] + [name[|w|]];
      if PrefixOf(w + [t], name) { assert (w + [t])[..|w|] == w && (w + [t])[|w|] == t; }
    }
  }

  // The state after a part of a name, in lower case.
  function NameHs(w: string): HState {
    if PrefixOf(w, "connection") then
      if |w| == 1 then HC else if |w| == 2 then HCO else if |w| == 3 then HCON
      else if |w| == 10 then Connection else MatchingConnection
    else if PrefixOf(w, "content-length") then if |w| == 14 then ContentLength else MatchingContentLength
    else if PrefixOf(w, "proxy-connection") then if |w| == 16 then Connection else MatchingProxyConnection
    else if PrefixOf(w, "transfer-encoding") then if |w| == 17 then TransferEncoding else MatchingTransferEncoding
    else if PrefixOf(w, "upgrade") then if |w| == 7 then Upgrade else MatchingUpgrade
    else General
  }

  // The states that count the characters they have matched.
  predicate Counts(h: HState) {
    h.HC? || h.HCO? || h.HCON? || h.MatchingConnection? || h.MatchingContentLength? || h.MatchingProxyConnection?
    || h.MatchingTransferEncoding? || h.MatchingUpgrade?
  }

  // Of the five names only two have a common beginning.
  lemma OneName(w: string)
    requires w != ""
    ensures PrefixOf(w, "connection") ==> w[0] == 'c' && (|w| >= 3 ==> w[2] == 'n') && (|w| >= 4 ==> w[3] == 'n')
    ensures PrefixOf(w, "content-length") ==> w[0] == 'c' && (|w| >= 4 ==> w[3] == 't')
    ensures PrefixOf(w, "content-length") && |w| <= 3 ==> PrefixOf(w, "connection")
    ensures PrefixOf(w, "proxy-connection") ==> w[0] == 'p'
    ensures PrefixOf(w, "transfer-encoding") ==> w[0] == 't'
    ensures PrefixOf(w, "upgrade") ==> w[0] == 'u'
  {
    if PrefixOf(w, "connection") { Same(w, "connection"); }
    if PrefixOf(w, "content-length") {
      Same(w, "content-length");
      if |w| <= 3 { assert "content-length"[..|w|] == "connection"[..|w|]; }
    }
    if PrefixOf(w, "proxy-connection") { Same(w, "proxy-connection"); }
    if PrefixOf(w, "transfer-encoding") { Same(w, "transfer-encoding"); }
    if PrefixOf(w, "upgrade") { Same(w, "upgrade"); }
  }

  lemma Same(w: string, name: string)
    requires PrefixOf(w, name)
    ensures forall i :: 0 <= i < |w| ==> w[i] == name[i]
  {
    forall i | 0 <= i < |w| ensures w[i] == name[i] { assert name[..|w|][i] == name[i]; }
  }

  // The names as the headers know them.
  lemma NameHsMeans(w: string)
    ensures NameHs(w).Connection? <==> w in OPTIONS_NAMES
    ensures NameHs(w).ContentLength? <==> w in LENGTH_NAMES
    ensures NameHs(w).TransferEncoding? <==> w in CODING_NAMES
    ensures NameHs(w).Upgrade? <==> w in UPGRADE_NAMES
    ensures !NameHs(w).TokenStart?
  {
    assert PrefixOf("content-length", "content-length") && !PrefixOf("content-length", "connection");
    assert PrefixOf("connection", "connection") && PrefixOf("proxy-connection", "proxy-connection");
    assert PrefixOf("transfer-encoding", "transfer-encoding") && PrefixOf("upgrade", "upgrade");
    OneName("proxy-connection");
    OneName("transfer-encoding");
    OneName("upgrade");
  }

  // One more character of a name that is being matched.
  lemma MatchStep(p: Parser, t: char, name: string, done: HState, w: string)
    requires w != "" && PrefixOf(w, name) && |w| < |name| && p.index == |w| - 1
    ensures Match(p, t, name, done) ==
            p.(index := |w|,
               hs := if !PrefixOf(w + [t], name) then General else if |w| + 1 == |name| then done else p.hs)
  {
    PrefixMore(w, t, name);
    hide PrefixOf;
  }

  // In the first three characters.
  lemma EarlyStep(p: Parser, c: char, w: string)
    requires w != "" && TokenChar(c) && p.hs == NameHs(w) && (Counts(p.hs) ==> p.index == |w| - 1)
    requires p.hs.HC? || p.hs.HCO? || p.hs.HCON?
    ensures var q := FieldChar(p, c, Small(c)); var z := w + [Small(c)];
            q == p.(hs := NameHs(z), index := q.index) && (Counts(q.hs) ==> q.index == |z| - 1)
  {
    var t := Small(c);
    OneName(w);
    OneName(w + [t]);
    PrefixMore(w, t, "connection");
    PrefixMore(w, t, "content-length");
    assert PrefixOf(w, "connection") && |w| <= 3;
    if |w| == 3 { ConIsCommon(w); }
    hide PrefixOf;
  }

  lemma ConIsCommon(w: string)
    requires PrefixOf(w, "connection") && |w| <= 3
    ensures PrefixOf(w, "content-length")
  {
    assert "content-length"[..|w|] == "connection"[..|w|];
  }

  lemma LateStep(p: Parser, c: char, w: string)
    requires w != "" && TokenChar(c) && p.hs == NameHs(w) && (Counts(p.hs) ==> p.index == |w| - 1)
    requires p.hs.MatchingConnection? || p.hs.MatchingContentLength?
    ensures var q := FieldChar(p, c, Small(c)); var z := w + [Small(c)];
            q == p.(hs := NameHs(z), index := q.index) && (Counts(q.hs) ==> q.index == |z| - 1)
  {
    var t := Small(c);
    OneName(w);
    OneName(w + [t]);
    if p.hs.MatchingConnection? { MatchStep(p, t, "connection", Connection, w); }
    else { MatchStep(p, t, "content-length", ContentLength, w); }
    hide PrefixOf, Match;
  }

  lemma OtherStep(p: Parser, c: char, w: string)
    requires w != "" && TokenChar(c) && p.hs == NameHs(w) && (Counts(p.hs) ==> p.index == |w| - 1)
    requires p.hs.MatchingProxyConnection? || p.hs.MatchingTransferEncoding? || p.hs.MatchingUpgrade?
    ensures var q := FieldChar(p, c, Small(c)); var z := w + [Small(c)];
            q == p.(hs := NameHs(z), index := q.index) && (Counts(q.hs) ==> q.index == |z| - 1)
  {
    var t := Small(c);
    OneName(w);
    OneName(w + [t]);
    if p.hs.MatchingProxyConnection? { MatchStep(p, t, "proxy-connection", Connection, w); }
    else if p.hs.MatchingTransferEncoding? { MatchStep(p, t, "transfer-encoding", TransferEncoding, w); }
    else { MatchStep(p, t, "upgrade", Upgrade, w); }
    hide PrefixOf, Match;
  }

  // A name that is complete, or none of the five.
  lemma FinalStep(p: Parser, c: char, w: string)
    requires w != "" && TokenChar(c) && p.hs == NameHs(w) && !Counts(p.hs)
    ensures FieldChar(p, c, Small(c)) == p.(hs := General) && NameHs(w + [Small(c)]) == General
  {
    var t := Small(c);
    OneName(w);
    OneName(w + [t]);
    PrefixMore(w, t, "connection");
    PrefixMore(w, t, "content-length");
    PrefixMore(w, t, "proxy-connection");
    PrefixMore(w, t, "transfer-encoding");
    PrefixMore(w, t, "upgrade");
    hide PrefixOf, Match;
    assert c != ' ';
  }

  // One more character of a name.
  lemma NameStep(p: Parser, c: char, w: string)
    requires w != "" && TokenChar(c) && p.hs == NameHs(w) && (Counts(p.hs) ==> p.index == |w| - 1)
    ensures var q := FieldChar(p, c, Small(c)); var z := w + [Small(c)];
            q == p.(hs := NameHs(z), index := q.index) && (Counts(q.hs) ==> q.index == |z| - 1)
  {
    hide FieldChar;
    if p.hs.HC? || p.hs.HCO? || p.hs.HCON? { EarlyStep(p, c, w); }
    else if p.hs.MatchingConnection? || p.hs.MatchingContentLength? { LateStep(p, c, w); }
    else if Counts(p.hs) { OtherStep(p, c, w); }
    else { FinalStep(p, c, w); }
    hide NameHs;
  }

  // ---------- a name in the text ----------

  lemma TokenIs(c: char)
    requires TokenChar(c)
    ensures Token(c) == Small(c) != 0 as char && c != CR && c != LF && c != ':' && c != ' ' && c != '\t'
            && c < 128 as char
  {
  }

  // The parser in a name.
  ghost predicate InName(p: Parser, q: Parser, w: string) {
    q == p.(st := HeaderField, hs := NameHs(w), index := q.index) && (Counts(q.hs) ==> q.index == |w| - 1)
  }

  lemma NameBegins(p: Parser, c: char) returns (q: Parser)
    requires p.st.FieldStart? && TokenChar(c)
    ensures InName(p, q, [Small(c)]) && Leads(p, [c], q, [Data(Field, [c])], Going)
  {
    TokenIs(c);
    var t := Small(c);
    q := p.(st := HeaderField, hs := NameHs([t]), index := 0);
    FirstHs(t);
    hide NameHs, Token;
    assert OneByte(p, c) == Out(q, [Mark(Field)], Advance);
    hide OneByte;
    Takes(p, c, q, [Mark(Field)]);
    ToldOne(Mark(Field), q.cl);
    assert Item(q.st, c) == [Data(Field, [c])] && [] + Item(q.st, c) == Item(q.st, c);
  }

  lemma FirstHs(t: char)
    ensures NameHs([t]) == if t == 'c' then HC else if t == 'p' then MatchingProxyConnection
                           else if t == 't' then MatchingTransferEncoding else if t == 'u' then MatchingUpgrade
                             else General
  {
    Single(t, "connection");
    Single(t, "content-length");
    Single(t, "proxy-connection");
    Single(t, "transfer-encoding");
    Single(t, "upgrade");
    hide PrefixOf;
  }

  lemma Single(t: char, name: string)
    requires name != ""
    ensures PrefixOf([t], name) <==> name[0] == t
  {
    assert name[..1] == [name[0]];
  }

  lemma NameGoesOn(p: Parser, a: Parser, c: char, w: string) returns (q: Parser)
    requires InName(p, a, w) && TokenChar(c) && w != ""
    ensures InName(p, q, w + [Small(c)]) && Leads(a, [c], q, [Data(Field, [c])], Going)
  {
    TokenIs(c);
    NameStep(a, c, w);
    q := FieldChar(a, c, Small(c));
    hide FieldChar, NameHs, Token, OneStep;
    assert ByteStep(a, c) == Step(q, [Data(Field, [c])], Going);
    hide ByteStep;
    LeadsByte(a, c, q, [Data(Field, [c])], Going);
  }

  lemma FoldedMore(s: string)
    requires s != ""
    ensures Folded(s) == Folded(s[..|s| - 1]) + [Small(s[|s| - 1])] && |Folded(s[..|s| - 1])| == |s| - 1
  {
  }

  lemma {:induction false} NameLeads(p: Parser, name: string) returns (q: Parser)
    requires p.st.FieldStart? && IsToken(name)
    ensures InName(p, q, Folded(name)) && Leads(p, name, q, [Data(Field, name)], Going)
    decreases |name|
  {
    hide Leads, InName, Folded;
    var front, c := name[..|name| - 1], name[|name| - 1];
    FoldedMore(name);
    if front == "" {
      q := NameBegins(p, c);
      assert name == [c] && Folded(front) == "";
      assert [Small(c)] == "" + [Small(c)];
    } else {
      var a := NameLeads(p, front);
      q := NameGoesOn(p, a, c, Folded(front));
      LeadsItem(p, front, a, Field, front, [c], q, [c]);
      assert front + [c] == name;
    }
  }

  lemma ColonLeads(p: Parser, a: Parser, w: string)
    requires InName(p, a, w)
    ensures Leads(a, ":", a.(st := DiscardWs), [Data(Field, "")], Going)
  {
    hide FieldChar, NameHs, OneStep;
    assert ByteStep(a, ':') == Step(a.(st := DiscardWs), [Data(Field, "")], Going);
    hide ByteStep;
    LeadsByte(a, ':', a.(st := DiscardWs), [Data(Field, "")], Going);
  }

  // A name, its colon, and the white space after it.
  lemma FieldLeads(p: Parser, name: string, pad: string) returns (q: Parser)
    requires p.st.FieldStart? && IsToken(name) && Blanks(pad)
    ensures q == p.(st := DiscardWs, hs := NameHs(Folded(name)), index := q.index)
    ensures Leads(p, name + ":" + pad, q, [Data(Field, name)], Going)
  {
    var a := NameLeads(p, name);
    ColonLeads(p, a, Folded(name));
    q := a.(st := DiscardWs);
    hide Leads;
    LeadsItem(p, name, a, Field, name, ":", q, "");
    assert name + "" == name;
    PadLeads(q, pad);
    LeadsBefore(p, name + ":", q, [Data(Field, name)], pad, q);
  }

  lemma {:induction false} PadLeads(p: Parser, pad: string)
    requires p.st.DiscardWs? && Blanks(pad)
    ensures Leads(p, pad, p, [], Going)
    decreases |pad|
  {
    hide Leads;
    if pad == "" {
      LeadsNowhere(p);
    } else {
      var front, c := pad[..|pad| - 1], pad[|pad| - 1];
      PadLeads(p, front);
      BlankLeads(p, c);
      LeadsAfter(p, front, p, [c], p, [], Going);
      assert front + [c] == pad;
    }
  }

  lemma BlankLeads(p: Parser, c: char)
    requires p.st.DiscardWs? && (c == ' ' || c == '\t')
    ensures Leads(p, [c], p, [], Going)
  {
    assert OneByte(p, c) == Out(p.(st := DiscardWs), [], Advance);
    hide OneByte;
    Walks(p, c, DiscardWs);
  }
}
