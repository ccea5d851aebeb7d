// Request targets, as the HTTP parser reads them.
module HttpTarget {
  import opened HttpMachine
  import opened HttpShape
  import opened HttpStream
  import opened HttpSegments
  import opened HttpLine
  import opened HttpMessage

  // ---------- the states of a target ----------

  function UrlRun(s: St, w: string): St {
    if w == "" then s else UrlChar(UrlRun(s, w[..|w| - 1]), w[|w| - 1])
  }

  lemma {:induction false} UrlRunSum(s: St, a: string, b: string)
    ensures UrlRun(s, a + b) == UrlRun(UrlRun(s, a), b)
    decreases |b|
  {
    hide UrlChar;
    if b == "" {
      assert a + b == a;
    } else {
      var n := |b| - 1;
      assert (a + b)[..|a + b| - 1] == a + b[..n];
      UrlRunSum(s, a, b[..n]);
    }
  }

  lemma {:induction false} PathRun(w: string)
    requires IsPath(w)
    ensures UrlRun(ReqPath, w) == ReqPath
  {
    if w != "" { PathRun(w[..|w| - 1]); }
  }

  lemma {:induction false} QueryRun(w: string)
    requires IsQuery(w)
    ensures UrlRun(QueryStart, w) == if w == "" then QueryStart else Query
  {
    if w != "" { QueryRun(w[..|w| - 1]); }
  }

  lemma {:induction false} FragmentRun(w: string)
    requires IsFragment(w)
    ensures UrlRun(FragmentStart, w).FragmentStart? || UrlRun(FragmentStart, w).Fragment?
  {
    if w != "" { FragmentRun(w[..|w| - 1]); }
  }

  lemma {:induction false} SchemeRun(w: string)
    requires IsScheme(w)
    ensures UrlRun(ReqSpaces, w) == Schema
  {
    if |w| > 1 { SchemeRun(w[..|w| - 1]); } else { assert w[..0] == ""; }
  }

  lemma HostCharFits(c: char)
    requires HttpMessage.HostChar(c)
    ensures ServerChar(c) == Server && c > ' '
  {
  }

  lemma {:induction false} HostRun(w: string)
    requires IsHost(w)
    ensures UrlRun(ServerStart, w) == if w[|w| - 1] == '@' then ServerWithAt else Server
  {
    hide HttpMessage.HostChar, ServerChar;
    var n := |w| - 1;
    var front, c := w[..n], w[n];
    if n > 0 {
      assert IsHost(front);
      HostRun(front);
      assert c == '@' ==> w[n - 1] != '@';
    } else {
      assert front == "";
    }
    if c == '@' { AtFits(); } else { HostCharFits(c); }
  }

  lemma AtFits()
    ensures ServerChar('@') == ServerWithAt
  {
  }

  // A target may end here.
  predicate MayEnd(s: St) {
    s.Server? || s.ServerWithAt? || s.ReqPath? || s.QueryStart? || s.Query? || s.FragmentStart? || s.Fragment?
  }

  lemma UrlRunOne(s: St, c: char)
    ensures UrlRun(s, [c]) == UrlChar(s, c)
  {
    hide UrlChar;
    assert [c][..0] == "" && UrlRun(s, "") == s;
  }

  lemma TailRun(s: St, t: Tail)
    requires ProperTail(t) && (s.ReqPath? || ((s.Server? || s.ServerWithAt?) && !t.FragmentTail?))
    ensures MayEnd(UrlRun(s, TailText(t)))
  {
    hide UrlRun;
    match t
    case NoTail => assert UrlRun(s, "") == s by { UrlRunNone(s); }
    case QueryTail(query) => AskRun(s, query);
    case FragmentTail(fragment) => HashRun(s, fragment);
    case BothTail(query, fragment) =>
      AskRun(s, query);
      UrlRunSum(s, "?" + query, "#" + fragment);
      HashRun(UrlRun(s, "?" + query), fragment);
  }

  lemma UrlRunNone(s: St)
    ensures UrlRun(s, "") == s
  {
  }

  lemma AskRun(s: St, query: string)
    requires IsQuery(query) && (s.ReqPath? || s.Server? || s.ServerWithAt?)
    ensures var z := UrlRun(s, "?" + query); z.QueryStart? || z.Query?
  {
    UrlRunOne(s, '?');
    hide UrlRun;
    UrlRunSum(s, "?", query);
    QueryRun(query);
  }

  lemma HashRun(s: St, fragment: string)
    requires IsFragment(fragment) && (s.ReqPath? || s.QueryStart? || s.Query?)
    ensures var z := UrlRun(s, "#" + fragment); z.FragmentStart? || z.Fragment?
  {
    UrlRunOne(s, '#');
    hide UrlRun;
    UrlRunSum(s, "#", fragment);
    FragmentRun(fragment);
  }

  lemma RestRun(rest: string, t: Tail)
    requires IsPath(rest) && ProperTail(t)
    ensures MayEnd(UrlRun(ReqPath, rest + TailText(t)))
  {
    hide UrlRun;
    PathRun(rest);
    UrlRunSum(ReqPath, rest, TailText(t));
    TailRun(ReqPath, t);
  }

  lemma SlashesRun()
    ensures UrlRun(Schema, "://") == ServerStart
  {
    UrlRunOne(Schema, ':');
    UrlRunOne(SchemaSlash, '/');
    UrlRunOne(SchemaSlashSlash, '/');
    hide UrlRun;
    UrlRunSum(Schema, ":", "/");
    UrlRunSum(Schema, ":/", "/");
    assert ":" + "/" == ":/" && ":/" + "/" == "://";
  }

  // Where the first character of a target is judged.
  function TargetStart(connect: bool): St { if connect then ServerStart else ReqSpaces }

  lemma TargetRun(t: Target, connect: bool)
    requires ProperTarget(t, connect)
    ensures TargetText(t) != "" && MayEnd(UrlRun(TargetStart(connect), TargetText(t)))
  {
    hide UrlRun, TailText;
    match t
    case PathTarget(first, rest, tail) =>
      UrlRunOne(ReqSpaces, first);
      UrlRunSum(ReqSpaces, [first], rest + TailText(tail));
      RestRun(rest, tail);
    case UrlTarget(scheme, host, slash, rest, tail) =>
      SchemeRun(scheme);
      SlashesRun();
      HostRun(host);
      UrlRunSum(ReqSpaces, scheme, "://");
      UrlRunSum(ReqSpaces, scheme + "://", host);
      AfterHost(UrlRun(ServerStart, host), slash, rest, tail);
      UrlRunSum(ReqSpaces, scheme + "://" + host, (if slash then "/" else "") + (rest + TailText(tail)));
    case HostTarget(host) => HostRun(host);
  }

  lemma AfterHost(s: St, slash: bool, rest: string, t: Tail)
    requires (s.Server? || s.ServerWithAt?) && IsPath(rest) && ProperTail(t)
    requires slash || (rest == "" && !t.FragmentTail?)
    ensures MayEnd(UrlRun(s, (if slash then "/" else "") + (rest + TailText(t))))
  {
    hide UrlRun, TailText;
    if slash {
      UrlRunOne(s, '/');
      UrlRunSum(s, "/", rest + TailText(t));
      RestRun(rest, t);
    } else {
      assert "" + (rest + TailText(t)) == TailText(t);
      TailRun(s, t);
    }
  }

  // ---------- the parser in a target ----------

  lemma DeadStays(c: char)
    ensures UrlChar(Dead, c) == Dead
  {
  }

  lemma UrlByteLeads(p: Parser, c: char)
    requires UrlState(p.st) && UrlChar(p.st, c) != Dead && c < 256 as char
    ensures Leads(p, [c], p.(st := UrlChar(p.st, c)), [Data(Kind.Url, [c])], Going)
  {
    var q := p.(st := UrlChar(p.st, c));
    assert c != ' ' && c != CR && c != LF;
    UrlCharStays(p.st, c);
    hide UrlChar;
    assert OneByte(p, c) == UrlByte(p, c) == Out(q, [], Advance);
    hide OneByte;
    Takes(p, c, q, []);
    assert Told([], q.cl) == [] && Item(q.st, c) == [Data(Kind.Url, [c])];
    assert [] + [Data(Kind.Url, [c])] == [Data(Kind.Url, [c])];
  }

  lemma FirstUrlByteLeads(p: Parser, c: char)
    requires p.st.ReqSpaces? && UrlChar(TargetStart(p.verb == "CONNECT"), c) != Dead && c < 256 as char
    ensures var q := p.(st := UrlChar(TargetStart(p.verb == "CONNECT"), c));
            UrlState(q.st) && Leads(p, [c], q, [Data(Kind.Url, [c])], Going)
  {
    var s := TargetStart(p.verb == "CONNECT");
    var q := p.(st := UrlChar(s, c));
    assert c != ' ';
    UrlCharStays(s, c);
    hide UrlChar;
    assert OneByte(p, c) == Out(q, [Mark(Kind.Url)], Advance);
    hide OneByte;
    Takes(p, c, q, [Mark(Kind.Url)]);
    ToldOne(Mark(Kind.Url), q.cl);
    assert Item(q.st, c) == [Data(Kind.Url, [c])] && [] + Item(q.st, c) == Item(q.st, c);
  }

  lemma UrlSpace(p: Parser)
    requires MayEnd(p.st)
    ensures OneByte(p, ' ') == Out(p.(st := ReqHttpStart), [Flush(Kind.Url)], Advance)
  {
    hide UrlChar, VerbByte, SpacesByte;
  }

  lemma SpaceEndsUrl(p: Parser)
    requires MayEnd(p.st)
    ensures Leads(p, " ", p.(st := ReqHttpStart), [Data(Kind.Url, "")], Going)
  {
    var q := p.(st := ReqHttpStart);
    UrlSpace(p);
    hide OneByte;
    Takes(p, ' ', q, [Flush(Kind.Url)]);
    ToldOne(Flush(Kind.Url), q.cl);
    assert [Data(Kind.Url, "")] + [] == [Data(Kind.Url, "")];
  }

  lemma {:induction false} UrlLeads(p: Parser, w: string)
    requires p.st.ReqSpaces? && w != "" && Bytes(w)
    requires var s := UrlRun(TargetStart(p.verb == "CONNECT"), w); s != Dead
    ensures var q := p.(st := UrlRun(TargetStart(p.verb == "CONNECT"), w));
            UrlState(q.st) && Leads(p, w, q, [Data(Kind.Url, w)], Going)
    decreases |w|
  {
    hide Leads, UrlChar;
    var s, n := TargetStart(p.verb == "CONNECT"), |w| - 1;
    var front, c := w[..n], w[n];
    if front == "" {
      assert w == [c];
      UrlRunNone(s);
      FirstUrlByteLeads(p, c);
    } else {
      if UrlRun(s, front) == Dead { DeadStays(c); }
      UrlLeads(p, front);
      var q := p.(st := UrlRun(s, front));
      UrlByteLeads(q, c);
      UrlCharStays(q.st, c);
      LeadsItem(p, front, q, Kind.Url, front, [c], q.(st := UrlChar(q.st, c)), [c]);
      assert front + [c] == w;
    }
  }

  // A target and the space after it.
  lemma TargetLeads(p: Parser, t: Target)
    requires p.st.ReqSpaces? && ProperTarget(t, p.verb == "CONNECT")
    ensures Leads(p, TargetText(t) + " ", p.(st := ReqHttpStart), [Data(Kind.Url, TargetText(t))], Going)
  {
    var w := TargetText(t);
    TargetBytes(t, p.verb == "CONNECT");
    TargetRun(t, p.verb == "CONNECT");
    var q := p.(st := UrlRun(TargetStart(p.verb == "CONNECT"), w));
    hide Leads, UrlRun, TargetText, ProperTarget;
    UrlLeads(p, w);
    SpaceEndsUrl(q);
    LeadsItem(p, w, q, Kind.Url, w, " ", q.(st := ReqHttpStart), "");
    assert w + "" == w && q.(st := ReqHttpStart) == p.(st := ReqHttpStart);
  }

  lemma TargetBytes(t: Target, connect: bool)
    requires ProperTarget(t, connect)
    ensures Bytes(TargetText(t))
  {
    hide TailText;
    match t
    case PathTarget(first, rest, tail) =>
      TailBytes(tail);
      BytesJoin(rest, TailText(tail));
      BytesJoin([first], rest + TailText(tail));
    case UrlTarget(scheme, host, slash, rest, tail) =>
      var after := (if slash then "/" else "") + (rest + TailText(tail));
      TailBytes(tail);
      BytesJoin(rest, TailText(tail));
      BytesJoin(if slash then "/" else "", rest + TailText(tail));
      assert Bytes("://");
      BytesJoin(scheme, "://");
      BytesJoin(scheme + "://", host);
      BytesJoin(scheme + "://" + host, after);
    case HostTarget(host) =>
  }

  lemma TailBytes(t: Tail)
    requires ProperTail(t)
    ensures Bytes(TailText(t))
  {
    match t
    case NoTail =>
    case QueryTail(query) => BytesJoin("?", query);
    case FragmentTail(fragment) => BytesJoin("#", fragment);
    case BothTail(query, fragment) =>
      BytesJoin("?", query);
      BytesJoin("#", fragment);
      BytesJoin("?" + query, "#" + fragment);
  }

  lemma BytesJoin(a: string, b: string)
    requires Bytes(a) && Bytes(b)
    ensures Bytes(a + b)
  {
  }
}
