// URLs written from their parts, and the slices in which the URL parser finds
// them again.
module HttpUrlParts {
  import opened HttpMachine
  import opened HttpUrl
  import opened HttpTarget
  import HttpLength
  import HttpMessage

  datatype Part = Absent | Present(text: string)

  datatype HostName = Name(text: string) | Bracketed(text: string, zone: Part)

  datatype Parts = Parts(scheme: string, user: Part, host: HostName, port: Part, path: string, query: Part,
                         fragment: Part)

  // ---------- parts ----------

  predicate UserChar(c: char) { HttpMessage.HostChar(c) && c != '[' && c != ']' }

  predicate NameChar(c: char) { HttpMessage.Letter(c) || HttpMessage.Digit(c) || c == '.' || c == '-' }

  predicate AddressChar(c: char) { HttpMessage.HexDigit(c) || c == ':' || c == '.' }

  predicate ZoneChar(c: char) {
    HttpMessage.Letter(c) || HttpMessage.Digit(c) || c == '%' || c == '.' || c == '-' || c == '_' || c == '~'
  }

  predicate ProperHostName(h: HostName) {
    h.text != ""
    && match h
       case Name(text) => forall i :: 0 <= i < |text| ==> NameChar(text[i])
       case Bracketed(text, zone) =>
         && (forall i :: 0 <= i < |text| ==> AddressChar(text[i]))
         && (zone.Present? ==> zone.text != "" && forall i :: 0 <= i < |zone.text| ==> ZoneChar(zone.text[i]))
  }

  predicate ProperUser(p: Part) { p.Present? ==> p.text != "" && forall i :: 0 <= i < |p.text| ==> UserChar(p.text[i]) }

  predicate ProperPort(p: Part) { p.Present? ==> HttpMessage.Numeral(p.text) && HttpMessage.Number(p.text) <= 65535 }

  predicate ProperPath(s: string) { s != "" ==> s[0] == '/' && HttpMessage.IsPath(s[1..]) }

  predicate ProperParts(u: Parts) {
    && HttpMessage.IsScheme(u.scheme) && ProperUser(u.user) && ProperHostName(u.host) && ProperPort(u.port)
    && ProperPath(u.path) && (u.query.Present? ==> u.query.text != "" && HttpMessage.IsQuery(u.query.text))
    && (u.fragment.Present? ==> u.fragment.text != "" && HttpMessage.IsQuery(u.fragment.text))
    && (u.fragment.Present? ==> u.path != "" || u.query.Present?)
  }

  function Around(before: string, p: Part, after: string): string {
    if p.Present? then before + p.text + after else ""
  }

  function HostText(h: HostName): string {
    match h
    case Name(text) => text
    case Bracketed(text, zone) => "[" + text + Around("%", zone, "") + "]"
  }

  function Authority(u: Parts): string { Around("", u.user, "@") + HostText(u.host) + Around(":", u.port, "") }

  function Text(u: Parts): string {
    u.scheme + "://" + Authority(u) + u.path + Around("?", u.query, "") + Around("#", u.fragment, "")
  }

  // ---------- where the parts are ----------

  function AuthorityAt(u: Parts): nat { |u.scheme| + 3 }

  function HostAt(u: Parts): nat { AuthorityAt(u) + |Around("", u.user, "@")| }

  function PathAt(u: Parts): nat { AuthorityAt(u) + |Authority(u)| }

  function QueryAt(u: Parts): nat { PathAt(u) + |u.path| }

  function FragmentAt(u: Parts): nat { QueryAt(u) + |Around("?", u.query, "")| }

  predicate Has(u: Parts, f: Uf) {
    match f
    case UfSchema => true
    case UfUserinfo => u.user.Present?
    case UfHost => true
    case UfPort => u.port.Present?
    case UfPath => u.path != ""
    case UfQuery => u.query.Present?
    case UfFragment => u.fragment.Present?
  }

  // A zone counts as part of the host; brackets do not.
  function Slice(u: Parts, f: Uf): Span
    requires Has(u, f)
  {
    match f
    case UfSchema => Span(0, |u.scheme|)
    case UfUserinfo => Span(AuthorityAt(u), |u.user.text|)
    case UfHost =>
      (match u.host
       case Name(text) => Span(HostAt(u), |text|)
       case Bracketed(text, zone) => Span(HostAt(u) + 1, |text| + |Around("%", zone, "")|))
    case UfPort => Span(HostAt(u) + |HostText(u.host)| + 1, |u.port.text|)
    case UfPath => Span(PathAt(u), |u.path|)
    case UfQuery => Span(QueryAt(u) + 1, |u.query.text|)
    case UfFragment => Span(FragmentAt(u) + 1, |u.fragment.text|)
  }

  // ---------- the first machine ----------

  // The state of the scan depends on the characters alone.
  lemma {:induction false} ScanState(buf: string, n: nat)
    requires n <= |buf|
    ensures ScanTo(buf, false, n).s == UrlRun(ReqSpaces, buf[..n])
    decreases n
  {
    hide UrlChar;
    if n > 0 {
      ScanState(buf, n - 1);
      assert buf[..n][..n - 1] == buf[..n - 1];
    }
  }

  // A stretch of characters that belong to one field.
  lemma {:induction false} Stretch(buf: string, n: nat, m: nat, f: Uf)
    requires n < m <= |buf| && ScanTo(buf, false, n).last != In(f)
    requires forall k :: n < k <= m ==> var s := UrlRun(ReqSpaces, buf[..k]); InField(s) && FieldOf(s) == f
    ensures var x, y := ScanTo(buf, false, n), ScanTo(buf, false, m);
            y.last == In(f) && y.fields == x.fields[f := Span(n, m - n)] && (f != UfHost ==> y.foundAt == x.foundAt)
    ensures var x, y := ScanTo(buf, false, n), ScanTo(buf, false, m);
            f == UfHost ==>
              (y.foundAt <==>
                 x.foundAt || exists k :: n < k <= m && UrlRun(ReqSpaces, buf[..k]) == ServerWithAt)
    decreases m
  {
    hide *;
    StretchEnd(buf, m);
    ServerIsHost();
    if m > n + 1 {
      Stretch(buf, n, m - 1, f);
    }
  }

  lemma ServerIsHost()
    ensures FieldOf(ServerWithAt) == UfHost
  {
  }

  // What the last character of a field does.
  lemma StretchEnd(buf: string, m: nat)
    requires 0 < m <= |buf| && InField(UrlRun(ReqSpaces, buf[..m]))
    ensures var x, y, t := ScanTo(buf, false, m - 1), ScanTo(buf, false, m), UrlRun(ReqSpaces, buf[..m]);
            && y.last == In(FieldOf(t)) && (y.foundAt <==> x.foundAt || t == ServerWithAt)
            && (x.last != In(FieldOf(t)) ==> y.fields == x.fields[FieldOf(t) := Span(m - 1, 1)])
            && (x.last == In(FieldOf(t)) ==>
                  && FieldOf(t) in x.fields
                  && y.fields == x.fields[FieldOf(t) := Span(x.fields[FieldOf(t)].off, x.fields[FieldOf(t)].len + 1)])
  {
    hide UrlChar, UrlRun;
    ScanState(buf, m);
  }

  // A stretch of signs.
  lemma {:induction false} Gap(buf: string, n: nat, m: nat)
    requires n <= m <= |buf| && forall k :: n < k <= m ==> !InField(UrlRun(ReqSpaces, buf[..k]))
    ensures var x, y := ScanTo(buf, false, n), ScanTo(buf, false, m);
            y.fields == x.fields && y.last == x.last && y.foundAt == x.foundAt
    decreases m
  {
    hide UrlChar, UrlRun;
    if n < m {
      Gap(buf, n, m - 1);
      ScanState(buf, m);
      assert !InField(UrlRun(ReqSpaces, buf[..m]));
    }
  }

  // The state k characters into w, which stands behind the text before.
  lemma Into(buf: string, before: string, w: string, k: nat)
    requires |before| <= k <= |before| + |w| <= |buf| && buf[..|before| + |w|] == before + w
    ensures UrlRun(ReqSpaces, buf[..k]) == UrlRun(UrlRun(ReqSpaces, before), w[..k - |before|])
  {
    hide UrlRun;
    assert buf[..k] == buf[..|before| + |w|][..k] == before + w[..k - |before|];
    UrlRunSum(ReqSpaces, before, w[..k - |before|]);
  }

  // The scan has read before, and is as x says.
  ghost predicate Scanned(buf: string, before: string, x: Scan) {
    |before| <= |buf| && buf[..|before|] == before && ScanTo(buf, false, |before|) == x
      && x.s == UrlRun(ReqSpaces, before)
  }

  // One more piece of the text.
  predicate Next(buf: string, before: string, w: string) {
    |before + w| <= |buf| && buf[..|before + w|] == before + w
  }

  lemma {:induction false} SchemeScan(buf: string, scheme: string)
    requires HttpMessage.IsScheme(scheme) && Next(buf, "", scheme)
    ensures Scanned(buf, scheme, Scan(Schema, In(UfSchema), map[UfSchema := Span(0, |scheme|)], false))
  {
    hide UrlRun;
    assert "" + scheme == scheme && buf[..0] == "";
    forall k | 0 < k <= |scheme| ensures UrlRun(ReqSpaces, buf[..k]) == Schema {
      assert buf[..k] == scheme[..k];
      SchemeRun(scheme[..k]);
    }
    Stretch(buf, 0, |scheme|, UfSchema);
    ScanState(buf, |scheme|);
    assert ScanTo(buf, false, 0).fields == map[];
    SchemeRun(scheme);
  }

  // A piece that belongs to field f.
  lemma FieldScan(buf: string, before: string, w: string, x: Scan, f: Uf)
    requires Scanned(buf, before, x) && Next(buf, before, w) && w != "" && x.last != In(f)
    requires forall j :: 0 < j <= |w| ==> var s := UrlRun(x.s, w[..j]); InField(s) && FieldOf(s) == f
    ensures var y := ScanTo(buf, false, |before + w|);
            && Scanned(buf, before + w, y) && y.s == UrlRun(x.s, w) && y.last == In(f)
            && y.fields == x.fields[f := Span(|before|, |w|)] && (f != UfHost ==> y.foundAt == x.foundAt)
            && (f == UfHost ==>
                  (y.foundAt <==> x.foundAt || exists j :: 0 < j <= |w| && UrlRun(x.s, w[..j]) == ServerWithAt))
  {
    hide UrlRun, ScanTo;
    var n, m := |before|, |before + w|;
    forall k | n < k <= m
      ensures UrlRun(ReqSpaces, buf[..k]) == UrlRun(x.s, w[..k - n])
    {
      Into(buf, before, w, k);
    }
    Stretch(buf, n, m, f);
    ScanState(buf, m);
    assert w[..|w|] == w;
    if exists j :: 0 < j <= |w| && UrlRun(x.s, w[..j]) == ServerWithAt {
      var j :| 0 < j <= |w| && UrlRun(x.s, w[..j]) == ServerWithAt;
      assert UrlRun(ReqSpaces, buf[..n + j]) == ServerWithAt;
    }
  }

  // A piece that belongs to no field.
  lemma SignScan(buf: string, before: string, w: string, x: Scan)
    requires Scanned(buf, before, x) && Next(buf, before, w)
    requires forall j :: 0 < j <= |w| ==> !InField(UrlRun(x.s, w[..j]))
    ensures Scanned(buf, before + w, x.(s := UrlRun(x.s, w)))
  {
    hide UrlRun, ScanTo;
    var n, m := |before|, |before + w|;
    forall k | n < k <= m
      ensures !InField(UrlRun(ReqSpaces, buf[..k]))
    {
      Into(buf, before, w, k);
    }
    Gap(buf, n, m);
    ScanState(buf, m);
    UrlRunSum(ReqSpaces, before, w);
  }

  // No character of the sign belongs to a field.
  lemma SlashesSteps(j: nat)
    requires 0 < j <= 3
    ensures !InField(UrlRun(Schema, "://"[..j]))
  {
    hide UrlChar;
    SlashesRun();
    UrlRunOne(Schema, ':');
    UrlRunOne(SchemaSlash, '/');
    UrlRunSum(Schema, ":", "/");
    assert "://"[..1] == ":" && "://"[..2] == ":" + "/" && "://"[..3] == "://";
    SignsAreFew();
  }

  lemma SignsAreFew()
    ensures UrlChar(Schema, ':') == SchemaSlash && UrlChar(SchemaSlash, '/') == SchemaSlashSlash
  {
  }

  lemma SlashesScan(buf: string, before: string, x: Scan)
    requires Scanned(buf, before, x) && Next(buf, before, "://") && x.s == Schema
    ensures Scanned(buf, before + "://", x.(s := ServerStart))
  {
    hide *;
    forall j | 0 < j <= |"://"| ensures !InField(UrlRun(x.s, "://"[..j])) {
      SlashesSteps(j);
    }
    SlashesRun();
    SignScan(buf, before, "://", x);
  }

  lemma HostPrefix(w: string, j: nat)
    requires HttpMessage.IsHost(w) && 0 < j <= |w|
    ensures HttpMessage.IsHost(w[..j])
  {
  }

  lemma ServerScan(buf: string, before: string, w: string, x: Scan)
    requires Scanned(buf, before, x) && Next(buf, before, w) && x.s == ServerStart && w != "" && HttpMessage.IsHost(w)
    requires x.last != In(UfHost) && !x.foundAt && w[|w| - 1] != '@'
    ensures Scanned(buf, before + w, Scan(Server, In(UfHost), x.fields[UfHost := Span(|before|, |w|)], '@' in w))
  {
    hide UrlRun, ScanTo, HttpMessage.IsHost;
    forall j | 0 < j <= |w|
      ensures UrlRun(ServerStart, w[..j]) == if w[j - 1] == '@' then ServerWithAt else Server
    {
      HostPrefix(w, j);
      HostRun(w[..j]);
    }
    FieldScan(buf, before, w, x, UfHost);
    HostRun(w);
    if '@' in w {
      var j :| 0 <= j < |w| && w[j] == '@';
      assert UrlRun(ServerStart, w[..j + 1]) == ServerWithAt;
    }
  }

  lemma PathScan(buf: string, before: string, w: string, x: Scan)
    requires Scanned(buf, before, x) && Next(buf, before, w) && x.s == Server && x.last != In(UfPath) && ProperPath(w)
    ensures Scanned(buf, before + w, if w == "" then x
                                     else x.(s := ReqPath, last := In(UfPath),
                                       fields := x.fields[UfPath := Span(|before|, |w|)]))
  {
    hide UrlRun, ScanTo;
    if w == "" {
      assert before + w == before;
    } else {
      forall j | 0 < j <= |w| ensures UrlRun(Server, w[..j]) == ReqPath {
        UrlRunOne(Server, '/');
        assert w[..j] == "/" + w[1..j];
        UrlRunSum(Server, "/", w[1..j]);
        PathRun(w[1..j]);
      }
      FieldScan(buf, before, w, x, UfPath);
      assert w[..|w|] == w;
    }
  }

  lemma QueryScan(buf: string, before: string, w: string, x: Scan)
    requires Scanned(buf, before, x) && Next(buf, before, "?" + w) && (x.s == Server || x.s == ReqPath)
    requires x.last != In(UfQuery) && w != "" && HttpMessage.IsQuery(w)
    ensures Scanned(buf, before + ("?" + w),
                    x.(s := Query, last := In(UfQuery), fields := x.fields[UfQuery := Span(|before| + 1, |w|)]))
  {
    UrlRunOne(x.s, '?');
    hide UrlRun, ScanTo;
    Split(buf, before, "?", w);
    forall j | 0 < j <= 1 ensures !InField(UrlRun(x.s, "?"[..j])) { assert "?"[..j] == "?"; }
    SignScan(buf, before, "?", x);
    forall j | 0 < j <= |w| ensures UrlRun(QueryStart, w[..j]) == Query { QueryRun(w[..j]); }
    FieldScan(buf, before + "?", w, x.(s := QueryStart), UfQuery);
    assert w[..|w|] == w && before + "?" + w == before + ("?" + w);
  }

  lemma Split(buf: string, before: string, a: string, b: string)
    requires Next(buf, before, a + b)
    ensures Next(buf, before, a) && Next(buf, before + a, b) && before + a + b == before + (a + b)
  {
    assert buf[..|before + a|] == buf[..|before + (a + b)|][..|before + a|];
    assert before + (a + b) == before + a + b;
  }

  lemma {:induction false} FragmentFieldRun(w: string)
    requires w != "" && HttpMessage.IsQuery(w)
    ensures UrlRun(FragmentStart, w) == Fragment
  {
    if |w| > 1 { FragmentFieldRun(w[..|w| - 1]); } else { assert w[..0] == ""; }
  }

  lemma FragmentScan(buf: string, before: string, w: string, x: Scan)
    requires Scanned(buf, before, x) && Next(buf, before, "#" + w) && (x.s == ReqPath || x.s == Query)
    requires x.last != In(UfFragment) && w != "" && HttpMessage.IsQuery(w)
    ensures Scanned(buf, before + ("#" + w),
                    x.(s := Fragment, last := In(UfFragment), fields :=
                      x.fields[UfFragment := Span(|before| + 1, |w|)]))
  {
    UrlRunOne(x.s, '#');
    hide UrlRun, ScanTo;
    Split(buf, before, "#", w);
    forall j | 0 < j <= 1 ensures !InField(UrlRun(x.s, "#"[..j])) { assert "#"[..j] == "#"; }
    SignScan(buf, before, "#", x);
    forall j | 0 < j <= |w| ensures UrlRun(FragmentStart, w[..j]) == Fragment { FragmentFieldRun(w[..j]); }
    FieldScan(buf, before + "#", w, x.(s := FragmentStart), UfFragment);
    assert w[..|w|] == w && before + "#" + w == before + ("#" + w);
  }

  // ---------- the scan of a whole URL ----------

  lemma AuthorityIsHost(u: Parts)
    requires ProperParts(u)
    ensures var w := Authority(u);
            w != "" && HttpMessage.IsHost(w) && w[|w| - 1] != '@' && ('@' in w <==> u.user.Present?)
  {
    var a, b, c := Around("", u.user, "@"), HostText(u.host), Around(":", u.port, "");
    NoAt(u.host);
    assert u.port.Present? ==> forall i :: 0 <= i < |u.port.text| ==> HttpMessage.Digit(u.port.text[i]);
    hide HttpMessage.Letter, HttpMessage.Number, HttpMessage.IsPath, HttpMessage.IsQuery, HostText;
    assert forall i :: 0 <= i < |b| ==> HttpMessage.HostChar(b[i]) && b[i] != '@';
    assert forall i :: 0 <= i < |c| ==> HttpMessage.HostChar(c[i]) && c[i] != '@';
  }

  lemma NoAt(h: HostName)
    requires ProperHostName(h)
    ensures var b := HostText(h); b != "" && forall i :: 0 <= i < |b| ==> HttpMessage.HostChar(b[i]) && b[i] != '@'
  {
  }

  // The fields that the first machine finds.
  function Found(u: Parts): Fields {
    var f1 := FrontFields(u);
    var f2 := if u.path == "" then f1 else f1[UfPath := Span(PathAt(u), |u.path|)];
    var f3 := if u.query.Present? then f2[UfQuery := Span(QueryAt(u) + 1, |u.query.text|)] else f2;
    if u.fragment.Present? then f3[UfFragment := Span(FragmentAt(u) + 1, |u.fragment.text|)] else f3
  }

  lemma NextPiece(buf: string, before: string, w: string, rest: string)
    requires buf == before + w + rest
    ensures Next(buf, before, w)
  {
  }

  function Front(u: Parts): string { u.scheme + "://" + Authority(u) }

  function FrontFields(u: Parts): Fields {
    map[UfSchema := Span(0, |u.scheme|), UfHost := Span(AuthorityAt(u), |Authority(u)|)]
  }

  // The text, cut before and after each piece.
  lemma TextPieces(u: Parts)
    ensures var q, g := Around("?", u.query, ""), Around("#", u.fragment, "");
            && Text(u) == "" + u.scheme + ("://" + Authority(u) + u.path + q + g)
            && Text(u) == u.scheme + "://" + (Authority(u) + u.path + q + g)
            && Text(u) == u.scheme + "://" + Authority(u) + (u.path + q + g)
            && Text(u) == Front(u) + u.path + (q + g)
            && Text(u) == Front(u) + u.path + q + g
            && Text(u) == Front(u) + u.path + q + g + ""
  {
    hide Authority, Around;
    var q, g := Around("?", u.query, ""), Around("#", u.fragment, "");
    Assoc(u.scheme, "://", Authority(u), u.path, q + g);
    Assoc(Front(u), u.path, q, g, "");
    Assoc(u.scheme, "://", Authority(u) + u.path, q, g);
  }

  lemma Assoc(a: string, b: string, c: string, d: string, e: string)
    ensures a + b + c + d + e == a + (b + c + d + e) == a + b + (c + d + e) == a + b + c + (d + e)
    ensures "" + a == a && e + "" == e
  {
  }

  lemma FrontScan(u: Parts, buf: string)
    requires ProperParts(u) && buf == Text(u)
    ensures Scanned(buf, Front(u), Scan(Server, In(UfHost), FrontFields(u), u.user.Present?))
  {
    hide *;
    var a, w := u.scheme + "://", Authority(u);
    var q, g := Around("?", u.query, ""), Around("#", u.fragment, "");
    var f: Fields := map[UfSchema := Span(0, |u.scheme|)];
    TextPieces(u);
    AuthorityIsHost(u);
    FrontIs(u, f);
    NextPiece(buf, "", u.scheme, "://" + w + u.path + q + g);
    NextPiece(buf, u.scheme, "://", w + u.path + q + g);
    NextPiece(buf, a, w, u.path + q + g);
    SchemeScan(buf, u.scheme);
    SlashesScan(buf, u.scheme, Scan(Schema, In(UfSchema), f, false));
    ServerScan(buf, a, w, Scan(ServerStart, In(UfSchema), f, false));
  }

  lemma FrontIs(u: Parts, f: Fields)
    requires ProperParts(u) && f == map[UfSchema := Span(0, |u.scheme|)]
    ensures HttpMessage.IsScheme(u.scheme) && Front(u) == u.scheme + "://" + Authority(u)
    ensures f[UfHost := Span(|u.scheme + "://"|, |Authority(u)|)] == FrontFields(u)
  {
    hide Authority;
  }

  // The scan up to the end of the path, of the query and of the fragment.
  lemma PathDone(u: Parts, buf: string) returns (x: Scan)
    requires ProperParts(u) && buf == Text(u)
    ensures Scanned(buf, Front(u) + u.path, x) && x.foundAt == u.user.Present? && x.last != In(UfQuery)
    ensures x.last != In(UfFragment)
    ensures x.s == (if u.path == "" then Server else ReqPath)
    ensures x.fields == if u.path == "" then FrontFields(u) else FrontFields(u)[UfPath := Span(PathAt(u), |u.path|)]
  {
    hide *;
    var b := Front(u);
    var y := Scan(Server, In(UfHost), FrontFields(u), u.user.Present?);
    FrontScan(u, buf);
    TextPieces(u);
    PathFacts(u);
    NextPiece(buf, b, u.path, Around("?", u.query, "") + Around("#", u.fragment, ""));
    PathScan(buf, b, u.path, y);
    x := if u.path == "" then y
      else y.(s := ReqPath, last := In(UfPath), fields := y.fields[UfPath := Span(|b|, |u.path|)]);
  }

  lemma PathFacts(u: Parts)
    requires ProperParts(u)
    ensures ProperPath(u.path) && PathAt(u) == |Front(u)| && QueryAt(u) == |Front(u) + u.path|
    ensures FragmentAt(u) == |Front(u) + u.path + Around("?", u.query, "")|
    ensures u.query.Present? ==> u.query.text != "" && HttpMessage.IsQuery(u.query.text)
    ensures u.query.Present? ==> Around("?", u.query, "") == "?" + u.query.text
    ensures u.fragment.Present? ==> u.fragment.text != "" && HttpMessage.IsQuery(u.fragment.text)
    ensures u.fragment.Present? ==> (u.path != "" || u.query.Present?)
    ensures u.fragment.Present? ==> Around("#", u.fragment, "") == "#" + u.fragment.text
  {
    hide Authority, HttpMessage.IsQuery, ProperHostName, HttpMessage.Number;
  }

  lemma QueryDone(u: Parts, buf: string) returns (x: Scan)
    requires ProperParts(u) && buf == Text(u)
    ensures Scanned(buf, Front(u) + u.path + Around("?", u.query, ""), x) && x.foundAt == u.user.Present?
    ensures x.last != In(UfFragment) && !x.s.Dead? && (u.fragment.Present? ==> x.s == ReqPath || x.s == Query)
    ensures var f := if u.path == "" then FrontFields(u) else FrontFields(u)[UfPath := Span(PathAt(u), |u.path|)];
            x.fields == if u.query.Present? then f[UfQuery := Span(QueryAt(u) + 1, |u.query.text|)] else f
  {
    hide *;
    var b, q := Front(u) + u.path, Around("?", u.query, "");
    x := PathDone(u, buf);
    PathFacts(u);
    TextPieces(u);
    if u.query.Present? {
      NextPiece(buf, b, q, Around("#", u.fragment, ""));
      QueryScan(buf, b, u.query.text, x);
      x := x.(s := Query, last := In(UfQuery), fields := x.fields[UfQuery := Span(|b| + 1, |u.query.text|)]);
    } else {
      NoPart(u.query, "?");
      assert b + q == b;
    }
  }

  lemma BackScan(u: Parts, buf: string)
    requires ProperParts(u) && buf == Text(u)
    ensures var x := ScanTo(buf, false, |buf|); !x.s.Dead? && x.fields == Found(u) && x.foundAt == u.user.Present?
  {
    hide *;
    var c, g := Front(u) + u.path + Around("?", u.query, ""), Around("#", u.fragment, "");
    var x := QueryDone(u, buf);
    PathFacts(u);
    TextPieces(u);
    FoundIs(u);
    if u.fragment.Present? {
      NextPiece(buf, c, g, "");
      FragmentScan(buf, c, u.fragment.text, x);
      ScannedAll(buf, x.(s := Fragment, last := In(UfFragment),
                         fields := x.fields[UfFragment := Span(|c| + 1, |u.fragment.text|)]));
    } else {
      NoPart(u.fragment, "#");
      assert buf == c;
      ScannedAll(buf, x);
    }
  }

  lemma FoundIs(u: Parts)
    ensures var f := if u.path == "" then FrontFields(u) else FrontFields(u)[UfPath := Span(PathAt(u), |u.path|)];
            var h := if u.query.Present? then f[UfQuery := Span(QueryAt(u) + 1, |u.query.text|)] else f;
            Found(u) == if u.fragment.Present? then h[UfFragment := Span(FragmentAt(u) + 1, |u.fragment.text|)] else h
  {
  }

  lemma NoPart(p: Part, sign: string)
    requires p.Absent?
    ensures Around(sign, p, "") == ""
  {
  }

  lemma ScannedAll(buf: string, x: Scan)
    requires Scanned(buf, buf, x)
    ensures ScanTo(buf, false, |buf|) == x
  {
  }

  // ---------- the second machine ----------

  // What is read of the host field up to byte n.
  ghost predicate HostRead(buf: string, found: bool, f: Fields, n: nat, x: HostScan) {
    UfHost in f && f[UfHost].off <= n <= |buf| && HostTo(buf, found, f, n) == x
  }

  lemma HostReadNext(buf: string, found: bool, f: Fields, n: nat, x: HostScan, y: HostScan)
    requires HostRead(buf, found, f, n, x) && n < |buf| && UfHost in x.fields
    requires (x.s.PortIn? ==> UfPort in x.fields) && (x.s.UserinfoIn? ==> UfUserinfo in x.fields)
    requires y == HostByte(x, buf[n], n)
    ensures HostRead(buf, found, f, n + 1, y)
  {
    hide HostTo, HostByte;
    HostLater(buf, found, f, n + 1);
  }

  lemma CharsFit(c: char)
    ensures UserChar(c) ==> IsUserinfo(c) && c != '@'
    ensures NameChar(c) ==> IsHostChar(c)
    ensures AddressChar(c) ==> (Unhex(c) != -1 || c == ':' || c == '.') && c != ']' && c != '%'
    ensures ZoneChar(c) ==> IsZoneChar(c) && c != ']'
    ensures HttpMessage.Digit(c) ==> IsNum(c)
  {
  }

  lemma {:induction false} UserRead(buf: string, f: Fields, g: Fields, a: nat, j: nat)
    requires HostRead(buf, true, f, a, HostScan(UserinfoStart, g)) && UfHost in g && a + j <= |buf| && 0 < j
    requires forall k :: a <= k < a + j ==> UserChar(buf[k])
    ensures HostRead(buf, true, f, a + j, HostScan(UserinfoIn, g[UfUserinfo := Span(a, j)]))
    decreases j
  {
    hide HostRead, IsUserinfo, UserChar;
    CharsFit(buf[a + j - 1]);
    var y := HostScan(UserinfoIn, g[UfUserinfo := Span(a, j)]);
    if j == 1 {
      HostReadNext(buf, true, f, a, HostScan(UserinfoStart, g), y);
    } else {
      UserRead(buf, f, g, a, j - 1);
      HostReadNext(buf, true, f, a + j - 1, HostScan(UserinfoIn, g[UfUserinfo := Span(a, j - 1)]), y);
    }
  }

  lemma {:induction false} NameRead(buf: string, found: bool, f: Fields, g: Fields, h: nat, j: nat)
    requires HostRead(buf, found, f, h, HostScan(HostStart, g)) && UfHost in g && g[UfHost].len == 0
    requires h + j <= |buf| && 0 < j && forall k :: h <= k < h + j ==> NameChar(buf[k])
    ensures HostRead(buf, found, f, h + j, HostScan(HostIn, g[UfHost := Span(h, j)]))
    decreases j
  {
    hide HostRead, IsHostChar, NameChar;
    CharsFit(buf[h + j - 1]);
    assert NameChar('[') == false by { NoBracket(); }
    var y := HostScan(HostIn, g[UfHost := Span(h, j)]);
    if j == 1 {
      HostReadNext(buf, found, f, h, HostScan(HostStart, g), y);
    } else {
      NameRead(buf, found, f, g, h, j - 1);
      HostReadNext(buf, found, f, h + j - 1, HostScan(HostIn, g[UfHost := Span(h, j - 1)]), y);
    }
  }

  lemma NoBracket()
    ensures !NameChar('[')
  {
  }

  lemma {:induction false} AddressRead(buf: string, found: bool, f: Fields, g: Fields, h: nat, j: nat)
    requires HostRead(buf, found, f, h, HostScan(V6Start, g)) && UfHost in g && g[UfHost].len == 0
    requires h + j <= |buf| && 0 < j && forall k :: h <= k < h + j ==> AddressChar(buf[k])
    ensures HostRead(buf, found, f, h + j, HostScan(V6In, g[UfHost := Span(h, j)]))
    decreases j
  {
    hide HostRead, Unhex, AddressChar;
    CharsFit(buf[h + j - 1]);
    var y := HostScan(V6In, g[UfHost := Span(h, j)]);
    if j == 1 {
      HostReadNext(buf, found, f, h, HostScan(V6Start, g), y);
    } else {
      AddressRead(buf, found, f, g, h, j - 1);
      HostReadNext(buf, found, f, h + j - 1, HostScan(V6In, g[UfHost := Span(h, j - 1)]), y);
    }
  }

  // The zone and the sign before it; n characters of the host precede.
  lemma {:induction false} ZoneRead(buf: string, found: bool, f: Fields, g: Fields, h: nat, n: nat, j: nat)
    requires HostRead(buf, found, f, h + n, HostScan(V6In, g[UfHost := Span(h, n)])) && h + n + 1 + j <= |buf|
    requires buf[h + n] == '%' && forall k :: h + n + 1 <= k < h + n + 1 + j ==> ZoneChar(buf[k])
    ensures HostRead(buf, found, f, h + n + 1 + j,
                     HostScan(if j == 0 then ZoneStart else ZoneIn, g[UfHost := Span(h, n + 1 + j)]))
    decreases j
  {
    hide HostRead, IsZoneChar, ZoneChar;
    if j == 0 {
      assert Unhex('%') == -1;
      HostReadNext(buf, found, f, h + n, HostScan(V6In, g[UfHost := Span(h, n)]),
        HostScan(ZoneStart, g[UfHost := Span(h, n + 1)]));
    } else {
      CharsFit(buf[h + n + j]);
      ZoneRead(buf, found, f, g, h, n, j - 1);
      HostReadNext(buf, found, f, h + n + j,
        HostScan(if j == 1 then ZoneStart else ZoneIn, g[UfHost := Span(h, n + j)]),
        HostScan(ZoneIn, g[UfHost := Span(h, n + 1 + j)]));
    }
  }

  lemma {:induction false} PortRead(buf: string, found: bool, f: Fields, g: Fields, s: HostSt, p: nat, j: nat)
    requires HostRead(buf, found, f, p, HostScan(s, g)) && UfHost in g && (s.HostIn? || s.V6End?)
    requires p + 1 + j <= |buf| && buf[p] == ':' && forall k :: p + 1 <= k < p + 1 + j ==> HttpMessage.Digit(buf[k])
    ensures HostRead(buf, found, f, p + 1 + j,
                     HostScan(if j == 0 then PortStart else PortIn, if j == 0 then g else g[UfPort := Span(p + 1, j)]))
    decreases j
  {
    hide HostRead;
    if j == 0 {
      HostReadNext(buf, found, f, p, HostScan(s, g), HostScan(PortStart, g));
    } else {
      CharsFit(buf[p + j]);
      PortRead(buf, found, f, g, s, p, j - 1);
      HostReadNext(buf, found, f, p + j,
        HostScan(if j == 1 then PortStart else PortIn, if j == 1 then g else g[UfPort := Span(p + 1, j - 1)]),
        HostScan(PortIn, g[UfPort := Span(p + 1, j)]));
    }
  }

  // ---------- the parts of the host field ----------

  // w stands in buf from n on.
  ghost predicate Stands(buf: string, n: nat, w: string) {
    n + |w| <= |buf| && forall k :: 0 <= k < |w| ==> buf[n + k] == w[k]
  }

  lemma StandsSplit(buf: string, n: nat, a: string, b: string)
    requires Stands(buf, n, a + b)
    ensures Stands(buf, n, a) && Stands(buf, n + |a|, b)
  {
    forall k | 0 <= k < |a| ensures buf[n + k] == a[k] { assert (a + b)[k] == a[k]; }
    forall k | 0 <= k < |b| ensures buf[n + |a| + k] == b[k] { assert (a + b)[|a| + k] == b[k]; }
  }

  lemma AuthorityIn(u: Parts)
    ensures AuthorityAt(u) == |u.scheme| + 3 && HostAt(u) == AuthorityAt(u) + |Around("", u.user, "@")|
    ensures Authority(u) == Around("", u.user, "@") + HostText(u.host) + Around(":", u.port, "")
    ensures Stands(Text(u), AuthorityAt(u), Authority(u))
  {
    var before, w := u.scheme + "://", Authority(u);
    var rest := u.path + Around("?", u.query, "") + Around("#", u.fragment, "");
    hide Around, HostText;
    TextPieces(u);
    assert Text(u) == before + w + rest;
    assert (before + w + rest)[..|before + w|] == before + w;
    forall k | 0 <= k < |w| ensures Text(u)[AuthorityAt(u) + k] == w[k] { assert (before + w)[|before| + k] == w[k]; }
  }

  lemma AuthorityStands(u: Parts, buf: string)
    requires buf == Text(u)
    ensures Stands(buf, AuthorityAt(u), Around("", u.user, "@")) && Stands(buf, HostAt(u), HostText(u.host))
    ensures Stands(buf, HostAt(u) + |HostText(u.host)|, Around(":", u.port, ""))
    ensures AuthorityAt(u) + |Authority(u)| <= |buf|
  {
    hide *;
    TextPieces(u);
    AuthorityIn(u);
    var a, b, c := Around("", u.user, "@"), HostText(u.host), Around(":", u.port, "");
    StandsSplit(buf, AuthorityAt(u), a + b, c);
    StandsSplit(buf, AuthorityAt(u), a, b);
  }

  // The fields when the host begins.
  function AfterUser(u: Parts): Fields {
    var g := Found(u)[UfHost := Span(AuthorityAt(u), 0)];
    if u.user.Present? then g[UfUserinfo := Span(AuthorityAt(u), |u.user.text|)] else g
  }

  function AfterName(u: Parts): Fields { AfterUser(u)[UfHost := Slice(u, UfHost)] }

  function AfterPort(u: Parts): Fields {
    if u.port.Present? then AfterName(u)[UfPort := Slice(u, UfPort)] else AfterName(u)
  }

  // The characters of w, one by one.
  lemma StandsAt(buf: string, n: nat, w: string)
    requires Stands(buf, n, w)
    ensures n + |w| <= |buf| && forall k :: n <= k < n + |w| ==> buf[k] == w[k - n]
    ensures buf[n..n + |w|] == w
  {
    forall k | n <= k < n + |w| ensures buf[k] == w[k - n] { assert buf[n + (k - n)] == w[k - n]; }
  }

  lemma UserFacts(u: Parts)
    requires ProperParts(u)
    ensures var a, g := AuthorityAt(u), Found(u)[UfHost := Span(AuthorityAt(u), 0)];
            && UfHost in Found(u) && Found(u)[UfHost].off == a
            && Found(u)[UfHost := Found(u)[UfHost].(len := 0)] == g
            && (if u.user.Present? then
                  && u.user.text != "" && (forall i :: 0 <= i < |u.user.text| ==> UserChar(u.user.text[i]))
                  && Around("", u.user, "@") == u.user.text + "@" && HostAt(u) == a + |u.user.text| + 1
                  && AfterUser(u) == g[UfUserinfo := Span(a, |u.user.text|)]
                else HostAt(u) == a && AfterUser(u) == g)
  {
    hide UserChar, Authority, ProperHostName;
  }

  lemma AtFollows(f: Fields, i: nat)
    requires UfHost in f && UfUserinfo in f
    ensures HostByte(HostScan(UserinfoIn, f), '@', i) == HostScan(HostStart, f)
  {
  }

  lemma HostReadAt(buf: string, found: bool, f: Fields, n: nat, x: HostScan)
    requires UfHost in f && f[UfHost].off <= n <= |buf| && HostTo(buf, found, f, n) == x
    ensures HostRead(buf, found, f, n, x)
  {
  }

  lemma UserDone(u: Parts, buf: string)
    requires ProperParts(u) && buf == Text(u)
    ensures HostRead(buf, u.user.Present?, Found(u), HostAt(u), HostScan(HostStart, AfterUser(u)))
  {
    hide *;
    var a, f, found := AuthorityAt(u), Found(u), u.user.Present?;
    var g := f[UfHost := Span(a, 0)];
    AuthorityStands(u, buf);
    UserFacts(u);
    HostBegins(buf, found, f);
    HostReadAt(buf, found, f, a, HostScan(if found then UserinfoStart else HostStart, g));
    if found {
      var w := u.user.text;
      StandsSplit(buf, a, w, "@");
      StandsAt(buf, a, w);
      StandsAt(buf, a + |w|, "@");
      UserRead(buf, f, g, a, |w|);
      AtFollows(g[UfUserinfo := Span(a, |w|)], a + |w|);
      HostReadNext(buf, found, f, a + |w|, HostScan(UserinfoIn, g[UfUserinfo := Span(a, |w|)]),
        HostScan(HostStart, g[UfUserinfo := Span(a, |w|)]));
    }
  }

  function NameEnd(h: HostName): HostSt { if h.Name? then HostIn else V6End }

  lemma NameFacts(u: Parts)
    requires ProperParts(u)
    ensures ProperHostName(u.host) && UfHost in AfterUser(u) && AfterUser(u)[UfHost].len == 0
    ensures AfterName(u) == AfterUser(u)[UfHost := Slice(u, UfHost)] && UfHost in AfterName(u)
    ensures u.host.Name? ==>
              && u.host.text != "" && HostText(u.host) == u.host.text
                 && Slice(u, UfHost) == Span(HostAt(u), |u.host.text|)
              && forall i :: 0 <= i < |u.host.text| ==> NameChar(u.host.text[i])
  {
    hide Authority, NameChar, ProperUser, ProperPort;
  }

  lemma NameDone(u: Parts, buf: string)
    requires ProperParts(u) && buf == Text(u)
    ensures HostRead(buf, u.user.Present?, Found(u), HostAt(u) + |HostText(u.host)|,
                     HostScan(NameEnd(u.host), AfterName(u)))
  {
    hide *;
    var h, f, g, found := HostAt(u), Found(u), AfterUser(u), u.user.Present?;
    AuthorityStands(u, buf);
    UserDone(u, buf);
    NameFacts(u);
    NameEnds(u.host);
    match u.host {
      case Name(text) =>
        StandsAt(buf, h, text);
        NameRead(buf, found, f, g, h, |text|);
      case Bracketed(text, zone) => BracketDone(u, buf, h, f, g);
    }
  }

  lemma NameEnds(h: HostName)
    ensures NameEnd(h) == if h.Name? then HostIn else V6End
  {
  }

  lemma BracketFacts(u: Parts)
    requires ProperHostName(u.host) && u.host.Bracketed?
    ensures u.host.zone.Present? ==> u.host.zone.text != ""
    ensures var text, z := u.host.text, Around("%", u.host.zone, "");
            && HostText(u.host) == "[" + (text + z + "]") && text != ""
            && (forall i :: 0 <= i < |text| ==> AddressChar(text[i]))
            && Slice(u, UfHost) == Span(HostAt(u) + 1, |text| + |z|)
            && (if u.host.zone.Present? then
                  z == "%" + u.host.zone.text && forall i :: 0 <= i < |u.host.zone.text| ==>
                    ZoneChar(u.host.zone.text[i])
                else z == "")
  {
    var text, z := u.host.text, Around("%", u.host.zone, "");
    assert "[" + text + z + "]" == "[" + (text + z + "]");
    hide AddressChar, ZoneChar;
  }

  lemma BracketSteps(g: Fields, s: HostSt, i: nat)
    requires UfHost in g
    ensures HostByte(HostScan(HostStart, g), '[', i) == HostScan(V6Start, g)
    ensures s.V6In? || s.ZoneIn? ==> HostByte(HostScan(s, g), ']', i) == HostScan(V6End, g)
  {
  }

  lemma BracketDone(u: Parts, buf: string, h: nat, f: Fields, g: Fields)
    requires ProperHostName(u.host) && u.host.Bracketed? && h == HostAt(u) && Stands(buf, h, HostText(u.host))
    requires HostRead(buf, u.user.Present?, f, h, HostScan(HostStart, g)) && UfHost in g && g[UfHost].len == 0
    ensures HostRead(buf, u.user.Present?, f, h + |HostText(u.host)|, HostScan(V6End, g[UfHost := Slice(u, UfHost)]))
  {
    hide *;
    var text, z, found := u.host.text, Around("%", u.host.zone, ""), u.user.Present?;
    var n := |text|;
    BracketFacts(u);
    StandsSplit(buf, h, "[", text + z + "]");
    StandsSplit(buf, h + 1, text + z, "]");
    StandsSplit(buf, h + 1, text, z);
    StandsAt(buf, h, "[");
    StandsAt(buf, h + 1, text);
    StandsAt(buf, h + 1 + |text + z|, "]");
    BracketSteps(g, V6In, h);
    HostReadNext(buf, found, f, h, HostScan(HostStart, g), HostScan(V6Start, g));
    AddressRead(buf, found, f, g, h + 1, n);
    var y := HostScan(V6In, g[UfHost := Span(h + 1, n)]);
    if u.host.zone.Present? {
      y := HostScan(ZoneIn, g[UfHost := Span(h + 1, |text + z|)]);
      ZoneDone(u, buf, h + 1, f, g);
    }
    BracketSteps(y.fields, y.s, h + 1 + |text + z|);
    HostReadNext(buf, found, f, h + 1 + |text + z|, y, HostScan(V6End, y.fields));
  }

  lemma ZoneDone(u: Parts, buf: string, h: nat, f: Fields, g: Fields)
    requires ProperHostName(u.host) && u.host.Bracketed? && u.host.zone.Present?
    requires Stands(buf, h + |u.host.text|, Around("%", u.host.zone, ""))
    requires HostRead(buf, u.user.Present?, f, h + |u.host.text|, HostScan(V6In, g[UfHost := Span(h, |u.host.text|)]))
    ensures var n := |u.host.text + Around("%", u.host.zone, "")|;
            HostRead(buf, u.user.Present?, f, h + n, HostScan(ZoneIn, g[UfHost := Span(h, n)]))
  {
    hide *;
    var n, zone := |u.host.text|, u.host.zone.text;
    BracketFacts(u);
    StandsSplit(buf, h + n, "%", zone);
    StandsAt(buf, h + n, "%");
    StandsAt(buf, h + n + 1, zone);
    ZoneRead(buf, u.user.Present?, f, g, h, n, |zone|);
  }

  lemma PortFacts(u: Parts)
    requires ProperParts(u)
    ensures PathAt(u) == HostAt(u) + |HostText(u.host)| + |Around(":", u.port, "")|
    ensures if u.port.Present? then
              && u.port.text != "" && (forall i :: 0 <= i < |u.port.text| ==> HttpMessage.Digit(u.port.text[i]))
              && Around(":", u.port, "") == ":" + u.port.text
              && Slice(u, UfPort) == Span(HostAt(u) + |HostText(u.host)| + 1, |u.port.text|)
              && AfterPort(u) == AfterName(u)[UfPort := Slice(u, UfPort)]
            else Around(":", u.port, "") == "" && AfterPort(u) == AfterName(u)
    ensures u.port.Present? ==> HttpMessage.Number(u.port.text) <= 65535
  {
    hide HostText, HttpMessage.Number, HttpMessage.Digit, AfterName, ProperHostName, ProperUser;
  }

  lemma PortDone(u: Parts, buf: string)
    requires ProperParts(u) && buf == Text(u)
    ensures HostRead(buf, u.user.Present?, Found(u), PathAt(u),
                     HostScan(if u.port.Present? then PortIn else NameEnd(u.host), AfterPort(u)))
  {
    hide *;
    var p, found, f, g := HostAt(u) + |HostText(u.host)|, u.user.Present?, Found(u), AfterName(u);
    AuthorityStands(u, buf);
    NameDone(u, buf);
    PortFacts(u);
    NameFacts(u);
    NameEnds(u.host);
    if u.port.Present? {
      var w := u.port.text;
      StandsSplit(buf, p, ":", w);
      StandsAt(buf, p, ":");
      StandsAt(buf, p + 1, w);
      PortRead(buf, found, f, g, NameEnd(u.host), p, |w|);
    }
  }

  // ---------- whole URLs ----------

  lemma SlicesAre(u: Parts)
    ensures forall f :: f in AfterPort(u) <==> Has(u, f)
    ensures forall f :: Has(u, f) ==> AfterPort(u)[f] == Slice(u, f)
  {
    hide Authority, HostText;
  }

  lemma {:induction false} DecimalIsNumber(s: string)
    requires forall i :: 0 <= i < |s| ==> HttpMessage.Digit(s[i])
    ensures HttpLength.Digits(s) && HttpLength.Decimal(s) == HttpMessage.Number(s)
  {
    if s != "" { DecimalIsNumber(s[..|s| - 1]); }
  }

  lemma PortIs(u: Parts, buf: string)
    requires ProperParts(u) && buf == Text(u)
    ensures PortOf(buf, AfterPort(u)) == if u.port.Present? then HttpMessage.Number(u.port.text) else 0
  {
    hide *;
    SlicesAre(u);
    PortFacts(u);
    AuthorityStands(u, buf);
    HasPort(u);
    if u.port.Present? {
      var w, s := u.port.text, Slice(u, UfPort);
      StandsSplit(buf, s.off - 1, ":", w);
      StandsAt(buf, s.off, w);
      DecimalIsNumber(w);
      PortValue(buf, AfterPort(u), s, w);
    } else {
      PortNone(buf, AfterPort(u));
    }
  }

  lemma HasPort(u: Parts)
    ensures Has(u, UfPort) <==> u.port.Present?
  {
  }

  lemma PortNone(buf: string, f: Fields)
    requires UfPort !in f
    ensures PortOf(buf, f) == 0
  {
  }

  lemma PortValue(buf: string, f: Fields, s: Span, w: string)
    requires UfPort in f && f[UfPort] == s && s.len == |w| && s.off + |w| <= |buf| && buf[s.off..s.off + |w|] == w
    requires HttpLength.Digits(w) && forall i :: 0 <= i < |w| ==> HttpMessage.Digit(w[i])
    ensures PortOf(buf, f) == HttpLength.Decimal(w)
  {
    hide HttpLength.Decimal;
    forall k | s.off <= k < HttpUrl.End(s) ensures IsNum(buf[k]) {
      assert buf[s.off..s.off + |w|][k - s.off] == buf[k];
    }
  }

  // A URL written from its parts is accepted, and every part is found in its
  // place, with the number of the port.
  lemma UrlFromParts(u: Parts)
    requires ProperParts(u)
    ensures var r := ParseUrl(Text(u), false);
            && r.Parsed? && (forall f :: f in r.fields <==> Has(u, f))
            && (forall f :: Has(u, f) ==> r.fields[f] == Slice(u, f))
            && r.port == if u.port.Present? then HttpMessage.Number(u.port.text) else 0
  {
    var buf := Text(u);
    BackScan(u, buf);
    AuthorityStands(u, buf);
    PortDone(u, buf);
    SlicesAre(u);
    PortIs(u, buf);
    FoundHost(u);
    hide Text, HostTo, ScanTo, Authority, AfterPort, Found, PortOf, Has, Slice, HttpMessage.Number, ProperHostName;
  }

  lemma FoundHost(u: Parts)
    ensures var f := Found(u); UfHost in f && UfSchema in f && HttpUrl.End(f[UfHost]) == PathAt(u)
  {
    hide Authority;
  }
}
