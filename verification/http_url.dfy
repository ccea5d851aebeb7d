// http_parser_parse_url and http_parse_host of 3rd/http_parser/http_parser.c:
// a URL is cut into fields by one state machine, and the host field is cut
// again by a second one.
module HttpUrl {
  import opened HttpMachine
  import opened HttpLength

  datatype Uf = UfSchema | UfHost | UfPort | UfPath | UfQuery | UfFragment | UfUserinfo

  // Where a field begins, and how long it is.
  datatype Span = Span(off: nat, len: nat)

  function End(s: Span): nat { s.off + s.len }

  // Buffers whose offsets fit the 16 bits of the field data.
  const MAX_URL: nat := 65535

  // field_set and field_data: the fields that are set.
  type Fields = map<Uf, Span>

  // ---------- what the fields promise ----------

  // The order in which the fields stand in a URL.
  function Place(f: Uf): nat {
    match f
    case UfSchema => 0
    case UfUserinfo => 1
    case UfHost => 2
    case UfPort => 3
    case UfPath => 4
    case UfQuery => 5
    case UfFragment => 6
  }

  // Every field is a non-empty slice of the first n bytes, and the slices are
  // disjoint and in order.
  predicate Ordered(fields: Fields, n: nat) {
    && (forall f :: f in fields ==> 0 < fields[f].len && End(fields[f]) <= n)
    && (forall f, g :: f in fields && g in fields && Place(f) < Place(g) ==> End(fields[f]) <= fields[g].off)
  }

  predicate Byte(buf: string, k: int, c: char) { 0 <= k < |buf| && buf[k] == c }

  predicate AllDigits(buf: string, s: Span) { End(s) <= |buf| && forall k :: s.off <= k < End(s) ==> IsNum(buf[k]) }

  // The signs around the fields.
  predicate SchemaSigned(buf: string, fields: Fields) {
    UfSchema in fields ==>
      var e := End(fields[UfSchema]);
      fields[UfSchema].off == 0 && Byte(buf, e, ':') && Byte(buf, e + 1, '/') && Byte(buf, e + 2, '/')
  }

  predicate Signed(buf: string, fields: Fields) {
    && SchemaSigned(buf, fields)
    && (UfPath in fields ==> Byte(buf, fields[UfPath].off, '/') || Byte(buf, fields[UfPath].off, '*'))
    && (UfQuery in fields ==> Byte(buf, fields[UfQuery].off - 1, '?'))
    && (UfFragment in fields ==> Byte(buf, fields[UfFragment].off - 1, '#'))
  }

  predicate HostSigned(buf: string, fields: Fields) {
    && (UfUserinfo in fields ==> Byte(buf, End(fields[UfUserinfo]), '@'))
    && (UfPort in fields ==> Byte(buf, fields[UfPort].off - 1, ':') && AllDigits(buf, fields[UfPort]))
  }

  // ---------- the first machine ----------

  // The states that are in a field, and which.
  predicate InField(s: St) { s.Schema? || s.Server? || s.ServerWithAt? || s.ReqPath? || s.Query? || s.Fragment? }

  function FieldOf(s: St): Uf
    requires InField(s)
  {
    match s
    case Schema => UfSchema
    case ReqPath => UfPath
    case Query => UfQuery
    case Fragment => UfFragment
    case _ => UfHost
  }

  // The fields that may be set by the time a state is reached.
  predicate UpTo(fields: Fields, last: Uf) {
    forall f :: f in fields ==> f != UfUserinfo && f != UfPort && Place(f) <= Place(last)
  }

  predicate Early(fields: Fields, len: int) {
    UpTo(fields, UfSchema) && UfSchema in fields && fields[UfSchema].off == 0 && fields[UfSchema].len == len
  }

  // What each state knows about the fields, beside Ordered.
  predicate Knows(buf: string, i: nat, s: St, fields: Fields) {
    match s
    case ReqSpaces => i == 0 && fields == map[]
    case Schema => Early(fields, i)
    case SchemaSlash => Early(fields, i - 1) && Byte(buf, i - 1, ':')
    case SchemaSlashSlash => Early(fields, i - 2) && Byte(buf, i - 2, ':') && Byte(buf, i - 1, '/')
    case ServerStart =>
      (i == 0 && fields == map[])
      || (Early(fields, i - 3) && Byte(buf, i - 3, ':') && Byte(buf, i - 2, '/') && Byte(buf, i - 1, '/'))
    case Server => UpTo(fields, UfHost) && UfHost in fields && End(fields[UfHost]) == i && Signed(buf, fields)
    case ServerWithAt => UpTo(fields, UfHost) && UfHost in fields && End(fields[UfHost]) == i && Signed(buf, fields)
    case ReqPath => UpTo(fields, UfPath) && UfPath in fields && End(fields[UfPath]) == i && Signed(buf, fields)
    case QueryStart => UpTo(fields, UfPath) && Byte(buf, i - 1, '?') && Signed(buf, fields)
    case Query => UpTo(fields, UfQuery) && UfQuery in fields && End(fields[UfQuery]) == i && Signed(buf, fields)
    case FragmentStart => UpTo(fields, UfQuery) && Byte(buf, i - 1, '#') && Signed(buf, fields)
    case Fragment => UpTo(fields, UfFragment) && UfFragment in fields && End(fields[UfFragment]) == i
      && Signed(buf, fields)
    case _ => false
  }

  // The field that the last character went to.
  datatype Last = NoField | In(f: Uf)

  predicate LastFits(s: St, last: Last, fields: Fields) {
    && (last.In? ==> last.f in fields)
    && (InField(s) ==> last == In(FieldOf(s)))
  }

  // A character at i in state t.
  function Noted(fields: Fields, last: Last, t: St, i: nat): Fields
    requires InField(t) && (last.In? ==> last.f in fields)
  {
    var f := FieldOf(t);
    if last == In(f) then fields[f := fields[f].(len := fields[f].len + 1)] else fields[f := Span(i, 1)]
  }

  // A field that goes on.
  lemma LongerOrdered(fields: Fields, f: Uf, i: nat)
    requires Ordered(fields, i) && f in fields && End(fields[f]) == i && UpTo(fields, f)
    ensures Ordered(fields[f := fields[f].(len := fields[f].len + 1)], i + 1)
  {
    var now := fields[f := fields[f].(len := fields[f].len + 1)];
    forall g, h | g in now && h in now && Place(g) < Place(h) ensures End(now[g]) <= now[h].off {
      assert g in fields && h in fields && g != f;
    }
  }

  // A field that begins behind all others.
  lemma NextOrdered(fields: Fields, f: Uf, i: nat)
    requires Ordered(fields, i) && f !in fields && UpTo(fields, f)
    ensures Ordered(fields[f := Span(i, 1)], i + 1)
  {}

  lemma NotedOrdered(fields: Fields, last: Last, t: St, i: nat)
    requires InField(t) && Ordered(fields, i) && (last.In? ==> last.f in fields)
    requires if last == In(FieldOf(t)) then End(fields[FieldOf(t)]) == i && UpTo(fields, FieldOf(t))
             else FieldOf(t) !in fields && UpTo(fields, FieldOf(t))
    ensures var now := Noted(fields, last, t, i);
            Ordered(now, i + 1) && FieldOf(t) in now && End(now[FieldOf(t)]) == i + 1
              && now.Keys == fields.Keys + {FieldOf(t)}
  {
    hide Ordered, UpTo;
    var f := FieldOf(t);
    if last == In(f) { LongerOrdered(fields, f, i); } else { NextOrdered(fields, f, i); }
  }

  // The sign before a field that begins at i.
  predicate SignBefore(buf: string, f: Uf, i: nat) {
    match f
    case UfPath => Byte(buf, i, '/') || Byte(buf, i, '*')
    case UfQuery => Byte(buf, i - 1, '?')
    case UfFragment => Byte(buf, i - 1, '#')
    case _ => f == UfHost
  }

  lemma NotedSigned(buf: string, fields: Fields, last: Last, t: St, i: nat)
    requires InField(t) && Signed(buf, fields) && (last.In? ==> last.f in fields) && !t.Schema?
    requires last != In(FieldOf(t)) ==> SignBefore(buf, FieldOf(t), i)
    ensures Signed(buf, Noted(fields, last, t, i))
  {}

  lemma UpToMore(fields: Fields, now: Fields, f: Uf, g: Uf)
    requires UpTo(fields, f) && now.Keys == fields.Keys + {g} && Place(f) <= Place(g) && g != UfUserinfo && g != UfPort
    ensures UpTo(now, g)
  {}

  lemma UpToLater(fields: Fields, f: Uf, g: Uf)
    requires UpTo(fields, f) && Place(f) <= Place(g)
    ensures UpTo(fields, g) && (Place(f) < Place(g) ==> g !in fields)
  {}

  lemma HostChar(c: char)
    ensures var t := ServerChar(c); t.ReqPath? || t.QueryStart? || t.ServerWithAt? || t.Server? || t.Dead?
    ensures ServerChar(c).ReqPath? ==> c == '/'
    ensures ServerChar(c).QueryStart? ==> c == '?'
  {}

  predicate BeforeHost(s: St) { s.ReqSpaces? || s.Schema? || s.SchemaSlash? || s.SchemaSlashSlash? }

  // One character, up to the host.
  lemma EarlyChar(buf: string, i: nat, s: St, fields: Fields, last: Last)
    requires i < |buf| && BeforeHost(s) && Ordered(fields, i) && Knows(buf, i, s, fields) && LastFits(s, last, fields)
    ensures var t := UrlChar(s, buf[i]);
            t.Dead? || (UrlState(t) && var now := if InField(t) then Noted(fields, last, t, i) else fields;
                        Ordered(now, i + 1) && Knows(buf, i + 1, t, now))
  {
    hide Ordered;
    var t := UrlChar(s, buf[i]);
    if InField(t) { NotedOrdered(fields, last, t, i); } else { OrderedMore(fields, i); }
  }

  lemma OrderedMore(fields: Fields, i: nat)
    requires Ordered(fields, i)
    ensures Ordered(fields, i + 1)
  {}

  // What a character does from state s, where at most the fields up to f are
  // set and signed, and the sign before the next field is in place.
  lemma FieldChar(buf: string, i: nat, s: St, t: St, f: Uf, fields: Fields, last: Last)
    requires i < |buf| && Ordered(fields, i) && LastFits(s, last, fields) && UpTo(fields, f) && Signed(buf, fields)
    requires t.Server? || t.ServerWithAt? || t.ReqPath? || t.Query? || t.Fragment?
    requires f != UfUserinfo && f != UfPort && Place(f) <= Place(FieldOf(t))
    requires if InField(s) && FieldOf(s) == FieldOf(t) then f == FieldOf(t) && End(fields[f]) == i
             else Place(f) < Place(FieldOf(t)) && SignBefore(buf, FieldOf(t), i)
    ensures var now := Noted(fields, last, t, i); Ordered(now, i + 1) && Knows(buf, i + 1, t, now)
  {
    hide Ordered, Signed, UpTo, SignBefore, InField, FieldOf, Knows, LastFits;
    FieldState(t);
    UpToLater(fields, f, FieldOf(t));
    LastIs(s, last, fields);
    NotedOrdered(fields, last, t, i);
    NotedSigned(buf, fields, last, t, i);
    UpToMore(fields, Noted(fields, last, t, i), f, FieldOf(t));
    KnowsField(buf, i + 1, t, Noted(fields, last, t, i));
  }

  lemma LastIs(s: St, last: Last, fields: Fields)
    requires LastFits(s, last, fields)
    ensures (last.In? ==> last.f in fields) && (InField(s) ==> last == In(FieldOf(s)))
  {}

  lemma KnowsField(buf: string, i: nat, t: St, fields: Fields)
    requires t.Server? || t.ServerWithAt? || t.ReqPath? || t.Query? || t.Fragment?
    requires UpTo(fields, FieldOf(t)) && FieldOf(t) in fields && End(fields[FieldOf(t)]) == i && Signed(buf, fields)
    ensures Knows(buf, i, t, fields)
  {}

  lemma FieldState(t: St)
    requires t.Server? || t.ServerWithAt? || t.ReqPath? || t.Query? || t.Fragment?
    ensures InField(t) && FieldOf(t) != UfSchema && FieldOf(t) != UfUserinfo && FieldOf(t) != UfPort && !t.Schema?
  {}

  // Before the host: no field, or a schema with all of its signs.
  lemma StartSigned(buf: string, i: nat, fields: Fields)
    requires Knows(buf, i, ServerStart, fields)
    ensures UpTo(fields, UfSchema) && Signed(buf, fields)
  {
    if fields != map[] { assert fields.Keys == {UfSchema}; }
  }

  // The host.
  lemma HostStep(buf: string, i: nat, s: St, fields: Fields, last: Last)
    requires i < |buf| && (s.ServerStart? || s.Server? || s.ServerWithAt?)
    requires Ordered(fields, i) && Knows(buf, i, s, fields) && LastFits(s, last, fields)
    ensures var t := UrlChar(s, buf[i]);
            t.Dead? || (UrlState(t) && var now := if InField(t) then Noted(fields, last, t, i) else fields;
                        Ordered(now, i + 1) && Knows(buf, i + 1, t, now))
  {
    hide Ordered, ServerChar, Signed, UpTo;
    var c := buf[i];
    HostChar(c);
    var t := UrlChar(s, c);
    OrderedMore(fields, i);
    if s.ServerStart? { StartSigned(buf, i, fields); }
    var f := if s.ServerStart? then UfSchema else UfHost;
    if t.Server? || t.ServerWithAt? || t.ReqPath? {
      FieldChar(buf, i, s, t, f, fields, last);
    } else if t.QueryStart? {
      UpToLater(fields, f, UfPath);
    }
  }

  // The path and what follows it.
  lemma LateChar(buf: string, i: nat, s: St, fields: Fields, last: Last)
    requires i < |buf| && (s.ReqPath? || s.QueryStart? || s.Query? || s.FragmentStart? || s.Fragment?)
    requires Ordered(fields, i) && Knows(buf, i, s, fields) && LastFits(s, last, fields)
    ensures var t := UrlChar(s, buf[i]);
            t.Dead? || (UrlState(t) && var now := if InField(t) then Noted(fields, last, t, i) else fields;
                        Ordered(now, i + 1) && Knows(buf, i + 1, t, now))
  {
    hide Ordered, ServerChar, IsUrlChar, Signed, UpTo;
    var t := UrlChar(s, buf[i]);
    OrderedMore(fields, i);
    var f := if s.ReqPath? || s.QueryStart? then UfPath else if s.Query?
      || s.FragmentStart? then UfQuery else UfFragment;
    if t.ReqPath? || t.Query? || t.Fragment? {
      FieldChar(buf, i, s, t, f, fields, last);
    } else if t.FragmentStart? {
      UpToLater(fields, f, UfQuery);
    }
  }

  // The state of the loop over the URL; foundAt says that an at sign has been
  // met in the server part.
  datatype Scan = Scan(s: St, last: Last, fields: Fields, foundAt: bool)

  function ScanChar(x: Scan, c: char, i: nat): Scan
    requires x.last.In? ==> x.last.f in x.fields
  {
    var t := UrlChar(x.s, c);
    if InField(t) then Scan(t, In(FieldOf(t)), Noted(x.fields, x.last, t, i), x.foundAt || t.ServerWithAt?)
      else x.(s := t)
  }

  // The loop over the first n bytes.
  function ScanTo(buf: string, connect: bool, n: nat): (x: Scan)
    requires n <= |buf|
    ensures x.last.In? ==> x.last.f in x.fields
  {
    if n == 0 then Scan(if connect then ServerStart else ReqSpaces, NoField, map[], false)
    else ScanChar(ScanTo(buf, connect, n - 1), buf[n - 1], n - 1)
  }

  lemma UrlCharKnows(buf: string, i: nat, x: Scan)
    requires i < |buf| && (BeforeHost(x.s) || UrlState(x.s)) && Ordered(x.fields, i) && Knows(buf, i, x.s, x.fields)
    requires LastFits(x.s, x.last, x.fields)
    ensures var y := ScanChar(x, buf[i], i);
            y.s.Dead? || (UrlState(y.s) && Ordered(y.fields, i + 1) && Knows(buf, i + 1, y.s, y.fields)
              && LastFits(y.s, y.last, y.fields))
  {
    hide Ordered, Knows;
    if BeforeHost(x.s) { EarlyChar(buf, i, x.s, x.fields, x.last); }
    else if x.s.ServerStart? || x.s.Server? || x.s.ServerWithAt? { HostStep(buf, i, x.s, x.fields, x.last); }
    else { LateChar(buf, i, x.s, x.fields, x.last); }
  }

  lemma {:induction false} ScanKnows(buf: string, connect: bool, n: nat)
    requires n <= |buf|
    ensures var x := ScanTo(buf, connect, n);
            x.s.Dead? || ((BeforeHost(x.s) || UrlState(x.s)) && Ordered(x.fields, n) && Knows(buf, n, x.s, x.fields)
                          && LastFits(x.s, x.last, x.fields))
    decreases n
  {
    if n > 0 {
      hide Ordered, Knows, LastFits, BeforeHost, UrlState;
      ScanKnows(buf, connect, n - 1);
      var x := ScanTo(buf, connect, n - 1);
      if x.s.Dead? { StaysDead(x, buf[n - 1], n - 1); } else { UrlCharKnows(buf, n - 1, x); }
    }
  }

  lemma StaysDead(x: Scan, c: char, i: nat)
    requires x.s.Dead? && (x.last.In? ==> x.last.f in x.fields)
    ensures ScanChar(x, c, i) == x
  {}

  // ---------- the second machine ----------

  datatype HostSt =
    | HostDead | UserinfoStart | UserinfoIn | HostStart | V6Start | HostIn | V6In | V6End | ZoneStart | ZoneIn
      | PortStart | PortIn

  predicate IsHostChar(c: char) { IsAlpha(c) || IsNum(c) || c == '.' || c == '-' }

  predicate IsZoneChar(c: char) { IsAlpha(c) || IsNum(c) || c in "%.-_~" }

  // http_parse_host_char
  function HostNext(s: HostSt, c: char): HostSt {
    match s
    case UserinfoStart => if c == '@' then HostStart else if IsUserinfo(c) then UserinfoIn else HostDead
    case UserinfoIn => if c == '@' then HostStart else if IsUserinfo(c) then UserinfoIn else HostDead
    case HostStart => if c == '[' then V6Start else if IsHostChar(c) then HostIn else HostDead
    case HostIn => if IsHostChar(c) then HostIn else if c == ':' then PortStart else HostDead
    case V6End => if c == ':' then PortStart else HostDead
    case V6Start => if Unhex(c) != -1 || c == ':' || c == '.' then V6In else HostDead
    case V6In => if c == ']' then V6End else if Unhex(c) != -1 || c == ':'
      || c == '.' then V6In else if c == '%' then ZoneStart else HostDead
    case ZoneStart => if IsZoneChar(c) then ZoneIn else HostDead
    case ZoneIn => if c == ']' then V6End else if IsZoneChar(c) then ZoneIn else HostDead
    case PortStart => if IsNum(c) then PortIn else HostDead
    case PortIn => if IsNum(c) then PortIn else HostDead
    case HostDead => HostDead
  }

  datatype HostScan = HostScan(s: HostSt, fields: Fields)

  function Longer(fields: Fields, f: Uf): Fields
    requires f in fields
  {
    fields[f := fields[f].(len := fields[f].len + 1)]
  }

  // What a character at i that leads from s to t does to the fields.
  function HostFields(s: HostSt, t: HostSt, f: Fields, i: nat): Fields
    requires UfHost in f && (s.PortIn? ==> UfPort in f) && (s.UserinfoIn? ==> UfUserinfo in f)
  {
    match t
    case HostIn => if s.HostIn? then Longer(f, UfHost) else f[UfHost := Span(i, f[UfHost].len + 1)]
    case V6In => if s.V6In? then Longer(f, UfHost) else f[UfHost := Span(i, f[UfHost].len + 1)]
    case ZoneStart => Longer(f, UfHost)
    case ZoneIn => Longer(f, UfHost)
    case PortIn => if s.PortIn? then Longer(f, UfPort) else f[UfPort := Span(i, 1)]
    case UserinfoIn => if s.UserinfoIn? then Longer(f, UfUserinfo) else f[UfUserinfo := Span(i, 1)]
    case _ => f
  }

  function HostByte(x: HostScan, c: char, i: nat): HostScan
    requires UfHost in x.fields && (x.s.PortIn? ==> UfPort in x.fields) && (x.s.UserinfoIn? ==> UfUserinfo in x.fields)
  {
    var t := HostNext(x.s, c);
    HostScan(t, HostFields(x.s, t, x.fields, i))
  }

  // The loop of http_parse_host up to byte n.
  function HostTo(buf: string, foundAt: bool, fields: Fields, n: nat): (x: HostScan)
    requires UfHost in fields && fields[UfHost].off <= n <= |buf|
    ensures UfHost in x.fields && (x.s.PortIn? ==> UfPort in x.fields) && (x.s.UserinfoIn? ==> UfUserinfo in x.fields)
    decreases n
  {
    if n == fields[UfHost].off then HostScan(if foundAt then UserinfoStart else HostStart,
      fields[UfHost := fields[UfHost].(len := 0)])
    else HostByte(HostTo(buf, foundAt, fields, n - 1), buf[n - 1], n - 1)
  }

  // The states in which a host may end.
  predicate HostMayEnd(s: HostSt) { s.HostIn? || s.V6End? || s.PortIn? }

  // ---------- what the second machine knows ----------

  // Only the three fields within the host have changed.
  predicate Beside(fields: Fields, now: Fields) {
    && (forall f :: f in fields && f != UfHost ==> f in now && now[f] == fields[f])
    && (forall f :: f in now && f !in fields ==> f == UfUserinfo || f == UfPort)
    && UfHost in now
  }

  // The user information, if there is any, ends before byte x.
  predicate UserEnds(buf: string, fields: Fields, a: nat, x: nat) {
    UfUserinfo in fields ==>
      var u := fields[UfUserinfo]; u.off == a && u.len > 0 && End(u) < x && Byte(buf, End(u), '@')
  }

  // The host itself: plain characters, or what stands between brackets.
  predicate HostPlain(buf: string, h: Span) {
    End(h) <= |buf| && forall k :: h.off <= k < End(h) ==> IsHostChar(buf[k])
  }

  predicate HostBegun(buf: string, fields: Fields, a: nat, n: nat) {
    UfHost in fields && var h := fields[UfHost];
      a <= h.off && h.len > 0 && End(h) <= n
      && UserEnds(buf, fields, a, h.off)
  }

  predicate HostKnows(buf: string, a: nat, n: nat, s: HostSt, fields: Fields) {
    UfHost in fields
    && var h := fields[UfHost];
       && (!s.PortIn? ==> UfPort !in fields)
       && match s
          case UserinfoStart => n == a && UfUserinfo !in fields && h.len == 0
          case UserinfoIn => UfUserinfo in fields && fields[UfUserinfo].off == a && End(fields[UfUserinfo]) == n
            && n > a && h.len == 0
          case HostStart => h.len == 0 && UserEnds(buf, fields, a, n)
          case V6Start => h.len == 0 && UserEnds(buf, fields, a, n) && Byte(buf, n - 1, '[')
          case HostIn => HostBegun(buf, fields, a, n) && End(h) == n && HostPlain(buf, h)
          case V6In => HostBegun(buf, fields, a, n) && End(h) == n && Byte(buf, h.off - 1, '[')
          case ZoneStart => HostBegun(buf, fields, a, n) && End(h) == n && Byte(buf, h.off - 1, '[')
          case ZoneIn => HostBegun(buf, fields, a, n) && End(h) == n && Byte(buf, h.off - 1, '[')
          case V6End => HostBegun(buf, fields, a, n) && Byte(buf, h.off - 1, '[') && Byte(buf, End(h), ']')
            && End(h) < n
          case PortStart =>
            HostBegun(buf, fields, a, n) && End(h) < n && Byte(buf, n - 1, ':') && HostClosed(buf, h)
          case PortIn =>
            && UfPort in fields && var p := fields[UfPort];
            && HostBegun(buf, fields, a, n) && End(h) < p.off && p.len > 0 && End(p) == n && Byte(buf, p.off - 1, ':')
               && AllDigits(buf, p)
            && HostClosed(buf, h)
          case HostDead => false
  }

  predicate HostClosed(buf: string, h: Span) {
    HostPlain(buf, h) || (Byte(buf, h.off - 1, '[') && Byte(buf, End(h), ']'))
  }

  predicate InUser(s: HostSt) { s.UserinfoStart? || s.UserinfoIn? || s.HostStart? || s.V6Start? }

  lemma UserByte(buf: string, a: nat, i: nat, x: HostScan)
    requires a <= i < |buf| && InUser(x.s) && HostKnows(buf, a, i, x.s, x.fields)
    ensures var y := HostByte(x, buf[i], i); y.s.HostDead? || HostKnows(buf, a, i + 1, y.s, y.fields)
  {
    hide IsUserinfo, IsHostChar, Unhex;
  }

  lemma PlainByte(buf: string, a: nat, i: nat, x: HostScan)
    requires a <= i < |buf| && x.s.HostIn? && HostKnows(buf, a, i, x.s, x.fields)
    ensures var y := HostByte(x, buf[i], i); y.s.HostDead? || HostKnows(buf, a, i + 1, y.s, y.fields)
  {
    hide IsHostChar;
  }

  lemma BracketByte(buf: string, a: nat, i: nat, x: HostScan)
    requires a <= i < |buf| && (x.s.V6In? || x.s.ZoneStart? || x.s.ZoneIn? || x.s.V6End?)
             && HostKnows(buf, a, i, x.s, x.fields)
    ensures var y := HostByte(x, buf[i], i); y.s.HostDead? || HostKnows(buf, a, i + 1, y.s, y.fields)
  {
    hide IsZoneChar, Unhex, HostPlain;
  }

  lemma PortByte(buf: string, a: nat, i: nat, x: HostScan)
    requires a <= i < |buf| && (x.s.PortStart? || x.s.PortIn?) && HostKnows(buf, a, i, x.s, x.fields)
    ensures var y := HostByte(x, buf[i], i); y.s.HostDead? || HostKnows(buf, a, i + 1, y.s, y.fields)
  {
    hide HostPlain, IsNum;
  }

  lemma BesideMore(fields: Fields, x: HostScan, c: char, i: nat)
    requires Beside(fields, x.fields) && (x.s.PortIn? ==> UfPort in x.fields)
             && (x.s.UserinfoIn? ==> UfUserinfo in x.fields)
    requires UfPort !in fields && UfUserinfo !in fields
    ensures Beside(fields, HostByte(x, c, i).fields)
  {
    hide HostNext;
  }

  lemma {:induction false} HostToKnows(buf: string, foundAt: bool, fields: Fields, n: nat)
    requires UfHost in fields && fields[UfHost].off <= n <= |buf| && UfPort !in fields && UfUserinfo !in fields
    ensures var x := HostTo(buf, foundAt, fields, n);
            Beside(fields, x.fields) && (x.s.HostDead? || HostKnows(buf, fields[UfHost].off, n, x.s, x.fields))
    decreases n
  {
    hide HostKnows, HostTo, Beside;
    var a := fields[UfHost].off;
    if n == a {
      HostFirst(buf, foundAt, fields);
    } else {
      HostToKnows(buf, foundAt, fields, n - 1);
      HostLater(buf, foundAt, fields, n);
      HostByteKnows(buf, a, n - 1, fields, HostTo(buf, foundAt, fields, n - 1));
    }
  }

  lemma HostFirst(buf: string, foundAt: bool, fields: Fields)
    requires UfHost in fields && fields[UfHost].off <= |buf| && UfPort !in fields && UfUserinfo !in fields
    ensures var x := HostTo(buf, foundAt, fields, fields[UfHost].off);
            Beside(fields, x.fields) && HostKnows(buf, fields[UfHost].off, fields[UfHost].off, x.s, x.fields)
  {}

  lemma HostBegins(buf: string, foundAt: bool, fields: Fields)
    requires UfHost in fields && fields[UfHost].off <= |buf|
    ensures HostTo(buf, foundAt, fields, fields[UfHost].off)
            == HostScan(if foundAt then UserinfoStart else HostStart, fields[UfHost := fields[UfHost].(len := 0)])
  {}

  lemma HostLater(buf: string, foundAt: bool, fields: Fields, n: nat)
    requires UfHost in fields && fields[UfHost].off < n <= |buf|
    ensures HostTo(buf, foundAt, fields, n) == HostByte(HostTo(buf, foundAt, fields, n - 1), buf[n - 1], n - 1)
  {}

  lemma HostByteKnows(buf: string, a: nat, i: nat, fields: Fields, x: HostScan)
    requires a <= i < |buf| && UfPort !in fields && UfUserinfo !in fields && UfHost in x.fields
    requires (x.s.PortIn? ==> UfPort in x.fields) && (x.s.UserinfoIn? ==> UfUserinfo in x.fields)
    requires Beside(fields, x.fields) && (x.s.HostDead? || HostKnows(buf, a, i, x.s, x.fields))
    ensures var y := HostByte(x, buf[i], i);
            Beside(fields, y.fields)
            && (y.s.HostDead? || HostKnows(buf, a, i + 1, y.s, y.fields))
  {
    hide HostKnows, HostNext, HostByte, Beside;
    BesideMore(fields, x, buf[i], i);
    if x.s.HostDead? { HostStaysDead(x, buf[i], i); }
    else if InUser(x.s) { UserByte(buf, a, i, x); }
    else if x.s.HostIn? { PlainByte(buf, a, i, x); }
    else if x.s.PortStart? || x.s.PortIn? { PortByte(buf, a, i, x); }
    else { BracketByte(buf, a, i, x); }
  }

  lemma HostStaysDead(x: HostScan, c: char, i: nat)
    requires x.s.HostDead? && UfHost in x.fields
    ensures HostByte(x, c, i) == x
  {}

  // ---------- the whole ----------

  // What http_parser_parse_url leaves behind when it returns 0.
  datatype Outcome = Refused | Parsed(fields: Fields, port: nat)

  // strtoul of the port's digits.
  function PortOf(buf: string, fields: Fields): nat {
    if UfPort in fields && AllDigits(buf, fields[UfPort]) then Decimal(buf[fields[UfPort].off..End(fields[UfPort])])
      else 0
  }

  function ParseUrl(buf: string, connect: bool): Outcome {
    var x := ScanTo(buf, connect, |buf|);
    if x.s.Dead? || (UfSchema in x.fields && UfHost !in x.fields) then Refused
    else if UfHost in x.fields && End(x.fields[UfHost]) <= |buf| then
      var y := HostTo(buf, x.foundAt, x.fields, End(x.fields[UfHost]));
      var port := PortOf(buf, y.fields);
      if !HostMayEnd(y.s) || (connect && y.fields.Keys != {UfHost, UfPort})
        || port > 0xffff then Refused else Parsed(y.fields, port)
    else if connect then Refused
    else Parsed(x.fields, 0)
  }

  lemma HostInside(buf: string, connect: bool)
    requires var x := ScanTo(buf, connect, |buf|); !x.s.Dead? && UfHost in x.fields
    ensures var f := ScanTo(buf, connect, |buf|).fields; End(f[UfHost]) <= |buf| && UfPort !in f && UfUserinfo !in f
  {
    ScanKnows(buf, connect, |buf|);
    var x := ScanTo(buf, connect, |buf|);
    NoInner(buf, |buf|, x.s, x.fields);
  }

  lemma NoInner(buf: string, n: nat, s: St, fields: Fields)
    requires Knows(buf, n, s, fields)
    ensures UfPort !in fields && UfUserinfo !in fields
  {}

  // Cutting the host field into its parts keeps the slices apart and in order.
  lemma SplitOrdered(buf: string, fields: Fields, now: Fields, s: HostSt)
    requires Ordered(fields, |buf|) && UfHost in fields && UfPort !in fields && UfUserinfo !in fields
             && Beside(fields, now)
    requires HostKnows(buf, fields[UfHost].off, End(fields[UfHost]), s, now) && HostMayEnd(s)
    ensures Ordered(now, |buf|) && HostSigned(buf, now) && HostClosed(buf, now[UfHost])
  {
    hide HostPlain, IsNum;
    SplitInside(buf, fields, now, s);
    forall f, g | f in now && g in now && Place(f) < Place(g) ensures End(now[f]) <= now[g].off {
      OutsideSplit(fields, |buf|, now, f, g);
    }
    forall f | f in now && !Inner(f) ensures 0 < now[f].len && End(now[f]) <= |buf| { KeptOutside(fields, now, f); }
  }

  predicate Inner(f: Uf) { f.UfUserinfo? || f.UfHost? || f.UfPort? }

  // The parts of the host field lie within it, in order.
  lemma SplitInside(buf: string, fields: Fields, now: Fields, s: HostSt)
    requires UfHost in fields && HostKnows(buf, fields[UfHost].off, End(fields[UfHost]), s, now) && HostMayEnd(s)
    ensures forall f :: f in now && Inner(f) ==>
            fields[UfHost].off <= now[f].off && 0 < now[f].len
            && End(now[f]) <= End(fields[UfHost])
    ensures forall f, g :: f in now && g in now && Inner(f) && Inner(g) && Place(f) < Place(g) ==>
            End(now[f]) <= now[g].off
    ensures HostSigned(buf, now) && UfHost in now && HostClosed(buf, now[UfHost])
  {
    hide HostPlain, IsNum;
  }

  lemma KeptOutside(fields: Fields, now: Fields, f: Uf)
    requires Beside(fields, now) && f in now && !Inner(f)
    ensures f in fields && now[f] == fields[f]
  {}

  lemma OrderedPair(fields: Fields, n: nat, f: Uf, g: Uf)
    requires Ordered(fields, n) && f in fields && g in fields && Place(f) < Place(g)
    ensures End(fields[f]) <= fields[g].off
  {}

  // The host's place among the fields around it.
  lemma AroundHost(f: Uf, g: Uf)
    requires Place(f) < Place(g)
    ensures Inner(f) && !Inner(g) ==> Place(UfHost) < Place(g)
    ensures !Inner(f) && Inner(g) ==> Place(f) < Place(UfHost)
  {}

  lemma OutsideSplit(fields: Fields, n: nat, now: Fields, f: Uf, g: Uf)
    requires Ordered(fields, n) && UfHost in fields && Beside(fields, now)
    requires f in now && g in now && Place(f) < Place(g)
    requires Inner(f) ==> End(now[f]) <= End(fields[UfHost])
    requires Inner(g) ==> fields[UfHost].off <= now[g].off
    requires Inner(f) && Inner(g) ==> End(now[f]) <= now[g].off
    ensures End(now[f]) <= now[g].off
  {
    hide Ordered, Beside, Place, Inner;
    AroundHost(f, g);
    if !Inner(f) { KeptOutside(fields, now, f); }
    if !Inner(g) { KeptOutside(fields, now, g); }
    if Inner(f) && !Inner(g) { OrderedPair(fields, n, UfHost, g); }
    else if !Inner(f) && Inner(g) { OrderedPair(fields, n, f, UfHost); }
    else if !Inner(f) { OrderedPair(fields, n, f, g); }
  }

  // Every field that is set is a non-empty slice of the buffer; the slices are
  // disjoint and stand in the order schema, user information, host, port, path,
  // query, fragment, with their signs around them; a schema comes with a host,
  // and the port is the number that its digits spell.
  lemma UrlLayout(buf: string, connect: bool)
    requires ParseUrl(buf, connect).Parsed?
    ensures var u := ParseUrl(buf, connect);
            && Ordered(u.fields, |buf|) && Signed(buf, u.fields) && HostSigned(buf, u.fields)
            && (UfSchema in u.fields || UfUserinfo in u.fields || UfPort in u.fields ==> UfHost in u.fields)
            && (UfHost in u.fields ==> HostClosed(buf, u.fields[UfHost]))
            && (connect ==> u.fields.Keys == {UfHost, UfPort})
            && u.port <= 0xffff
            && (if UfPort in u.fields then u.port == Decimal(buf[u.fields[UfPort].off..End(u.fields[UfPort])])
               else u.port == 0)
  {
    hide Ordered, HostKnows, HostTo, HostSigned, HostClosed, HostPlain, Decimal;
    var x := ScanTo(buf, connect, |buf|);
    ScanKnows(buf, connect, |buf|);
    ScanSigned(buf, |buf|, x.s, x.fields);
    if UfHost in x.fields {
      HostInside(buf, connect);
      HostToKnows(buf, x.foundAt, x.fields, End(x.fields[UfHost]));
      var y := HostTo(buf, x.foundAt, x.fields, End(x.fields[UfHost]));
      SplitOrdered(buf, x.fields, y.fields, y.s);
      StillSigned(buf, x.fields, y.fields);
      HostSignedDigits(buf, y.fields);
    } else {
      NoHost(buf, x.fields);
    }
  }

  // A scan that has not failed has all the signs of its fields, but for a
  // schema that nothing follows.
  lemma ScanSigned(buf: string, n: nat, s: St, fields: Fields)
    requires Knows(buf, n, s, fields) && (UfSchema in fields ==> UfHost in fields)
    ensures Signed(buf, fields) && UfUserinfo !in fields && UfPort !in fields
  {
    hide Byte;
    if s.ReqSpaces? || s.Schema? || s.SchemaSlash? || s.SchemaSlashSlash? || s.ServerStart? {
      EarlyHost(buf, n, s, fields);
    }
  }

  lemma EarlyHost(buf: string, n: nat, s: St, fields: Fields)
    requires Knows(buf, n, s, fields) && (s.ReqSpaces? || s.Schema? || s.SchemaSlash? || s.SchemaSlashSlash?
             || s.ServerStart?)
    requires UfSchema in fields ==> UfHost in fields
    ensures fields == map[]
  {}

  lemma StillSigned(buf: string, fields: Fields, now: Fields)
    requires Signed(buf, fields) && Beside(fields, now)
    ensures Signed(buf, now)
  {
    hide Byte;
  }

  lemma HostSignedDigits(buf: string, fields: Fields)
    requires HostSigned(buf, fields)
    ensures UfPort in fields ==> AllDigits(buf, fields[UfPort])
  {}

  lemma NoHost(buf: string, fields: Fields)
    requires UfUserinfo !in fields && UfPort !in fields
    ensures HostSigned(buf, fields)
  {}

  lemma {:induction false} DeadScan(buf: string, connect: bool, k: nat, n: nat)
    requires k <= n <= |buf| && ScanTo(buf, connect, k).s.Dead?
    ensures ScanTo(buf, connect, n).s.Dead?
    decreases n
  {
    if k < n {
      DeadScan(buf, connect, k, n - 1);
      StaysDead(ScanTo(buf, connect, n - 1), buf[n - 1], n - 1);
    }
  }

  lemma {:induction false} DeadHost(buf: string, foundAt: bool, fields: Fields, k: nat, n: nat)
    requires UfHost in fields && fields[UfHost].off <= k <= n <= |buf| && HostTo(buf, foundAt, fields, k).s.HostDead?
    ensures HostTo(buf, foundAt, fields, n).s.HostDead?
    decreases n
  {
    if k < n {
      DeadHost(buf, foundAt, fields, k, n - 1);
      HostStaysDead(HostTo(buf, foundAt, fields, n - 1), buf[n - 1], n - 1);
    }
  }

  // The port of a host that is accepted consists of digits.
  lemma PortDigits(buf: string, connect: bool)
    requires var x := ScanTo(buf, connect, |buf|);
             !x.s.Dead? && UfHost in x.fields && End(x.fields[UfHost]) <= |buf|
             && HostMayEnd(HostTo(buf, x.foundAt, x.fields, End(x.fields[UfHost])).s)
    ensures var x := ScanTo(buf, connect, |buf|);
            var now := HostTo(buf, x.foundAt, x.fields, End(x.fields[UfHost])).fields;
            UfPort in now ==> AllDigits(buf, now[UfPort])
  {
    hide HostTo, HostPlain, Knows, Decimal;
    var x := ScanTo(buf, connect, |buf|);
    HostInside(buf, connect);
    HostToKnows(buf, x.foundAt, x.fields, End(x.fields[UfHost]));
  }

  lemma NoPort(buf: string, connect: bool)
    requires var x := ScanTo(buf, connect, |buf|); !x.s.Dead? && UfHost !in x.fields
    ensures UfPort !in ScanTo(buf, connect, |buf|).fields
  {
    ScanKnows(buf, connect, |buf|);
    var x := ScanTo(buf, connect, |buf|);
    NoInner(buf, |buf|, x.s, x.fields);
  }

  lemma DecimalMore(s: string, i: nat)
    requires HttpLength.Digits(s) && i < |s| && IsNum(s[i])
    ensures HttpLength.Digits(s[..i]) && HttpLength.Digits(s[..i + 1])
            && Decimal(s[..i + 1]) == 10 * Decimal(s[..i]) + Num(s[i])
  {
    assert s[..i + 1][..i] == s[..i];
  }

  // strtoul of the digits of the span, with its limit.
  method Strtoul(buf: string, span: Span) returns (v: nat)
    requires AllDigits(buf, span)
    ensures HttpLength.Digits(buf[span.off..End(span)])
    ensures var n := Decimal(buf[span.off..End(span)]); v == if n > ULLONG_MAX then ULLONG_MAX else n
  {
    ghost var s := buf[span.off..End(span)];
    assert HttpLength.Digits(s);
    v := 0;
    var i := 0;
    assert s[..0] == "";
    while i < span.len
      invariant i <= span.len
      invariant HttpLength.Digits(s[..i]) && v == if Decimal(s[..i]) > ULLONG_MAX then ULLONG_MAX else Decimal(s[..i])
    {
      DecimalMore(s, i);
      v := 10 * v + Num(buf[span.off + i]);
      if v > ULLONG_MAX { v := ULLONG_MAX; }
      i := i + 1;
    }
    assert s[..span.len] == s;
  }

  // ---------- the structure and its parser ----------

  class Url {
    var fields: Fields
    var port: nat

    // http_parser_url_init
    constructor ()
      ensures fields == map[] && port == 0
    {
      fields, port := map[], 0;
    }

    // The fields within the host, after the character at p.
    method NoteChar(s: HostSt, next: HostSt, p: nat)
      requires UfHost in fields && (s.PortIn? ==> UfPort in fields) && (s.UserinfoIn? ==> UfUserinfo in fields)
      modifies this`fields
      ensures fields == HostFields(s, next, old(fields), p)
    {
      if next.HostIn? {
        if !s.HostIn? { fields := fields[UfHost := fields[UfHost].(off := p)]; }
        fields := Longer(fields, UfHost);
      } else if next.V6In? {
        if !s.V6In? { fields := fields[UfHost := fields[UfHost].(off := p)]; }
        fields := Longer(fields, UfHost);
      } else if next.ZoneStart? || next.ZoneIn? {
        fields := Longer(fields, UfHost);
      } else if next.PortIn? {
        if !s.PortIn? { fields := fields[UfPort := Span(p, 0)]; }
        fields := Longer(fields, UfPort);
      } else if next.UserinfoIn? {
        if !s.UserinfoIn? { fields := fields[UfUserinfo := Span(p, 0)]; }
        fields := Longer(fields, UfUserinfo);
      }
    }

    // http_parse_host; true if the host is refused.
    method ParseHost(buf: string, foundAt: bool) returns (failed: bool)
      requires UfHost in fields && End(fields[UfHost]) <= |buf|
      modifies this`fields
      ensures failed == !HostMayEnd(HostTo(buf, foundAt, old(fields), End(old(fields[UfHost]))).s)
      ensures !failed ==> fields == HostTo(buf, foundAt, old(fields), End(old(fields[UfHost]))).fields
    {
      hide HostNext, HostTo;
      HostBegins(buf, foundAt, fields);
      ghost var before, n := fields, End(fields[UfHost]);
      var p, end := fields[UfHost].off, End(fields[UfHost]);
      fields := fields[UfHost := fields[UfHost].(len := 0)];
      var s := if foundAt then UserinfoStart else HostStart;
      while p < end
        invariant before[UfHost].off <= p <= end == n
        invariant HostTo(buf, foundAt, before, p) == HostScan(s, fields) && !s.HostDead?
        decreases end - p
      {
        var next := HostNext(s, buf[p]);
        if next.HostDead? {
          HostLater(buf, foundAt, before, p + 1);
          DeadHost(buf, foundAt, before, p + 1, n);
          return true;
        }
        ghost var was := fields;
        assert UfHost in fields && (s.PortIn? ==> UfPort in fields) && (s.UserinfoIn? ==> UfUserinfo in fields) by {
          assert HostTo(buf, foundAt, before, p) == HostScan(s, fields);
        }
        NoteChar(s, next, p);
        HostLater(buf, foundAt, before, p + 1);
        assert HostScan(next, fields) == HostByte(HostScan(s, was), buf[p], p);
        s := next;
        p := p + 1;
      }
      failed := !HostMayEnd(s);
    }

    // The loop of http_parser_parse_url; true if it meets a dead state.
    method ScanFields(buf: string, connect: bool) returns (dead: bool, foundAt: bool)
      modifies this`fields
      ensures dead == ScanTo(buf, connect, |buf|).s.Dead?
      ensures !dead ==> var x := ScanTo(buf, connect, |buf|); fields == x.fields && foundAt == x.foundAt
    {
      hide UrlChar;
      fields := map[];
      var s := if connect then ServerStart else ReqSpaces;
      var last := NoField;
      dead, foundAt := false, false;
      var p := 0;
      while p < |buf|
        invariant p <= |buf| && (last.In? ==> last.f in fields)
        invariant ScanTo(buf, connect, p) == Scan(s, last, fields, foundAt) && !s.Dead?
        decreases |buf| - p
      {
        s := UrlChar(s, buf[p]);
        if s.Dead? {
          DeadScan(buf, connect, p + 1, |buf|);
          return true, foundAt;
        }
        if InField(s) {
          if s.ServerWithAt? { foundAt := true; }
          var f := FieldOf(s);
          fields := Noted(fields, last, s, p);
          last := In(f);
        }
        p := p + 1;
      }
    }

    // http_parser_parse_url; true if the URL is refused.
    method Parse(buf: string, connect: bool) returns (failed: bool)
      requires |buf| <= MAX_URL
      modifies this
      ensures failed == ParseUrl(buf, connect).Refused?
      ensures !failed ==> ParseUrl(buf, connect) == Parsed(fields, port)
      ensures !failed ==>
                && Ordered(fields, |buf|) && Signed(buf, fields) && HostSigned(buf, fields) && port <= 0xffff
                && (connect ==> fields.Keys == {UfHost, UfPort})
    {
      hide ScanTo, HostTo, Ordered, Signed, HostSigned, Knows;
      port := 0;
      var foundAt;
      failed, foundAt := ScanFields(buf, connect);
      if failed || (UfSchema in fields && UfHost !in fields) { return true; }
      if UfHost in fields {
        HostInside(buf, connect);
        failed := ParseHost(buf, foundAt);
        if failed { return; }
        PortDigits(buf, connect);
      } else {
        NoPort(buf, connect);
      }
      if connect && fields.Keys != {UfHost, UfPort} { return true; }
      if UfPort in fields {
        var v := Strtoul(buf, fields[UfPort]);
        if v > 0xffff { return true; }
        port := v;
      }
      UrlLayout(buf, connect);
    }
  }
}
