// HTTP messages written from their parts (RFC 7230), and what a parser should
// report of them.  Nothing here looks at how the parser goes about it.
module HttpMessage {
  import opened HttpMachine
  import opened HttpStream

  // ---------- characters and words ----------

  predicate Letter(c: char) { 'a' <= c <= 'z' || 'A' <= c <= 'Z' }

  predicate Digit(c: char) { '0' <= c <= '9' }

  function Small(c: char): char { if 'A' <= c <= 'Z' then (c as int + 32) as char else c }

  // The word in lower case.
  function Folded(s: string): string { seq(|s|, i requires 0 <= i < |s| => Small(s[i])) }

  // tchar, section 3.2.6 of RFC 7230
  predicate TokenChar(c: char) {
    Letter(c) || Digit(c) || c == '!' || c == '#' || c == '$' || c == '%' || c == '&' || c == '\'' || c == '*'
    || c == '+' || c == '-' || c == '.' || c == '^' || c == '_' || c == '`' || c == '|' || c == '~'
  }

  predicate IsToken(s: string) { s != "" && forall i :: 0 <= i < |s| ==> TokenChar(s[i]) }

  // What a field value is made of: visible characters, octets above ASCII,
  // spaces and tabs.
  predicate ValueOctet(c: char) { c == '\t' || (' ' <= c < 256 as char && c != 127 as char) }

  predicate Octets(s: string) { forall i :: 0 <= i < |s| ==> ValueOctet(s[i]) }

  predicate Blanks(s: string) { forall i :: 0 <= i < |s| ==> s[i] == ' ' || s[i] == '\t' }

  predicate OnlySpaces(s: string) { forall i :: 0 <= i < |s| ==> s[i] == ' ' }

  predicate Numeral(s: string) { s != "" && forall i :: 0 <= i < |s| ==> Digit(s[i]) }

  function DigitValue(c: char): nat { if Digit(c) then c as int - '0' as int else 0 }

  // The number that decimal digits spell.
  function Number(s: string): nat {
    if s == "" then 0 else 10 * Number(s[..|s| - 1]) + DigitValue(s[|s| - 1])
  }

  predicate HexDigit(c: char) { Digit(c) || 'a' <= c <= 'f' || 'A' <= c <= 'F' }

  predicate HexNumeral(s: string) { s != "" && forall i :: 0 <= i < |s| ==> HexDigit(s[i]) }

  function HexValue(c: char): nat {
    if 'a' <= c <= 'f' then c as int - 'a' as int + 10 else if 'A' <= c <= 'F' then c as int - 'A' as int + 10
    else DigitValue(c)
  }

  function HexNumber(s: string): nat {
    if s == "" then 0 else 16 * HexNumber(s[..|s| - 1]) + HexValue(s[|s| - 1])
  }

  // ---------- the first line ----------

  const METHODS: seq<string> := ["DELETE", "GET", "HEAD", "POST", "PUT", "CONNECT", "OPTIONS", "TRACE", "COPY", "LOCK",
    "MKCOL", "MOVE", "PROPFIND", "PROPPATCH", "SEARCH", "UNLOCK", "BIND", "REBIND", "UNBIND", "ACL", "REPORT",
    "MKACTIVITY", "CHECKOUT", "MERGE", "M-SEARCH", "NOTIFY", "SUBSCRIBE", "UNSUBSCRIBE", "PATCH", "PURGE", "MKCALENDAR",
    "LINK", "UNLINK"]

  // A request target: a path, a whole URL, or for CONNECT a host.
  datatype Target =
    | PathTarget(first: char, rest: string, tail: Tail)
    | UrlTarget(scheme: string, host: string, slash: bool, rest: string, tail: Tail)
    | HostTarget(host: string)

  // The query and the fragment.
  datatype Tail = NoTail | QueryTail(query: string) | FragmentTail(fragment: string)
    | BothTail(query: string, fragment: string)

  predicate PathChar(c: char) { '!' <= c <= '~' && c != '#' && c != '?' }

  predicate HostChar(c: char) {
    Letter(c) || Digit(c) || c == '-' || c == '_' || c == '.' || c == '!' || c == '~' || c == '*' || c == '\''
    || c == '(' || c == ')' || c == '%' || c == ';' || c == ':' || c == '&' || c == '=' || c == '+' || c == '$'
    || c == ',' || c == '[' || c == ']'
  }

  predicate IsPath(s: string) { forall i :: 0 <= i < |s| ==> PathChar(s[i]) }

  predicate IsQuery(s: string) { forall i :: 0 <= i < |s| ==> PathChar(s[i]) || s[i] == '?' }

  predicate IsFragment(s: string) { forall i :: 0 <= i < |s| ==> PathChar(s[i]) || s[i] == '?' || s[i] == '#' }

  predicate IsScheme(s: string) { s != "" && forall i :: 0 <= i < |s| ==> Letter(s[i]) }

  // Userinfo, host and port; no two signs for the end of the userinfo in a row.
  predicate IsHost(s: string) {
    s != "" && (forall i :: 0 <= i < |s| ==> HostChar(s[i]) || s[i] == '@')
    && forall i :: 0 < i < |s| ==> s[i] != '@' || s[i - 1] != '@'
  }

  predicate ProperTail(t: Tail) {
    (t.QueryTail? || t.BothTail? ==> IsQuery(t.query)) && (t.FragmentTail? || t.BothTail? ==> IsFragment(t.fragment))
  }

  predicate ProperTarget(t: Target, connect: bool) {
    match t
    case PathTarget(first, rest, tail) => !connect && (first == '/' || first == '*') && IsPath(rest) && ProperTail(tail)
    case UrlTarget(scheme, host, slash, rest, tail) =>
      && !connect && IsScheme(scheme) && IsHost(host) && IsPath(rest) && ProperTail(tail)
      && (slash || (rest == "" && !tail.FragmentTail?))
    case HostTarget(host) => connect && IsHost(host)
  }

  function TailText(t: Tail): string {
    match t
    case NoTail => ""
    case QueryTail(query) => "?" + query
    case FragmentTail(fragment) => "#" + fragment
    case BothTail(query, fragment) => "?" + query + ("#" + fragment)
  }

  function TargetText(t: Target): string {
    match t
    case PathTarget(first, rest, tail) => [first] + (rest + TailText(tail))
    case UrlTarget(scheme, host, slash, rest, tail) =>
      scheme + "://" + host + ((if slash then "/" else "") + (rest + TailText(tail)))
    case HostTarget(host) => host
  }

  datatype Version = Version(major: string, minor: string)

  predicate ProperVersion(v: Version) {
    Numeral(v.major) && Numeral(v.minor) && Number(v.major) <= 999 && Number(v.minor) <= 999
  }

  function VersionText(v: Version): string { "HTTP/" + v.major + "." + v.minor }

  // ---------- header fields ----------

  // The value of a field, by what its name says it is.
  datatype Header =
    | PlainHeader(name: string, pad: string, text: string)
    | LengthHeader(name: string, pad: string, digits: string, after: string)
    | CodingHeader(name: string, pad: string, text: string)
    | UpgradeHeader(name: string, pad: string, text: string)
    | OptionsHeader(name: string, pad: string, options: seq<Option>)

  // A connection option with the spaces in front of it and after it.
  datatype Option = Option(before: string, word: string, after: string)

  function OptionsText(options: seq<Option>): string {
    if options == [] then ""
    else
      var n := |options| - 1;
      OptionsText(options[..n]) + (if n == 0 then "" else ",") + options[n].before + options[n].word + options[n].after
  }

  function HeaderValue(h: Header): string {
    match h
    case LengthHeader(_, _, digits, after) => digits + after
    case OptionsHeader(_, _, options) => OptionsText(options)
    case _ => h.text
  }

  function HeaderText(h: Header): string { h.name + ":" + h.pad + HeaderValue(h) + "\r\n" }

  const LENGTH_NAMES: set<string> := {"content-length"}
  const CODING_NAMES: set<string> := {"transfer-encoding"}
  const UPGRADE_NAMES: set<string> := {"upgrade"}
  const OPTIONS_NAMES: set<string> := {"connection", "proxy-connection"}

  // A text that does not begin with white space.
  predicate Trimmed(s: string) { Octets(s) && (s != "" ==> s[0] != ' ' && s[0] != '\t') }

  predicate ProperOption(o: Option) { OnlySpaces(o.before) && IsToken(o.word) && OnlySpaces(o.after) }

  predicate ProperHeader(h: Header) {
    var name := Folded(h.name);
    && IsToken(h.name) && Blanks(h.pad)
    && match h
       case PlainHeader(_, _, text) =>
         name !in LENGTH_NAMES + CODING_NAMES + UPGRADE_NAMES + OPTIONS_NAMES && Trimmed(text)
       case LengthHeader(_, _, digits, after) =>
         name in LENGTH_NAMES && Numeral(digits) && Number(digits) <= 18446744073709551609 && OnlySpaces(after)
       case CodingHeader(_, _, text) => name in CODING_NAMES && Trimmed(text)
       case UpgradeHeader(_, _, text) => name in UPGRADE_NAMES && Trimmed(text)
       case OptionsHeader(_, _, options) =>
         && name in OPTIONS_NAMES && options != [] && options[0].before == ""
         && forall i :: 0 <= i < |options| ==> ProperOption(options[i])
  }

  // ---------- what the headers say ----------

  datatype Length = NoLength | Length(n: nat)

  datatype Meant = Meant(chunked: bool, length: Length, keepAlive: bool, close: bool, upgradeOption: bool,
    upgrade: bool)

  // The one coding that is understood is chunked, alone.
  predicate SaysChunked(text: string) {
    |text| >= 7 && Folded(text[..7]) == "chunked" && OnlySpaces(text[7..])
  }

  // A word that breaks off: a part of an option's name, right before a comma.
  predicate Stub(o: Option) {
    var w := Folded(o.word);
    o.after == "" && (PartOf(w, "keep-alive") || PartOf(w, "close") || PartOf(w, "upgrade"))
  }

  predicate PartOf(w: string, name: string) { |w| < |name| && name[..|w|] == w }

  // How the parser listens at the beginning of an option.  It misses the one
  // after a stub, and hears none any more after one that begins with `_`, unless
  // that is the first one or a missed one.
  datatype Ear = Listening | Missing | Deaf

  function EarAt(options: seq<Option>, n: nat): Ear
    requires n <= |options|
  {
    if n == 0 then Listening
    else
      var o := options[n - 1];
      match EarAt(options, n - 1)
      case Listening =>
        if n > 1 && o.word != "" && o.word[0] == '_' then Deaf else if Stub(o) then Missing else Listening
      case Missing => Listening
      case Deaf => Deaf
  }

  predicate Asks(options: seq<Option>, word: string) {
    exists n :: 0 <= n < |options| && EarAt(options, n).Listening? && Folded(options[n].word) == word
  }

  function Reads(m: Meant, h: Header): Meant {
    match h
    case PlainHeader(_, _, _) => m
    case LengthHeader(_, _, digits, _) => m.(length := Length(Number(digits)))
    case CodingHeader(_, _, text) => m.(chunked := m.chunked || SaysChunked(text))
    case UpgradeHeader(_, _, text) => m.(upgrade := m.upgrade || text != "")
    case OptionsHeader(_, _, options) =>
      m.(keepAlive := m.keepAlive || Asks(options, "keep-alive"), close := m.close || Asks(options, "close"),
         upgradeOption := m.upgradeOption || Asks(options, "upgrade"))
  }

  const NOTHING_MEANT: Meant := Meant(false, NoLength, false, false, false, false)

  function Meaning(hs: seq<Header>): Meant {
    if hs == [] then NOTHING_MEANT else Reads(Meaning(hs[..|hs| - 1]), hs[|hs| - 1])
  }

  // At most one length, and not together with chunks.
  predicate ProperHeaders(hs: seq<Header>) {
    && (forall i :: 0 <= i < |hs| ==> ProperHeader(hs[i]))
    && (forall i, j :: 0 <= i < j < |hs| ==> !hs[i].LengthHeader? || !hs[j].LengthHeader?)
    && !(Meaning(hs).chunked && Meaning(hs).length.Length?)
  }

  function HeadersText(hs: seq<Header>): string {
    if hs == [] then "" else HeadersText(hs[..|hs| - 1]) + HeaderText(hs[|hs| - 1])
  }

  function HeaderEvents(hs: seq<Header>): seq<Event> {
    if hs == [] then []
    else HeaderEvents(hs[..|hs| - 1]) + [Data(Field, hs[|hs| - 1].name), Data(Value, HeaderValue(hs[|hs| - 1]))]
  }

  // ---------- bodies ----------

  datatype Chunk = Chunk(size: string, extension: string, data: string)

  datatype Body =
    | NoBody
    | SizedBody(bytes: string)
    | ChunkedBody(chunks: seq<Chunk>, last: string, extension: string, trailers: seq<Header>)
    | RestBody(bytes: string)

  predicate ProperExtension(s: string) {
    (s != "" ==> s[0] == ';' || s[0] == ' ') && forall i :: 0 <= i < |s| ==> s[i] != '\r' && s[i] < 256 as char
  }

  predicate ProperChunk(c: Chunk) {
    && HexNumeral(c.size) && HexNumber(c.size) == |c.data| && 0 < |c.data| <= 18446744073709551599
    && ProperExtension(c.extension) && Bytes(c.data)
  }

  function ChunkText(c: Chunk): string { c.size + c.extension + "\r\n" + c.data + "\r\n" }

  function ChunksText(cs: seq<Chunk>): string {
    if cs == [] then "" else ChunksText(cs[..|cs| - 1]) + ChunkText(cs[|cs| - 1])
  }

  predicate ProperBody(b: Body) {
    match b
    case NoBody => true
    case SizedBody(bytes) => bytes != "" && Bytes(bytes)
    case ChunkedBody(chunks, last, extension, trailers) =>
      && (forall i :: 0 <= i < |chunks| ==> ProperChunk(chunks[i]))
      && HexNumeral(last) && HexNumber(last) == 0 && ProperExtension(extension)
      && forall i :: 0 <= i < |trailers| ==> ProperHeader(trailers[i]) && trailers[i].PlainHeader?
    case RestBody(bytes) => Bytes(bytes)
  }

  function BodyText(b: Body): string {
    match b
    case NoBody => ""
    case SizedBody(bytes) => bytes
    case ChunkedBody(chunks, last, extension, trailers) =>
      ChunksText(chunks) + (last + extension + "\r\n" + HeadersText(trailers) + "\r\n")
    case RestBody(bytes) => bytes
  }

  // ---------- messages ----------

  datatype Message =
    | RequestMessage(verb: string, target: Target, version: Version, headers: seq<Header>, body: Body)
    | ResponseMessage(version: Version, status: string, reason: string, headers: seq<Header>, body: Body)

  function FirstLine(m: Message): string {
    match m
    case RequestMessage(verb, target, version, _, _) => verb + " " + TargetText(target) + " " + VersionText(version)
    case ResponseMessage(version, status, reason, _, _) => VersionText(version) + " " + status + " " + reason
  }

  function MessageText(m: Message): string {
    FirstLine(m) + "\r\n" + HeadersText(m.headers) + "\r\n" + BodyText(m.body)
  }

  // Responses that have no body, whatever the headers say (section 3.3.3).
  predicate Bodiless(status: nat) { 100 <= status <= 199 || status == 204 || status == 304 }

  // Does the connection change its protocol after this message?
  predicate Switches(m: Message) {
    (m.RequestMessage? && m.verb == "CONNECT") || (Meaning(m.headers).upgrade && Meaning(m.headers).upgradeOption)
  }

  predicate Framed(m: Message) {
    Meaning(m.headers).chunked || (Meaning(m.headers).length.Length? && Meaning(m.headers).length.n > 0)
  }

  // Only a response whose end nothing announces ends with its connection.
  predicate OpenEnded(m: Message) {
    && m.ResponseMessage? && !Bodiless(Number(m.status))
    && !Meaning(m.headers).chunked && Meaning(m.headers).length.NoLength?
  }

  // The body that the headers announce.
  predicate BodyFits(m: Message) {
    var w := Meaning(m.headers);
    if (m.RequestMessage? && m.verb == "CONNECT") || (Switches(m) && !Framed(m)) then m.body.NoBody?
    else if w.chunked then m.body.ChunkedBody?
    else if w.length.Length? then
      if w.length.n == 0 then m.body.NoBody? else m.body.SizedBody? && |m.body.bytes| == w.length.n
    else if OpenEnded(m) then m.body.RestBody?
    else m.body.NoBody?
  }

  predicate ProperMessage(m: Message) {
    && ProperVersion(m.version) && ProperHeaders(m.headers) && ProperBody(m.body) && BodyFits(m)
    && match m
       case RequestMessage(verb, target, version, _, _) =>
         verb in METHODS && ProperTarget(target, verb == "CONNECT") && version.major[0] != '0'
       case ResponseMessage(_, status, reason, _, _) => Numeral(status) && Number(status) <= 999 && Octets(reason)
  }

  // Is the connection kept for another message (section 6.3)?  HTTP/1.1 keeps
  // it unless told otherwise, HTTP/1.0 if told so.
  predicate Persists(m: Message) {
    var w := Meaning(m.headers);
    !OpenEnded(m)
    && if Number(m.version.major) > 0 && Number(m.version.minor) > 0 then !w.close else w.keepAlive
  }

  // ---------- what the callbacks tell ----------

  const UNKNOWN: nat := 18446744073709551615

  function Announced(m: Message): nat {
    if Meaning(m.headers).length.Length? then Meaning(m.headers).length.n else UNKNOWN
  }

  function ChunkEvents(cs: seq<Chunk>): seq<Event> {
    if cs == [] then []
    else
      var c := cs[|cs| - 1];
      ChunkEvents(cs[..|cs| - 1]) + [Noted(ChunkHeader, |c.data|), Data(Kind.Body, c.data), Noted(ChunkComplete, 0)]
  }

  function BodyEvents(m: Message): seq<Event> {
    match m.body
    case NoBody => [Noted(MessageComplete, Announced(m))]
    case SizedBody(bytes) => [Data(Kind.Body, bytes), Noted(MessageComplete, 0)]
    case ChunkedBody(chunks, _, _, trailers) =>
      ChunkEvents(chunks) + [Noted(ChunkHeader, 0)] + HeaderEvents(trailers)
      + [Noted(ChunkComplete, 0), Noted(MessageComplete, 0)]
    case RestBody(bytes) => if bytes == "" then [] else [Data(Kind.Body, bytes)]
  }

  function LineEvents(m: Message): seq<Event> {
    match m
    case RequestMessage(_, target, _, _, _) => [Data(Kind.Url, TargetText(target))]
    case ResponseMessage(_, _, reason, _, _) => if reason == "" then [] else [Data(Kind.Status, reason)]
  }

  function MessageEvents(m: Message): seq<Event> {
    [Noted(MessageBegin, UNKNOWN)] + LineEvents(m) + HeaderEvents(m.headers) + [Noted(HeadersComplete, Announced(m))]
    + BodyEvents(m)
  }

  // ---------- against the RFC ----------

  // The body that section 3.3.3 of RFC 7230 gives a message whose framing
  // headers do not contradict each other.
  predicate RfcBodyFits(m: Message) {
    var w := Meaning(m.headers);
    if m.ResponseMessage? && Bodiless(Number(m.status)) then m.body.NoBody?
    else if w.chunked then m.body.ChunkedBody?
    else if w.length.Length? then
      if w.length.n == 0 then m.body.NoBody? else m.body.SizedBody? && |m.body.bytes| == w.length.n
    else if m.RequestMessage? then m.body.NoBody?
    else m.body.RestBody?
  }

  // Where the protocol stays, the parser's rule is that of the RFC, but for a
  // response without a body whose headers announce one: there they disagree.
  lemma RfcAgreement(m: Message)
    requires !Switches(m)
    ensures if m.ResponseMessage? && Bodiless(Number(m.status)) && Framed(m) then !BodyFits(m) || !RfcBodyFits(m)
            else BodyFits(m) <==> RfcBodyFits(m)
  {
    hide Meaning, Number;
  }

  // `clos,close`: the option after one that breaks off is missed.
  lemma StubHides()
    ensures !Asks([Option("", "clos", ""), Option("", "close", "")], "close")
  {
    var options := [Option("", "clos", ""), Option("", "close", "")];
    assert Folded("clos") == "clos" && "close"[..4] == "clos";
    assert Stub(options[0]);
    assert EarAt(options, 0) == Listening && EarAt(options, 1) == Missing;
  }
}
