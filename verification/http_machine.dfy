// The states of 3rd/http_parser/http_parser.c and what one byte does to the
// parser, in strict mode and without lenient headers.  Bytes are characters
// below 256.
module HttpMachine {
  const ULLONG_MAX: nat := 0xFFFF_FFFF_FFFF_FFFF
  const TWO64: nat := 0x1_0000_0000_0000_0000

  datatype Type = Request | Response | Both

  datatype Flags = Flags(chunked: bool, keepAlive: bool, close: bool, connUpgrade: bool, trailing: bool, upgrade: bool,
                         skipBody: bool, contentLength: bool)

  const NO_FLAGS: Flags := Flags(false, false, false, false, false, false, false, false)

  datatype St =
    | Dead | StartReqOrRes | ResOrRespH | StartRes | ResH | ResHT | ResHTT | ResHTTP
    | ResFirstMajor | ResMajor | ResFirstMinor | ResMinor | ResFirstStatus | ResStatusCode | ResStatusStart | ResStatus
      | ResLineAlmostDone
    | StartReq | ReqMethod | ReqSpaces | Schema | SchemaSlash | SchemaSlashSlash | ServerStart | Server | ServerWithAt
    | ReqPath | QueryStart | Query | FragmentStart | Fragment
    | ReqHttpStart | ReqH | ReqHT | ReqHTT | ReqHTTP | ReqFirstMajor | ReqMajor | ReqFirstMinor | ReqMinor
      | ReqLineAlmostDone
    | FieldStart | HeaderField | DiscardWs | DiscardWsAlmostDone | DiscardLws | ValueStart | HeaderValue | ValueLws
      | HeaderAlmostDone
    | ChunkSizeStart | ChunkSize | ChunkParameters | ChunkSizeAlmostDone | HeadersAlmostDone | HeadersDone
    | ChunkData | ChunkDataAlmostDone | ChunkDataDone | BodyIdentity | BodyIdentityEof | MessageDone

  // PARSING_HEADER
  predicate ParsingHeader(s: St) {
    !(s.ChunkData? || s.ChunkDataAlmostDone? || s.ChunkDataDone? || s.BodyIdentity? || s.BodyIdentityEof?
      || s.MessageDone?)
  }

  datatype HState =
    | General | HC | HCO | HCON
    | MatchingConnection | MatchingProxyConnection | MatchingContentLength | MatchingTransferEncoding | MatchingUpgrade
    | Connection | ContentLength | TransferEncoding | Upgrade
    | MatchingChunked | TokenStart | MatchingKeepAlive | MatchingClose | MatchingConnUpgrade | ConnToken
    | Chunked | KeepAlive | Close | ConnUpgrade

  datatype Errno =
    | OK | InvalidEofState | HeaderOverflow | ClosedConnection | InvalidVersion | InvalidStatus | InvalidMethod
      | InvalidUrl
    | LfExpected | InvalidHeaderToken | InvalidContentLength | UnexpectedContentLength | InvalidChunkSize
      | InvalidConstant | Strict

  // struct http_parser, without nread and http_errno.
  datatype Parser = Parser(ty: Type, flags: Flags, st: St, hs: HState, index: nat, cl: nat, major: nat, minor: nat,
                           status: nat, verb: string, upgrade: bool)

  datatype Kind = Url | Status | Field | Value | Body

  datatype Note = MessageBegin | HeadersComplete | ChunkHeader | ChunkComplete | MessageComplete

  // MARK, CALLBACK_DATA up to the byte before this one, and CALLBACK_NOTIFY.
  datatype Act = Mark(k: Kind) | Flush(k: Kind) | Notify(n: Note)

  // What follows: the next byte, the same byte again, a return, or an error.
  datatype Flow = Advance | Again | Stop | Fail(e: Errno)

  datatype Out = Out(p: Parser, acts: seq<Act>, flow: Flow)

  // ---------- characters ----------

  const CR: char := '\r'
  const LF: char := '\n'

  // c | 0x20
  function Lower(c: char): char
    requires c < 256 as char
  {
    if (c as int / 32) % 2 == 0 then (c as int + 32) as char else c
  }

  predicate IsAlpha(c: char) { 'a' <= c <= 'z' || 'A' <= c <= 'Z' }

  predicate IsNum(c: char) { '0' <= c <= '9' }

  function Num(c: char): nat
    requires IsNum(c)
  {
    c as int - '0' as int
  }

  predicate IsMark(c: char) { c in "-_.!~*'()" }

  predicate IsUserinfo(c: char) { IsAlpha(c) || IsNum(c) || IsMark(c) || c in "%;:&=+$," }

  predicate IsUrlChar(c: char) { '!' <= c <= '~' && c != '#' && c != '?' }

  // The tokens table: 0 for characters that cannot be in a token.
  function Token(c: char): char {
    if 'A' <= c <= 'Z' then (c as int + 32) as char
    else if 'a' <= c <= 'z' || IsNum(c) || c in "!#$%&'*+-.^_`|~" then c
    else 0 as char
  }

  // IS_HEADER_CHAR
  predicate IsHeaderChar(c: char) { c == CR || c == LF || c == '\t' || (c > 31 as char && c != 127 as char) }

  function Unhex(c: char): int {
    if IsNum(c) then Num(c) else if 'a' <= c <= 'f' then c as int - 'a' as int + 10 else if 'A' <= c <= 'F'
      then c as int - 'A' as int + 10 else -1
  }

  // ---------- small pieces ----------

  function Go(p: Parser, s: St): Out { Out(p.(st := s), [], Advance) }

  function Error(p: Parser, e: Errno): Out { Out(p, [], Fail(e)) }

  // The same byte again, in state s.
  function Repeat(p: Parser, s: St, acts: seq<Act>): Out { Out(p.(st := s), acts, Again) }

  // CALLBACK_NOTIFY on the way to s.
  function Tells(p: Parser, s: St, n: Note, flow: Flow): Out { Out(p.(st := s), [Notify(n)], flow) }

  // STRICT_CHECK, then on to s.
  function Expect(p: Parser, ok: bool, s: St): Out { if ok then Go(p, s) else Error(p, Strict) }

  function NeedsEof(p: Parser): bool {
    if p.ty == Request then false
    else if p.status / 100 == 1 || p.status == 204 || p.status == 304 || p.flags.skipBody then false
    else if p.flags.chunked || p.cl != ULLONG_MAX then false
    else true
  }

  function ShouldKeepAlive(p: Parser): bool {
    if p.major > 0 && p.minor > 0 then !p.flags.close && !NeedsEof(p)
    else p.flags.keepAlive && !NeedsEof(p)
  }

  // NEW_MESSAGE
  function NewMessage(p: Parser): St {
    if ShouldKeepAlive(p) then if p.ty == Request then StartReq else StartRes else Dead
  }

  // parse_url_char; Dead where the character does not fit.
  function UrlChar(s: St, c: char): St {
    if c == ' ' || c == CR || c == LF || c == '\t' || c == 12 as char then Dead
    else
      match s
      case ReqSpaces => if c == '/' || c == '*' then ReqPath else if IsAlpha(c) then Schema else Dead
      case Schema => if IsAlpha(c) then Schema else if c == ':' then SchemaSlash else Dead
      case SchemaSlash => if c == '/' then SchemaSlashSlash else Dead
      case SchemaSlashSlash => if c == '/' then ServerStart else Dead
      case ServerWithAt => if c == '@' then Dead else ServerChar(c)
      case ServerStart => ServerChar(c)
      case Server => ServerChar(c)
      case ReqPath => if IsUrlChar(c) then ReqPath else if c == '?' then QueryStart else if c == '#' then FragmentStart
        else Dead
      case QueryStart => if IsUrlChar(c) || c == '?' then Query else if c == '#' then FragmentStart else Dead
      case Query => if IsUrlChar(c) || c == '?' then Query else if c == '#' then FragmentStart else Dead
      case FragmentStart => if IsUrlChar(c) || c == '?' then Fragment else if c == '#' then FragmentStart else Dead
      case Fragment => if IsUrlChar(c) || c == '?' || c == '#' then Fragment else Dead
      case _ => Dead
  }

  function ServerChar(c: char): St {
    if c == '/' then ReqPath else if c == '?' then QueryStart else if c == '@' then ServerWithAt
    else if IsUserinfo(c) || c == '[' || c == ']' then Server else Dead
  }

  predicate UrlState(s: St) {
    s.Schema? || s.SchemaSlash? || s.SchemaSlashSlash? || s.ServerStart? || s.Server? || s.ServerWithAt?
    || s.ReqPath? || s.QueryStart? || s.Query? || s.FragmentStart? || s.Fragment?
  }

  // ---------- the request and status lines ----------

  // The methods that begin with c; the rest is told apart later.
  function FirstVerb(c: char): string {
    match c
    case 'A' => "ACL" case 'B' => "BIND" case 'C' => "CONNECT" case 'D' => "DELETE" case 'G' => "GET" case 'H' => "HEAD"
    case 'L' => "LOCK" case 'M' => "MKCOL" case 'N' => "NOTIFY" case 'O' => "OPTIONS" case 'P' => "POST"
      case 'R' => "REPORT"
    case 'S' => "SUBSCRIBE" case 'T' => "TRACE" case 'U' => "UNLOCK" case _ => ""
  }

  // The method that c at position pos turns verb into.
  function OtherVerb(verb: string, pos: nat, c: char): string {
    if verb == "POST" && pos == 1 && c == 'U' then "PUT"
    else if verb == "POST" && pos == 1 && c == 'A' then "PATCH"
    else if verb == "CONNECT" && pos == 1 && c == 'H' then "CHECKOUT"
    else if verb == "CONNECT" && pos == 2 && c == 'P' then "COPY"
    else if verb == "MKCOL" && pos == 1 && c == 'O' then "MOVE"
    else if verb == "MKCOL" && pos == 1 && c == 'E' then "MERGE"
    else if verb == "MKCOL" && pos == 2 && c == 'A' then "MKACTIVITY"
    else if verb == "MKCOL" && pos == 3 && c == 'A' then "MKCALENDAR"
    else if verb == "SUBSCRIBE" && pos == 1 && c == 'E' then "SEARCH"
    else if verb == "REPORT" && pos == 2 && c == 'B' then "REBIND"
    else if verb == "POST" && pos == 1 && c == 'R' then "PROPFIND"
    else if verb == "PROPFIND" && pos == 4 && c == 'P' then "PROPPATCH"
    else if verb == "PUT" && pos == 2 && c == 'R' then "PURGE"
    else if verb == "LOCK" && pos == 1 && c == 'I' then "LINK"
    else if verb == "UNLOCK" && pos == 2 && c == 'S' then "UNSUBSCRIBE"
    else if verb == "UNLOCK" && pos == 2 && c == 'B' then "UNBIND"
    else if verb == "UNLOCK" && pos == 3 && c == 'I' then "UNLINK"
    else ""
  }

  // matcher[index], with the terminating NUL.
  function VerbAt(verb: string, i: nat): char { if i < |verb| then verb[i] else 0 as char }

  function VerbByte(p: Parser, c: char): Out {
    if c == 0 as char then Error(p, InvalidMethod)
    else if c == ' ' && VerbAt(p.verb, p.index) == 0 as char then Go(p.(index := p.index + 1), ReqSpaces)
    else if c == VerbAt(p.verb, p.index) then Go(p.(index := p.index + 1), ReqMethod)
    else if IsAlpha(c) then
      var verb := OtherVerb(p.verb, p.index, c);
      if verb == "" then Error(p, InvalidMethod) else Go(p.(verb := verb, index := p.index + 1), ReqMethod)
    else if c == '-' && p.index == 1 && p.verb == "MKCOL" then Go(p.(verb := "M-SEARCH", index := p.index + 1),
      ReqMethod)
    else Error(p, InvalidMethod)
  }

  // No flags and no length yet.
  function Cleared(p: Parser): Parser { p.(flags := NO_FLAGS, cl := ULLONG_MAX) }

  function StartByte(p: Parser, c: char): Out {
    match p.st
    case Dead => if c == CR || c == LF then Go(p, Dead) else Error(p, ClosedConnection)
    case StartReqOrRes => if c == CR || c == LF then Go(p, StartReqOrRes) else StartBothByte(Cleared(p), c)
    case ResOrRespH =>
      if c == 'T' then Go(p.(ty := Response), ResHT)
      else if c != 'E' then Error(p, InvalidConstant)
      else Go(p.(ty := Request, verb := "HEAD", index := 2), ReqMethod)
    case StartRes => StartResByte(Cleared(p), c)
    case _ => StartReqByte(p, c)
  }

  function StartBothByte(p: Parser, c: char): Out {
    if c == 'H' then Tells(p, ResOrRespH, MessageBegin, Advance) else Repeat(p.(ty := Request), StartReq, [])
  }

  function StartResByte(p: Parser, c: char): Out {
    if c == 'H' then Tells(p, ResH, MessageBegin, Advance)
    else if c == CR || c == LF then Tells(p, p.st, MessageBegin, Advance)
    else Error(p, InvalidConstant)
  }

  function StartReqByte(p: Parser, c: char): Out {
    if c == CR || c == LF then Go(p, p.st) else VerbBegin(Cleared(p), c)
  }

  function VerbBegin(p: Parser, c: char): Out {
    if !IsAlpha(c) then Error(p, InvalidMethod)
    else if FirstVerb(c) == "" then Error(p.(verb := "DELETE", index := 1), InvalidMethod)
    else Tells(p.(verb := FirstVerb(c), index := 1), ReqMethod, MessageBegin, Advance)
  }

  // One more digit of a version or status number.
  function MoreNum(n: nat, c: char): nat
    requires IsNum(c)
  {
    10 * n + Num(c)
  }

  function ResponseByte(p: Parser, c: char): Out {
    match p.st
    case ResH => Expect(p, c == 'T', ResHT)
    case ResHT => Expect(p, c == 'T', ResHTT)
    case ResHTT => Expect(p, c == 'P', ResHTTP)
    case ResHTTP => Expect(p, c == '/', ResFirstMajor)
    case ResFirstMajor => if !IsNum(c) then Error(p, InvalidVersion) else Go(p.(major := Num(c)), ResMajor)
    case ResMajor =>
      if c == '.' then Go(p, ResFirstMinor)
      else if !IsNum(c) then Error(p, InvalidVersion)
      else
        var q := p.(major := MoreNum(p.major, c));
        if q.major > 999 then Error(q, InvalidVersion) else Go(q, ResMajor)
    case ResFirstMinor => if !IsNum(c) then Error(p, InvalidVersion) else Go(p.(minor := Num(c)), ResMinor)
    case ResMinor =>
      if c == ' ' then Go(p, ResFirstStatus)
      else if !IsNum(c) then Error(p, InvalidVersion)
      else
        var q := p.(minor := MoreNum(p.minor, c));
        if q.minor > 999 then Error(q, InvalidVersion) else Go(q, ResMinor)
    case ResFirstStatus =>
      if !IsNum(c) then if c == ' ' then Go(p, ResFirstStatus) else Error(p, InvalidStatus)
      else Go(p.(status := Num(c)), ResStatusCode)
    case ResStatusCode =>
      if !IsNum(c) then
        if c == ' ' then Go(p, ResStatusStart)
        else if c == CR then Go(p, ResLineAlmostDone)
        else if c == LF then Go(p, FieldStart)
        else Error(p, InvalidStatus)
      else
        var q := p.(status := MoreNum(p.status, c));
        if q.status > 999 then Error(q, InvalidStatus) else Go(q, ResStatusCode)
    case ResStatusStart =>
      if c == CR then Go(p, ResLineAlmostDone)
      else if c == LF then Go(p, FieldStart)
      else Out(p.(st := ResStatus, index := 0), [Mark(Status)], Advance)
    case ResStatus =>
      if c == CR then Out(p.(st := ResLineAlmostDone), [Flush(Status)], Advance)
      else if c == LF then Out(p.(st := FieldStart), [Flush(Status)], Advance)
      else Go(p, ResStatus)
    case _ => LineEnd(p, c)
  }

  // s_res_line_almost_done
  function LineEnd(p: Parser, c: char): Out { Expect(p, c == LF, FieldStart) }

  function SpacesByte(p: Parser, c: char): Out {
    if c == ' ' then Go(p, ReqSpaces)
    else
      var s := UrlChar(if p.verb == "CONNECT" then ServerStart else ReqSpaces, c);
      Out(p.(st := s), [Mark(Url)], if s == Dead then Fail(InvalidUrl) else Advance)
  }

  function RequestByte(p: Parser, c: char): Out {
    match p.st
    case ReqMethod => VerbByte(p, c)
    case ReqSpaces => SpacesByte(p, c)
    case ReqHttpStart => if c == 'H' then Go(p, ReqH) else if c == ' ' then Go(p, ReqHttpStart)
      else Error(p, InvalidConstant)
    case ReqH => Expect(p, c == 'T', ReqHT)
    case ReqHT => Expect(p, c == 'T', ReqHTT)
    case ReqHTT => Expect(p, c == 'P', ReqHTTP)
    case ReqHTTP => Expect(p, c == '/', ReqFirstMajor)
    case ReqFirstMajor => if !('1' <= c <= '9') then Error(p, InvalidVersion) else Go(p.(major := Num(c)), ReqMajor)
    case ReqMajor =>
      if c == '.' then Go(p, ReqFirstMinor)
      else if !IsNum(c) then Error(p, InvalidVersion)
      else
        var q := p.(major := MoreNum(p.major, c));
        if q.major > 999 then Error(q, InvalidVersion) else Go(q, ReqMajor)
    case ReqFirstMinor => if !IsNum(c) then Error(p, InvalidVersion) else Go(p.(minor := Num(c)), ReqMinor)
    case ReqMinor =>
      if c == CR then Go(p, ReqLineAlmostDone)
      else if c == LF then Go(p, FieldStart)
      else if !IsNum(c) then Error(p, InvalidVersion)
      else
        var q := p.(minor := MoreNum(p.minor, c));
        if q.minor > 999 then Error(q, InvalidVersion) else Go(q, ReqMinor)
    case ReqLineAlmostDone => if c != LF then Error(p, LfExpected) else Go(p, FieldStart)
    case _ => UrlByte(p, c)
  }

  function UrlByte(p: Parser, c: char): Out {
    if p.st.Schema? || p.st.SchemaSlash? || p.st.SchemaSlashSlash? || p.st.ServerStart? then
      if c == ' ' || c == CR || c == LF then Error(p, InvalidUrl)
      else
        var s := UrlChar(p.st, c);
        Out(p.(st := s), [], if s == Dead then Fail(InvalidUrl) else Advance)
    else
      if c == ' ' then Out(p.(st := ReqHttpStart), [Flush(Url)], Advance)
      else if c == CR || c == LF then
        Out(p.(major := 0, minor := 9, st := if c == CR then ReqLineAlmostDone else FieldStart), [Flush(Url)], Advance)
      else
        var s := UrlChar(p.st, c);
        Out(p.(st := s), [], if s == Dead then Fail(InvalidUrl) else Advance)
  }

  // ---------- header fields ----------

  function FieldStartByte(p: Parser, c: char): Out {
    if c == CR then Go(p, HeadersAlmostDone)
    else if c == LF then Out(p.(st := HeadersAlmostDone), [], Again)
    else
      var t := Token(c);
      if t == 0 as char then Error(p, InvalidHeaderToken)
      else
        var hs := if t == 'c' then HC else if t == 'p' then MatchingProxyConnection
                  else if t == 't' then MatchingTransferEncoding else if t == 'u' then MatchingUpgrade else General;
        Out(p.(index := 0, st := HeaderField, hs := hs), [Mark(Field)], Advance)
  }

  // One more character of a name that is being matched.
  function Match(p: Parser, t: char, name: string, done: HState): Parser {
    var i := p.index + 1;
    if i > |name| || t != VerbAt(name, i) then p.(index := i, hs := General)
    else if i == |name| - 1 then p.(index := i, hs := done)
    else p.(index := i)
  }

  // A token character c, lower-cased to t, in a field name.
  function FieldChar(p: Parser, c: char, t: char): Parser {
    match p.hs
    case General => p
    case HC => p.(index := p.index + 1, hs := if t == 'o' then HCO else General)
    case HCO => p.(index := p.index + 1, hs := if t == 'n' then HCON else General)
    case HCON =>
      var hs := if t == 'n' then MatchingConnection else if t == 't' then MatchingContentLength else General;
      p.(index := p.index + 1, hs := hs)
    case MatchingConnection => Match(p, t, "connection", Connection)
    case MatchingProxyConnection => Match(p, t, "proxy-connection", Connection)
    case MatchingContentLength => Match(p, t, "content-length", ContentLength)
    case MatchingTransferEncoding => Match(p, t, "transfer-encoding", TransferEncoding)
    case MatchingUpgrade => Match(p, t, "upgrade", Upgrade)
    case _ => if c != ' ' then p.(hs := General) else p
  }

  // The connection option that begins with l.
  function FirstWord(l: char, otherwise: HState): HState {
    if l == 'k' then MatchingKeepAlive else if l == 'c' then MatchingClose
    else if l == 'u' then MatchingConnUpgrade else otherwise
  }

  function ValueStartByte(p: Parser, c: char): Out
    requires c < 256 as char
  {
    var q := p.(st := HeaderValue, index := 0);
    var l := Lower(c);
    match p.hs
    case Upgrade => Out(q.(flags := q.flags.(upgrade := true), hs := General), [Mark(Value)], Advance)
    case TransferEncoding => Out(q.(hs := if l == 'c' then MatchingChunked else General), [Mark(Value)], Advance)
    case ContentLength =>
      if !IsNum(c) then Out(q, [Mark(Value)], Fail(InvalidContentLength))
      else if p.flags.contentLength then Out(q, [Mark(Value)], Fail(UnexpectedContentLength))
      else Out(q.(flags := q.flags.(contentLength := true), cl := Num(c)), [Mark(Value)], Advance)
    case Connection =>
      Out(q.(hs := FirstWord(l, ConnToken)), [Mark(Value)], Advance)
    case TokenStart => Out(q, [Mark(Value)], Advance)
    case _ => Out(q.(hs := General), [Mark(Value)], Advance)
  }

  // A matched word of a Connection header, or the token that follows.
  function MatchWord(p: Parser, l: char, word: string, done: HState, otherwise: HState): Parser {
    var i := p.index + 1;
    if i > |word| || l != VerbAt(word, i) then p.(index := i, hs := otherwise)
    else if i == |word| - 1 then p.(index := i, hs := done)
    else p.(index := i)
  }

  // A character of a value that is neither CR nor LF.
  function ValueChar(p: Parser, c: char): Out
    requires c < 256 as char
  {
    var l := Lower(c);
    match p.hs
    case General => Go(p, HeaderValue)
    case ContentLength =>
      if c == ' ' then Go(p, HeaderValue)
      else if !IsNum(c) then Error(p, InvalidContentLength)
      else
        var t := (10 * p.cl + Num(c)) % TWO64;
        if (ULLONG_MAX - 10) / 10 < p.cl then Error(p, InvalidContentLength) else Go(p.(cl := t), HeaderValue)
    case MatchingChunked => Go(MatchWord(p, l, "chunked", Chunked, General), HeaderValue)
    case TokenStart =>
      var other := if Token(l) != 0 as char then ConnToken else if l == ' ' || l == '\t' then TokenStart else General;
      Go(p.(hs := FirstWord(l, other)), HeaderValue)
    case MatchingKeepAlive => Go(MatchWord(p, l, "keep-alive", KeepAlive, ConnToken), HeaderValue)
    case MatchingClose => Go(MatchWord(p, l, "close", Close, ConnToken), HeaderValue)
    case MatchingConnUpgrade => Go(MatchWord(p, l, "upgrade", ConnUpgrade, ConnToken), HeaderValue)
    case ConnToken => if c == ',' then Go(p.(hs := TokenStart, index := 0), HeaderValue) else Go(p, HeaderValue)
    case Chunked => Go(if c != ' ' then p.(hs := General) else p, HeaderValue)
    case KeepAlive => WordEnd(p, c, p.flags.(keepAlive := true))
    case Close => WordEnd(p, c, p.flags.(close := true))
    case ConnUpgrade => WordEnd(p, c, p.flags.(connUpgrade := true))
    case _ => Go(p.(hs := General), HeaderValue)
  }

  function WordEnd(p: Parser, c: char, flags: Flags): Out {
    if c == ',' then Go(p.(flags := flags, hs := TokenStart, index := 0), HeaderValue)
    else if c != ' ' then Go(p.(hs := ConnToken), HeaderValue)
    else Go(p, HeaderValue)
  }

  function EndFlags(h: HState, flags: Flags): Flags {
    if h.KeepAlive? then flags.(keepAlive := true)
    else if h.Close? then flags.(close := true)
    else if h.Chunked? then flags.(chunked := true)
    else if h.ConnUpgrade? then flags.(connUpgrade := true)
    else flags
  }

  // The end of a header: what its value meant.
  function HeaderEnd(p: Parser): Parser { p.(flags := EndFlags(p.hs, p.flags)) }

  function ValueByte(p: Parser, c: char): Out
    requires c < 256 as char
  {
    match p.st
    case DiscardWs =>
      if c == ' ' || c == '\t' then Go(p, DiscardWs)
      else if c == CR then Go(p, DiscardWsAlmostDone)
      else if c == LF then Go(p, DiscardLws)
      else ValueStartByte(p, c)
    case ValueStart => ValueStartByte(p, c)
    case DiscardWsAlmostDone => Expect(p, c == LF, DiscardLws)
    case DiscardLws =>
      if c == ' ' || c == '\t' then Go(p, DiscardWs)
      else Repeat(HeaderEnd(p), FieldStart, [Mark(Value), Flush(Value)])
    case HeaderAlmostDone => if c != LF then Error(p, LfExpected) else Go(p, ValueLws)
    case _ => LwsByte(p, c)
  }

  // s_header_value_lws
  function LwsByte(p: Parser, c: char): Out {
    if c == ' ' || c == '\t' then Repeat(p, ValueStart, []) else Repeat(HeaderEnd(p), FieldStart, [])
  }

  // ---------- the end of the headers, and the body ----------

  function HeadersByte(p: Parser, c: char): Out {
    if c != LF then Error(p, Strict) else if p.st.HeadersAlmostDone? then HeadersEnd(p) else BodyBegin(p)
  }

  // s_headers_almost_done
  function HeadersEnd(p: Parser): Out {
    if p.flags.trailing then Tells(p, MessageDone, ChunkComplete, Again)
    else if p.flags.chunked && p.flags.contentLength then Error(p, UnexpectedContentLength)
    else
      var upgrade := (p.flags.upgrade && p.flags.connUpgrade) || p.verb == "CONNECT";
      Tells(p.(upgrade := upgrade), HeadersDone, HeadersComplete, Again)
  }

  // s_headers_done
  function BodyBegin(p: Parser): Out {
    var hasBody := p.flags.chunked || (p.cl > 0 && p.cl != ULLONG_MAX);
    if p.upgrade && (p.verb == "CONNECT" || p.flags.skipBody || !hasBody) then
      Tells(p, NewMessage(p), MessageComplete, Stop)
    else if p.flags.skipBody then Tells(p, NewMessage(p), MessageComplete, Advance)
    else if p.flags.chunked then Go(p, ChunkSizeStart)
    else if p.cl == 0 then Tells(p, NewMessage(p), MessageComplete, Advance)
    else if p.cl != ULLONG_MAX then Go(p, BodyIdentity)
    else if !NeedsEof(p) then Tells(p, NewMessage(p), MessageComplete, Advance)
    else Go(p, BodyIdentityEof)
  }

  function ChunkByte(p: Parser, c: char): Out {
    match p.st
    case ChunkSizeStart => if Unhex(c) == -1 then Error(p, InvalidChunkSize) else Go(p.(cl := Unhex(c)), ChunkSize)
    case ChunkSize =>
      if c == CR then Go(p, ChunkSizeAlmostDone)
      else if Unhex(c) == -1 then if c == ';' || c == ' ' then Go(p, ChunkParameters) else Error(p, InvalidChunkSize)
      else
        var t := (16 * p.cl + Unhex(c)) % TWO64;
        if (ULLONG_MAX - 16) / 16 < p.cl then Error(p, InvalidContentLength) else Go(p.(cl := t), ChunkSize)
    case ChunkParameters => if c == CR then Go(p, ChunkSizeAlmostDone) else Go(p, ChunkParameters)
    case ChunkSizeAlmostDone =>
      if c != LF then Error(p, Strict)
      else if p.cl == 0 then Tells(Trailing(p), FieldStart, ChunkHeader, Advance)
      else Tells(p, ChunkData, ChunkHeader, Advance)
    case ChunkDataAlmostDone =>
      if c != CR then Error(p, Strict) else Out(p.(st := ChunkDataDone), [Flush(Body)], Advance)
    case ChunkDataDone => if c != LF then Error(p, Strict) else Tells(p, ChunkSizeStart, ChunkComplete, Advance)
    case _ => MessageEnd(p)
  }

  // s_message_done
  function MessageEnd(p: Parser): Out {
    Tells(p, NewMessage(p), MessageComplete, if p.upgrade then Stop else Advance)
  }

  function Trailing(p: Parser): Parser { p.(flags := p.flags.(trailing := true)) }

  // States whose code runs over several bytes at once.
  predicate Looping(s: St) { s.HeaderField? || s.HeaderValue? || s.BodyIdentity? || s.BodyIdentityEof? || s.ChunkData? }

  predicate StartState(s: St) { s.Dead? || s.StartReqOrRes? || s.ResOrRespH? || s.StartRes? || s.StartReq? }

  predicate ResponseState(s: St) {
    s.ResH? || s.ResHT? || s.ResHTT? || s.ResHTTP? || s.ResFirstMajor? || s.ResMajor? || s.ResFirstMinor? || s.ResMinor?
    || s.ResFirstStatus? || s.ResStatusCode? || s.ResStatusStart? || s.ResStatus? || s.ResLineAlmostDone?
  }

  predicate RequestState(s: St) {
    s.ReqMethod? || s.ReqSpaces? || UrlState(s) || s.ReqHttpStart? || s.ReqH? || s.ReqHT? || s.ReqHTT? || s.ReqHTTP?
    || s.ReqFirstMajor? || s.ReqMajor? || s.ReqFirstMinor? || s.ReqMinor? || s.ReqLineAlmostDone?
  }

  predicate ValueState(s: St) {
    s.DiscardWs? || s.DiscardWsAlmostDone? || s.DiscardLws? || s.ValueStart? || s.ValueLws? || s.HeaderAlmostDone?
  }

  // The switch, for all other states.
  function OneByte(p: Parser, c: char): Out
    requires c < 256 as char && !Looping(p.st)
  {
    if StartState(p.st) then StartByte(p, c)
    else if ResponseState(p.st) then ResponseByte(p, c)
    else if RequestState(p.st) then RequestByte(p, c)
    else if p.st.FieldStart? then FieldStartByte(p, c)
    else if ValueState(p.st) then ValueByte(p, c)
    else if p.st.HeadersAlmostDone? || p.st.HeadersDone? then HeadersByte(p, c)
    else ChunkByte(p, c)
  }
}
